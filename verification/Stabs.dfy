/** The binary search of the debug-symbol table for the entry of one type that
    contains an address. */
module Stabs {

  datatype Stab = Stab(kind: int, value: nat)

  const WORDS := 0x1_0000_0000

  /** addr++ on 32 bits. */
  function Inc32(addr: nat): nat {
    (addr + 1) % 0x1_0000_0000
  }

  predicate Is(t: seq<Stab>, i: int, kind: int) {
    0 <= i < |t| && t[i].kind == kind
  }

  /** The stabs of the kind within [lo, hi] are in order. */
  predicate Sorted(t: seq<Stab>, lo: int, hi: int, kind: int) {
    forall i, j :: lo <= i < j <= hi && Is(t, i, kind) && Is(t, j, kind) ==> t[i].value <= t[j].value
  }

  predicate Has(t: seq<Stab>, lo: int, hi: int, kind: int, value: nat) {
    exists i :: lo <= i <= hi && Is(t, i, kind) && t[i].value == value
  }

  /** After an exact match, the step from addr to addr + 1 neither wraps nor meets a
      stab. */
  predicate Spaced(t: seq<Stab>, lo: int, hi: int, kind: int, addr: nat) {
    Has(t, lo, hi, kind, addr) ==> addr + 1 < WORDS && !Has(t, lo, hi, kind, addr + 1)
  }

  predicate NoneIn(t: seq<Stab>, lo: int, hi: int, kind: int) {
    forall i :: lo <= i <= hi ==> !Is(t, i, kind)
  }

  /** m is the last stab of the kind within [lo, hi]. */
  predicate LastIn(t: seq<Stab>, lo: int, hi: int, kind: int, m: int) {
    lo <= m <= hi && Is(t, m, kind) && NoneIn(t, m + 1, hi, kind)
  }

  /** The stab the loop looks at: the last of its kind from l to the middle. */
  function Probe(t: seq<Stab>, l: int, m: int, kind: int): (p: int)
    requires l - 1 <= m
    ensures l - 1 <= p <= m
    ensures p >= l ==> LastIn(t, l, m, kind, p)
    ensures p < l ==> NoneIn(t, l, m, kind)
    decreases m - l
  {
    if m < l || Is(t, m, kind) then m else Probe(t, l, m - 1, kind)
  }

  /** Where the search stands in the second component of its measure: an exact match
      may leave the range as it is, but never twice running. */
  function Exact(t: seq<Stab>, l: int, r: int, kind: int, addr: nat): int
    requires 0 <= l
  {
    if l > r then 0
    else
      var p := Probe(t, l, (l + r) / 2, kind);
      if p >= l && t[p].value == addr then 1 else 0
  }

  /** addr lies at or after the stab left, before the next of its kind; right is just
      before that next one, or the end of the region. */
  predicate Brackets(t: seq<Stab>, lo: int, hi: int, kind: int, addr: nat, left: int, right: int) {
    && lo <= left <= right <= hi && Is(t, left, kind) && t[left].value <= addr
    && NoneIn(t, left + 1, right, kind)
    && (right < hi ==> Is(t, right + 1, kind) && t[right + 1].value > addr)
  }

  /** Every stab of the kind is beyond addr. */
  predicate AllBeyond(t: seq<Stab>, lo: int, hi: int, kind: int, addr: nat) {
    forall i :: lo <= i <= hi && Is(t, i, kind) ==> t[i].value > addr
  }

  /** What the search has established when [l, r] remains; found says that left has
      been set to a stab. */
  ghost predicate Narrowed(t: seq<Stab>, lo: int, hi: int, kind: int, a: nat, addr: nat,
                           l: int, r: int, left: int, any: bool, found: bool) {
    && (addr == a || (addr == a + 1 && Has(t, lo, hi, kind, a)))
    && (forall i :: lo <= i < l && Is(t, i, kind) ==> t[i].value <= a)
    && (forall i :: r < i <= hi && Is(t, i, kind) ==> t[i].value > a)
    && (r < hi ==> Is(t, r + 1, kind))
    && (any <==> found || r < hi)
    && (if found then
          lo <= left <= r && left <= l && Is(t, left, kind) && t[left].value <= a && NoneIn(t, left + 1, l - 1, kind)
        else left == lo && addr == a && NoneIn(t, lo, l - 1, kind))
  }

  /** Tables and addresses the search is promised to work on. */
  predicate Good(t: seq<Stab>, lo: int, hi: int, kind: int, a: nat) {
    Sorted(t, lo, hi, kind) && Spaced(t, lo, hi, kind, a)
  }

  /** The loop invariant: what holds for any table, and what for a good one. */
  ghost predicate Going(t: seq<Stab>, lo: int, hi: int, kind: int, a: nat, addr: nat,
                        l: int, r: int, left: int, any: bool, found: bool) {
    && 0 <= lo <= l && r <= hi < |t| && (l <= r + 1 || lo > hi) && addr < WORDS
    && lo <= left && (left <= hi || left == lo)
    && (any ==> !NoneIn(t, lo, hi, kind))
    && (!any ==> left == lo && NoneIn(t, lo, l - 1, kind) && r == hi)
    && (Good(t, lo, hi, kind, a) && lo <= hi ==> Narrowed(t, lo, hi, kind, a, addr, l, r, left, any, found))
  }

  // ------------------------------------------------------------------ the search

  /** The variables of the outer loop; *region_right is r throughout. */
  datatype Cursor = Cursor(l: int, r: int, left: int, any: bool, addr: nat)

  predicate InTable(t: seq<Stab>, c: Cursor) {
    0 <= c.l && c.r < |t| && 0 <= c.left
  }

  /** The stab a turn looks at. */
  function Looked(t: seq<Stab>, kind: int, c: Cursor): (m: int)
    requires InTable(t, c) && c.l <= c.r
    ensures c.l - 1 <= m <= (c.l + c.r) / 2
  {
    Probe(t, c.l, (c.l + c.r) / 2, kind)
  }

  /** One turn of the outer loop. */
  function Turn(t: seq<Stab>, kind: int, c: Cursor): (d: Cursor)
    requires InTable(t, c) && c.l <= c.r
    ensures InTable(t, d) && d.r <= c.r
  {
    var mid := (c.l + c.r) / 2;
    var m := Looked(t, kind, c);
    if m < c.l then c.(l := mid + 1)
    else if t[m].value < c.addr then Cursor(mid + 1, c.r, m, true, c.addr)
    else if t[m].value > c.addr then Cursor(c.l, m - 1, c.left, true, c.addr)
    else Cursor(m, c.r, m, true, Inc32(c.addr))
  }

  /** The range shrinks, or stays after an exact match, and then the next look is
      not one. */
  lemma TurnShrinks(t: seq<Stab>, kind: int, c: Cursor)
    requires InTable(t, c) && c.l <= c.r
    ensures var d := Turn(t, kind, c);
            d.r - d.l < c.r - c.l ||
            (d.r - d.l == c.r - c.l && Exact(t, d.l, d.r, kind, d.addr) < Exact(t, c.l, c.r, kind, c.addr))
  {
  }

  /** The outer loop from a given point on. */
  ghost function Narrow(t: seq<Stab>, kind: int, c: Cursor): (d: Cursor)
    requires InTable(t, c)
    ensures InTable(t, d) && d.r <= c.r && d.l > d.r
    decreases c.r - c.l, Exact(t, c.l, c.r, kind, c.addr)
  {
    if c.l > c.r then c else (TurnShrinks(t, kind, c); Narrow(t, kind, Turn(t, kind, c)))
  }

  /** The last loop: the rightmost stab of the kind after left, up to right. */
  function LastAfter(t: seq<Stab>, kind: int, left: int, right: int): (e: int)
    requires 0 <= left && right < |t|
    ensures e <= right && (e >= left || e == right) && NoneIn(t, e + 1, right, kind)
    ensures e > left ==> Is(t, e, kind)
    decreases right - left
  {
    if right > left && t[right].kind != kind then LastAfter(t, kind, left, right - 1) else right
  }

  /** *region_left and *region_right when stab_binsearch returns. */
  ghost function Searched(t: seq<Stab>, lo: int, hi: int, kind: int, addr: nat): (int, int)
    requires 0 <= lo && hi < |t|
  {
    var c := Narrow(t, kind, Cursor(lo, hi, lo, false, addr));
    if c.any then (LastAfter(t, kind, c.left, c.r), c.r) else (c.left, c.left - 1)
  }

  /** What stab_binsearch leaves in *region_left and *region_right: the bracket of
      addr; with no stab of the kind an empty region; with all of them beyond addr
      the part of the region before the first. */
  predicate Found(t: seq<Stab>, lo: int, hi: int, kind: int, a: nat, left: int, right: int) {
    && (NoneIn(t, lo, hi, kind) ==> left == lo && right == lo - 1)
    && (Good(t, lo, hi, kind, a) && !AllBeyond(t, lo, hi, kind, a) ==> Brackets(t, lo, hi, kind, a, left, right))
    && (Good(t, lo, hi, kind, a) && AllBeyond(t, lo, hi, kind, a) && !NoneIn(t, lo, hi, kind) ==>
          && NoneIn(t, lo, right, kind) && Is(t, right + 1, kind)
          && left == if right < lo then right else lo)
  }

  /** Nothing is left to search. */
  lemma Ended(t: seq<Stab>, lo: int, hi: int, kind: int, a: nat, addr: nat,
              l: int, r: int, left: int, any: bool, found: bool, end: int)
    requires Going(t, lo, hi, kind, a, addr, l, r, left, any, found) && l > r
    requires any ==> NoneIn(t, end + 1, r, kind) && end <= r
    requires any ==> (end <= left || Is(t, end, kind)) && (end >= left || end == r)
    ensures if any then Found(t, lo, hi, kind, a, end, r) else Found(t, lo, hi, kind, a, left, left - 1)
  {
    assert found && any && Good(t, lo, hi, kind, a) ==> !AllBeyond(t, lo, hi, kind, a);
  }

  ghost predicate GoingAt(t: seq<Stab>, lo: int, hi: int, kind: int, a: nat, c: Cursor, found: bool) {
    Going(t, lo, hi, kind, a, c.addr, c.l, c.r, c.left, c.any, found)
  }

  /** No stab of the kind up to the middle. */
  lemma NothingHere(t: seq<Stab>, lo: int, hi: int, kind: int, a: nat, c: Cursor, found: bool)
    requires GoingAt(t, lo, hi, kind, a, c, found) && c.l <= c.r && InTable(t, c) && Looked(t, kind, c) < c.l
    ensures GoingAt(t, lo, hi, kind, a, Turn(t, kind, c), found)
  {
  }

  lemma GoRight(t: seq<Stab>, lo: int, hi: int, kind: int, a: nat, c: Cursor, found: bool)
    requires GoingAt(t, lo, hi, kind, a, c, found) && c.l <= c.r && InTable(t, c)
    requires Looked(t, kind, c) >= c.l && t[Looked(t, kind, c)].value < c.addr
    ensures GoingAt(t, lo, hi, kind, a, Turn(t, kind, c), true)
  {
  }

  lemma GoLeft(t: seq<Stab>, lo: int, hi: int, kind: int, a: nat, c: Cursor, found: bool)
    requires GoingAt(t, lo, hi, kind, a, c, found) && c.l <= c.r && InTable(t, c)
    requires Looked(t, kind, c) >= c.l && t[Looked(t, kind, c)].value > c.addr
    ensures GoingAt(t, lo, hi, kind, a, Turn(t, kind, c), found)
  {
  }

  lemma GoExact(t: seq<Stab>, lo: int, hi: int, kind: int, a: nat, c: Cursor, found: bool)
    requires GoingAt(t, lo, hi, kind, a, c, found) && c.l <= c.r && InTable(t, c)
    requires Looked(t, kind, c) >= c.l && t[Looked(t, kind, c)].value == c.addr
    ensures GoingAt(t, lo, hi, kind, a, Turn(t, kind, c), true)
  {
  }

  /** Every turn keeps the invariant. */
  lemma TurnGoing(t: seq<Stab>, lo: int, hi: int, kind: int, a: nat, c: Cursor, found: bool)
    requires GoingAt(t, lo, hi, kind, a, c, found) && c.l <= c.r && InTable(t, c)
    ensures exists f :: GoingAt(t, lo, hi, kind, a, Turn(t, kind, c), f)
  {
    var m := Looked(t, kind, c);
    if m < c.l {
      NothingHere(t, lo, hi, kind, a, c, found);
    } else if t[m].value < c.addr {
      GoRight(t, lo, hi, kind, a, c, found);
    } else if t[m].value > c.addr {
      GoLeft(t, lo, hi, kind, a, c, found);
    } else {
      GoExact(t, lo, hi, kind, a, c, found);
    }
  }

  /** What the loop ends with is what the invariant says of an empty range. */
  lemma {:induction false} NarrowGoing(t: seq<Stab>, lo: int, hi: int, kind: int, a: nat, c: Cursor, found: bool)
    returns (found': bool)
    requires GoingAt(t, lo, hi, kind, a, c, found) && InTable(t, c)
    ensures GoingAt(t, lo, hi, kind, a, Narrow(t, kind, c), found')
    decreases c.r - c.l, Exact(t, c.l, c.r, kind, c.addr)
  {
    found' := found;
    if c.l <= c.r {
      TurnGoing(t, lo, hi, kind, a, c, found);
      found' :| GoingAt(t, lo, hi, kind, a, Turn(t, kind, c), found');
      TurnShrinks(t, kind, c);
      found' := NarrowGoing(t, lo, hi, kind, a, Turn(t, kind, c), found');
    }
  }

  /** stab_binsearch brackets any address, in any table whose stabs of the kind are
      in order, unless addr is the value of such a stab and addr + 1 is one too or
      wraps. */
  lemma SearchBrackets(t: seq<Stab>, lo: int, hi: int, kind: int, addr: nat)
    requires 0 <= lo && hi < |t| && addr < WORDS
    ensures var (left, right) := Searched(t, lo, hi, kind, addr);
            Found(t, lo, hi, kind, addr, left, right)
  {
    var start := Cursor(lo, hi, lo, false, addr);
    var found := NarrowGoing(t, lo, hi, kind, addr, start, false);
    var c := Narrow(t, kind, start);
    Ended(t, lo, hi, kind, addr, c.addr, c.l, c.r, c.left, c.any, found,
          if c.any then LastAfter(t, kind, c.left, c.r) else c.left);
  }

  /** With stabs at 5 and 6, the search for 5 ends at the second. */
  lemma NeighbourMisleads()
    ensures var t := [Stab(0, 5), Stab(0, 6)];
            && Sorted(t, 0, 1, 0) && Searched(t, 0, 1, 0, 5) == (1, 1)
            && !Brackets(t, 0, 1, 0, 5, 1, 1) && Brackets(t, 0, 1, 0, 5, 0, 0)
  {
    var t := [Stab(0, 5), Stab(0, 6)];
    assert Probe(t, 0, 0, 0) == 0 && Probe(t, 1, 1, 0) == 1;
    var c0 := Cursor(0, 1, 0, false, 5);
    var c1, c2, c3, c4 := Turn(t, 0, c0), Cursor(1, 1, 0, true, 6), Cursor(1, 1, 1, true, 7), Cursor(2, 1, 1, true, 7);
    assert c1 == Cursor(0, 1, 0, true, 6);
    assert Turn(t, 0, c1) == c2 && Turn(t, 0, c2) == c3 && Turn(t, 0, c3) == c4;
    assert Narrow(t, 0, c0) == Narrow(t, 0, c1) == Narrow(t, 0, c2) == Narrow(t, 0, c3) == Narrow(t, 0, c4);
  }

  /** With a stab at the last address, the search for it ends in the empty region
      before the table. */
  lemma WrapMisleads()
    ensures var t := [Stab(0, 0xFFFF_FFFF)];
            && Searched(t, 0, 0, 0, 0xFFFF_FFFF) == (-1, -1) && Brackets(t, 0, 0, 0, 0xFFFF_FFFF, 0, 0)
  {
    var t := [Stab(0, 0xFFFF_FFFF)];
    assert Probe(t, 0, 0, 0) == 0;
    var c0, c1, c2 := Cursor(0, 0, 0, false, 0xFFFF_FFFF), Cursor(0, 0, 0, true, 0), Cursor(0, -1, 0, true, 0);
    assert Turn(t, 0, c0) == c1 && Turn(t, 0, c1) == c2;
    assert Narrow(t, 0, c0) == Narrow(t, 0, c1) == Narrow(t, 0, c2) == c2;
    assert LastAfter(t, 0, 0, -1) == -1;
  }

  /** No word is greater. */
  const LAST := 0xFFFF_FFFF

  predicate Words(t: seq<Stab>, lo: int, hi: int, kind: int) {
    forall i :: lo <= i <= hi && Is(t, i, kind) ==> t[i].value <= LAST
  }

  /** After a match of the last address: the loop looks for address 0 among stabs that
      all have the last address. */
  predicate Wrapped(t: seq<Stab>, hi: int, kind: int, c: Cursor) {
    && InTable(t, c) && c.any && c.addr == 0 && c.left == c.l && c.l <= c.r + 1 && c.r <= hi
    && Is(t, c.l, kind) && (forall i :: c.l <= i <= hi && Is(t, i, kind) ==> t[i].value == LAST)
  }

  /** It gives them up one after the other. */
  lemma {:induction false} WrappedLosesAll(t: seq<Stab>, hi: int, kind: int, c: Cursor)
    requires Wrapped(t, hi, kind, c)
    ensures var d := Narrow(t, kind, c); d.any && d.left == c.l && d.r == c.l - 1
    decreases c.r - c.l
  {
    if c.l <= c.r {
      assert Looked(t, kind, c) >= c.l;
      WrappedLosesAll(t, hi, kind, Turn(t, kind, c));
    }
  }

  /** Before the match nothing is cut off on the right. */
  predicate Seeking(t: seq<Stab>, lo: int, hi: int, kind: int, c: Cursor) {
    && InTable(t, c) && c.addr == LAST && c.r == hi && lo <= c.l <= hi + 1
    && forall i :: lo <= i < c.l && Is(t, i, kind) ==> t[i].value < LAST
  }

  lemma SeekTurn(t: seq<Stab>, lo: int, hi: int, kind: int, c: Cursor)
    requires Sorted(t, lo, hi, kind) && Words(t, lo, hi, kind) && Seeking(t, lo, hi, kind, c) && c.l <= c.r && 0 <= lo
    ensures var d := Turn(t, kind, c);
            (Seeking(t, lo, hi, kind, d) && d.l > c.l) || (Wrapped(t, hi, kind, d) && lo <= d.l <= hi)
  {
  }

  lemma {:induction false} SeekEnds(t: seq<Stab>, lo: int, hi: int, kind: int, c: Cursor) returns (m: int)
    requires 0 <= lo && Sorted(t, lo, hi, kind) && Words(t, lo, hi, kind) && Seeking(t, lo, hi, kind, c)
    requires Has(t, lo, hi, kind, LAST)
    ensures lo <= m <= hi && Is(t, m, kind) && t[m].value == LAST
    ensures var d := Narrow(t, kind, c); d.any && d.left == m && d.r == m - 1
    decreases c.r - c.l
  {
    assert c.l <= c.r;
    var d := Turn(t, kind, c);
    SeekTurn(t, lo, hi, kind, c);
    if Seeking(t, lo, hi, kind, d) {
      m := SeekEnds(t, lo, hi, kind, d);
    } else {
      WrappedLosesAll(t, hi, kind, d);
      m := d.l;
    }
  }

  /** In a table in order the search for the last address, where addr + 1 wraps to 0,
      finds the bracket exactly when no stab has that address. */
  lemma WrapBracketsIff(t: seq<Stab>, lo: int, hi: int, kind: int)
    requires 0 <= lo && hi < |t| && Sorted(t, lo, hi, kind) && Words(t, lo, hi, kind) && !NoneIn(t, lo, hi, kind)
    ensures var (left, right) := Searched(t, lo, hi, kind, LAST);
            Brackets(t, lo, hi, kind, LAST, left, right) <==> !Has(t, lo, hi, kind, LAST)
  {
    if Has(t, lo, hi, kind, LAST) {
      var m := SeekEnds(t, lo, hi, kind, Cursor(lo, hi, lo, false, LAST));
    } else {
      SearchBrackets(t, lo, hi, kind, LAST);
    }
  }

  // -------------------------------------------------------------------- the code

  /** The scan for the earliest stab with the right type. */
  method Earliest(t: array<Stab>, l: int, trueM: int, kind: int) returns (m: int)
    requires 0 <= l <= trueM < t.Length
    ensures m == Probe(t[..], l, trueM, kind)
  {
    m := trueM;
    while m >= l && t[m].kind != kind
      invariant l - 1 <= m <= trueM
      invariant Probe(t[..], l, trueM, kind) == Probe(t[..], l, m, kind)
    {
      m := m - 1;
    }
  }

  method Rightmost(t: array<Stab>, left: int, right: int, kind: int) returns (l: int)
    requires 0 <= left && right < t.Length
    ensures l == LastAfter(t[..], kind, left, right)
  {
    l := right;
    while l > left && t[l].kind != kind
      invariant l <= right && LastAfter(t[..], kind, left, l) == LastAfter(t[..], kind, left, right)
    {
      l := l - 1;
    }
  }

  /** The body of the outer loop. */
  method OneTurn(t: array<Stab>, kind: int, l: int, r: int, left: int, any: bool, addr: nat)
    returns (l': int, r': int, left': int, any': bool, addr': nat)
    requires InTable(t[..], Cursor(l, r, left, any, addr)) && l <= r
    ensures Cursor(l', r', left', any', addr') == Turn(t[..], kind, Cursor(l, r, left, any, addr))
  {
    l', r', left', any', addr' := l, r, left, any, addr;
    var trueM := (l + r) / 2;
    var m := Earliest(t, l, trueM, kind);
    if m < l {
      l' := trueM + 1;
      return;
    }
    any' := true;
    if t[m].value < addr {
      left' := m;
      l' := trueM + 1;
    } else if t[m].value > addr {
      r' := m - 1;
    } else {
      left' := m;
      l' := m;
      addr' := Inc32(addr);
    }
  }

  /** stab_binsearch: ends on every table, and leaves what Found says. */
  method StabBinsearch(t: array<Stab>, regionLeft: int, regionRight: int, kind: int, address: nat)
    returns (left: int, right: int)
    requires 0 <= regionLeft && regionRight < t.Length && address < WORDS
    ensures (left, right) == Searched(t[..], regionLeft, regionRight, kind, address)
    ensures Found(t[..], regionLeft, regionRight, kind, address, left, right)
  {
    SearchBrackets(t[..], regionLeft, regionRight, kind, address);
    ghost var g := Narrow(t[..], kind, Cursor(regionLeft, regionRight, regionLeft, false, address));
    left := regionLeft;
    var addr: nat := address;
    var l, r, any := left, regionRight, false;
    while l <= r
      invariant InTable(t[..], Cursor(l, r, left, any, addr))
      invariant Narrow(t[..], kind, Cursor(l, r, left, any, addr)) == g
      decreases r - l, Exact(t[..], l, r, kind, addr)
    {
      TurnShrinks(t[..], kind, Cursor(l, r, left, any, addr));
      l, r, left, any, addr := OneTurn(t, kind, l, r, left, any, addr);
    }
    right := r;
    if !any {
      right := left - 1;
    } else {
      left := Rightmost(t, left, right, kind);
    }
  }
}
