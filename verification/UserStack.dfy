/** Byte-addressed user memory and 32-bit words in it. */
module UserStack {

  /** The bytes the user can write. */
  type Mem = map<int, int>

  /** Four bytes, the least significant first. */
  datatype Word = Word(b0: int, b1: int, b2: int, b3: int)

  function ByteOf(w: Word, k: int): int {
    if k == 0 then w.b0 else if k == 1 then w.b1 else if k == 2 then w.b2 else w.b3
  }

  /** An address as it is stored. */
  function WordOf(x: int): Word {
    Word(x % 0x100, x / 0x100 % 0x100, x / 0x1_0000 % 0x100, x / 0x100_0000)
  }

  function Address(w: Word): int {
    w.b0 + 0x100 * w.b1 + 0x1_0000 * w.b2 + 0x100_0000 * w.b3
  }

  lemma AddressOfWord(x: int)
    ensures Address(WordOf(x)) == x
  {
    var y := x / 0x100;
    assert x / 0x1_0000 == y / 0x100;
    assert x / 0x100_0000 == y / 0x100 / 0x100;
  }

  predicate Mapped(m: Mem, a: int) {
    a in m && a + 1 in m && a + 2 in m && a + 3 in m
  }

  function Load(m: Mem, a: int): Word
    requires Mapped(m, a)
  {
    Word(m[a], m[a + 1], m[a + 2], m[a + 3])
  }

  function Store(m: Mem, a: int, x: Word): (r: Mem)
    requires Mapped(m, a)
    ensures r.Keys == m.Keys
    ensures forall b :: b in m && !(a <= b < a + 4) ==> r[b] == m[b]
  {
    map b | b in m :: if a <= b < a + 4 then ByteOf(x, b - a) else m[b]
  }

  lemma LoadStored(m: Mem, a: int, x: Word)
    requires Mapped(m, a)
    ensures Mapped(Store(m, a, x), a) && Load(Store(m, a, x), a) == x
  {
  }

  lemma LoadStoredTwice(m: Mem, a: int, x: Word, c: int, y: Word)
    requires Mapped(m, a) && Mapped(m, c) && (a + 4 <= c || c + 4 <= a)
    ensures var n := Store(Store(m, a, x), c, y);
            Mapped(n, a) && Mapped(n, c) && Load(n, a) == x && Load(n, c) == y
  {
  }

  /** The bytes of m from lo up to hi are in n as they were. */
  predicate Kept(m: Mem, n: Mem, lo: int, hi: int) {
    forall b :: b in m && lo <= b < hi ==> b in n && n[b] == m[b]
  }

  lemma LoadKept(m: Mem, n: Mem, lo: int, hi: int, a: int)
    requires Kept(m, n, lo, hi) && lo <= a && a + 4 <= hi && Mapped(m, a)
    ensures Mapped(n, a) && Load(n, a) == Load(m, a)
  {
  }

  predicate AllMapped(m: Mem, a: int, n: int) {
    forall b :: a <= b < a + n ==> b in m
  }

  /** Words one after the other, as a structure assignment stores them. */
  function StoreAll(m: Mem, a: int, ws: seq<Word>): (r: Mem)
    requires AllMapped(m, a, 4 * |ws|)
    ensures r.Keys == m.Keys
    ensures forall b :: b in m && !(a <= b < a + 4 * |ws|) ==> r[b] == m[b]
    decreases |ws|
  {
    if ws == [] then m else StoreAll(Store(m, a, ws[0]), a + 4, ws[1..])
  }

  /** The words ws lie at a. */
  predicate Holds(m: Mem, a: int, ws: seq<Word>) {
    AllMapped(m, a, 4 * |ws|) && forall k :: 0 <= k < |ws| ==> Load(m, a + 4 * k) == ws[k]
  }

  lemma HoldsCons(m: Mem, a: int, ws: seq<Word>)
    requires |ws| > 0 && Mapped(m, a) && Load(m, a) == ws[0] && Holds(m, a + 4, ws[1..])
    ensures Holds(m, a, ws)
  {
    assert AllMapped(m, a, 4 * |ws|) by {
      assert forall b :: a <= b < a + 4 ==> b in m;
    }
    forall k | 0 <= k < |ws| ensures Load(m, a + 4 * k) == ws[k] {
      if k > 0 {
        assert ws[k] == ws[1..][k - 1] && a + 4 * k == a + 4 + 4 * (k - 1);
      }
    }
  }

  lemma {:induction false} StoreAllHolds(m: Mem, a: int, ws: seq<Word>)
    requires AllMapped(m, a, 4 * |ws|)
    ensures Holds(StoreAll(m, a, ws), a, ws)
    decreases |ws|
  {
    if ws != [] {
      var m1 := Store(m, a, ws[0]);
      LoadStored(m, a, ws[0]);
      StoreAllHolds(m1, a + 4, ws[1..]);
      HoldsCons(StoreAll(m, a, ws), a, ws);
    }
  }

  lemma HoldsKept(m: Mem, n: Mem, lo: int, hi: int, a: int, ws: seq<Word>)
    requires Kept(m, n, lo, hi) && lo <= a && a + 4 * |ws| <= hi && Holds(m, a, ws)
    ensures Holds(n, a, ws)
  {
    forall k | 0 <= k < |ws| ensures Load(n, a + 4 * k) == ws[k] {
      LoadKept(m, n, lo, hi, a + 4 * k);
    }
  }
}
