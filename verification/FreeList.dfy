/** The intrusive free list: what it spells, what page_free's guard catches, and
    the in-place reordering that check_page_free_list does at boot. */
module FreeList {
  import opened Layout
  import opened Paging

  /** struct PageInfo. */
  datatype PageInfo = PageInfo(link: Ptr, ref: nat)

  /** Following pp_link from head spells xs; pages off the list have no link. */
  ghost predicate Spells(pages: seq<PageInfo>, head: Ptr, xs: seq<nat>) {
    && NoDup(xs)
    && head == Head(xs, 0)
    && (forall k :: 0 <= k < |xs| ==> xs[k] < |pages| && pages[xs[k]].link == Head(xs, k + 1))
    && (forall p :: 0 <= p < |pages| && p !in xs ==> pages[p].link == NULL)
  }

  // --------------------------------------------------------------- double free

  /** The pages array after page_free pushes p. */
  function Pushed(pages: seq<PageInfo>, head: Ptr, p: nat): seq<PageInfo>
    requires p < |pages|
  {
    pages[p := pages[p].(link := head)]
  }

  lemma PushSpells(pages: seq<PageInfo>, head: Ptr, xs: seq<nat>, p: nat)
    requires Spells(pages, head, xs) && p < |pages| && p !in xs
    ensures Spells(Pushed(pages, head, p), To(p), [p] + xs)
  {
    var ys := [p] + xs;
    var pages' := Pushed(pages, head, p);
    forall k | 0 <= k < |ys| ensures ys[k] < |pages'| && pages'[ys[k]].link == Head(ys, k + 1) {
      if k > 0 {
        assert ys[k] == xs[k - 1] && xs[k - 1] in xs;
        assert pages[xs[k - 1]].link == Head(xs, k);
        assert k < |xs| ==> ys[k + 1] == xs[k];
      }
    }
    assert forall q :: q !in ys ==> q !in xs && q != p;
  }

  /** The pages array after page_alloc pops the head. */
  function Popped(pages: seq<PageInfo>, p: nat): seq<PageInfo>
    requires p < |pages|
  {
    pages[p := pages[p].(link := NULL)]
  }

  lemma PopSpells(pages: seq<PageInfo>, head: Ptr, xs: seq<nat>)
    requires Spells(pages, head, xs) && xs != []
    ensures xs[0] < |pages| && head == To(xs[0])
    ensures Spells(Popped(pages, xs[0]), pages[xs[0]].link, xs[1..])
  {
    var ys := xs[1..];
    var pages' := Popped(pages, xs[0]);
    assert xs == [xs[0]] + ys;
    forall k | 0 <= k < |ys| ensures ys[k] < |pages'| && pages'[ys[k]].link == Head(ys, k + 1) {
      assert ys[k] == xs[k + 1] && xs[k + 1] != xs[0];
      assert pages[xs[k + 1]].link == Head(xs, k + 2);
    }
    forall p | 0 <= p < |pages'| && p !in ys ensures pages'[p].link == NULL {
      assert p in xs ==> p == xs[0];
    }
  }

  lemma PushTailCycles(pages: seq<PageInfo>, head: Ptr, xs: seq<nat>, p: nat, ys: seq<nat>)
    requires Spells(pages, head, xs) && p in xs && pages[p].link == NULL
    ensures !Spells(Pushed(pages, head, p), To(p), ys)
  {
    var pages' := Pushed(pages, head, p);
    assert Closed(pages', xs) by {
      forall i | 0 <= i < |xs| ensures pages'[xs[i]].link.To? && pages'[xs[i]].link.at in xs {
        assert xs[i] != p ==> pages[xs[i]].link == Head(xs, i + 1);
        var n :| 0 <= n < |xs| && xs[n] == p;
        assert pages[xs[n]].link == Head(xs, n + 1);
      }
    }
    if Spells(pages', To(p), ys) {
      CycleNeverEnds(pages', xs, ys, |ys| - 1);
    }
  }

  /** A page that passes page_free's guard leaves a list if and only if it was
      not on the list already: freeing the tail twice makes a cycle. */
  lemma FreeKeepsListIff(pages: seq<PageInfo>, head: Ptr, xs: seq<nat>, p: nat)
    requires Spells(pages, head, xs) && p < |pages|
    requires pages[p].ref == 0 && pages[p].link == NULL
    ensures (exists ys :: Spells(Pushed(pages, head, p), To(p), ys)) <==> p !in xs
  {
    if p !in xs {
      PushSpells(pages, head, xs, p);
    } else {
      forall ys ensures !Spells(Pushed(pages, head, p), To(p), ys) {
        PushTailCycles(pages, head, xs, p, ys);
      }
    }
  }

  ghost predicate Follows(pages: seq<PageInfo>, ys: seq<nat>) {
    forall k :: 0 <= k < |ys| ==> ys[k] < |pages| && pages[ys[k]].link == Head(ys, k + 1)
  }

  ghost predicate Closed(pages: seq<PageInfo>, xs: seq<nat>) {
    forall p :: p in xs ==> p < |pages| && pages[p].link.To? && pages[p].link.at in xs
  }

  /** Links that stay inside xs never reach the end of a list. */
  lemma {:induction false} CycleNeverEnds(pages: seq<PageInfo>, xs: seq<nat>, ys: seq<nat>, k: nat)
    requires Closed(pages, xs) && k < |ys| && ys[0] in xs && Follows(pages, ys)
    ensures ys[k] in xs && k + 1 < |ys|
  {
    if k > 0 {
      CycleNeverEnds(pages, xs, ys, k - 1);
      var q := ys[k - 1];
      assert pages[q].link == Head(ys, k) && pages[q].link.at in xs;
    }
    var p := ys[k];
    assert pages[p].link == Head(ys, k + 1) && pages[p].link.To?;
  }

  // -------------------------------------------------------------------- page_init

  const MPENTRY := 7    // PGNUM(MPENTRY_PADDR)

  /** Page 0, the entry code of the other processors, and everything from the end of
      base memory over the I/O hole to the end of the kernel. */
  predicate InUse(p: nat, base: nat, kernel: nat) {
    p == 0 || p == MPENTRY || base <= p < 256 + kernel
  }

  /** The free list spells xs, the unused pages below n; those in use are counted
      once, but for what base memory lacks below the I/O hole. */
  ghost predicate Listed(pages: seq<PageInfo>, head: Ptr, xs: seq<nat>, n: nat, base: nat, kernel: nat) {
    && Spells(pages, head, xs) && n <= |pages|
    && (forall p: nat :: p in xs <==> p < n && !InUse(p, base, kernel))
    && (forall p: nat :: p in xs ==> pages[p].ref == 0)
    && (forall p: nat :: p < n && InUse(p, base, kernel) && !(base <= p < 160) ==> pages[p].ref == 1)
  }

  lemma SameLinks(pages: seq<PageInfo>, pages': seq<PageInfo>, head: Ptr, xs: seq<nat>)
    requires Spells(pages, head, xs) && |pages'| == |pages|
    requires forall p :: 0 <= p < |pages| ==> pages'[p].link == pages[p].link
    ensures Spells(pages', head, xs)
  {
  }

  /** The loop body for an unused page. */
  method Release(pages: array<PageInfo>, n: nat, freeList: Ptr, ghost xs: seq<nat>, ghost base: nat, ghost kernel: nat)
    returns (head: Ptr)
    requires n < pages.Length && Listed(pages[..], freeList, xs, n, base, kernel) && !InUse(n, base, kernel)
    modifies pages
    ensures Listed(pages[..], head, [n] + xs, n + 1, base, kernel)
  {
    PushSpells(pages[..], freeList, xs, n);
    SameLinks(Pushed(pages[..], freeList, n), pages[..][n := PageInfo(freeList, 0)], To(n), [n] + xs);
    pages[n] := PageInfo(freeList, 0);
    head := To(n);
  }

  /** The loop body for a page in use. */
  method Reserve(pages: array<PageInfo>, n: nat, ghost head: Ptr, ghost xs: seq<nat>,
                 ghost base: nat, ghost kernel: nat)
    requires n < pages.Length && Listed(pages[..], head, xs, n, base, kernel) && InUse(n, base, kernel)
    modifies pages
    ensures Listed(pages[..], head, xs, n + 1, base, kernel)
  {
    SameLinks(pages[..], pages[..][n := pages[n].(ref := 1)], head, xs);
    pages[n] := pages[n].(ref := 1);
  }

  /** page_init on a zeroed array: base pages of base memory, at most those below the
      I/O hole, and kernel pages counted from 1 MB. */
  method PageInit(pages: array<PageInfo>, base: nat, kernel: nat) returns (freeList: Ptr, ghost xs: seq<nat>)
    requires 1 <= base <= 160 && 256 + kernel <= pages.Length
    requires forall p :: 0 <= p < pages.Length ==> pages[p] == PageInfo(NULL, 0)
    modifies pages
    ensures Listed(pages[..], freeList, xs, pages.Length, base, kernel)
  {
    freeList, xs := NULL, [];
    Reserve(pages, 0, freeList, xs, base, kernel);
    var i := 1;
    while i < base
      invariant 1 <= i <= base && Listed(pages[..], freeList, xs, i, base, kernel)
    {
      if i == MPENTRY {
        Reserve(pages, i, freeList, xs, base, kernel);
      } else {
        freeList := Release(pages, i, freeList, xs, base, kernel);
        xs := [i] + xs;
      }
      i := i + 1;
    }
    i := 160;
    while i < 256
      invariant 160 <= i <= 256 && Listed(pages[..], freeList, xs, i, base, kernel)
    {
      Reserve(pages, i, freeList, xs, base, kernel);
      i := i + 1;
    }
    while i < 256 + kernel
      invariant 256 <= i <= 256 + kernel && Listed(pages[..], freeList, xs, i, base, kernel)
    {
      Reserve(pages, i, freeList, xs, base, kernel);
      i := i + 1;
    }
    while i < pages.Length
      invariant 256 + kernel <= i <= pages.Length && Listed(pages[..], freeList, xs, i, base, kernel)
    {
      freeList := Release(pages, i, freeList, xs, base, kernel);
      xs := [i] + xs;
      i := i + 1;
    }
  }

  /** What page_init leaves, with kern_pgdir set up, is a memory before the first
      environment. */
  lemma PageInitBooted(pages: seq<PageInfo>, head: Ptr, m: Mem, base: nat, kernel: nat)
    requires Listed(pages, head, m.free, |pages|, base, kernel)
    requires |m.ref| == |pages| && forall p :: 0 <= p < |pages| ==> m.ref[p] == pages[p].ref
    requires m.reserved == set p: nat | p < |pages| && InUse(p, base, kernel)
    requires Shape(m) && KernelPart(m) && m.dirs == {}
    ensures Booted(m)
  {
  }

  // ----------------------------------------------------------------- reordering

  /** Low pages are those below the directory-index limit. */
  predicate Low(p: nat, limit: nat) {
    p / 1024 < limit
  }

  /** The pages of one class, in their original order. */
  function Class(xs: seq<nat>, limit: nat, low: bool): (r: seq<nat>)
    ensures forall p :: p in r <==> p in xs && Low(p, limit) == low
  {
    if xs == [] then []
    else
      var rest := Class(xs[..|xs| - 1], limit, low);
      assert xs == xs[..|xs| - 1] + [xs[|xs| - 1]];
      if Low(xs[|xs| - 1], limit) == low then rest + [xs[|xs| - 1]] else rest
  }

  lemma {:induction false} ClassNoDup(xs: seq<nat>, limit: nat, low: bool)
    requires NoDup(xs)
    ensures NoDup(Class(xs, limit, low))
  {
    if xs != [] {
      ClassNoDup(xs[..|xs| - 1], limit, low);
      assert xs[|xs| - 1] !in xs[..|xs| - 1];
    }
  }

  /** A chain under construction: first is its first page, tail the page whose
      link is to be written next, NULL for the local variable first. */
  ghost predicate Chain(pages: seq<PageInfo>, first: Ptr, tail: Ptr, c: seq<nat>) {
    && tail == (if c == [] then NULL else To(c[|c| - 1]))
    && (c != [] ==> first == To(c[0]))
    && (forall k :: 0 <= k < |c| ==> c[k] < |pages|)
    && (forall k :: 0 <= k < |c| - 1 ==> pages[c[k]].link == To(c[k + 1]))
  }

  /** The part of the list the loop has not reached. */
  ghost predicate Ahead(pages: seq<PageInfo>, pp: Ptr, xs: seq<nat>, n: nat) {
    && n <= |xs| && pp == Head(xs, n)
    && (forall k :: n <= k < |xs| ==> xs[k] < |pages| && pages[xs[k]].link == Head(xs, k + 1))
  }

  /** Both chains so far, the rest of the list, and no page lost. */
  ghost predicate Reordering(pages: seq<PageInfo>, limit: nat, xs: seq<nat>, n: nat, pp: Ptr,
                             pp1: Ptr, tail1: Ptr, pp2: Ptr, tail2: Ptr) {
    && NoDup(xs) && Ahead(pages, pp, xs, n)
    && Chain(pages, pp1, tail1, Class(xs[..n], limit, true))
    && Chain(pages, pp2, tail2, Class(xs[..n], limit, false))
    && (forall p :: 0 <= p < |pages| && p !in xs ==> pages[p].link == NULL)
  }

  /** The array after a store through a tail pointer; NULL is a local variable. */
  function Stored(pages: seq<PageInfo>, tail: Ptr, target: Ptr): seq<PageInfo>
    requires tail.To? ==> tail.at < |pages|
  {
    if tail == NULL then pages else pages[tail.at := pages[tail.at].(link := target)]
  }

  function Counts(pages: seq<PageInfo>): seq<nat> {
    seq(|pages|, p requires 0 <= p < |pages| => pages[p].ref)
  }

  /** *tp = target, where tp is &first or the link of the tail page. */
  method StoreTail(pages: array<PageInfo>, first: Ptr, tail: Ptr, target: Ptr) returns (first': Ptr)
    requires tail.To? ==> tail.at < pages.Length
    modifies pages
    ensures first' == if tail == NULL then target else first
    ensures pages[..] == Stored(old(pages[..]), tail, target)
    ensures Counts(pages[..]) == Counts(old(pages[..]))
  {
    first' := first;
    if tail == NULL {
      first' := target;
    } else {
      pages[tail.at] := pages[tail.at].(link := target);
    }
  }

  lemma ClassStep(xs: seq<nat>, n: nat, limit: nat, low: bool)
    requires n < |xs|
    ensures Class(xs[..n + 1], limit, low) ==
            if Low(xs[n], limit) == low then Class(xs[..n], limit, low) + [xs[n]] else Class(xs[..n], limit, low)
  {
    assert xs[..n + 1][..n] == xs[..n];
  }

  lemma ChainFrame(pages: seq<PageInfo>, first: Ptr, tail: Ptr, c: seq<nat>, other: Ptr, target: Ptr)
    requires Chain(pages, first, tail, c)
    requires other.To? ==> other.at < |pages| && other.at !in c
    ensures Chain(Stored(pages, other, target), first, tail, c)
  {
  }

  lemma ChainAppend(pages: seq<PageInfo>, first: Ptr, tail: Ptr, c: seq<nat>, p: nat)
    requires Chain(pages, first, tail, c) && NoDup(c) && p < |pages|
    ensures Chain(Stored(pages, tail, To(p)), if tail == NULL then To(p) else first, To(p), c + [p])
  {
  }

  lemma AheadFrame(pages: seq<PageInfo>, pp: Ptr, xs: seq<nat>, n: nat, other: Ptr, target: Ptr)
    requires Ahead(pages, pp, xs, n) && NoDup(xs)
    requires other.To? ==> other.at < |pages| && other.at in xs[..n]
    ensures Ahead(Stored(pages, other, target), pp, xs, n)
  {
    assert forall k :: n <= k < |xs| ==> xs[k] !in xs[..n];
  }

  lemma OffListFrame(pages: seq<PageInfo>, xs: seq<nat>, other: Ptr, target: Ptr)
    requires forall p :: 0 <= p < |pages| && p !in xs ==> pages[p].link == NULL
    requires other.To? ==> other.at < |pages| && other.at in xs
    ensures forall p :: 0 <= p < |pages| && p !in xs ==> Stored(pages, other, target)[p].link == NULL
  {
  }

  /** Appending page xs[n] to the chain c of its class; o is the other chain. */
  lemma AppendStep(pages: seq<PageInfo>, limit: nat, xs: seq<nat>, n: nat, low: bool,
                   first: Ptr, tail: Ptr, other: Ptr, otherTail: Ptr)
    requires n < |xs| && NoDup(xs) && Ahead(pages, To(xs[n]), xs, n) && Low(xs[n], limit) == low
    requires Chain(pages, first, tail, Class(xs[..n], limit, low))
    requires Chain(pages, other, otherTail, Class(xs[..n], limit, !low))
    requires forall p :: 0 <= p < |pages| && p !in xs ==> pages[p].link == NULL
    ensures tail.To? ==> tail.at < |pages|
    ensures var pages' := Stored(pages, tail, To(xs[n]));
            && Ahead(pages', To(xs[n]), xs, n)
            && Chain(pages', if tail == NULL then To(xs[n]) else first, To(xs[n]), Class(xs[..n + 1], limit, low))
            && Chain(pages', other, otherTail, Class(xs[..n + 1], limit, !low))
            && (forall p :: 0 <= p < |pages| && p !in xs ==> pages'[p].link == NULL)
  {
    ClassStep(xs, n, limit, low);
    ClassStep(xs, n, limit, !low);
    var c := Class(xs[..n], limit, low);
    ClassNoDup(xs[..n], limit, low);
    assert c != [] ==> c[|c| - 1] in c;
    ChainAppend(pages, first, tail, c, xs[n]);
    ChainFrame(pages, other, otherTail, Class(xs[..n], limit, !low), tail, To(xs[n]));
    AheadFrame(pages, To(xs[n]), xs, n, tail, To(xs[n]));
    OffListFrame(pages, xs, tail, To(xs[n]));
  }

  predicate Disjoint(lo: seq<nat>, hi: seq<nat>) {
    forall p :: p in lo ==> p !in hi
  }

  predicate OthersUnlinked(pages: seq<PageInfo>, lo: seq<nat>, hi: seq<nat>) {
    forall p :: 0 <= p < |pages| && p !in lo && p !in hi ==> pages[p].link == NULL
  }

  /** Ending the high chain. */
  lemma EndHigh(pages: seq<PageInfo>, first1: Ptr, tail1: Ptr, lo: seq<nat>, first2: Ptr, tail2: Ptr, hi: seq<nat>)
    requires Chain(pages, first1, tail1, lo) && Chain(pages, first2, tail2, hi)
    requires NoDup(hi) && Disjoint(lo, hi) && OthersUnlinked(pages, lo, hi)
    ensures tail2.To? ==> tail2.at < |pages|
    ensures var pages1 := Stored(pages, tail2, NULL);
            Chain(pages1, first1, tail1, lo) && Linked(pages1, hi, NULL) && OthersUnlinked(pages1, lo, hi)
  {
    EndChain(pages, first2, tail2, hi, NULL);
    assert tail2.To? ==> tail2.at !in lo;
    ChainFrame(pages, first1, tail1, lo, tail2, NULL);
  }

  /** Hanging the ended high chain after the low one. */
  lemma EndLow(pages: seq<PageInfo>, first1: Ptr, tail1: Ptr, lo: seq<nat>, hi: seq<nat>, rest: Ptr)
    requires Chain(pages, first1, tail1, lo) && Linked(pages, hi, NULL) && rest == Head(hi, 0)
    requires NoDup(lo) && NoDup(hi) && Disjoint(lo, hi) && OthersUnlinked(pages, lo, hi)
    ensures tail1.To? ==> tail1.at < |pages|
    ensures Spells(Stored(pages, tail1, rest), if tail1 == NULL then rest else first1, lo + hi)
  {
    EndChain(pages, first1, tail1, lo, rest);
    var pages' := Stored(pages, tail1, rest);
    LinkedFrame(pages, pages', hi, NULL, lo);
    JoinLinked(pages', lo, hi, rest);
    LinkedSpells(pages', lo, hi, if tail1 == NULL then rest else first1);
  }

  /** Both. */
  lemma EndChains(pages: seq<PageInfo>, first1: Ptr, tail1: Ptr, lo: seq<nat>, first2: Ptr, tail2: Ptr, hi: seq<nat>)
    requires Chain(pages, first1, tail1, lo) && Chain(pages, first2, tail2, hi)
    requires NoDup(lo) && NoDup(hi) && Disjoint(lo, hi) && OthersUnlinked(pages, lo, hi)
    ensures tail1.To? ==> tail1.at < |pages|
    ensures tail2.To? ==> tail2.at < |pages|
    ensures Spells(Stored(Stored(pages, tail2, NULL), tail1, if tail2 == NULL then NULL else first2),
                   if tail1 == NULL then (if tail2 == NULL then NULL else first2) else first1, lo + hi)
  {
    EndHigh(pages, first1, tail1, lo, first2, tail2, hi);
    EndLow(Stored(pages, tail2, NULL), first1, tail1, lo, hi, if tail2 == NULL then NULL else first2);
  }

  lemma LinkedFrame(pages: seq<PageInfo>, pages': seq<PageInfo>, c: seq<nat>, rest: Ptr, o: seq<nat>)
    requires Linked(pages, c, rest) && |pages'| == |pages| && forall p :: p in o ==> p !in c
    requires forall p :: 0 <= p < |pages| && p !in o ==> pages'[p] == pages[p]
    ensures Linked(pages', c, rest)
  {
    assert forall k :: 0 <= k < |c| ==> c[k] in c;
  }

  lemma LinkedSpells(pages: seq<PageInfo>, lo: seq<nat>, hi: seq<nat>, head: Ptr)
    requires Linked(pages, lo + hi, NULL) && head == Head(lo + hi, 0)
    requires NoDup(lo) && NoDup(hi) && Disjoint(lo, hi) && OthersUnlinked(pages, lo, hi)
    ensures Spells(pages, head, lo + hi)
  {
    assert NoDup(lo + hi) by {
      assert forall k :: 0 <= k < |lo| ==> lo[k] in lo;
      assert forall k :: 0 <= k < |hi| ==> hi[k] in hi;
    }
    assert forall p :: p !in lo + hi ==> p !in lo && p !in hi;
  }

  /** c is linked up, its last page to rest. */
  ghost predicate Linked(pages: seq<PageInfo>, c: seq<nat>, rest: Ptr) {
    forall k :: 0 <= k < |c| ==> c[k] < |pages| && pages[c[k]].link == NextIn(c, k, rest)
  }

  function NextIn(c: seq<nat>, k: nat, rest: Ptr): Ptr {
    if k + 1 < |c| then To(c[k + 1]) else rest
  }

  lemma EndChain(pages: seq<PageInfo>, first: Ptr, tail: Ptr, c: seq<nat>, rest: Ptr)
    requires Chain(pages, first, tail, c) && NoDup(c)
    ensures tail.To? ==> tail.at < |pages| && tail.at in c
    ensures Linked(Stored(pages, tail, rest), c, rest)
    ensures forall p :: 0 <= p < |pages| && p !in c ==> Stored(pages, tail, rest)[p] == pages[p]
  {
  }

  lemma JoinLinked(pages: seq<PageInfo>, lo: seq<nat>, hi: seq<nat>, rest: Ptr)
    requires Linked(pages, lo, rest) && Linked(pages, hi, NULL) && rest == Head(hi, 0)
    ensures Linked(pages, lo + hi, NULL)
  {
    var all := lo + hi;
    forall k | 0 <= k < |all|
      ensures all[k] < |pages| && pages[all[k]].link == NextIn(all, k, NULL)
    {
      if k + 1 < |lo| {
        assert all[k] == lo[k] && all[k + 1] == lo[k + 1];
      } else if k < |lo| {
        assert all[k] == lo[k] && pages[lo[k]].link == rest;
        assert hi != [] ==> all[k + 1] == hi[0];
      } else {
        var i := k - |lo|;
        assert all[k] == hi[i];
        assert i + 1 < |hi| ==> all[k + 1] == hi[i + 1];
      }
    }
  }

  /** The body of the loop: page pp is hung after the tail of its class. */
  method HangPage(pages: array<PageInfo>, limit: nat, p: nat, pp1: Ptr, tail1: Ptr, pp2: Ptr, tail2: Ptr,
                  ghost xs: seq<nat>, ghost n: nat)
    returns (pp1': Ptr, tail1': Ptr, pp2': Ptr, tail2': Ptr)
    requires n < |xs| && p == xs[n] && Reordering(pages[..], limit, xs, n, To(p), pp1, tail1, pp2, tail2)
    modifies pages
    ensures p < pages.Length
    ensures Reordering(pages[..], limit, xs, n + 1, pages[p].link, pp1', tail1', pp2', tail2')
    ensures Counts(pages[..]) == Counts(old(pages[..]))
  {
    AheadNext(pages[..], limit, xs, n, To(p), pp1, tail1, pp2, tail2);
    pp1', tail1', pp2', tail2' := pp1, tail1, pp2, tail2;
    if p / 1024 >= limit {
      pp2' := StoreTail(pages, pp2, tail2, To(p));
      tail2' := To(p);
    } else {
      pp1' := StoreTail(pages, pp1, tail1, To(p));
      tail1' := To(p);
    }
    assert pages[..][p] == pages[p];
  }

  lemma NextPage(pages: seq<PageInfo>, limit: nat, xs: seq<nat>, n: nat, pp: Ptr,
                 pp1: Ptr, tail1: Ptr, pp2: Ptr, tail2: Ptr)
    requires Reordering(pages, limit, xs, n, pp, pp1, tail1, pp2, tail2)
    ensures n <= |xs| && pp == Head(xs, n)
  {
  }

  /** The loop of check_page_free_list: a stable in-place partition of the free
      list, low pages first, losing and duplicating none. */
  method LowPagesFirst(pages: array<PageInfo>, head: Ptr, limit: nat, ghost xs: seq<nat>) returns (head': Ptr)
    requires Spells(pages[..], head, xs)
    modifies pages
    ensures Spells(pages[..], head', Class(xs, limit, true) + Class(xs, limit, false))
    ensures Counts(pages[..]) == Counts(old(pages[..]))
  {
    var pp1, pp2 := NULL, NULL;
    var tail1, tail2 := NULL, NULL;
    var pp := head;
    ghost var n := 0;
    StartsOut(pages[..], limit, xs, head);
    while pp != NULL
      invariant n <= |xs| && pp == Head(xs, n)
      invariant Reordering(pages[..], limit, xs, n, pp, pp1, tail1, pp2, tail2)
      invariant Counts(pages[..]) == Counts(old(pages[..]))
      decreases |xs| - n
    {
      var p := pp.at;
      pp1, tail1, pp2, tail2 := HangPage(pages, limit, p, pp1, tail1, pp2, tail2, xs, n);
      pp, n := pages[p].link, n + 1;
      NextPage(pages[..], limit, xs, n, pp, pp1, tail1, pp2, tail2);
    }
    Finished(pages[..], limit, xs, n, pp1, tail1, pp2, tail2);
    pp2 := StoreTail(pages, pp2, tail2, NULL);
    pp1 := StoreTail(pages, pp1, tail1, pp2);
    head' := pp1;
  }

  lemma StartsOut(pages: seq<PageInfo>, limit: nat, xs: seq<nat>, head: Ptr)
    requires Spells(pages, head, xs)
    ensures Reordering(pages, limit, xs, 0, head, NULL, NULL, NULL, NULL)
  {
    assert xs[..0] == [];
  }

  /** One iteration keeps both chains. */
  lemma AheadNext(pages: seq<PageInfo>, limit: nat, xs: seq<nat>, n: nat, pp: Ptr,
                  pp1: Ptr, tail1: Ptr, pp2: Ptr, tail2: Ptr)
    requires Reordering(pages, limit, xs, n, pp, pp1, tail1, pp2, tail2) && n < |xs|
    ensures pp == To(xs[n]) && xs[n] < |pages|
    ensures !Low(xs[n], limit) ==>
              && (tail2.To? ==> tail2.at < |pages|)
              && var pages' := Stored(pages, tail2, pp);
                 Reordering(pages', limit, xs, n + 1, pages'[xs[n]].link,
                            pp1, tail1, if tail2 == NULL then pp else pp2, pp)
    ensures Low(xs[n], limit) ==>
              && (tail1.To? ==> tail1.at < |pages|)
              && var pages' := Stored(pages, tail1, pp);
                 Reordering(pages', limit, xs, n + 1, pages'[xs[n]].link,
                            if tail1 == NULL then pp else pp1, pp, pp2, tail2)
  {
    if Low(xs[n], limit) {
      AppendStep(pages, limit, xs, n, true, pp1, tail1, pp2, tail2);
    } else {
      AppendStep(pages, limit, xs, n, false, pp2, tail2, pp1, tail1);
    }
  }

  lemma Finished(pages: seq<PageInfo>, limit: nat, xs: seq<nat>, n: nat,
                 pp1: Ptr, tail1: Ptr, pp2: Ptr, tail2: Ptr)
    requires Reordering(pages, limit, xs, n, NULL, pp1, tail1, pp2, tail2)
    ensures tail1.To? ==> tail1.at < |pages|
    ensures tail2.To? ==> tail2.at < |pages|
    ensures Spells(Stored(Stored(pages, tail2, NULL), tail1, if tail2 == NULL then NULL else pp2),
                   if tail1 == NULL then (if tail2 == NULL then NULL else pp2) else pp1,
                   Class(xs, limit, true) + Class(xs, limit, false))
  {
    assert xs[..n] == xs;
    ClassNoDup(xs, limit, true);
    ClassNoDup(xs, limit, false);
    EndChains(pages, pp1, tail1, Class(xs, limit, true), pp2, tail2, Class(xs, limit, false));
  }
}
