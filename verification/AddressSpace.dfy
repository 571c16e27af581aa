/** The page-table operations of the kernel as functions on memory, and their
    refinement: whatever tables they allocate on the way, each acts on a flat
    map from virtual page to page-table word, at one entry of one address
    space, and keeps every reference count exact. */
module AddressSpace {
  import opened Paging

  /** The word in the PTE slot of virtual page v; 0 without a table. */
  function Pte(m: Mem, d: nat, v: nat): Word {
    if Present(At(m, d, PDX(v))) then At(m, TableOf(m, d, PDX(v)), PTX(v)) else ZERO
  }

  /** The flat view: what directory d maps at virtual page v, 0 for nothing. */
  function Translate(m: Mem, d: nat, v: nat): Word {
    var w := Pte(m, d, v);
    if Present(w) then w else ZERO
  }

  function SiteOf(d: nat, v: nat): Site {
    PageSite(d, PDX(v), PTX(v))
  }

  lemma TranslateIsReference(m: Mem, d: nat, v: nat, p: nat)
    requires d in m.dirs && v < UTOP_VPN
    ensures Maps(Translate(m, d, v), p) <==> Refers(m, SiteOf(d, v), p)
  {
  }

  /** What the processor grants user code at virtual page v when directory d is loaded:
      the directory entry and the page-table entry must both be present and both give
      the permission. */
  predicate MmuGrants(m: Mem, d: nat, v: nat, f: Flag) {
    var pde := At(m, d, v / 1024);
    {P, f} <= pde.flags && {P, f} <= At(m, pde.ppn, v % 1024).flags
  }

  /** That is what the page-table entry alone says. */
  lemma TablesGrant(m: Mem, held: multiset<nat>, limbo: set<nat>, d: nat, v: nat, f: Flag)
    requires Inv(m, held, limbo) && d in m.dirs && v < UTOP_VPN && (f == P || f == U || f == W)
    ensures MmuGrants(m, d, v, f) <==> f in Translate(m, d, v).flags
  {
    assert PDX(v) == v / 1024 && PTX(v) == v % 1024;
    if Present(At(m, d, PDX(v))) {
      assert {P, U, W} <= At(m, d, PDX(v)).flags;
    }
  }

  /** Every user mapping of every live directory is as before. */
  ghost predicate SameFlat(m: Mem, m': Mem) {
    forall e, u :: e in m.dirs && 0 <= u < UTOP_VPN ==> Translate(m', e, u) == Translate(m, e, u)
  }

  /** Only virtual page v of directory d changed, to w. */
  ghost predicate FlatUpdate(m: Mem, m': Mem, d: nat, v: nat, w: Word) {
    forall e, u :: e in m.dirs && 0 <= u < UTOP_VPN ==>
      Translate(m', e, u) == if e == d && u == v then w else Translate(m, e, u)
  }

  /** No reference held by another address space changed. */
  ghost predicate SameOutside(m: Mem, m': Mem, d: nat) {
    forall s: Site, p :: s.dir != d ==> (Refers(m', s, p) <==> Refers(m, s, p))
  }

  ghost predicate Fixed(m: Mem, m': Mem) {
    m'.dirs == m.dirs && m'.reserved == m.reserved && m'.kern == m.kern && |m'.ref| == |m.ref|
  }

  // --------------------------------------------------------------- pgdir_walk

  /** pgdir_walk: the memory afterwards and whether a table exists. */
  ghost function Walk(m: Mem, d: nat, v: nat, create: bool): (r: (Mem, bool))
  {
    if Present(At(m, d, PDX(v))) then (m, true)
    else if !create || m.free == [] then (m, false)
    else
      var t := m.free[0];
      (SetWord(IncRef(PopFree(m, true), t), d, PDX(v), Word(t, {P, U, W})), true)
  }

  lemma InvBounds(m: Mem, held: multiset<nat>, limbo: set<nat>)
    requires Inv(m, held, limbo)
    ensures forall k :: 0 <= k < |m.free| ==> m.free[k] < |m.ref|
    ensures forall d :: d in m.dirs ==> d < |m.phys| && Managed(m, d)
  {
    assert forall k :: 0 <= k < |m.free| ==> m.free[k] in m.free;
    forall d | d in m.dirs ensures d < |m.phys| && Managed(m, d) {
      assert Refers(m, DirSite(d), d);
    }
  }

  /** The data pages of m stay data pages, except one taken off the free list. */
  ghost predicate KeepsDataPages(m: Mem, m': Mem) {
    forall p: nat :: DataPage(m, p) && p !in m.free ==> DataPage(m', p) && p !in m'.free && m'.ref[p] == m.ref[p]
  }

  /** page_alloc(ALLOC_ZERO) followed by pp_ref++: a zero page that nothing
      refers to, whose one reference is held. */
  ghost function FreshPage(m: Mem): Mem
    requires m.free != []
  {
    IncRef(PopFree(m, true), m.free[0])
  }

  lemma FreshPageKeeps(m: Mem, held: multiset<nat>, limbo: set<nat>)
    requires Inv(m, held, limbo) && m.free != []
    ensures var t := m.free[0];
            var m' := FreshPage(m);
            && Inv(m', held + multiset{t}, limbo)
            && SameRefs(m, m') && Fixed(m, m')
            && Managed(m, t) && (forall s :: !Refers(m', s, t)) && m'.phys[t] == ZeroPage()
            && (forall q, k :: q != t ==> At(m', q, k) == At(m, q, k))
            && m'.free == m.free[1..] && t !in m'.free
            && m'.ref == m.ref[t := 1]
            && t !in m.dirs
  {
    InvBounds(m, held, limbo);
    var t := m.free[0];
    var m1 := PopFree(m, true);
    PopKeeps(m, held, limbo, true);
    assert t in m.free && t !in m1.free;
    IncKeeps(m1, held, limbo + {t}, t);
    assert limbo + {t} - {t} == limbo;
    assert !Refers(m1, DirSite(t), t);
  }

  lemma FreshKeepsData(m: Mem, m': Mem, t: nat)
    requires SameRefs(m, m') && Fixed(m, m') && m.free != [] && t == m.free[0] && t < |m.ref|
    requires m'.free == m.free[1..] && m'.ref == m.ref[t := 1]
    ensures KeepsDataPages(m, m')
  {
    assert t in m.free;
    assert forall p :: p in m'.free ==> p in m.free;
  }

  /** The branch of pgdir_walk that allocates a table. */
  lemma WalkCreates(m: Mem, held: multiset<nat>, limbo: set<nat>, d: nat, v: nat)
    requires Inv(m, held, limbo) && d in m.dirs && v < UTOP_VPN
    requires !Present(At(m, d, PDX(v))) && m.free != []
    ensures var m' := Walk(m, d, v, true).0;
            && Inv(m', held, limbo)
            && Fixed(m, m') && SameFlat(m, m') && KeepsDataPages(m, m')
            && HasTable(m', d, PDX(v)) && SameOutside(m, m', d)
  {
    InvBounds(m, held, limbo);
    FreshPageKeeps(m, held, limbo);
    var t := m.free[0];
    var i := PDX(v);
    var m2 := FreshPage(m);
    FreshKeepsData(m, m2, t);
    InstallTable(m2, held + multiset{t}, limbo, d, i, t, {P, U, W});
    assert held + multiset{t} - multiset{t} == held;
    var m' := SetWord(m2, d, i, Word(t, {P, U, W}));
    SameFlatAfterInstall(m, held, limbo, m2, m', d, i, t);
    DataAfterInstall(m2, m', d, i, t);
    assert forall s, p :: Refers(m2, s, p) <==> Refers(m, s, p);
  }

  lemma DataAfterInstall(m2: Mem, m': Mem, d: nat, i: nat, t: nat)
    requires Gains(m2, m', TableSite(d, i), t) && Fixed(m2, m')
    ensures forall p :: DataPage(m2, p) && p != t ==> DataPage(m', p)
  {
  }

  lemma SameFlatAfterInstall(m: Mem, held: multiset<nat>, limbo: set<nat>, m2: Mem, m': Mem, d: nat, i: nat, t: nat)
    requires Inv(m, held, limbo) && m'.dirs == m.dirs
    requires d in m.dirs && i < UTOP_PDX && !Present(At(m, d, i))
    requires forall s :: !Refers(m, s, t)
    requires d < |m2.phys| && i < |m2.phys[d]| && m' == SetWord(m2, d, i, Word(t, {P, U, W}))
    requires forall q, k :: q != t ==> At(m2, q, k) == At(m, q, k)
    requires forall k :: !Present(At(m', t, k))
    ensures SameFlat(m, m')
  {
    assert Refers(m, DirSite(d), d);
    assert forall q, k :: q != t && q != d ==> At(m', q, k) == At(m, q, k);
    assert forall k :: k != i ==> At(m', d, k) == At(m, d, k);
    forall e, u | e in m.dirs && 0 <= u < UTOP_VPN ensures Translate(m', e, u) == Translate(m, e, u) {
      assert Refers(m, DirSite(e), e);
      assert At(m', e, PDX(u)) == if e == d && PDX(u) == i then Word(t, {P, U, W}) else At(m, e, PDX(u));
      if Present(At(m, e, PDX(u))) {
        assert Refers(m, TableSite(e, PDX(u)), TableOf(m, e, PDX(u)));
      }
    }
  }

  /** A walk keeps every count exact and every translation, even when it
      allocates a table; a failing walk changes nothing. */
  lemma WalkKeeps(m: Mem, held: multiset<nat>, limbo: set<nat>, d: nat, v: nat, create: bool)
    requires Inv(m, held, limbo) && d in m.dirs && v < UTOP_VPN
    ensures var (m', ok) := Walk(m, d, v, create);
            && Inv(m', held, limbo)
            && Fixed(m, m') && SameFlat(m, m') && KeepsDataPages(m, m')
            && SameOutside(m, m', d)
            && (ok <==> HasTable(m', d, PDX(v)))
            && (ok <==> HasTable(m, d, PDX(v)) || (create && m.free != []))
            && (!ok ==> m' == m)
  {
    InvBounds(m, held, limbo);
    if !Present(At(m, d, PDX(v))) && create && m.free != [] {
      WalkCreates(m, held, limbo, d, v);
    }
  }

  // -------------------------------------------------------------- page_remove

  /** page_remove: page_decref the mapped page and clear the PTE. */
  ghost function Remove(m: Mem, d: nat, v: nat): Mem
  {
    var w := Translate(m, d, v);
    if Present(w) then SetWord(DecRef(m, w.ppn), TableOf(m, d, PDX(v)), PTX(v), ZERO) else m
  }

  /** m' differs from m in what virtual page v of directory d maps, now w, and
      in nothing else that an address space can show. */
  ghost predicate OneSlot(m: Mem, m': Mem, d: nat, v: nat, w: Word) {
    && Fixed(m, m')
    && FlatUpdate(m, m', d, v, w)
    && SameButSite(m, m', SiteOf(d, v))
    && (forall p :: Refers(m', SiteOf(d, v), p) <==> Maps(w, p))
    && (forall e, k :: e in m.dirs ==> At(m', e, k) == At(m, e, k))
  }

  lemma OneSlotSameContents(m: Mem, m1: Mem, m2: Mem, d: nat, v: nat, w: Word)
    requires OneSlot(m, m1, d, v, w) && Fixed(m1, m2) && m2.phys == m1.phys
    ensures OneSlot(m, m2, d, v, w)
  {
    assert forall q, k :: At(m2, q, k) == At(m1, q, k);
    assert forall s, p :: Refers(m2, s, p) <==> Refers(m1, s, p);
    assert forall e, u :: Translate(m2, e, u) == Translate(m1, e, u);
  }

  /** Storing a word in the PTE slot of v, with its table in place: the word's
      reference comes from what is held, the old word's is held instead. */
  lemma StoreSlot(m: Mem, held: multiset<nat>, limbo: set<nat>, d: nat, v: nat, w: Word)
    requires Inv(m, held, limbo) && v < UTOP_VPN && HasTable(m, d, PDX(v))
    requires w == ZERO || (Present(w) && DataPage(m, w.ppn) && (held + Load(Pte(m, d, v)))[w.ppn] > 0)
    ensures TableOf(m, d, PDX(v)) < |m.phys| && |m.phys[TableOf(m, d, PDX(v))]| == ENTRIES
    ensures var m' := SetWord(m, TableOf(m, d, PDX(v)), PTX(v), w);
            Inv(m', held + Load(Pte(m, d, v)) - Load(w), limbo) && OneSlot(m, m', d, v, w)
  {
    StoreKeeps(m, held, limbo, d, PDX(v), PTX(v), w);
    StoreEffect(m, held, limbo, d, PDX(v), PTX(v), w);
    StoreFlat(m, held, limbo, d, v, w);
  }

  lemma StoreFlat(m: Mem, held: multiset<nat>, limbo: set<nat>, d: nat, v: nat, w: Word)
    requires Inv(m, held, limbo) && v < UTOP_VPN && HasTable(m, d, PDX(v))
    requires w == ZERO || Present(w)
    ensures TableOf(m, d, PDX(v)) < |m.phys| && |m.phys[TableOf(m, d, PDX(v))]| == ENTRIES
    ensures FlatUpdate(m, SetWord(m, TableOf(m, d, PDX(v)), PTX(v), w), d, v, w)
  {
    StoreEffect(m, held, limbo, d, PDX(v), PTX(v), w);
    var t := TableOf(m, d, PDX(v));
    var m' := SetWord(m, t, PTX(v), w);
    assert forall q, k :: !(q == t && k == PTX(v)) ==> At(m', q, k) == At(m, q, k);
    assert Refers(m, TableSite(d, PDX(v)), t);
    forall e, u | e in m.dirs && 0 <= u < UTOP_VPN
      ensures Translate(m', e, u) == if e == d && u == v then w else Translate(m, e, u)
    {
      if Present(At(m, e, PDX(u))) {
        assert Refers(m, TableSite(e, PDX(u)), TableOf(m, e, PDX(u)));
      }
    }
  }

  lemma MappedPage(m: Mem, held: multiset<nat>, limbo: set<nat>, d: nat, v: nat)
    requires Inv(m, held, limbo) && d in m.dirs && v < UTOP_VPN && Present(Translate(m, d, v))
    ensures var p := Translate(m, d, v).ppn;
            DataPage(m, p) && m.ref[p] > 0 && p !in m.free && p !in limbo
    ensures TableOf(m, d, PDX(v)) < |m.phys| && HasTable(m, d, PDX(v))
  {
    InvBounds(m, held, limbo);
    var p := Translate(m, d, v).ppn;
    assert Refers(m, SiteOf(d, v), p);
    assert Refers(m, TableSite(d, PDX(v)), TableOf(m, d, PDX(v)));
    assert SiteOf(d, v) in Refs(m, p);
  }

  /** What page_remove does to the free list. */
  function FreedBy(m: Mem, w: Word): seq<nat> {
    if Present(w) && w.ppn < |m.ref| && m.ref[w.ppn] == 1 then [w.ppn] + m.free else m.free
  }

  lemma RemovePresent(m: Mem, held: multiset<nat>, limbo: set<nat>, d: nat, v: nat, m1: Mem)
    requires Inv(m, held, limbo) && d in m.dirs && v < UTOP_VPN && Present(Translate(m, d, v))
    requires m1 == SetWord(m, TableOf(m, d, PDX(v)), PTX(v), ZERO)
    requires Inv(m1, held + multiset{Translate(m, d, v).ppn}, limbo)
    ensures Inv(Remove(m, d, v), held, limbo)
  {
    var p := Translate(m, d, v).ppn;
    MappedPage(m, held, limbo, d, v);
    DecKeeps(m1, held + multiset{p}, limbo, p);
    assert held + multiset{p} - multiset{p} == held;
    assert DecRef(m1, p) == Remove(m, d, v);
  }

  lemma RemoveSlot(m: Mem, held: multiset<nat>, limbo: set<nat>, d: nat, v: nat)
    requires Inv(m, held, limbo) && d in m.dirs && v < UTOP_VPN && Present(Translate(m, d, v))
    ensures Inv(Remove(m, d, v), held, limbo)
    ensures OneSlot(m, Remove(m, d, v), d, v, ZERO)
  {
    var w := Translate(m, d, v);
    MappedPage(m, held, limbo, d, v);
    StoreSlot(m, held, limbo, d, v, ZERO);
    var m1 := SetWord(m, TableOf(m, d, PDX(v)), PTX(v), ZERO);
    assert held + Load(w) - Load(ZERO) == held + multiset{w.ppn};
    RemovePresent(m, held, limbo, d, v, m1);
    OneSlotSameContents(m, m1, Remove(m, d, v), d, v, ZERO);
  }

  lemma DecRefFrees(m: Mem, p: nat)
    requires p < |m.ref| && 0 < m.ref[p] < REF_RANGE
    ensures DecRef(m, p).free == if m.ref[p] == 1 then [p] + m.free else m.free
    ensures DecRef(m, p).ref == m.ref[p := m.ref[p] - 1]
  {
  }

  lemma AbsentSlot(m: Mem, d: nat, v: nat)
    requires !Present(Translate(m, d, v))
    ensures OneSlot(m, m, d, v, ZERO)
  {
    assert forall p :: !Refers(m, SiteOf(d, v), p);
  }

  /** page_remove keeps every count exact, frees the page exactly when this was
      its last reference, and clears one entry of the flat map. */
  lemma RemoveKeeps(m: Mem, held: multiset<nat>, limbo: set<nat>, d: nat, v: nat)
    requires Inv(m, held, limbo) && d in m.dirs && v < UTOP_VPN
    ensures Inv(Remove(m, d, v), held, limbo)
    ensures OneSlot(m, Remove(m, d, v), d, v, ZERO)
    ensures Remove(m, d, v).free == FreedBy(m, Translate(m, d, v))
  {
    InvBounds(m, held, limbo);
    if Present(Translate(m, d, v)) {
      MappedPage(m, held, limbo, d, v);
      RemoveSlot(m, held, limbo, d, v);
      DecRefFrees(m, Translate(m, d, v).ppn);
    } else {
      AbsentSlot(m, d, v);
    }
  }

  // -------------------------------------------------------------- page_insert

  /** page_insert once the table exists: count the new reference, remove what is
      mapped there, store the PTE. */
  ghost function InsertAt(m: Mem, d: nat, pp: nat, v: nat, flags: set<Flag>): Mem
  {
    var m1 := IncRef(m, pp);
    var m2 :=
      if Present(Translate(m, d, v))
      then SetWord(DecRef(m1, Translate(m, d, v).ppn), TableOf(m, d, PDX(v)), PTX(v), ZERO) else m1;
    SetWord(m2, TableOf(m, d, PDX(v)), PTX(v), Word(pp, flags + {P}))
  }

  /** Re-inserting a page where it is mapped already only changes the flags,
      whatever its count: the increment and decrement cancel, even through the
      16-bit wrap. */
  lemma ReinsertSwapsFlags(m: Mem, held: multiset<nat>, limbo: set<nat>, d: nat, pp: nat, v: nat, flags: set<Flag>)
    requires Inv(m, held, limbo) && d in m.dirs && v < UTOP_VPN && Maps(Translate(m, d, v), pp)
    ensures InsertAt(m, d, pp, v, flags) == SetWord(m, TableOf(m, d, PDX(v)), PTX(v), Word(pp, flags + {P}))
    ensures Inv(InsertAt(m, d, pp, v, flags), held, limbo)
    ensures OneSlot(m, InsertAt(m, d, pp, v, flags), d, v, Word(pp, flags + {P}))
  {
    MappedPage(m, held, limbo, d, v);
    StoreSlot(m, held, limbo, d, v, Word(pp, flags + {P}));
    assert held + multiset{pp} - multiset{pp} == held;
    var m1 := IncRef(m, pp);
    var m2 := DecRef(m1, pp);
    assert m2.ref == m.ref && m2.free == m.free && m2 == m;
    var t := TableOf(m, d, PDX(v));
    var j := PTX(v);
    assert m.phys[t][j := ZERO][j := Word(pp, flags + {P})] == m.phys[t][j := Word(pp, flags + {P})];
    var q := m.phys[t := m.phys[t][j := ZERO]];
    assert q[t := q[t][j := Word(pp, flags + {P})]] == m.phys[t := m.phys[t][j := Word(pp, flags + {P})]];
  }

  lemma OneSlotTwice(m: Mem, m1: Mem, m2: Mem, d: nat, v: nat, w1: Word, w2: Word)
    requires OneSlot(m, m1, d, v, w1) && OneSlot(m1, m2, d, v, w2)
    ensures OneSlot(m, m2, d, v, w2)
  {
  }

  lemma SameContentsFlat(m: Mem, m1: Mem)
    requires Fixed(m, m1) && m1.phys == m.phys
    ensures SameRefs(m, m1)
    ensures forall e, k :: At(m1, e, k) == At(m, e, k)
    ensures forall e, u :: Pte(m1, e, u) == Pte(m, e, u) && Translate(m1, e, u) == Translate(m, e, u)
    ensures forall p :: DataPage(m, p) <==> DataPage(m1, p)
  {
    assert forall e, k :: At(m1, e, k) == At(m, e, k);
  }

  /** The body of page_insert once the table is there and the count has room. */
  lemma InsertCounted(m: Mem, held: multiset<nat>, limbo: set<nat>, d: nat, pp: nat, v: nat, flags: set<Flag>)
    requires Inv(m, held, limbo) && v < UTOP_VPN && HasTable(m, d, PDX(v))
    requires DataPage(m, pp) && pp !in m.free && m.ref[pp] < REF_RANGE - 1
    ensures Inv(InsertAt(m, d, pp, v, flags), held, limbo - {pp})
    ensures OneSlot(m, InsertAt(m, d, pp, v, flags), d, v, Word(pp, flags + {P}))
  {
    InvBounds(m, held, limbo);
    RemoveKeeps(m, held, limbo, d, v);
    StoreSlot(m, held, limbo, d, v, ZERO);
    IncKeeps(m, held, limbo, pp);
    var m1 := IncRef(m, pp);
    SameContentsFlat(m, m1);
    RemoveKeeps(m1, held + multiset{pp}, limbo - {pp}, d, v);
    var m2 := Remove(m1, d, v);
    OneSlotSameContents(m, m, m1, d, v, Translate(m, d, v)) by {
      SelfSlot(m, d, v);
    }
    OneSlotTwice(m, m1, m2, d, v, Translate(m, d, v), ZERO);
    InsertStore(m1, m2, held, limbo - {pp}, d, pp, v, flags);
    OneSlotTwice(m, m2, InsertAt(m, d, pp, v, flags), d, v, ZERO, Word(pp, flags + {P}));
  }

  lemma SelfSlot(m: Mem, d: nat, v: nat)
    requires d in m.dirs && v < UTOP_VPN
    ensures OneSlot(m, m, d, v, Translate(m, d, v))
  {
    forall p ensures Refers(m, SiteOf(d, v), p) <==> Maps(Translate(m, d, v), p) {
      TranslateIsReference(m, d, v, p);
    }
  }

  lemma InsertStore(m1: Mem, m2: Mem, held: multiset<nat>, limbo: set<nat>, d: nat, pp: nat, v: nat, flags: set<Flag>)
    requires Inv(m2, held + multiset{pp}, limbo) && v < UTOP_VPN && HasTable(m1, d, PDX(v))
    requires DataPage(m1, pp) && OneSlot(m1, m2, d, v, ZERO)
    ensures TableOf(m2, d, PDX(v)) == TableOf(m1, d, PDX(v)) < |m2.phys|
    ensures |m2.phys[TableOf(m2, d, PDX(v))]| == ENTRIES
    ensures var m3 := SetWord(m2, TableOf(m2, d, PDX(v)), PTX(v), Word(pp, flags + {P}));
            Inv(m3, held, limbo) && OneSlot(m2, m3, d, v, Word(pp, flags + {P}))
  {
    assert HasTable(m2, d, PDX(v));
    assert DataPage(m2, pp) by {
      assert forall s :: Refers(m2, s, pp) ==> Refers(m1, s, pp) || s == SiteOf(d, v);
    }
    StoreSlot(m2, held + multiset{pp}, limbo, d, v, Word(pp, flags + {P}));
    assert Translate(m2, d, v) == ZERO && !Present(Pte(m2, d, v));
    assert held + multiset{pp} + Load(Pte(m2, d, v)) - multiset{pp} == held;
  }

  /** page_insert: the memory afterwards and whether it returned 0. */
  ghost function Insert(m: Mem, d: nat, pp: nat, v: nat, flags: set<Flag>): (r: (Mem, bool)) {
    var (m1, ok) := Walk(m, d, v, true);
    if ok then (InsertAt(m1, d, pp, v, flags), true) else (m, false)
  }

  /** What page_insert's counter needs: room for one more, or the page is the
      one already mapped there. */
  predicate CanCount(m: Mem, d: nat, pp: nat, v: nat) {
    RefOf(m, pp) < REF_RANGE - 1 || Maps(Translate(m, d, v), pp)
  }

  /** page_insert keeps every count exact and changes one entry of one address
      space; when no table can be had it changes nothing at all. */
  lemma InsertKeeps(m: Mem, held: multiset<nat>, limbo: set<nat>, d: nat, pp: nat, v: nat, flags: set<Flag>)
    requires Inv(m, held, limbo) && d in m.dirs && v < UTOP_VPN
    requires DataPage(m, pp) && pp !in m.free && CanCount(m, d, pp, v)
    ensures var (m', ok) := Insert(m, d, pp, v, flags);
            && (ok <==> HasTable(m, d, PDX(v)) || m.free != [])
            && (ok ==> Inv(m', held, limbo - {pp}) && FlatUpdate(m, m', d, v, Word(pp, flags + {P})) && Fixed(m, m'))
            && SameOutside(m, m', d)
            && (!ok ==> m' == m)
  {
    WalkKeeps(m, held, limbo, d, v, true);
    var (m1, ok) := Walk(m, d, v, true);
    if ok {
      if Maps(Translate(m, d, v), pp) {
        MappedPage(m, held, limbo, d, v);
        ReinsertSwapsFlags(m1, held, limbo, d, pp, v, flags);
        assert limbo - {pp} == limbo;
      } else {
        InsertCounted(m1, held, limbo, d, pp, v, flags);
      }
    }
  }

  /** The counter is exact after page_insert if and only if it had room or the
      page was already mapped there: a 65536th reference wraps to zero. */
  lemma InsertExactIff(m: Mem, held: multiset<nat>, limbo: set<nat>, d: nat, pp: nat, v: nat, flags: set<Flag>)
    requires Inv(m, held, limbo) && d in m.dirs && v < UTOP_VPN
    requires DataPage(m, pp) && pp !in m.free
    requires Insert(m, d, pp, v, flags).1
    ensures Inv(Insert(m, d, pp, v, flags).0, held, limbo - {pp}) <==> CanCount(m, d, pp, v)
  {
    if CanCount(m, d, pp, v) {
      InsertKeeps(m, held, limbo, d, pp, v, flags);
    } else {
      WalkKeeps(m, held, limbo, d, v, true);
      var m1 := Walk(m, d, v, true).0;
      WrapLosesCount(m1, held, limbo, d, pp, v, flags);
    }
  }

  lemma WrapLosesCount(m: Mem, held: multiset<nat>, limbo: set<nat>, d: nat, pp: nat, v: nat, flags: set<Flag>)
    requires Inv(m, held, limbo) && v < UTOP_VPN && HasTable(m, d, PDX(v))
    requires DataPage(m, pp) && !CanCount(m, d, pp, v)
    ensures !Inv(InsertAt(m, d, pp, v, flags), held, limbo - {pp})
  {
    var m' := InsertAt(m, d, pp, v, flags);
    assert m.ref[pp] == REF_RANGE - 1;
    if Present(Translate(m, d, v)) {
      MappedPage(m, held, limbo, d, v);
    }
    assert m'.ref[pp] == 0;
    InsertWritesSlot(m, held, limbo, d, pp, v, flags);
    assert SiteOf(d, v) in Refs(m', pp);
  }

  /** Whatever happens to the counts, the slot ends up mapping pp. */
  lemma InsertWritesSlot(m: Mem, held: multiset<nat>, limbo: set<nat>, d: nat, pp: nat, v: nat, flags: set<Flag>)
    requires Inv(m, held, limbo) && v < UTOP_VPN && HasTable(m, d, PDX(v))
    ensures Refers(InsertAt(m, d, pp, v, flags), SiteOf(d, v), pp)
  {
    StoreEffect(m, held, limbo, d, PDX(v), PTX(v), ZERO);
    var t := TableOf(m, d, PDX(v));
    var m' := InsertAt(m, d, pp, v, flags);
    assert Refers(m, TableSite(d, PDX(v)), t);
    assert Refers(m, DirSite(d), d);
    assert At(m', t, PTX(v)) == Word(pp, flags + {P});
    assert At(m', d, PDX(v)) == At(m, d, PDX(v));
  }

  /** Mapping operations never write a data page. */
  ghost predicate KeepsContents(m: Mem, m': Mem) {
    |m'.phys| == |m.phys| && forall p: nat :: DataPage(m, p) && p !in m.free && p < |m.phys| ==> m'.phys[p] == m.phys[p]
  }

  lemma WalkKeepsContents(m: Mem, held: multiset<nat>, limbo: set<nat>, d: nat, v: nat)
    requires Inv(m, held, limbo) && d in m.dirs && v < UTOP_VPN
    ensures KeepsContents(m, Walk(m, d, v, true).0)
  {
    if m.free != [] {
      assert m.free[0] in m.free;
    }
    assert Refers(m, DirSite(d), d);
  }

  lemma InsertKeepsContents(m: Mem, held: multiset<nat>, limbo: set<nat>, d: nat, pp: nat, v: nat, flags: set<Flag>)
    requires Inv(m, held, limbo) && d in m.dirs && v < UTOP_VPN
    ensures KeepsContents(m, Insert(m, d, pp, v, flags).0)
  {
    WalkKeeps(m, held, limbo, d, v, true);
    WalkKeepsContents(m, held, limbo, d, v);
    var (m1, ok) := Walk(m, d, v, true);
    if ok {
      var t := TableOf(m1, d, PDX(v));
      assert Refers(m1, TableSite(d, PDX(v)), t);
      assert !DataPage(m1, t);
    }
  }

  // --------------------------------------------------- page_alloc + page_insert

  /** sys_page_alloc after its checks: take a zeroed page, insert it, give it
      back when the insertion fails. */
  ghost function AllocMap(m: Mem, d: nat, v: nat, flags: set<Flag>): (Mem, bool) {
    if m.free == [] then (m, false)
    else
      var p := m.free[0];
      var m1 := PopFree(m, true);
      var (m2, ok) := Insert(m1, d, p, v, flags);
      if ok then (m2, true) else (PushFree(m2, p), false)
  }

  /** A page obtained by sys_page_alloc was referenced by nobody, is zero, and
      appears at one place; a failure leaves the free list and every mapping as
      they were. */
  lemma AllocMapKeeps(m: Mem, d: nat, v: nat, flags: set<Flag>)
    requires Inv(m, multiset{}, {}) && d in m.dirs && v < UTOP_VPN
    ensures var (m', ok) := AllocMap(m, d, v, flags);
            && Inv(m', multiset{}, {}) && Fixed(m, m') && SameOutside(m, m', d)
            && (ok <==> |m.free| >= if HasTable(m, d, PDX(v)) then 1 else 2)
            && (ok ==>
                  && FlatUpdate(m, m', d, v, Word(m.free[0], flags + {P}))
                  && (forall s :: !Refers(m, s, m.free[0]))
                  && m.free[0] < |m'.phys| && m'.phys[m.free[0]] == ZeroPage())
            && (!ok ==> SameFlat(m, m') && m'.free == m.free && m'.ref == m.ref)
  {
    if m.free != [] {
      var p := m.free[0];
      assert p in m.free;
      PopKeeps(m, multiset{}, {}, true);
      var m1 := PopFree(m, true);
      PopFlat(m, p);
      assert p !in m1.free && DataPage(m1, p) && m1.phys[p] == ZeroPage();
      InsertKeeps(m1, multiset{}, {} + {p}, d, p, v, flags);
      InsertKeepsContents(m1, multiset{}, {} + {p}, d, p, v, flags);
      assert {} + {p} - {p} == {};
      if !Insert(m1, d, p, v, flags).1 {
        FreeKeeps(m1, multiset{}, {} + {p}, p);
        SameContentsFlat(m1, PushFree(m1, p));
        assert [p] + m.free[1..] == m.free;
      }
    }
  }

  lemma PopFlat(m: Mem, p: nat)
    requires Inv(m, multiset{}, {}) && m.free != [] && p == m.free[0]
    ensures SameFlat(m, PopFree(m, true)) && Fixed(m, PopFree(m, true))
    ensures forall d, i :: d in m.dirs ==> (HasTable(PopFree(m, true), d, i) <==> HasTable(m, d, i))
  {
    PopKeeps(m, multiset{}, {}, true);
    var m1 := PopFree(m, true);
    assert p in m.free;
    assert Refs(m, p) == {};
    assert forall q, k :: q != p ==> At(m1, q, k) == At(m, q, k);
    forall d | d in m.dirs ensures d != p {
      assert Refers(m, DirSite(d), d);
      assert DirSite(d) in Refs(m, d);
    }
    forall e, u | e in m.dirs && 0 <= u < UTOP_VPN ensures Translate(m1, e, u) == Translate(m, e, u) {
      if Present(At(m, e, PDX(u))) {
        assert Refers(m, TableSite(e, PDX(u)), TableOf(m, e, PDX(u)));
        assert TableSite(e, PDX(u)) in Refs(m, TableOf(m, e, PDX(u)));
      }
    }
  }

  // ------------------------------------------------------------- env_setup_vm

  /** env_setup_vm: the memory afterwards and whether it returned 0; the new
      directory is the old list head. */
  ghost function SetupVm(m: Mem): (Mem, bool) {
    if m.free == [] then (m, false)
    else
      var d := m.free[0];
      var m1 := FreshPage(m);
      (m1.(phys := if d < |m1.phys| then m1.phys[d := DirPage(m1, d)] else m1.phys, dirs := m1.dirs + {d}), true)
  }

  /** A new address space is empty below UTOP and disturbs no other. */
  lemma SetupKeeps(m: Mem, held: multiset<nat>, limbo: set<nat>)
    requires Inv(m, held, limbo) && m.free != []
    ensures var (m', ok) := SetupVm(m);
            var d := m.free[0];
            && ok && Inv(m', held, limbo)
            && d !in m.dirs && m'.dirs == m.dirs + {d} && m'.kern == m.kern && m'.reserved == m.reserved
            && SameFlat(m, m')
            && (forall u :: 0 <= u < UTOP_VPN ==> Translate(m', d, u) == ZERO)
            && Gains(m, m', DirSite(d), d)
  {
    FreshPageKeeps(m, held, limbo);
    var d := m.free[0];
    var m1 := FreshPage(m);
    AddDir(m1, held + multiset{d}, limbo, d);
    assert held + multiset{d} - multiset{d} == held;
    var m' := SetupVm(m).0;
    assert m' == m1.(phys := m1.phys[d := DirPage(m1, d)], dirs := m1.dirs + {d});
    forall e, u | e in m.dirs && 0 <= u < UTOP_VPN ensures Translate(m', e, u) == Translate(m, e, u) {
      NewDirKeepsEntry(m, m1, m', d, e, u);
    }
    assert forall i :: 0 <= i < UTOP_PDX ==> At(m', d, i) == ZERO;
  }

  lemma NewDirKeepsEntry(m: Mem, m1: Mem, m': Mem, d: nat, e: nat, u: nat)
    requires e in m.dirs && u < UTOP_VPN && d !in m.dirs
    requires forall s :: !Refers(m, s, d)
    requires forall q, k :: q != d ==> At(m1, q, k) == At(m, q, k)
    requires forall q, k :: q != d ==> At(m', q, k) == At(m1, q, k)
    ensures Translate(m', e, u) == Translate(m, e, u)
  {
    if Present(At(m, e, PDX(u))) {
      assert Refers(m, TableSite(e, PDX(u)), TableOf(m, e, PDX(u)));
    }
  }

  // ------------------------------------------------------------------ teardown

  /** What env_free does: every reference directory d held is gone, and no
      other reference or mapping changed. */
  ghost predicate Tears(m: Mem, m': Mem, d: nat) {
    && m'.dirs == m.dirs - {d} && m'.reserved == m.reserved && m'.kern == m.kern && |m'.ref| == |m.ref|
    && (forall s, p :: Refers(m', s, p) <==> Refers(m, s, p) && s.dir != d)
    && (forall e, u :: e in m'.dirs && 0 <= u < UTOP_VPN ==> Translate(m', e, u) == Translate(m, e, u))
  }

  ghost function HeldBy(m: Mem, d: nat, p: nat): set<Site> {
    set s | s in Refs(m, p) && s.dir == d
  }

  /** Teardown lowers each count by exactly the references the directory held,
      and adds to the free list exactly the pages it alone referenced. */
  lemma TeardownConserves(m: Mem, m': Mem, d: nat)
    requires Inv(m, multiset{}, {}) && Inv(m', multiset{}, {}) && Tears(m, m', d)
    ensures forall p: nat :: Managed(m, p) ==> m'.ref[p] == m.ref[p] - |HeldBy(m, d, p)|
    ensures forall p: nat :: p in m'.free <==>
              p in m.free || (HeldBy(m, d, p) != {} && Refs(m, p) == HeldBy(m, d, p))
  {
    forall p: nat | Managed(m, p) ensures m'.ref[p] == m.ref[p] - |HeldBy(m, d, p)| {
      assert Refs(m', p) == Refs(m, p) - HeldBy(m, d, p);
    }
    forall p: nat
      ensures p in m'.free <==> p in m.free || (HeldBy(m, d, p) != {} && Refs(m, p) == HeldBy(m, d, p))
    {
      assert Refs(m', p) == Refs(m, p) - HeldBy(m, d, p);
      if Refs(m, p) != {} {
        var s :| s in Refs(m, p);
        assert Managed(m, p);
      }
      assert Refs(m, p) == {} <==> |Refs(m, p)| == 0;
      assert Refs(m', p) == {} <==> |Refs(m', p)| == 0;
    }
  }

  /** The references that survive do not depend on what happened inside d. */
  lemma TearsForgets(m0: Mem, m: Mem, m': Mem, d: nat)
    requires d !in m0.dirs && m.dirs == m0.dirs + {d} && SameOutside(m0, m, d) && Tears(m, m', d)
    ensures SameRefs(m0, m')
  {
    forall s, p ensures Refers(m', s, p) <==> Refers(m0, s, p) {
      assert s.dir == d ==> !Refers(m0, s, p);
    }
  }

  /** Two memories whose other directories hold the same references have the
      same free pages: allocating an address space, building anything in it and
      tearing it down restores the free set. */
  lemma FreeSetDetermined(m: Mem, m': Mem)
    requires Inv(m, multiset{}, {}) && Inv(m', multiset{}, {}) && SameRefs(m, m')
    requires m'.reserved == m.reserved && |m'.ref| == |m.ref|
    ensures forall p :: p in m'.free <==> p in m.free
    ensures forall p: nat :: Managed(m, p) ==> m'.ref[p] == m.ref[p]
  {
    forall p: nat ensures Refs(m', p) == Refs(m, p) {
      SameRefsCount(m, m', p);
    }
  }
}
