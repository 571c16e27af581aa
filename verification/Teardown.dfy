/** The steps of env_free's nested loop, as facts about memory: how far the
    teardown of one address space has come, and what each step adds. */
module Teardown {
  import opened Paging
  import opened AddressSpace

  /** The sites of d visited before entry j of table i. */
  predicate Done(d: nat, i: nat, j: nat, s: Site) {
    s.dir == d && !s.DirSite? && (s.pdx < i || (s.PageSite? && s.pdx == i && s.ptx < j))
  }

  /** The references visited so far are gone and the rest of m0 is intact. */
  ghost predicate Torn(m0: Mem, m: Mem, d: nat, i: nat, j: nat) {
    && Inv(m, multiset{}, {})
    && Fixed(m0, m) && d in m.dirs
    && (forall s, p :: Refers(m, s, p) <==> Refers(m0, s, p) && !Done(d, i, j, s))
    && (forall e, u :: e in m.dirs && e != d && 0 <= u < UTOP_VPN ==> Translate(m, e, u) == Translate(m0, e, u))
  }

  lemma TearPage(m0: Mem, m: Mem, d: nat, i: nat, j: nat)
    requires Torn(m0, m, d, i, j) && i < UTOP_PDX && j < ENTRIES
    ensures Torn(m0, Remove(m, d, PageNumber(i, j)), d, i, j + 1)
    ensures At(Remove(m, d, PageNumber(i, j)), d, i) == At(m, d, i)
  {
    var v := PageNumber(i, j);
    assert PDX(v) == i && PTX(v) == j;
    RemoveKeeps(m, multiset{}, {}, d, v);
    TornRefs(m0, m, Remove(m, d, v), d, i, j);
  }

  lemma TornRefs(m0: Mem, m: Mem, m': Mem, d: nat, i: nat, j: nat)
    requires forall s, p :: Refers(m, s, p) <==> Refers(m0, s, p) && !Done(d, i, j, s)
    requires SameButSite(m, m', PageSite(d, i, j)) && (forall p :: !Refers(m', PageSite(d, i, j), p))
    ensures forall s, p :: Refers(m', s, p) <==> Refers(m0, s, p) && !Done(d, i, j + 1, s)
  {
    forall s, p ensures Refers(m', s, p) <==> Refers(m0, s, p) && !Done(d, i, j + 1, s) {
      if s != PageSite(d, i, j) {
        assert Refers(m', s, p) <==> Refers(m, s, p);
      }
    }
  }

  /** Clearing the directory entry of an emptied table and dropping the table. */
  lemma TearTable(m0: Mem, m: Mem, d: nat, i: nat)
    requires Torn(m0, m, d, i, ENTRIES) && HasTable(m, d, i)
    ensures var t := TableOf(m, d, i);
            var m1 := SetWord(m, d, i, ZERO);
            && Torn(m0, DecRef(m1, t), d, i + 1, 0)
            && d < |m.phys| && |m.phys[d]| == ENTRIES
            && t < |m1.ref| && 0 < m1.ref[t] < REF_RANGE && t !in m1.free
  {
    var t := TableOf(m, d, i);
    forall k | 0 <= k < ENTRIES ensures !Present(At(m, t, k)) {
      assert Done(d, i, ENTRIES, PageSite(d, i, k));
      assert !Refers(m, PageSite(d, i, k), At(m, t, k).ppn);
    }
    ClearTable(m, multiset{}, {}, d, i);
    var m1 := SetWord(m, d, i, ZERO);
    assert Refers(m, TableSite(d, i), t);
    DecKeeps(m1, multiset{t}, {}, t);
    var m2 := DecRef(m1, t);
    assert multiset{t} - multiset{t} == multiset{};
    assert Inv(m2, multiset{}, {});
    SameContentsFlat(m1, m2);
    ClearedRefs(m0, m, m1, m2, d, i, t);
    ClearedFlat(m, m1, m2, d, i);
  }

  lemma ClearedRefs(m0: Mem, m: Mem, m1: Mem, m2: Mem, d: nat, i: nat, t: nat)
    requires Torn(m0, m, d, i, ENTRIES) && Gains(m1, m, TableSite(d, i), t) && SameRefs(m1, m2)
    requires forall p :: !Refers(m1, TableSite(d, i), p)
    ensures forall s, p :: Refers(m2, s, p) <==> Refers(m0, s, p) && !Done(d, i + 1, 0, s)
  {
    forall s, p ensures Refers(m2, s, p) <==> Refers(m0, s, p) && !Done(d, i + 1, 0, s) {
      assert Refers(m2, s, p) <==> Refers(m1, s, p);
      assert Refers(m0, s, p) ==> InRange(m0.dirs, s);
      assert Refers(m, s, p) <==> Refers(m1, s, p) || (s == TableSite(d, i) && p == t);
    }
  }

  lemma ClearedFlat(m: Mem, m1: Mem, m2: Mem, d: nat, i: nat)
    requires Inv(m, multiset{}, {}) && d in m.dirs && m1 == SetWord(m, d, i, ZERO) && i < UTOP_PDX
    requires forall q, u :: Translate(m2, q, u) == Translate(m1, q, u)
    ensures forall e, u :: e in m.dirs && e != d && 0 <= u < UTOP_VPN ==> Translate(m2, e, u) == Translate(m, e, u)
  {
    assert Refers(m, DirSite(d), d);
    assert forall q, k :: q != d ==> At(m1, q, k) == At(m, q, k);
    forall e, u | e in m.dirs && e != d && 0 <= u < UTOP_VPN ensures Translate(m2, e, u) == Translate(m, e, u) {
      if Present(At(m, e, PDX(u))) {
        assert Refers(m, TableSite(e, PDX(u)), TableOf(m, e, PDX(u)));
      }
    }
  }

  /** A directory entry that is not present has nothing to tear down. */
  lemma TearNothing(m0: Mem, m: Mem, d: nat, i: nat)
    requires Torn(m0, m, d, i, 0) && i < UTOP_PDX && !Present(At(m, d, i))
    ensures Torn(m0, m, d, i + 1, 0)
  {
    forall s, p ensures Refers(m, s, p) <==> Refers(m0, s, p) && !Done(d, i + 1, 0, s) {
      assert Refers(m, s, p) && !s.DirSite? && s.dir == d ==> s.pdx != i;
    }
  }

  /** Dropping the directory itself completes the teardown. */
  lemma TearDir(m0: Mem, m: Mem, d: nat)
    requires Torn(m0, m, d, UTOP_PDX, 0)
    ensures var m1 := m.(dirs := m.dirs - {d});
            var m2 := DecRef(m1, d);
            && Inv(m2, multiset{}, {}) && Tears(m0, m2, d)
            && d < |m1.ref| && 0 < m1.ref[d] < REF_RANGE && d !in m1.free
            && SameContents(m1, m2)
  {
    forall i: nat | i < UTOP_PDX ensures !Present(At(m, d, i)) {
      assert Done(d, UTOP_PDX, 0, TableSite(d, i));
      assert !Refers(m, TableSite(d, i), At(m, d, i).ppn);
    }
    assert Refers(m, DirSite(d), d);
    DropDir(m, multiset{}, {}, d);
    var m1 := m.(dirs := m.dirs - {d});
    DecKeeps(m1, multiset{d}, {}, d);
    assert multiset{d} - multiset{d} == multiset{};
    var m2 := DecRef(m1, d);
    SameContentsFlat(m1, m2);
    DroppedRefs(m0, m, m1, m2, d);
    assert forall q, k :: At(m1, q, k) == At(m, q, k);
  }

  predicate SameContents(m1: Mem, m2: Mem) {
    m2.phys == m1.phys && m2.dirs == m1.dirs && m2.kern == m1.kern
  }

  lemma DroppedRefs(m0: Mem, m: Mem, m1: Mem, m2: Mem, d: nat)
    requires Torn(m0, m, d, UTOP_PDX, 0) && Gains(m1, m, DirSite(d), d) && SameRefs(m1, m2)
    requires d !in m1.dirs
    ensures forall s, p :: Refers(m2, s, p) <==> Refers(m0, s, p) && s.dir != d
  {
    forall s, p ensures Refers(m2, s, p) <==> Refers(m0, s, p) && s.dir != d {
      assert Refers(m2, s, p) <==> Refers(m1, s, p);
      assert Refers(m0, s, p) ==> InRange(m0.dirs, s);
      assert Refers(m, s, p) <==> Refers(m1, s, p) || (s == DirSite(d) && p == d);
    }
  }

  lemma TearStart(m: Mem, d: nat)
    requires Inv(m, multiset{}, {}) && d in m.dirs
    ensures Torn(m, m, d, 0, 0)
  {
  }

  // -------------------------------------------------------------- the whole of it

  /** The inner loop of env_free on table i, from entry j on. */
  ghost function PagesFreed(m: Mem, d: nat, i: nat, j: nat): Mem
    requires j <= ENTRIES
    decreases ENTRIES - j
  {
    if j == ENTRIES then m
    else
      var v := PageNumber(i, j);
      PagesFreed(if Present(Pte(m, d, v)) then Remove(m, d, v) else m, d, i, j + 1)
  }

  /** One turn of the outer loop. */
  ghost function TableFreed(m: Mem, d: nat, i: nat): Mem {
    if !Present(At(m, d, i)) then m
    else DecRef(SetWord(PagesFreed(m, d, i, 0), d, i, ZERO), TableOf(m, d, i))
  }

  /** The outer loop from table i on. */
  ghost function TablesFreed(m: Mem, d: nat, i: nat): Mem
    requires i <= UTOP_PDX
    decreases UTOP_PDX - i
  {
    if i == UTOP_PDX then m else TablesFreed(TableFreed(m, d, i), d, i + 1)
  }

  lemma NextTable(m: Mem, d: nat, i: nat)
    requires i < UTOP_PDX
    ensures TablesFreed(m, d, i) == TablesFreed(TableFreed(m, d, i), d, i + 1)
  {
  }

  /** Memory after env_free of the environment with directory d. */
  ghost function EnvFreed(m: Mem, d: nat): Mem {
    var m1 := TablesFreed(m, d, 0);
    DecRef(m1.(dirs := m1.dirs - {d}), d)
  }

  lemma AbsentPte(m: Mem, held: multiset<nat>, limbo: set<nat>, d: nat, v: nat)
    requires Inv(m, held, limbo) && d in m.dirs && v < UTOP_VPN && Present(At(m, d, PDX(v))) && !Present(Pte(m, d, v))
    ensures Remove(m, d, v) == m
  {
  }

  lemma {:induction false} PagesFreedTorn(m0: Mem, m: Mem, d: nat, i: nat, j: nat)
    requires Torn(m0, m, d, i, j) && i < UTOP_PDX && j <= ENTRIES && Present(At(m, d, i))
    ensures Torn(m0, PagesFreed(m, d, i, j), d, i, ENTRIES)
    ensures At(PagesFreed(m, d, i, j), d, i) == At(m, d, i)
    decreases ENTRIES - j
  {
    if j < ENTRIES {
      var v := PageNumber(i, j);
      assert PDX(v) == i && PTX(v) == j;
      TearPage(m0, m, d, i, j);
      if !Present(Pte(m, d, v)) {
        AbsentPte(m, multiset{}, {}, d, v);
      }
      PagesFreedTorn(m0, Remove(m, d, v), d, i, j + 1);
    }
  }

  lemma TableFreedTorn(m0: Mem, m: Mem, d: nat, i: nat)
    requires Torn(m0, m, d, i, 0) && i < UTOP_PDX
    ensures Torn(m0, TableFreed(m, d, i), d, i + 1, 0)
  {
    if Present(At(m, d, i)) {
      PagesFreedTorn(m0, m, d, i, 0);
      TearTable(m0, PagesFreed(m, d, i, 0), d, i);
    } else {
      TearNothing(m0, m, d, i);
    }
  }

  lemma {:induction false} TablesFreedTorn(m0: Mem, m: Mem, d: nat, i: nat)
    requires Torn(m0, m, d, i, 0) && i <= UTOP_PDX
    ensures Torn(m0, TablesFreed(m, d, i), d, UTOP_PDX, 0)
    decreases UTOP_PDX - i
  {
    if i < UTOP_PDX {
      TableFreedTorn(m0, m, d, i);
      TablesFreedTorn(m0, TableFreed(m, d, i), d, i + 1);
    }
  }

  /** env_free drops every reference directory d held and nothing else, and keeps
      all counts and the free list exact. */
  lemma EnvFreedTears(m: Mem, d: nat)
    requires Inv(m, multiset{}, {}) && d in m.dirs
    ensures Inv(EnvFreed(m, d), multiset{}, {}) && Tears(m, EnvFreed(m, d), d)
  {
    TearStart(m, d);
    TablesFreedTorn(m, m, d, 0);
    TearDir(m, TablesFreed(m, d, 0), d);
  }
}
