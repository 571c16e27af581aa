/** The 16-bit count overflows in a run of ordinary page calls: one page mapped
    again and again in one address space. */
module Overcount {
  import opened Layout
  import opened Paging
  import opened AddressSpace
  import opened PageCalls

  const USER := Word(0, {U, P})

  lemma WalkCost(m: Mem, d: nat, v: nat)
    ensures |Walk(m, d, v, true).0.free| >= |m.free| - 1
  {
  }

  /** Mapping a page at a free address: one more reference, at most one page for a
      table. */
  lemma MapNew(m: Mem, d: nat, p: nat, v: nat)
    requires Inv(m, multiset{}, {}) && d in m.dirs && v < UTOP_VPN && DataPage(m, p) && p !in m.free
    requires RefOf(m, p) < REF_RANGE - 1 && !Present(Translate(m, d, v)) && m.free != []
    ensures var (m', ok) := Insert(m, d, p, v, {U, P});
            && ok && RefOf(m', p) == RefOf(m, p) + 1 && |m'.free| >= |m.free| - 1
  {
    WalkKeeps(m, multiset{}, {}, d, v, true);
    WalkCost(m, d, v);
    var m1 := Walk(m, d, v, true).0;
    assert !Present(Translate(m1, d, v));
    assert m1.ref[p] == m.ref[p];
    assert InsertAt(m1, d, p, v, {U, P}).ref == m1.ref[p := m1.ref[p] + 1];
  }

  /** Page p is mapped at address 0 of d, and nothing at v or above. */
  ghost predicate Filled(m: Mem, d: nat, p: nat, v: nat) {
    && Inv(m, multiset{}, {}) && d in m.dirs && 1 <= v
    && Maps(Translate(m, d, 0), p)
    && (forall u :: v <= u < UTOP_VPN ==> !Present(Translate(m, d, u)))
  }

  lemma FilledNext(m: Mem, m': Mem, d: nat, p: nat, v: nat)
    requires Filled(m, d, p, v) && MapsWord(m, m', d, v, Word(p, {U, P})) && Inv(m', multiset{}, {})
    ensures Filled(m', d, p, v + 1)
  {
  }

  lemma MapIs(m: Mem, d: nat, p: nat, v: nat)
    requires Filled(m, d, p, v) && v < 70000
    ensures PGNUM(v * 4096) == v && UserPage(v * 4096) && UserPage(0) && PermOk(USER)
    ensures var r := Insert(m, d, p, v, {U, P});
            SysPageMap(m, To(d), 0, To(d), v * 4096, USER) == (r.0, if r.1 then OK else NO_MEM)
  {
    assert PGNUM(v * 4096) == v && PGOFF(v * 4096) == 0;
    assert PGNUM(0) == 0;
  }

  /** One more call of sys_page_map. */
  lemma MapOnce(m: Mem, d: nat, p: nat, v: nat)
    requires Filled(m, d, p, v) && v < 70000 && m.free != [] && RefOf(m, p) < REF_RANGE - 1
    ensures var (m', e) := SysPageMap(m, To(d), 0, To(d), v * 4096, USER);
            && e == OK && Calls(Map(To(d), 0, To(d), v * 4096, USER), m, m')
            && Filled(m', d, p, v + 1) && RefOf(m', p) == RefOf(m, p) + 1 && |m'.free| >= |m.free| - 1
  {
    MapIs(m, d, p, v);
    MappedPage(m, multiset{}, {}, d, 0);
    MapPage(m, d, 0, d, v * 4096, {U, P});
    MapNew(m, d, p, v);
    FilledNext(m, Insert(m, d, p, v, {U, P}).0, d, p, v);
  }

  lemma MapOverflows(m: Mem, d: nat, p: nat, v: nat)
    requires Filled(m, d, p, v) && v < 70000 && m.free != [] && RefOf(m, p) == REF_RANGE - 1
    ensures var (m', e) := SysPageMap(m, To(d), 0, To(d), v * 4096, USER);
            e == OK && !Inv(m', multiset{}, {})
  {
    MapIs(m, d, p, v);
    MappedPage(m, multiset{}, {}, d, 0);
    WalkKeeps(m, multiset{}, {}, d, v, true);
    InsertExactIff(m, multiset{}, {}, d, p, v, {U, P});
    assert {} - {p} == {};
  }

  /** calls lead from m to m'. */
  ghost predicate Leads(calls: seq<Call>, ms: seq<Mem>, m: Mem, m': Mem) {
    Run(calls, ms) && ms[0] == m && ms[|calls|] == m'
  }

  lemma LeadsOn(calls: seq<Call>, ms: seq<Mem>, m: Mem, m1: Mem, c: Call, m2: Mem)
    requires Leads(calls, ms, m, m1) && Calls(c, m1, m2)
    ensures Leads(calls + [c], ms + [m2], m, m2)
  {
    var cs, ns := calls + [c], ms + [m2];
    forall k | 0 <= k < |cs| ensures Calls(cs[k], ns[k], ns[k + 1]) {
      if k < |calls| {
        assert cs[k] == calls[k] && ns[k] == ms[k] && ns[k + 1] == ms[k + 1];
      } else {
        assert cs[k] == c && ns[k] == m1 && ns[k + 1] == m2;
      }
    }
  }

  /** n more mappings. */
  lemma {:induction false} MapRepeatedly(calls: seq<Call>, ms: seq<Mem>, m0: Mem, m: Mem,
                                         d: nat, p: nat, v: nat, n: nat)
    returns (calls': seq<Call>, ms': seq<Mem>, m': Mem)
    requires Leads(calls, ms, m0, m) && Filled(m, d, p, v) && v + n <= 70000 && |m.free| > n
    requires RefOf(m, p) + n <= REF_RANGE - 1
    ensures Leads(calls', ms', m0, m') && Filled(m', d, p, v + n)
    ensures RefOf(m', p) == RefOf(m, p) + n && |m'.free| >= |m.free| - n
    decreases n
  {
    calls', ms', m' := calls, ms, m;
    if n > 0 {
      MapOnce(m, d, p, v);
      var c := Map(To(d), 0, To(d), v * 4096, USER);
      var m1 := SysPageMap(m, To(d), 0, To(d), v * 4096, USER).0;
      LeadsOn(calls, ms, m0, m, c, m1);
      calls', ms', m' := MapRepeatedly(calls + [c], ms + [m1], m0, m1, d, p, v + 1, n - 1);
    }
  }

  lemma NewSpace(n: nat) returns (m: Mem, d: nat)
    requires n >= 10
    ensures Calls(Exofork, Pool(n), m) && Inv(m, multiset{}, {}) && d in m.dirs && |m.free| == n - 1
    ensures forall u :: 0 <= u < UTOP_VPN ==> Translate(m, d, u) == ZERO
  {
    PoolBooted(n);
    BootedExact(Pool(n));
    SetupKeeps(Pool(n), multiset{}, {});
    d := Pool(n).free[0];
    m := SetupVm(Pool(n)).0;
    assert m.free == Pool(n).free[1..];
  }

  lemma FirstAlloc(m1: Mem, d: nat) returns (m: Mem, p: nat)
    requires Inv(m1, multiset{}, {}) && d in m1.dirs && |m1.free| >= 2
    requires forall u :: 0 <= u < UTOP_VPN ==> Translate(m1, d, u) == ZERO
    ensures Calls(Alloc(To(d), 0, USER), m1, m) && Filled(m, d, p, 1) && |m.free| >= |m1.free| - 2
  {
    assert PGNUM(0) == 0 && PGOFF(0) == 0;
    p := m1.free[0];
    m := AllocMap(m1, d, 0, {U, P}).0;
    AllocMapKeeps(m1, d, 0, {U, P});
    assert SysPageAlloc(m1, To(d), 0, USER).0 == m by {
      assert {U, P} + USER.flags == {U, P};
    }
    PopWalkAbsent(m1, d, 0);
    AllocCost(m1, d, 0);
  }

  /** A new address space with one page at address 0. */
  lemma FirstPage(n: nat) returns (calls: seq<Call>, ms: seq<Mem>, m: Mem, d: nat, p: nat)
    requires n >= 10
    ensures Leads(calls, ms, Pool(n), m) && Filled(m, d, p, 1) && |m.free| >= n - 3
  {
    var m1;
    m1, d := NewSpace(n);
    m, p := FirstAlloc(m1, d);
    calls, ms := [], [Pool(n)];
    LeadsOn(calls, ms, Pool(n), Pool(n), Exofork, m1);
    calls, ms := calls + [Exofork], ms + [m1];
    LeadsOn(calls, ms, Pool(n), m1, Alloc(To(d), 0, USER), m);
    calls, ms := calls + [Alloc(To(d), 0, USER)], ms + [m];
  }

  lemma PopWalkAbsent(m: Mem, d: nat, v: nat)
    requires Inv(m, multiset{}, {}) && d in m.dirs && v < UTOP_VPN && m.free != [] && !Present(Translate(m, d, v))
    ensures !Present(Translate(Walk(PopFree(m, true), d, v, true).0, d, v))
  {
    PopKeeps(m, multiset{}, {}, true);
    PopFlat(m, m.free[0]);
    WalkKeeps(PopFree(m, true), multiset{}, {m.free[0]}, d, v, true);
  }

  lemma AllocCost(m: Mem, d: nat, v: nat)
    requires m.free != [] && AllocMap(m, d, v, {U, P}).1
    requires !Present(Translate(Walk(PopFree(m, true), d, v, true).0, d, v))
    ensures |AllocMap(m, d, v, {U, P}).0.free| >= |m.free| - 2
  {
    WalkCost(PopFree(m, true), d, v);
  }

  /** Some run of page calls from boot ends in a state with exact counts in which one
      more sys_page_map succeeds and leaves a count wrong. */
  lemma OverflowReached() returns (calls: seq<Call>, ms: seq<Mem>, m: Mem, d: nat, v: nat)
    ensures Leads(calls, ms, Pool(70000), m) && Inv(m, multiset{}, {})
    ensures var (m', e) := SysPageMap(m, To(d), 0, To(d), v * 4096, USER);
            e == OK && !Inv(m', multiset{}, {})
  {
    var m1, p;
    calls, ms, m1, d, p := FirstPage(70000);
    MappedPage(m1, multiset{}, {}, d, 0);
    var n := REF_RANGE - 1 - RefOf(m1, p);
    calls, ms, m := MapRepeatedly(calls, ms, Pool(70000), m1, d, p, 1, n);
    v := 1 + n;
    MapOverflows(m, d, p, v);
  }
}
