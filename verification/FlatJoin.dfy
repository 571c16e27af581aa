/** The mappings of the fork machine are those of the page tables: each of its steps
    is, on two-level page tables, the page call that the user library makes. */
module FlatJoin {
  import opened Layout
  import opened Paging
  import opened AddressSpace
  import opened PageCalls
  import opened Teardown
  import C = Cow

  /** A page-table entry as the fork machine has it. */
  function PteOf(w: Word): C.Pte {
    C.Pte(w.ppn, W in w.flags, COW in w.flags)
  }

  /** Where the address space of an environment is. */
  type Dirs = map<nat, nat>

  predicate Apart(m: Mem, dirOf: Dirs) {
    && (forall e :: e in dirOf ==> dirOf[e] in m.dirs)
    && (forall e, f :: e in dirOf && f in dirOf && e != f ==> dirOf[e] != dirOf[f])
  }

  ghost predicate ShowsAt(m: Mem, dirOf: Dirs, pte: map<C.Slot, C.Pte>, a: C.Slot) {
    && (a in pte <==> a.env in dirOf && a.vpn < UTOP_VPN && Present(Translate(m, dirOf[a.env], a.vpn)))
    && (a in pte ==> pte[a] == PteOf(Translate(m, dirOf[a.env], a.vpn)))
  }

  /** pte is what the page tables say of the pages below UTOP. */
  ghost predicate Shows(m: Mem, dirOf: Dirs, pte: map<C.Slot, C.Pte>) {
    forall a: C.Slot :: ShowsAt(m, dirOf, pte, a)
  }

  /** The permissions fork.c asks for. */
  function Perm(w: bool, cow: bool): (p: Word)
    ensures PermOk(p) && P in p.flags && (W in p.flags <==> w) && (COW in p.flags <==> cow)
  {
    Word(0, {U, P} + (if w then {W} else {}) + (if cow then {COW} else {}))
  }

  lemma PageVa(v: nat)
    requires v < UTOP_VPN
    ensures UserPage(v * 4096) && PGNUM(v * 4096) == v
  {
  }

  /** One entry of one address space changed. */
  lemma SlotShows(m: Mem, m': Mem, dirOf: Dirs, pte: map<C.Slot, C.Pte>, e: nat, v: nat, w: Word)
    requires Shows(m, dirOf, pte) && Apart(m, dirOf) && e in dirOf && v < UTOP_VPN
    requires FlatUpdate(m, m', dirOf[e], v, w)
    ensures Present(w) ==> Shows(m', dirOf, pte[C.Slot(e, v) := PteOf(w)])
    ensures !Present(w) ==> Shows(m', dirOf, pte - {C.Slot(e, v)})
  {
    var a0 := C.Slot(e, v);
    var pte' := if Present(w) then pte[a0 := PteOf(w)] else pte - {a0};
    forall a: C.Slot ensures ShowsAt(m', dirOf, pte', a) {
      assert ShowsAt(m, dirOf, pte, a);
      if a.env in dirOf && a.vpn < UTOP_VPN {
        assert Translate(m', dirOf[a.env], a.vpn) == if a == a0 then w else Translate(m, dirOf[a.env], a.vpn);
      }
    }
  }

  /** sys_page_map(e, v, f, u, perm) that succeeds. */
  lemma MapShows(m: Mem, dirOf: Dirs, pte: map<C.Slot, C.Pte>, e: nat, v: nat, f: nat, u: nat, w: bool, cow: bool)
    requires Inv(m, multiset{}, {}) && Shows(m, dirOf, pte) && Apart(m, dirOf) && e in dirOf && f in dirOf
    requires C.Slot(e, v) in pte && u < UTOP_VPN && Countable(m, dirOf[e], v * 4096, dirOf[f], u * 4096)
    requires w ==> pte[C.Slot(e, v)].w
    ensures var (m', r) := SysPageMap(m, To(dirOf[e]), v * 4096, To(dirOf[f]), u * 4096, Perm(w, cow));
            && (r == OK || (r == NO_MEM && m' == m)) && Inv(m', multiset{}, {})
            && (r == OK ==>
                  Apart(m', dirOf) && Shows(m', dirOf, pte[C.Slot(f, u) := C.Pte(pte[C.Slot(e, v)].ppn, w, cow)]))
  {
    assert ShowsAt(m, dirOf, pte, C.Slot(e, v));
    PageVa(v);
    PageVa(u);
    MapPage(m, dirOf[e], v * 4096, dirOf[f], u * 4096, Perm(w, cow).flags);
    var (m', r) := SysPageMap(m, To(dirOf[e]), v * 4096, To(dirOf[f]), u * 4096, Perm(w, cow));
    if r == OK {
      SlotShows(m, m', dirOf, pte, f, u, Word(pte[C.Slot(e, v)].ppn, Perm(w, cow).flags));
    }
  }

  /** sys_page_alloc(e, v, PTE_W): the page is one that nobody maps. */
  lemma AllocShows(m: Mem, dirOf: Dirs, pte: map<C.Slot, C.Pte>, e: nat, v: nat)
    requires Inv(m, multiset{}, {}) && Shows(m, dirOf, pte) && Apart(m, dirOf) && e in dirOf && v < UTOP_VPN
    ensures var (m', r) := SysPageAlloc(m, To(dirOf[e]), v * 4096, Perm(true, false));
            && (r == OK || r == NO_MEM) && Inv(m', multiset{}, {}) && Apart(m', dirOf)
            && (r == NO_MEM ==> Shows(m', dirOf, pte))
            && (r == OK ==>
                  && m.free != [] && (forall a :: a in pte ==> pte[a].ppn != m.free[0])
                  && Shows(m', dirOf, pte[C.Slot(e, v) := C.Pte(m.free[0], true, false)]))
  {
    PageVa(v);
    var flags := {U, P} + Perm(true, false).flags;
    AllocMapKeeps(m, dirOf[e], v, flags);
    var (m', ok) := AllocMap(m, dirOf[e], v, flags);
    if ok {
      SlotShows(m, m', dirOf, pte, e, v, Word(m.free[0], flags + {P}));
      forall a | a in pte ensures pte[a].ppn != m.free[0] {
        assert ShowsAt(m, dirOf, pte, a);
        FreeUnmapped(m, dirOf[a.env], a.vpn, m.free[0]);
      }
    } else {
      SameShows(m, m', dirOf, pte);
    }
  }

  lemma SameShows(m: Mem, m': Mem, dirOf: Dirs, pte: map<C.Slot, C.Pte>)
    requires Shows(m, dirOf, pte) && Apart(m, dirOf)
    requires forall e, u :: e in m.dirs && 0 <= u < UTOP_VPN ==> Translate(m', e, u) == Translate(m, e, u)
    ensures Shows(m', dirOf, pte)
  {
    forall a: C.Slot ensures ShowsAt(m', dirOf, pte, a) {
      assert ShowsAt(m, dirOf, pte, a);
    }
  }

  /** sys_page_unmap(e, v). */
  lemma UnmapShows(m: Mem, dirOf: Dirs, pte: map<C.Slot, C.Pte>, e: nat, v: nat)
    requires Inv(m, multiset{}, {}) && Shows(m, dirOf, pte) && Apart(m, dirOf) && e in dirOf && v < UTOP_VPN
    ensures var (m', r) := SysPageUnmap(m, To(dirOf[e]), v * 4096);
            r == OK && Inv(m', multiset{}, {}) && Apart(m', dirOf) && Shows(m', dirOf, pte - {C.Slot(e, v)})
  {
    PageVa(v);
    RemoveKeeps(m, multiset{}, {}, dirOf[e], v);
    SlotShows(m, Remove(m, dirOf[e], v), dirOf, pte, e, v, ZERO);
  }

  /** sys_exofork: an address space that shows nothing yet. */
  lemma SetupShows(m: Mem, dirOf: Dirs, pte: map<C.Slot, C.Pte>, c: nat)
    requires Inv(m, multiset{}, {}) && Shows(m, dirOf, pte) && Apart(m, dirOf) && m.free != [] && c !in dirOf
    ensures var m' := SetupVm(m).0;
            var dirOf' := dirOf[c := m.free[0]];
            Inv(m', multiset{}, {}) && Apart(m', dirOf') && Shows(m', dirOf', pte)
  {
    SetupKeeps(m, multiset{}, {});
    var m', dirOf' := SetupVm(m).0, dirOf[c := m.free[0]];
    forall a: C.Slot ensures ShowsAt(m', dirOf', pte, a) {
      assert ShowsAt(m, dirOf, pte, a);
    }
  }

  /** env_free. */
  lemma FreeShows(m: Mem, dirOf: Dirs, pte: map<C.Slot, C.Pte>, e: nat)
    requires Inv(m, multiset{}, {}) && Shows(m, dirOf, pte) && Apart(m, dirOf) && e in dirOf
    ensures var m' := EnvFreed(m, dirOf[e]);
            && Inv(m', multiset{}, {}) && Apart(m', dirOf - {e})
            && Shows(m', dirOf - {e}, map a | a in pte && a.env != e :: pte[a])
  {
    EnvFreedTears(m, dirOf[e]);
    var m', dirOf', pte' := EnvFreed(m, dirOf[e]), dirOf - {e}, map a | a in pte && a.env != e :: pte[a];
    forall a: C.Slot ensures ShowsAt(m', dirOf', pte', a) {
      assert ShowsAt(m, dirOf, pte, a);
    }
  }

  // ------------------------------------------------------ the steps of the fork machine

  /** The page call behind an action, and its result. */
  ghost function MemAfter(s: C.State, a: C.Action, m: Mem, dirOf: Dirs): (Mem, Err)
    requires C.Inv(s) && C.Enabled(s, a) && dirOf.Keys == s.envs.Keys
  {
    var temp := C.PFTEMP_VPN * 4096;
    match a
    case FaultAlloc(e, q) => SysPageAlloc(m, To(dirOf[e]), temp, Perm(true, false))
    case FaultMap(e) =>
      SysPageMap(m, To(dirOf[e]), temp, To(dirOf[e]), s.envs[e].fault.v * 4096, Perm(true, false))
    case FaultUnmap(e) => SysPageUnmap(m, To(dirOf[e]), temp)
    case ForkBegin(e, c) => var (m', ok) := SetupVm(m); (m', if ok then OK else NO_MEM)
    case ForkMapChild(e) =>
      var f := s.envs[e].fork;
      assert C.ForkOk(s, e);
      SysPageMap(m, To(dirOf[e]), f.v * 4096, To(dirOf[f.child]), f.v * 4096, Perm(false, f.cow))
    case ForkMapSelf(e) =>
      var va := s.envs[e].fork.v * 4096;
      SysPageMap(m, To(dirOf[e]), va, To(dirOf[e]), va, Perm(false, true))
    case ForkStack(e, q) =>
      assert C.ForkOk(s, e);
      SysPageAlloc(m, To(dirOf[s.envs[e].fork.child]), C.UX_VPN * 4096, Perm(true, false))
    case Exit(e) => (EnvFreed(m, dirOf[e]), OK)
    case Alloc(e, v, q) => SysPageAlloc(m, To(dirOf[e]), v * 4096, Perm(true, false))
    case Unmap(e, v) => SysPageUnmap(m, To(dirOf[e]), v * 4096)
    case _ => (m, OK)
  }

  function DirsAfter(a: C.Action, m: Mem, dirOf: Dirs): Dirs {
    match a
    case ForkBegin(e, c) => if m.free == [] then dirOf else dirOf[c := m.free[0]]
    case Exit(e) => dirOf - {e}
    case _ => dirOf
  }

  /** The page that the action names is the one the allocator gives. */
  predicate Gives(a: C.Action, m: Mem) {
    a.FaultAlloc? || a.ForkStack? || a.Alloc? ==> m.free != [] && a.q == m.free[0]
  }

  /** The 16-bit count of a page that gets another mapping has room. */
  predicate Room(s: C.State, a: C.Action, m: Mem, dirOf: Dirs)
    requires C.Inv(s) && C.Enabled(s, a) && dirOf.Keys == s.envs.Keys
  {
    match a
    case FaultMap(e) =>
      Countable(m, dirOf[e], C.PFTEMP_VPN * 4096, dirOf[e], s.envs[e].fault.v * 4096)
    case ForkMapChild(e) =>
      var f := s.envs[e].fork;
      assert C.ForkOk(s, e);
      Countable(m, dirOf[e], f.v * 4096, dirOf[f.child], f.v * 4096)
    case _ => true
  }

  ghost predicate Joined(s: C.State, m: Mem, dirOf: Dirs) {
    Inv(m, multiset{}, {}) && dirOf.Keys == s.envs.Keys && Apart(m, dirOf) && Shows(m, dirOf, s.pte)
  }

  /** The page the allocator gives is one that nobody maps. */
  lemma GivesFresh(s: C.State, m: Mem, dirOf: Dirs)
    requires Joined(s, m, dirOf) && m.free != []
    ensures C.Fresh(s, m.free[0])
  {
    assert m.free[0] in m.free;
    forall a | a in s.pte ensures s.pte[a].ppn != m.free[0] {
      assert ShowsAt(m, dirOf, s.pte, a);
      FreeUnmapped(m, dirOf[a.env], a.vpn, m.free[0]);
    }
  }

  lemma FreeUnmapped(m: Mem, d: nat, v: nat, p: nat)
    requires Inv(m, multiset{}, {}) && d in m.dirs && v < UTOP_VPN && p in m.free
    ensures !Maps(Translate(m, d, v), p)
  {
    TranslateIsReference(m, d, v, p);
    assert Refs(m, p) == {};
    assert Refers(m, SiteOf(d, v), p) ==> SiteOf(d, v) in Refs(m, p);
  }

  lemma FaultMapJoins(s: C.State, e: nat, m: Mem, dirOf: Dirs)
    requires C.Inv(s) && C.Enabled(s, C.FaultMap(e)) && Joined(s, m, dirOf) && Room(s, C.FaultMap(e), m, dirOf)
    requires MemAfter(s, C.FaultMap(e), m, dirOf).1 == OK
    ensures Joined(C.Next(s, C.FaultMap(e)), MemAfter(s, C.FaultMap(e), m, dirOf).0, dirOf)
  {
    assert C.FaultOk(s, e);
    MapShows(m, dirOf, s.pte, e, C.PFTEMP_VPN, e, s.envs[e].fault.v, true, false);
  }

  lemma MapChildJoins(s: C.State, e: nat, m: Mem, dirOf: Dirs)
    requires C.Inv(s) && C.Enabled(s, C.ForkMapChild(e)) && Joined(s, m, dirOf)
    requires Room(s, C.ForkMapChild(e), m, dirOf)
    requires MemAfter(s, C.ForkMapChild(e), m, dirOf).1 == OK
    ensures Joined(C.Next(s, C.ForkMapChild(e)), MemAfter(s, C.ForkMapChild(e), m, dirOf).0, dirOf)
  {
    assert C.ForkOk(s, e);
    var f := s.envs[e].fork;
    MapShows(m, dirOf, s.pte, e, f.v, f.child, f.v, false, f.cow);
  }

  lemma MapSelfJoins(s: C.State, e: nat, m: Mem, dirOf: Dirs)
    requires C.Inv(s) && C.Enabled(s, C.ForkMapSelf(e)) && Joined(s, m, dirOf)
    requires MemAfter(s, C.ForkMapSelf(e), m, dirOf).1 == OK
    ensures Joined(C.Next(s, C.ForkMapSelf(e)), MemAfter(s, C.ForkMapSelf(e), m, dirOf).0, dirOf)
  {
    assert C.ForkOk(s, e);
    var v := s.envs[e].fork.v;
    assert ShowsAt(m, dirOf, s.pte, C.Slot(e, v));
    PageVa(v);
    MapShows(m, dirOf, s.pte, e, v, e, v, false, true);
  }

  lemma AllocJoins(s: C.State, a: C.Action, m: Mem, dirOf: Dirs)
    requires C.Inv(s) && C.Enabled(s, a) && Joined(s, m, dirOf) && Gives(a, m)
    requires (a.FaultAlloc? || a.ForkStack? || a.Alloc?) && MemAfter(s, a, m, dirOf).1 == OK
    ensures Joined(C.Next(s, a), MemAfter(s, a, m, dirOf).0, dirOf)
  {
    match a
    case FaultAlloc(e, q) => AllocShows(m, dirOf, s.pte, e, C.PFTEMP_VPN);
    case ForkStack(e, q) =>
      assert C.ForkOk(s, e);
      AllocShows(m, dirOf, s.pte, s.envs[e].fork.child, C.UX_VPN);
    case Alloc(e, v, q) => AllocShows(m, dirOf, s.pte, e, v);
  }

  lemma UnmapJoins(s: C.State, a: C.Action, m: Mem, dirOf: Dirs)
    requires C.Inv(s) && C.Enabled(s, a) && Joined(s, m, dirOf) && (a.FaultUnmap? || a.Unmap?)
    ensures Joined(C.Next(s, a), MemAfter(s, a, m, dirOf).0, dirOf)
  {
    UnmapShows(m, dirOf, s.pte, a.e, if a.FaultUnmap? then C.PFTEMP_VPN else a.v);
  }

  lemma DirsJoin(s: C.State, a: C.Action, m: Mem, dirOf: Dirs)
    requires C.Inv(s) && C.Enabled(s, a) && Joined(s, m, dirOf) && (a.ForkBegin? || a.Exit?)
    requires MemAfter(s, a, m, dirOf).1 == OK
    ensures Joined(C.Next(s, a), MemAfter(s, a, m, dirOf).0, DirsAfter(a, m, dirOf))
  {
    match a
    case ForkBegin(e, c) => SetupShows(m, dirOf, s.pte, c);
    case Exit(e) => FreeShows(m, dirOf, s.pte, e);
  }

  /** Stores, copies, and the bookkeeping of fork and pgfault make no page call. */
  lemma QuietJoins(s: C.State, a: C.Action)
    requires C.Inv(s) && C.Enabled(s, a)
    requires a.Write? || a.TakeFault? || a.FaultCopy? || a.ForkScan? || a.ForkStart?
    ensures C.Next(s, a).pte == s.pte && C.Next(s, a).envs.Keys == s.envs.Keys
  {
    assert C.ForkOk(s, a.e);
  }

  /** Every step of the fork machine whose page call succeeds changes the mappings as
      the page tables change. */
  lemma StepJoins(s: C.State, a: C.Action, m: Mem, dirOf: Dirs)
    requires C.Inv(s) && C.Enabled(s, a) && Joined(s, m, dirOf) && Gives(a, m) && Room(s, a, m, dirOf)
    requires MemAfter(s, a, m, dirOf).1 == OK
    ensures Joined(C.Next(s, a), MemAfter(s, a, m, dirOf).0, DirsAfter(a, m, dirOf))
  {
    match a
    case FaultMap(e) => FaultMapJoins(s, e, m, dirOf);
    case ForkMapChild(e) => MapChildJoins(s, e, m, dirOf);
    case ForkMapSelf(e) => MapSelfJoins(s, e, m, dirOf);
    case FaultAlloc(_, _) => AllocJoins(s, a, m, dirOf);
    case ForkStack(_, _) => AllocJoins(s, a, m, dirOf);
    case Alloc(_, _, _) => AllocJoins(s, a, m, dirOf);
    case FaultUnmap(_) => UnmapJoins(s, a, m, dirOf);
    case Unmap(_, _) => UnmapJoins(s, a, m, dirOf);
    case ForkBegin(_, _) => DirsJoin(s, a, m, dirOf);
    case Exit(_) => DirsJoin(s, a, m, dirOf);
    case _ => QuietJoins(s, a);
  }
}
