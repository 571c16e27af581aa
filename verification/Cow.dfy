/** Copy-on-write fork as the interleaving of user steps of all environments of
    a fork family, one system call or memory access at a time, and its
    refinement of eager copying. */
module Cow {

  const USTACK_VPN := 977918    // USTACKTOP / PGSIZE
  const UX_VPN := 977919        // the exception stack page
  const PFTEMP_VPN := 2047      // PFTEMP / PGSIZE
  const WORDS := 1024

  type Content = seq<int>

  datatype Slot = Slot(env: nat, vpn: nat)

  /** A user mapping; PTE_U and PTE_P are always set in it. */
  datatype Pte = Pte(ppn: nat, w: bool, cow: bool)

  /** How far pgfault has come; Copying(v, k) has copied k words to PFTEMP. */
  datatype Fault = NoFault | Entered(v: nat) | Copying(v: nat, k: nat) | Remapped(v: nat)

  /** How far fork has come: about to test page v; in duppage with the bits of
      uvpt[v] read; in duppage with the child's page mapped; about to start the
      child. */
  datatype Fork =
    | NoFork
    | Scan(child: nat, v: nat)
    | Dup(child: nat, v: nat, cow: bool)
    | Remap(child: nat, v: nat)
    | Ready(child: nat)

  datatype Prog = Prog(parent: nat, runnable: bool, fault: Fault, fork: Fork)

  datatype State = State(envs: map<nat, Prog>, pte: map<Slot, Pte>, phys: map<nat, Content>)

  /** The pages that fork copies. */
  predicate UserPage(v: nat) {
    v < USTACK_VPN && v != PFTEMP_VPN
  }

  function Zeros(): (c: Content)
    ensures |c| == WORDS
  {
    seq(WORDS, k => 0)
  }

  predicate Fresh(s: State, q: nat) {
    forall a :: a in s.pte ==> s.pte[a].ppn != q
  }

  function WithFault(s: State, e: nat, f: Fault): State
    requires e in s.envs
  {
    s.(envs := s.envs[e := s.envs[e].(fault := f)])
  }

  function WithFork(s: State, e: nat, f: Fork): State
    requires e in s.envs
  {
    s.(envs := s.envs[e := s.envs[e].(fork := f)])
  }

  // --------------------------------------------------------------------- steps

  datatype Action =
    | Write(e: nat, v: nat, off: nat, x: int)
    | TakeFault(e: nat, v: nat)
    | FaultAlloc(e: nat, q: nat)
    | FaultCopy(e: nat)
    | FaultMap(e: nat)
    | FaultUnmap(e: nat)
    | ForkBegin(e: nat, c: nat)
    | ForkScan(e: nat)
    | ForkMapChild(e: nat)
    | ForkMapSelf(e: nat)
    | ForkStack(e: nat, q: nat)
    | ForkStart(e: nat)
    | Exit(e: nat)
    | Alloc(e: nat, v: nat, q: nat)
    | Unmap(e: nat, v: nat)

  predicate Runs(s: State, e: nat) {
    e in s.envs && s.envs[e].runnable
  }

  /** Outside the fault handler. */
  predicate Normal(s: State, e: nat) {
    Runs(s, e) && s.envs[e].fault == NoFault
  }

  predicate Mapped(s: State, e: nat, v: nat) {
    Slot(e, v) in s.pte
  }

  /** The action can happen: memory suffices, so a fresh page is at hand. */
  predicate Enabled(s: State, a: Action) {
    match a
    case Write(e, v, off, x) =>
      Runs(s, e) && Mapped(s, e, v) && s.pte[Slot(e, v)].w && off < WORDS && v != PFTEMP_VPN &&
      (s.envs[e].fault == NoFault || v == UX_VPN)
    case TakeFault(e, v) =>
      Normal(s, e) && Mapped(s, e, v) && !s.pte[Slot(e, v)].w && s.pte[Slot(e, v)].cow
    case FaultAlloc(e, q) => Runs(s, e) && s.envs[e].fault.Entered? && Fresh(s, q)
    case FaultCopy(e) => Runs(s, e) && s.envs[e].fault.Copying? && s.envs[e].fault.k < WORDS
    case FaultMap(e) => Runs(s, e) && s.envs[e].fault.Copying? && s.envs[e].fault.k == WORDS
    case FaultUnmap(e) => Runs(s, e) && s.envs[e].fault.Remapped?
    case ForkBegin(e, c) => Normal(s, e) && s.envs[e].fork == NoFork && c !in s.envs
    case ForkScan(e) => Normal(s, e) && s.envs[e].fork.Scan? && s.envs[e].fork.v < USTACK_VPN
    case ForkMapChild(e) => Normal(s, e) && s.envs[e].fork.Dup?
    case ForkMapSelf(e) => Normal(s, e) && s.envs[e].fork.Remap?
    case ForkStack(e, q) => Normal(s, e) && s.envs[e].fork.Scan? && s.envs[e].fork.v == USTACK_VPN && Fresh(s, q)
    case ForkStart(e) => Normal(s, e) && s.envs[e].fork.Ready?
    case Exit(e) => Runs(s, e)
    case Alloc(e, v, q) =>
      Normal(s, e) && s.envs[e].fork == NoFork && (UserPage(v) || v == UX_VPN) && Fresh(s, q)
    case Unmap(e, v) => Normal(s, e) && s.envs[e].fork == NoFork && (UserPage(v) || v == UX_VPN)
  }

  /** uvpt[v] & (PTE_W | PTE_COW). */
  predicate Shares(p: Pte) {
    p.w || p.cow
  }

  /** The state after an enabled action of a state that satisfies Inv. */
  function Next(s: State, a: Action): State
    requires Inv(s) && Enabled(s, a)
  {
    match a
    case Write(e, v, off, x) =>
      var q := s.pte[Slot(e, v)].ppn;
      s.(phys := s.phys[q := s.phys[q][off := x]])
    case TakeFault(e, v) => WithFault(s, e, Entered(v))
    case FaultAlloc(e, q) =>
      WithFault(s, e, Copying(s.envs[e].fault.v, 0)).(
        pte := s.pte[Slot(e, PFTEMP_VPN) := Pte(q, true, false)], phys := s.phys[q := Zeros()])
    case FaultCopy(e) =>
      var Copying(v, k) := s.envs[e].fault;
      var q := s.pte[Slot(e, PFTEMP_VPN)].ppn;
      WithFault(s, e, Copying(v, k + 1)).(
        phys := s.phys[q := s.phys[q][k := s.phys[s.pte[Slot(e, v)].ppn][k]]])
    case FaultMap(e) =>
      var v := s.envs[e].fault.v;
      WithFault(s, e, Remapped(v)).(
        pte := s.pte[Slot(e, v) := Pte(s.pte[Slot(e, PFTEMP_VPN)].ppn, true, false)])
    case FaultUnmap(e) => WithFault(s, e, NoFault).(pte := s.pte - {Slot(e, PFTEMP_VPN)})
    case ForkBegin(e, c) =>
      WithFork(s.(envs := s.envs[c := Prog(e, false, NoFault, NoFork)]), e, Scan(c, 0))
    case ForkScan(e) =>
      var Scan(c, v) := s.envs[e].fork;
      WithFork(s, e, if Mapped(s, e, v) then Dup(c, v, Shares(s.pte[Slot(e, v)])) else Scan(c, v + 1))
    case ForkMapChild(e) =>
      var Dup(c, v, cow) := s.envs[e].fork;
      WithFork(s, e, if cow then Remap(c, v) else Scan(c, v + 1)).(
        pte := s.pte[Slot(c, v) := Pte(s.pte[Slot(e, v)].ppn, false, cow)])
    case ForkMapSelf(e) =>
      var Remap(c, v) := s.envs[e].fork;
      WithFork(s, e, Scan(c, v + 1)).(
        pte := s.pte[Slot(e, v) := Pte(s.pte[Slot(e, v)].ppn, false, true)])
    case ForkStack(e, q) =>
      var c := s.envs[e].fork.child;
      WithFork(s, e, Ready(c)).(
        pte := s.pte[Slot(c, UX_VPN) := Pte(q, true, false)], phys := s.phys[q := Zeros()])
    case ForkStart(e) =>
      var c := s.envs[e].fork.child;
      WithFork(s.(envs := s.envs[c := s.envs[c].(runnable := true)]), e, NoFork)
    case Exit(e) => s.(envs := s.envs - {e}, pte := map a | a in s.pte && a.env != e :: s.pte[a])
    case Alloc(e, v, q) =>
      s.(pte := s.pte[Slot(e, v) := Pte(q, true, false)], phys := s.phys[q := Zeros()])
    case Unmap(e, v) => s.(pte := s.pte - {Slot(e, v)})
  }

  // ----------------------------------------------------------------- invariant

  ghost predicate PteOk(s: State, a: Slot)
    requires a in s.pte
  {
    && a.env in s.envs
    && s.pte[a].ppn in s.phys && |s.phys[s.pte[a].ppn]| == WORDS
    && !(s.pte[a].w && s.pte[a].cow)
    && (s.pte[a].cow ==> UserPage(a.vpn))
  }

  /** pgfault's temporary second mapping. */
  predicate FaultAlias(s: State, a: Slot, b: Slot) {
    && a.env == b.env && a.env in s.envs
    && match s.envs[a.env].fault
       case Remapped(v) => (a.vpn == v && b.vpn == PFTEMP_VPN) || (a.vpn == PFTEMP_VPN && b.vpn == v)
       case _ => false
  }

  /** The page being duplicated, mapped into the child and not yet read-only in
      the parent. */
  predicate DupAlias(s: State, a: Slot, b: Slot) {
    a.vpn == b.vpn && a.env in s.envs && s.envs[a.env].fork == Remap(b.env, b.vpn)
  }

  /** A page mapped writable has no other user mapping. */
  ghost predicate Exclusive(s: State) {
    forall a, b :: a in s.pte && b in s.pte && a != b && s.pte[a].ppn == s.pte[b].ppn && s.pte[a].w ==>
      FaultAlias(s, a, b) || DupAlias(s, a, b)
  }

  ghost predicate FaultOk(s: State, e: nat)
    requires e in s.envs
  {
    match s.envs[e].fault
    case NoFault => Slot(e, PFTEMP_VPN) !in s.pte
    case Entered(v) =>
      && Slot(e, PFTEMP_VPN) !in s.pte
      && UserPage(v) && Slot(e, v) in s.pte && s.pte[Slot(e, v)].cow
    case Copying(v, k) =>
      && UserPage(v) && Slot(e, v) in s.pte && s.pte[Slot(e, v)].cow
      && Slot(e, PFTEMP_VPN) in s.pte && s.pte[Slot(e, PFTEMP_VPN)].w
      && k <= WORDS
      && CopiedSoFar(s, s.pte[Slot(e, PFTEMP_VPN)].ppn, s.pte[Slot(e, v)].ppn, k)
    case Remapped(v) =>
      && UserPage(v) && Slot(e, v) in s.pte && Slot(e, PFTEMP_VPN) in s.pte
      && s.pte[Slot(e, PFTEMP_VPN)].w
      && s.pte[Slot(e, PFTEMP_VPN)].ppn == s.pte[Slot(e, v)].ppn
  }

  ghost predicate CopiedSoFar(s: State, q: nat, p: nat, k: nat) {
    && q in s.phys && p in s.phys && |s.phys[q]| == |s.phys[p]| == WORDS && k <= WORDS
    && forall i :: 0 <= i < k ==> s.phys[q][i] == s.phys[p][i]
  }

  /** The child under construction, with nothing mapped from page n on. */
  ghost predicate Embryo(s: State, e: nat, c: nat, n: nat) {
    && c in s.envs && c != e && s.envs[c] == Prog(e, false, NoFault, NoFork)
    && (forall a :: a in s.pte && a.env == c ==> a.vpn < n)
  }

  ghost predicate ForkOk(s: State, e: nat)
    requires e in s.envs
  {
    match s.envs[e].fork
    case NoFork => true
    case Scan(c, v) => v <= USTACK_VPN && Embryo(s, e, c, v)
    case Dup(c, v, cow) =>
      && UserPage(v) && Embryo(s, e, c, v)
      && Slot(e, v) in s.pte && Shares(s.pte[Slot(e, v)]) == cow
    case Remap(c, v) =>
      && UserPage(v) && Embryo(s, e, c, v + 1)
      && Slot(e, v) in s.pte && Shares(s.pte[Slot(e, v)])
      && Slot(c, v) in s.pte && s.pte[Slot(c, v)].cow
    case Ready(c) => Embryo(s, e, c, UX_VPN + 1)
  }

  /** An environment that is not started does nothing. */
  ghost predicate IdleOk(s: State, e: nat)
    requires e in s.envs
  {
    !s.envs[e].runnable ==> s.envs[e].fault == NoFault && s.envs[e].fork == NoFork
  }

  ghost predicate Inv(s: State) {
    && (forall a :: a in s.pte ==> PteOk(s, a))
    && Exclusive(s)
    && (forall e :: e in s.envs ==> FaultOk(s, e) && ForkOk(s, e) && IdleOk(s, e))
  }

  // ------------------------------------------------- the invariant, step by step

  /** The page pgfault copies from is written by nobody. */
  lemma CopyStable(s: State, f: nat, a: Slot)
    requires Inv(s) && f in s.envs && s.envs[f].fault.Copying?
    requires a in s.pte && s.pte[a].w && a != Slot(f, PFTEMP_VPN)
    ensures s.pte[a].ppn != s.pte[Slot(f, s.envs[f].fault.v)].ppn
    ensures s.pte[a].ppn != s.pte[Slot(f, PFTEMP_VPN)].ppn
  {
    assert FaultOk(s, f) && PteOk(s, a);
    var src, tmp := Slot(f, s.envs[f].fault.v), Slot(f, PFTEMP_VPN);
    assert PteOk(s, src) && PteOk(s, tmp);
    assert ForkOk(s, a.env);
    assert !DupAlias(s, a, src) && !DupAlias(s, a, tmp);
  }

  lemma WriteKeeps(s: State, e: nat, v: nat, off: nat, x: int)
    requires Inv(s) && Enabled(s, Write(e, v, off, x))
    ensures Inv(Next(s, Write(e, v, off, x)))
  {
    var s' := Next(s, Write(e, v, off, x));
    assert PteOk(s, Slot(e, v));
    forall a | a in s'.pte ensures PteOk(s', a) {
      assert PteOk(s, a);
    }
    forall f | f in s.envs ensures FaultOk(s', f) && ForkOk(s', f) && IdleOk(s', f) {
      assert FaultOk(s, f) && ForkOk(s, f) && IdleOk(s, f);
      if s.envs[f].fault.Copying? {
        CopyStable(s, f, Slot(e, v));
      }
    }
    SameMappingsExclusive(s, s');
  }

  lemma SameMappingsExclusive(s: State, s': State)
    requires Exclusive(s) && s'.pte == s.pte && s'.envs == s.envs
    ensures Exclusive(s')
  {
    assert forall a, b :: FaultAlias(s, a, b) ==> FaultAlias(s', a, b);
    assert forall a, b :: DupAlias(s, a, b) ==> DupAlias(s', a, b);
  }

  lemma CopyKeeps(s: State, e: nat)
    requires Inv(s) && Enabled(s, FaultCopy(e))
    ensures Inv(Next(s, FaultCopy(e)))
  {
    var s' := Next(s, FaultCopy(e));
    var tmp := Slot(e, PFTEMP_VPN);
    assert FaultOk(s, e) && PteOk(s, tmp);
    CopySourceApart(s, e);
    forall a | a in s'.pte ensures PteOk(s', a) {
      assert PteOk(s, a);
    }
    forall f | f in s.envs ensures FaultOk(s', f) && ForkOk(s', f) && IdleOk(s', f) {
      assert FaultOk(s, f) && ForkOk(s, f) && IdleOk(s, f);
      if s.envs[f].fault.Copying? && f != e {
        CopyStable(s, f, tmp);
      }
    }
    assert Exclusive(s') by {
      assert forall a, b :: FaultAlias(s, a, b) ==> FaultAlias(s', a, b);
      assert forall a, b :: DupAlias(s, a, b) ==> DupAlias(s', a, b);
    }
  }

  /** memcpy never copies a page onto itself. */
  lemma CopySourceApart(s: State, e: nat)
    requires Inv(s) && e in s.envs && s.envs[e].fault.Copying?
    ensures s.pte[Slot(e, PFTEMP_VPN)].ppn != s.pte[Slot(e, s.envs[e].fault.v)].ppn
  {
    assert FaultOk(s, e);
    var src, tmp := Slot(e, s.envs[e].fault.v), Slot(e, PFTEMP_VPN);
    assert ForkOk(s, e);
    assert !FaultAlias(s, tmp, src) && !DupAlias(s, tmp, src);
  }

  /** The same mappings of the same words, with no alias gone. */
  lemma SameMappingsKeep(s: State, s': State)
    requires Inv(s) && s'.pte == s.pte && s'.phys == s.phys && s.envs.Keys <= s'.envs.Keys
    requires forall a, b :: FaultAlias(s, a, b) ==> FaultAlias(s', a, b)
    requires forall a, b :: DupAlias(s, a, b) ==> DupAlias(s', a, b)
    ensures (forall a :: a in s'.pte ==> PteOk(s', a)) && Exclusive(s')
  {
    forall a | a in s'.pte ensures PteOk(s', a) {
      assert PteOk(s, a);
    }
  }

  lemma TakeFaultKeeps(s: State, e: nat, v: nat)
    requires Inv(s) && Enabled(s, TakeFault(e, v))
    ensures Inv(Next(s, TakeFault(e, v)))
  {
    var s' := Next(s, TakeFault(e, v));
    assert FaultOk(s, e) && ForkOk(s, e) && IdleOk(s, e) && PteOk(s, Slot(e, v));
    ProgKeeps(s, s', e);
  }

  /** Changing one environment's own progress, not its mappings. */
  lemma ProgKeeps(s: State, s': State, e: nat)
    requires Inv(s) && e in s.envs && s'.pte == s.pte && s'.phys == s.phys
    requires s'.envs.Keys == s.envs.Keys && forall f :: f in s.envs && f != e ==> s'.envs[f] == s.envs[f]
    requires s'.envs[e].parent == s.envs[e].parent && s'.envs[e].runnable == s.envs[e].runnable
    requires FaultOk(s', e) && ForkOk(s', e) && IdleOk(s', e)
    requires !s.envs[e].fault.Remapped? && (s.envs[e].fork.Remap? ==> s'.envs[e].fork == s.envs[e].fork)
    requires s.envs[e].runnable
    ensures Inv(s')
  {
    forall f | f in s.envs ensures FaultOk(s', f) && ForkOk(s', f) && IdleOk(s', f) {
      assert FaultOk(s, f) && ForkOk(s, f) && IdleOk(s, f);
    }
    SameMappingsKeep(s, s');
  }

  /** Progress of an environment f that the step does not touch: its own slots,
      its child's, and the words it copies are as before. */
  ghost predicate Untouched(s: State, s': State, f: nat) {
    && f in s.envs && f in s'.envs && s'.envs[f] == s.envs[f]
    && (forall a: Slot :: a.env == f || a.env == ChildOf(s, f) ==> (a in s'.pte <==> a in s.pte))
    && (forall a: Slot :: (a.env == f || a.env == ChildOf(s, f)) && a in s.pte ==> s'.pte[a] == s.pte[a])
    && (s.envs[f].fork != NoFork ==>
          var c := ChildOf(s, f); c in s.envs && c in s'.envs && s'.envs[c] == s.envs[c])
    && (forall a: Slot :: a.env == f && a in s.pte && s.pte[a].ppn in s.phys ==>
          s.pte[a].ppn in s'.phys && s'.phys[s.pte[a].ppn] == s.phys[s.pte[a].ppn])
  }

  function ChildOf(s: State, f: nat): nat {
    if f in s.envs && s.envs[f].fork != NoFork then s.envs[f].fork.child else f
  }

  lemma UntouchedOk(s: State, s': State, f: nat)
    requires Inv(s) && Untouched(s, s', f)
    ensures FaultOk(s', f) && ForkOk(s', f) && IdleOk(s', f)
  {
    assert FaultOk(s, f) && ForkOk(s, f) && IdleOk(s, f);
    if s.envs[f].fault.Copying? {
      assert PteOk(s, Slot(f, s.envs[f].fault.v)) && PteOk(s, Slot(f, PFTEMP_VPN));
    }
  }

  lemma FaultAllocKeeps(s: State, e: nat, q: nat)
    requires Inv(s) && Enabled(s, FaultAlloc(e, q))
    ensures Inv(Next(s, FaultAlloc(e, q)))
  {
    var s' := Next(s, FaultAlloc(e, q));
    var a := Slot(e, PFTEMP_VPN);
    assert FaultOk(s, e) && ForkOk(s, e) && IdleOk(s, e);
    assert PteOk(s, Slot(e, s.envs[e].fault.v));
    forall f | f in s.envs ensures FaultOk(s', f) && ForkOk(s', f) && IdleOk(s', f) {
      if f != e {
        assert ForkOk(s, f);
        UntouchedOk(s, s', f);
      }
    }
    FreshKeeps(s, s', a, q);
  }

  lemma FreshKeeps(s: State, s': State, a: Slot, q: nat)
    requires Inv(s) && Fresh(s, q) && a.env in s.envs
    requires s'.pte == s.pte[a := Pte(q, true, false)] && s'.phys == s.phys[q := Zeros()]
    requires s.envs.Keys == s'.envs.Keys
    requires forall b, c :: FaultAlias(s, b, c) && b != a && c != a ==> FaultAlias(s', b, c)
    requires forall b, c :: DupAlias(s, b, c) && b != a && c != a ==> DupAlias(s', b, c)
    requires forall f :: f in s.envs ==> FaultOk(s', f) && ForkOk(s', f) && IdleOk(s', f)
    ensures Inv(s')
  {
    forall b | b in s'.pte ensures PteOk(s', b) {
      if b != a {
        assert PteOk(s, b);
      }
    }
  }

  lemma FaultMapKeeps(s: State, e: nat)
    requires Inv(s) && Enabled(s, FaultMap(e))
    ensures Inv(Next(s, FaultMap(e)))
  {
    var s' := Next(s, FaultMap(e));
    var v := s.envs[e].fault.v;
    var a, tmp := Slot(e, v), Slot(e, PFTEMP_VPN);
    assert FaultOk(s, e) && ForkOk(s, e) && IdleOk(s, e) && PteOk(s, a) && PteOk(s, tmp);
    forall f | f in s.envs ensures FaultOk(s', f) && ForkOk(s', f) && IdleOk(s', f) {
      if f != e {
        assert ForkOk(s, f);
        UntouchedOk(s, s', f);
      }
    }
    forall b | b in s'.pte ensures PteOk(s', b) {
      if b != a {
        assert PteOk(s, b);
      }
    }
    FaultMapExclusive(s, e, s');
  }

  lemma FaultMapExclusive(s: State, e: nat, s': State)
    requires Inv(s) && Enabled(s, FaultMap(e)) && s' == Next(s, FaultMap(e))
    ensures Exclusive(s')
  {
    var a, tmp := Slot(e, s.envs[e].fault.v), Slot(e, PFTEMP_VPN);
    assert FaultOk(s, e) && PteOk(s, a);
    forall b, c | b in s'.pte && c in s'.pte && b != c && s'.pte[b].ppn == s'.pte[c].ppn && s'.pte[b].w
      ensures FaultAlias(s', b, c) || DupAlias(s', b, c)
    {
      if b == a {
        TmpAlone(s, e, c);
      } else if c == a {
        TmpAlone(s, e, b);
      } else {
        assert FaultAlias(s, b, c) || DupAlias(s, b, c);
      }
    }
  }

  /** While pgfault copies, its temporary page has one mapping. */
  lemma TmpAlone(s: State, e: nat, b: Slot)
    requires Inv(s) && e in s.envs && s.envs[e].fault.Copying? && b in s.pte
    requires Slot(e, PFTEMP_VPN) in s.pte && s.pte[b].ppn == s.pte[Slot(e, PFTEMP_VPN)].ppn
    ensures b == Slot(e, PFTEMP_VPN)
  {
    var tmp := Slot(e, PFTEMP_VPN);
    assert FaultOk(s, e) && ForkOk(s, e) && PteOk(s, tmp);
    assert !FaultAlias(s, tmp, b) && !DupAlias(s, tmp, b);
  }

  lemma FaultUnmapKeeps(s: State, e: nat)
    requires Inv(s) && Enabled(s, FaultUnmap(e))
    ensures Inv(Next(s, FaultUnmap(e)))
  {
    var s' := Next(s, FaultUnmap(e));
    var tmp := Slot(e, PFTEMP_VPN);
    assert FaultOk(s, e) && ForkOk(s, e) && IdleOk(s, e);
    forall f | f in s.envs ensures FaultOk(s', f) && ForkOk(s', f) && IdleOk(s', f) {
      if f != e {
        assert ForkOk(s, f);
        UntouchedOk(s, s', f);
      }
    }
    forall b | b in s'.pte ensures PteOk(s', b) {
      assert PteOk(s, b);
    }
    FaultUnmapExclusive(s, e);
  }

  lemma FaultUnmapExclusive(s: State, e: nat)
    requires Inv(s) && Enabled(s, FaultUnmap(e))
    ensures Exclusive(Next(s, FaultUnmap(e)))
  {
    var s' := Next(s, FaultUnmap(e));
    assert FaultOk(s, e);
    forall b, c | b in s'.pte && c in s'.pte && b != c && s'.pte[b].ppn == s'.pte[c].ppn && s'.pte[b].w
      ensures FaultAlias(s', b, c) || DupAlias(s', b, c)
    {
      assert FaultAlias(s, b, c) || DupAlias(s, b, c);
    }
  }

  lemma ForkBeginKeeps(s: State, e: nat, c: nat)
    requires Inv(s) && Enabled(s, ForkBegin(e, c))
    ensures Inv(Next(s, ForkBegin(e, c)))
  {
    var s' := Next(s, ForkBegin(e, c));
    forall a | a in s'.pte ensures PteOk(s', a) && a.env != c {
      assert PteOk(s, a);
    }
    forall f | f in s'.envs ensures FaultOk(s', f) && ForkOk(s', f) && IdleOk(s', f) {
      if f != c {
        assert FaultOk(s, f) && ForkOk(s, f) && IdleOk(s, f);
        if f != e {
          UntouchedOk(s, s', f);
        }
      }
    }
    forall b, d | b in s'.pte && d in s'.pte && b != d && s'.pte[b].ppn == s'.pte[d].ppn && s'.pte[b].w
      ensures FaultAlias(s', b, d) || DupAlias(s', b, d)
    {
      assert FaultAlias(s, b, d) || DupAlias(s, b, d);
    }
  }

  lemma ForkScanKeeps(s: State, e: nat)
    requires Inv(s) && Enabled(s, ForkScan(e))
    ensures Inv(Next(s, ForkScan(e)))
  {
    assert FaultOk(s, e) && ForkOk(s, e) && IdleOk(s, e);
    ProgKeeps(s, Next(s, ForkScan(e)), e);
  }

  /** The page about to be duplicated is writable at most in the parent. */
  lemma OnlyParentWrites(s: State, e: nat, x: Slot)
    requires Inv(s) && Normal(s, e) && s.envs[e].fork.Dup? && x in s.pte && s.pte[x].w
    requires Slot(e, s.envs[e].fork.v) in s.pte && s.pte[x].ppn == s.pte[Slot(e, s.envs[e].fork.v)].ppn
    ensures x == Slot(e, s.envs[e].fork.v)
  {
    var a := Slot(e, s.envs[e].fork.v);
    assert PteOk(s, x) && ForkOk(s, x.env) && IdleOk(s, e);
    assert !FaultAlias(s, x, a) && !DupAlias(s, x, a);
  }

  lemma ForkMapChildKeeps(s: State, e: nat)
    requires Inv(s) && Enabled(s, ForkMapChild(e))
    ensures Inv(Next(s, ForkMapChild(e)))
  {
    var s' := Next(s, ForkMapChild(e));
    var Dup(c, v, cow) := s.envs[e].fork;
    var a, d := Slot(e, v), Slot(c, v);
    assert FaultOk(s, e) && ForkOk(s, e) && IdleOk(s, e) && PteOk(s, a);
    forall f | f in s.envs ensures FaultOk(s', f) && ForkOk(s', f) && IdleOk(s', f) {
      assert FaultOk(s, f) && ForkOk(s, f) && IdleOk(s, f);
      if f != e && f != c {
        UntouchedOk(s, s', f);
      }
    }
    forall b | b in s'.pte ensures PteOk(s', b) {
      if b != d {
        assert PteOk(s, b);
      }
    }
    ForkMapChildExclusive(s, e);
  }

  lemma ForkMapChildExclusive(s: State, e: nat)
    requires Inv(s) && Enabled(s, ForkMapChild(e))
    ensures Exclusive(Next(s, ForkMapChild(e)))
  {
    var s' := Next(s, ForkMapChild(e));
    var Dup(c, v, cow) := s.envs[e].fork;
    var a, d := Slot(e, v), Slot(c, v);
    assert ForkOk(s, e);
    forall x, y | x in s'.pte && y in s'.pte && x != y && s'.pte[x].ppn == s'.pte[y].ppn && s'.pte[x].w
      ensures FaultAlias(s', x, y) || DupAlias(s', x, y)
    {
      assert x != d;
      if y == d {
        OnlyParentWrites(s, e, x);
      } else {
        assert FaultAlias(s, x, y) || DupAlias(s, x, y);
      }
    }
  }

  lemma ForkMapSelfKeeps(s: State, e: nat)
    requires Inv(s) && Enabled(s, ForkMapSelf(e))
    ensures Inv(Next(s, ForkMapSelf(e)))
  {
    var s' := Next(s, ForkMapSelf(e));
    var Remap(c, v) := s.envs[e].fork;
    var a := Slot(e, v);
    assert FaultOk(s, e) && ForkOk(s, e) && IdleOk(s, e) && PteOk(s, a);
    forall f | f in s.envs ensures FaultOk(s', f) && ForkOk(s', f) && IdleOk(s', f) {
      assert FaultOk(s, f) && ForkOk(s, f) && IdleOk(s, f);
      if f != e {
        UntouchedOk(s, s', f);
      }
    }
    forall b | b in s'.pte ensures PteOk(s', b) {
      assert PteOk(s, b);
    }
    ForkMapSelfExclusive(s, e);
  }

  lemma ForkMapSelfExclusive(s: State, e: nat)
    requires Inv(s) && Enabled(s, ForkMapSelf(e))
    ensures Exclusive(Next(s, ForkMapSelf(e)))
  {
    var s' := Next(s, ForkMapSelf(e));
    var a := Slot(e, s.envs[e].fork.v);
    assert ForkOk(s, e) && FaultOk(s, e);
    forall x, y | x in s'.pte && y in s'.pte && x != y && s'.pte[x].ppn == s'.pte[y].ppn && s'.pte[x].w
      ensures FaultAlias(s', x, y) || DupAlias(s', x, y)
    {
      assert x != a;
      assert FaultAlias(s, x, y) || DupAlias(s, x, y);
    }
  }

  lemma ForkStackKeeps(s: State, e: nat, q: nat)
    requires Inv(s) && Enabled(s, ForkStack(e, q))
    ensures Inv(Next(s, ForkStack(e, q)))
  {
    var s' := Next(s, ForkStack(e, q));
    var c := s.envs[e].fork.child;
    assert FaultOk(s, e) && ForkOk(s, e) && IdleOk(s, e);
    forall f | f in s.envs ensures FaultOk(s', f) && ForkOk(s', f) && IdleOk(s', f) {
      assert FaultOk(s, f) && ForkOk(s, f) && IdleOk(s, f);
      if f != e && f != c {
        UntouchedOk(s, s', f);
      }
    }
    FreshKeeps(s, s', Slot(c, UX_VPN), q);
  }

  lemma ForkStartKeeps(s: State, e: nat)
    requires Inv(s) && Enabled(s, ForkStart(e))
    ensures Inv(Next(s, ForkStart(e)))
  {
    var s' := Next(s, ForkStart(e));
    forall f | f in s.envs ensures FaultOk(s', f) && ForkOk(s', f) && IdleOk(s', f) {
      ForkStartOk(s, e, f);
    }
    assert ForkOk(s, e);
    SameMappingsKeep(s, s');
  }

  lemma ForkStartOk(s: State, e: nat, f: nat)
    requires Inv(s) && Enabled(s, ForkStart(e)) && f in s.envs
    ensures var s' := Next(s, ForkStart(e)); FaultOk(s', f) && ForkOk(s', f) && IdleOk(s', f)
  {
    var c := s.envs[e].fork.child;
    assert FaultOk(s, e) && ForkOk(s, e) && IdleOk(s, e);
    assert FaultOk(s, f) && ForkOk(s, f) && IdleOk(s, f);
    if f != e && f != c {
      UntouchedOk(s, Next(s, ForkStart(e)), f);
    }
  }

  lemma ExitKeeps(s: State, e: nat)
    requires Inv(s) && Enabled(s, Exit(e))
    ensures Inv(Next(s, Exit(e)))
  {
    var s' := Next(s, Exit(e));
    forall a | a in s'.pte ensures PteOk(s', a) {
      assert PteOk(s, a);
    }
    forall f | f in s'.envs ensures FaultOk(s', f) && ForkOk(s', f) && IdleOk(s', f) {
      assert FaultOk(s, f) && ForkOk(s, f) && IdleOk(s, f);
      UntouchedOk(s, s', f);
    }
    forall x, y | x in s'.pte && y in s'.pte && x != y && s'.pte[x].ppn == s'.pte[y].ppn && s'.pte[x].w
      ensures FaultAlias(s', x, y) || DupAlias(s', x, y)
    {
      assert FaultAlias(s, x, y) || DupAlias(s, x, y);
    }
  }

  lemma AllocKeeps(s: State, e: nat, v: nat, q: nat)
    requires Inv(s) && Enabled(s, Alloc(e, v, q))
    ensures Inv(Next(s, Alloc(e, v, q)))
  {
    var s' := Next(s, Alloc(e, v, q));
    assert FaultOk(s, e) && ForkOk(s, e) && IdleOk(s, e);
    forall f | f in s.envs ensures FaultOk(s', f) && ForkOk(s', f) && IdleOk(s', f) {
      assert FaultOk(s, f) && ForkOk(s, f) && IdleOk(s, f);
      if f != e {
        UntouchedOk(s, s', f);
      }
    }
    FreshKeeps(s, s', Slot(e, v), q);
  }

  lemma UnmapKeeps(s: State, e: nat, v: nat)
    requires Inv(s) && Enabled(s, Unmap(e, v))
    ensures Inv(Next(s, Unmap(e, v)))
  {
    var s' := Next(s, Unmap(e, v));
    forall a | a in s'.pte ensures PteOk(s', a) {
      assert PteOk(s, a);
    }
    forall f | f in s.envs ensures FaultOk(s', f) && ForkOk(s', f) && IdleOk(s', f) {
      assert FaultOk(s, f) && ForkOk(s, f) && IdleOk(s, f);
      if f != e {
        UntouchedOk(s, s', f);
      }
    }
    forall x, y | x in s'.pte && y in s'.pte && x != y && s'.pte[x].ppn == s'.pte[y].ppn && s'.pte[x].w
      ensures FaultAlias(s', x, y) || DupAlias(s', x, y)
    {
      assert FaultAlias(s, x, y) || DupAlias(s, x, y);
    }
  }

  /** Every step keeps the invariant: a page mapped writable is private. */
  lemma StepKeeps(s: State, a: Action)
    requires Inv(s) && Enabled(s, a)
    ensures Inv(Next(s, a))
  {
    match a
    case Write(e, v, off, x) => WriteKeeps(s, e, v, off, x);
    case TakeFault(e, v) => TakeFaultKeeps(s, e, v);
    case FaultAlloc(e, q) => FaultAllocKeeps(s, e, q);
    case FaultCopy(e) => CopyKeeps(s, e);
    case FaultMap(e) => FaultMapKeeps(s, e);
    case FaultUnmap(e) => FaultUnmapKeeps(s, e);
    case ForkBegin(e, c) => ForkBeginKeeps(s, e, c);
    case ForkScan(e) => ForkScanKeeps(s, e);
    case ForkMapChild(e) => ForkMapChildKeeps(s, e);
    case ForkMapSelf(e) => ForkMapSelfKeeps(s, e);
    case ForkStack(e, q) => ForkStackKeeps(s, e, q);
    case ForkStart(e) => ForkStartKeeps(s, e);
    case Exit(e) => ExitKeeps(s, e);
    case Alloc(e, v, q) => AllocKeeps(s, e, v, q);
    case Unmap(e, v) => UnmapKeeps(s, e, v);
  }

  /** A program just loaded: one environment, each of its pages mapped writable and
      nowhere else. */
  predicate Loaded(s: State, e: nat) {
    && s.envs == map[e := Prog(0, true, NoFault, NoFork)]
    && (forall a: Slot :: a in s.pte ==>
          a.env == e && a.vpn != PFTEMP_VPN && s.pte[a] == Pte(s.pte[a].ppn, true, false))
    && (forall a, b :: a in s.pte && b in s.pte && a != b ==> s.pte[a].ppn != s.pte[b].ppn)
    && (forall a :: a in s.pte ==> s.pte[a].ppn in s.phys && |s.phys[s.pte[a].ppn]| == WORDS)
  }

  /** The invariant holds where every run starts. */
  lemma LoadedInv(s: State, e: nat)
    requires Loaded(s, e)
    ensures Inv(s)
  {
    forall a | a in s.pte ensures PteOk(s, a) {
    }
  }
}
