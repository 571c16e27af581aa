/** pgfault, duppage and fork of the user library, as the sequences of system calls
    and copies that they are, with any steps of all environments in between; and the
    eager page copy of dumbfork. */
module ForkCode {
  import opened Cow
  import opened CowRefinement
  import opened ForkCopies

  /** How a call ends for the one who watches: it returned, it panicked, or the
      watching stopped before. */
  datatype Outcome = Returned | Panicked | Cut

  /** s is the state now; ss and run are how it came about. */
  class Family {
    var s: State
    ghost var ss: seq<State>
    ghost var run: seq<Action>

    ghost predicate Valid()
      reads this
    {
      Trace(ss, run) && s == ss[|run|] && Inv(s)
    }

    /** The state has just become that after one more action. */
    ghost method Record(was: State, a: Action)
      requires Trace(ss, run) && was == ss[|run|] && Inv(was) && Enabled(was, a) && s == Next(was, a)
      modifies this`ss, this`run
      ensures Valid() && run == old(run) + [a] && ss == old(ss) + [s]
    {
      StepKeeps(was, a);
      TraceOn(ss, run, a);
      ss, run := ss + [s], run + [a];
    }

    /** sys_page_alloc(e, v, perm), given a fresh page. */
    method SysPageAlloc(a: Slot, q: nat)
      modifies this`s
      ensures s == old(s).(pte := old(s).pte[a := Pte(q, true, false)], phys := old(s).phys[q := Zeros()])
    {
      s := s.(pte := s.pte[a := Pte(q, true, false)], phys := s.phys[q := Zeros()]);
    }

    /** sys_page_map(from, to, perm). */
    method SysPageMap(from: Slot, to: Slot, w: bool, cow: bool)
      requires from in s.pte
      modifies this`s
      ensures s == old(s).(pte := old(s).pte[to := Pte(old(s).pte[from].ppn, w, cow)])
    {
      s := s.(pte := s.pte[to := Pte(s.pte[from].ppn, w, cow)]);
    }

    /** sys_page_unmap(a). */
    method SysPageUnmap(a: Slot)
      modifies this`s
      ensures s == old(s).(pte := old(s).pte - {a})
    {
      s := s.(pte := s.pte - {a});
    }

    /** The user stores one word. */
    method StoreWord(a: Slot, k: nat, x: int)
      requires a in s.pte && s.pte[a].ppn in s.phys && k < |s.phys[s.pte[a].ppn]|
      modifies this`s
      ensures var q := old(s).pte[a].ppn;
              s == old(s).(phys := old(s).phys[q := old(s).phys[q][k := x]])
    {
      var q := s.pte[a].ppn;
      s := s.(phys := s.phys[q := s.phys[q][k := x]]);
    }

    /** memcpy of one page; the pages are different. */
    method CopyPage(from: Slot, to: Slot)
      requires from in s.pte && to in s.pte && s.pte[from].ppn != s.pte[to].ppn
      requires s.pte[from].ppn in s.phys && |s.phys[s.pte[from].ppn]| == WORDS
      requires s.pte[to].ppn in s.phys && |s.phys[s.pte[to].ppn]| == WORDS
      modifies this`s
      ensures s == old(s).(phys := old(s).phys[old(s).pte[to].ppn := old(s).phys[old(s).pte[from].ppn]])
    {
      var p, q := s.pte[from].ppn, s.pte[to].ppn;
      var k := 0;
      while k < WORDS
        invariant 0 <= k <= WORDS && s.pte == old(s).pte && s.envs == old(s).envs
        invariant q in s.phys && |s.phys[q]| == WORDS && s.phys[q][..k] == old(s).phys[p][..k]
        invariant s.phys == old(s).phys[q := s.phys[q]]
      {
        ghost var was := s.phys[q];
        StoreWord(to, k, s.phys[p][k]);
        assert s.phys[q][..k + 1] == was[..k] + [old(s).phys[p][k]];
        k := k + 1;
      }
      assert s.phys[q] == old(s).phys[p];
    }

    // ------------------------------------------------------------ everybody else

    /** What may happen while e itself is at none of its system calls. */
    static predicate Passes(a: Action, e: nat, handler: bool) {
      a.e != e || a.Write? ||
      (!handler && (a.TakeFault? || a.FaultAlloc? || a.FaultCopy? || a.FaultMap? || a.FaultUnmap?))
    }

    /** The history since, all of it steps that may happen in between. */
    ghost predicate Passed(ss0: seq<State>, run0: seq<Action>, e: nat, handler: bool)
      reads this
    {
      && run0 <= run && ss0 <= ss
      && forall i :: |run0| <= i < |run| ==> Passes(run[i], e, handler)
    }

    /** e where it was: inside the same fork call, or the same stage of its handler. */
    static ghost predicate SamePlace(s: State, s': State, e: nat, handler: bool) {
      && Runs(s, e) && Runs(s', e) && s'.envs[e].fork == s.envs[e].fork
      && (handler ==> s'.envs[e].fault == s.envs[e].fault)
    }

    static lemma PassKeeps(s: State, a: Action, e: nat, handler: bool)
      requires Inv(s) && Enabled(s, a) && Runs(s, e) && Passes(a, e, handler)
      ensures SamePlace(s, Next(s, a), e, handler)
    {
      assert a.e in s.envs ==> ForkOk(s, a.e);
    }

    /** Any number of steps of everybody. */
    method Others(e: nat, handler: bool)
      requires Valid() && Runs(s, e)
      modifies this
      ensures Valid() && Passed(old(ss), old(run), e, handler) && SamePlace(old(s), s, e, handler)
      ensures forall i :: |old(ss)| <= i < |ss| ==> SamePlace(old(s), ss[i], e, handler)
    {
      var n: int := *;
      while n > 0
        invariant Valid() && Passed(old(ss), old(run), e, handler) && SamePlace(old(s), s, e, handler)
        invariant forall i :: |old(ss)| <= i < |ss| ==> SamePlace(old(s), ss[i], e, handler)
      {
        n := n - 1;
        var a: Action := *;
        if Passes(a, e, handler) && Enabled(s, a) {
          ghost var was := s;
          PassKeeps(s, a, e, handler);
          s := Next(s, a);
          Record(was, a);
        }
      }
    }

    // ------------------------------------------------------------------ pgfault

    /** Everything since the fault of e on page v. */
    ghost predicate InHandler(e: nat, v: nat, s0: State)
      reads this
    {
      && Valid() && run != [] && ss[0] == s0 && run[0] == TakeFault(e, v) && Runs(s, e)
      && (forall i :: 1 <= i < |run| ==> run[i] != Exit(e))
      && (forall i :: 1 <= i < |ss| ==> e in ss[i].envs && ss[i].envs[e].fault != NoFault)
    }

    method HandlerOthers(e: nat, v: nat, ghost s0: State)
      requires InHandler(e, v, s0)
      modifies this
      ensures InHandler(e, v, s0) && s.envs[e].fault == old(s.envs[e].fault)
    {
      assert s.envs[e].fault != NoFault;
      Others(e, true);
    }

    /** A system call or a copied word of the handler. */
    ghost method HandlerRecord(e: nat, v: nat, s0: State, was: State, a: Action)
      requires Trace(ss, run) && was == ss[|run|] && Inv(was) && Enabled(was, a) && s == Next(was, a)
      requires run != [] && ss[0] == s0 && run[0] == TakeFault(e, v) && Runs(s, e) && a != Exit(e)
      requires forall i :: 1 <= i < |run| ==> run[i] != Exit(e)
      requires forall i :: 1 <= i < |ss| ==> e in ss[i].envs && ss[i].envs[e].fault != NoFault
      requires s.envs[e].fault != NoFault
      modifies this`ss, this`run
      ensures InHandler(e, v, s0)
    {
      Record(was, a);
    }

    /** sys_page_alloc at PFTEMP: the allocator gives page q, or fails if that is in
        use. */
    method AllocTemp(e: nat, v: nat, q: nat, ghost s0: State) returns (ok: bool)
      requires InHandler(e, v, s0) && s.envs[e].fault == Entered(v)
      modifies this
      ensures ok ==> InHandler(e, v, s0) && s.envs[e].fault == Copying(v, 0)
      ensures !ok ==> Valid() && s == old(s)
      ensures ok <==> Fresh(old(s), q)
    {
      if !Fresh(s, q) {
        return false;
      }
      ghost var was := s;
      SysPageAlloc(Slot(e, PFTEMP_VPN), q);
      s := WithFault(s, e, Copying(v, 0));
      assert s == Next(was, FaultAlloc(e, q));
      HandlerRecord(e, v, s0, was, FaultAlloc(e, q));
      return true;
    }

    /** One word of memcpy. */
    method CopyWord(e: nat, v: nat, k: nat, ghost s0: State)
      requires InHandler(e, v, s0) && s.envs[e].fault == Copying(v, k) && k < WORDS
      modifies this
      ensures InHandler(e, v, s0) && s.envs[e].fault == Copying(v, k + 1)
    {
      ghost var was := s;
      assert FaultOk(s, e);
      StoreWord(Slot(e, PFTEMP_VPN), k, s.phys[s.pte[Slot(e, v)].ppn][k]);
      s := WithFault(s, e, Copying(v, k + 1));
      assert s == Next(was, FaultCopy(e));
      HandlerRecord(e, v, s0, was, FaultCopy(e));
    }

    method MoveTemp(e: nat, v: nat, ghost s0: State)
      requires InHandler(e, v, s0) && s.envs[e].fault == Copying(v, WORDS)
      modifies this
      ensures InHandler(e, v, s0) && s.envs[e].fault == Remapped(v)
    {
      ghost var was := s;
      assert FaultOk(s, e);
      SysPageMap(Slot(e, PFTEMP_VPN), Slot(e, v), true, false);
      s := WithFault(s, e, Remapped(v));
      assert s == Next(was, FaultMap(e));
      HandlerRecord(e, v, s0, was, FaultMap(e));
    }

    method DropTemp(e: nat, v: nat, ghost s0: State)
      requires InHandler(e, v, s0) && s.envs[e].fault == Remapped(v)
      modifies this
      ensures Valid() && Handled(s, e, v) && KeepsMappings(s0, s, e, v) && SeesSame(s0, s, e)
    {
      ghost var was := s;
      SysPageUnmap(Slot(e, PFTEMP_VPN));
      s := WithFault(s, e, NoFault);
      assert s == Next(was, FaultUnmap(e));
      Record(was, FaultUnmap(e));
      FaultHidden(ss, run, e, v, |run|);
    }

    /** pgfault for an access to page v, up to the return to the interrupted code.  It
        panics on anything but a write to a copy-on-write page, and when no page can
        be had.  Otherwise, whatever everybody else does meanwhile, page v alone is
        remapped, writable, and e sees in all its pages what it saw before. */
    method Pgfault(e: nat, v: nat, write: bool, q: nat) returns (r: Outcome)
      requires Valid() && Normal(s, e)
      modifies this
      ensures Valid()
      ensures !write || !Mapped(old(s), e, v) || !old(s).pte[Slot(e, v)].cow ==> r == Panicked && s == old(s)
      ensures r != Cut
      ensures r == Panicked ==>
                !write || !Mapped(old(s), e, v) || !old(s).pte[Slot(e, v)].cow || !Fresh(s, q)
      ensures r == Returned ==> Handled(s, e, v) && KeepsMappings(old(s), s, e, v) && SeesSame(old(s), s, e)
    {
      if !write || Slot(e, v) !in s.pte || !s.pte[Slot(e, v)].cow {
        return Panicked;
      }
      ghost var s0 := s;
      EnterHandler(e, v);
      HandlerOthers(e, v, s0);
      var ok := AllocTemp(e, v, q, s0);
      if !ok {
        return Panicked;
      }
      var k := 0;
      while k < WORDS
        invariant 0 <= k <= WORDS && InHandler(e, v, s0) && s.envs[e].fault == Copying(v, k)
      {
        HandlerOthers(e, v, s0);
        CopyWord(e, v, k, s0);
        k := k + 1;
      }
      HandlerOthers(e, v, s0);
      MoveTemp(e, v, s0);
      HandlerOthers(e, v, s0);
      DropTemp(e, v, s0);
      return Returned;
    }

    /** The fault itself; the history starts here. */
    method EnterHandler(e: nat, v: nat)
      requires Valid() && Normal(s, e) && Mapped(s, e, v) && s.pte[Slot(e, v)].cow
      modifies this
      ensures InHandler(e, v, old(s)) && s.envs[e].fault == Entered(v)
    {
      ghost var was := s;
      assert PteOk(s, Slot(e, v));
      ss, run := [s], [];
      s := WithFault(s, e, Entered(v));
      Record(was, TakeFault(e, v));
    }

    // --------------------------------------------------------------------- fork

    /** e is in the fork call that began with the history, and not in a handler. */
    ghost predicate Forking(e: nat, c: nat, f: Fork, s0: State)
      reads this
    {
      && Valid() && ForkCall(ss, run, e, c) && ss[0] == s0
      && Normal(s, e) && s.envs[e].fork == f && f != NoFork && f.child == c
    }

    /** A system call of the parent. */
    ghost method ForkRecord(e: nat, c: nat, f: Fork, s0: State, was: State, a: Action)
      requires Trace(ss, run) && was == ss[|run|] && Inv(was) && Enabled(was, a) && s == Next(was, a)
      requires ForkCall(ss, run, e, c) && ss[0] == s0 && GoesOn(a, e)
      requires Normal(s, e) && s.envs[e].fork == f && f != NoFork && f.child == c
      modifies this`ss, this`run
      ensures Forking(e, c, f, s0)
    {
      Record(was, a);
    }

    /** Anything but a system call of the parent; ok if it is not left inside its
        page-fault handler. */
    method ForkOthers(e: nat, c: nat, ghost f: Fork, ghost s0: State) returns (ok: bool)
      requires Forking(e, c, f, s0)
      modifies this
      ensures ok ==> Forking(e, c, f, s0)
      ensures !ok ==> Valid() && Runs(s, e) && s.envs[e].fault != NoFault
    {
      Others(e, false);
      ok := s.envs[e].fault == NoFault;
    }

    /** sys_exofork; the history starts here. */
    method Begin(e: nat, c: nat)
      requires Valid() && Enabled(s, ForkBegin(e, c))
      modifies this
      ensures Forking(e, c, Scan(c, 0), old(s))
    {
      ghost var was := s;
      ss, run := [s], [];
      s := WithFork(s.(envs := s.envs[c := Prog(e, false, NoFault, NoFork)]), e, Scan(c, 0));
      assert s == Next(was, ForkBegin(e, c));
      Record(was, ForkBegin(e, c));
    }

    /** The test of uvpt[v], and the bits that duppage reads in it. */
    method TestPage(e: nat, c: nat, v: nat, ghost s0: State) returns (present: bool, cow: bool)
      requires Forking(e, c, Scan(c, v), s0) && v < USTACK_VPN
      modifies this
      ensures Forking(e, c, if present then Dup(c, v, cow) else Scan(c, v + 1), s0)
    {
      ghost var was := s;
      present := Slot(e, v) in s.pte;
      cow := present && Shares(s.pte[Slot(e, v)]);
      s := WithFork(s, e, if present then Dup(c, v, cow) else Scan(c, v + 1));
      assert s == Next(was, ForkScan(e));
      ForkRecord(e, c, if present then Dup(c, v, cow) else Scan(c, v + 1), s0, was, ForkScan(e));
    }

    method MapIntoChild(e: nat, c: nat, v: nat, cow: bool, ghost s0: State)
      requires Forking(e, c, Dup(c, v, cow), s0)
      modifies this
      ensures Forking(e, c, if cow then Remap(c, v) else Scan(c, v + 1), s0)
    {
      ghost var was := s;
      assert ForkOk(s, e);
      SysPageMap(Slot(e, v), Slot(c, v), false, cow);
      s := WithFork(s, e, if cow then Remap(c, v) else Scan(c, v + 1));
      assert s == Next(was, ForkMapChild(e));
      ForkRecord(e, c, if cow then Remap(c, v) else Scan(c, v + 1), s0, was, ForkMapChild(e));
    }

    method MapOverSelf(e: nat, c: nat, v: nat, ghost s0: State)
      requires Forking(e, c, Remap(c, v), s0)
      modifies this
      ensures Forking(e, c, Scan(c, v + 1), s0)
    {
      ghost var was := s;
      assert ForkOk(s, e);
      SysPageMap(Slot(e, v), Slot(e, v), false, true);
      s := WithFork(s, e, Scan(c, v + 1));
      assert s == Next(was, ForkMapSelf(e));
      ForkRecord(e, c, Scan(c, v + 1), s0, was, ForkMapSelf(e));
    }

    /** duppage of page v, the bits of uvpt[v] being in cow. */
    method Duppage(e: nat, c: nat, v: nat, cow: bool, ghost s0: State) returns (r: Outcome)
      requires Forking(e, c, Dup(c, v, cow), s0) && UserPage(v)
      modifies this
      ensures Valid() && r != Panicked
      ensures r == Cut ==> Runs(s, e) && s.envs[e].fault != NoFault
      ensures r == Returned ==> Forking(e, c, Scan(c, v + 1), s0)
      ensures r == Returned ==> exists j :: CopyOfState(ss, e, c, v, Abs(s).mem, j)
    {
      var ok := ForkOthers(e, c, Dup(c, v, cow), s0);
      if !ok {
        return Cut;
      }
      MapIntoChild(e, c, v, cow, s0);
      if cow {
        ok := ForkOthers(e, c, Remap(c, v), s0);
        if !ok {
          return Cut;
        }
        MapOverSelf(e, c, v, s0);
      }
      ghost var j := CopiedInTurn(ss, run, e, c, v, |run|);
      return Returned;
    }

    /** The child's exception stack, page q; panics if that is in use. */
    method MakeStack(e: nat, c: nat, q: nat, ghost s0: State) returns (r: Outcome)
      requires Forking(e, c, Scan(c, USTACK_VPN), s0)
      modifies this
      ensures Valid() && r != Cut
      ensures r == Returned ==> Forking(e, c, Ready(c), s0)
      ensures r == Panicked ==> !Fresh(s, q)
    {
      if !Fresh(s, q) {
        return Panicked;
      }
      ghost var was := s;
      SysPageAlloc(Slot(c, UX_VPN), q);
      s := WithFork(s, e, Ready(c));
      assert s == Next(was, ForkStack(e, q));
      ForkRecord(e, c, Ready(c), s0, was, ForkStack(e, q));
      return Returned;
    }

    /** sys_env_set_status(child, ENV_RUNNABLE). */
    method Start(e: nat, c: nat, ghost s0: State)
      requires Forking(e, c, Ready(c), s0)
      modifies this
      ensures Valid() && ss[0] == s0 && Runs(s, c) && Normal(s, e) && s.envs[e].fork == NoFork
      ensures HasStack(s, c) && OnlyCopies(s, c)
      ensures forall v: nat :: UserPage(v) ==> exists j :: CopyOfState(ss, e, c, v, Abs(s).mem, j)
      ensures forall v: nat :: UserPage(v) && Unwritten(run, e, v) ==>
                SameImage(Abs(s).mem, Slot(c, v), Abs(s0).mem, Slot(e, v))
    {
      ghost var was := s;
      assert ForkOk(s, e);
      s := WithFork(s.(envs := s.envs[c := s.envs[c].(runnable := true)]), e, NoFork);
      assert s == Next(was, ForkStart(e));
      StartCopies(e, c, was);
      ChildGetsStack(ss, run, e, c);
      ghost var ss1, run1 := ss, run;
      Record(was, ForkStart(e));
      forall v: nat | UserPage(v) ensures exists j :: CopyOfState(ss, e, c, v, Abs(s).mem, j) {
        var j :| CopyOfState(ss1, e, c, v, Abs(s).mem, j);
        assert CopyOfState(ss, e, c, v, Abs(s).mem, j);
      }
      forall v: nat | UserPage(v) && Unwritten(run, e, v)
        ensures SameImage(Abs(s).mem, Slot(c, v), Abs(s0).mem, Slot(e, v))
      {
        assert forall i :: 0 <= i < |run1| ==> run1[i] == run[i];
        assert Unwritten(run1, e, v);
      }
    }

    lemma StartCopies(e: nat, c: nat, was: State)
      requires ForkCall(ss, run, e, c) && was == ss[|run|] && Inv(was) && Enabled(was, ForkStart(e))
      ensures forall v: nat :: UserPage(v) ==>
                exists j :: CopyOfState(ss, e, c, v, Abs(Next(was, ForkStart(e))).mem, j)
      ensures forall v: nat :: UserPage(v) && Unwritten(run, e, v) ==>
                SameImage(Abs(Next(was, ForkStart(e))).mem, Slot(c, v), Abs(ss[0]).mem, Slot(e, v))
    {
      ForkCopiesEveryPage(ss, run, e, c);
      forall v: nat | UserPage(v) && Unwritten(run, e, v)
        ensures SameImage(Abs(Next(was, ForkStart(e))).mem, Slot(c, v), Abs(ss[0]).mem, Slot(e, v))
      {
        ForkIsSnapshot(ss, run, e, c, v);
      }
    }

    /** One turn of the loop. */
    method OnePage(e: nat, c: nat, v: nat, ghost s0: State) returns (r: Outcome)
      requires Forking(e, c, Scan(c, v), s0) && v < USTACK_VPN
      modifies this
      ensures Valid() && r != Panicked
      ensures r == Cut ==> Runs(s, e) && s.envs[e].fault != NoFault
      ensures r == Returned ==> Forking(e, c, Scan(c, v + 1), s0)
    {
      var ok := ForkOthers(e, c, Scan(c, v), s0);
      if !ok {
        return Cut;
      }
      var present, cow := TestPage(e, c, v, s0);
      r := Returned;
      if present {
        assert ForkOk(s, e);
        r := Duppage(e, c, v, cow, s0);
      }
    }

    /** fork, in the parent: c is the child sys_exofork makes.  Whatever the parent's
        own stores and faults and everybody else do between its system calls, when it
        returns the child runs and has every page: each as the parent saw it at one
        moment of the page's own turn.  Cut is a call observed only up to a moment at
        which the parent is in its page-fault handler; q is the page the allocator has
        for the child's exception stack. */
    method Fork(e: nat, c: nat, q: nat) returns (r: Outcome)
      requires Valid() && Enabled(s, ForkBegin(e, c))
      modifies this
      ensures Valid()
      ensures r == Cut ==> Runs(s, e) && s.envs[e].fault != NoFault
      ensures r == Panicked ==> !Fresh(s, q)
      ensures r == Returned ==> ss[0] == old(s) && Runs(s, c) && Normal(s, e) && s.envs[e].fork == NoFork
      ensures r == Returned ==> HasStack(s, c) && OnlyCopies(s, c)
      ensures r == Returned ==> forall v: nat :: UserPage(v) ==> exists j :: CopyOfState(ss, e, c, v, Abs(s).mem, j)
      ensures r == Returned ==>
                forall v: nat :: UserPage(v) && Unwritten(run, e, v) ==>
                  SameImage(Abs(s).mem, Slot(c, v), Abs(old(s)).mem, Slot(e, v))
    {
      ghost var s0 := s;
      Begin(e, c);
      var v := 0;
      r := Returned;
      while v < USTACK_VPN
        invariant 0 <= v <= USTACK_VPN && Forking(e, c, Scan(c, v), s0)
      {
        r := OnePage(e, c, v, s0);
        if r != Returned {
          return r;
        }
        v := v + 1;
      }
      r := MakeStack(e, c, q, s0);
      if r == Returned {
        var ok := ForkOthers(e, c, Ready(c), s0);
        if !ok {
          return Cut;
        }
        Start(e, c, s0);
      }
    }

    // ----------------------------------------------------------------- dumbfork

    /** duppage of dumbfork: the child gets a page of its own with the parent's words
        in it, and nothing else changes. */
    method DumbDuppage(e: nat, c: nat, v: nat, q: nat)
      requires c != e && Slot(e, v) in s.pte && v != UTEMP_VPN && !Mapped(s, e, UTEMP_VPN) && Fresh(s, q)
      requires s.pte[Slot(e, v)].ppn in s.phys && |s.phys[s.pte[Slot(e, v)].ppn]| == WORDS
      modifies this`s
      ensures s == old(s).(pte := old(s).pte[Slot(c, v) := Pte(q, true, false)],
                           phys := old(s).phys[q := old(s).phys[old(s).pte[Slot(e, v)].ppn]])
    {
      var tmp := Slot(e, UTEMP_VPN);
      SysPageAlloc(Slot(c, v), q);
      SysPageMap(Slot(c, v), tmp, true, false);
      CopyPage(Slot(e, v), tmp);
      SysPageUnmap(tmp);
      assert s.pte == old(s).pte[Slot(c, v) := Pte(q, true, false)];
    }

    method DumbTurn(e: nat, c: nat, v: nat, q: nat, ghost s0: State, ghost pages: set<nat>)
      requires DumbGoing(s0, s, e, c, pages, q) && v !in pages && v != UTEMP_VPN && HasPage(s0, Slot(e, v))
      modifies this`s
      ensures DumbGoing(s0, s, e, c, pages + {v}, q + 1)
    {
      ghost var was := s;
      DumbReady(s0, s, e, c, pages, v, q);
      DumbDuppage(e, c, v, q);
      DumbStep(s0, was, s, e, c, pages, v, q);
    }

    /** The copying part of dumbfork, undisturbed: the pages from UTEXT to the end of
        the program and the page of the stack, all of them mapped.  The allocator has
        the pages from q on. */
    method Dumbfork(e: nat, c: nat, lo: nat, hi: nat, stack: nat, q: nat)
      requires UTEMP_VPN < lo <= hi <= stack && DumbStarts(s, e, c, q)
      requires HasPages(s, e, lo, hi) && HasPage(s, Slot(e, stack))
      modifies this`s
      ensures DumbGoing(old(s), s, e, c, Pages(lo, hi) + {stack}, q + (hi - lo) + 1)
    {
      ghost var s0 := s;
      DumbFirst(s, e, c, q);
      var v := lo;
      while v < hi
        invariant lo <= v <= hi && DumbGoing(s0, s, e, c, Pages(lo, v), q + (v - lo))
      {
        DumbTurn(e, c, v, q + (v - lo), s0, Pages(lo, v));
        assert Pages(lo, v + 1) == Pages(lo, v) + {v};
        v := v + 1;
      }
      DumbTurn(e, c, stack, q + (hi - lo), s0, Pages(lo, hi));
    }
  }

  function Pages(lo: nat, hi: nat): (r: set<nat>)
    requires lo <= hi
    ensures forall v :: v in r <==> lo <= v < hi
  {
    if lo == hi then {} else Pages(lo, hi - 1) + {hi - 1}
  }

  predicate HasPage(s: State, a: Slot) {
    a in s.pte && s.pte[a].ppn in s.phys && |s.phys[s.pte[a].ppn]| == WORDS
  }

  predicate HasPages(s: State, e: nat, lo: nat, hi: nat) {
    forall v :: lo <= v < hi ==> HasPage(s, Slot(e, v))
  }

  /** Child c has, of these pages of e, copies that it can write and nobody else maps;
      and nothing else is new or different. */
  ghost predicate DumbCopied(s0: State, s: State, e: nat, c: nat, pages: set<nat>) {
    && s.envs == s0.envs
    && (forall a: Slot :: a in s.pte <==> a in s0.pte || (a.env == c && a.vpn in pages))
    && (forall a: Slot :: a in s0.pte && a.env != c ==>
          s.pte[a] == s0.pte[a] && (HasPage(s0, a) ==> HasPage(s, a) && s.phys[s.pte[a].ppn] == s0.phys[s0.pte[a].ppn]))
    && (forall v: nat :: v in pages ==> DumbPage(s0, s, e, c, v))
  }

  ghost predicate DumbPage(s0: State, s: State, e: nat, c: nat, v: nat) {
    && HasPage(s, Slot(c, v)) && HasPage(s0, Slot(e, v)) && s.pte[Slot(c, v)].w
    && s.phys[s.pte[Slot(c, v)].ppn] == s0.phys[s0.pte[Slot(e, v)].ppn]
    && forall a :: a in s.pte && a != Slot(c, v) ==> s.pte[a].ppn != s.pte[Slot(c, v)].ppn
  }

  ghost predicate FreshFrom(s: State, q: nat) {
    forall p: nat :: p >= q ==> Fresh(s, p)
  }

  /** A child that has nothing yet, and the pages from q on free. */
  ghost predicate DumbStarts(s: State, e: nat, c: nat, q: nat) {
    c != e && !Mapped(s, e, UTEMP_VPN) && (forall a: Slot :: a in s.pte ==> a.env != c) && FreshFrom(s, q)
  }

  /** The copies so far, and the pages from q on free. */
  ghost predicate DumbGoing(s0: State, s: State, e: nat, c: nat, pages: set<nat>, q: nat) {
    && DumbCopied(s0, s, e, c, pages) && c != e && !Mapped(s0, e, UTEMP_VPN)
    && (forall a: Slot :: a in s0.pte ==> a.env != c) && FreshFrom(s, q)
  }

  lemma DumbFirst(s: State, e: nat, c: nat, q: nat)
    requires DumbStarts(s, e, c, q)
    ensures DumbGoing(s, s, e, c, {}, q)
  {
  }

  lemma DumbReady(s0: State, s: State, e: nat, c: nat, pages: set<nat>, v: nat, q: nat)
    requires DumbGoing(s0, s, e, c, pages, q) && HasPage(s0, Slot(e, v))
    ensures HasPage(s, Slot(e, v)) && !Mapped(s, e, UTEMP_VPN) && Fresh(s, q)
  {
  }

  /** One page more. */
  lemma DumbStep(s0: State, s: State, s': State, e: nat, c: nat, pages: set<nat>, v: nat, q: nat)
    requires DumbGoing(s0, s, e, c, pages, q) && v !in pages && HasPage(s0, Slot(e, v)) && HasPage(s, Slot(e, v))
    requires s' == s.(pte := s.pte[Slot(c, v) := Pte(q, true, false)],
                      phys := s.phys[q := s.phys[s.pte[Slot(e, v)].ppn]])
    ensures DumbGoing(s0, s', e, c, pages + {v}, q + 1)
  {
    assert Fresh(s, q);
    forall u | u in pages + {v} ensures DumbPage(s0, s', e, c, u) {
      if u != v {
        assert DumbPage(s0, s, e, c, u);
      }
    }
    forall p: nat | p >= q + 1 ensures Fresh(s', p) {
      assert Fresh(s, p);
    }
  }

  const UTEMP_VPN := 1024    // UTEMP / PGSIZE

  /** The eager duppage is the Copy event of the eager machine, but for the write
      permission it always gives. */
  lemma DumbCopyIsEager(s: State, s': State, e: nat, c: nat, v: nat, q: nat)
    requires Inv(s) && Runs(s, e) && c in s.envs && c != e && UserPage(v) && Mapped(s, e, v) && Fresh(s, q)
    requires s' == s.(pte := s.pte[Slot(c, v) := Pte(q, true, false)],
                      phys := s.phys[q := s.phys[s.pte[Slot(e, v)].ppn]])
    requires forall f :: f in s.envs ==> Quiet(s.envs[f].fork)
    ensures Slot(e, v) in Abs(s).mem
    ensures Abs(s').mem == Abs(s).mem[Slot(c, v) := Image(Abs(s).mem[Slot(e, v)].content, true)]
  {
    var d := Slot(c, v);
    forall b ensures !Shared(s, b) && !Shared(s', b) {
    }
    forall b | b in s.pte ensures PteOk(s, b) {
    }
    OnePageShows(s, s', d, Image(s.phys[s.pte[Slot(e, v)].ppn], true));
    AbsMem(s);
  }

  lemma OnePageShows(s: State, s': State, d: Slot, i: Image)
    requires Visible(s', d) && ImageOf(s', d) == i
    requires forall b :: b != d ==> (Visible(s', b) <==> Visible(s, b))
    requires forall b :: b != d && Visible(s, b) && Visible(s', b) ==> ImageOf(s', b) == ImageOf(s, b)
    ensures Abs(s').mem == Abs(s).mem[d := i]
  {
  }
}
