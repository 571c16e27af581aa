/** Interprocess messages over whole runs: each successful send is read exactly
    once, in order, and a failed one leaves no trace. */
module Messages {
  import opened Layout
  import opened EnvIds
  import opened Kernel
  import opened KernelSafety

  /** Everything of an environment that sending and receiving is about. */
  predicate SameMail(e: Env, f: Env) {
    && f.id == e.id && f.recving == e.recving && f.dstva == e.dstva && f.value == e.value && f.from == e.from
    && f.allocs == e.allocs && f.sent == e.sent && f.got == e.got && f.inRecv == e.inRecv
  }

  lemma SwitchMail(k: State, c: nat, j: nat, i: nat)
    requires Here(k, c) && j < NENV && i < NENV
    ensures SameMail(k.envs[i], SwitchTo(k, c, j).envs[i])
  {
  }

  lemma RunMail(k: State, c: nat, j: nat, i: nat)
    requires Here(k, c) && j < NENV && i < NENV
    ensures SameMail(k.envs[i], EnvRun(k, c, j).envs[i])
  {
    SwitchMail(k, c, j, i);
    var s := SwitchTo(k, c, j);
    assert Unlock(s, c).envs == s.envs;
    assert SameMail(s.envs[i], EnvRun(k, c, j).envs[i]);
  }

  lemma YieldMail(k: State, c: nat, i: nat)
    requires Here(k, c) && i < NENV
    ensures SameMail(k.envs[i], SchedYield(k, c).envs[i])
  {
    var p := Pick(k.envs, ScanStart(k, c), NENV);
    if p.To? {
      RunMail(k, c, p.at, i);
    } else if CurRunning(k, c) {
      RunMail(k, c, k.cpus[c].cur.at, i);
    }
  }

  lemma DestroyMail(k: State, c: nat, j: nat, i: nat)
    requires Here(k, c) && j < NENV && i < NENV
    ensures SameMail(k.envs[i], EnvDestroy(k, c, j).envs[i])
  {
    if k.cpus[c].cur == To(j) {
      YieldMail(NoCur(EnvFree(k, c, j), c), c, i);
    }
  }

  lemma FinishMail(k: State, c: nat, i: nat)
    requires Here(k, c) && i < NENV
    ensures SameMail(k.envs[i], Finish(k, c).envs[i])
  {
    if Returned(k, c) {
      if CurRunning(k, c) {
        RunMail(k, c, k.cpus[c].cur.at, i);
      } else {
        YieldMail(k, c, i);
      }
    }
  }

  /** The message that step a puts into the mailbox of slot i: a send that names it
      and returns 0. */
  function Delivered(k: State, a: Action, i: nat): seq<Msg>
    requires Enabled(k, a)
  {
    match a
    case DoWork(c, TrySend(envid, value, srcva, permOk, permW, page)) =>
      if Trapped(k, c) && Envid2Env(k, c, envid, false) == Found(i) &&
         SysIpcTrySend(k, c, envid, value, srcva, permOk, permW, page).1 == 0
      then [Msg(k.envs[k.cpus[c].cur.at].id, value)] else []
    case _ => []
  }

  /** The message that ipc_recv of slot i returns in step a. */
  function Read(k: State, a: Action, i: nat): seq<Msg>
    requires Enabled(k, a) && i < NENV
  {
    match a
    case DoRead(c) => if k.cpus[c].cur == To(i) then [Msg(k.envs[i].from, k.envs[i].value)] else []
    case _ => []
  }

  predicate CallsRecv(k: State, a: Action, i: nat)
    requires Enabled(k, a)
  {
    a.DoWork? && a.op.Recv? && k.cpus[a.c].cur == To(i)
  }

  /** What one step does to slot i. */
  predicate MailMoves(k: State, a: Action, i: nat)
    requires Enabled(k, a) && i < NENV
  {
    var e, f := k.envs[i], Next(k, a).envs[i];
    if f.allocs != e.allocs then
      f.allocs == e.allocs + 1 && f.sent == f.got == [] && !f.recving && !f.inRecv
    else
      && f.sent == e.sent + Delivered(k, a, i) && f.got == e.got + Read(k, a, i)
      && (Delivered(k, a, i) != [] ==> e.recving && !f.recving)
      && (!e.recving && !CallsRecv(k, a, i) ==> !f.recving)
      && (!e.recving ==> f.value == e.value && f.from == e.from)
  }

  lemma WorkIsDispatch(k: State, c: nat, op: Op, i: nat)
    requires Trapped(k, c) && i < NENV
    ensures SameMail(Dispatch(k, c, op).envs[i], Work(k, c, op).envs[i])
  {
    FinishMail(Dispatch(k, c, op), c, i);
  }

  lemma SendMail(k: State, c: nat, op: Op, i: nat)
    requires Inv(k) && Enabled(k, DoWork(c, op)) && Trapped(k, c) && op.TrySend? && i < NENV
    ensures MailMoves(k, DoWork(c, op), i)
  {
    WorkIsDispatch(k, c, op, i);
    SendDelivers(k, c, op, i);
  }

  lemma SendDelivers(k: State, c: nat, op: Op, i: nat)
    requires Here(k, c) && Trapped(k, c) && op.TrySend? && i < NENV && Enabled(k, DoWork(c, op))
    ensures var e, f := k.envs[i], Dispatch(k, c, op).envs[i];
            && f.allocs == e.allocs && f.sent == e.sent + Delivered(k, DoWork(c, op), i) && f.got == e.got
            && (Delivered(k, DoWork(c, op), i) != [] ==> e.recving)
            && (if Delivered(k, DoWork(c, op), i) == [] then SameMail(e, f) else !f.recving)
  {
    var x := SysIpcTrySend(k, c, op.envid, op.value, op.srcva, op.permOk, op.permW, op.page);
    assert Dispatch(k, c, op) == SetEax(x.0, k.cpus[c].cur.at, x.1);
    SendStores(k, c, op, i);
    assert SameMail(x.0.envs[i], Dispatch(k, c, op).envs[i]);
  }

  lemma SendStores(k: State, c: nat, op: Op, i: nat)
    requires Here(k, c) && k.cpus[c].cur.To? && op.TrySend? && i < NENV
    ensures var x := SysIpcTrySend(k, c, op.envid, op.value, op.srcva, op.permOk, op.permW, op.page);
            var e, f := k.envs[i], x.0.envs[i];
            if Envid2Env(k, c, op.envid, false) == Found(i) && x.1 == 0 then
              && e.recving && !f.recving && f.allocs == e.allocs && f.got == e.got
              && f.sent == e.sent + [Msg(k.envs[k.cpus[c].cur.at].id, op.value)]
            else f == e
  {
  }

  lemma RecvMail(k: State, c: nat, op: Op, i: nat)
    requires Inv(k) && Enabled(k, DoWork(c, op)) && Trapped(k, c) && op.Recv? && i < NENV
    ensures MailMoves(k, DoWork(c, op), i)
  {
    WorkIsDispatch(k, c, op, i);
    RecvCalls(k, c, op.dstva, i);
  }

  lemma RecvCalls(k: State, c: nat, dstva: nat, i: nat)
    requires Trapped(k, c) && i < NENV
    ensures var e, f := k.envs[i], Dispatch(k, c, Recv(dstva)).envs[i];
            && f.allocs == e.allocs && f.sent == e.sent && f.got == e.got && f.value == e.value && f.from == e.from
            && (k.cpus[c].cur != To(i) ==> f.recving == e.recving)
  {
    var x := SysIpcRecv(k, c, dstva);
    RecvSleeps(k, c, dstva, i);
    assert Dispatch(k, c, Recv(dstva)) == Return(x, c, k.cpus[c].cur.at);
  }

  lemma RecvSleeps(k: State, c: nat, dstva: nat, i: nat)
    requires Here(k, c) && k.cpus[c].cur.To? && i < NENV
    ensures var e, f := k.envs[i], SysIpcRecv(k, c, dstva).0.envs[i];
            && f.allocs == e.allocs && f.sent == e.sent && f.got == e.got && f.value == e.value && f.from == e.from
            && (k.cpus[c].cur != To(i) ==> f.recving == e.recving)
  {
    var j := k.cpus[c].cur.at;
    YieldMail(Asleep(k, c, dstva), c, i);
  }

  lemma ForkMail(k: State, c: nat, op: Op, i: nat)
    requires Inv(k) && Enabled(k, DoWork(c, op)) && Trapped(k, c) && op.Exofork? && i < NENV
    ensures MailMoves(k, DoWork(c, op), i)
  {
    WorkIsDispatch(k, c, op, i);
    ForkDispatch(k, c, op, i);
  }

  lemma ForkDispatch(k: State, c: nat, op: Op, i: nat)
    requires Here(k, c) && Trapped(k, c) && op.Exofork? && i < NENV
    ensures var e, f := k.envs[i], Dispatch(k, c, op).envs[i];
            SameMail(e, f) ||
            (f.allocs == e.allocs + 1 && f.sent == f.got == [] && !f.recving && !f.inRecv)
  {
    var x := SysExofork(k, c, op.pgdir);
    assert Dispatch(k, c, op) == SetEax(x.0, k.cpus[c].cur.at, x.1);
  }

  lemma OtherMail(k: State, c: nat, op: Op, i: nat)
    requires Here(k, c) && Trapped(k, c) && i < NENV
    requires !op.TrySend? && !op.Recv? && !op.Exofork?
    ensures SameMail(k.envs[i], Work(k, c, op).envs[i])
  {
    WorkIsDispatch(k, c, op, i);
    OtherDispatchMail(k, c, op, i);
  }

  lemma OtherDispatchMail(k: State, c: nat, op: Op, i: nat)
    requires Here(k, c) && Trapped(k, c) && i < NENV
    requires !op.TrySend? && !op.Recv? && !op.Exofork?
    ensures SameMail(k.envs[i], Dispatch(k, c, op).envs[i])
  {
    match op
    case Yield => YieldMail(k, c, i);
    case Fault => DestroyMail(k, c, k.cpus[c].cur.at, i);
    case Destroy(envid) => DestroyDispatchMail(k, c, envid, i);
    case SetStatus(envid, status) => StatusMail(k, c, envid, status, i);
    case Resume(eax) =>
  }

  lemma StatusMail(k: State, c: nat, envid: nat, status: Status, i: nat)
    requires Here(k, c) && Trapped(k, c) && i < NENV
    ensures SameMail(k.envs[i], Dispatch(k, c, SetStatus(envid, status)).envs[i])
  {
    var x := SysEnvSetStatus(k, c, envid, status);
    StoresStatus(k, c, envid, status, i);
    assert Dispatch(k, c, SetStatus(envid, status)) == SetEax(x.0, k.cpus[c].cur.at, x.1);
  }

  lemma StoresStatus(k: State, c: nat, envid: nat, status: Status, i: nat)
    requires Here(k, c) && k.cpus[c].cur.To? && i < NENV
    ensures SameMail(k.envs[i], SysEnvSetStatus(k, c, envid, status).0.envs[i])
    ensures SysEnvSetStatus(k, c, envid, status).0.cpus == k.cpus
  {
  }

  lemma DestroyDispatchMail(k: State, c: nat, envid: nat, i: nat)
    requires Here(k, c) && Trapped(k, c) && i < NENV
    ensures SameMail(k.envs[i], Dispatch(k, c, Destroy(envid)).envs[i])
  {
    var l := Envid2Env(k, c, envid, true);
    if l.Found? {
      DestroyMail(k, c, l.i, i);
      assert Dispatch(k, c, Destroy(envid)) == Return((EnvDestroy(k, c, l.i), 0), c, k.cpus[c].cur.at);
    }
  }

  /** Without a trap from user code, or with a dying environment, no mail moves. */
  lemma IdleMail(k: State, c: nat, op: Op, i: nat)
    requires Inv(k) && c < |k.cpus| && k.cpus[c].mode.InKernel? && !Trapped(k, c) && i < NENV
    ensures SameMail(k.envs[i], Work(k, c, op).envs[i])
  {
    assert CpuOk(k, c);
    if !k.cpus[c].mode.user {
      YieldMail(k, c, i);
    } else {
      YieldMail(NoCur(EnvFree(k, c, k.cpus[c].cur.at), c), c, i);
    }
  }

  lemma SameMailMoves(k: State, a: Action, i: nat)
    requires Enabled(k, a) && i < NENV && SameMail(k.envs[i], Next(k, a).envs[i])
    requires Delivered(k, a, i) == Read(k, a, i) == []
    ensures MailMoves(k, a, i)
  {
  }

  lemma MailStep(k: State, a: Action, i: nat)
    requires Inv(k) && Enabled(k, a) && i < NENV
    ensures MailMoves(k, a, i)
  {
    if a.DoWork? {
      var c, op := a.c, a.op;
      if !Trapped(k, c) {
        IdleMail(k, c, op, i);
        SameMailMoves(k, a, i);
      } else if op.TrySend? {
        SendMail(k, c, op, i);
      } else if op.Recv? {
        RecvMail(k, c, op, i);
      } else if op.Exofork? {
        ForkMail(k, c, op, i);
      } else {
        OtherMail(k, c, op, i);
        SameMailMoves(k, a, i);
      }
    } else if a.DoRead? {
      ReadStep(k, a, i);
    } else {
      SameMailMoves(k, a, i);
    }
  }

  lemma ReadStep(k: State, a: Action, i: nat)
    requires Enabled(k, a) && a.DoRead? && i < NENV
    ensures MailMoves(k, a, i)
  {
  }

  // ------------------------------------------------------------------ whole runs

  predicate Sizes(run: seq<State>) {
    forall m :: 0 <= m < |run| ==> |run[m].envs| == NENV
  }

  predicate StepsEnabled(run: seq<State>, acts: seq<Action>) {
    |run| == |acts| + 1 && Sizes(run) && forall m :: 0 <= m < |acts| ==> Enabled(run[m], acts[m])
  }

  /** The messages sent to the environment in slot i since it was created. */
  function SentTo(run: seq<State>, acts: seq<Action>, i: nat, n: nat): seq<Msg>
    requires StepsEnabled(run, acts) && i < NENV && n <= |acts|
  {
    if n == 0 || run[n].envs[i].allocs != run[n - 1].envs[i].allocs then []
    else SentTo(run, acts, i, n - 1) + Delivered(run[n - 1], acts[n - 1], i)
  }

  /** The messages its receives have returned since it was created. */
  function ReadFrom(run: seq<State>, acts: seq<Action>, i: nat, n: nat): seq<Msg>
    requires StepsEnabled(run, acts) && i < NENV && n <= |acts|
  {
    if n == 0 || run[n].envs[i].allocs != run[n - 1].envs[i].allocs then []
    else ReadFrom(run, acts, i, n - 1) + Read(run[n - 1], acts[n - 1], i)
  }

  lemma {:induction false} HistoryIsRun(run: seq<State>, acts: seq<Action>, i: nat, n: nat)
    requires StepsEnabled(run, acts) && i < NENV && n <= |acts|
    requires run[0].envs[i].sent == run[0].envs[i].got == []
    requires forall m: nat :: m < n ==> StepMail(run, acts, i, m)
    ensures run[n].envs[i].sent == SentTo(run, acts, i, n)
    ensures run[n].envs[i].got == ReadFrom(run, acts, i, n)
    decreases n
  {
    if n > 0 {
      HistoryIsRun(run, acts, i, n - 1);
      assert StepMail(run, acts, i, n - 1);
    }
  }

  predicate StepMail(run: seq<State>, acts: seq<Action>, i: nat, m: nat)
    requires StepsEnabled(run, acts) && i < NENV && m < |acts|
  {
    var e, f := run[m].envs[i], run[m + 1].envs[i];
    if f.allocs != e.allocs then f.sent == f.got == [] && !f.recving
    else
      && f.sent == e.sent + Delivered(run[m], acts[m], i) && f.got == e.got + Read(run[m], acts[m], i)
      && (Delivered(run[m], acts[m], i) != [] ==> e.recving && !f.recving)
      && (!e.recving && !CallsRecv(run[m], acts[m], i) ==> !f.recving)
      && (!e.recving ==> f.value == e.value && f.from == e.from)
  }

  lemma RunMailSteps(run: seq<State>, acts: seq<Action>, i: nat, m: nat)
    requires Run(run, acts) && Inv(run[0]) && StepsEnabled(run, acts) && i < NENV && m < |acts|
    ensures StepMail(run, acts, i, m)
  {
    InvAlways(run, acts, m);
    assert StepOf(run, acts, m);
    MailStep(run[m], acts[m], i);
  }

  /** What completed receives have returned is exactly what has been sent
      successfully, in order; one message at most is on its way. */
  lemma ExactlyOnceInOrder(run: seq<State>, acts: seq<Action>, i: nat, n: nat)
    requires Run(run, acts) && Init(run[0]) && StepsEnabled(run, acts) && i < NENV && n <= |acts|
    requires run[0].envs[i].sent == run[0].envs[i].got == []
    requires run[n].envs[i].status != Free
    ensures SentTo(run, acts, i, n) == ReadFrom(run, acts, i, n) + Pending(run[n].envs[i])
    ensures ReadFrom(run, acts, i, n) <= SentTo(run, acts, i, n)
    ensures |SentTo(run, acts, i, n)| <= |ReadFrom(run, acts, i, n)| + 1
  {
    InitInv(run[0]);
    forall m: nat | m < n ensures StepMail(run, acts, i, m) {
      RunMailSteps(run, acts, i, m);
    }
    HistoryIsRun(run, acts, i, n);
    InvAlways(run, acts, n);
    assert EnvOk(run[n], i);
  }

  /** Two sends to one environment cannot both succeed without a receive called in
      between. */
  lemma OneSendPerReceive(run: seq<State>, acts: seq<Action>, i: nat, m: nat, n: nat)
    requires Run(run, acts) && Inv(run[0]) && StepsEnabled(run, acts) && i < NENV && m < n < |acts|
    requires Delivered(run[m], acts[m], i) != [] && Delivered(run[n], acts[n], i) != []
    requires run[n + 1].envs[i].allocs == run[n].envs[i].allocs
    requires run[m + 1].envs[i].allocs == run[m].envs[i].allocs
    ensures exists j :: m < j < n && CallsRecv(run[j], acts[j], i)
  {
    if forall j :: m < j < n ==> !CallsRecv(run[j], acts[j], i) {
      RunMailSteps(run, acts, i, m);
      StaysClosed(run, acts, i, m + 1, n);
      RunMailSteps(run, acts, i, n);
    }
  }

  lemma {:induction false} StaysClosed(run: seq<State>, acts: seq<Action>, i: nat, m: nat, n: nat)
    requires Run(run, acts) && Inv(run[0]) && StepsEnabled(run, acts) && i < NENV && m <= n < |run|
    requires !run[m].envs[i].recving
    requires forall j :: m <= j < n ==> !CallsRecv(run[j], acts[j], i)
    ensures !run[n].envs[i].recving
    decreases n - m
  {
    if m < n {
      StaysClosed(run, acts, i, m, n - 1);
      RunMailSteps(run, acts, i, n - 1);
    }
  }

  /** The message an environment has received stays as it is until it calls receive
      again. */
  lemma {:induction false} MessageStable(run: seq<State>, acts: seq<Action>, i: nat, m: nat, n: nat)
    requires Run(run, acts) && Inv(run[0]) && StepsEnabled(run, acts) && i < NENV && m <= n < |run|
    requires !run[m].envs[i].recving
    requires forall j :: m <= j < n ==> !CallsRecv(run[j], acts[j], i)
    requires forall j :: m <= j <= n ==> run[j].envs[i].allocs == run[m].envs[i].allocs
    ensures run[n].envs[i].value == run[m].envs[i].value && run[n].envs[i].from == run[m].envs[i].from
    decreases n - m
  {
    if m < n {
      MessageStable(run, acts, i, m, n - 1);
      StaysClosed(run, acts, i, m, n - 1);
      RunMailSteps(run, acts, i, n - 1);
    }
  }

  /** A send that fails leaves every other environment, the intended receiver among
      them, as it was, and the sender as it was but for the error in its %eax. */
  lemma FailedSendChangesNothing(k: State, c: nat, op: Op, j: nat)
    requires Inv(k) && Enabled(k, DoWork(c, op)) && Trapped(k, c) && op.TrySend? && j < NENV
    requires SysIpcTrySend(k, c, op.envid, op.value, op.srcva, op.permOk, op.permW, op.page).1 < 0
    ensures var r := SysIpcTrySend(k, c, op.envid, op.value, op.srcva, op.permOk, op.permW, op.page).1;
            Work(k, c, op).envs[j] == if k.cpus[c].cur == To(j) then k.envs[j].(eax := r) else k.envs[j]
  {
    var i := k.cpus[c].cur.at;
    var x := SysIpcTrySend(k, c, op.envid, op.value, op.srcva, op.permOk, op.permW, op.page);
    assert CpuOk(k, c);
    var d := SetEax(k, i, x.1);
    assert Dispatch(k, c, op) == d;
    assert Finish(d, c) == EnvRun(d, c, i);
  }
}
