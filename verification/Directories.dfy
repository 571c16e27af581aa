/** Which environments have an address space, and how the work of a CPU in the
    kernel changes that. */
module Directories {
  import opened Layout
  import opened EnvIds
  import opened Kernel
  import opened KernelSafety

  /** Alive before and after, with the same directory, or free before and after. */
  predicate SameDir(e: Env, f: Env) {
    f.pgdir == e.pgdir && (f.status == Free <==> e.status == Free)
  }

  lemma SwitchDir(k: State, c: nat, j: nat, i: nat)
    requires Here(k, c) && j < NENV && i < NENV && k.envs[j].status != Free
    ensures SameDir(k.envs[i], SwitchTo(k, c, j).envs[i])
  {
  }

  lemma RunDir(k: State, c: nat, j: nat, i: nat)
    requires Here(k, c) && j < NENV && i < NENV && k.envs[j].status != Free
    ensures SameDir(k.envs[i], EnvRun(k, c, j).envs[i])
  {
    SwitchDir(k, c, j, i);
    var s := SwitchTo(k, c, j);
    assert Unlock(s, c).envs == s.envs;
    assert SameDir(s.envs[i], EnvRun(k, c, j).envs[i]);
  }

  lemma YieldDir(k: State, c: nat, i: nat)
    requires Here(k, c) && i < NENV
    ensures SameDir(k.envs[i], SchedYield(k, c).envs[i])
  {
    var p := Pick(k.envs, ScanStart(k, c), NENV);
    if p.To? {
      RunDir(k, c, p.at, i);
    } else if CurRunning(k, c) {
      RunDir(k, c, k.cpus[c].cur.at, i);
    }
  }

  lemma FinishDir(k: State, c: nat, i: nat)
    requires Here(k, c) && i < NENV
    ensures SameDir(k.envs[i], Finish(k, c).envs[i])
  {
    if Returned(k, c) {
      if CurRunning(k, c) {
        RunDir(k, c, k.cpus[c].cur.at, i);
      } else {
        YieldDir(k, c, i);
      }
    }
  }

  /** env_destroy frees its target at once, unless that runs elsewhere. */
  predicate FreedNow(k: State, c: nat, j: nat)
    requires Here(k, c) && j < NENV
  {
    k.envs[j].status != Running || k.cpus[c].cur == To(j)
  }

  lemma DestroyDir(k: State, c: nat, j: nat, i: nat)
    requires Here(k, c) && j < NENV && i < NENV
    ensures var f := EnvDestroy(k, c, j).envs[i];
            if i == j && FreedNow(k, c, j) then f.status == Free else SameDir(k.envs[i], f)
  {
    if k.cpus[c].cur == To(j) {
      YieldDir(NoCur(EnvFree(k, c, j), c), c, i);
    }
  }

  /** The slot whose environment is freed by the work of CPU c, if any. */
  function FreedSlot(k: State, c: nat, op: Op): (p: Ptr)
    requires Here(k, c) && k.cpus[c].mode.InKernel?
    ensures p.To? ==> p.at < NENV
  {
    if !k.cpus[c].mode.user || k.cpus[c].cur.NULL? then NULL
    else if k.envs[k.cpus[c].cur.at].status == Dying then k.cpus[c].cur
    else
      match op
      case Fault => k.cpus[c].cur
      case Destroy(envid) =>
        (match Envid2Env(k, c, envid, true)
         case Bad => NULL
         case Found(j) => if FreedNow(k, c, j) then To(j) else NULL)
      case _ => NULL
  }

  /** The slot in which an environment is created, if any. */
  function BornSlot(k: State, c: nat, op: Op): (p: Ptr)
    requires Here(k, c) && k.cpus[c].mode.InKernel?
    ensures p.To? ==> p.at < NENV
  {
    if k.cpus[c].mode.user && k.cpus[c].cur.To? && k.envs[k.cpus[c].cur.at].status != Dying &&
       op.Exofork? && k.free != [] && op.pgdir != 0
    then To(k.free[0]) else NULL
  }

  /** What becomes of slot i. */
  predicate DirMoves(k: State, c: nat, op: Op, i: nat, f: Env)
    requires Here(k, c) && k.cpus[c].mode.InKernel? && i < NENV
  {
    if FreedSlot(k, c, op) == To(i) then f.status == Free
    else if BornSlot(k, c, op) == To(i) then f.status != Free && op.Exofork? && f.pgdir == op.pgdir
    else SameDir(k.envs[i], f)
  }

  lemma DestroyCallDir(k: State, c: nat, envid: nat, i: nat)
    requires Trapped(k, c) && i < NENV
    ensures DirMoves(k, c, Destroy(envid), i, Dispatch(k, c, Destroy(envid)).envs[i])
  {
    var l := Envid2Env(k, c, envid, true);
    if l.Found? {
      DestroyDir(k, c, l.i, i);
      assert Dispatch(k, c, Destroy(envid)) == Return((EnvDestroy(k, c, l.i), 0), c, k.cpus[c].cur.at);
    }
  }

  lemma SendDir(k: State, c: nat, op: Op, i: nat)
    requires Trapped(k, c) && op.TrySend? && i < NENV
    ensures SameDir(k.envs[i], Dispatch(k, c, op).envs[i])
  {
    var x := SysIpcTrySend(k, c, op.envid, op.value, op.srcva, op.permOk, op.permW, op.page);
    SendStoresDir(k, c, op, i);
    assert Dispatch(k, c, op) == SetEax(x.0, k.cpus[c].cur.at, x.1);
  }

  lemma SendStoresDir(k: State, c: nat, op: Op, i: nat)
    requires Here(k, c) && CurRunning(k, c) && op.TrySend? && i < NENV
    ensures var x := SysIpcTrySend(k, c, op.envid, op.value, op.srcva, op.permOk, op.permW, op.page);
            SameDir(k.envs[i], x.0.envs[i]) && x.0.cpus == k.cpus
  {
    var l := Envid2Env(k, c, op.envid, false);
    assert op.envid != 0 && l.Found? ==> k.envs[l.i].status != Free;
  }

  lemma StatusDir(k: State, c: nat, envid: nat, status: Status, i: nat)
    requires Trapped(k, c) && i < NENV
    ensures SameDir(k.envs[i], Dispatch(k, c, SetStatus(envid, status)).envs[i])
  {
    var x := SysEnvSetStatus(k, c, envid, status);
    assert x.0.cpus == k.cpus && SameDir(k.envs[i], x.0.envs[i]);
    assert Dispatch(k, c, SetStatus(envid, status)) == SetEax(x.0, k.cpus[c].cur.at, x.1);
  }

  lemma ForkDir(k: State, c: nat, pgdir: nat, i: nat)
    requires Trapped(k, c) && i < NENV
    ensures DirMoves(k, c, Exofork(pgdir), i, Dispatch(k, c, Exofork(pgdir)).envs[i])
  {
    var x := SysExofork(k, c, pgdir);
    assert Dispatch(k, c, Exofork(pgdir)) == SetEax(x.0, k.cpus[c].cur.at, x.1);
  }

  lemma RecvDir(k: State, c: nat, dstva: nat, i: nat)
    requires Trapped(k, c) && i < NENV
    ensures SameDir(k.envs[i], Dispatch(k, c, Recv(dstva)).envs[i])
  {
    if !(dstva < UTOP && PGOFF(dstva) != 0) {
      SleepYields(k, c, dstva);
      YieldDir(Asleep(k, c, dstva), c, i);
    }
  }

  lemma DispatchDir(k: State, c: nat, op: Op, i: nat)
    requires Trapped(k, c) && i < NENV
    ensures DirMoves(k, c, op, i, Dispatch(k, c, op).envs[i])
  {
    match op
    case Resume(eax) =>
    case Yield => YieldDir(k, c, i);
    case Fault => DestroyDir(k, c, k.cpus[c].cur.at, i);
    case Destroy(envid) => DestroyCallDir(k, c, envid, i);
    case Exofork(pgdir) => ForkDir(k, c, pgdir, i);
    case SetStatus(envid, status) => StatusDir(k, c, envid, status, i);
    case TrySend(_, _, _, _, _, _) => SendDir(k, c, op, i);
    case Recv(dstva) => RecvDir(k, c, dstva, i);
  }

  /** A CPU in the kernel frees at most one environment and creates at most one, and
      the address space of every other stays with it. */
  lemma WorkDir(k: State, c: nat, op: Op, i: nat)
    requires Inv(k) && c < |k.cpus| && k.cpus[c].mode.InKernel? && i < NENV
    ensures DirMoves(k, c, op, i, Work(k, c, op).envs[i])
  {
    assert CpuOk(k, c);
    if !k.cpus[c].mode.user {
      YieldDir(k, c, i);
    } else if Trapped(k, c) {
      DispatchDir(k, c, op, i);
      FinishDir(Dispatch(k, c, op), c, i);
    } else {
      YieldDir(NoCur(EnvFree(k, c, k.cpus[c].cur.at), c), c, i);
    }
  }
}
