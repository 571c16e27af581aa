/** What every step of every CPU keeps: an environment runs on one CPU, in its own
    address space; the lock is held exactly by the CPU inside the kernel; ids, the
    free list and the messages of receivers are as they should be. */
module KernelSafety {
  import opened Layout
  import opened EnvIds
  import opened Kernel

  // ------------------------------------------------------------------- invariant

  predicate OnCpu(e: Env) {
    e.status == Running || e.status == Dying
  }

  /** The message delivered to a receive whose caller has not read it yet. */
  function Pending(e: Env): seq<Msg> {
    if e.inRecv && !e.recving then [Msg(e.from, e.value)] else []
  }

  predicate EnvOk(k: State, i: nat)
    requires Sized(k) && i < NENV
  {
    var e := k.envs[i];
    && e.id == NthId(i, e.allocs)
    && (e.status != Free ==>
          && e.allocs >= 1 && e.pgdir != KERN_PGDIR && e.sent == e.got + Pending(e)
          && (e.recving ==> e.status == NotRunnable && e.inRecv && (e.dstva < UTOP ==> PGOFF(e.dstva) == 0)))
    && (OnCpu(e) ==> e.cpunum < |k.cpus| && k.cpus[e.cpunum].cur == To(i) && k.cpus[e.cpunum].mode != Monitor)
  }

  /** The loaded directory is kern_pgdir or that of the current environment. */
  predicate DirOk(k: State, c: nat)
    requires Here(k, c)
  {
    var p := k.cpus[c];
    match p.cur
    case NULL => p.cr3 == KERN_PGDIR
    case To(i) => k.envs[i].status != Free && p.cr3 == k.envs[i].pgdir
  }

  predicate ModeOk(p: Cpu) {
    && (p.halted <==> p.mode == Halted)
    && match p.mode
       case Booting => p.cur.NULL?
       case User => p.cur.To?
       case Halted => p.cur.NULL?
       case Spinning(user, more) => more == 0 && (user <==> p.cur.To?)
       case InKernel(user) => user <==> p.cur.To?
       case Monitor => true
  }

  predicate CpuOk(k: State, c: nat)
    requires Here(k, c)
  {
    var p := k.cpus[c];
    && DirOk(k, c) && ModeOk(p)
    && (p.cur.To? ==>
          if p.mode == Monitor then !OnCpu(k.envs[p.cur.at])
          else OnCpu(k.envs[p.cur.at]) && k.envs[p.cur.at].cpunum == c)
  }

  /** A CPU between its entry to the kernel and the choice of what to run next: its
      current environment may have gone to sleep. */
  predicate CpuMid(k: State, c: nat)
    requires Here(k, c)
  {
    var p := k.cpus[c];
    && DirOk(k, c) && p.mode.InKernel? && !p.halted
    && (p.cur.To? ==>
          || k.envs[p.cur.at].status == NotRunnable
          || (k.envs[p.cur.at].status == Running && k.envs[p.cur.at].cpunum == c))
  }

  predicate InsideKernel(p: Cpu) {
    p.mode.InKernel? || p.mode == Monitor
  }

  /** The lock is held exactly while a CPU is inside the kernel, by that CPU. */
  predicate LockOk(k: State) {
    && (k.lock.locked ==> k.lock.cpu.To? && k.lock.cpu.at < |k.cpus| && InsideKernel(k.cpus[k.lock.cpu.at]))
    && (forall c :: 0 <= c < |k.cpus| && InsideKernel(k.cpus[c]) ==> Holding(k, c))
  }

  predicate DirsApart(k: State)
    requires Sized(k)
  {
    forall i, j :: 0 <= i < j < NENV && k.envs[i].status != Free && k.envs[j].status != Free ==>
      k.envs[i].pgdir != k.envs[j].pgdir
  }

  /** The free list is the free slots, each once. */
  predicate FreeOk(k: State)
    requires Sized(k)
  {
    && (forall i, j :: 0 <= i < j < |k.free| ==> k.free[i] != k.free[j])
    && (forall i: nat :: i < NENV ==> (i in k.free <==> k.envs[i].status == Free))
  }

  predicate Base(k: State) {
    && Sized(k) && !k.panicked && LockOk(k) && DirsApart(k) && FreeOk(k)
    && (forall i: nat :: i < NENV ==> EnvOk(k, i))
  }

  predicate Inv(k: State) {
    Base(k) && forall c: nat :: c < |k.cpus| ==> CpuOk(k, c)
  }

  predicate Mid(k: State, c: nat) {
    && Base(k) && c < |k.cpus| && CpuMid(k, c)
    && forall d: nat :: d < |k.cpus| && d != c ==> CpuOk(k, d)
  }

  // ------------------------------------------------------ running and scheduling

  lemma RunSameKeeps(k: State, c: nat)
    requires Mid(k, c) && CurRunning(k, c)
    ensures Inv(EnvRun(k, c, k.cpus[c].cur.at))
  {
    var i := k.cpus[c].cur.at;
    var r := EnvRun(k, c, i);
    assert Holding(k, c);
    assert r.envs == k.envs[i := k.envs[i].(cpunum := c)];
    forall j: nat | j < NENV ensures EnvOk(r, j) {
      assert EnvOk(k, j);
    }
    forall d: nat | d < |r.cpus| ensures CpuOk(r, d) {
      if d != c {
        assert CpuOk(k, d);
      }
    }
  }

  /** The CPU gives up its current environment. */
  function Leave(k: State, c: nat): (r: State)
    requires Here(k, c)
    ensures Here(r, c)
  {
    var k0 := if CurRunning(k, c)
              then SetEnv(k, k.cpus[c].cur.at, k.envs[k.cpus[c].cur.at].(status := Runnable)) else k;
    SetCpu(k0, c, k0.cpus[c].(cur := NULL, cr3 := KERN_PGDIR, mode := InKernel(false)))
  }

  lemma LeaveKeeps(k: State, c: nat)
    requires Mid(k, c)
    ensures Mid(Leave(k, c), c)
  {
    var r := Leave(k, c);
    forall j: nat | j < NENV ensures EnvOk(r, j) {
      assert EnvOk(k, j);
    }
    forall d: nat | d < |r.cpus| && d != c ensures CpuOk(r, d) {
      assert CpuOk(k, d);
    }
    assert LockOk(r);
  }

  lemma RunFromLeave(k: State, c: nat, i: nat)
    requires Mid(k, c) && i < NENV && k.envs[i].status == Runnable
    ensures EnvRun(k, c, i) == EnvRun(Leave(k, c), c, i)
    ensures Leave(k, c).envs[i] == k.envs[i]
  {
    var r, l := EnvRun(k, c, i), EnvRun(Leave(k, c), c, i);
    assert r.cpus == l.cpus;
    assert r.envs == l.envs;
  }

  lemma EnterKeeps(k: State, c: nat, i: nat)
    requires Mid(k, c) && k.cpus[c].cur.NULL? && i < NENV && k.envs[i].status == Runnable
    ensures Inv(EnvRun(k, c, i))
  {
    var r := EnvRun(k, c, i);
    assert Holding(k, c) && EnvOk(k, i);
    assert r.envs == k.envs[i := k.envs[i].(status := Running, runs := k.envs[i].runs + 1, cpunum := c)];
    assert r.cpus == k.cpus[c := Cpu(User, To(i), k.envs[i].pgdir, false)];
    forall j: nat | j < NENV ensures EnvOk(r, j) {
      assert EnvOk(k, j);
    }
    forall d: nat | d < |r.cpus| ensures CpuOk(r, d) {
      if d != c {
        assert CpuOk(k, d);
      }
    }
  }

  lemma RunOtherKeeps(k: State, c: nat, i: nat)
    requires Mid(k, c) && i < NENV && k.envs[i].status == Runnable
    ensures Inv(EnvRun(k, c, i))
  {
    LeaveKeeps(k, c);
    RunFromLeave(k, c, i);
    EnterKeeps(Leave(k, c), c, i);
  }

  lemma HaltKeeps(k: State, c: nat)
    requires Mid(k, c) && !CurRunning(k, c)
    ensures Inv(SchedHalt(k, c))
  {
    var r := SchedHalt(k, c);
    assert Holding(k, c);
    forall j: nat | j < NENV ensures EnvOk(r, j) {
      assert EnvOk(k, j);
    }
    forall d: nat | d < |r.cpus| ensures CpuOk(r, d) {
      if d != c {
        assert CpuOk(k, d);
      }
    }
  }

  lemma YieldKeeps(k: State, c: nat)
    requires Mid(k, c)
    ensures Inv(SchedYield(k, c))
  {
    var p := Pick(k.envs, ScanStart(k, c), NENV);
    if p.To? {
      RunOtherKeeps(k, c, p.at);
    } else if CurRunning(k, c) {
      RunSameKeeps(k, c);
    } else {
      HaltKeeps(k, c);
    }
  }

  // ------------------------------------------------ the system calls, one by one

  /** New contents for one live environment. */
  lemma UpdateKeeps(k: State, c: nat, i: nat, e: Env)
    requires Mid(k, c) && i < NENV && k.envs[i].status != Free && e.status != Free
    requires e.id == k.envs[i].id && e.pgdir == k.envs[i].pgdir && e.cpunum == k.envs[i].cpunum
    requires EnvOk(SetEnv(k, i, e), i)
    requires if k.cpus[c].cur == To(i) then e.status == NotRunnable || e.status == k.envs[i].status
             else OnCpu(e) <==> OnCpu(k.envs[i])
    ensures Mid(SetEnv(k, i, e), c)
  {
    var r := SetEnv(k, i, e);
    forall j: nat | j < NENV ensures EnvOk(r, j) {
      assert EnvOk(k, j);
    }
    forall d: nat | d < |r.cpus| && d != c ensures CpuOk(r, d) {
      assert CpuOk(k, d);
    }
  }

  lemma EaxKeeps(k: State, c: nat, i: nat, x: int)
    requires Mid(k, c) && i < NENV && k.envs[i].status != Free
    ensures Mid(SetEax(k, i, x), c)
  {
    assert EnvOk(k, i);
    UpdateKeeps(k, c, i, k.envs[i].(eax := x));
  }

  lemma FreeKeeps(k: State, c: nat, i: nat)
    requires Mid(k, c) && i < NENV && k.envs[i].status != Free && !OnCpu(k.envs[i]) && k.cpus[c].cur != To(i)
    ensures Mid(EnvFree(k, c, i), c)
  {
    var r := EnvFree(k, c, i);
    forall j: nat | j < NENV ensures EnvOk(r, j) {
      assert EnvOk(k, j);
    }
    forall d: nat | d < |r.cpus| && d != c ensures CpuOk(r, d) {
      assert CpuOk(k, d);
    }
  }

  lemma FreeSelfKeeps(k: State, c: nat, i: nat)
    requires Mid(k, c) || (Inv(k) && c < |k.cpus| && k.cpus[c].mode.InKernel?)
    requires i < NENV && k.cpus[c].cur == To(i)
    ensures Mid(NoCur(EnvFree(k, c, i), c), c)
  {
    var r := NoCur(EnvFree(k, c, i), c);
    assert Inv(k) ==> CpuOk(k, c);
    forall j: nat | j < NENV ensures EnvOk(r, j) {
      assert EnvOk(k, j);
    }
    forall d: nat | d < |r.cpus| && d != c ensures CpuOk(r, d) {
      assert CpuOk(k, d);
    }
  }

  /** Destroying any environment but a dying one. */
  lemma DestroyKeeps(k: State, c: nat, i: nat)
    requires Mid(k, c) && i < NENV && k.envs[i].status != Free && k.envs[i].status != Dying
    ensures if k.cpus[c].cur == To(i) then Inv(EnvDestroy(k, c, i)) && !Returned(EnvDestroy(k, c, i), c)
            else Mid(EnvDestroy(k, c, i), c)
  {
    assert EnvOk(k, i);
    if k.envs[i].status == Running && k.cpus[c].cur != To(i) {
      UpdateKeeps(k, c, i, k.envs[i].(status := Dying));
    } else if k.cpus[c].cur == To(i) {
      FreeSelfKeeps(k, c, i);
      YieldKeeps(NoCur(EnvFree(k, c, i), c), c);
      YieldLeaves(NoCur(EnvFree(k, c, i), c), c);
    } else {
      FreeKeeps(k, c, i);
    }
  }

  /** sched_yield does not return. */
  lemma YieldLeaves(k: State, c: nat)
    requires Here(k, c)
    ensures !SchedYield(k, c).cpus[c].mode.InKernel?
  {
  }

  /** The page of a new directory is in use by nobody. */
  predicate FreshDir(k: State, pgdir: nat)
    requires Sized(k)
  {
    pgdir != KERN_PGDIR && forall i :: 0 <= i < NENV && k.envs[i].status != Free ==> k.envs[i].pgdir != pgdir
  }

  lemma AllocKeeps(k: State, c: nat, pgdir: nat)
    requires Mid(k, c) && k.cpus[c].cur.To? && (pgdir == 0 || FreshDir(k, pgdir))
    ensures Mid(SysExofork(k, c, pgdir).0, c)
    ensures SysExofork(k, c, pgdir).0.cpus == k.cpus
  {
    var r := SysExofork(k, c, pgdir).0;
    if k.free != [] && pgdir != 0 {
      var i := k.free[0];
      assert i in k.free;
      assert EnvOk(k, i);
      NthIdClosed(i, k.envs[i].allocs + 1);
      assert EnvOk(r, i);
      forall j: nat | j < NENV ensures EnvOk(r, j) {
        assert EnvOk(k, j);
      }
      forall d: nat | d < |r.cpus| && d != c ensures CpuOk(r, d) {
        assert CpuOk(k, d);
      }
      assert FreeOk(r) by {
        assert k.free == [i] + r.free;
      }
    }
  }

  /** What sys_env_set_status demands of its target: not on any CPU, except that a
      caller may put itself to sleep, and not woken while blocked in a receive. */
  predicate MayChange(k: State, c: nat, i: nat, status: Status)
    requires Here(k, c) && i < NENV
  {
    var e := k.envs[i];
    if k.cpus[c].cur == To(i) then status == NotRunnable
    else !OnCpu(e) && (e.recving ==> status == NotRunnable)
  }

  lemma StatusKeeps(k: State, c: nat, i: nat, status: Status)
    requires Mid(k, c) && i < NENV && k.envs[i].status != Free && MayChange(k, c, i, status)
    requires status == Runnable || status == NotRunnable
    ensures Mid(SetEnv(k, i, k.envs[i].(status := status)), c)
  {
    assert EnvOk(k, i);
    UpdateKeeps(k, c, i, k.envs[i].(status := status));
  }

  lemma SendKeeps(k: State, c: nat, i: nat, from: int, value: int)
    requires Mid(k, c) && i < NENV && k.envs[i].status != Free && k.envs[i].recving && k.cpus[c].cur != To(i)
    ensures var e := k.envs[i];
            Mid(SetEnv(k, i, e.(recving := false, from := from, value := value, eax := 0, status := Runnable,
                                sent := e.sent + [Msg(from, value)])), c)
  {
    assert EnvOk(k, i);
    var e := k.envs[i];
    UpdateKeeps(k, c, i, e.(recving := false, from := from, value := value, eax := 0, status := Runnable,
                            sent := e.sent + [Msg(from, value)]));
  }

  lemma RecvKeeps(k: State, c: nat, i: nat, dstva: nat)
    requires Mid(k, c) && i < NENV && k.cpus[c].cur == To(i) && !k.envs[i].inRecv
    requires dstva < UTOP ==> PGOFF(dstva) == 0
    ensures Mid(Asleep(k, c, dstva), c)
  {
    assert EnvOk(k, i);
    UpdateKeeps(k, c, i, k.envs[i].(recving := true, dstva := dstva, status := NotRunnable, inRecv := true));
  }

  // ---------------------------------------------------------------- a whole trap

  /** What the callers of the two system calls below must see to, and what the
      page allocator guarantees. */
  predicate Careful(k: State, c: nat, op: Op)
    requires Here(k, c) && k.cpus[c].cur.To?
  {
    match op
    case Destroy(envid) =>
      (match Envid2Env(k, c, envid, true) case Found(i) => k.envs[i].status != Dying case Bad => true)
    case SetStatus(envid, status) =>
      (match Envid2Env(k, c, envid, true)
       case Found(i) => status == Runnable || status == NotRunnable ==> MayChange(k, c, i, status)
       case Bad => true)
    case Exofork(pgdir) => pgdir == 0 || FreshDir(k, pgdir)
    case _ => true
  }

  /** Between calling receive and reading the message an environment does not call
      receive again; any other system call, as of its page-fault handler, is fine. */
  predicate Polite(e: Env, op: Op) {
    e.inRecv ==> !op.Recv?
  }

  lemma FinishKeeps(k: State, c: nat)
    requires Mid(k, c) || (Inv(k) && c < |k.cpus| && !k.cpus[c].mode.InKernel?)
    ensures Inv(Finish(k, c))
  {
    if Returned(k, c) {
      if CurRunning(k, c) {
        RunSameKeeps(k, c);
      } else {
        YieldKeeps(k, c);
      }
    }
  }

  /** After the dispatch: still in the kernel, or gone. */
  predicate Dispatched(k: State, c: nat) {
    Mid(k, c) || (Inv(k) && c < |k.cpus| && !k.cpus[c].mode.InKernel?)
  }

  predicate Trapped(k: State, c: nat) {
    && Inv(k) && c < |k.cpus| && k.cpus[c].mode == InKernel(true)
    && CurRunning(k, c)
  }

  lemma TrappedMid(k: State, c: nat)
    requires Trapped(k, c)
    ensures Mid(k, c)
  {
    assert CpuOk(k, c);
  }

  lemma LookupLive(k: State, c: nat, envid: nat, perm: bool)
    requires Trapped(k, c) && Envid2Env(k, c, envid, perm).Found?
    ensures k.envs[Envid2Env(k, c, envid, perm).i].status != Free
  {
  }

  lemma DestroyDispatch(k: State, c: nat, envid: nat)
    requires Trapped(k, c) && Careful(k, c, Destroy(envid))
    ensures Dispatched(Dispatch(k, c, Destroy(envid)), c)
  {
    var i := k.cpus[c].cur.at;
    TrappedMid(k, c);
    var l := Envid2Env(k, c, envid, true);
    if l.Found? {
      LookupLive(k, c, envid, true);
      DestroyKeeps(k, c, l.i);
      if Returned(EnvDestroy(k, c, l.i), c) {
        EaxKeeps(EnvDestroy(k, c, l.i), c, i, 0);
      }
    } else {
      EaxKeeps(k, c, i, Code(BadEnv));
    }
  }

  lemma StatusDispatch(k: State, c: nat, envid: nat, status: Status)
    requires Trapped(k, c) && Careful(k, c, SetStatus(envid, status))
    ensures Dispatched(Dispatch(k, c, SetStatus(envid, status)), c)
  {
    var i := k.cpus[c].cur.at;
    TrappedMid(k, c);
    var l := Envid2Env(k, c, envid, true);
    var (r, x) := SysEnvSetStatus(k, c, envid, status);
    if l.Found? && (status == Runnable || status == NotRunnable) {
      LookupLive(k, c, envid, true);
      StatusKeeps(k, c, l.i, status);
    }
    EaxKeeps(r, c, i, x);
  }

  lemma SendDispatch(k: State, c: nat, op: Op)
    requires Trapped(k, c) && op.TrySend?
    ensures Dispatched(Dispatch(k, c, op), c)
  {
    var i := k.cpus[c].cur.at;
    TrappedMid(k, c);
    var l := Envid2Env(k, c, op.envid, false);
    var (r, x) := SysIpcTrySend(k, c, op.envid, op.value, op.srcva, op.permOk, op.permW, op.page);
    if l.Found? && k.envs[l.i].recving {
      LookupLive(k, c, op.envid, false);
      assert EnvOk(k, l.i);
      SendKeeps(k, c, l.i, k.envs[i].id, op.value);
    }
    EaxKeeps(r, c, i, x);
  }

  lemma RecvDispatch(k: State, c: nat, dstva: nat)
    requires Trapped(k, c) && Polite(k.envs[k.cpus[c].cur.at], Recv(dstva))
    ensures Dispatched(Dispatch(k, c, Recv(dstva)), c)
  {
    var i := k.cpus[c].cur.at;
    TrappedMid(k, c);
    if dstva < UTOP && PGOFF(dstva) != 0 {
      EaxKeeps(k, c, i, Code(Inval));
    } else {
      SleepDispatch(k, c, dstva);
    }
  }

  lemma SleepYields(k: State, c: nat, dstva: nat)
    requires Here(k, c) && k.cpus[c].cur.To? && !(dstva < UTOP && PGOFF(dstva) != 0)
    ensures Dispatch(k, c, Recv(dstva)) == SchedYield(Asleep(k, c, dstva), c)
    ensures !Returned(SchedYield(Asleep(k, c, dstva), c), c)
  {
    YieldLeaves(Asleep(k, c, dstva), c);
  }

  lemma SleepDispatch(k: State, c: nat, dstva: nat)
    requires Mid(k, c) && k.cpus[c].cur.To? && !k.envs[k.cpus[c].cur.at].inRecv && !(dstva < UTOP && PGOFF(dstva) != 0)
    ensures Inv(Dispatch(k, c, Recv(dstva))) && !Returned(Dispatch(k, c, Recv(dstva)), c)
  {
    RecvKeeps(k, c, k.cpus[c].cur.at, dstva);
    YieldKeeps(Asleep(k, c, dstva), c);
    SleepYields(k, c, dstva);
  }

  lemma DispatchKeeps(k: State, c: nat, op: Op)
    requires Trapped(k, c) && Careful(k, c, op) && Polite(k.envs[k.cpus[c].cur.at], op)
    ensures Dispatched(Dispatch(k, c, op), c)
  {
    var i := k.cpus[c].cur.at;
    TrappedMid(k, c);
    match op
    case Resume(eax) => EaxKeeps(k, c, i, eax);
    case Yield =>
      YieldKeeps(k, c);
      YieldLeaves(k, c);
    case Fault => DestroyKeeps(k, c, i);
    case Destroy(envid) => DestroyDispatch(k, c, envid);
    case Exofork(pgdir) =>
      AllocKeeps(k, c, pgdir);
      var (r, x) := SysExofork(k, c, pgdir);
      assert CpuMid(r, c);
      EaxKeeps(r, c, i, x);
    case SetStatus(envid, status) => StatusDispatch(k, c, envid, status);
    case TrySend(_, _, _, _, _, _) => SendDispatch(k, c, op);
    case Recv(dstva) => RecvDispatch(k, c, dstva);
  }

  lemma WorkKeeps(k: State, c: nat, op: Op)
    requires Inv(k) && c < |k.cpus| && k.cpus[c].mode.InKernel?
    requires Trapped(k, c) ==> Careful(k, c, op) && Polite(k.envs[k.cpus[c].cur.at], op)
    ensures Inv(Work(k, c, op))
  {
    assert CpuOk(k, c);
    if !k.cpus[c].mode.user {
      assert Mid(k, c);
      YieldKeeps(k, c);
    } else if Trapped(k, c) {
      DispatchKeeps(k, c, op);
      FinishKeeps(Dispatch(k, c, op), c);
    } else {
      var i := k.cpus[c].cur.at;
      FreeSelfKeeps(k, c, i);
      YieldKeeps(NoCur(EnvFree(k, c, i), c), c);
    }
  }

  // -------------------------------------------------------------- steps and runs

  datatype Action =
    | DoTrap(c: nat)
    | DoApStart(c: nat)
    | DoTryLock(c: nat)
    | DoWork(c: nat, op: Op)
    | DoRead(c: nat)

  predicate Enabled(k: State, a: Action) {
    && Here(k, a.c)
    && match a
       case DoTrap(c) => k.cpus[c].mode == User || k.cpus[c].mode == Halted
       case DoApStart(c) => k.cpus[c].mode == Booting
       case DoTryLock(c) => k.cpus[c].mode.Spinning?
       case DoWork(c, op) =>
         && k.cpus[c].mode.InKernel?
         && (Trapped(k, c) ==> Careful(k, c, op) && Polite(k.envs[k.cpus[c].cur.at], op))
       case DoRead(c) =>
         && k.cpus[c].mode == User && k.cpus[c].cur.To?
         && k.envs[k.cpus[c].cur.at].inRecv && k.envs[k.cpus[c].cur.at].status == Running
  }

  function Next(k: State, a: Action): (r: State)
    requires Enabled(k, a)
    ensures OnlyMoves(k, r, a.c)
  {
    match a
    case DoTrap(c) => Trap(k, c)
    case DoApStart(c) => ApStart(k, c)
    case DoTryLock(c) => TryLock(k, c)
    case DoWork(c, op) => Work(k, c, op)
    case DoRead(c) => ReadMsg(k, c)
  }

  /** A CPU that does not move changes nothing for the others. */
  lemma ModeKeeps(k: State, c: nat, mode: Mode, halted: bool, lock: Lock)
    requires Inv(k) && c < |k.cpus| && ModeOk(k.cpus[c].(mode := mode, halted := halted))
    requires k.cpus[c].mode != Monitor && mode != Monitor
    requires LockOk(SetCpu(k, c, k.cpus[c].(mode := mode, halted := halted)).(lock := lock))
    ensures Inv(SetCpu(k, c, k.cpus[c].(mode := mode, halted := halted)).(lock := lock))
  {
    var r := SetCpu(k, c, k.cpus[c].(mode := mode, halted := halted)).(lock := lock);
    forall j: nat | j < NENV ensures EnvOk(r, j) {
      assert EnvOk(k, j);
    }
    forall d: nat | d < |r.cpus| ensures CpuOk(r, d) {
      assert CpuOk(k, d);
    }
  }

  lemma TryLockKeeps(k: State, c: nat)
    requires Inv(k) && c < |k.cpus| && k.cpus[c].mode.Spinning?
    ensures Inv(TryLock(k, c))
  {
    assert CpuOk(k, c);
    if !k.lock.locked {
      ModeKeeps(k, c, InKernel(k.cpus[c].mode.user), k.cpus[c].halted, Lock(true, To(c)));
    }
  }

  lemma ReadKeeps(k: State, c: nat)
    requires Inv(k) && Enabled(k, DoRead(c))
    ensures Inv(ReadMsg(k, c))
  {
    var r := ReadMsg(k, c);
    var i := k.cpus[c].cur.at;
    assert CpuOk(k, c) && EnvOk(k, i);
    forall j: nat | j < NENV ensures EnvOk(r, j) {
      assert EnvOk(k, j);
    }
    forall d: nat | d < |r.cpus| ensures CpuOk(r, d) {
      assert CpuOk(k, d);
    }
  }

  lemma StepKeeps(k: State, a: Action)
    requires Inv(k) && Enabled(k, a)
    ensures Inv(Next(k, a))
  {
    assert CpuOk(k, a.c);
    match a
    case DoTrap(c) => ModeKeeps(k, c, Spinning(k.cpus[c].mode == User, 0), false, k.lock);
    case DoApStart(c) => ModeKeeps(k, c, Spinning(false, 0), false, k.lock);
    case DoTryLock(c) => TryLockKeeps(k, c);
    case DoWork(c, op) => WorkKeeps(k, c, op);
    case DoRead(c) => ReadKeeps(k, c);
  }

  /** The boot processor about to schedule for the first time, the others not yet
      started, and freshly created environments. */
  predicate Init(k: State) {
    && Sized(k) && !k.panicked && DirsApart(k) && FreeOk(k)
    && k.lock == Lock(true, To(0))
    && k.cpus[0] == Cpu(InKernel(false), NULL, KERN_PGDIR, false)
    && (forall c :: 0 < c < |k.cpus| ==> k.cpus[c] == Cpu(Booting, NULL, KERN_PGDIR, false))
    && (forall i: nat :: i < NENV ==>
          var e := k.envs[i];
          && (e.status == Free || e.status == Runnable) && e.id == NthId(i, e.allocs)
          && (e.status == Runnable ==>
                e.allocs == 1 && e.pgdir != KERN_PGDIR && !e.recving && !e.inRecv && e.sent == e.got == []))
  }

  lemma InitInv(k: State)
    requires Init(k)
    ensures Inv(k)
  {
    forall i: nat | i < NENV ensures EnvOk(k, i) {
    }
  }

  function FreeEnv(): Env {
    Env(0, 0, Free, 0, 0, 0, 0, false, 0, 0, 0, 0, [], [], false)
  }

  /** The table after env_init, on n processors beside the boot processor. */
  function Empty(n: nat): (k: State)
    ensures |k.envs| == |k.free| == NENV && |k.cpus| == n + 1
  {
    State(seq(NENV, i => FreeEnv()),
          [Cpu(InKernel(false), NULL, KERN_PGDIR, false)] + seq(n, c => Cpu(Booting, NULL, KERN_PGDIR, false)),
          seq(NENV, i => i), Lock(true, To(0)), false)
  }

  lemma EmptyInit(n: nat)
    ensures Init(Empty(n))
  {
    var k := Empty(n);
    forall i: nat | i < NENV ensures i in k.free {
      assert k.free[i] == i;
    }
  }

  predicate StepOf(run: seq<State>, acts: seq<Action>, n: nat)
    requires n < |acts| && |run| == |acts| + 1
  {
    Enabled(run[n], acts[n]) && run[n + 1] == Next(run[n], acts[n])
  }

  /** acts lead from run[0] through run. */
  predicate Run(run: seq<State>, acts: seq<Action>) {
    && |run| == |acts| + 1
    && forall n: nat :: n < |acts| ==> StepOf(run, acts, n)
  }

  lemma StepOfKeeps(run: seq<State>, acts: seq<Action>, n: nat)
    requires n < |acts| && |run| == |acts| + 1 && StepOf(run, acts, n) && Inv(run[n])
    ensures Inv(run[n + 1])
  {
    StepKeeps(run[n], acts[n]);
  }

  lemma {:induction false} InvAlways(run: seq<State>, acts: seq<Action>, n: nat)
    requires Run(run, acts) && Inv(run[0]) && n < |run|
    ensures Inv(run[n])
    decreases n
  {
    if n > 0 {
      InvAlways(run, acts, n - 1);
      StepOfKeeps(run, acts, n - 1);
      assert run[n - 1 + 1] == run[n];
    }
  }

  /** The loaded directory is the live one of the current environment. */
  predicate OwnDir(k: State, c: nat)
    requires Here(k, c)
  {
    && k.cpus[c].cur.To? && k.envs[k.cpus[c].cur.at].status != Free
    && k.cpus[c].cr3 == k.envs[k.cpus[c].cur.at].pgdir
  }

  /** No environment runs on two CPUs: outside the kernel the current environment
      is none, running or dying; no two CPUs share it; every running or dying
      environment is current on exactly one CPU; and each CPU has kern_pgdir or its
      own environment's live directory loaded. */
  ghost predicate OneCpuEach(k: State) {
    && Sized(k)
    && (forall c: nat :: c < |k.cpus| && !InsideKernel(k.cpus[c]) && k.cpus[c].cur.To? ==>
          OnCpu(k.envs[k.cpus[c].cur.at]))
    && (forall c: nat, d: nat ::
          c < |k.cpus| && d < |k.cpus| && c != d && k.cpus[c].mode != Monitor && k.cpus[c].cur.To? ==>
          k.cpus[c].cur != k.cpus[d].cur)
    && (forall i: nat :: i < NENV && OnCpu(k.envs[i]) ==> exists c: nat :: OnlyOn(k, c, i))
    && (forall c: nat :: c < |k.cpus| ==>
          k.cpus[c].cr3 == KERN_PGDIR || OwnDir(k, c))
  }

  predicate OnlyOn(k: State, c: nat, i: nat) {
    && c < |k.cpus| && k.cpus[c].cur == To(i)
    && forall d: nat :: d < |k.cpus| && k.cpus[d].cur == To(i) ==> d == c
  }

  lemma InvOneCpuEach(k: State)
    requires Inv(k)
    ensures OneCpuEach(k)
  {
    forall c: nat | c < |k.cpus|
      ensures k.cpus[c].cur.To? ==>
                if k.cpus[c].mode == Monitor then !OnCpu(k.envs[k.cpus[c].cur.at])
                else OnCpu(k.envs[k.cpus[c].cur.at]) && k.envs[k.cpus[c].cur.at].cpunum == c
      ensures k.cpus[c].cr3 == KERN_PGDIR || OwnDir(k, c)
    {
      assert CpuOk(k, c);
    }
    forall i: nat | i < NENV && OnCpu(k.envs[i]) ensures exists c: nat :: OnlyOn(k, c, i) {
      assert EnvOk(k, i);
      assert OnlyOn(k, k.envs[i].cpunum, i);
    }
  }

  lemma OneCpuEachAlways(run: seq<State>, acts: seq<Action>, n: nat)
    requires Run(run, acts) && Init(run[0]) && n < |run|
    ensures OneCpuEach(run[n])
  {
    InitInv(run[0]);
    InvAlways(run, acts, n);
    InvOneCpuEach(run[n]);
  }
}
