/** A run from boot in which a child that waits in a receive is woken by
    sys_env_set_status, and a message sent to it while it runs makes a second CPU
    take it. */
module WokenReceiver {
  import opened Layout
  import opened EnvIds
  import opened Kernel
  import opened KernelSafety
  import opened Scheduling
  import opened Misuse
  import opened MisuseReached

  /** Environment 0 on CPU 0, its child 1 with the given status, receiving or not, and
      no other environment; the lock is held by the CPU that is in the kernel. */
  predicate Stage(k: State, m0: Mode, m1: Mode, cur1: Ptr, st1: Status, recv: bool) {
    && Sized(k) && |k.cpus| == 2
    && k.cpus[0].mode == m0 && k.cpus[0].cur == To(0) && !k.cpus[0].halted
    && k.cpus[1].mode == m1 && k.cpus[1].cur == cur1 && (k.cpus[1].halted <==> m1 == Halted)
    && k.lock == (if m0.InKernel? then Lock(true, To(0)) else if m1.InKernel? then Lock(true, To(1)) else k.lock)
    && (k.lock.locked ==> m0.InKernel? || m1.InKernel?)
    && k.envs[0].status == Running && !k.envs[0].inRecv && EnvX(k.envs[0].id) == 0
    && k.envs[1].status == st1 && k.envs[1].parent == k.envs[0].id && k.envs[1].recving == recv
    && k.envs[1].id > 0 && EnvX(k.envs[1].id) == 1
    && forall i :: 2 <= i < NENV ==> k.envs[i].status == Free
  }

  // ------------------------------------------------- steps that need no invariant

  /** CPU 0 traps and gets the lock. */
  lemma ParentEnters(k: State, m1: Mode, cur1: Ptr, st1: Status, recv: bool)
    requires Stage(k, User, m1, cur1, st1, recv) && !m1.InKernel?
    ensures Stage(TryLock(Trap(k, 0), 0), InKernel(true), m1, cur1, st1, recv)
  {
  }

  /** A call of environment 0 that returns to it. */
  lemma ParentReturns(k: State, op: Op, m1: Mode, cur1: Ptr, st1: Status, recv: bool, st2: Status, recv2: bool)
    requires Stage(k, InKernel(true), m1, cur1, st1, recv) && !m1.InKernel?
    requires var d := Dispatch(k, 0, op);
             && d.cpus == k.cpus && d.lock == k.lock && d.envs[0].status == Running && !d.envs[0].inRecv
             && d.envs[0].id == k.envs[0].id && d.envs[1].id == k.envs[1].id && d.envs[1].parent == k.envs[0].id
             && d.envs[1].status == st2 && d.envs[1].recving == recv2
             && forall i :: 2 <= i < NENV ==> d.envs[i] == k.envs[i]
    ensures Stage(Work(k, 0, op), User, m1, cur1, st2, recv2)
  {
    var d := Dispatch(k, 0, op);
    assert Finish(d, 0) == EnvRun(d, 0, 0);
  }

  lemma Wakes(k: State, m1: Mode, cur1: Ptr)
    requires Stage(k, InKernel(true), m1, cur1, NotRunnable, true) && !m1.InKernel?
    ensures Stage(Work(k, 0, SetStatus(k.envs[1].id, Runnable)), User, m1, cur1, Runnable, true)
  {
    ParentReturns(k, SetStatus(k.envs[1].id, Runnable), m1, cur1, NotRunnable, true, Runnable, true);
  }

  /** A send without a page. */
  function SendTo(k: State): Op
    requires Sized(k)
  {
    TrySend(k.envs[1].id, 7, UTOP, false, false, PageFate(false, false, false))
  }

  lemma Sends(k: State)
    requires Stage(k, InKernel(true), User, To(1), Running, true)
    ensures Stage(Work(k, 0, SendTo(k)), User, User, To(1), Runnable, false)
  {
    ParentReturns(k, SendTo(k), User, To(1), Running, true, Runnable, false);
  }

  /** CPU 1 leaves its halt, gets the lock and takes the child. */
  lemma HaltedEnters(k: State)
    requires Stage(k, User, Halted, NULL, Runnable, true)
    ensures Stage(TryLock(Trap(k, 1), 1), User, InKernel(false), NULL, Runnable, true)
  {
  }

  lemma TakesChild(k: State)
    requires Stage(k, User, InKernel(false), NULL, Runnable, true)
    ensures Stage(Work(k, 1, Yield), User, User, To(1), Running, true)
  {
    ScanFinds(k.envs, 0, 0, 1);
    YieldTakes(k, 1);
    YieldRuns(k, 1);
  }

  /** CPU 0 yields, and takes the child that CPU 1 is running. */
  lemma YieldsToChild(k: State)
    requires Stage(k, InKernel(true), User, To(1), Runnable, false)
    ensures var r := Work(k, 0, Yield);
            r.cpus[0].mode == r.cpus[1].mode == User && r.cpus[0].cur == r.cpus[1].cur == To(1)
  {
    assert ScanStart(k, 0) == 0;
    ScanFinds(k.envs, 0, 0, 1);
    YieldTakes(k, 0);
    YieldRuns(k, 0);
  }

  // ------------------------------------------------------------------ the whole run

  /** The child on CPU 1 calls receive, and CPU 1 halts. */
  lemma Sleeps(k: State)
    requires Inv(k) && Stage(k, User, InKernel(true), To(1), Running, false) && !k.envs[1].inRecv
    ensures Enabled(k, DoWork(1, Recv(UTOP)))
    ensures Stage(Next(k, DoWork(1, Recv(UTOP))), User, Halted, NULL, NotRunnable, true)
  {
    MaySleep(k);
    SleepWork(k, 1, UTOP);
    SleeperHalts(k);
    HaltedStage(k);
  }

  lemma MaySleep(k: State)
    requires Inv(k) && Stage(k, User, InKernel(true), To(1), Running, false) && !k.envs[1].inRecv
    ensures Enabled(k, DoWork(1, Recv(UTOP))) && Trapped(k, 1)
  {
    assert CpuOk(k, 1);
  }

  lemma SleeperHalts(k: State)
    requires Inv(k) && Stage(k, User, InKernel(true), To(1), Running, false)
    ensures var s := Asleep(k, 1, UTOP); SchedYield(s, 1) == SchedHalt(s, 1)
  {
    var s := Asleep(k, 1, UTOP);
    assert Pick(s.envs, ScanStart(s, 1), NENV).NULL?;
    assert s.envs[0].status == Running;
  }

  lemma HaltedStage(k: State)
    requires Inv(k) && Stage(k, User, InKernel(true), To(1), Running, false)
    ensures Stage(SchedHalt(Asleep(k, 1, UTOP), 1), User, Halted, NULL, NotRunnable, true)
  {
    var s := Asleep(k, 1, UTOP);
    assert s.envs[0].status == Running;
  }

  lemma AsStage(k: State, m1: Mode, cur1: Ptr, st1: Status)
    requires Scene(k, User, m1, cur1, st1) && st1 != Free && m1 != Monitor
    ensures Stage(k, User, m1, cur1, st1, false)
  {
    assert CpuOk(k, 0) && CpuOk(k, 1) && EnvOk(k, 0) && EnvOk(k, 1);
    NthIdClosed(0, k.envs[0].allocs);
    NthIdClosed(1, k.envs[1].allocs);
  }

  lemma ChildSleeps() returns (k: State)
    ensures Reaches(Start(), k) && Inv(k) && Stage(k, User, Halted, NULL, NotRunnable, true)
  {
    k := ChildRuns();
    AsStage(k, User, To(1), Running);
    ReachesNext(Start(), k, DoTrap(1));
    k := Next(k, DoTrap(1));
    ReachesNext(Start(), k, DoTryLock(1));
    k := Next(k, DoTryLock(1));
    Sleeps(k);
    ReachesNext(Start(), k, DoWork(1, Recv(UTOP)));
    k := Next(k, DoWork(1, Recv(UTOP)));
  }

  /** The parent is about to wake its child, which waits in a receive. */
  lemma AboutToWake() returns (k: State)
    ensures Reaches(Start(), k) && Stage(k, InKernel(true), Halted, NULL, NotRunnable, true)
    ensures Names(k, 0, k.envs[1].id, 1)
  {
    k := ChildSleeps();
    ParentEnters(k, Halted, NULL, NotRunnable, true);
    ReachesNext(Start(), k, DoTrap(0));
    k := Next(k, DoTrap(0));
    ReachesNext(Start(), k, DoTryLock(0));
    k := Next(k, DoTryLock(0));
  }

  /** From the wake-up on: CPU 1 runs the child, and the parent traps and sends. */
  lemma RunsOn(w: State) returns (k: State)
    requires Stage(w, User, Halted, NULL, Runnable, true)
    ensures Reaches(w, k) && Stage(k, User, User, To(1), Runnable, false)
  {
    assert Run([w], []);
    HaltedEnters(w);
    ReachesStep(w, w, DoTrap(1));
    ReachesStep(w, Trap(w, 1), DoTryLock(1));
    k := TryLock(Trap(w, 1), 1);
    TakesChild(k);
    ReachesStep(w, k, DoWork(1, Yield));
    k := Work(k, 1, Yield);
    ParentEnters(k, User, To(1), Running, true);
    ReachesStep(w, k, DoTrap(0));
    ReachesStep(w, Trap(k, 0), DoTryLock(0));
    k := TryLock(Trap(k, 0), 0);
    Sends(k);
    ReachesStep(w, k, DoWork(0, SendTo(k)));
    k := Work(k, 0, SendTo(k));
  }

  /** The parent's next yield. */
  lemma BothRun(w: State, k: State) returns (r: State)
    requires Reaches(w, k) && Stage(k, User, User, To(1), Runnable, false)
    ensures Reaches(w, r) && |r.cpus| == 2
    ensures r.cpus[0].mode == r.cpus[1].mode == User && r.cpus[0].cur == r.cpus[1].cur == To(1)
  {
    ParentEnters(k, User, To(1), Runnable, false);
    ReachesStep(w, k, DoTrap(0));
    ReachesStep(w, Trap(k, 0), DoTryLock(0));
    var x := TryLock(Trap(k, 0), 0);
    YieldsToChild(x);
    ReachesStep(w, x, DoWork(0, Yield));
    r := Work(x, 0, Yield);
  }

  /** The parent, trapped on CPU 0, may name its child, which waits in a receive; when
      it sets the child runnable, a run leads on to r, where both CPUs run the child. */
  ghost predicate WakeMisleads(k: State, r: State) {
    && Sized(k) && Names(k, 0, k.envs[1].id, 1) && k.envs[1].recving
    && Reaches(Work(k, 0, SetStatus(k.envs[1].id, Runnable)), r)
    && |r.cpus| == 2 && r.cpus[0].mode == r.cpus[1].mode == User && r.cpus[0].cur == r.cpus[1].cur == To(1)
  }

  lemma WakeLeadsOn(k: State) returns (r: State)
    requires Stage(k, InKernel(true), Halted, NULL, NotRunnable, true) && Names(k, 0, k.envs[1].id, 1)
    ensures WakeMisleads(k, r)
  {
    Wakes(k, Halted, NULL);
    var w := Work(k, 0, SetStatus(k.envs[1].id, Runnable));
    r := RunsOn(w);
    r := BothRun(w, r);
  }

  /** A run from boot to the wake-up of a receiver, and a run from there on, without
      any further misuse, to the receiver on two CPUs. */
  lemma WokenReceiverReached() returns (k: State, r: State)
    ensures Init(Start()) && Reaches(Start(), k) && WakeMisleads(k, r)
  {
    StartInit();
    k := AboutToWake();
    r := WakeLeadsOn(k);
  }
}
