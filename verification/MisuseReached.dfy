/** Runs from boot that lead to the misuses: a caller that wakes itself, and a child
    destroyed twice while it runs on another CPU. */
module MisuseReached {
  import opened Layout
  import opened EnvIds
  import opened Kernel
  import opened KernelSafety
  import opened Scheduling
  import opened Misuse

  /** Some run leads from k to k'. */
  ghost predicate Reaches(k: State, k': State) {
    exists run: seq<State>, acts: seq<Action> :: Run(run, acts) && run[0] == k && run[|acts|] == k'
  }

  lemma ReachesStep(k0: State, k: State, a: Action)
    requires Reaches(k0, k) && Enabled(k, a)
    ensures Reaches(k0, Next(k, a))
  {
    var run: seq<State>, acts: seq<Action> :| Run(run, acts) && run[0] == k0 && run[|acts|] == k;
    var run', acts' := run + [Next(k, a)], acts + [a];
    forall n: nat | n < |acts'| ensures StepOf(run', acts', n) {
      if n < |acts| {
        assert StepOf(run, acts, n);
      }
    }
    assert Run(run', acts');
  }

  lemma ReachesNext(k0: State, k: State, a: Action)
    requires Reaches(k0, k) && Inv(k) && Enabled(k, a)
    ensures Reaches(k0, Next(k, a)) && Inv(Next(k, a))
  {
    ReachesStep(k0, k, a);
    StepKeeps(k, a);
  }

  /** The table after env_init and one ENV_CREATE, on two processors. */
  function Start(): (k: State)
    ensures |k.envs| == NENV && |k.cpus| == 2
  {
    EnvAlloc(Empty(1), 0, 2).0
  }

  /** The first slot has been allocated, to an environment with directory 2. */
  lemma StartEnvs()
    ensures var e, k := Empty(1), Start();
            && k.envs == e.envs[0 := FreeEnv().(id := NthId(0, 1), status := Runnable, pgdir := 2, allocs := 1)]
            && k.free == e.free[1..] && k.cpus == e.cpus && k.lock == e.lock && !k.panicked
  {
    NthIdClosed(0, 1);
    assert Empty(1).envs[0] == FreeEnv() && Empty(1).free[0] == 0;
  }

  lemma StartFree()
    ensures FreeOk(Start())
  {
    StartEnvs();
    var free := Start().free;
    forall i: nat | i < NENV ensures i in free <==> Start().envs[i].status == Free {
      if i > 0 {
        assert free[i - 1] == i;
      }
    }
  }

  lemma StartInit()
    ensures Init(Start()) && Start().envs[0].status == Runnable
    ensures forall i :: 1 <= i < NENV ==> Start().envs[i].status == Free
  {
    EmptyInit(1);
    StartEnvs();
    StartFree();
  }

  /** Environment 0 is current on CPU 0, environment 1 is its child, if it exists, and
      there are no others. */
  predicate Scene(k: State, m0: Mode, m1: Mode, cur1: Ptr, st1: Status) {
    && Inv(k) && |k.cpus| == 2
    && k.cpus[0].mode == m0 && k.cpus[0].cur == To(0) && k.cpus[1].mode == m1 && k.cpus[1].cur == cur1
    && k.envs[0].status == Running && !k.envs[0].inRecv
    && k.envs[1].status == st1
    && (st1 != Free ==> k.envs[1].parent == k.envs[0].id && !k.envs[1].recving && !k.envs[1].inRecv)
    && (st1 == Free ==> k.free != [] && k.free[0] == 1)
    && (forall i :: 2 <= i < NENV ==> k.envs[i].status == Free)
  }

  lemma FirstPick(s: State)
    requires Inv(s) && s == Start()
    ensures SchedYield(s, 0) == EnvRun(s, 0, 0)
  {
    StartInit();
    ScanFinds(s.envs, 0, 0, 0);
    YieldRuns(s, 0);
  }

  lemma FirstState(s: State)
    requires Inv(s) && s == Start()
    ensures var r := EnvRun(s, 0, 0);
            && r.cpus[0].mode == User && r.cpus[0].cur == To(0)
            && r.cpus[1].mode == Booting && r.cpus[1].cur == NULL
            && r.envs[0].status == Running && !r.envs[0].inRecv && r.free != [] && r.free[0] == 1
            && forall i :: 1 <= i < NENV ==> r.envs[i].status == Free
  {
    StartInit();
    assert s.free[0] == 1;
  }

  /** The boot processor runs environment 0. */
  lemma FirstRun()
    ensures Init(Start()) && Inv(Start()) && Enabled(Start(), DoWork(0, Yield))
    ensures Scene(Next(Start(), DoWork(0, Yield)), User, Booting, NULL, Free)
  {
    var s := Start();
    StartInit();
    InitInv(s);
    FirstPick(s);
    FirstState(s);
    StepKeeps(s, DoWork(0, Yield));
  }

  /** CPU 1 comes up. */
  lemma BothUp() returns (k: State)
    ensures Reaches(Start(), k) && Scene(k, User, Spinning(false, 0), NULL, Free)
  {
    var s := Start();
    FirstRun();
    assert Run([s], []);
    ReachesNext(s, s, DoWork(0, Yield));
    var k1 := Next(s, DoWork(0, Yield));
    ReachesNext(s, k1, DoApStart(1));
    k := Next(k1, DoApStart(1));
  }

  /** A CPU traps and gets the lock. */
  lemma Enters(k0: State, k: State, c: nat) returns (k': State)
    requires Reaches(k0, k) && Inv(k) && c < |k.cpus| && (k.cpus[c].mode == User || k.cpus[c].mode == Halted)
    requires forall d: nat :: d < |k.cpus| ==> !InsideKernel(k.cpus[d])
    ensures Reaches(k0, k') && Inv(k') && k'.envs == k.envs && k'.free == k.free && OnlyMoves(k, k', c)
    ensures k'.cpus[c].mode == InKernel(k.cpus[c].mode == User) && k'.cpus[c].cur == k.cpus[c].cur
  {
    assert CpuOk(k, c);
    ReachesNext(k0, k, DoTrap(c));
    var k1 := Next(k, DoTrap(c));
    ReachesNext(k0, k1, DoTryLock(c));
    k' := Next(k1, DoTryLock(c));
  }

  /** The caller may name itself, by 0, and its child, by its id. */
  lemma MayName(k: State, st: Status)
    requires |k.cpus| == 2 && Scene(k, InKernel(true), k.cpus[1].mode, k.cpus[1].cur, st)
    ensures Names(k, 0, 0, 0)
    ensures st != Free ==> Names(k, 0, k.envs[1].id, 1)
  {
    assert CpuOk(k, 0) && EnvOk(k, 0) && EnvOk(k, 1);
    if st != Free {
      NthIdClosed(1, k.envs[1].allocs);
    }
  }

  /** Environment 0 runs on both CPUs. */
  predicate OnBoth(k: State) {
    |k.cpus| == 2 && k.cpus[0].cur == k.cpus[1].cur == To(0) && k.cpus[0].mode == k.cpus[1].mode == User
  }

  /** If environment 0, trapped on CPU 0, sets itself runnable, the invariant is lost,
      and CPU 1 runs it too when it next looks for work. */
  predicate SelfWakeMisleads(k: State) {
    && Names(k, 0, 0, 0) && |k.cpus| == 2 && k.cpus[1].mode == Spinning(false, 0)
    && var r := Work(k, 0, SetStatus(0, Runnable));
       !Inv(r) && OnBoth(SchedYield(TryLock(r, 1), 1))
  }

  lemma SelfWakeTwice(k: State)
    requires Scene(k, InKernel(true), Spinning(false, 0), NULL, Free)
    ensures SelfWakeMisleads(k)
  {
    MayName(k, Free);
    SetStatusSoundIff(k, 0, 0, 0, Runnable);
    SelfWakeRunsTwice(k, 0, 0, 0, 1);
  }

  /** Environment 0 has trapped, and CPU 1 is waiting for the lock. */
  lemma Inside() returns (k: State)
    ensures Reaches(Start(), k) && Scene(k, InKernel(true), Spinning(false, 0), NULL, Free)
  {
    var k1 := BothUp();
    k := Enters(Start(), k1, 0);
    assert k.envs == k1.envs && k.cpus[1] == k1.cpus[1];
  }

  /** A run from boot to the self-wake. */
  lemma SelfWakeReached() returns (k: State)
    ensures Init(Start()) && Reaches(Start(), k) && SelfWakeMisleads(k)
  {
    StartInit();
    k := Inside();
    SelfWakeTwice(k);
  }

  // ------------------------------------------------------- destroying a child twice

  /** A call of environment 0 that returns to it. */
  lemma Back(k: State, d: State)
    requires Inv(k) && Trapped(k, 0) && k.cpus[0].cur == To(0) && OnlyMoves(k, d, 0) && d.cpus[0] == k.cpus[0]
    requires d.envs[0].status == Running
    ensures var r := Finish(d, 0);
            && r.cpus[0].mode == User && r.cpus[0].cur == To(0) && r.free == d.free
            && r.envs[0] == d.envs[0].(cpunum := 0)
            && forall i :: 1 <= i < NENV ==> r.envs[i] == d.envs[i]
  {
    assert Finish(d, 0) == EnvRun(d, 0, 0);
  }

  /** A step of environment 0 from inside the kernel: it returns, and only the child
      may have changed. */
  lemma CallScene(k: State, op: Op, m1: Mode, cur1: Ptr, st1: Status, st2: Status)
    requires Scene(k, InKernel(true), m1, cur1, st1) && Enabled(k, DoWork(0, op)) && st2 != Free
    requires var d := Dispatch(k, 0, op);
             && d.cpus == k.cpus && d.envs[0].status == Running && !d.envs[0].inRecv && d.envs[0].id == k.envs[0].id
             && d.envs[1].status == st2 && d.envs[1].parent == k.envs[0].id && !d.envs[1].recving && !d.envs[1].inRecv
             && forall i :: 2 <= i < NENV ==> d.envs[i] == k.envs[i]
    ensures Scene(Next(k, DoWork(0, op)), User, m1, cur1, st2)
  {
    StepKeeps(k, DoWork(0, op));
    Back(k, Dispatch(k, 0, op));
  }

  lemma Forks(k: State) returns (op: Op)
    requires Scene(k, InKernel(true), Spinning(false, 0), NULL, Free)
    ensures Enabled(k, DoWork(0, op))
    ensures Scene(Next(k, DoWork(0, op)), User, Spinning(false, 0), NULL, NotRunnable)
  {
    op := Exofork(if k.envs[0].pgdir == 2 then 3 else 2);
    CallScene(k, op, Spinning(false, 0), NULL, Free, NotRunnable);
  }

  lemma WakesChild(k: State) returns (op: Op)
    requires Scene(k, InKernel(true), Spinning(false, 0), NULL, NotRunnable)
    ensures Enabled(k, DoWork(0, op))
    ensures Scene(Next(k, DoWork(0, op)), User, Spinning(false, 0), NULL, Runnable)
  {
    op := SetStatus(k.envs[1].id, Runnable);
    MayName(k, NotRunnable);
    CallScene(k, op, Spinning(false, 0), NULL, NotRunnable, Runnable);
  }

  lemma DestroysChild(k: State) returns (op: Op)
    requires Scene(k, InKernel(true), User, To(1), Running)
    ensures Enabled(k, DoWork(0, op)) && op == Destroy(k.envs[1].id)
    ensures Scene(Next(k, DoWork(0, op)), User, User, To(1), Dying)
  {
    op := Destroy(k.envs[1].id);
    MayName(k, Running);
    CallScene(k, op, User, To(1), Running, Dying);
  }

  /** CPU 1 has the lock and takes the child. */
  lemma RunsChild(k: State)
    requires Scene(k, User, InKernel(false), NULL, Runnable)
    ensures Enabled(k, DoWork(1, Yield)) && Scene(Next(k, DoWork(1, Yield)), User, User, To(1), Running)
  {
    StepKeeps(k, DoWork(1, Yield));
    ScanFinds(k.envs, 0, 0, 1);
    YieldTakes(k, 1);
    YieldRuns(k, 1);
  }

  /** The lock is free when no CPU is in the kernel. */
  lemma LockFree(k: State)
    requires Inv(k) && forall d: nat :: d < |k.cpus| ==> !InsideKernel(k.cpus[d])
    ensures !k.lock.locked
  {
  }

  lemma GetsLock(k: State, st1: Status)
    requires Scene(k, User, Spinning(false, 0), NULL, st1)
    ensures Scene(Next(k, DoTryLock(1)), User, InKernel(false), NULL, st1)
  {
    LockFree(k);
    StepKeeps(k, DoTryLock(1));
  }

  lemma TrapScene(k0: State, k: State, m1: Mode, cur1: Ptr, st1: Status) returns (k': State)
    requires Reaches(k0, k) && Scene(k, User, m1, cur1, st1) && (m1 == User || m1.Spinning?)
    ensures Reaches(k0, k') && Scene(k', InKernel(true), m1, cur1, st1)
  {
    k' := Enters(k0, k, 0);
    assert k'.envs == k.envs && k'.cpus[1] == k.cpus[1];
  }

  /** The child runs on CPU 1. */
  lemma ChildRuns() returns (k: State)
    ensures Reaches(Start(), k) && Scene(k, User, User, To(1), Running)
  {
    k := Inside();
    var op := Forks(k);
    ReachesNext(Start(), k, DoWork(0, op));
    k := TrapScene(Start(), Next(k, DoWork(0, op)), Spinning(false, 0), NULL, NotRunnable);
    op := WakesChild(k);
    ReachesNext(Start(), k, DoWork(0, op));
    k := Next(k, DoWork(0, op));
    GetsLock(k, Runnable);
    ReachesNext(Start(), k, DoTryLock(1));
    k := Next(k, DoTryLock(1));
    RunsChild(k);
    ReachesNext(Start(), k, DoWork(1, Yield));
    k := Next(k, DoWork(1, Yield));
  }

  /** Environment 0, trapped on CPU 0, may name its child, which CPU 1 still runs and
      which is dying; destroying it once more loses the invariant. */
  predicate SecondDestroyBreaks(k: State) {
    && Inv(k) && |k.cpus| == 2 && k.cpus[1].cur == To(1) && k.envs[1].status == Dying
    && Names(k, 0, k.envs[1].id, 1) && !Inv(Work(k, 0, Destroy(k.envs[1].id)))
  }

  lemma SecondDestroy(k: State)
    requires Scene(k, InKernel(true), User, To(1), Dying)
    ensures SecondDestroyBreaks(k)
  {
    MayName(k, Dying);
    DestroySoundIff(k, 0, k.envs[1].id, 1);
  }

  /** A run from boot to the second destroy. */
  lemma DestroyTwiceReached() returns (k: State)
    ensures Init(Start()) && Reaches(Start(), k) && SecondDestroyBreaks(k)
  {
    StartInit();
    k := ChildRuns();
    k := TrapScene(Start(), k, User, To(1), Running);
    var op := DestroysChild(k);
    ReachesNext(Start(), k, DoWork(0, op));
    k := TrapScene(Start(), Next(k, DoWork(0, op)), User, To(1), Dying);
    SecondDestroy(k);
  }
}
