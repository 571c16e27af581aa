/** The scheduler: which environment sched_yield picks, how long a runnable one
    can be passed over, and when a CPU goes to sleep. */
module Scheduling {
  import opened Layout
  import opened EnvIds
  import opened Kernel
  import opened KernelSafety

  /** How many slots after `from` slot t comes, going round the table. */
  function Distance(from: nat, t: nat): (d: nat)
    requires from < NENV && t < NENV
    ensures d < NENV && Wrap(from + d) == t
  {
    if t >= from then t - from else t + NENV - from
  }

  /** The scan misses no runnable slot: none is nearer to its start than the pick. */
  lemma {:induction false} ScanFinds(envs: seq<Env>, from: nat, d: nat, t: nat)
    requires |envs| == NENV && from < NENV && t < NENV && envs[t].status == Runnable
    requires d <= Distance(from, t)
    ensures var p := Pick(envs, from + d, NENV - d);
            p.To? && d <= Distance(from, p.at) <= Distance(from, t)
    decreases NENV - d
  {
    if envs[Wrap(from + d)].status != Runnable {
      assert d != Distance(from, t);
      ScanFinds(envs, from, d + 1, t);
    } else {
      assert Distance(from, Wrap(from + d)) == d;
    }
  }

  lemma StartsAtCur(k: State, c: nat)
    requires Base(k) && c < |k.cpus| && DirOk(k, c) && k.cpus[c].cur.To?
    ensures ScanStart(k, c) == k.cpus[c].cur.at
  {
    var i := k.cpus[c].cur.at;
    assert EnvOk(k, i);
    NthIdClosed(i, k.envs[i].allocs);
  }

  lemma RunTakes(k: State, c: nat, i: nat)
    requires Here(k, c) && i < NENV
    ensures EnvRun(k, c, i).cpus[c].mode == User && EnvRun(k, c, i).cpus[c].cur == To(i)
  {
  }

  lemma MidFacts(k: State, c: nat)
    requires Mid(k, c)
    ensures Here(k, c)
    ensures k.cpus[c].cur.To? ==>
              k.envs[k.cpus[c].cur.at].status != Runnable && ScanStart(k, c) == k.cpus[c].cur.at
  {
    if k.cpus[c].cur.To? {
      StartsAtCur(k, c);
    }
  }

  lemma YieldRuns(k: State, c: nat)
    requires Here(k, c) && Pick(k.envs, ScanStart(k, c), NENV).To?
    ensures SchedYield(k, c) == EnvRun(k, c, Pick(k.envs, ScanStart(k, c), NENV).at)
  {
  }

  /** sched_yield switches to the nearest runnable environment after the current
      one, or after slot 0 without one, if there is any. */
  lemma YieldPicksNearest(k: State, c: nat, t: nat)
    requires Mid(k, c) && Here(k, c) && t < NENV && k.envs[t].status == Runnable
    ensures var p := SchedYield(k, c).cpus[c];
            var start := if k.cpus[c].cur.To? then k.cpus[c].cur.at else 0;
            && p.mode == User && p.cur.To? && p.cur.at < NENV && p.cur != k.cpus[c].cur
            && k.envs[p.cur.at].status == Runnable
            && Distance(start, p.cur.at) <= Distance(start, t)
  {
    MidFacts(k, c);
    NearestOf(k, c, t);
  }

  lemma NearestOf(k: State, c: nat, t: nat)
    requires Here(k, c) && t < NENV && k.envs[t].status == Runnable
    ensures var q := Pick(k.envs, ScanStart(k, c), NENV);
            && q.To? && q.at < NENV && k.envs[q.at].status == Runnable
            && Distance(ScanStart(k, c), q.at) <= Distance(ScanStart(k, c), t)
            && SchedYield(k, c).cpus[c].mode == User && SchedYield(k, c).cpus[c].cur == q
  {
    ScanFinds(k.envs, ScanStart(k, c), 0, t);
    var q := Pick(k.envs, ScanStart(k, c), NENV);
    assert SchedYield(k, c).cpus[c].mode == User && SchedYield(k, c).cpus[c].cur == q by {
      YieldTakes(k, c);
    }
  }

  lemma YieldTakes(k: State, c: nat)
    requires Here(k, c) && Pick(k.envs, ScanStart(k, c), NENV).To?
    ensures SchedYield(k, c).cpus[c].mode == User
    ensures SchedYield(k, c).cpus[c].cur == Pick(k.envs, ScanStart(k, c), NENV)
  {
    YieldRuns(k, c);
    RunTakes(k, c, Pick(k.envs, ScanStart(k, c), NENV).at);
  }

  /** A CPU out of the kernel, asleep only if there is nothing to run. */
  predicate Ended(k: State, c: nat)
    requires Here(k, c)
  {
    match k.cpus[c].mode
    case User => true
    case Halted => forall i :: 0 <= i < NENV ==> k.envs[i].status != Runnable
    case Monitor => !AnyLeft(k)
    case _ => false
  }

  lemma YieldEnds(k: State, c: nat)
    requires Here(k, c)
    ensures Ended(SchedYield(k, c), c)
  {
    var start := ScanStart(k, c);
    if Pick(k.envs, start, NENV).NULL? {
      forall t: nat | t < NENV ensures k.envs[t].status != Runnable {
        if k.envs[t].status == Runnable {
          ScanFinds(k.envs, start, 0, t);
        }
      }
    }
  }

  lemma DestroyEnds(k: State, c: nat, i: nat)
    requires Here(k, c) && i < NENV && k.cpus[c].mode.InKernel?
    ensures Returned(EnvDestroy(k, c, i), c) || Ended(EnvDestroy(k, c, i), c)
  {
    if k.cpus[c].cur == To(i) {
      YieldEnds(NoCur(EnvFree(k, c, i), c), c);
    }
  }

  lemma DispatchEnds(k: State, c: nat, op: Op)
    requires Here(k, c) && k.cpus[c].cur.To? && k.cpus[c].mode.InKernel?
    ensures Returned(Dispatch(k, c, op), c) || Ended(Dispatch(k, c, op), c)
  {
    var i := k.cpus[c].cur.at;
    match op
    case Yield => YieldEnds(k, c);
    case Fault => DestroyEnds(k, c, i);
    case Destroy(envid) =>
      if Envid2Env(k, c, envid, true).Found? {
        DestroyEnds(k, c, Envid2Env(k, c, envid, true).i);
      }
    case Recv(dstva) =>
      YieldEnds(Asleep(k, c, dstva), c);
    case _ =>
  }

  /** A CPU leaves the kernel running an environment, or halts because no
      environment is runnable, or stops for good because none is left at all. */
  lemma HaltsOnlyWhenIdle(k: State, c: nat, op: Op)
    requires Inv(k) && Enabled(k, DoWork(c, op))
    ensures Ended(Work(k, c, op), c)
  {
    assert CpuOk(k, c);
    if !k.cpus[c].mode.user {
      YieldEnds(k, c);
    } else if k.envs[k.cpus[c].cur.at].status == Dying {
      YieldEnds(NoCur(EnvFree(k, c, k.cpus[c].cur.at), c), c);
    } else {
      var d := Dispatch(k, c, op);
      DispatchEnds(k, c, op);
      if Returned(d, c) && !CurRunning(d, c) {
        YieldEnds(d, c);
      }
    }
  }

  // -------------------------------------------------------------- bounded waiting

  /** The CPU keeps a current environment up to the yield, if there is one. */
  predicate KeepsCur(k: State, c: nat, op: Op)
    requires Here(k, c)
  {
    && Trapped(k, c) && op != Fault
    && (op.Destroy? && Envid2Env(k, c, op.envid, true).Found? ==> Envid2Env(k, c, op.envid, true).i != k.cpus[c].cur.at)
  }

  predicate Nearer(p: Ptr, q: Ptr, t: nat)
    requires t < NENV
  {
    p.To? && p.at < NENV && q.To? && q.at < NENV && q.at != t && Distance(q.at, t) < Distance(p.at, t)
  }

  /** A yield that passes over t moves the CPU nearer to t. */
  lemma YieldNearer(k: State, c: nat, t: nat)
    requires Mid(k, c) && Here(k, c) && k.cpus[c].cur.To? && t < NENV && k.envs[t].status == Runnable
    requires SchedYield(k, c).envs[t].status == Runnable
    ensures Nearer(k.cpus[c].cur, SchedYield(k, c).cpus[c].cur, t)
  {
    MidFacts(k, c);
    NearestOf(k, c, t);
    YieldRuns(k, c);
    RunWakes(k, c, Pick(k.envs, ScanStart(k, c), NENV).at);
  }

  lemma RunWakes(k: State, c: nat, i: nat)
    requires Here(k, c) && i < NENV && k.cpus[c].cur != To(i)
    ensures EnvRun(k, c, i).envs[i].status == Running
  {
  }

  /** These calls come back to their caller. */
  lemma ComesBack(k: State, c: nat, op: Op)
    requires Inv(k) && Enabled(k, DoWork(c, op)) && KeepsCur(k, c, op)
    requires op.Resume? || op.Destroy? || op.Exofork? || op.TrySend?
    ensures Work(k, c, op).cpus[c].cur == k.cpus[c].cur
  {
    var d := Dispatch(k, c, op);
    DispatchStays(k, c, op);
    assert Finish(d, c) == EnvRun(d, c, k.cpus[c].cur.at);
    RunTakes(d, c, k.cpus[c].cur.at);
  }

  lemma DispatchStays(k: State, c: nat, op: Op)
    requires Inv(k) && Enabled(k, DoWork(c, op)) && KeepsCur(k, c, op)
    requires op.Resume? || op.Destroy? || op.Exofork? || op.TrySend?
    ensures Dispatch(k, c, op).cpus[c] == k.cpus[c] && CurRunning(Dispatch(k, c, op), c)
  {
    var i := k.cpus[c].cur.at;
    assert EnvOk(k, i);
    assert op.TrySend? && Envid2Env(k, c, op.envid, false).Found? &&
           k.envs[Envid2Env(k, c, op.envid, false).i].recving ==>
      EnvOk(k, Envid2Env(k, c, op.envid, false).i);
    assert k.free != [] ==> k.free[0] in k.free;
  }

  lemma TurnNearer(k: State, c: nat, op: Op, t: nat)
    requires Inv(k) && Enabled(k, DoWork(c, op)) && KeepsCur(k, c, op)
    requires t < NENV && k.envs[t].status == Runnable && Work(k, c, op).envs[t].status == Runnable
    ensures var p, q := k.cpus[c].cur, Work(k, c, op).cpus[c].cur;
            q == p || Nearer(p, q, t)
  {
    match op
    case Yield =>
      TrappedMid(k, c);
      YieldNearer(k, c, t);
    case Recv(dstva) => RecvNearer(k, c, dstva, t);
    case SetStatus(envid, status) => StatusNearer(k, c, envid, status, t);
    case _ => ComesBack(k, c, op);
  }

  lemma RecvNearer(k: State, c: nat, dstva: nat, t: nat)
    requires Inv(k) && Enabled(k, DoWork(c, Recv(dstva))) && Trapped(k, c)
    requires t < NENV && k.envs[t].status == Runnable && Work(k, c, Recv(dstva)).envs[t].status == Runnable
    ensures var p, q := k.cpus[c].cur, Work(k, c, Recv(dstva)).cpus[c].cur;
            q == p || Nearer(p, q, t)
  {
    TrappedMid(k, c);
    if dstva < UTOP && PGOFF(dstva) != 0 {
      BadRecvStays(k, c, dstva);
    } else {
      RecvKeeps(k, c, k.cpus[c].cur.at, dstva);
      SleepWork(k, c, dstva);
      YieldNearer(Asleep(k, c, dstva), c, t);
    }
  }

  lemma BadRecvStays(k: State, c: nat, dstva: nat)
    requires Trapped(k, c) && dstva < UTOP && PGOFF(dstva) != 0
    ensures Work(k, c, Recv(dstva)).cpus[c].cur == k.cpus[c].cur
  {
    var d := Dispatch(k, c, Recv(dstva));
    assert d == SetEax(k, k.cpus[c].cur.at, Code(Inval));
    assert Finish(d, c) == EnvRun(d, c, k.cpus[c].cur.at);
  }

  lemma SleepWork(k: State, c: nat, dstva: nat)
    requires Trapped(k, c) && !(dstva < UTOP && PGOFF(dstva) != 0)
    ensures Work(k, c, Recv(dstva)) == SchedYield(Asleep(k, c, dstva), c)
  {
    SleepYields(k, c, dstva);
  }

  lemma StatusNearer(k: State, c: nat, envid: nat, status: Status, t: nat)
    requires Inv(k) && Enabled(k, DoWork(c, SetStatus(envid, status))) && Trapped(k, c)
    requires t < NENV && k.envs[t].status == Runnable && Work(k, c, SetStatus(envid, status)).envs[t].status == Runnable
    ensures var p, q := k.cpus[c].cur, Work(k, c, SetStatus(envid, status)).cpus[c].cur;
            q == p || Nearer(p, q, t)
  {
    var d := Dispatch(k, c, SetStatus(envid, status));
    StatusDispatch(k, c, envid, status);
    if !CurRunning(d, c) {
      YieldNearer(d, c, t);
    }
  }

  /** t waits during step n, and CPU c does not lose its current environment. */
  predicate Waits(run: seq<State>, acts: seq<Action>, n: nat, c: nat, t: nat)
    requires n < |acts| && |run| == |acts| + 1
  {
    && StepOf(run, acts, n) && Inv(run[n]) && Here(run[n], c) && Here(run[n + 1], c)
    && t < NENV && run[n].envs[t].status == Runnable && run[n + 1].envs[t].status == Runnable
    && run[n].cpus[c].cur.To?
    && (acts[n].DoWork? && acts[n].c == c ==> KeepsCur(run[n], c, acts[n].op))
  }

  predicate Approaches(run: seq<State>, n: nat, c: nat, t: nat)
    requires n + 1 < |run| && t < NENV && c < |run[n].cpus| && c < |run[n + 1].cpus|
  {
    run[n + 1].cpus[c].cur == run[n].cpus[c].cur || Nearer(run[n].cpus[c].cur, run[n + 1].cpus[c].cur, t)
  }

  lemma WaitStep(run: seq<State>, acts: seq<Action>, n: nat, c: nat, t: nat)
    requires n < |acts| && |run| == |acts| + 1 && Waits(run, acts, n, c, t)
    ensures Approaches(run, n, c, t)
  {
    if acts[n].DoWork? && acts[n].c == c {
      TurnNearer(run[n], c, acts[n].op, t);
    }
  }

  predicate OnAll(run: seq<State>, c: nat) {
    forall m :: 0 <= m < |run| ==> c < |run[m].cpus|
  }

  /** How often CPU c has switched to another environment in the first n steps. */
  function Picks(run: seq<State>, c: nat, n: nat): nat
    requires n < |run| && OnAll(run, c)
  {
    if n == 0 then 0
    else Picks(run, c, n - 1) + if run[n].cpus[c].cur != run[n - 1].cpus[c].cur then 1 else 0
  }

  /** Each pick that passes over t brings CPU c nearer to it. */
  lemma {:induction false} PicksApproach(run: seq<State>, n: nat, c: nat, t: nat)
    requires n < |run| && OnAll(run, c)
    requires t < NENV && run[0].cpus[c].cur.To? && run[0].cpus[c].cur.at < NENV && run[0].cpus[c].cur.at != t
    requires forall m: nat :: m < n ==> Approaches(run, m, c, t)
    ensures run[n].cpus[c].cur.To? && run[n].cpus[c].cur.at < NENV && run[n].cpus[c].cur.at != t
    ensures Picks(run, c, n) + Distance(run[n].cpus[c].cur.at, t) <= Distance(run[0].cpus[c].cur.at, t)
    decreases n
  {
    if n > 0 {
      PicksApproach(run, n - 1, c, t);
      assert Approaches(run, n - 1, c, t);
    }
  }

  /** An environment that stays runnable is passed over by at most NENV - 2 picks
      in a row of a CPU that always has a current environment: it is picked by the
      (NENV - 1)-st at the latest. */
  lemma BoundedWaiting(run: seq<State>, acts: seq<Action>, c: nat, t: nat)
    requires |run| == |acts| + 1 && |acts| > 0 && OnAll(run, c) && t < NENV
    requires forall m: nat :: m < |acts| ==> Waits(run, acts, m, c, t)
    requires run[0].cpus[c].mode != Monitor
    ensures Picks(run, c, |acts|) <= NENV - 2
  {
    forall m: nat | m < |acts| ensures Approaches(run, m, c, t) {
      assert Waits(run, acts, m, c, t);
      WaitStep(run, acts, m, c, t);
    }
    assert Waits(run, acts, 0, c, t);
    assert CpuOk(run[0], c);
    PicksApproach(run, |acts|, c, t);
  }
}
