/** The two system calls that can break the scheduler: exactly when
    sys_env_set_status and sys_env_destroy keep it sound. */
module Misuse {
  import opened Layout
  import opened EnvIds
  import opened Kernel
  import opened KernelSafety
  import opened Scheduling

  /** A trapped caller that names an environment it may name. */
  predicate Names(k: State, c: nat, envid: nat, i: nat) {
    && Inv(k) && Trapped(k, c)
    && Envid2Env(k, c, envid, true) == Found(i)
  }

  /** While a CPU is at work no other is in the monitor. */
  lemma NoMonitor(k: State, c: nat)
    requires Inv(k) && c < |k.cpus| && k.cpus[c].mode.InKernel?
    ensures forall d: nat :: d < |k.cpus| ==> k.cpus[d].mode != Monitor
  {
    forall d: nat | d < |k.cpus| ensures k.cpus[d].mode != Monitor {
      assert InsideKernel(k.cpus[c]) && Holding(k, c);
      assert InsideKernel(k.cpus[d]) ==> Holding(k, d);
    }
  }

  /** The CPU resumes its caller after a call that left it running. */
  lemma Resumes(k: State, c: nat, d: State)
    requires Inv(k) && Trapped(k, c) && OnlyMoves(k, d, c) && d.cpus[c] == k.cpus[c] && CurRunning(d, c)
    ensures var r := Finish(d, c);
            && (forall i :: 0 <= i < NENV && k.cpus[c].cur != To(i) ==> r.envs[i] == d.envs[i])
            && (forall e: nat :: e < |k.cpus| ==> r.cpus[e].cur == k.cpus[e].cur && r.cpus[e].mode != Monitor)
  {
    NoMonitor(k, c);
    assert Finish(d, c) == EnvRun(d, c, k.cpus[c].cur.at);
  }

  /** Waking oneself: the scan starts at the caller's own slot, finds it runnable,
      and env_run leaves it so while it runs. */
  lemma WakesItself(k: State, c: nat, envid: nat, i: nat)
    requires Names(k, c, envid, i) && k.cpus[c].cur == To(i)
    ensures var r := Work(k, c, SetStatus(envid, Runnable));
            r.cpus[c].mode == User && r.cpus[c].cur == To(i) && r.envs[i].status == Runnable
  {
    var d := Dispatch(k, c, SetStatus(envid, Runnable));
    assert d.envs[i].status == Runnable && d.cpus[c] == k.cpus[c];
    assert EnvOk(k, i);
    NthIdClosed(i, k.envs[i].allocs);
    assert Pick(d.envs, i, NENV) == To(i);
    YieldRuns(d, c);
  }

  /** sys_env_set_status keeps the system sound exactly when its target is on no
      CPU and not woken from a receive, or is the caller putting itself to sleep. */
  lemma SetStatusSoundIff(k: State, c: nat, envid: nat, i: nat, status: Status)
    requires Names(k, c, envid, i) && (status == Runnable || status == NotRunnable)
    ensures Inv(Work(k, c, SetStatus(envid, status))) <==> MayChange(k, c, i, status)
  {
    if MayChange(k, c, i, status) {
      WorkKeeps(k, c, SetStatus(envid, status));
    } else if k.cpus[c].cur == To(i) {
      WakesItself(k, c, envid, i);
      assert !CpuOk(Work(k, c, SetStatus(envid, status)), c);
    } else {
      SetStatusBreaks(k, c, envid, i, status);
    }
  }

  lemma SetStatusBreaks(k: State, c: nat, envid: nat, i: nat, status: Status)
    requires Names(k, c, envid, i) && (status == Runnable || status == NotRunnable)
    requires !MayChange(k, c, i, status) && k.cpus[c].cur != To(i)
    ensures !Inv(Work(k, c, SetStatus(envid, status)))
  {
    var d := Dispatch(k, c, SetStatus(envid, status));
    var r := Work(k, c, SetStatus(envid, status));
    Resumes(k, c, d);
    assert EnvOk(k, i);
    if OnCpu(k.envs[i]) {
      assert r.cpus[k.envs[i].cpunum].cur == To(i) && r.envs[i].status == status;
      assert !CpuOk(r, k.envs[i].cpunum);
    } else {
      assert r.envs[i].recving && r.envs[i].status == Runnable;
      assert !EnvOk(r, i);
    }
  }

  /** What it leads to: another CPU that looks for work may take the environment
      that is already running. */
  lemma SelfWakeRunsTwice(k: State, c: nat, envid: nat, i: nat, d: nat)
    requires Names(k, c, envid, i) && k.cpus[c].cur == To(i)
    requires d < |k.cpus| && d != c && k.cpus[d].mode == Spinning(false, 0)
    requires forall j :: 0 <= j < i ==> k.envs[j].status != Runnable
    ensures var r := TryLock(Work(k, c, SetStatus(envid, Runnable)), d);
            && r.cpus[d].mode == InKernel(false)
            && SchedYield(r, d).cpus[c].cur == SchedYield(r, d).cpus[d].cur == To(i)
            && SchedYield(r, d).cpus[c].mode == SchedYield(r, d).cpus[d].mode == User
  {
    var w := Work(k, c, SetStatus(envid, Runnable));
    WakesItself(k, c, envid, i);
    SelfWakeState(k, c, envid, i);
    assert CpuOk(k, d);
    var r := TryLock(w, d);
    assert r.cpus[d].mode == InKernel(false) && r.cpus[d].cur.NULL?;
    ScanFinds(r.envs, 0, 0, i);
    YieldTakes(r, d);
  }

  lemma SelfWakeState(k: State, c: nat, envid: nat, i: nat)
    requires Names(k, c, envid, i) && k.cpus[c].cur == To(i)
    ensures var r := Work(k, c, SetStatus(envid, Runnable));
            !r.lock.locked && forall j :: 0 <= j < NENV && j != i ==> r.envs[j] == k.envs[j]
  {
    var d := Dispatch(k, c, SetStatus(envid, Runnable));
    assert Holding(k, c);
    assert EnvOk(k, i);
    NthIdClosed(i, k.envs[i].allocs);
    assert Pick(d.envs, i, NENV) == To(i);
    YieldRuns(d, c);
  }

  /** sys_env_destroy keeps the system sound exactly when its target is not
      already dying: a second destroy frees an environment that another CPU is
      still running. */
  lemma DestroySoundIff(k: State, c: nat, envid: nat, i: nat)
    requires Names(k, c, envid, i)
    ensures Inv(Work(k, c, Destroy(envid))) <==> k.envs[i].status != Dying
  {
    if k.envs[i].status != Dying {
      WorkKeeps(k, c, Destroy(envid));
    } else {
      var d := Dispatch(k, c, Destroy(envid));
      Resumes(k, c, d);
      assert EnvOk(k, i);
      assert !CpuOk(Work(k, c, Destroy(envid)), k.envs[i].cpunum);
    }
  }
}
