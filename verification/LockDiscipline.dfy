/** The big kernel lock over whole runs: each way into the kernel acquires it
    once, each way out releases it once, and nobody else touches it. */
module LockDiscipline {
  import opened Kernel
  import opened KernelSafety
  import opened Scheduling

  /** Code that is, or is about to be, in the kernel. */
  predicate Entering(a: Action, c: nat) {
    a.c == c && (a.DoTrap? || a.DoApStart?)
  }

  predicate Waiting(k: State, c: nat)
    requires c < |k.cpus|
  {
    k.cpus[c].mode.Spinning?
  }

  predicate Acquires(k: State, k': State, c: nat) {
    !Holding(k, c) && Holding(k', c)
  }

  predicate Releases(k: State, k': State, c: nat) {
    Holding(k, c) && !Holding(k', c)
  }

  /** env_run or sched_halt, at the end of the kernel's work. */
  predicate Leaves(k: State, k': State, c: nat)
    requires c < |k.cpus| && c < |k'.cpus|
  {
    InsideKernel(k.cpus[c]) && !InsideKernel(k'.cpus[c])
  }

  function One(b: bool): nat {
    if b then 1 else 0
  }

  lemma HoldsIffInside(k: State, c: nat)
    requires Inv(k) && c < |k.cpus|
    ensures Holding(k, c) <==> InsideKernel(k.cpus[c])
  {
  }

  /** In one step a CPU enters, acquires, or leaves and releases, and these follow
      one another. */
  lemma LockStep(k: State, a: Action, c: nat)
    requires Inv(k) && Enabled(k, a) && c < |k.cpus|
    ensures var k' := Next(k, a);
            && |k'.cpus| == |k.cpus|
            && One(Waiting(k', c)) + One(Acquires(k, k', c)) == One(Waiting(k, c)) + One(Entering(a, c))
            && (Leaves(k, k', c) <==> Releases(k, k', c))
  {
    var k' := Next(k, a);
    StepKeeps(k, a);
    HoldsIffInside(k, c);
    HoldsIffInside(k', c);
    if a.c == c {
      assert CpuOk(k, c);
      if a.DoWork? {
        HaltsOnlyWhenIdle(k, c, a.op);
      }
    }
  }

  function Entries(acts: seq<Action>, c: nat, n: nat): nat
    requires n <= |acts|
  {
    if n == 0 then 0 else Entries(acts, c, n - 1) + One(Entering(acts[n - 1], c))
  }

  function Acquisitions(run: seq<State>, c: nat, n: nat): nat
    requires n < |run|
  {
    if n == 0 then 0 else Acquisitions(run, c, n - 1) + One(Acquires(run[n - 1], run[n], c))
  }

  function Exits(run: seq<State>, c: nat, n: nat): nat
    requires n < |run| && OnAll(run, c)
  {
    if n == 0 then 0 else Exits(run, c, n - 1) + One(Leaves(run[n - 1], run[n], c))
  }

  function Releasings(run: seq<State>, c: nat, n: nat): nat
    requires n < |run|
  {
    if n == 0 then 0 else Releasings(run, c, n - 1) + One(Releases(run[n - 1], run[n], c))
  }

  /** Step n of the run is one move of CPU c in the order enter, acquire, leave. */
  predicate InOrder(run: seq<State>, acts: seq<Action>, n: nat, c: nat)
    requires n < |acts| && |run| == |acts| + 1 && OnAll(run, c)
  {
    && One(Waiting(run[n + 1], c)) + One(Acquires(run[n], run[n + 1], c)) ==
       One(Waiting(run[n], c)) + One(Entering(acts[n], c))
    && (Leaves(run[n], run[n + 1], c) <==> Releases(run[n], run[n + 1], c))
  }

  lemma RunInOrder(run: seq<State>, acts: seq<Action>, n: nat, c: nat)
    requires Run(run, acts) && Inv(run[0]) && OnAll(run, c) && n < |acts|
    ensures InOrder(run, acts, n, c)
  {
    InvAlways(run, acts, n);
    assert StepOf(run, acts, n);
    LockStep(run[n], acts[n], c);
  }

  lemma {:induction false} CountsAgree(run: seq<State>, acts: seq<Action>, c: nat, n: nat)
    requires |run| == |acts| + 1 && OnAll(run, c) && n < |run|
    requires forall m: nat :: m < n ==> InOrder(run, acts, m, c)
    ensures Entries(acts, c, n) + One(Waiting(run[0], c)) == Acquisitions(run, c, n) + One(Waiting(run[n], c))
    ensures Exits(run, c, n) == Releasings(run, c, n)
    decreases n
  {
    if n > 0 {
      CountsAgree(run, acts, c, n - 1);
      assert InOrder(run, acts, n - 1, c);
    }
  }

  /** In every run, up to any point: every entry of a CPU into the kernel has
      acquired the lock exactly once, or is spinning for it; every exit has
      released it exactly once; the lock is held exactly while a CPU is inside; and
      it has never been taken by its holder nor released by another (no panic). */
  lemma LockOncePerEntry(run: seq<State>, acts: seq<Action>, c: nat, n: nat)
    requires Run(run, acts) && Inv(run[0]) && OnAll(run, c) && n < |run|
    ensures Entries(acts, c, n) + One(Waiting(run[0], c)) == Acquisitions(run, c, n) + One(Waiting(run[n], c))
    ensures Exits(run, c, n) == Releasings(run, c, n)
    ensures !run[n].panicked
    ensures run[n].lock.locked <==> exists d: nat :: d < |run[n].cpus| && InsideKernel(run[n].cpus[d])
  {
    forall m: nat | m < n ensures InOrder(run, acts, m, c) {
      RunInOrder(run, acts, m, c);
    }
    CountsAgree(run, acts, c, n);
    InvAlways(run, acts, n);
    LockedIffInside(run[n]);
  }

  lemma LockedIffInside(k: State)
    requires Inv(k)
    ensures !k.panicked
    ensures k.lock.locked <==> exists d: nat :: d < |k.cpus| && InsideKernel(k.cpus[d])
  {
    if k.lock.locked {
      assert InsideKernel(k.cpus[k.lock.cpu.at]);
    }
  }
}
