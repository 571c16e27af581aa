/** The table of environments: what ids mean, and when a slot can be had. */
module EnvTable {
  import opened EnvIds
  import opened Kernel
  import opened KernelSafety

  /** The id given at the n-th allocation of slot i names the environment in it
      exactly while that allocation is live, or again 524287 allocations later. */
  lemma IdResolvesIff(k: State, c: nat, i: nat, n: nat)
    requires Inv(k) && c < |k.cpus| && k.cpus[c].cur.To? && i < NENV && 1 <= n <= k.envs[i].allocs
    ensures Envid2Env(k, c, NthId(i, n), false) ==
            if k.envs[i].status != Free && (k.envs[i].allocs - n) % 524287 == 0 then Found(i) else Bad
  {
    assert EnvOk(k, i);
    NthIdClosed(i, n);
    SameIdIff(i, n, i, k.envs[i].allocs);
  }

  /** So the id of a freed environment is rejected, whatever has happened to its
      slot since, until the slot has been allocated 524287 more times. */
  lemma StaleIdRejected(k: State, c: nat, i: nat, n: nat)
    requires Inv(k) && c < |k.cpus| && k.cpus[c].cur.To? && i < NENV && 1 <= n <= k.envs[i].allocs
    requires k.envs[i].status == Free || n < k.envs[i].allocs
    requires k.envs[i].allocs - n < 524287
    ensures Envid2Env(k, c, NthId(i, n), false) == Envid2Env(k, c, NthId(i, n), true) == Bad
  {
    IdResolvesIff(k, c, i, n);
    NthIdClosed(i, n);
  }

  /** A positive id names at most one environment, and the one it names is live,
      has that id, and sits in the slot of its low bits. */
  lemma IdNamesOne(k: State, c: nat, id: nat, i: nat)
    requires Inv(k) && c < |k.cpus| && k.cpus[c].cur.To? && i < NENV && id > 0
    ensures k.envs[i].status != Free && k.envs[i].id == id <==> Envid2Env(k, c, id, false) == Found(i)
  {
    assert EnvOk(k, i);
    if k.envs[i].status != Free {
      NthIdClosed(i, k.envs[i].allocs);
    }
  }

  predicate Full(k: State) {
    forall i :: 0 <= i < |k.envs| ==> k.envs[i].status != Free
  }

  /** env_alloc fails for want of a slot exactly when all are in use, for want of
      memory exactly when a slot but no page directory can be had, and then changes
      nothing; otherwise it takes a free slot and touches no other. */
  lemma AllocFailsIffFull(k: State, parent: int, pgdir: nat)
    requires Inv(k)
    ensures var (r, id) := EnvAlloc(k, parent, pgdir);
            && (id == Code(NoFreeEnv) <==> Full(k))
            && (id == Code(NoMem) <==> !Full(k) && pgdir == 0)
            && (id < 0 ==> r == k)
            && (!Full(k) && pgdir > 0 ==>
                  && id > 0 && k.envs[EnvX(id)].status == Free
                  && r.envs[EnvX(id)].status == Runnable && r.envs[EnvX(id)].id == id
                  && forall i :: 0 <= i < NENV && i != EnvX(id) ==> r.envs[i] == k.envs[i])
  {
    if k.free != [] {
      var i := k.free[0];
      assert i in k.free;
      assert EnvOk(k, i);
      NthIdClosed(i, k.envs[i].allocs + 1);
    } else {
      forall i: nat | i < NENV ensures k.envs[i].status != Free {
        assert i !in k.free;
      }
    }
  }
}
