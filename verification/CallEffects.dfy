/** What the environments see of each system call: the result in the caller's %eax,
    what changes in the environment it names, and that nothing else does. */
module CallEffects {
  import opened Layout
  import opened EnvIds
  import opened Kernel
  import opened KernelSafety
  import opened Scheduling
  import opened Messages

  /** The caller gets x in its %eax, and every other environment is as it was. */
  predicate Answers(k: State, c: nat, r: State, x: int) {
    && Here(k, c) && k.cpus[c].cur.To?
    && r.envs == k.envs[k.cpus[c].cur.at := k.envs[k.cpus[c].cur.at].(eax := x)] && r.free == k.free
  }

  /** The same, but that environment j has become e. */
  predicate AnswersWith(k: State, c: nat, r: State, x: int, j: nat, e: Env) {
    && Here(k, c) && k.cpus[c].cur.To? && j < NENV && k.cpus[c].cur != To(j)
    && r.envs == k.envs[j := e][k.cpus[c].cur.at := k.envs[k.cpus[c].cur.at].(eax := x)]
  }

  /** A call that leaves its caller running goes back to it. */
  lemma GoesBack(k: State, c: nat, op: Op)
    requires Trapped(k, c)
    requires var d := Dispatch(k, c, op);
             && d.cpus == k.cpus && CurRunning(d, c)
             && d.envs[k.cpus[c].cur.at].cpunum == k.envs[k.cpus[c].cur.at].cpunum
    ensures var r, d := Work(k, c, op), Dispatch(k, c, op);
            r.envs == d.envs && r.free == d.free && r.cpus[c].mode == User && r.cpus[c].cur == k.cpus[c].cur
  {
    var d := Dispatch(k, c, op);
    var i := k.cpus[c].cur.at;
    assert CpuOk(k, c);
    assert Finish(d, c) == EnvRun(d, c, i);
    assert d.envs[i := d.envs[i].(cpunum := c)] == d.envs;
  }

  lemma Answered(k: State, c: nat, op: Op, x: int)
    requires Trapped(k, c) && Dispatch(k, c, op) == SetEax(k, k.cpus[c].cur.at, x)
    ensures Answers(k, c, Work(k, c, op), x)
  {
    GoesBack(k, c, op);
  }

  // ------------------------------------------------------------------ permissions

  /** The caller may name the environment in slot i: itself, or a child of its own. */
  predicate MayTouch(k: State, c: nat, i: nat)
    requires Here(k, c) && k.cpus[c].cur.To? && i < NENV
  {
    k.cpus[c].cur == To(i) || k.envs[i].parent == k.envs[k.cpus[c].cur.at].id
  }

  /** With the permission check the id of a live environment is found exactly by itself
      and by its parent; without it, by everybody; 0 names the caller. */
  lemma PermissionIff(k: State, c: nat, i: nat)
    requires Inv(k) && c < |k.cpus| && k.cpus[c].cur.To? && i < NENV && k.envs[i].status != Free
    ensures k.envs[i].id > 0 && Envid2Env(k, c, k.envs[i].id, false) == Found(i)
    ensures Envid2Env(k, c, k.envs[i].id, true) == if MayTouch(k, c, i) then Found(i) else Bad
    ensures Envid2Env(k, c, 0, true) == Envid2Env(k, c, 0, false) == Found(k.cpus[c].cur.at)
  {
    assert EnvOk(k, i);
    NthIdClosed(i, k.envs[i].allocs);
  }

  /** An id that no live environment has is refused to everybody. */
  lemma NobodysId(k: State, c: nat, envid: nat, checkperm: bool)
    requires Inv(k) && c < |k.cpus| && k.cpus[c].cur.To? && envid > 0
    requires forall i :: 0 <= i < NENV && k.envs[i].status != Free ==> k.envs[i].id != envid
    ensures Envid2Env(k, c, envid, checkperm) == Bad
  {
  }

  /** Destroying or waking somebody else's environment gets -E_BAD_ENV and does
      nothing. */
  lemma StrangerRefused(k: State, c: nat, i: nat, op: Op)
    requires Trapped(k, c) && i < NENV && k.envs[i].status != Free && !MayTouch(k, c, i)
    requires op == Destroy(k.envs[i].id) || (op.SetStatus? && op.envid == k.envs[i].id)
    ensures Answers(k, c, Work(k, c, op), -2)
  {
    PermissionIff(k, c, i);
    Answered(k, c, op, -2);
  }

  // ----------------------------------------------------------------------- exofork

  /** The parent gets the child's id, the child sees 0 and waits to be started. */
  lemma ExoforkEffect(k: State, c: nat, pgdir: nat)
    requires Trapped(k, c) && k.free != [] && pgdir != 0
    ensures var r, i, j := Work(k, c, Exofork(pgdir)), k.cpus[c].cur.at, k.free[0];
            && j != i && k.envs[j].status == Free && r.free == k.free[1..]
            && r.envs[j].eax == 0 && r.envs[j].status == NotRunnable && r.envs[j].parent == k.envs[i].id
            && r.envs[j].pgdir == pgdir && r.envs[j].runs == 0 && !r.envs[j].recving
            && r.envs[i].eax == r.envs[j].id > 0 && EnvX(r.envs[j].id) == j
            && r.envs == k.envs[j := r.envs[j]][i := k.envs[i].(eax := r.envs[j].id)]
  {
    var i, j := k.cpus[c].cur.at, k.free[0];
    assert j in k.free;
    assert EnvOk(k, j);
    NthIdClosed(j, k.envs[j].allocs + 1);
    GoesBack(k, c, Exofork(pgdir));
  }

  /** Without a free slot it is -E_NO_FREE_ENV, without a page -E_NO_MEM. */
  lemma ExoforkRefused(k: State, c: nat, pgdir: nat)
    requires Trapped(k, c) && (k.free == [] || pgdir == 0)
    ensures Answers(k, c, Work(k, c, Exofork(pgdir)), if k.free == [] then -5 else -4)
  {
    Answered(k, c, Exofork(pgdir), if k.free == [] then -5 else -4);
  }

  // ------------------------------------------------------------ set_status and destroy

  /** A status other than runnable or not runnable is -E_INVAL. */
  lemma BadStatus(k: State, c: nat, i: nat, status: Status)
    requires Trapped(k, c) && i < NENV && k.envs[i].status != Free && MayTouch(k, c, i)
    requires status != Runnable && status != NotRunnable
    ensures Answers(k, c, Work(k, c, SetStatus(k.envs[i].id, status)), -3)
  {
    PermissionIff(k, c, i);
    Answered(k, c, SetStatus(k.envs[i].id, status), -3);
  }

  /** A child gets the status it is given. */
  lemma StatusEffect(k: State, c: nat, i: nat, status: Status)
    requires Trapped(k, c) && i < NENV && k.envs[i].status != Free && MayTouch(k, c, i) && k.cpus[c].cur != To(i)
    requires status == Runnable || status == NotRunnable
    ensures AnswersWith(k, c, Work(k, c, SetStatus(k.envs[i].id, status)), 0, i, k.envs[i].(status := status))
  {
    PermissionIff(k, c, i);
    GoesBack(k, c, SetStatus(k.envs[i].id, status));
  }

  /** A child that runs on another CPU becomes a zombie, any other is freed, and its
      slot is the next to be used. */
  lemma DestroyEffect(k: State, c: nat, i: nat)
    requires Trapped(k, c) && i < NENV && k.envs[i].status != Free && MayTouch(k, c, i) && k.cpus[c].cur != To(i)
    ensures var r := Work(k, c, Destroy(k.envs[i].id));
            if k.envs[i].status == Running
            then AnswersWith(k, c, r, 0, i, k.envs[i].(status := Dying)) && r.free == k.free
            else AnswersWith(k, c, r, 0, i, k.envs[i].(status := Free, pgdir := 0)) && r.free == [i] + k.free
  {
    PermissionIff(k, c, i);
    GoesBack(k, c, Destroy(k.envs[i].id));
  }

  // ------------------------------------------------------------------------ messages

  /** A send to nobody, or to somebody who does not wait, changes nothing. */
  lemma SendRefused(k: State, c: nat, op: Op)
    requires Trapped(k, c) && op.TrySend?
    requires var l := Envid2Env(k, c, op.envid, false); l.Found? ==> !k.envs[l.i].recving
    ensures Answers(k, c, Work(k, c, op), if Envid2Env(k, c, op.envid, false).Bad? then -2 else -7)
  {
    Answered(k, c, op, if Envid2Env(k, c, op.envid, false).Bad? then -2 else -7);
  }

  /** What is wrong with the page of a send, if anything. */
  predicate BadPage(srcva: nat, permOk: bool, permW: bool, page: PageFate) {
    srcva < 0xEEC0_0000 && (srcva % 4096 != 0 || !permOk || !page.srcMapped || (permW && !page.srcWritable))
  }

  predicate NoRoom(e: Env, srcva: nat, page: PageFate) {
    srcva < 0xEEC0_0000 && e.dstva < 0xEEC0_0000 && !page.inserted
  }

  /** A send to a receiver that waits: -E_INVAL for a bad page, -E_NO_MEM if it cannot
      be mapped; otherwise the receiver has the message, runs on with 0 in its %eax,
      and nobody else is touched. */
  lemma SendEffect(k: State, c: nat, i: nat, op: Op)
    requires Trapped(k, c) && op.TrySend? && i < NENV && k.envs[i].status != Free && k.envs[i].recving
    requires op.envid == k.envs[i].id
    ensures var r, e := Work(k, c, op), k.envs[i];
            if BadPage(op.srcva, op.permOk, op.permW, op.page) then Answers(k, c, r, -3)
            else if NoRoom(e, op.srcva, op.page) then Answers(k, c, r, -4)
            else
              && AnswersWith(k, c, r, 0, i, r.envs[i]) && r.envs[i].status == Runnable && r.envs[i].eax == 0
              && !r.envs[i].recving && r.envs[i].value == op.value && r.envs[i].from == k.envs[k.cpus[c].cur.at].id
              && r.envs[i].id == e.id && r.envs[i].parent == e.parent && r.envs[i].pgdir == e.pgdir
              && r.envs[i].dstva == e.dstva && r.envs[i].runs == e.runs
  {
    PermissionIff(k, c, i);
    assert EnvOk(k, i);
    if BadPage(op.srcva, op.permOk, op.permW, op.page) {
      Answered(k, c, op, -3);
    } else if NoRoom(k.envs[i], op.srcva, op.page) {
      Answered(k, c, op, -4);
    } else {
      GoesBack(k, c, op);
    }
  }

  // ---------------------------------------------------------------------- scheduling

  /** sched_yield changes the environment it switches to, which is running, here, and
      counted once more, and the one it switches from, which is runnable again if it
      was running; nobody else. */
  lemma ScheduleEffect(k: State, c: nat, j: nat)
    requires Mid(k, c) && Here(k, c) && j < NENV
    ensures var r := SchedYield(k, c);
            var before, after := k.cpus[c].cur, r.cpus[c].cur;
            && r.free == k.free
            && r.envs[j] ==
               if after == To(j) && before != To(j)
               then k.envs[j].(status := Running, runs := k.envs[j].runs + 1, cpunum := c)
               else if before == To(j) && after != To(j) && k.envs[j].status == Running
               then k.envs[j].(status := Runnable)
               else k.envs[j]
  {
    MidFacts(k, c);
    var p := Pick(k.envs, ScanStart(k, c), NENV);
    if p.To? {
      YieldRuns(k, c);
      RunEffect(k, c, p.at, j);
    } else if CurRunning(k, c) {
      RunEffect(k, c, k.cpus[c].cur.at, j);
    }
  }

  lemma RunEffect(k: State, c: nat, i: nat, j: nat)
    requires Here(k, c) && i < NENV && j < NENV && (k.cpus[c].cur == To(i) ==> k.envs[i].cpunum == c)
    ensures var r := EnvRun(k, c, i);
            && r.cpus[c].cur == To(i) && r.free == k.free
            && r.envs[j] ==
               if i == j && k.cpus[c].cur != To(i)
               then k.envs[j].(status := Running, runs := k.envs[j].runs + 1, cpunum := c)
               else if k.cpus[c].cur == To(j) && i != j && k.envs[j].status == Running
               then k.envs[j].(status := Runnable)
               else k.envs[j]
  {
    var s := SwitchTo(k, c, i);
    assert Unlock(s, c).envs == s.envs && Unlock(s, c).free == s.free;
  }

  /** A misaligned address is -E_INVAL.  Otherwise the caller waits, for a page at this
      very address if it is below UTOP, and the CPU runs somebody else, if anybody. */
  lemma RecvEffect(k: State, c: nat, dstva: nat)
    requires Inv(k) && Enabled(k, DoWork(c, Recv(dstva))) && Trapped(k, c)
    ensures var r, i := Work(k, c, Recv(dstva)), k.cpus[c].cur.at;
            if dstva < 0xEEC0_0000 && dstva % 4096 != 0 then Answers(k, c, r, -3)
            else
              && r.envs[i] == k.envs[i].(recving := true, dstva := dstva, status := NotRunnable, inRecv := true)
              && (r.cpus[c].mode == User ==> r.cpus[c].cur != To(i)) && r.free == k.free
  {
    TrappedMid(k, c);
    var i := k.cpus[c].cur.at;
    if dstva < UTOP && PGOFF(dstva) != 0 {
      Answered(k, c, Recv(dstva), -3);
    } else {
      var s := Asleep(k, c, dstva);
      RecvKeeps(k, c, i, dstva);
      SleepWork(k, c, dstva);
      ScheduleEffect(s, c, i);
      LeavesSleeper(s, c);
    }
  }

  lemma LeavesSleeper(k: State, c: nat)
    requires Mid(k, c) && k.cpus[c].cur.To? && k.envs[k.cpus[c].cur.at].status == NotRunnable
    ensures SchedYield(k, c).cpus[c].mode == User ==> SchedYield(k, c).cpus[c].cur != k.cpus[c].cur
    ensures SchedYield(k, c).cpus[c].cur == k.cpus[c].cur ==> SchedYield(k, c).envs == k.envs
  {
    MidFacts(k, c);
    var p := Pick(k.envs, ScanStart(k, c), NENV);
    if p.To? {
      YieldRuns(k, c);
      RunTakes(k, c, p.at);
    }
  }

  /** What is left of the current environment when it is freed: a free slot, the next to
      be used, that this CPU has left. */
  lemma FreedEffect(k: State, c: nat)
    requires Inv(k) && c < |k.cpus| && k.cpus[c].mode.InKernel? && k.cpus[c].cur.To?
    ensures var r, i := SchedYield(NoCur(EnvFree(k, c, k.cpus[c].cur.at), c), c), k.cpus[c].cur.at;
            && r.envs[i] == k.envs[i].(status := Free, pgdir := 0) && r.free == [i] + k.free
            && r.cpus[c].cur != To(i)
  {
    var i := k.cpus[c].cur.at;
    var f := NoCur(EnvFree(k, c, i), c);
    FreeSelfKeeps(k, c, i);
    ScheduleEffect(f, c, i);
    var p := Pick(f.envs, ScanStart(f, c), NENV);
    if p.To? {
      YieldRuns(f, c);
      RunTakes(f, c, p.at);
    }
  }

  /** An unhandled fault, and a destroy of oneself, free the caller; so does any trap of
      an environment that another CPU has destroyed meanwhile. */
  lemma ExitEffect(k: State, c: nat, op: Op)
    requires Inv(k) && c < |k.cpus| && k.cpus[c].mode == InKernel(true) && k.cpus[c].cur.To?
    requires k.envs[k.cpus[c].cur.at].status == Dying ||
             op == Fault || op == Destroy(0) || op == Destroy(k.envs[k.cpus[c].cur.at].id)
    ensures var r, i := Work(k, c, op), k.cpus[c].cur.at;
            && r.envs[i] == k.envs[i].(status := Free, pgdir := 0) && r.free == [i] + k.free
            && r.cpus[c].cur != To(i)
  {
    var i := k.cpus[c].cur.at;
    assert CpuOk(k, c) && EnvOk(k, i);
    FreedEffect(k, c);
    if k.envs[i].status != Dying {
      PermissionIff(k, c, i);
      YieldLeaves(NoCur(EnvFree(k, c, i), c), c);
      assert Dispatch(k, c, op) == SchedYield(NoCur(EnvFree(k, c, i), c), c);
    }
  }

  // --------------------------------------------- the page a receiver waits for

  lemma RecvOther(k: State, c: nat, dstva: nat, i: nat)
    requires Trapped(k, c) && i < NENV && k.cpus[c].cur != To(i)
    ensures Work(k, c, Recv(dstva)).envs[i].dstva == k.envs[i].dstva
  {
    if dstva < UTOP && PGOFF(dstva) != 0 {
      Answered(k, c, Recv(dstva), -3);
    } else {
      SleepWork(k, c, dstva);
      YieldMail(Asleep(k, c, dstva), c, i);
    }
  }

  /** While an environment waits, nobody changes the address at which it wants its
      page. */
  lemma WaitsForSamePage(k: State, a: Action, i: nat)
    requires Inv(k) && Enabled(k, a) && i < NENV && k.envs[i].recving && Next(k, a).envs[i].recving
    ensures Next(k, a).envs[i].dstva == k.envs[i].dstva
  {
    assert EnvOk(k, i);
    if a.DoWork? {
      var c, op := a.c, a.op;
      if !Trapped(k, c) {
        IdleMail(k, c, op, i);
      } else if op.Recv? {
        RecvOther(k, c, op.dstva, i);
      } else if op.TrySend? || op.Exofork? {
        WorkIsDispatch(k, c, op, i);
        SendOrForkKeepsPage(k, c, op, i);
      } else {
        OtherMail(k, c, op, i);
      }
    }
  }

  lemma SendOrForkKeepsPage(k: State, c: nat, op: Op, i: nat)
    requires Trapped(k, c) && i < NENV && (op.TrySend? || op.Exofork?) && Dispatch(k, c, op).envs[i].recving
    ensures Dispatch(k, c, op).envs[i].dstva == k.envs[i].dstva
  {
    if op.Exofork? {
      ForkKeepsPage(k, c, op, i);
    } else {
      var x := SysIpcTrySend(k, c, op.envid, op.value, op.srcva, op.permOk, op.permW, op.page);
      assert Dispatch(k, c, op) == SetEax(x.0, k.cpus[c].cur.at, x.1);
    }
  }

  lemma ForkKeepsPage(k: State, c: nat, op: Op, i: nat)
    requires Trapped(k, c) && i < NENV && op.Exofork? && Dispatch(k, c, op).envs[i].recving
    ensures Dispatch(k, c, op).envs[i].dstva == k.envs[i].dstva
  {
    var x := SysExofork(k, c, op.pgdir);
    assert Dispatch(k, c, op) == SetEax(x.0, k.cpus[c].cur.at, x.1);
  }

  /** The environment in slot i calls receive, naming this address. */
  predicate Asks(k: State, a: Action, i: nat, dstva: nat) {
    && Here(k, a.c) && a == DoWork(a.c, Recv(dstva)) && Trapped(k, a.c) && k.cpus[a.c].cur == To(i)
    && !(dstva < UTOP && PGOFF(dstva) != 0)
  }

  predicate Waiting(k: State, i: nat) {
    i < NENV == |k.envs| && k.envs[i].recving
  }

  predicate WaitsFor(k: State, i: nat, dstva: nat) {
    Waiting(k, i) && k.envs[i].dstva == dstva
  }

  lemma AskedWaits(k: State, a: Action, i: nat, dstva: nat)
    requires Inv(k) && Enabled(k, a) && Asks(k, a, i, dstva)
    ensures WaitsFor(Next(k, a), i, dstva)
  {
    assert CpuOk(k, a.c);
    RecvEffect(k, a.c, dstva);
  }

  lemma FirstWait(run: seq<State>, acts: seq<Action>, i: nat, dstva: nat, m: nat)
    requires m < |acts| && |run| == |acts| + 1 && StepOf(run, acts, m) && Inv(run[m])
    requires Asks(run[m], acts[m], i, dstva)
    ensures WaitsFor(run[m + 1], i, dstva)
  {
    AskedWaits(run[m], acts[m], i, dstva);
  }

  predicate SamePage(k: State, k': State, i: nat) {
    Waiting(k, i) && Waiting(k', i) ==> k'.envs[i].dstva == k.envs[i].dstva
  }

  lemma NextWait(run: seq<State>, acts: seq<Action>, i: nat, n: nat)
    requires n < |acts| && |run| == |acts| + 1 && StepOf(run, acts, n) && Inv(run[n])
    ensures SamePage(run[n], run[n + 1], i)
  {
    if Waiting(run[n], i) && Waiting(run[n + 1], i) {
      WaitsForSamePage(run[n], acts[n], i);
    }
  }

  lemma {:induction false} StaysWanted(run: seq<State>, i: nat, dstva: nat, m: nat, n: nat)
    requires m < n < |run| && WaitsFor(run[m + 1], i, dstva)
    requires forall j :: m < j <= n ==> Waiting(run[j], i)
    requires forall j :: m < j < n ==> SamePage(run[j], run[j + 1], i)
    ensures WaitsFor(run[n], i, dstva)
    decreases n
  {
    if n > m + 1 {
      StaysWanted(run, i, dstva, m, n - 1);
      assert SamePage(run[n - 1], run[n - 1 + 1], i);
    }
  }

  lemma RunPair(run: seq<State>, acts: seq<Action>, i: nat, j: nat)
    requires Run(run, acts) && Inv(run[0]) && j < |acts|
    ensures SamePage(run[j], run[j + 1], i)
  {
    InvAlways(run, acts, j);
    assert StepOf(run, acts, j);
    NextWait(run, acts, i, j);
  }

  /** From the call of receive on, as long as it waits, the slot has the address that
      was asked for. */
  lemma WantedPageKept(run: seq<State>, acts: seq<Action>, i: nat, dstva: nat, m: nat, n: nat)
    requires Run(run, acts) && Inv(run[0]) && m < n < |run| && Asks(run[m], acts[m], i, dstva)
    requires forall j :: m < j <= n ==> Waiting(run[j], i)
    ensures WaitsFor(run[n], i, dstva)
  {
    InvAlways(run, acts, m);
    FirstWait(run, acts, i, dstva, m);
    forall j | m < j < n ensures SamePage(run[j], run[j + 1], i) {
      RunPair(run, acts, i, j);
    }
    StaysWanted(run, i, dstva, m, n);
  }
}
