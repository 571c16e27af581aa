/** The kernel and its page memory together: environments own the address spaces
    that the page code builds, and every page outcome a kernel step depends on is
    the one that memory gives. */
module System {
  import opened Layout
  import opened EnvIds
  import K = Kernel
  import S = KernelSafety
  import D = Directories
  import opened Paging
  import opened AddressSpace
  import opened Teardown
  import opened PageCalls

  /** k: environments, CPUs and the lock; m: physical pages and page tables. */
  datatype Whole = Whole(k: K.State, m: Mem)

  /** What user code can make the kernel do, page arguments as user code gives
      them. */
  datatype Request =
    | Plain(op: K.Op)
    | PageCall(call: Call, eax: int)
    | Die
    | Destroy(envid: nat)
    | Fork
    | SendMsg(envid: nat, value: int, srcva: nat, perm: Word)

  function CurDir(x: Whole, c: nat): nat
    requires K.Here(x.k, c) && x.k.cpus[c].cur.To?
  {
    x.k.envs[x.k.cpus[c].cur.at].pgdir
  }

  /** What page_lookup and page_insert find for a send. */
  ghost function Fate(x: Whole, c: nat, envid: nat, srcva: nat, perm: Word): K.PageFate
    requires K.Here(x.k, c) && x.k.cpus[c].cur.To?
  {
    var w := Translate(x.m, CurDir(x, c), PGNUM(srcva));
    var l := K.Envid2Env(x.k, c, envid, false);
    K.PageFate(Present(w), W in w.flags,
               l.Found? && Insert(x.m, x.k.envs[l.i].pgdir, w.ppn, PGNUM(x.k.envs[l.i].dstva), perm.flags).1)
  }

  /** The request as the kernel model sees it. */
  ghost function OpOf(x: Whole, c: nat, r: Request): K.Op
    requires K.Here(x.k, c) && x.k.cpus[c].cur.To?
  {
    match r
    case Plain(op) => op
    case PageCall(call, eax) => K.Resume(eax)
    case Die => K.Fault
    case Destroy(envid) => K.Destroy(envid)
    case Fork => K.Exofork(if x.m.free == [] then 0 else x.m.free[0])
    case SendMsg(envid, value, srcva, perm) =>
      K.TrySend(envid, value, srcva, PermOk(perm), W in perm.flags, Fate(x, c, envid, srcva, perm))
  }

  /** Memory after the work of CPU c: an environment freed, an address space set up,
      a page call, a page sent, or nothing. */
  ghost function MemAfter(x: Whole, c: nat, op: K.Op, r: Request): Mem
    requires K.Here(x.k, c) && x.k.cpus[c].mode.InKernel?
  {
    var p := D.FreedSlot(x.k, c, op);
    if p.To? then EnvFreed(x.m, x.k.envs[p.at].pgdir)
    else if !S.Trapped(x.k, c) then x.m
    else
      match r
      case PageCall(call, eax) => CallResult(x.m, call)
      case Fork => if x.k.free == [] then x.m else SetupVm(x.m).0
      case SendMsg(envid, value, srcva, perm) => SendResult(x, c, envid, srcva, perm)
      case _ => x.m
  }

  ghost function CallResult(m: Mem, call: Call): Mem {
    match call
    case Alloc(env, va, perm) => SysPageAlloc(m, env, va, perm).0
    case Map(src, srcva, dst, dstva, perm) => SysPageMap(m, src, srcva, dst, dstva, perm).0
    case Unmap(env, va) => SysPageUnmap(m, env, va).0
    case _ => m
  }

  ghost function SendResult(x: Whole, c: nat, envid: nat, srcva: nat, perm: Word): Mem
    requires K.Here(x.k, c) && x.k.cpus[c].cur.To?
  {
    var l := K.Envid2Env(x.k, c, envid, false);
    if l.Found? && x.k.envs[l.i].recving
    then IpcPage(x.m, CurDir(x, c), srcva, x.k.envs[l.i].pgdir, x.k.envs[l.i].dstva, perm).0
    else x.m
  }

  // ------------------------------------------------------------------- invariant

  predicate Live(x: Whole, i: nat) {
    i < |x.k.envs| && x.k.envs[i].status != K.Free
  }

  /** The live address spaces are those of the live environments. */
  ghost predicate Joined(x: Whole) {
    && x.m.kern == K.KERN_PGDIR && 0 in x.m.reserved
    && (forall i: nat :: Live(x, i) ==> x.k.envs[i].pgdir in x.m.dirs)
    && (forall d :: d in x.m.dirs ==> exists i: nat :: Live(x, i) && x.k.envs[i].pgdir == d)
  }

  ghost predicate Inv(x: Whole) {
    S.Inv(x.k) && Paging.Inv(x.m, multiset{}, {}) && Joined(x)
  }

  // ----------------------------------------------------------------------- steps

  /** What the two careless system calls and the 16-bit counts demand.  Nothing is
      asked of the page allocator. */
  ghost predicate Careful(x: Whole, c: nat, r: Request)
    requires S.Trapped(x.k, c)
  {
    match r
    case Plain(op) =>
      !op.Fault? && !op.Destroy? && !op.Exofork? && !op.TrySend? && S.Careful(x.k, c, op)
    case PageCall(call, eax) => !call.Free? && !call.Exofork? && !call.Send? && Calls(call, x.m, CallResult(x.m, call))
    case Destroy(envid) => S.Careful(x.k, c, K.Destroy(envid))
    case SendMsg(envid, value, srcva, perm) =>
      var l := K.Envid2Env(x.k, c, envid, false);
      l.Found? && x.k.envs[l.i].recving ==>
        Countable(x.m, CurDir(x, c), srcva, x.k.envs[l.i].pgdir, x.k.envs[l.i].dstva)
    case _ => true
  }

  /** The page of a new address space is used by nobody. */
  lemma ForkDirFresh(x: Whole)
    requires Inv(x) && x.m.free != []
    ensures x.m.free[0] != 0 && S.FreshDir(x.k, x.m.free[0])
  {
    InvBounds(x.m, multiset{}, {});
    SetupKeeps(x.m, multiset{}, {});
    var d := x.m.free[0];
    assert d in x.m.free;
    forall i | 0 <= i < NENV && x.k.envs[i].status != K.Free ensures x.k.envs[i].pgdir != d {
      assert Live(x, i);
    }
  }

  lemma OpCareful(x: Whole, c: nat, r: Request)
    requires Inv(x) && S.Trapped(x.k, c) && Careful(x, c, r)
    ensures S.Careful(x.k, c, OpOf(x, c, r))
  {
    if r.Fork? && x.m.free != [] {
      ForkDirFresh(x);
    }
  }

  lemma MemAfterFree(x: Whole, c: nat, op: K.Op, x': Whole)
    requires Inv(x) && c < |x.k.cpus| && x.k.cpus[c].mode.InKernel?
    requires D.FreedSlot(x.k, c, op).To? && Live(x, D.FreedSlot(x.k, c, op).at)
    requires x'.k == K.Work(x.k, c, op) && x'.m == EnvFreed(x.m, x.k.envs[D.FreedSlot(x.k, c, op).at].pgdir)
    requires D.BornSlot(x.k, c, op).NULL?
    ensures Paging.Inv(x'.m, multiset{}, {}) && Joined(x')
  {
    var f := D.FreedSlot(x.k, c, op).at;
    var d := x.k.envs[f].pgdir;
    EnvFreedTears(x.m, d);
    forall i: nat | i < NENV ensures D.DirMoves(x.k, c, op, i, x'.k.envs[i]) {
      D.WorkDir(x.k, c, op, i);
    }
    forall i: nat | Live(x', i) ensures x'.k.envs[i].pgdir in x'.m.dirs {
      assert D.DirMoves(x.k, c, op, i, x'.k.envs[i]);
      assert Live(x, i) && i != f;
      OtherDir(x.k, i, f);
    }
    forall e | e in x'.m.dirs ensures exists i: nat :: Live(x', i) && x'.k.envs[i].pgdir == e {
      var i: nat :| Live(x, i) && x.k.envs[i].pgdir == e;
      assert D.DirMoves(x.k, c, op, i, x'.k.envs[i]);
      assert Live(x', i);
    }
  }

  lemma OtherDir(k: K.State, i: nat, j: nat)
    requires S.Inv(k) && i < NENV && j < NENV && i != j && k.envs[i].status != K.Free && k.envs[j].status != K.Free
    ensures k.envs[i].pgdir != k.envs[j].pgdir
  {
  }

  lemma MemAfterBirth(x: Whole, c: nat, op: K.Op, x': Whole)
    requires Inv(x) && c < |x.k.cpus| && x.k.cpus[c].mode.InKernel?
    requires D.BornSlot(x.k, c, op).To? && D.FreedSlot(x.k, c, op).NULL?
    requires x.m.free != [] && op == K.Exofork(x.m.free[0])
    requires x'.k == K.Work(x.k, c, op) && x'.m == SetupVm(x.m).0
    ensures Paging.Inv(x'.m, multiset{}, {}) && Joined(x')
  {
    SetupKeeps(x.m, multiset{}, {});
    var b := D.BornSlot(x.k, c, op).at;
    assert b in x.k.free;
    forall i: nat | i < NENV ensures D.DirMoves(x.k, c, op, i, x'.k.envs[i]) {
      D.WorkDir(x.k, c, op, i);
    }
    forall i: nat | Live(x', i) ensures x'.k.envs[i].pgdir in x'.m.dirs {
      assert D.DirMoves(x.k, c, op, i, x'.k.envs[i]);
      assert i != b ==> Live(x, i);
    }
    forall e | e in x'.m.dirs ensures exists i: nat :: Live(x', i) && x'.k.envs[i].pgdir == e {
      if e == x.m.free[0] {
        assert D.DirMoves(x.k, c, op, b, x'.k.envs[b]);
        assert Live(x', b) && x'.k.envs[b].pgdir == e;
      } else {
        var i: nat :| Live(x, i) && x.k.envs[i].pgdir == e;
        assert D.DirMoves(x.k, c, op, i, x'.k.envs[i]);
        assert Live(x', i);
      }
    }
  }

  /** Neither a birth nor a death: the address spaces stay as they are. */
  lemma MemAfterQuiet(x: Whole, c: nat, op: K.Op, x': Whole)
    requires Inv(x) && c < |x.k.cpus| && x.k.cpus[c].mode.InKernel?
    requires D.BornSlot(x.k, c, op).NULL? && D.FreedSlot(x.k, c, op).NULL?
    requires x'.k == K.Work(x.k, c, op) && Paging.Inv(x'.m, multiset{}, {})
    requires x'.m.dirs == x.m.dirs && x'.m.kern == x.m.kern && x'.m.reserved == x.m.reserved
    ensures Joined(x')
  {
    forall i: nat | i < NENV ensures D.DirMoves(x.k, c, op, i, x'.k.envs[i]) {
      D.WorkDir(x.k, c, op, i);
    }
    forall i: nat | Live(x', i) ensures x'.k.envs[i].pgdir in x'.m.dirs {
      assert D.DirMoves(x.k, c, op, i, x'.k.envs[i]);
      assert Live(x, i);
    }
    forall e | e in x'.m.dirs ensures exists i: nat :: Live(x', i) && x'.k.envs[i].pgdir == e {
      var i: nat :| Live(x, i) && x.k.envs[i].pgdir == e;
      assert D.DirMoves(x.k, c, op, i, x'.k.envs[i]);
      assert Live(x', i);
    }
  }

  /** A page call changes no more of the set of address spaces than its counts. */
  lemma CallFixed(m: Mem, call: Call)
    requires Paging.Inv(m, multiset{}, {}) && !call.Free? && !call.Exofork? && !call.Send?
    requires Calls(call, m, CallResult(m, call))
    ensures Paging.Inv(CallResult(m, call), multiset{}, {}) && Fixed(m, CallResult(m, call))
  {
    CallKeepsExact(call, m, CallResult(m, call));
    match call
    case Alloc(env, va, perm) =>
      if env.To? && UserPage(va) && PermOk(perm) {
        AllocMapKeeps(m, env.at, PGNUM(va), {U, P} + perm.flags);
      }
    case Map(src, srcva, dst, dstva, perm) =>
      if src.To? && dst.To? && UserPage(srcva) && UserPage(dstva) && PermOk(perm) &&
         Present(Translate(m, src.at, PGNUM(srcva))) {
        MapPage(m, src.at, srcva, dst.at, dstva, perm.flags);
      }
    case Unmap(env, va) =>
      if env.To? && UserPage(va) {
        RemoveKeeps(m, multiset{}, {}, env.at, PGNUM(va));
      }
  }

  lemma SendFixed(m: Mem, src: nat, srcva: nat, dst: nat, dstva: nat, perm: Word)
    requires Paging.Inv(m, multiset{}, {})
    requires Calls(PageCalls.Send(src, srcva, dst, dstva, perm), m, IpcPage(m, src, srcva, dst, dstva, perm).0)
    ensures Paging.Inv(IpcPage(m, src, srcva, dst, dstva, perm).0, multiset{}, {})
    ensures Fixed(m, IpcPage(m, src, srcva, dst, dstva, perm).0)
  {
    CallKeepsExact(PageCalls.Send(src, srcva, dst, dstva, perm), m, IpcPage(m, src, srcva, dst, dstva, perm).0);
    if UserPage(srcva) && PermOk(perm) && dstva < UTOP && Present(Translate(m, src, PGNUM(srcva))) {
      MapPage(m, src, srcva, dst, dstva, perm.flags);
    }
  }

  datatype Action = Work(c: nat, r: Request) | Other(a: S.Action)

  ghost function KernelOp(x: Whole, c: nat, r: Request): K.Op
    requires K.Here(x.k, c)
  {
    if x.k.cpus[c].cur.To? then OpOf(x, c, r) else K.Yield
  }

  ghost predicate Enabled(x: Whole, a: Action) {
    match a
    case Other(b) => !b.DoWork? && S.Enabled(x.k, b)
    case Work(c, r) =>
      && K.Here(x.k, c) && x.k.cpus[c].mode.InKernel?
      && (S.Trapped(x.k, c) ==>
            Careful(x, c, r) && S.Polite(x.k.envs[x.k.cpus[c].cur.at], OpOf(x, c, r)))
  }

  ghost function Next(x: Whole, a: Action): Whole
    requires Enabled(x, a)
  {
    match a
    case Other(b) => Whole(S.Next(x.k, b), x.m)
    case Work(c, r) => Whole(K.Work(x.k, c, KernelOp(x, c, r)), MemAfter(x, c, KernelOp(x, c, r), r))
  }

  lemma TrappedJoins(x: Whole, c: nat, r: Request)
    requires Inv(x) && Enabled(x, Work(c, r)) && S.Trapped(x.k, c)
    ensures var x' := Next(x, Work(c, r)); Paging.Inv(x'.m, multiset{}, {}) && Joined(x')
  {
    var op := OpOf(x, c, r);
    var x' := Next(x, Work(c, r));
    if D.FreedSlot(x.k, c, op).To? {
      FreedIsLive(x, c, op);
      MemAfterFree(x, c, op, x');
    } else if D.BornSlot(x.k, c, op).To? {
      MemAfterBirth(x, c, op, x');
    } else {
      QuietFixed(x, c, r);
      MemAfterQuiet(x, c, op, x');
    }
  }

  lemma FreedIsLive(x: Whole, c: nat, op: K.Op)
    requires Inv(x) && c < |x.k.cpus| && x.k.cpus[c].mode.InKernel? && D.FreedSlot(x.k, c, op).To?
    ensures Live(x, D.FreedSlot(x.k, c, op).at) && D.BornSlot(x.k, c, op).NULL?
  {
    assert S.CpuOk(x.k, c);
    if S.Trapped(x.k, c) && op.Destroy? {
      S.LookupLive(x.k, c, op.envid, true);
    }
  }

  lemma QuietFixed(x: Whole, c: nat, r: Request)
    requires Inv(x) && Enabled(x, Work(c, r)) && S.Trapped(x.k, c)
    requires D.FreedSlot(x.k, c, OpOf(x, c, r)).NULL? && D.BornSlot(x.k, c, OpOf(x, c, r)).NULL?
    ensures Paging.Inv(MemAfter(x, c, OpOf(x, c, r), r), multiset{}, {}) && Fixed(x.m, MemAfter(x, c, OpOf(x, c, r), r))
  {
    match r
    case PageCall(call, eax) => CallFixed(x.m, call);
    case Fork =>
      if x.m.free != [] {
        ForkDirFresh(x);
      }
    case SendMsg(envid, value, srcva, perm) => SendStepFixed(x, c, envid, srcva, perm);
    case _ =>
  }

  lemma SendStepFixed(x: Whole, c: nat, envid: nat, srcva: nat, perm: Word)
    requires Inv(x) && S.Trapped(x.k, c) && Careful(x, c, SendMsg(envid, 0, srcva, perm))
    ensures var m' := SendResult(x, c, envid, srcva, perm);
            Paging.Inv(m', multiset{}, {}) && Fixed(x.m, m')
  {
    var l := K.Envid2Env(x.k, c, envid, false);
    if l.Found? && x.k.envs[l.i].recving {
      SendPlace(x, c, envid);
      SendFixed(x.m, CurDir(x, c), srcva, x.k.envs[l.i].pgdir, x.k.envs[l.i].dstva, perm);
    }
  }

  /** Sender and receiver have live address spaces, and the receiver asks for an
      aligned page, if for any. */
  lemma SendPlace(x: Whole, c: nat, envid: nat)
    requires Inv(x) && S.Trapped(x.k, c)
    requires var l := K.Envid2Env(x.k, c, envid, false); l.Found? && x.k.envs[l.i].recving
    ensures var e := x.k.envs[K.Envid2Env(x.k, c, envid, false).i];
            && CurDir(x, c) in x.m.dirs && e.pgdir in x.m.dirs && (e.dstva < UTOP ==> PGOFF(e.dstva) == 0)
  {
    var l := K.Envid2Env(x.k, c, envid, false);
    S.LookupLive(x.k, c, envid, false);
    assert Live(x, x.k.cpus[c].cur.at) && Live(x, l.i);
    assert S.EnvOk(x.k, l.i);
  }

  lemma OtherSameDir(k: K.State, b: S.Action, i: nat)
    requires S.Enabled(k, b) && !b.DoWork? && i < NENV
    ensures D.SameDir(k.envs[i], S.Next(k, b).envs[i])
  {
  }

  lemma OtherJoins(x: Whole, b: S.Action)
    requires Inv(x) && Enabled(x, Other(b))
    ensures Joined(Next(x, Other(b)))
  {
    var x' := Next(x, Other(b));
    forall i: nat | i < NENV ensures Live(x', i) <==> Live(x, i) {
      OtherSameDir(x.k, b, i);
    }
    forall i: nat | i < NENV ensures x'.k.envs[i].pgdir == x.k.envs[i].pgdir {
      OtherSameDir(x.k, b, i);
    }
    SameLiveJoined(x, x');
  }

  lemma SameLiveJoined(x: Whole, x': Whole)
    requires Joined(x) && x'.m == x.m && |x.k.envs| == |x'.k.envs| == NENV
    requires forall i: nat :: i < NENV ==> (Live(x', i) <==> Live(x, i))
    requires forall i: nat :: i < NENV ==> x'.k.envs[i].pgdir == x.k.envs[i].pgdir
    ensures Joined(x')
  {
    forall e | e in x'.m.dirs ensures exists i: nat :: Live(x', i) && x'.k.envs[i].pgdir == e {
      var i: nat :| Live(x, i) && x.k.envs[i].pgdir == e;
      assert Live(x', i);
    }
  }

  lemma StepKeeps(x: Whole, a: Action)
    requires Inv(x) && Enabled(x, a)
    ensures Inv(Next(x, a))
  {
    match a
    case Other(b) =>
      S.StepKeeps(x.k, b);
      OtherJoins(x, b);
    case Work(c, r) =>
      var op := KernelOp(x, c, r);
      assert S.CpuOk(x.k, c);
      if S.Trapped(x.k, c) {
        OpCareful(x, c, r);
        S.WorkKeeps(x.k, c, op);
        TrappedJoins(x, c, r);
      } else {
        S.WorkKeeps(x.k, c, op);
        IdleJoins(x, c, r);
      }
  }

  /** A CPU that was halted, or finds its environment dying. */
  lemma IdleJoins(x: Whole, c: nat, r: Request)
    requires Inv(x) && Enabled(x, Work(c, r)) && !S.Trapped(x.k, c)
    ensures var x' := Next(x, Work(c, r)); Paging.Inv(x'.m, multiset{}, {}) && Joined(x')
  {
    var op := KernelOp(x, c, r);
    assert S.CpuOk(x.k, c);
    if D.FreedSlot(x.k, c, op).To? {
      FreedIsLive(x, c, op);
      MemAfterFree(x, c, op, Next(x, Work(c, r)));
    } else {
      MemAfterQuiet(x, c, op, Next(x, Work(c, r)));
    }
  }

  // ------------------------------------------------------------------ whole runs

  ghost predicate StepOf(run: seq<Whole>, acts: seq<Action>, n: nat)
    requires n < |acts| && |run| == |acts| + 1
  {
    Enabled(run[n], acts[n]) && run[n + 1] == Next(run[n], acts[n])
  }

  ghost predicate Run(run: seq<Whole>, acts: seq<Action>) {
    && |run| == |acts| + 1
    && forall n: nat :: n < |acts| ==> StepOf(run, acts, n)
  }

  lemma StepOfKeeps(run: seq<Whole>, acts: seq<Action>, n: nat)
    requires n < |acts| && |run| == |acts| + 1 && StepOf(run, acts, n) && Inv(run[n])
    ensures Inv(run[n + 1])
  {
    StepKeeps(run[n], acts[n]);
  }

  lemma {:induction false} InvAlways(run: seq<Whole>, acts: seq<Action>, n: nat)
    requires Run(run, acts) && Inv(run[0]) && n < |run|
    ensures Inv(run[n])
    decreases n
  {
    if n > 0 {
      InvAlways(run, acts, n - 1);
      StepOfKeeps(run, acts, n - 1);
      assert run[n - 1 + 1] == run[n];
    }
  }

  /** In every run of all CPUs with their memory: counts and free list are exact, no
      environment runs on two CPUs, and the directory a CPU has loaded is kern_pgdir
      or a live, still allocated one, its own environment's. */
  lemma SystemSound(run: seq<Whole>, acts: seq<Action>, n: nat)
    requires Run(run, acts) && Inv(run[0]) && n < |run|
    ensures Paging.Inv(run[n].m, multiset{}, {}) && S.OneCpuEach(run[n].k)
    ensures forall c: nat :: c < |run[n].k.cpus| ==>
              run[n].k.cpus[c].cr3 == run[n].m.kern || run[n].k.cpus[c].cr3 in run[n].m.dirs
  {
    InvAlways(run, acts, n);
    S.InvOneCpuEach(run[n].k);
    var x := run[n];
    forall c: nat | c < |x.k.cpus| ensures x.k.cpus[c].cr3 == x.m.kern || x.k.cpus[c].cr3 in x.m.dirs {
      if x.k.cpus[c].cr3 != K.KERN_PGDIR {
        assert S.OwnDir(x.k, c);
        assert Live(x, x.k.cpus[c].cur.at);
      }
    }
  }

  /** A directory is loaded only where its environment is current. */
  lemma LoadedWhereCurrent(x: Whole, c: nat, i: nat)
    requires Inv(x) && c < |x.k.cpus| && i < NENV && Live(x, i) && x.k.cpus[c].cr3 == x.k.envs[i].pgdir
    ensures x.k.cpus[c].cur == To(i)
  {
    assert S.CpuOk(x.k, c) && S.EnvOk(x.k, i);
    var p := x.k.cpus[c];
    if p.cur.To? && p.cur.at != i {
      OtherDir(x.k, i, p.cur.at);
    }
  }

  /** So a teardown never removes a directory under another CPU: of the changes that
      call for a shootdown, only page calls on an environment that runs elsewhere
      remain. */
  lemma FreedNotLoaded(x: Whole, c: nat, r: Request, j: nat)
    requires Inv(x) && Enabled(x, Work(c, r)) && D.FreedSlot(x.k, c, KernelOp(x, c, r)).To?
    requires j < |x.k.cpus| && j != c
    ensures x.k.cpus[j].cr3 != x.k.envs[D.FreedSlot(x.k, c, KernelOp(x, c, r)).at].pgdir
  {
    var op := KernelOp(x, c, r);
    var f := D.FreedSlot(x.k, c, op).at;
    assert S.CpuOk(x.k, c);
    FreedIsLive(x, c, op);
    if x.k.cpus[j].cr3 == x.k.envs[f].pgdir {
      LoadedWhereCurrent(x, j, f);
      assert S.CpuOk(x.k, j);
      HolderAlone(x.k, c, j);
    }
  }

  /** What another CPU has current is on that CPU, while this one is in the kernel. */
  lemma HolderAlone(k: K.State, c: nat, j: nat)
    requires S.Inv(k) && c < |k.cpus| && j < |k.cpus| && c != j && k.cpus[c].mode.InKernel? && k.cpus[j].cur.To?
    ensures S.OnCpu(k.envs[k.cpus[j].cur.at]) && k.envs[k.cpus[j].cur.at].cpunum == j
  {
    assert S.CpuOk(k, j);
    assert S.InsideKernel(k.cpus[c]) && K.Holding(k, c);
    assert S.InsideKernel(k.cpus[j]) ==> K.Holding(k, j);
  }

  // ------------------------------------------------------------------------ boot

  /** Before the first scheduling: new environments with their address spaces, and
      slots never used. */
  ghost predicate Boots(x: Whole) {
    && Inv(x) && S.Init(x.k)
    && forall i: nat :: i < NENV && x.k.envs[i].status == K.Free ==> x.k.envs[i].allocs == 0
  }

  /** An empty table and a booted pool. */
  lemma EmptyBoots(n: nat, m: Mem)
    requires Booted(m) && m.kern == K.KERN_PGDIR && 0 in m.reserved
    ensures Boots(Whole(S.Empty(n), m))
  {
    S.EmptyInit(n);
    S.InitInv(S.Empty(n));
    BootedExact(m);
  }

  /** ENV_CREATE. */
  lemma CreateBoots(x: Whole)
    requires Boots(x) && x.k.free != [] && x.m.free != []
    ensures Boots(Whole(K.EnvAlloc(x.k, 0, x.m.free[0]).0, SetupVm(x.m).0))
  {
    ForkDirFresh(x);
    CreateInit(x.k, x.m.free[0]);
    S.InitInv(K.EnvAlloc(x.k, 0, x.m.free[0]).0);
    SetupKeeps(x.m, multiset{}, {});
    CreateJoins(x, Whole(K.EnvAlloc(x.k, 0, x.m.free[0]).0, SetupVm(x.m).0));
  }

  lemma CreateInit(k: K.State, pgdir: nat)
    requires S.Init(k) && k.free != [] && pgdir != 0 && S.FreshDir(k, pgdir)
    requires forall i: nat :: i < NENV && k.envs[i].status == K.Free ==> k.envs[i].allocs == 0
    ensures S.Init(K.EnvAlloc(k, 0, pgdir).0)
  {
    var r, f := K.EnvAlloc(k, 0, pgdir).0, k.free[0];
    assert f in k.free;
    NthIdClosed(f, 1);
    assert r.envs[f].id == NthId(f, 1);
    assert k.free == [f] + r.free;
  }

  lemma CreateJoins(x: Whole, x': Whole)
    requires Inv(x) && x.k.free != [] && x.m.free != [] && x.m.free[0] != 0 && S.Inv(x'.k)
    requires x'.k == K.EnvAlloc(x.k, 0, x.m.free[0]).0 && x'.m == SetupVm(x.m).0
    ensures Joined(x')
  {
    SetupKeeps(x.m, multiset{}, {});
    var f := x.k.free[0];
    assert f in x.k.free && Live(x', f) && x'.k.envs[f].pgdir == x.m.free[0];
    forall i: nat | Live(x', i) ensures x'.k.envs[i].pgdir in x'.m.dirs {
      assert i != f ==> Live(x, i);
    }
    forall e | e in x'.m.dirs ensures exists i: nat :: Live(x', i) && x'.k.envs[i].pgdir == e {
      if e != x.m.free[0] {
        var i: nat :| Live(x, i) && x.k.envs[i].pgdir == e;
        assert Live(x', i);
      }
    }
  }

  /** Loading a program allocates its pages. */
  lemma LoadBoots(x: Whole, call: Call)
    requires Boots(x) && call.Alloc? && Calls(call, x.m, CallResult(x.m, call))
    ensures Boots(Whole(x.k, CallResult(x.m, call)))
  {
    var x' := Whole(x.k, CallResult(x.m, call));
    CallFixed(x.m, call);
    forall e | e in x'.m.dirs ensures exists i: nat :: Live(x', i) && x'.k.envs[i].pgdir == e {
      var i: nat :| Live(x, i) && x.k.envs[i].pgdir == e;
      assert Live(x', i);
    }
    assert forall i: nat :: Live(x', i) ==> Live(x, i);
  }

  // ------------------------------------------------------------------- page sends

  /** The two halves of a send agree on its outcome. */
  lemma SendAgrees(x: Whole, c: nat, envid: nat, value: int, srcva: nat, perm: Word)
    requires Inv(x) && S.Trapped(x.k, c)
    requires var l := K.Envid2Env(x.k, c, envid, false); l.Found? && x.k.envs[l.i].recving
    ensures var e := x.k.envs[K.Envid2Env(x.k, c, envid, false).i];
            var op := OpOf(x, c, SendMsg(envid, value, srcva, perm));
            var r := K.SysIpcTrySend(x.k, c, envid, value, srcva, op.permOk, op.permW, op.page).1;
            && (r == 0 <==> IpcPage(x.m, CurDir(x, c), srcva, e.pgdir, e.dstva, perm).1 == OK)
            && (r == K.Code(K.NoMem) <==> IpcPage(x.m, CurDir(x, c), srcva, e.pgdir, e.dstva, perm).1 == NO_MEM)
            && (r == K.Code(K.Inval) <==> IpcPage(x.m, CurDir(x, c), srcva, e.pgdir, e.dstva, perm).1 == INVAL)
  {
  }

  /** A send that fails leaves all memory and every mapping as they were. */
  lemma FailedSendKeepsMemory(x: Whole, c: nat, envid: nat, value: int, srcva: nat, perm: Word)
    requires Inv(x) && Enabled(x, Work(c, SendMsg(envid, value, srcva, perm))) && S.Trapped(x.k, c)
    requires var op := OpOf(x, c, SendMsg(envid, value, srcva, perm));
             K.SysIpcTrySend(x.k, c, envid, value, srcva, op.permOk, op.permW, op.page).1 < 0
    ensures Next(x, Work(c, SendMsg(envid, value, srcva, perm))).m == x.m
  {
    SendMemory(x, c, envid, value, srcva, perm);
    FailedSendResult(x, c, envid, value, srcva, perm);
  }

  lemma SendMemory(x: Whole, c: nat, envid: nat, value: int, srcva: nat, perm: Word)
    requires Enabled(x, Work(c, SendMsg(envid, value, srcva, perm))) && S.Trapped(x.k, c)
    ensures Next(x, Work(c, SendMsg(envid, value, srcva, perm))).m == SendResult(x, c, envid, srcva, perm)
  {
    NextMemory(x, c, SendMsg(envid, value, srcva, perm));
    SendMemAfter(x, c, KernelOp(x, c, SendMsg(envid, value, srcva, perm)), envid, value, srcva, perm);
  }

  lemma NextMemory(x: Whole, c: nat, r: Request)
    requires Enabled(x, Work(c, r))
    ensures Next(x, Work(c, r)).m == MemAfter(x, c, KernelOp(x, c, r), r)
  {
  }

  lemma SendMemAfter(x: Whole, c: nat, op: K.Op, envid: nat, value: int, srcva: nat, perm: Word)
    requires S.Trapped(x.k, c) && op.TrySend?
    ensures MemAfter(x, c, op, SendMsg(envid, value, srcva, perm)) == SendResult(x, c, envid, srcva, perm)
  {
    assert D.FreedSlot(x.k, c, op).NULL?;
  }

  lemma FailedSendResult(x: Whole, c: nat, envid: nat, value: int, srcva: nat, perm: Word)
    requires Inv(x) && S.Trapped(x.k, c) && Careful(x, c, SendMsg(envid, value, srcva, perm))
    requires var op := OpOf(x, c, SendMsg(envid, value, srcva, perm));
             K.SysIpcTrySend(x.k, c, envid, value, srcva, op.permOk, op.permW, op.page).1 < 0
    ensures SendResult(x, c, envid, srcva, perm) == x.m
  {
    var l := K.Envid2Env(x.k, c, envid, false);
    if l.Found? && x.k.envs[l.i].recving {
      SendAgrees(x, c, envid, value, srcva, perm);
      SendPlace(x, c, envid);
      FailedSendMapsNothing(x.m, CurDir(x, c), srcva, x.k.envs[l.i].pgdir, x.k.envs[l.i].dstva, perm);
    }
  }
}
