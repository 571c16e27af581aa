/** The kernel, its page memory and the TLB of every CPU: in all runs in which nobody
    changes the mappings of an environment that is running on another CPU, no CPU
    ever uses a stale translation, although nothing tells it of the changes that
    others make. */
module SystemTlb {
  import opened Layout
  import K = Kernel
  import S = KernelSafety
  import D = Directories
  import opened Paging
  import opened AddressSpace
  import opened Teardown
  import opened PageCalls
  import T = Tlb
  import opened System

  /** tlbs: what each CPU has cached. */
  datatype Machine = Machine(x: Whole, tlbs: seq<map<nat, Word>>)

  /** The MMU of CPU j. */
  function MmuOf(s: Machine, j: nat): T.Mmu
    requires j < |s.x.k.cpus| == |s.tlbs|
  {
    var d := s.x.k.cpus[j].cr3;
    T.Mmu(if d == K.KERN_PGDIR then NULL else To(d), d, s.tlbs[j])
  }

  datatype Change = Same | Change(op: T.Op)

  /** What a page call does to address spaces. */
  ghost function CallChange(m: Mem, call: Call): Change {
    match call
    case Alloc(env, va, perm) =>
      if env.To? && UserPage(va) && PermOk(perm)
      then Change(T.AllocOp(env.at, PGNUM(va), {U, P} + perm.flags)) else Same
    case Map(src, srcva, dst, dstva, perm) =>
      if src.To? && dst.To? && UserPage(srcva) && UserPage(dstva) && PermOk(perm)
      then MapChange(m, src.at, srcva, dst.at, dstva, perm) else Same
    case Unmap(env, va) =>
      if env.To? && UserPage(va) then Change(T.RemoveOp(env.at, PGNUM(va))) else Same
    case _ => Same
  }

  ghost function MapChange(m: Mem, src: nat, srcva: nat, dst: nat, dstva: nat, perm: Word): Change {
    var w := Translate(m, src, PGNUM(srcva));
    if !Present(w) || (W in perm.flags && W !in w.flags) then Same
    else Change(T.InsertOp(dst, w.ppn, PGNUM(dstva), perm.flags))
  }

  ghost function SendChange(x: Whole, c: nat, envid: nat, srcva: nat, perm: Word): Change
    requires K.Here(x.k, c) && x.k.cpus[c].cur.To?
  {
    var l := K.Envid2Env(x.k, c, envid, false);
    if l.Found? && x.k.envs[l.i].recving && UserPage(srcva) && PermOk(perm) && x.k.envs[l.i].dstva < UTOP
    then MapChange(x.m, CurDir(x, c), srcva, x.k.envs[l.i].pgdir, x.k.envs[l.i].dstva, perm) else Same
  }

  /** What the work of CPU c does to address spaces. */
  ghost function ChangeOf(x: Whole, c: nat, r: Request): Change
    requires K.Here(x.k, c) && x.k.cpus[c].mode.InKernel?
  {
    var p := D.FreedSlot(x.k, c, KernelOp(x, c, r));
    if p.To? then Change(T.FreeEnvOp(x.k.envs[p.at].pgdir))
    else if !S.Trapped(x.k, c) then Same
    else
      match r
      case PageCall(call, eax) => CallChange(x.m, call)
      case Fork => if x.k.free == [] then Same else Change(T.SetupOp)
      case SendMsg(envid, value, srcva, perm) => SendChange(x, c, envid, srcva, perm)
      case _ => Same
  }

  /** The MMU of the CPU that makes the change: page_remove invalidates, env_free of
      the loaded directory loads kern_pgdir. */
  ghost function MmuAfter(m: Mem, u: T.Mmu, op: T.Op): T.Mmu {
    match op
    case InsertOp(d, pp, v, flags) => if Insert(m, d, pp, v, flags).1 then T.RemoveMmu(m, u, d, v) else u
    case AllocOp(d, v, flags) => if AllocMap(m, d, v, flags).1 then T.RemoveMmu(m, u, d, v) else u
    case RemoveOp(d, v) => T.RemoveMmu(m, u, d, v)
    case FreeEnvOp(d) => if u.curDir == To(d) then T.Mmu(NULL, m.kern, map[]) else u
    case _ => u
  }

  // ---------------------------------------------------- the change is one MMU operation

  lemma MapIsStep(m: Mem, u: T.Mmu, src: nat, srcva: nat, dst: nat, dstva: nat, perm: Word)
    requires T.Good(m, u) && src in m.dirs && dst in m.dirs && UserPage(srcva) && UserPage(dstva) && PermOk(perm)
    requires Countable(m, src, srcva, dst, dstva)
    ensures var h := MapChange(m, src, srcva, dst, dstva, perm);
            var m' := SysPageMap(m, To(src), srcva, To(dst), dstva, perm).0;
            if h.Same? then m' == m else T.Step(h.op, m, u, m', MmuAfter(m, u, h.op)) && T.Touches(h.op) == To(dst)
  {
    if Present(Translate(m, src, PGNUM(srcva))) {
      MapPage(m, src, srcva, dst, dstva, perm.flags);
    }
  }

  lemma CallIsStep(m: Mem, u: T.Mmu, call: Call)
    requires T.Good(m, u) && !call.Free? && !call.Exofork? && !call.Send? && Calls(call, m, CallResult(m, call))
    ensures var h := CallChange(m, call);
            if h.Same? then CallResult(m, call) == m
            else T.Step(h.op, m, u, CallResult(m, call), MmuAfter(m, u, h.op))
  {
    match call
    case Alloc(env, va, perm) =>
    case Map(src, srcva, dst, dstva, perm) =>
      if src.To? && dst.To? && UserPage(srcva) && UserPage(dstva) && PermOk(perm) {
        MapIsStep(m, u, src.at, srcva, dst.at, dstva, perm);
      }
    case Unmap(env, va) =>
  }

  lemma IpcIsStep(m: Mem, u: T.Mmu, src: nat, srcva: nat, dst: nat, dstva: nat, perm: Word)
    requires T.Good(m, u) && src in m.dirs && dst in m.dirs && (dstva < UTOP ==> PGOFF(dstva) == 0)
    requires Countable(m, src, srcva, dst, dstva)
    ensures var h := if UserPage(srcva) && PermOk(perm) && dstva < UTOP
                     then MapChange(m, src, srcva, dst, dstva, perm) else Same;
            var m' := IpcPage(m, src, srcva, dst, dstva, perm).0;
            if h.Same? then m' == m else T.Step(h.op, m, u, m', MmuAfter(m, u, h.op)) && T.Touches(h.op) == To(dst)
  {
    if UserPage(srcva) && PermOk(perm) && dstva < UTOP {
      MapIsStep(m, u, src, srcva, dst, dstva, perm);
    }
  }

  lemma SendIsStep(x: Whole, c: nat, u: T.Mmu, envid: nat, srcva: nat, perm: Word)
    requires System.Inv(x) && T.Good(x.m, u) && S.Trapped(x.k, c) && Careful(x, c, SendMsg(envid, 0, srcva, perm))
    ensures var h := SendChange(x, c, envid, srcva, perm);
            var m' := SendResult(x, c, envid, srcva, perm);
            if h.Same? then m' == x.m
            else
              var i := K.Envid2Env(x.k, c, envid, false).i;
              && Live(x, i) && x.k.envs[i].recving && T.Touches(h.op) == To(x.k.envs[i].pgdir)
              && T.Step(h.op, x.m, u, m', MmuAfter(x.m, u, h.op))
  {
    var l := K.Envid2Env(x.k, c, envid, false);
    if l.Found? && x.k.envs[l.i].recving {
      SendPlace(x, c, envid);
      S.LookupLive(x.k, c, envid, false);
      IpcIsStep(x.m, u, CurDir(x, c), srcva, x.k.envs[l.i].pgdir, x.k.envs[l.i].dstva, perm);
    }
  }

  /** The memory work of a step is the change it is said to be. */
  lemma ChangeIsStep(x: Whole, c: nat, r: Request, u: T.Mmu)
    requires System.Inv(x) && Enabled(x, Work(c, r)) && T.Good(x.m, u)
    ensures var h := ChangeOf(x, c, r);
            var m' := MemAfter(x, c, KernelOp(x, c, r), r);
            if h.Same? then m' == x.m else T.Step(h.op, x.m, u, m', MmuAfter(x.m, u, h.op))
  {
    var op := KernelOp(x, c, r);
    assert S.CpuOk(x.k, c);
    if D.FreedSlot(x.k, c, op).To? {
      FreedIsLive(x, c, op);
    } else if S.Trapped(x.k, c) {
      match r
      case PageCall(call, eax) => CallIsStep(x.m, u, call);
      case SendMsg(envid, value, srcva, perm) => SendIsStep(x, c, u, envid, srcva, perm);
      case _ =>
    }
  }

  // ------------------------------------------------ whose directory the change touches

  /** The directory that a page call changes. */
  function Target(call: Call): Ptr {
    match call
    case Alloc(env, va, perm) => env
    case Map(src, srcva, dst, dstva, perm) => dst
    case Unmap(env, va) => env
    case _ => NULL
  }

  /** No other CPU has the directory loaded whose mappings the caller changes. */
  predicate Calm(x: Whole, c: nat, r: Request) {
    r.PageCall? && Target(r.call).To? ==>
      forall j: nat :: j < |x.k.cpus| && j != c ==> x.k.cpus[j].cr3 != Target(r.call).at
  }

  /** That is so exactly when the environment it names is not on another CPU. */
  lemma CalmIff(x: Whole, c: nat, r: Request, i: nat)
    requires System.Inv(x) && c < |x.k.cpus| && x.k.cpus[c].mode.InKernel? && Live(x, i)
    requires r.PageCall? && Target(r.call) == To(x.k.envs[i].pgdir)
    ensures Calm(x, c, r) <==> !S.OnCpu(x.k.envs[i]) || x.k.envs[i].cpunum == c
  {
    assert S.EnvOk(x.k, i);
    forall j: nat | j < |x.k.cpus| && j != c && x.k.cpus[j].cr3 == x.k.envs[i].pgdir
      ensures S.OnCpu(x.k.envs[i]) && x.k.envs[i].cpunum == j
    {
      LoadedWhereCurrent(x, j, i);
      HolderAlone(x.k, c, j);
    }
    if S.OnCpu(x.k.envs[i]) {
      assert S.CpuOk(x.k, x.k.envs[i].cpunum);
    }
  }

  /** Receivers are asleep, dying address spaces are loaded nowhere else, and new ones
      nowhere: only page calls need care. */
  lemma TouchesNoOther(x: Whole, c: nat, r: Request, j: nat)
    requires System.Inv(x) && Enabled(x, Work(c, r)) && Calm(x, c, r) && j < |x.k.cpus| && j != c
    requires ChangeOf(x, c, r).Change?
    ensures T.Touches(ChangeOf(x, c, r).op) != To(x.k.cpus[j].cr3)
  {
    if D.FreedSlot(x.k, c, KernelOp(x, c, r)).To? {
      FreedNotLoaded(x, c, r, j);
    } else {
      match r
      case PageCall(call, eax) =>
      case SendMsg(envid, value, srcva, perm) => ReceiverNotLoaded(x, c, envid, srcva, perm, j);
      case _ =>
    }
  }

  lemma ReceiverNotLoaded(x: Whole, c: nat, envid: nat, srcva: nat, perm: Word, j: nat)
    requires System.Inv(x) && S.Trapped(x.k, c) && Careful(x, c, SendMsg(envid, 0, srcva, perm))
    requires j < |x.k.cpus| && j != c && SendChange(x, c, envid, srcva, perm).Change?
    ensures T.Touches(SendChange(x, c, envid, srcva, perm).op) != To(x.k.cpus[j].cr3)
  {
    var i := K.Envid2Env(x.k, c, envid, false).i;
    S.LookupLive(x.k, c, envid, false);
    assert S.EnvOk(x.k, i);
    if x.k.cpus[j].cr3 == x.k.envs[i].pgdir {
      LoadedWhereCurrent(x, j, i);
      HolderAlone(x.k, c, j);
    }
  }

  // -------------------------------------------------------------------------- steps

  datatype Move = Fill(j: nat, v: nat) | Step(a: Action)

  ghost predicate May(s: Machine, b: Move) {
    && |s.x.k.cpus| == |s.tlbs|
    && match b
       case Fill(j, v) => j < |s.tlbs| && v < UTOP_VPN && Present(Translate(s.x.m, s.x.k.cpus[j].cr3, v))
       case Step(a) => Enabled(s.x, a) && (a.Work? ==> Calm(s.x, a.c, a.r))
  }

  /** The cache of a CPU after its work: emptied if it has loaded another directory. */
  ghost function TlbAfter(s: Machine, c: nat, r: Request): map<nat, Word>
    requires |s.x.k.cpus| == |s.tlbs| && Enabled(s.x, Work(c, r))
  {
    if Next(s.x, Work(c, r)).k.cpus[c].cr3 != s.x.k.cpus[c].cr3 then map[]
    else
      var h := ChangeOf(s.x, c, r);
      if h.Same? then s.tlbs[c] else MmuAfter(s.x.m, MmuOf(s, c), h.op).tlb
  }

  ghost function After(s: Machine, b: Move): Machine
    requires May(s, b)
  {
    match b
    case Fill(j, v) => s.(tlbs := s.tlbs[j := s.tlbs[j][v := Translate(s.x.m, s.x.k.cpus[j].cr3, v)]])
    case Step(a) =>
      if a.Work? then Machine(Next(s.x, a), s.tlbs[a.c := TlbAfter(s, a.c, a.r)]) else Machine(Next(s.x, a), s.tlbs)
  }

  /** Every cache agrees with the tables its CPU has loaded. */
  ghost predicate Right(s: Machine) {
    && System.Inv(s.x) && |s.x.k.cpus| == |s.tlbs|
    && forall j: nat :: j < |s.tlbs| ==> T.Good(s.x.m, MmuOf(s, j))
  }

  /** The loaded directory, and a sound cache. */
  lemma GoodMmu(s: Machine, j: nat)
    requires System.Inv(s.x) && j < |s.x.k.cpus| == |s.tlbs| && T.Sound(s.x.m, MmuOf(s, j))
    ensures T.Good(s.x.m, MmuOf(s, j))
  {
    if s.x.k.cpus[j].cr3 != K.KERN_PGDIR {
      S.InvOneCpuEach(s.x.k);
      assert S.OwnDir(s.x.k, j);
      assert Live(s.x, s.x.k.cpus[j].cur.at);
    }
  }

  lemma BystanderRight(s: Machine, c: nat, r: Request, j: nat)
    requires Right(s) && May(s, Step(Work(c, r))) && System.Inv(Next(s.x, Work(c, r)))
    requires j < |s.tlbs| && j != c
    ensures T.Sound(Next(s.x, Work(c, r)).m, MmuOf(s, j))
  {
    var m' := MemAfter(s.x, c, KernelOp(s.x, c, r), r);
    NextMemory(s.x, c, r);
    ChangeIsStep(s.x, c, r, MmuOf(s, c));
    var h := ChangeOf(s.x, c, r);
    if h.Change? {
      TouchesNoOther(s.x, c, r, j);
      T.BystanderGood(h.op, s.x.m, MmuOf(s, c), m', MmuAfter(s.x.m, MmuOf(s, c), h.op), MmuOf(s, j));
    }
  }

  lemma OwnRight(s: Machine, c: nat, r: Request)
    requires Right(s) && May(s, Step(Work(c, r))) && System.Inv(Next(s.x, Work(c, r)))
    ensures T.Sound(Next(s.x, Work(c, r)).m, MmuOf(After(s, Step(Work(c, r))), c))
  {
    var m' := MemAfter(s.x, c, KernelOp(s.x, c, r), r);
    var u := MmuOf(s, c);
    NextMemory(s.x, c, r);
    ChangeIsStep(s.x, c, r, u);
    var h := ChangeOf(s.x, c, r);
    if h.Change? {
      T.StepGood(h.op, s.x.m, u, m', MmuAfter(s.x.m, u, h.op));
      SameDirectory(s.x.m, u, h.op);
    }
  }

  lemma SameDirectory(m: Mem, u: T.Mmu, op: T.Op)
    ensures MmuAfter(m, u, op).cr3 == u.cr3 || MmuAfter(m, u, op).tlb == map[]
  {
  }

  lemma WorkRight(s: Machine, c: nat, r: Request)
    requires Right(s) && May(s, Step(Work(c, r)))
    ensures Right(After(s, Step(Work(c, r))))
  {
    StepKeeps(s.x, Work(c, r));
    var s' := After(s, Step(Work(c, r)));
    forall j: nat | j < |s'.tlbs| ensures T.Good(s'.x.m, MmuOf(s', j)) {
      if j == c {
        OwnRight(s, c, r);
      } else {
        BystanderRight(s, c, r, j);
        WorkMovesOne(s.x, c, r, j);
        assert MmuOf(s', j) == MmuOf(s, j);
      }
      GoodMmu(s', j);
    }
  }

  lemma WorkMovesOne(x: Whole, c: nat, r: Request, j: nat)
    requires Enabled(x, Work(c, r)) && j < |x.k.cpus| && j != c
    ensures |Next(x, Work(c, r)).k.cpus| == |x.k.cpus| && Next(x, Work(c, r)).k.cpus[j] == x.k.cpus[j]
  {
  }

  /** Entering the kernel, trying the lock and reading a message load no directory. */
  lemma OtherLoadsNothing(k: K.State, b: S.Action, j: nat)
    requires S.Enabled(k, b) && !b.DoWork? && j < |k.cpus|
    ensures |S.Next(k, b).cpus| == |k.cpus| && S.Next(k, b).cpus[j].cr3 == k.cpus[j].cr3
  {
  }

  lemma OtherRight(s: Machine, b: S.Action)
    requires Right(s) && May(s, Step(Other(b)))
    ensures Right(After(s, Step(Other(b))))
  {
    StepKeeps(s.x, Other(b));
    var s' := After(s, Step(Other(b)));
    OtherLoadsNothing(s.x.k, b, 0);
    forall j: nat | j < |s'.tlbs| ensures T.Good(s'.x.m, MmuOf(s', j)) {
      OtherLoadsNothing(s.x.k, b, j);
      assert MmuOf(s', j) == MmuOf(s, j);
    }
  }

  lemma FillRight(s: Machine, j: nat, v: nat)
    requires Right(s) && May(s, Fill(j, v))
    ensures Right(After(s, Fill(j, v)))
  {
    var s' := After(s, Fill(j, v));
    forall i: nat | i < |s'.tlbs| ensures T.Good(s'.x.m, MmuOf(s', i)) {
      assert T.Good(s.x.m, MmuOf(s, i));
    }
  }

  lemma MoveRight(s: Machine, b: Move)
    requires Right(s) && May(s, b)
    ensures Right(After(s, b))
  {
    match b
    case Fill(j, v) => FillRight(s, j, v);
    case Step(a) =>
      match a
      case Work(c, r) => WorkRight(s, c, r);
      case Other(o) => OtherRight(s, o);
  }

  // ------------------------------------------------------------------------ whole runs

  ghost predicate MoveOf(run: seq<Machine>, moves: seq<Move>, n: nat)
    requires n < |moves| && |run| == |moves| + 1
  {
    May(run[n], moves[n]) && run[n + 1] == After(run[n], moves[n])
  }

  ghost predicate Runs(run: seq<Machine>, moves: seq<Move>) {
    && |run| == |moves| + 1
    && forall n: nat :: n < |moves| ==> MoveOf(run, moves, n)
  }

  /** In every run of the whole kernel, with arbitrary cache fills on every CPU, in
      which page calls name only environments that are on no other CPU, the cache of
      every CPU agrees with the tables it has loaded. */
  lemma {:induction false} EveryCpuRight(run: seq<Machine>, moves: seq<Move>, n: nat)
    requires Runs(run, moves) && Right(run[0]) && n < |run|
    ensures Right(run[n])
    decreases n
  {
    if n > 0 {
      EveryCpuRight(run, moves, n - 1);
      assert MoveOf(run, moves, n - 1);
      MoveRight(run[n - 1], moves[n - 1]);
      assert run[n - 1 + 1] == run[n];
    }
  }

  /** Where such runs start. */
  lemma BootRight(x: Whole)
    requires Boots(x)
    ensures Right(Machine(x, seq(|x.k.cpus|, j => map[])))
  {
    var s := Machine(x, seq(|x.k.cpus|, j => map[]));
    forall j: nat | j < |s.tlbs| ensures T.Good(x.m, MmuOf(s, j)) {
      GoodMmu(s, j);
    }
  }
}
