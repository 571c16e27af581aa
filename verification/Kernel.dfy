/** Environments, CPUs and the big kernel lock: the state, and what the kernel
    functions of env.c, sched.c, trap.c, spinlock.c and syscall.c do to it. */
module Kernel {
  import opened Layout
  import opened EnvIds

  const KERN_PGDIR := 1     // the page of kern_pgdir

  datatype Status = Free | Dying | Runnable | Running | NotRunnable

  /** A message as its receiver finds it. */
  datatype Msg = Msg(from: int, value: int)

  /** struct Env, and four history fields the source does not have: allocs counts
      the allocations of the slot; of the present incarnation, sent and got are
      the messages sent to it and read by it, and inRecv says that a receive has
      been called whose message has not been read. */
  datatype Env = Env(
    id: int, parent: int, status: Status, runs: nat, cpunum: nat, pgdir: nat, eax: int,
    recving: bool, dstva: nat, value: int, from: int,
    allocs: nat, sent: seq<Msg>, got: seq<Msg>, inRecv: bool)

  /** What a CPU is doing. Spinning waits for the lock and has more acquisitions to
      make after this one; user says that it was user code that was interrupted.
      A CPU that finds no environment in the system at all stays in the monitor. */
  datatype Mode =
    | Booting
    | User
    | Halted
    | Spinning(user: bool, more: nat)
    | InKernel(user: bool)
    | Monitor

  /** halted is cpu_status == CPU_HALTED. */
  datatype Cpu = Cpu(mode: Mode, cur: Ptr, cr3: nat, halted: bool)

  datatype Lock = Lock(locked: bool, cpu: Ptr)

  datatype State = State(envs: seq<Env>, cpus: seq<Cpu>, free: seq<nat>, lock: Lock, panicked: bool)

  /** Everything that indexing needs. */
  predicate Sized(k: State) {
    && |k.envs| == NENV && |k.cpus| >= 1
    && (forall c :: 0 <= c < |k.cpus| && k.cpus[c].cur.To? ==> k.cpus[c].cur.at < NENV)
    && (forall j :: 0 <= j < |k.free| ==> k.free[j] < NENV)
    && (forall i :: 0 <= i < NENV ==> 0 <= k.envs[i].id < 0x8000_0000)
  }

  predicate Here(k: State, c: nat) {
    Sized(k) && c < |k.cpus|
  }

  /** Only CPU c has moved. */
  predicate OnlyMoves(k: State, r: State, c: nat) {
    && Here(k, c) && Here(r, c) && |r.cpus| == |k.cpus|
    && forall d :: 0 <= d < |k.cpus| && d != c ==> r.cpus[d] == k.cpus[d]
  }

  function SetCpu(k: State, c: nat, p: Cpu): State
    requires c < |k.cpus|
  {
    k.(cpus := k.cpus[c := p])
  }

  function SetEnv(k: State, i: nat, e: Env): State
    requires i < |k.envs|
  {
    k.(envs := k.envs[i := e])
  }

  predicate CurRunning(k: State, c: nat)
    requires Here(k, c)
  {
    k.cpus[c].cur.To? && k.envs[k.cpus[c].cur.at].status == Running
  }

  // ---------------------------------------------------------------------- lock

  /** lock_kernel() by a CPU: a holder panics, anybody else starts to spin. */
  predicate Holding(k: State, c: nat) {
    k.lock.locked && k.lock.cpu == To(c)
  }

  /** One xchg of the spin loop. */
  function TryLock(k: State, c: nat): (r: State)
    requires Here(k, c) && k.cpus[c].mode.Spinning?
    ensures OnlyMoves(k, r, c)
  {
    var Spinning(user, more) := k.cpus[c].mode;
    if Holding(k, c) then
      k.(panicked := true)
    else if k.lock.locked then
      k
    else
      var mode := if more == 0 then InKernel(user) else Spinning(user, more - 1);
      SetCpu(k, c, k.cpus[c].(mode := mode)).(lock := Lock(true, To(c)))
  }

  function Unlock(k: State, c: nat): (r: State)
    requires Here(k, c)
    ensures OnlyMoves(k, r, c)
  {
    if Holding(k, c) then k.(lock := Lock(false, NULL)) else k.(panicked := true)
  }

  // ------------------------------------------------------- running environments

  /** The context switch of env_run. */
  function SwitchTo(k: State, c: nat, i: nat): (r: State)
    requires Here(k, c) && i < NENV
    ensures OnlyMoves(k, r, c)
  {
    if k.cpus[c].cur == To(i) then k
    else
      var k0 := if CurRunning(k, c)
                then SetEnv(k, k.cpus[c].cur.at, k.envs[k.cpus[c].cur.at].(status := Runnable)) else k;
      var k1 := SetCpu(k0, c, k0.cpus[c].(cur := To(i), cr3 := k0.envs[i].pgdir));
      SetEnv(k1, i, k1.envs[i].(status := Running, runs := k1.envs[i].runs + 1))
  }

  /** env_run, up to the iret. */
  function EnvRun(k: State, c: nat, i: nat): (r: State)
    requires Here(k, c) && i < NENV
    ensures OnlyMoves(k, r, c)
  {
    var k1 := Unlock(SwitchTo(k, c, i), c);
    var k2 := SetEnv(k1, i, k1.envs[i].(cpunum := c));
    SetCpu(k2, c, k2.cpus[c].(mode := User))
  }

  /** Some environment can still run, now or later. */
  predicate AnyLeft(k: State) {
    exists i :: 0 <= i < |k.envs| &&
      (k.envs[i].status == Runnable || k.envs[i].status == Running || k.envs[i].status == Dying)
  }

  function SchedHalt(k: State, c: nat): (r: State)
    requires Here(k, c)
    ensures OnlyMoves(k, r, c)
  {
    if !AnyLeft(k) then
      SetCpu(k, c, k.cpus[c].(mode := Monitor))
    else
      var k1 := Unlock(SetCpu(k, c, k.cpus[c].(cur := NULL, cr3 := KERN_PGDIR, halted := true)), c);
      SetCpu(k1, c, k1.cpus[c].(mode := Halted))
  }

  function Wrap(i: nat): (r: nat)
    ensures r < NENV
    ensures i < NENV ==> r == i
    ensures NENV <= i < 2 * NENV ==> r == i - NENV
  {
    i % 1024
  }

  /** The first runnable one of the n slots from, from + 1, ... around the table. */
  function Pick(envs: seq<Env>, from: nat, n: nat): (r: Ptr)
    requires |envs| == NENV
    ensures r.To? ==> r.at < NENV && envs[r.at].status == Runnable
    decreases n
  {
    if n == 0 then NULL
    else if envs[Wrap(from)].status == Runnable then To(Wrap(from))
    else Pick(envs, from + 1, n - 1)
  }

  function ScanStart(k: State, c: nat): (r: nat)
    requires Here(k, c)
    ensures r < NENV
  {
    if k.cpus[c].cur.To? then EnvX(k.envs[k.cpus[c].cur.at].id) else 0
  }

  function SchedYield(k: State, c: nat): (r: State)
    requires Here(k, c)
    ensures OnlyMoves(k, r, c)
  {
    var start := ScanStart(k, c);
    var p := Pick(k.envs, start, NENV);
    if p.To? then EnvRun(k, c, p.at)
    else if CurRunning(k, c) then EnvRun(k, c, k.cpus[c].cur.at)
    else SchedHalt(k, c)
  }

  // ------------------------------------------------------------ environment table

  datatype Errno = BadEnv | NoFreeEnv | NoMem | Inval | IpcNotRecv

  /** The value a system call leaves in %eax. */
  function Code(e: Errno): (r: int)
    ensures r < 0
  {
    match e
    case BadEnv => -2
    case Inval => -3
    case NoMem => -4
    case NoFreeEnv => -5
    case IpcNotRecv => -7
  }

  datatype Lookup = Found(i: nat) | Bad

  /** envid2env for a caller with a current environment. */
  function Envid2Env(k: State, c: nat, envid: nat, checkperm: bool): (r: Lookup)
    requires Here(k, c) && k.cpus[c].cur.To?
    ensures r.Found? ==> r.i < NENV
  {
    var cur := k.cpus[c].cur.at;
    if envid == 0 then Found(cur)
    else
      var i := EnvX(envid);
      if k.envs[i].status == Free || k.envs[i].id != envid then Bad
      else if checkperm && i != cur && k.envs[i].parent != k.envs[cur].id then Bad
      else Found(i)
  }

  /** env_alloc; pgdir is the page of the new directory, 0 if none can be had. */
  function EnvAlloc(k: State, parent: int, pgdir: nat): (r: (State, int))
    requires Sized(k)
    ensures Sized(r.0) && r.0.cpus == k.cpus
    ensures r.1 > 0 ==> k.free != [] && r.0.envs[k.free[0]].id == r.1
  {
    if k.free == [] then (k, Code(NoFreeEnv))
    else if pgdir == 0 then (k, Code(NoMem))
    else
      var i := k.free[0];
      var e := k.envs[i];
      var id := NextId(e.id, i);
      (SetEnv(k, i, e.(id := id, parent := parent, status := Runnable, runs := 0, pgdir := pgdir, eax := 0,
                       recving := false, allocs := e.allocs + 1, sent := [], got := [], inRecv := false))
       .(free := k.free[1..]), id)
  }

  function EnvFree(k: State, c: nat, i: nat): (r: State)
    requires Here(k, c) && i < NENV
    ensures OnlyMoves(k, r, c)
  {
    var k1 := if k.cpus[c].cur == To(i) then SetCpu(k, c, k.cpus[c].(cr3 := KERN_PGDIR)) else k;
    SetEnv(k1, i, k1.envs[i].(status := Free, pgdir := 0)).(free := [i] + k1.free)
  }

  function NoCur(k: State, c: nat): (r: State)
    requires Here(k, c)
    ensures OnlyMoves(k, r, c)
  {
    SetCpu(k, c, k.cpus[c].(cur := NULL))
  }

  function EnvDestroy(k: State, c: nat, i: nat): (r: State)
    requires Here(k, c) && i < NENV
    ensures OnlyMoves(k, r, c)
  {
    if k.envs[i].status == Running && k.cpus[c].cur != To(i) then
      SetEnv(k, i, k.envs[i].(status := Dying))
    else if k.cpus[c].cur == To(i) then
      SchedYield(NoCur(EnvFree(k, c, i), c), c)
    else
      EnvFree(k, c, i)
  }

  // ---------------------------------------------------------------- system calls

  /** What page_lookup and page_insert find when a send carries a page. */
  datatype PageFate = PageFate(srcMapped: bool, srcWritable: bool, inserted: bool)

  datatype Op =
    | Resume(eax: int)                 // a call that changes no environment but its caller
    | Yield
    | Fault                            // an unhandled trap
    | Destroy(envid: nat)
    | Exofork(pgdir: nat)
    | SetStatus(envid: nat, status: Status)
    | TrySend(envid: nat, value: int, srcva: nat, permOk: bool, permW: bool, page: PageFate)
    | Recv(dstva: nat)

  predicate Returned(k: State, c: nat)
    requires Here(k, c)
  {
    k.cpus[c].mode.InKernel?
  }

  /** The system call result goes to the saved %eax of the caller. */
  function SetEax(k: State, i: nat, r: int): (k': State)
    requires Sized(k) && i < NENV
    ensures Sized(k') && k'.cpus == k.cpus
  {
    SetEnv(k, i, k.envs[i].(eax := r))
  }

  function SysExofork(k: State, c: nat, pgdir: nat): (r: (State, int))
    requires Here(k, c) && k.cpus[c].cur.To?
    ensures OnlyMoves(k, r.0, c)
  {
    var (k1, id) := EnvAlloc(k, k.envs[k.cpus[c].cur.at].id, pgdir);
    if id < 0 then (k1, id)
    else (SetEnv(k1, k.free[0], k1.envs[k.free[0]].(status := NotRunnable, eax := 0)), id)
  }

  function SysEnvSetStatus(k: State, c: nat, envid: nat, status: Status): (r: (State, int))
    requires Here(k, c) && k.cpus[c].cur.To?
    ensures OnlyMoves(k, r.0, c)
  {
    match Envid2Env(k, c, envid, true)
    case Bad => (k, Code(BadEnv))
    case Found(i) =>
      if status != Runnable && status != NotRunnable then (k, Code(Inval))
      else (SetEnv(k, i, k.envs[i].(status := status)), 0)
  }

  /** The page part of a send: the error it ends with, if any. */
  function SendPage(e: Env, srcva: nat, permOk: bool, permW: bool, page: PageFate): int {
    if srcva >= UTOP then 0
    else if PGOFF(srcva) != 0 then Code(Inval)
    else if !permOk then Code(Inval)
    else if !page.srcMapped then Code(Inval)
    else if !page.srcWritable && permW then Code(Inval)
    else if e.dstva < UTOP && !page.inserted then Code(NoMem)
    else 0
  }

  function SysIpcTrySend(k: State, c: nat, envid: nat, value: int, srcva: nat, permOk: bool, permW: bool,
                         page: PageFate): (r: (State, int))
    requires Here(k, c) && k.cpus[c].cur.To?
    ensures OnlyMoves(k, r.0, c)
  {
    match Envid2Env(k, c, envid, false)
    case Bad => (k, Code(BadEnv))
    case Found(i) =>
      var e := k.envs[i];
      if !e.recving then (k, Code(IpcNotRecv))
      else
        var r := SendPage(e, srcva, permOk, permW, page);
        if r < 0 then (k, r)
        else
          var from := k.envs[k.cpus[c].cur.at].id;
          (SetEnv(k, i, e.(recving := false, from := from, value := value, eax := 0, status := Runnable,
                           sent := e.sent + [Msg(from, value)])), 0)
  }

  /** The current environment blocked in a receive. */
  function Asleep(k: State, c: nat, dstva: nat): (r: State)
    requires Here(k, c) && k.cpus[c].cur.To?
    ensures OnlyMoves(k, r, c) && r.cpus == k.cpus
  {
    var i := k.cpus[c].cur.at;
    SetEnv(k, i, k.envs[i].(recving := true, dstva := dstva, status := NotRunnable, inRecv := true))
  }

  function SysIpcRecv(k: State, c: nat, dstva: nat): (r: (State, int))
    requires Here(k, c) && k.cpus[c].cur.To?
    ensures OnlyMoves(k, r.0, c)
  {
    if dstva < UTOP && PGOFF(dstva) != 0 then (k, Code(Inval))
    else (SchedYield(Asleep(k, c, dstva), c), 0)
  }

  // ------------------------------------------------------------------------ trap

  /** A system call that returned leaves its result with the caller. */
  function Return(r: (State, int), c: nat, i: nat): (k': State)
    requires Here(r.0, c) && i < NENV
    ensures OnlyMoves(r.0, k', c)
  {
    if Returned(r.0, c) then SetEax(r.0, i, r.1) else r.0
  }

  function Dispatch(k: State, c: nat, op: Op): (r: State)
    requires Here(k, c) && k.cpus[c].cur.To?
    ensures OnlyMoves(k, r, c)
  {
    var i := k.cpus[c].cur.at;
    match op
    case Resume(eax) => SetEax(k, i, eax)
    case Yield => SchedYield(k, c)
    case Fault => EnvDestroy(k, c, i)
    case Destroy(envid) =>
      (match Envid2Env(k, c, envid, true)
       case Bad => SetEax(k, i, Code(BadEnv))
       case Found(j) => Return((EnvDestroy(k, c, j), 0), c, i))
    case Exofork(pgdir) => Return(SysExofork(k, c, pgdir), c, i)
    case SetStatus(envid, status) => Return(SysEnvSetStatus(k, c, envid, status), c, i)
    case TrySend(envid, value, srcva, permOk, permW, page) =>
      Return(SysIpcTrySend(k, c, envid, value, srcva, permOk, permW, page), c, i)
    case Recv(dstva) => Return(SysIpcRecv(k, c, dstva), c, i)
  }

  /** The end of trap(): back to the current environment if that makes sense. */
  function Finish(k: State, c: nat): (r: State)
    requires Here(k, c)
    ensures OnlyMoves(k, r, c)
  {
    if !Returned(k, c) then k
    else if CurRunning(k, c) then EnvRun(k, c, k.cpus[c].cur.at)
    else SchedYield(k, c)
  }

  /** All a CPU does between acquiring and releasing the lock: the zombie check and
      the dispatch if user code was interrupted, the scheduler otherwise. */
  function Work(k: State, c: nat, op: Op): (r: State)
    requires Here(k, c) && k.cpus[c].mode.InKernel?
    ensures OnlyMoves(k, r, c)
  {
    if !k.cpus[c].mode.user then SchedYield(k, c)
    else if k.cpus[c].cur.NULL? then k.(panicked := true)
    else if k.envs[k.cpus[c].cur.at].status == Dying then
      SchedYield(NoCur(EnvFree(k, c, k.cpus[c].cur.at), c), c)
    else Finish(Dispatch(k, c, op), c)
  }

  /** The way into trap(): lock_kernel once if the CPU was halted, and once if user
      code was interrupted. */
  function Trap(k: State, c: nat): (r: State)
    requires Here(k, c)
    ensures OnlyMoves(k, r, c)
  {
    var p := k.cpus[c];
    var user := p.mode == User;
    var locks := (if p.halted then 1 else 0) + (if user then 1 else 0);
    SetCpu(k, c, p.(halted := false, mode := if locks == 0 then InKernel(user) else Spinning(user, locks - 1)))
  }

  /** An application processor at the end of its set-up. */
  function ApStart(k: State, c: nat): (r: State)
    requires Here(k, c)
    ensures OnlyMoves(k, r, c)
  {
    SetCpu(k, c, k.cpus[c].(halted := false, mode := Spinning(false, 0)))
  }

  /** Where ipc_recv, back in user code, reads the message. */
  function ReadMsg(k: State, c: nat): (r: State)
    requires Here(k, c) && k.cpus[c].cur.To?
    ensures OnlyMoves(k, r, c)
  {
    var i := k.cpus[c].cur.at;
    var e := k.envs[i];
    SetEnv(k, i, e.(got := e.got + [Msg(e.from, e.value)], inRecv := false))
  }
}
