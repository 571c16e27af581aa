/** The kernel functions of env.c, sched.c, spinlock.c, syscall.c and trap.c as
    they run: tables updated in place, search loops, the linked free list.  Every
    method is tied to the function of the same name in Kernel, whose properties
    KernelSafety and the modules after it prove. */
module KernelCode {
  import opened Layout
  import opened EnvIds
  import opened Kernel
  import opened KernelSafety

  class Machine {
    const envs: array<Env>
    const link: array<Ptr>         // env_link
    const cpus: array<Cpu>
    var envFreeList: Ptr
    var locked: bool
    var lockCpu: Ptr
    var panicked: bool
    ghost var free: seq<nat>

    ghost function View(): State
      reads this, envs, cpus
    {
      State(envs[..], cpus[..], free, Lock(locked, lockCpu), panicked)
    }

    /** Following env_link from env_free_list spells the free list. */
    ghost predicate Linked()
      reads this, link
    {
      && link.Length == NENV && envFreeList == Head(free, 0)
      && forall k :: 0 <= k < |free| ==> free[k] < NENV && link[free[k]] == Head(free, k + 1)
    }

    ghost predicate Valid()
      reads this, envs, cpus, link
    {
      Sized(View()) && Linked()
    }

    method PutEnv(i: nat, e: Env)
      requires Valid() && i < NENV && 0 <= e.id < 0x8000_0000
      modifies envs
      ensures Valid() && View() == SetEnv(old(View()), i, e)
    {
      envs[i] := e;
      assert envs[..] == old(envs[..])[i := e];
    }

    method PutCpu(c: nat, p: Cpu)
      requires Valid() && c < cpus.Length && (p.cur.To? ==> p.cur.at < NENV)
      modifies cpus
      ensures Valid() && View() == SetCpu(old(View()), c, p)
    {
      cpus[c] := p;
      assert cpus[..] == old(cpus[..])[c := p];
    }

    // -------------------------------------------------------------------- lock

    /** One turn of the loop in spin_lock, with the check before it. */
    method TrySpinLock(c: nat)
      requires Valid() && c < cpus.Length && cpus[c].mode.Spinning?
      modifies this`locked, this`lockCpu, this`panicked, cpus
      ensures Valid() && View() == TryLock(old(View()), c)
    {
      if locked && lockCpu == To(c) {
        panicked := true;
        return;
      }
      var was := locked;
      locked := true;
      if !was {
        lockCpu := To(c);
        var Spinning(user, more) := cpus[c].mode;
        PutCpu(c, cpus[c].(mode := if more == 0 then InKernel(user) else Spinning(user, more - 1)));
      }
    }

    method SpinUnlock(c: nat)
      requires Valid() && c < cpus.Length
      modifies this`locked, this`lockCpu, this`panicked
      ensures Valid() && View() == Unlock(old(View()), c)
    {
      if !(locked && lockCpu == To(c)) {
        panicked := true;
      } else {
        lockCpu := NULL;
        locked := false;
      }
    }

    // --------------------------------------------------------------- scheduling

    method SwitchTo(c: nat, i: nat)
      requires Valid() && c < cpus.Length && i < NENV
      modifies envs, cpus
      ensures Valid() && View() == Kernel.SwitchTo(old(View()), c, i)
    {
      if cpus[c].cur != To(i) {
        if cpus[c].cur != NULL {
          var j := cpus[c].cur.at;
          if envs[j].status == Running {
            PutEnv(j, envs[j].(status := Runnable));
          }
        }
        PutCpu(c, cpus[c].(cur := To(i), cr3 := envs[i].pgdir));
        PutEnv(i, envs[i].(status := Running, runs := envs[i].runs + 1));
      }
    }

    method EnvRun(c: nat, i: nat)
      requires Valid() && c < cpus.Length && i < NENV
      modifies this`locked, this`lockCpu, this`panicked, envs, cpus
      ensures Valid() && View() == Kernel.EnvRun(old(View()), c, i)
    {
      SwitchTo(c, i);
      SpinUnlock(c);
      PutEnv(i, envs[i].(cpunum := c));
      PutCpu(c, cpus[c].(mode := User));
    }

    method SchedHalt(c: nat)
      requires Valid() && c < cpus.Length
      modifies this`locked, this`lockCpu, this`panicked, cpus
      ensures Valid() && View() == Kernel.SchedHalt(old(View()), c)
    {
      var i := 0;
      while i < NENV
        invariant 0 <= i <= NENV
        invariant forall j :: 0 <= j < i ==>
                    envs[j].status != Runnable && envs[j].status != Running && envs[j].status != Dying
      {
        if envs[i].status == Runnable || envs[i].status == Running || envs[i].status == Dying {
          break;
        }
        i := i + 1;
      }
      if i == NENV {
        PutCpu(c, cpus[c].(mode := Monitor));
        return;
      }
      assert AnyLeft(View()) by {
        assert View().envs[i] == envs[i];
      }
      PutCpu(c, cpus[c].(cur := NULL, cr3 := KERN_PGDIR, halted := true));
      SpinUnlock(c);
      PutCpu(c, cpus[c].(mode := Halted));
    }

    method SchedYield(c: nat)
      requires Valid() && c < cpus.Length
      modifies this`locked, this`lockCpu, this`panicked, envs, cpus
      ensures Valid() && View() == Kernel.SchedYield(old(View()), c)
    {
      var envid := 0;
      if cpus[c].cur != NULL {
        envid := EnvX(envs[cpus[c].cur.at].id);
      }
      var i := envid;
      while i < envid + NENV
        invariant envid <= i <= envid + NENV
        invariant Pick(envs[..], envid, NENV) == Pick(envs[..], i, envid + NENV - i)
      {
        if envs[Wrap(i)].status == Runnable {
          EnvRun(c, Wrap(i));
          return;
        }
        i := i + 1;
      }
      if cpus[c].cur != NULL && envs[cpus[c].cur.at].status == Running {
        EnvRun(c, cpus[c].cur.at);
      } else {
        SchedHalt(c);
      }
    }

    // ------------------------------------------------------- environment table

    /** env_init: all slots free, listed in order. */
    method EnvInit()
      requires envs.Length == NENV && link.Length == NENV && cpus.Length >= 1
      requires forall c :: 0 <= c < cpus.Length && cpus[c].cur.To? ==> cpus[c].cur.at < NENV
      modifies this`envFreeList, this`free, envs, link
      ensures Valid()
      ensures |free| == NENV && forall i :: 0 <= i < NENV ==> free[i] == i
      ensures forall i :: 0 <= i < NENV ==> envs[i].id == 0 && envs[i].status == Free
    {
      var i := NENV - 1;
      envFreeList := NULL;
      free := [];
      while i >= 0
        invariant -1 <= i < NENV
        invariant |free| == NENV - 1 - i && forall j :: 0 <= j < |free| ==> free[j] == i + 1 + j
        invariant Linked()
        invariant forall j :: i < j < NENV ==> envs[j].id == 0 && envs[j].status == Free
      {
        envs[i] := envs[i].(id := 0, status := Free);
        link[i] := envFreeList;
        envFreeList := To(i);
        free := [i] + free;
        i := i - 1;
      }
    }

    method Envid2Env(c: nat, envid: nat, checkperm: bool) returns (e: Lookup)
      requires Valid() && c < cpus.Length && cpus[c].cur.To?
      ensures e == Kernel.Envid2Env(View(), c, envid, checkperm)
    {
      var cur := cpus[c].cur.at;
      if envid == 0 {
        return Found(cur);
      }
      var i := EnvX(envid);
      if envs[i].status == Free || envs[i].id != envid {
        return Bad;
      }
      if checkperm && i != cur && envs[i].parent != envs[cur].id {
        return Bad;
      }
      return Found(i);
    }

    /** env_alloc; pgdir is what env_setup_vm got, 0 for none. */
    method EnvAlloc(parent: int, pgdir: nat) returns (e: Ptr, r: int)
      requires Valid()
      modifies this`envFreeList, this`free, envs
      ensures Valid() && (View(), r) == Kernel.EnvAlloc(old(View()), parent, pgdir)
      ensures r > 0 ==> e == To(old(free)[0])
    {
      e := envFreeList;
      if e == NULL {
        return NULL, Code(NoFreeEnv);
      }
      if pgdir == 0 {
        return NULL, Code(NoMem);
      }
      var i := e.at;
      r := NextId(envs[i].id, i);
      PutEnv(i, envs[i].(id := r, parent := parent, status := Runnable, runs := 0, pgdir := pgdir, eax := 0,
                         recving := false, allocs := envs[i].allocs + 1, sent := [], got := [], inRecv := false));
      envFreeList := link[i];
      free := free[1..];
    }

    method EnvFree(c: nat, i: nat)
      requires Valid() && c < cpus.Length && i < NENV && i !in free
      modifies this`envFreeList, this`free, envs, cpus, link
      ensures Valid() && View() == Kernel.EnvFree(old(View()), c, i)
    {
      if cpus[c].cur == To(i) {
        PutCpu(c, cpus[c].(cr3 := KERN_PGDIR));
      }
      PutEnv(i, envs[i].(status := Free, pgdir := 0));
      link[i] := envFreeList;
      envFreeList := To(i);
      free := [i] + free;
    }

    method EnvDestroy(c: nat, i: nat)
      requires Valid() && c < cpus.Length && i < NENV && i !in free
      modifies this, envs, cpus, link
      ensures Valid() && View() == Kernel.EnvDestroy(old(View()), c, i)
    {
      if envs[i].status == Running && cpus[c].cur != To(i) {
        PutEnv(i, envs[i].(status := Dying));
        return;
      }
      EnvFree(c, i);
      if cpus[c].cur == To(i) {
        PutCpu(c, cpus[c].(cur := NULL));
        SchedYield(c);
      }
    }

    // ------------------------------------------------------------ system calls

    method SysExofork(c: nat, pgdir: nat) returns (r: int)
      requires Valid() && c < cpus.Length && cpus[c].cur.To?
      modifies this`envFreeList, this`free, envs
      ensures Valid() && (View(), r) == Kernel.SysExofork(old(View()), c, pgdir)
    {
      var e;
      e, r := EnvAlloc(envs[cpus[c].cur.at].id, pgdir);
      if r < 0 {
        return r;
      }
      PutEnv(e.at, envs[e.at].(status := NotRunnable, eax := 0));
      return envs[e.at].id;
    }

    method SysEnvSetStatus(c: nat, envid: nat, status: Status) returns (r: int)
      requires Valid() && c < cpus.Length && cpus[c].cur.To?
      modifies envs
      ensures Valid() && (View(), r) == Kernel.SysEnvSetStatus(old(View()), c, envid, status)
    {
      var e := Envid2Env(c, envid, true);
      if e == Bad {
        return Code(BadEnv);
      }
      if status != Runnable && status != NotRunnable {
        return Code(Inval);
      }
      PutEnv(e.i, envs[e.i].(status := status));
      return 0;
    }

    method SysEnvDestroy(c: nat, envid: nat) returns (r: int)
      requires Valid() && FreeOk(View()) && c < cpus.Length && cpus[c].cur.To?
      requires envs[cpus[c].cur.at].status != Free
      modifies this, envs, cpus, link
      ensures Valid()
      ensures (View(), r) == match Kernel.Envid2Env(old(View()), c, envid, true)
                             case Bad => (old(View()), Code(BadEnv))
                             case Found(i) => (Kernel.EnvDestroy(old(View()), c, i), 0)
    {
      var e := Envid2Env(c, envid, true);
      if e == Bad {
        return Code(BadEnv);
      }
      assert View().envs[e.i].status != Free;
      EnvDestroy(c, e.i);
      return 0;
    }

    /** sys_ipc_try_send; page says what page_lookup and page_insert find. */
    method SysIpcTrySend(c: nat, envid: nat, value: int, srcva: nat, permOk: bool, permW: bool, page: PageFate)
      returns (r: int)
      requires Valid() && c < cpus.Length && cpus[c].cur.To?
      modifies envs
      ensures Valid()
      ensures (View(), r) == Kernel.SysIpcTrySend(old(View()), c, envid, value, srcva, permOk, permW, page)
    {
      var l := Envid2Env(c, envid, false);
      if l == Bad {
        return Code(BadEnv);
      }
      var e := l.i;
      if !envs[e].recving {
        return Code(IpcNotRecv);
      }
      r := 0;
      if srcva < UTOP {
        if PGOFF(srcva) != 0 {
          return Code(Inval);
        }
        if !permOk {
          return Code(Inval);
        }
        if !page.srcMapped {
          return Code(Inval);
        }
        if !page.srcWritable && permW {
          return Code(Inval);
        }
        if envs[e].dstva < UTOP {
          r := if page.inserted then 0 else Code(NoMem);
        }
        if r < 0 {
          return Code(NoMem);
        }
      }
      var from := envs[cpus[c].cur.at].id;
      PutEnv(e, envs[e].(recving := false, from := from, value := value, eax := 0, status := Runnable,
                         sent := envs[e].sent + [Msg(from, value)]));
      return 0;
    }

    method SysIpcRecv(c: nat, dstva: nat) returns (r: int)
      requires Valid() && c < cpus.Length && cpus[c].cur.To?
      modifies this`locked, this`lockCpu, this`panicked, envs, cpus
      ensures Valid() && (View(), r) == Kernel.SysIpcRecv(old(View()), c, dstva)
    {
      if dstva < UTOP && PGOFF(dstva) != 0 {
        return Code(Inval);
      }
      var i := cpus[c].cur.at;
      PutEnv(i, envs[i].(recving := true, dstva := dstva, status := NotRunnable, inRecv := true));
      SchedYield(c);
      return 0;
    }

    // -------------------------------------------------------------------- trap

    /** The store of the result, if the call has come back. */
    method SaveResult(c: nat, i: nat, r: int)
      requires Valid() && c < cpus.Length && i < NENV
      modifies envs
      ensures Valid() && View() == Return((old(View()), r), c, i)
    {
      if cpus[c].mode.InKernel? {
        PutEnv(i, envs[i].(eax := r));
      }
    }

    method TrapDispatch(c: nat, op: Op)
      requires Valid() && FreeOk(View()) && c < cpus.Length && cpus[c].cur.To? && cpus[c].mode.InKernel?
      requires envs[cpus[c].cur.at].status != Free
      modifies this, envs, cpus, link
      ensures Valid() && View() == Dispatch(old(View()), c, op)
    {
      var i := cpus[c].cur.at;
      var r;
      match op {
        case Resume(eax) => r := eax;
        case Yield => SchedYield(c); return;
        case Fault => EnvDestroy(c, i); return;
        case Destroy(envid) => r := SysEnvDestroy(c, envid);
        case Exofork(pgdir) => r := SysExofork(c, pgdir);
        case SetStatus(envid, status) => r := SysEnvSetStatus(c, envid, status);
        case TrySend(envid, value, srcva, permOk, permW, page) =>
          r := SysIpcTrySend(c, envid, value, srcva, permOk, permW, page);
        case Recv(dstva) => r := SysIpcRecv(c, dstva);
      }
      SaveResult(c, i, r);
    }

    /** The body of trap() once the lock is held. */
    method TrapBody(c: nat, op: Op)
      requires Valid() && Inv(View()) && c < cpus.Length && cpus[c].mode.InKernel?
      modifies this, envs, cpus, link
      ensures Valid() && View() == Work(old(View()), c, op)
      ensures old(Trapped(View(), c) ==> Careful(View(), c, op) && Polite(envs[cpus[c].cur.at], op)) ==> Inv(View())
    {
      ghost var k := View();
      assert CpuOk(k, c);
      if Trapped(k, c) ==> Careful(k, c, op) && Polite(k.envs[k.cpus[c].cur.at], op) {
        WorkKeeps(k, c, op);
      }
      if !cpus[c].mode.user {
        SchedYield(c);
        return;
      }
      var i := cpus[c].cur.at;
      if envs[i].status == Dying {
        assert k.envs[i].status == Dying;
        EnvFree(c, i);
        PutCpu(c, cpus[c].(cur := NULL));
        SchedYield(c);
        return;
      }
      TrapDispatch(c, op);
      Leave(c);
    }

    /** Back to the current environment if that makes sense, unless the dispatch has
        left the kernel already. */
    method Leave(c: nat)
      requires Valid() && c < cpus.Length
      modifies this, envs, cpus, link
      ensures Valid() && View() == Finish(old(View()), c)
    {
      if cpus[c].mode.InKernel? {
        if cpus[c].cur != NULL && envs[cpus[c].cur.at].status == Running {
          EnvRun(c, cpus[c].cur.at);
        } else {
          SchedYield(c);
        }
      }
    }
  }
}
