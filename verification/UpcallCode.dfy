/** page_fault_handler and _pgfault_upcall as they run: the saved registers and
    the user memory updated in place, one instruction at a time. */
module UpcallCode {
  import opened UserStack
  import opened Upcall

  class Processor {
    var edi: Word
    var esi: Word
    var ebp: Word
    var ebx: Word
    var edx: Word
    var ecx: Word
    var eax: Word
    var esp: int
    var eip: Word
    var eflags: Word
    var mem: Mem

    function View(): User
      reads this
    {
      User(Context(Regs(edi, esi, ebp, ebx, edx, ecx, eax), eip, eflags, esp), mem)
    }

    /** page_fault_handler on the trap frame of the current environment: false if the
        environment is destroyed. */
    method PageFaultHandler(va: Word, err: Word, oesp: Word, upcall: Word) returns (alive: bool)
      modifies this
      ensures alive <==> old(PageFault(View(), va, err, oesp, upcall).Goes?)
      ensures alive ==> View() == old(PageFault(View(), va, err, oesp, upcall).user)
      ensures alive ==> FaultWords(View(), va, err) && eip == upcall && HandlerEsp(old(esp), esp)
    {
      ghost var u := View();
      if upcall != WordOf(0) {
        var utf := Frame(View().ctx, va, err, oesp);
        if UXSTACKTOP - PGSIZE <= esp && esp <= UXSTACKTOP {
          esp := esp - 4;
        } else {
          esp := UXSTACKTOP;
        }
        esp := esp - FRAME;
        if !AllMapped(mem, esp, FRAME) {
          return false;
        }
        eip := upcall;
        mem := StoreAll(mem, esp, utf);
        DeliversWords(u, va, err, oesp, upcall);
        return true;
      }
      return false;
    }

    /** pushl; false if the store faults. */
    method Pushl(x: Word) returns (ok: bool)
      modifies this`esp, this`mem
      ensures ok <==> old(Mapped(mem, esp - 4))
      ensures ok ==> esp == old(esp) - 4 && mem == Store(old(mem), esp, x)
      ensures !ok ==> esp == old(esp) && mem == old(mem)
    {
      if !Mapped(mem, esp - 4) {
        return false;
      }
      esp := esp - 4;
      mem := Store(mem, esp, x);
      return true;
    }

    /** The handler call: %esp, the argument, and the return address are pushed, start
        is the memory the handler starts with and handled what it leaves. */
    method CallHandler(back: Word, handled: Mem) returns (ghost start: Mem)
      requires Mapped(mem, esp - 4) && Mapped(mem, esp - 8)
      requires Kept(mem, handled, esp, esp + FRAME)
      modifies this`esp, this`mem, this`eax, this`ecx, this`edx, this`eflags
      ensures esp == old(esp) && mem == handled
      ensures CallPushed(old(mem), start, esp, back)
    {
      PushesCall(mem, esp, back);
      var ok := Pushl(WordOf(esp));
      ok := Pushl(back);
      assert ok;
      start := mem;
      mem := handled;
      eax, ecx, edx, eflags := *, *, *, *;
      esp := esp + 4;
      esp := esp + 4;
    }

    /** movl %esp,%ebp. */
    method SaveEsp()
      modifies this`ebp
      ensures ebp == WordOf(esp) && Address(ebp) == esp
    {
      ebp := WordOf(esp);
      AddressOfWord(esp);
    }

    /** From movl 40(%esp) to movl %ebx,%esp: the trap-time %eip and %esp are in
        registers, the frame's address in %ebp. */
    method LoadTrapTime()
      requires AllMapped(mem, esp, FRAME)
      modifies this`eax, this`ebx, this`ebp, this`esp
      ensures Address(ebp) == old(esp) && AtPush(View(), mem, old(esp))
    {
      eax := Load(mem, esp + 40);
      ebx := Load(mem, esp + 48);
      SaveEsp();
      esp := Address(ebx);
    }

    /** From pushl %eax to movl %ebp,%esp: the trap-time %eip goes onto the trap-time
        stack, its new %esp into the frame.  If the push faults, nothing changes. */
    method StackEip() returns (ok: bool)
      requires AllMapped(mem, Address(ebp), FRAME)
      modifies this`esp, this`mem
      ensures ok <==> old(WordBelow(mem, esp))
      ensures ok ==> esp == Address(ebp) && mem == old(Stacked(mem, Address(ebp), esp, eax))
      ensures !ok ==> esp == old(esp) && mem == old(mem)
    {
      ok := Pushl(eax);
      if ok {
        mem := Store(mem, Address(ebp) + 48, WordOf(esp));
        esp := Address(ebp);
      }
    }

    /** From the push to ret; also where a push that faulted is retried. */
    method RunFromPush() returns (ok: bool)
      requires AllMapped(mem, Address(ebp), FRAME)
      modifies this
      ensures ok <==> old(FromPush(View())).Returned?
      ensures ok ==> View() == old(FromPush(View())).user
      ensures !ok ==> View() == old(View())
    {
      ok := StackEip();
      if ok {
        Leave();
      }
    }

    /** From addl $8,%esp to ret. */
    method Leave()
      requires AllMapped(mem, esp, FRAME) && Mapped(mem, TrapEsp(mem, esp))
      modifies this`edi, this`esi, this`ebp, this`ebx, this`edx, this`ecx, this`eax, this`esp, this`eip, this`eflags
      ensures View() == old(Resume(mem, esp))
    {
      ghost var utf := esp;
      RestoreRegs();
      assert Mapped(mem, utf + 44) && Mapped(mem, utf + 48) && esp + 4 == utf + 48;
      ReturnTo();
    }

    /** Up to popf. */
    method RestoreRegs()
      requires AllMapped(mem, esp, FRAME)
      modifies this`edi, this`esi, this`ebp, this`ebx, this`edx, this`ecx, this`eax, this`esp
      ensures esp == old(esp) + 44
      ensures AllMapped(mem, old(esp) + 8, 32)
      ensures Regs(edi, esi, ebp, ebx, edx, ecx, eax) == Popped(mem, old(esp) + 8)
    {
      assert AllMapped(mem, esp + 8, 32);
      esp := esp + 8;
      Popa();
      esp := esp + 4;
    }

    /** popf; popl %esp; ret. */
    method ReturnTo()
      requires Mapped(mem, esp) && Mapped(mem, esp + 4) && Mapped(mem, Address(Load(mem, esp + 4)))
      modifies this`esp, this`eip, this`eflags
      ensures eflags == Load(mem, old(esp))
      ensures esp == Address(Load(mem, old(esp) + 4)) + 4
      ensures eip == Load(mem, Address(Load(mem, old(esp) + 4)))
    {
      eflags, esp := Load(mem, esp), esp + 4;
      esp := Address(Load(mem, esp));
      eip, esp := Load(mem, esp), esp + 4;
    }

    /** popa skips the saved %esp. */
    method Popa()
      requires AllMapped(mem, esp, 32)
      modifies this`edi, this`esi, this`ebp, this`ebx, this`edx, this`ecx, this`eax, this`esp
      ensures esp == old(esp) + 32
      ensures Regs(edi, esi, ebp, ebx, edx, ecx, eax) == Popped(mem, old(esp))
    {
      var regs := Popped(mem, esp);
      edi, esi, ebp, ebx := regs.edi, regs.esi, regs.ebp, regs.ebx;
      edx, ecx, eax := regs.edx, regs.ecx, regs.eax;
      esp := esp + 32;
    }

    /** _pgfault_upcall, entered with %esp at the frame, the handler leaving memory
        handled; false if the push faults, with the processor at the push.  The handler
        is called with the address of its frame as its argument. */
    method PgfaultUpcall(back: Word, handled: Mem) returns (ok: bool, ghost start: Mem)
      requires AllMapped(mem, esp, FRAME) && Mapped(mem, esp - 4) && Mapped(mem, esp - 8)
      requires Kept(mem, handled, esp, esp + FRAME)
      modifies this
      ensures AllMapped(handled, old(esp), FRAME) && CallPushed(old(mem), start, old(esp), back)
      ensures ok <==> Unwind(handled, old(esp)).Returned?
      ensures ok ==> View() == Unwind(handled, old(esp)).user
      ensures !ok ==> AtPush(View(), handled, old(esp)) && edi == old(edi) && esi == old(esi)
    {
      start := CallHandler(back, handled);
      LoadTrapTime();
      UnwindIsFromPush(View(), handled, old(esp));
      ok := RunFromPush();
    }
  }
}
