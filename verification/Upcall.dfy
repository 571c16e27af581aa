/** User-level page faults: the frame the kernel pushes on the exception stack
    and the assembly that unwinds it, alone and nested. */
module Upcall {
  import opened UserStack

  const UXSTACKTOP := 0xEEC0_0000    // == UTOP: the user can write nothing above it
  const PGSIZE := 4096
  const FRAME := 52                  // sizeof(struct UTrapframe)

  datatype Regs = Regs(edi: Word, esi: Word, ebp: Word, ebx: Word, edx: Word, ecx: Word, eax: Word)

  /** What a trap saves of the interrupted code. */
  datatype Context = Context(regs: Regs, eip: Word, eflags: Word, esp: int)

  /** A user environment: its processor state and its writable memory. */
  datatype User = User(ctx: Context, mem: Mem)

  /** struct UTrapframe, word by word; pusha also stores a useless %esp. */
  function Frame(t: Context, va: Word, err: Word, oesp: Word): (ws: seq<Word>)
    ensures |ws| == 13
  {
    [va, err, t.regs.edi, t.regs.esi, t.regs.ebp, oesp, t.regs.ebx, t.regs.edx, t.regs.ecx, t.regs.eax,
     t.eip, t.eflags, WordOf(t.esp)]
  }

  predicate OnExceptionStack(esp: int) {
    UXSTACKTOP - PGSIZE <= esp <= UXSTACKTOP
  }

  /** Where the kernel puts the frame: below a blank word if the fault happened on
      the exception stack, at its top otherwise. */
  function FrameAddr(esp: int): (utf: int) {
    if OnExceptionStack(esp) then esp - 4 - FRAME else UXSTACKTOP - FRAME
  }

  datatype Outcome = Goes(user: User) | Destroyed

  /** page_fault_handler for a fault in user mode. */
  function PageFault(u: User, va: Word, err: Word, oesp: Word, upcall: Word): Outcome {
    var utf := FrameAddr(u.ctx.esp);
    if upcall == WordOf(0) then Destroyed
    else if !AllMapped(u.mem, utf, FRAME) then Destroyed
    else Goes(User(u.ctx.(esp := utf, eip := upcall), StoreAll(u.mem, utf, Frame(u.ctx, va, err, oesp))))
  }

  /** struct UTrapframe at a, by the offsets that inc/trap.h gives its fields: the
      faulting address first, the error code second. */
  predicate FrameAt(m: Mem, a: int, t: Context, va: Word, err: Word, oesp: Word) {
    && AllMapped(m, a, 52) && Load(m, a) == va && Load(m, a + 4) == err
    && Load(m, a + 8) == t.regs.edi && Load(m, a + 12) == t.regs.esi && Load(m, a + 16) == t.regs.ebp
    && Load(m, a + 20) == oesp && Load(m, a + 24) == t.regs.ebx && Load(m, a + 28) == t.regs.edx
    && Load(m, a + 32) == t.regs.ecx && Load(m, a + 36) == t.regs.eax
    && Load(m, a + 40) == t.eip && Load(m, a + 44) == t.eflags && Load(m, a + 48) == WordOf(t.esp)
  }

  lemma HoldsFrameAt(m: Mem, a: int, t: Context, va: Word, err: Word, oesp: Word)
    requires Holds(m, a, Frame(t, va, err, oesp))
    ensures FrameAt(m, a, t, va, err, oesp)
  {
    var ws := Frame(t, va, err, oesp);
    assert forall k :: 0 <= k < 13 ==> Load(m, a + 4 * k) == ws[k];
    assert Load(m, a + 4 * 0) == ws[0] && Load(m, a + 4 * 1) == ws[1] && Load(m, a + 4 * 2) == ws[2];
    assert Load(m, a + 4 * 3) == ws[3] && Load(m, a + 4 * 4) == ws[4] && Load(m, a + 4 * 5) == ws[5];
    assert Load(m, a + 4 * 6) == ws[6] && Load(m, a + 4 * 7) == ws[7] && Load(m, a + 4 * 8) == ws[8];
    assert Load(m, a + 4 * 9) == ws[9] && Load(m, a + 4 * 10) == ws[10] && Load(m, a + 4 * 11) == ws[11];
    assert Load(m, a + 4 * 12) == ws[12];
  }

  /** Where the handler finds its frame, in numbers. */
  predicate HandlerEsp(esp: int, utf: int) {
    utf == if 0xEEBF_F000 <= esp <= 0xEEC0_0000 then esp - 56 else 0xEEBF_FFCC
  }

  /** The handler of a fault starts at the upcall, on its frame, with the registers of
      the interrupted code and all other memory as they were; and there is a handler to
      start if and only if an upcall is set and the frame can be written. */
  lemma FaultDelivers(u: User, va: Word, err: Word, oesp: Word, upcall: Word, utf: int)
    requires HandlerEsp(u.ctx.esp, utf)
    ensures PageFault(u, va, err, oesp, upcall).Goes? <==>
            upcall != WordOf(0) && forall b :: utf <= b < utf + 52 ==> b in u.mem
    ensures PageFault(u, va, err, oesp, upcall).Goes? ==>
              var f := PageFault(u, va, err, oesp, upcall).user;
              && FrameAt(f.mem, utf, u.ctx, va, err, oesp) && f.ctx == u.ctx.(eip := upcall, esp := utf)
              && f.mem.Keys == u.mem.Keys && forall b :: b in u.mem && !(utf <= b < utf + 52) ==> f.mem[b] == u.mem[b]
  {
    if PageFault(u, va, err, oesp, upcall).Goes? {
      StoreAllHolds(u.mem, utf, Frame(u.ctx, va, err, oesp));
      HoldsFrameAt(PageFault(u, va, err, oesp, upcall).user.mem, utf, u.ctx, va, err, oesp);
    }
  }

  /** What the handler reads first, at its %esp. */
  predicate FaultWords(u: User, va: Word, err: Word) {
    && Mapped(u.mem, u.ctx.esp) && Load(u.mem, u.ctx.esp) == va
    && Mapped(u.mem, u.ctx.esp + 4) && Load(u.mem, u.ctx.esp + 4) == err
  }

  lemma DeliversWords(u: User, va: Word, err: Word, oesp: Word, upcall: Word)
    requires PageFault(u, va, err, oesp, upcall).Goes?
    ensures var f := PageFault(u, va, err, oesp, upcall).user;
            && FaultWords(f, va, err) && f.ctx == u.ctx.(eip := upcall, esp := f.ctx.esp)
            && HandlerEsp(u.ctx.esp, f.ctx.esp)
  {
    FaultDelivers(u, va, err, oesp, upcall, FrameAddr(u.ctx.esp));
  }

  /** Memory n is m with a call pushed: its argument, the stack pointer sp, and the
      return address. */
  predicate CallPushed(m: Mem, n: Mem, sp: int, back: Word) {
    && Mapped(n, sp - 4) && Load(n, sp - 4) == WordOf(sp) && Mapped(n, sp - 8) && Load(n, sp - 8) == back
    && Kept(m, n, sp, sp + FRAME)
  }

  lemma PushesCall(m: Mem, sp: int, back: Word)
    requires Mapped(m, sp - 4) && Mapped(m, sp - 8)
    ensures CallPushed(m, Store(Store(m, sp - 4, WordOf(sp)), sp - 8, back), sp, back)
  {
    LoadStoredTwice(m, sp - 4, WordOf(sp), sp - 8, back);
  }

  /** Where _pgfault_upcall pushes the trap-time %eip. */
  predicate WordBelow(m: Mem, esp: int) {
    Mapped(m, esp - 4)
  }

  predicate UserOnly(m: Mem) {
    forall b :: b in m ==> 0 <= b < UXSTACKTOP
  }

  /** The pushed word and the frame do not overlap. */
  predicate Apart(utf: int, esp: int) {
    esp - 4 >= utf + FRAME || esp <= utf
  }

  /** If the word below the trap-time %esp can be written, it is outside the frame:
      the kernel leaves the blank word for a nested fault, and elsewhere the stacks
      are apart. */
  lemma BlankWordApart(m: Mem, esp: int)
    requires UserOnly(m) && WordBelow(m, esp)
    ensures Apart(FrameAddr(esp), esp)
  {
    assert esp - 1 in m;
  }

  /** The %esp in the frame. */
  function TrapEsp(m: Mem, utf: int): int
    requires AllMapped(m, utf, FRAME)
  {
    Address(Load(m, utf + 48))
  }

  // ------------------------------------------------------------- _pgfault_upcall

  /** The processor goes on with a context, or traps at the push. */
  datatype Passage = Returned(user: User) | PushFaults

  /** popa. */
  function Popped(m: Mem, a: int): Regs
    requires AllMapped(m, a, 32)
  {
    Regs(Load(m, a), Load(m, a + 4), Load(m, a + 8), Load(m, a + 16), Load(m, a + 20), Load(m, a + 24), Load(m, a + 28))
  }

  /** From popa to ret, with %esp just above the fault code in the frame. */
  function Resume(n: Mem, utf: int): (u: User)
    requires AllMapped(n, utf, FRAME) && Mapped(n, TrapEsp(n, utf))
  {
    var sp := TrapEsp(n, utf);
    User(Context(Popped(n, utf + 8), Load(n, sp), Load(n, utf + 44), sp + 4), n)
  }

  /** The two stores: x below the stack pointer esp, and the lowered %esp into the
      frame. */
  function Stacked(m: Mem, utf: int, esp: int, x: Word): (n: Mem)
    requires AllMapped(m, utf, FRAME) && WordBelow(m, esp)
    ensures n.Keys == m.Keys && TrapEsp(n, utf) == esp - 4
  {
    var n := Store(Store(m, esp - 4, x), utf + 48, WordOf(esp - 4));
    StackedEsp(m, utf, esp, x);
    n
  }

  lemma StackedEsp(m: Mem, utf: int, esp: int, x: Word)
    requires AllMapped(m, utf, FRAME) && WordBelow(m, esp)
    ensures TrapEsp(Store(Store(m, esp - 4, x), utf + 48, WordOf(esp - 4)), utf) == esp - 4
  {
    LoadStored(Store(m, esp - 4, x), utf + 48, WordOf(esp - 4));
    AddressOfWord(esp - 4);
  }

  /** _pgfault_upcall from its push on: %eax below %esp, %ebp at the frame. */
  function FromPush(u: User): Passage
    requires AllMapped(u.mem, Address(u.ctx.regs.ebp), FRAME)
  {
    var utf := Address(u.ctx.regs.ebp);
    if !WordBelow(u.mem, u.ctx.esp) then PushFaults
    else Returned(Resume(Stacked(u.mem, utf, u.ctx.esp, u.ctx.regs.eax), utf))
  }

  /** The processor at the push, after the handler of the frame at utf has left
      memory m: the trap-time %eip, %esp and the frame's address are in registers. */
  predicate AtPush(u: User, m: Mem, utf: int)
    requires AllMapped(m, utf, FRAME)
  {
    && u.mem == m && u.ctx.esp == TrapEsp(m, utf)
    && u.ctx.regs.eax == Load(m, utf + 40) && u.ctx.regs.ebx == Load(m, utf + 48) && u.ctx.regs.ebp == WordOf(utf)
  }

  /** _pgfault_upcall from the return of the handler on, with %esp at the frame. */
  function Unwind(m: Mem, utf: int): Passage
    requires AllMapped(m, utf, FRAME)
  {
    var esp := TrapEsp(m, utf);
    if !WordBelow(m, esp) then PushFaults else Returned(Resume(Stacked(m, utf, esp, Load(m, utf + 40)), utf))
  }

  lemma UnwindIsFromPush(u: User, m: Mem, utf: int)
    requires AllMapped(m, utf, FRAME) && AtPush(u, m, utf)
    ensures Address(u.ctx.regs.ebp) == utf && FromPush(u) == Unwind(m, utf)
  {
    AddressOfWord(utf);
  }

  predicate KeptOutside(m: Mem, n: Mem, utf: int, esp: int) {
    n.Keys == m.Keys
    && forall b :: b in m && !(esp - 4 <= b < esp) && !(utf + 48 <= b < utf + FRAME) ==> n[b] == m[b]
  }

  lemma FrameRegs(m: Mem, utf: int, t: Context, va: Word, err: Word, oesp: Word)
    requires Holds(m, utf, Frame(t, va, err, oesp)) && AllMapped(m, utf, FRAME)
    ensures Popped(m, utf + 8) == t.regs
  {
    WordsAt(m, utf, Frame(t, va, err, oesp));
  }

  lemma WordsAt(m: Mem, utf: int, ws: seq<Word>)
    requires |ws| == 13 && Holds(m, utf, ws) && AllMapped(m, utf, FRAME)
    ensures Popped(m, utf + 8) == Regs(ws[2], ws[3], ws[4], ws[6], ws[7], ws[8], ws[9])
  {
    WordAt(m, utf, ws, 2);
    WordAt(m, utf, ws, 3);
    WordAt(m, utf, ws, 4);
    WordAt(m, utf, ws, 6);
    WordAt(m, utf, ws, 7);
    WordAt(m, utf, ws, 8);
    WordAt(m, utf, ws, 9);
  }

  lemma WordAt(m: Mem, utf: int, ws: seq<Word>, k: nat)
    requires k < |ws| && Holds(m, utf, ws)
    ensures Mapped(m, utf + 4 * k) && Load(m, utf + 4 * k) == ws[k]
  {
    assert forall b :: utf + 4 * k <= b < utf + 4 * k + 4 ==> b in m;
  }

  lemma FrameRest(m: Mem, utf: int, t: Context, va: Word, err: Word, oesp: Word)
    requires Holds(m, utf, Frame(t, va, err, oesp)) && AllMapped(m, utf, FRAME)
    ensures Load(m, utf + 40) == t.eip && Load(m, utf + 44) == t.eflags && TrapEsp(m, utf) == t.esp
  {
    var ws := Frame(t, va, err, oesp);
    WordAt(m, utf, ws, 10);
    WordAt(m, utf, ws, 11);
    WordAt(m, utf, ws, 12);
    AddressOfWord(t.esp);
  }

  lemma StackedKeeps(m: Mem, utf: int, esp: int, x: Word)
    requires AllMapped(m, utf, FRAME) && WordBelow(m, esp) && Apart(utf, esp)
    ensures var n := Stacked(m, utf, esp, x);
            && KeptOutside(m, n, utf, esp) && Kept(m, n, utf, utf + 48)
            && Mapped(n, esp - 4) && Load(n, esp - 4) == x
  {
    LoadStoredTwice(m, esp - 4, x, utf + 48, WordOf(esp - 4));
  }

  lemma PoppedKept(m: Mem, n: Mem, utf: int)
    requires Kept(m, n, utf, utf + 48) && AllMapped(m, utf, FRAME) && AllMapped(n, utf, FRAME)
    ensures Popped(n, utf + 8) == Popped(m, utf + 8) && Load(n, utf + 44) == Load(m, utf + 44)
  {
  }

  /** The registers and flags come from the frame, %eip is the word just pushed. */
  lemma ResumeSame(m: Mem, utf: int, esp: int, x: Word)
    requires AllMapped(m, utf, FRAME) && WordBelow(m, esp) && Apart(utf, esp)
    ensures Resume(Stacked(m, utf, esp, x), utf) ==
            User(Context(Popped(m, utf + 8), x, Load(m, utf + 44), esp), Stacked(m, utf, esp, x))
  {
    StackedKeeps(m, utf, esp, x);
    PoppedKept(m, Stacked(m, utf, esp, x), utf);
  }

  /** Unwinding a frame, if the word below the trap-time %esp can be written,
      restores the trap-time registers, %eip, %eflags and %esp, and touches only the
      pushed word and the frame. */
  lemma UnwindRestores(m: Mem, utf: int, t: Context, va: Word, err: Word, oesp: Word)
    requires Holds(m, utf, Frame(t, va, err, oesp)) && WordBelow(m, t.esp) && Apart(utf, t.esp)
    ensures AllMapped(m, utf, FRAME) && Unwind(m, utf).Returned?
    ensures Unwind(m, utf).user.ctx == t && KeptOutside(m, Unwind(m, utf).user.mem, utf, t.esp)
  {
    FrameRest(m, utf, t, va, err, oesp);
    StackedKeeps(m, utf, t.esp, t.eip);
    ResumeSame(m, utf, t.esp, t.eip);
    FrameRegs(m, utf, t, va, err, oesp);
  }

  /** What is in memory when the handler returns, if it leaves the frame alone. */
  lemma FrameSurvives(u: User, va: Word, err: Word, oesp: Word, upcall: Word, handled: Mem)
    requires PageFault(u, va, err, oesp, upcall).Goes?
    requires var f := PageFault(u, va, err, oesp, upcall).user;
             Kept(f.mem, handled, f.ctx.esp, f.ctx.esp + FRAME)
    ensures Holds(handled, FrameAddr(u.ctx.esp), Frame(u.ctx, va, err, oesp))
    ensures AllMapped(handled, FrameAddr(u.ctx.esp), FRAME)
  {
    var f := PageFault(u, va, err, oesp, upcall).user;
    var utf := FrameAddr(u.ctx.esp);
    var ws := Frame(u.ctx, va, err, oesp);
    StoreAllHolds(u.mem, utf, ws);
    HoldsKept(f.mem, handled, utf, utf + FRAME, utf, ws);
  }

  /** Fault and unwind, for any registers, %eip, %eflags and %esp: if the handler
      leaves the frame alone and the word below the trap-time %esp can be written,
      the interrupted code goes on exactly as it was. */
  lemma FaultRoundTrip(u: User, va: Word, err: Word, oesp: Word, upcall: Word, handled: Mem)
    requires PageFault(u, va, err, oesp, upcall).Goes? && UserOnly(handled)
    requires var f := PageFault(u, va, err, oesp, upcall).user;
             Kept(f.mem, handled, f.ctx.esp, f.ctx.esp + FRAME)
    requires WordBelow(handled, u.ctx.esp)
    ensures var utf := FrameAddr(u.ctx.esp);
            && AllMapped(handled, utf, FRAME) && Unwind(handled, utf).Returned?
            && Unwind(handled, utf).user.ctx == u.ctx
            && KeptOutside(handled, Unwind(handled, utf).user.mem, utf, u.ctx.esp)
  {
    FrameSurvives(u, va, err, oesp, upcall, handled);
    BlankWordApart(handled, u.ctx.esp);
    UnwindRestores(handled, FrameAddr(u.ctx.esp), u.ctx, va, err, oesp);
  }

  // -------------------------------------------------------------- the failing push

  /** A fault at the push happens with the trap-time %esp again, so the kernel puts
      its frame exactly where the first one is: the first one is lost. */
  lemma PushFaultOverwrites(u: User, va: Word, err: Word, oesp: Word, upcall: Word, handled: Mem,
                            p: User, va2: Word, err2: Word, oesp2: Word)
    requires PageFault(u, va, err, oesp, upcall).Goes?
    requires var f := PageFault(u, va, err, oesp, upcall).user;
             Kept(f.mem, handled, f.ctx.esp, f.ctx.esp + FRAME)
    requires AllMapped(handled, FrameAddr(u.ctx.esp), FRAME) && AtPush(p, handled, FrameAddr(u.ctx.esp))
    ensures p.ctx.regs.eax == u.ctx.eip && p.ctx.esp == u.ctx.esp
    ensures PageFault(p, va2, err2, oesp2, upcall).Goes?
    ensures var f := PageFault(p, va2, err2, oesp2, upcall).user;
            && f.ctx.esp == FrameAddr(u.ctx.esp) && AllMapped(f.mem, f.ctx.esp, FRAME)
            && Popped(f.mem, f.ctx.esp + 8) == p.ctx.regs && Load(f.mem, f.ctx.esp + 40) == p.ctx.eip
  {
    var utf := FrameAddr(u.ctx.esp);
    FrameSurvives(u, va, err, oesp, upcall, handled);
    FrameRest(handled, utf, u.ctx, va, err, oesp);
    var ws := Frame(p.ctx, va2, err2, oesp2);
    var f := PageFault(p, va2, err2, oesp2, upcall).user;
    StoreAllHolds(handled, utf, ws);
    FrameRegs(f.mem, utf, p.ctx, va2, err2, oesp2);
    FrameRest(f.mem, utf, p.ctx, va2, err2, oesp2);
  }

  /** If the second handler makes the word writable, the push is retried and the
      rest of the upcall runs, on the second frame: %eip and %esp are those of the
      interrupted code, all else is what it was at the push. */
  lemma RetriedPushReturns(p: User, va2: Word, err2: Word, oesp2: Word, upcall: Word, handled2: Mem)
    requires PageFault(p, va2, err2, oesp2, upcall).Goes? && UserOnly(handled2)
    requires p.ctx.regs.ebp == WordOf(FrameAddr(p.ctx.esp))
    requires var f := PageFault(p, va2, err2, oesp2, upcall).user;
             Kept(f.mem, handled2, f.ctx.esp, f.ctx.esp + FRAME)
    requires WordBelow(handled2, p.ctx.esp)
    ensures var utf := FrameAddr(p.ctx.esp);
            && AllMapped(handled2, utf, FRAME) && Unwind(handled2, utf).Returned?
            && var r := Unwind(handled2, utf).user;
               && r.ctx == p.ctx && Address(r.ctx.regs.ebp) == utf && AllMapped(r.mem, utf, FRAME)
               && FromPush(r).Returned?
               && FromPush(r).user.ctx == Context(p.ctx.regs, p.ctx.regs.eax, p.ctx.eflags, p.ctx.esp)
  {
    var utf := FrameAddr(p.ctx.esp);
    FaultRoundTrip(p, va2, err2, oesp2, upcall, handled2);
    FrameSurvives(p, va2, err2, oesp2, upcall, handled2);
    FrameRegs(handled2, utf, p.ctx, va2, err2, oesp2);
    FrameRest(handled2, utf, p.ctx, va2, err2, oesp2);
    BlankWordApart(handled2, p.ctx.esp);
    AddressOfWord(utf);
    var r := Unwind(handled2, utf).user;
    PoppedKept(handled2, r.mem, utf);
    ResumeSame(r.mem, utf, p.ctx.esp, p.ctx.regs.eax);
  }

  /** A handled fault goes back to the interrupted code at its %eip and %esp; when
      the push had to be retried, with the registers and flags of the push. */
  function Final(handled: Mem, utf: int, handled2: Mem): Passage
    requires AllMapped(handled, utf, FRAME)
  {
    if Unwind(handled, utf).Returned? then Unwind(handled, utf)
    else if !AllMapped(handled2, utf, FRAME) then PushFaults
    else
      var r := Unwind(handled2, utf);
      if r.PushFaults? || !AllMapped(r.user.mem, Address(r.user.ctx.regs.ebp), FRAME) then PushFaults
      else FromPush(r.user)
  }

  /** The exact condition for a page fault to be transparent, whatever the handlers
      do short of touching the frames: the word below the trap-time %esp can be
      written when the handler returns, or the interrupted registers and flags
      happen to be those at the push, its %eax being the interrupted %eip. */
  lemma TransparentIff(u: User, va: Word, err: Word, oesp: Word, upcall: Word, handled: Mem,
                       p: User, va2: Word, err2: Word, oesp2: Word, handled2: Mem)
    requires PageFault(u, va, err, oesp, upcall).Goes? && UserOnly(handled) && UserOnly(handled2)
    requires var f := PageFault(u, va, err, oesp, upcall).user;
             Kept(f.mem, handled, f.ctx.esp, f.ctx.esp + FRAME)
    requires AllMapped(handled, FrameAddr(u.ctx.esp), FRAME) && AtPush(p, handled, FrameAddr(u.ctx.esp))
    requires PageFault(p, va2, err2, oesp2, upcall).Goes?
    requires var f := PageFault(p, va2, err2, oesp2, upcall).user;
             Kept(f.mem, handled2, f.ctx.esp, f.ctx.esp + FRAME)
    requires WordBelow(handled2, u.ctx.esp)
    ensures var r := Final(handled, FrameAddr(u.ctx.esp), handled2);
            && r.Returned? && r.user.ctx.eip == u.ctx.eip && r.user.ctx.esp == u.ctx.esp
            && (r.user.ctx == u.ctx <==>
                  WordBelow(handled, u.ctx.esp) || (u.ctx.regs == p.ctx.regs && u.ctx.eflags == p.ctx.eflags))
    ensures p.ctx.regs.eax == u.ctx.eip
  {
    PushFaultOverwrites(u, va, err, oesp, upcall, handled, p, va2, err2, oesp2);
    if WordBelow(handled, u.ctx.esp) {
      FaultRoundTrip(u, va, err, oesp, upcall, handled);
    } else {
      FrameSurvives(u, va, err, oesp, upcall, handled);
      FrameRest(handled, FrameAddr(u.ctx.esp), u.ctx, va, err, oesp);
      FinalAfterRetry(p, handled, va2, err2, oesp2, upcall, handled2);
    }
  }

  lemma FinalAfterRetry(p: User, handled: Mem, va2: Word, err2: Word, oesp2: Word, upcall: Word, handled2: Mem)
    requires PageFault(p, va2, err2, oesp2, upcall).Goes? && UserOnly(handled2)
    requires AllMapped(handled, FrameAddr(p.ctx.esp), FRAME) && AtPush(p, handled, FrameAddr(p.ctx.esp))
    requires Unwind(handled, FrameAddr(p.ctx.esp)).PushFaults?
    requires var f := PageFault(p, va2, err2, oesp2, upcall).user;
             Kept(f.mem, handled2, f.ctx.esp, f.ctx.esp + FRAME)
    requires WordBelow(handled2, p.ctx.esp)
    ensures var r := Final(handled, FrameAddr(p.ctx.esp), handled2);
            r.Returned? && r.user.ctx == Context(p.ctx.regs, p.ctx.regs.eax, p.ctx.eflags, p.ctx.esp)
  {
    RetriedPushReturns(p, va2, err2, oesp2, upcall, handled2);
    var utf := FrameAddr(p.ctx.esp);
    assert Final(handled, utf, handled2) == FromPush(Unwind(handled2, utf).user);
  }

  /** If the second handler does not make the word writable either, the push faults
      for good: what it would push is no longer the interrupted %eip but its own. */
  lemma SecondFailureForgets(p: User, va2: Word, err2: Word, oesp2: Word, upcall: Word, handled2: Mem, q: User)
    requires PageFault(p, va2, err2, oesp2, upcall).Goes?
    requires var f := PageFault(p, va2, err2, oesp2, upcall).user;
             Kept(f.mem, handled2, f.ctx.esp, f.ctx.esp + FRAME)
    requires !WordBelow(handled2, p.ctx.esp)
    requires AllMapped(handled2, FrameAddr(p.ctx.esp), FRAME) && AtPush(q, handled2, FrameAddr(p.ctx.esp))
    ensures Unwind(handled2, FrameAddr(p.ctx.esp)).PushFaults?
    ensures q.ctx.esp == p.ctx.esp && q.ctx.regs.eax == p.ctx.eip
  {
    FrameSurvives(p, va2, err2, oesp2, upcall, handled2);
    FrameRest(handled2, FrameAddr(p.ctx.esp), p.ctx, va2, err2, oesp2);
  }

  // --------------------------------------------------------------- nested faults

  /** What a handler does: stores, changes of mappings, and faults of its own with
      handlers of theirs. */
  datatype Event =
    | Put(a: int, x: Word)
    | Remap(gone: set<int>, part: Mem)
    | Nested(ctx: Context, va: Word, err: Word, oesp: Word, upcall: Word, body: seq<Event>)

  predicate Span(dom: set<int>, a: int, n: int) {
    forall b :: a <= b < a + n ==> b in dom
  }

  predicate Below(bytes: set<int>, utf: int) {
    forall b :: b in bytes ==> 0 <= b < utf
  }

  /** The writable bytes after the events, from those before. */
  function DomAfter(dom: set<int>, body: seq<Event>): set<int>
    decreases body
  {
    if body == [] then dom
    else
      match body[0]
      case Put(a, x) => DomAfter(dom, body[1..])
      case Remap(gone, part) => DomAfter(dom - gone + part.Keys, body[1..])
      case Nested(_, _, _, _, _, inner) => DomAfter(DomAfter(dom, inner), body[1..])
  }

  /** The writable bytes after the first event. */
  function DomNext(dom: set<int>, e: Event): set<int> {
    match e
    case Put(a, x) => dom
    case Remap(gone, part) => dom - gone + part.Keys
    case Nested(_, _, _, _, _, inner) => DomAfter(dom, inner)
  }

  /** The handler of the frame at utf writes and remaps only below it, and when it
      faults, its stack is below it too, with room for the blank word and the next
      frame, and the word below its stack pointer writable once the fault is
      handled. */
  predicate Proper(dom: set<int>, body: seq<Event>, utf: int)
    decreases body
  {
    body == [] ||
    ((match body[0]
      case Put(a, x) => Span(dom, a, 4) && a + 4 <= utf
      case Remap(gone, part) => Below(gone, utf) && Below(part.Keys, utf)
      case Nested(t, va, err, oesp, upcall, inner) =>
        && OnExceptionStack(t.esp) && t.esp <= utf && upcall != WordOf(0)
        && Span(dom, FrameAddr(t.esp), FRAME) && Proper(dom, inner, FrameAddr(t.esp))
        && Span(DomAfter(dom, inner), t.esp - 4, 4))
     && Proper(DomNext(dom, body[0]), body[1..], utf))
  }

  datatype Result = Done(mem: Mem) | Broken

  /** The memory when the frame at utf has been unwound to t, if it leads there. */
  function BackAt(h: Result, utf: int, t: Context): Result {
    if h.Broken? || !AllMapped(h.mem, utf, FRAME) then Broken
    else
      var r := Unwind(h.mem, utf);
      if r.PushFaults? || r.user.ctx != t then Broken else Done(r.user.mem)
  }

  /** The environment in the handler of a nested fault. */
  function Entered(m: Mem, e: Event): Outcome
    requires e.Nested?
  {
    PageFault(User(e.ctx, m), e.va, e.err, e.oesp, e.upcall)
  }

  /** The memory after the first event. */
  function First(m: Mem, body: seq<Event>): Result
    requires body != []
    decreases body, 0
  {
    match body[0]
    case Put(a, x) => if Mapped(m, a) then Done(Store(m, a, x)) else Broken
    case Remap(gone, part) => Done((m - gone) + part)
    case Nested(t, _, _, _, _, inner) =>
      var f := Entered(m, body[0]);
      if f.Destroyed? then Broken else BackAt(Exec(f.user.mem, inner), f.user.ctx.esp, t)
  }

  /** The memory after the events, if every fault among them has been unwound to
      exactly where it happened. */
  function Exec(m: Mem, body: seq<Event>): Result
    decreases body, 1
  {
    if body == [] then Done(m)
    else
      var r := First(m, body);
      if r.Broken? then Broken else Exec(r.mem, body[1..])
  }

  /** A nested fault, once its handler is done, is unwound to where it happened and
      has changed nothing at or above the interrupted stack pointer. */
  lemma NestedUnwinds(m: Mem, e: Event, utf: int, h: Mem)
    requires e.Nested? && OnExceptionStack(e.ctx.esp) && e.ctx.esp <= utf && UserOnly(h)
    requires WordBelow(h, e.ctx.esp)
    requires var f := PageFault(User(e.ctx, m), e.va, e.err, e.oesp, e.upcall);
             f.Goes? && Kept(f.user.mem, h, f.user.ctx.esp, UXSTACKTOP)
    ensures var r := FrameAddr(e.ctx.esp);
            && AllMapped(h, r, FRAME) && Unwind(h, r).Returned?
            && Unwind(h, r).user.ctx == e.ctx && Kept(m, Unwind(h, r).user.mem, utf, UXSTACKTOP)
            && Unwind(h, r).user.mem.Keys == h.Keys
  {
    var f := PageFault(User(e.ctx, m), e.va, e.err, e.oesp, e.upcall).user;
    FaultRoundTrip(User(e.ctx, m), e.va, e.err, e.oesp, e.upcall, h);
  }

  /** m turned into r with the stack from utf up kept. */
  predicate Leads(m: Mem, r: Mem, dom: set<int>, utf: int) {
    r.Keys == dom && Kept(m, r, utf, UXSTACKTOP) && UserOnly(r)
  }

  /** The induction step: the nested fault body[0], and the rest after it. */
  lemma NestedStep(m: Mem, body: seq<Event>, utf: int, h: Mem)
    requires body != [] && body[0].Nested? && Proper(m.Keys, body, utf) && UserOnly(m)
    requires var e := body[0];
             var f := Entered(m, e);
             && f.Goes? && Exec(f.user.mem, e.body) == Done(h)
             && Leads(f.user.mem, h, DomAfter(m.Keys, e.body), f.user.ctx.esp)
    ensures First(m, body).Done? && Leads(m, First(m, body).mem, DomNext(m.Keys, body[0]), utf)
  {
    var e := body[0];
    var f := Entered(m, e).user;
    NestedUnwinds(m, e, utf, h);
    var r := Unwind(h, f.ctx.esp).user.mem;
    assert BackAt(Done(h), f.ctx.esp, e.ctx) == Done(r);
  }

  lemma RemapLeads(m: Mem, gone: set<int>, part: Mem, utf: int)
    requires UserOnly(m) && utf <= UXSTACKTOP && Below(gone, utf) && Below(part.Keys, utf)
    ensures Leads(m, (m - gone) + part, m.Keys - gone + part.Keys, utf)
  {
  }

  /** However deep a handler's own faults nest, and whatever it remaps below its
      frame, they unwind last in, first out, each to exactly where it happened, and
      leave the frame and all the stack above it as they were. */
  lemma {:induction false} NestedLifo(m: Mem, body: seq<Event>, utf: int)
    requires Proper(m.Keys, body, utf) && UserOnly(m) && utf <= UXSTACKTOP
    ensures Exec(m, body).Done? && Leads(m, Exec(m, body).mem, DomAfter(m.Keys, body), utf)
    decreases body
  {
    if body != [] {
      match body[0] {
        case Put(a, x) =>
        case Remap(gone, part) => RemapLeads(m, gone, part, utf);
        case Nested(t, va, err, oesp, upcall, inner) =>
          var f := Entered(m, body[0]).user;
          NestedLifo(f.mem, inner, f.ctx.esp);
          NestedStep(m, body, utf, Exec(f.mem, inner).mem);
      }
      NestedLifo(First(m, body).mem, body[1..], utf);
    }
  }

  /** So the interrupted code goes on as it was, whatever its handler went through. */
  lemma NestedRoundTrip(u: User, va: Word, err: Word, oesp: Word, upcall: Word, body: seq<Event>)
    requires UserOnly(u.mem) && PageFault(u, va, err, oesp, upcall).Goes?
    requires Proper(u.mem.Keys, body, FrameAddr(u.ctx.esp)) && Span(DomAfter(u.mem.Keys, body), u.ctx.esp - 4, 4)
    ensures var utf := FrameAddr(u.ctx.esp);
            var h := Exec(PageFault(u, va, err, oesp, upcall).user.mem, body);
            && h.Done? && AllMapped(h.mem, utf, FRAME)
            && Unwind(h.mem, utf).Returned? && Unwind(h.mem, utf).user.ctx == u.ctx
  {
    var f := PageFault(u, va, err, oesp, upcall).user;
    NestedLifo(f.mem, body, f.ctx.esp);
    FaultRoundTrip(u, va, err, oesp, upcall, Exec(f.mem, body).mem);
  }

  /** And all the while the handler finds the faulting address, the error code and the
      rest of its frame as the kernel left them. */
  lemma OuterFrameKept(u: User, va: Word, err: Word, oesp: Word, upcall: Word, body: seq<Event>)
    requires UserOnly(u.mem) && PageFault(u, va, err, oesp, upcall).Goes?
    requires Proper(u.mem.Keys, body, FrameAddr(u.ctx.esp))
    ensures var f := PageFault(u, va, err, oesp, upcall).user;
            Exec(f.mem, body).Done? && FrameAt(Exec(f.mem, body).mem, f.ctx.esp, u.ctx, va, err, oesp)
  {
    var f := PageFault(u, va, err, oesp, upcall).user;
    var ws := Frame(u.ctx, va, err, oesp);
    StoreAllHolds(u.mem, f.ctx.esp, ws);
    assert f.ctx.esp in u.mem && f.ctx.esp + 51 in u.mem;
    NestedLifo(f.mem, body, f.ctx.esp);
    var h := Exec(f.mem, body).mem;
    HoldsKept(f.mem, h, f.ctx.esp, UXSTACKTOP, f.ctx.esp, ws);
    HoldsFrameAt(h, f.ctx.esp, u.ctx, va, err, oesp);
  }

  // ------------------------------------------------------------------ stack depth

  predicate InGuard(b: int) {
    UXSTACKTOP - 2 * PGSIZE <= b < UXSTACKTOP - PGSIZE
  }

  /** The page below the exception stack is not mapped. */
  predicate Guarded(dom: set<int>) {
    forall b :: b in dom ==> !InGuard(b)
  }

  /** The events map nothing there. */
  predicate KeepsGuard(body: seq<Event>)
    decreases body
  {
    body == [] ||
    ((match body[0]
      case Put(a, x) => true
      case Remap(gone, part) => Guarded(part.Keys)
      case Nested(_, _, _, _, _, inner) => KeepsGuard(inner))
     && KeepsGuard(body[1..]))
  }

  lemma {:induction false} StaysGuarded(dom: set<int>, body: seq<Event>)
    requires Guarded(dom) && KeepsGuard(body)
    ensures Guarded(DomAfter(dom, body))
    decreases body
  {
    if body != [] {
      if body[0].Nested? {
        StaysGuarded(dom, body[0].body);
      }
      StaysGuarded(DomNext(dom, body[0]), body[1..]);
    }
  }

  /** How many frames lie on the stack at once, below the one being handled. */
  function Depth(body: seq<Event>): nat
    decreases body
  {
    if body == [] then 0
    else
      var rest := Depth(body[1..]);
      match body[0]
      case Nested(_, _, _, _, _, inner) => if 1 + Depth(inner) > rest then 1 + Depth(inner) else rest
      case _ => rest
  }

  lemma {:induction false} DepthBound(dom: set<int>, body: seq<Event>, utf: int)
    requires Guarded(dom) && KeepsGuard(body) && Proper(dom, body, utf) && UXSTACKTOP - PGSIZE <= utf
    ensures 56 * Depth(body) <= utf - (UXSTACKTOP - PGSIZE)
    decreases body
  {
    if body != [] {
      if body[0].Nested? {
        var low := FrameAddr(body[0].ctx.esp);
        assert low in dom;
        assert !InGuard(low);
        DepthBound(dom, body[0].body, low);
        StaysGuarded(dom, body[0].body);
      }
      DepthBound(DomNext(dom, body[0]), body[1..], utf);
    }
  }

  /** With the guard page unmapped at most 73 frames fit; the next fault destroys
      the environment. */
  lemma AtMost73Frames(u: User, va: Word, err: Word, oesp: Word, upcall: Word, body: seq<Event>)
    requires Guarded(u.mem.Keys) && KeepsGuard(body) && PageFault(u, va, err, oesp, upcall).Goes?
    requires Proper(u.mem.Keys, body, FrameAddr(u.ctx.esp))
    ensures 1 + Depth(body) <= 73
  {
    var utf := FrameAddr(u.ctx.esp);
    assert utf in u.mem;
    assert !InGuard(utf);
    DepthBound(u.mem.Keys, body, utf);
  }
}
