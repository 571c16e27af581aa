/** The page system calls after envid lookup: argument checks in source order,
    error results, and what they do to memory.  Arguments are 32-bit addresses;
    perm is a whole word, so that bits above the flags are seen. */
module PageCalls {
  import opened Layout
  import opened Paging
  import opened AddressSpace
  import opened Teardown

  datatype Err = OK | BAD_ENV | INVAL | NO_MEM | IPC_NOT_RECV

  const PTE_SYSCALL: set<Flag> := {P, W, U, AVAIL9, AVAIL10, COW}

  predicate UserPage(va: nat) {
    va < UTOP && PGOFF(va) == 0
  }

  predicate PermOk(perm: Word) {
    perm.ppn == 0 && {U, P} <= perm.flags && perm.flags <= PTE_SYSCALL
  }

  /** sys_page_alloc; env is the directory envid2env finds, NULL for an error. */
  ghost function SysPageAlloc(m: Mem, env: Ptr, va: nat, perm: Word): (Mem, Err) {
    if env == NULL then (m, BAD_ENV)
    else if !UserPage(va) then (m, INVAL)
    else if !PermOk(perm) then (m, INVAL)
    else
      var (m', ok) := AllocMap(m, env.at, PGNUM(va), {U, P} + perm.flags);
      (m', if ok then OK else NO_MEM)
  }

  /** sys_page_map: an unmapped source gives NO_MEM. */
  ghost function SysPageMap(m: Mem, src: Ptr, srcva: nat, dst: Ptr, dstva: nat, perm: Word): (Mem, Err) {
    if src == NULL || dst == NULL then (m, BAD_ENV)
    else if !UserPage(srcva) || !UserPage(dstva) then (m, INVAL)
    else if !PermOk(perm) then (m, INVAL)
    else
      var w := Translate(m, src.at, PGNUM(srcva));
      if !Present(w) then (m, NO_MEM)
      else if W in perm.flags && W !in w.flags then (m, INVAL)
      else
        var (m', ok) := Insert(m, dst.at, w.ppn, PGNUM(dstva), perm.flags);
        (m', if ok then OK else NO_MEM)
  }

  /** sys_page_unmap. */
  ghost function SysPageUnmap(m: Mem, env: Ptr, va: nat): (Mem, Err) {
    if env == NULL then (m, BAD_ENV)
    else if !UserPage(va) then (m, INVAL)
    else (Remove(m, env.at, PGNUM(va)), OK)
  }

  /** The page half of sys_ipc_try_send, once the target is known to receive:
      nothing moves unless both sides name a page below UTOP. */
  ghost function IpcPage(m: Mem, src: nat, srcva: nat, dst: nat, dstva: nat, perm: Word): (Mem, Err) {
    if srcva >= UTOP then (m, OK)
    else if PGOFF(srcva) != 0 then (m, INVAL)
    else if !PermOk(perm) then (m, INVAL)
    else
      var w := Translate(m, src, PGNUM(srcva));
      if !Present(w) then (m, INVAL)
      else if W in perm.flags && W !in w.flags then (m, INVAL)
      else if dstva >= UTOP then (m, OK)
      else
        var (m', ok) := Insert(m, dst, w.ppn, PGNUM(dstva), perm.flags);
        (m', if ok then OK else NO_MEM)
  }

  datatype Call =
    | Alloc(env: Ptr, va: nat, perm: Word)
    | Map(src: Ptr, srcva: nat, dst: Ptr, dstva: nat, perm: Word)
    | Unmap(env: Ptr, va: nat)
    | Send(from: nat, srcva: nat, dest: nat, dstva: nat, perm: Word)
    | Exofork
    | Free(dir: nat)

  predicate EnvOk(m: Mem, env: Ptr) {
    env.To? ==> env.at in m.dirs
  }

  /** What the 16-bit counter of the page mapped at srcva needs. */
  predicate Countable(m: Mem, src: nat, srcva: nat, dst: nat, dstva: nat) {
    Present(Translate(m, src, PGNUM(srcva))) ==>
      CanCount(m, dst, Translate(m, src, PGNUM(srcva)).ppn, PGNUM(dstva))
  }

  /** One kernel operation on address spaces. */
  ghost predicate Calls(c: Call, m: Mem, m': Mem) {
    match c
    case Alloc(env, va, perm) => EnvOk(m, env) && m' == SysPageAlloc(m, env, va, perm).0
    case Map(src, srcva, dst, dstva, perm) =>
      && EnvOk(m, src) && EnvOk(m, dst)
      && (src.To? && dst.To? ==> Countable(m, src.at, srcva, dst.at, dstva))
      && m' == SysPageMap(m, src, srcva, dst, dstva, perm).0
    case Unmap(env, va) => EnvOk(m, env) && m' == SysPageUnmap(m, env, va).0
    case Send(src, srcva, dst, dstva, perm) =>
      && src in m.dirs && dst in m.dirs && (dstva < UTOP ==> PGOFF(dstva) == 0)
      && Countable(m, src, srcva, dst, dstva)
      && m' == IpcPage(m, src, srcva, dst, dstva, perm).0
    case Exofork => m' == SetupVm(m).0
    case Free(d) => d in m.dirs && m' == EnvFreed(m, d)
  }

  /** What a call does to the flat view: nothing, or one slot of one live
      address space gets a word that was looked up or freshly allocated. */
  ghost predicate MapsWord(m: Mem, m': Mem, d: nat, v: nat, w: Word) {
    d in m.dirs && v < UTOP_VPN && Fixed(m, m') && FlatUpdate(m, m', d, v, w)
  }

  lemma InsertPage(m: Mem, d: nat, pp: nat, v: nat, flags: set<Flag>)
    requires Inv(m, multiset{}, {}) && d in m.dirs && v < UTOP_VPN && P in flags
    requires DataPage(m, pp) && pp !in m.free && CanCount(m, d, pp, v)
    ensures var (m', ok) := Insert(m, d, pp, v, flags);
            && Inv(m', multiset{}, {}) && KeepsContents(m, m')
            && (if ok then MapsWord(m, m', d, v, Word(pp, flags)) else m' == m)
  {
    InsertKeeps(m, multiset{}, {}, d, pp, v, flags);
    InsertKeepsContents(m, multiset{}, {}, d, pp, v, flags);
    assert {} - {pp} == {};
    assert flags + {P} == flags;
  }

  lemma MapPage(m: Mem, src: nat, srcva: nat, dst: nat, dstva: nat, flags: set<Flag>)
    requires Inv(m, multiset{}, {}) && src in m.dirs && dst in m.dirs && UserPage(srcva) && UserPage(dstva)
    requires Present(Translate(m, src, PGNUM(srcva))) && Countable(m, src, srcva, dst, dstva) && P in flags
    ensures var w := Translate(m, src, PGNUM(srcva));
            var (m', ok) := Insert(m, dst, w.ppn, PGNUM(dstva), flags);
            && Inv(m', multiset{}, {}) && KeepsContents(m, m')
            && DataPage(m, w.ppn) && w.ppn !in m.free && RefOf(m, w.ppn) > 0
            && (ok ==> MapsWord(m, m', dst, PGNUM(dstva), Word(w.ppn, flags)))
            && (!ok ==> m' == m)
  {
    var w := Translate(m, src, PGNUM(srcva));
    MappedPage(m, multiset{}, {}, src, PGNUM(srcva));
    InsertPage(m, dst, w.ppn, PGNUM(dstva), flags);
  }

  // ------------------------------------------------------------ results of the calls

  /** An address that is no page below UTOP. */
  predicate BadVa(va: nat) {
    va >= 0xEEC0_0000 || va % 4096 != 0
  }

  /** Permissions without PTE_P or PTE_U, or with a bit that user code may not set: one
      of the hardware's other flags, or any bit above the twelve flags. */
  predicate BadPerm(perm: Word) {
    || P !in perm.flags || U !in perm.flags || perm.ppn != 0
    || PWT in perm.flags || PCD in perm.flags || A in perm.flags || D in perm.flags
    || PS in perm.flags || G in perm.flags
  }

  lemma BadArguments(va: nat, perm: Word)
    ensures BadVa(va) <==> !UserPage(va)
    ensures BadPerm(perm) <==> !PermOk(perm)
  {
    if !BadPerm(perm) {
      forall f | f in perm.flags ensures f in PTE_SYSCALL {
        match f {
          case P => case W => case U => case AVAIL9 => case AVAIL10 => case COW =>
          case PWT => case PCD => case A => case D => case PS => case G =>
        }
      }
    }
  }

  /** sys_page_alloc: what each argument gets.  A refusal changes nothing, success maps
      a zero page with the permissions asked for. */
  lemma AllocAnswers(m: Mem, env: Ptr, va: nat, perm: Word)
    requires Inv(m, multiset{}, {}) && EnvOk(m, env)
    ensures var (m', e) := SysPageAlloc(m, env, va, perm);
            && e == (if env == NULL then BAD_ENV
                     else if BadVa(va) || BadPerm(perm) then INVAL
                     else if |m.free| < (if HasTable(m, env.at, va / 4096 / 1024) then 1 else 2) then NO_MEM
                     else OK)
            && (e == BAD_ENV || e == INVAL ==> m' == m)
            && (e == NO_MEM ==> SameFlat(m, m') && m'.free == m.free && m'.ref == m.ref && m'.dirs == m.dirs)
            && (e == OK ==>
                  && FlatUpdate(m, m', env.at, va / 4096, Word(m.free[0], perm.flags))
                  && m.free[0] < |m'.phys| && m'.phys[m.free[0]] == ZeroPage())
  {
    BadArguments(va, perm);
    if env.To? && UserPage(va) && PermOk(perm) {
      assert PGNUM(va) == va / 4096 && PDX(PGNUM(va)) == va / 4096 / 1024;
      AllocMapKeeps(m, env.at, PGNUM(va), {U, P} + perm.flags);
      assert {U, P} + perm.flags + {P} == perm.flags;
    }
  }

  /** sys_page_map: an unmapped source is -E_NO_MEM, write access to a read-only page
      -E_INVAL.  A refusal changes nothing, success maps the source's page. */
  lemma MapAnswers(m: Mem, src: Ptr, srcva: nat, dst: Ptr, dstva: nat, perm: Word)
    requires Inv(m, multiset{}, {}) && EnvOk(m, src) && EnvOk(m, dst)
    requires src.To? && dst.To? ==> Countable(m, src.at, srcva, dst.at, dstva)
    ensures var (m', e) := SysPageMap(m, src, srcva, dst, dstva, perm);
            && (e != OK ==> m' == m)
            && (src == NULL || dst == NULL ==> e == BAD_ENV)
            && (src.To? && dst.To? ==>
                  var w := Translate(m, src.at, srcva / 4096);
                  && e == (if BadVa(srcva) || BadVa(dstva) || BadPerm(perm) then INVAL
                           else if P !in w.flags then NO_MEM
                           else if W in perm.flags && W !in w.flags then INVAL
                           else if m.free == [] && !HasTable(m, dst.at, dstva / 4096 / 1024) then NO_MEM
                           else OK)
                  && (e == OK ==> FlatUpdate(m, m', dst.at, dstva / 4096, Word(w.ppn, perm.flags))))
  {
    BadArguments(srcva, perm);
    BadArguments(dstva, perm);
    if src.To? && dst.To? && UserPage(srcva) && UserPage(dstva) && PermOk(perm) {
      assert PGNUM(srcva) == srcva / 4096 && PGNUM(dstva) == dstva / 4096;
      assert PDX(PGNUM(dstva)) == dstva / 4096 / 1024;
      var w := Translate(m, src.at, PGNUM(srcva));
      if Present(w) {
        MapPage(m, src.at, srcva, dst.at, dstva, perm.flags);
        InsertKeeps(m, multiset{}, {}, dst.at, w.ppn, PGNUM(dstva), perm.flags);
      }
    }
  }

  /** sys_page_unmap: nothing is mapped at the page afterwards. */
  lemma UnmapAnswers(m: Mem, env: Ptr, va: nat)
    requires Inv(m, multiset{}, {}) && EnvOk(m, env)
    ensures var (m', e) := SysPageUnmap(m, env, va);
            && e == (if env == NULL then BAD_ENV else if BadVa(va) then INVAL else OK)
            && (e != OK ==> m' == m) && (e == OK ==> FlatUpdate(m, m', env.at, va / 4096, ZERO))
  {
    BadArguments(va, ZERO);
    if env.To? && UserPage(va) {
      assert PGNUM(va) == va / 4096;
      RemoveKeeps(m, multiset{}, {}, env.at, PGNUM(va));
    }
  }

  /** The page part of a send: like sys_page_map, but that an unmapped page is
      -E_INVAL, and that nothing happens unless both sides name a page below UTOP. */
  lemma SendAnswers(m: Mem, src: nat, srcva: nat, dst: nat, dstva: nat, perm: Word)
    requires Inv(m, multiset{}, {}) && src in m.dirs && dst in m.dirs
    requires (dstva < UTOP ==> PGOFF(dstva) == 0) && Countable(m, src, srcva, dst, dstva)
    ensures var (m', e) := IpcPage(m, src, srcva, dst, dstva, perm);
            var w := Translate(m, src, srcva / 4096);
            && e == (if srcva >= 0xEEC0_0000 then OK
                     else if srcva % 4096 != 0 || BadPerm(perm) || P !in w.flags then INVAL
                     else if W in perm.flags && W !in w.flags then INVAL
                     else if dstva >= 0xEEC0_0000 then OK
                     else if m.free == [] && !HasTable(m, dst, dstva / 4096 / 1024) then NO_MEM
                     else OK)
            && (e != OK || srcva >= 0xEEC0_0000 || dstva >= 0xEEC0_0000 ==> m' == m)
            && (e == OK && srcva < 0xEEC0_0000 && dstva < 0xEEC0_0000 ==>
                  FlatUpdate(m, m', dst, dstva / 4096, Word(w.ppn, perm.flags)))
  {
    BadArguments(srcva, perm);
    if srcva < UTOP && dstva < UTOP {
      MapAnswers(m, To(src), srcva, To(dst), dstva, perm);
    }
  }

  /** A send whose page part fails, for whatever reason, leaves all memory and every
      mapping as they were. */
  lemma FailedSendMapsNothing(m: Mem, src: nat, srcva: nat, dst: nat, dstva: nat, perm: Word)
    requires Inv(m, multiset{}, {}) && src in m.dirs && dst in m.dirs
    requires (dstva < UTOP ==> PGOFF(dstva) == 0) && Countable(m, src, srcva, dst, dstva)
    requires IpcPage(m, src, srcva, dst, dstva, perm).1 != OK
    ensures IpcPage(m, src, srcva, dst, dstva, perm).0 == m
  {
    if UserPage(srcva) && PermOk(perm) && dstva < UTOP && Present(Translate(m, src, PGNUM(srcva))) {
      MapPage(m, src, srcva, dst, dstva, perm.flags);
    }
  }

  /** Counts stay exact across every call and every error return. */
  lemma CallKeepsExact(c: Call, m: Mem, m': Mem)
    requires Inv(m, multiset{}, {}) && Calls(c, m, m')
    ensures Inv(m', multiset{}, {})
  {
    match c
    case Alloc(env, va, perm) =>
      if env.To? && UserPage(va) && PermOk(perm) {
        AllocMapKeeps(m, env.at, PGNUM(va), {U, P} + perm.flags);
      }
    case Map(src, srcva, dst, dstva, perm) =>
      if src.To? && dst.To? && UserPage(srcva) && UserPage(dstva) && PermOk(perm) {
        if Present(Translate(m, src.at, PGNUM(srcva))) {
          MapPage(m, src.at, srcva, dst.at, dstva, perm.flags);
        }
      }
    case Unmap(env, va) =>
      if env.To? && UserPage(va) {
        RemoveKeeps(m, multiset{}, {}, env.at, PGNUM(va));
      }
    case Send(src, srcva, dst, dstva, perm) =>
      if UserPage(srcva) && PermOk(perm) && UserPage(dstva) && Present(Translate(m, src, PGNUM(srcva))) {
        MapPage(m, src, srcva, dst, dstva, perm.flags);
      }
    case Exofork =>
      if m.free != [] {
        SetupKeeps(m, multiset{}, {});
      }
    case Free(d) => EnvFreedTears(m, d);
  }

  ghost predicate Run(calls: seq<Call>, ms: seq<Mem>) {
    |ms| == |calls| + 1 && forall k :: 0 <= k < |calls| ==> Calls(calls[k], ms[k], ms[k + 1])
  }

  /** In every reachable state each count is the number of references and the
      free list is exactly the unreferenced pages. */
  lemma {:induction false} ExactOnEveryRun(calls: seq<Call>, ms: seq<Mem>, k: nat)
    requires Run(calls, ms) && Inv(ms[0], multiset{}, {}) && k <= |calls|
    ensures Inv(ms[k], multiset{}, {})
  {
    if k > 0 {
      ExactOnEveryRun(calls, ms, k - 1);
      CallKeepsExact(calls[k - 1], ms[k - 1], ms[k]);
    }
  }

  /** In every reachable state the directories grant whatever the page tables do: user
      code can read and write exactly what its page-table entries say. */
  lemma MmuGrantsOnEveryRun(calls: seq<Call>, ms: seq<Mem>, k: nat, d: nat, v: nat, f: Flag)
    requires Run(calls, ms) && Inv(ms[0], multiset{}, {}) && k <= |calls|
    requires d in ms[k].dirs && v < UTOP_VPN && (f == P || f == U || f == W)
    ensures MmuGrants(ms[k], d, v, f) <==> f in Translate(ms[k], d, v).flags
    ensures forall i :: 0 <= i < 955 && P in At(ms[k], d, i).flags ==> {P, U, W} <= At(ms[k], d, i).flags
  {
    ExactOnEveryRun(calls, ms, k);
    TablesGrant(ms[k], multiset{}, {}, d, v, f);
  }

  // ---------------------------------------------------------- write permission

  ghost predicate WritableAt(m: Mem, d: nat, v: nat, p: nat) {
    d in m.dirs && v < UTOP_VPN && Maps(Translate(m, d, v), p) && W in Translate(m, d, v).flags
  }

  ghost predicate ReadOnly(m: Mem, p: nat) {
    forall d, v :: !WritableAt(m, d, v, p)
  }

  lemma SlotKeepsReadOnly(m: Mem, m': Mem, d: nat, v: nat, w: Word, p: nat)
    requires MapsWord(m, m', d, v, w) && ReadOnly(m, p)
    requires w.ppn == p && Present(w) ==> W !in w.flags
    ensures ReadOnly(m', p)
  {
    forall e, u ensures !WritableAt(m', e, u, p) {
      assert !WritableAt(m, e, u, p);
    }
  }

  lemma SameKeepsReadOnly(m: Mem, m': Mem, p: nat)
    requires ReadOnly(m, p) && m'.dirs <= m.dirs
    requires forall e, u :: e in m'.dirs && 0 <= u < UTOP_VPN ==> Translate(m', e, u) == Translate(m, e, u)
    ensures ReadOnly(m', p)
  {
    forall e, u ensures !WritableAt(m', e, u, p) {
      assert !WritableAt(m, e, u, p);
    }
  }

  lemma AllocKeepsReadOnly(m: Mem, d: nat, v: nat, flags: set<Flag>, p: nat)
    requires Inv(m, multiset{}, {}) && d in m.dirs && v < UTOP_VPN
    requires ReadOnly(m, p) && RefOf(m, p) > 0
    ensures ReadOnly(AllocMap(m, d, v, flags).0, p)
  {
    AllocMapKeeps(m, d, v, flags);
    var (m', ok) := AllocMap(m, d, v, flags);
    if ok {
      assert m.free[0] in m.free;
      SlotKeepsReadOnly(m, m', d, v, Word(m.free[0], flags + {P}), p);
    } else {
      SameKeepsReadOnly(m, m', p);
    }
  }

  lemma MapKeepsReadOnly(m: Mem, src: nat, srcva: nat, dst: nat, dstva: nat, flags: set<Flag>, p: nat)
    requires Inv(m, multiset{}, {}) && src in m.dirs && dst in m.dirs && UserPage(srcva) && UserPage(dstva)
    requires Present(Translate(m, src, PGNUM(srcva))) && Countable(m, src, srcva, dst, dstva) && P in flags
    requires W in flags ==> W in Translate(m, src, PGNUM(srcva)).flags
    requires ReadOnly(m, p)
    ensures ReadOnly(Insert(m, dst, Translate(m, src, PGNUM(srcva)).ppn, PGNUM(dstva), flags).0, p)
  {
    MapPage(m, src, srcva, dst, dstva, flags);
    var w := Translate(m, src, PGNUM(srcva));
    var (m', ok) := Insert(m, dst, w.ppn, PGNUM(dstva), flags);
    assert !WritableAt(m, src, PGNUM(srcva), p);
    if ok {
      SlotKeepsReadOnly(m, m', dst, PGNUM(dstva), Word(w.ppn, flags), p);
    }
  }

  /** No call gives a referenced page a writable mapping it did not have. */
  lemma CallKeepsReadOnly(c: Call, m: Mem, m': Mem, p: nat)
    requires Inv(m, multiset{}, {}) && Calls(c, m, m') && ReadOnly(m, p) && RefOf(m, p) > 0
    ensures ReadOnly(m', p)
  {
    match c
    case Alloc(env, va, perm) =>
      if env.To? && UserPage(va) && PermOk(perm) {
        AllocKeepsReadOnly(m, env.at, PGNUM(va), {U, P} + perm.flags, p);
      }
    case Map(src, srcva, dst, dstva, perm) =>
      if src.To? && dst.To? && SysPageMap(m, src, srcva, dst, dstva, perm).1 == OK {
        MapKeepsReadOnly(m, src.at, srcva, dst.at, dstva, perm.flags, p);
      }
    case Unmap(env, va) =>
      if env.To? && UserPage(va) {
        RemoveKeeps(m, multiset{}, {}, env.at, PGNUM(va));
        SlotKeepsReadOnly(m, m', env.at, PGNUM(va), ZERO, p);
      }
    case Send(src, srcva, dst, dstva, perm) =>
      if srcva < UTOP && dstva < UTOP && IpcPage(m, src, srcva, dst, dstva, perm).1 == OK {
        MapKeepsReadOnly(m, src, srcva, dst, dstva, perm.flags, p);
      }
    case Exofork =>
      if m.free != [] {
        SetupKeeps(m, multiset{}, {});
        NewSpaceKeepsReadOnly(m, m', m.free[0], p);
      }
    case Free(d) =>
      EnvFreedTears(m, d);
      SameKeepsReadOnly(m, m', p);
  }

  lemma NewSpaceKeepsReadOnly(m: Mem, m': Mem, d: nat, p: nat)
    requires ReadOnly(m, p) && m'.dirs == m.dirs + {d} && SameFlat(m, m')
    requires forall u :: 0 <= u < UTOP_VPN ==> Translate(m', d, u) == ZERO
    ensures ReadOnly(m', p)
  {
    forall e, u: nat ensures !WritableAt(m', e, u, p) {
      assert !WritableAt(m, e, u, p);
      if e == d && e !in m.dirs && u < UTOP_VPN {
        assert Translate(m', d, u) == ZERO;
      }
    }
  }

  /** Once a page has no writable mapping it has none until it was freed. */
  lemma {:induction false} WriteNeverCreated(calls: seq<Call>, ms: seq<Mem>, p: nat, k: nat)
    requires Run(calls, ms) && Inv(ms[0], multiset{}, {}) && ReadOnly(ms[0], p) && k <= |calls|
    requires forall j :: 0 <= j < k ==> RefOf(ms[j], p) > 0
    ensures ReadOnly(ms[k], p)
  {
    if k > 0 {
      WriteNeverCreated(calls, ms, p, k - 1);
      ExactOnEveryRun(calls, ms, k - 1);
      assert Calls(calls[k - 1], ms[k - 1], ms[k - 1 + 1]);
      CallKeepsReadOnly(calls[k - 1], ms[k - 1], ms[k], p);
    }
  }

  // -------------------------------------------------- a space built and torn down

  /** A call that changes address space d only. */
  predicate Into(c: Call, d: nat) {
    match c
    case Alloc(env, va, perm) => env == To(d)
    case Map(src, srcva, dst, dstva, perm) => dst == To(d)
    case Unmap(env, va) => env == To(d)
    case Send(src, srcva, dst, dstva, perm) => dst == d
    case _ => false
  }

  lemma IntoKeepsOutside(c: Call, m: Mem, m': Mem, d: nat)
    requires Inv(m, multiset{}, {}) && Calls(c, m, m') && Into(c, d)
    ensures SameOutside(m, m', d) && m'.dirs == m.dirs && m'.reserved == m.reserved && |m'.ref| == |m.ref|
  {
    match c
    case Alloc(env, va, perm) =>
      if UserPage(va) && PermOk(perm) {
        AllocMapKeeps(m, d, PGNUM(va), {U, P} + perm.flags);
      }
    case Map(src, srcva, dst, dstva, perm) =>
      if src.To? && SysPageMap(m, src, srcva, dst, dstva, perm).1 in {OK, NO_MEM} &&
         Present(Translate(m, src.at, PGNUM(srcva))) {
        MapOutside(m, src.at, srcva, d, dstva, perm.flags);
      }
    case Unmap(env, va) =>
      if UserPage(va) {
        RemoveKeeps(m, multiset{}, {}, d, PGNUM(va));
      }
    case Send(src, srcva, dst, dstva, perm) =>
      if UserPage(srcva) && PermOk(perm) && UserPage(dstva) && Present(Translate(m, src, PGNUM(srcva))) {
        MapOutside(m, src, srcva, d, dstva, perm.flags);
      }
  }

  lemma MapOutside(m: Mem, src: nat, srcva: nat, d: nat, dstva: nat, flags: set<Flag>)
    requires Inv(m, multiset{}, {}) && src in m.dirs && d in m.dirs && UserPage(srcva) && UserPage(dstva)
    requires Present(Translate(m, src, PGNUM(srcva))) && Countable(m, src, srcva, d, dstva) && P in flags
    ensures var m' := Insert(m, d, Translate(m, src, PGNUM(srcva)).ppn, PGNUM(dstva), flags).0;
            SameOutside(m, m', d) && Fixed(m, m')
  {
    var p := Translate(m, src, PGNUM(srcva)).ppn;
    MappedPage(m, multiset{}, {}, src, PGNUM(srcva));
    InsertKeeps(m, multiset{}, {}, d, p, PGNUM(dstva), flags);
  }

  lemma {:induction false} BuildKeepsOutside(calls: seq<Call>, ms: seq<Mem>, d: nat, k: nat)
    requires Run(calls, ms) && Inv(ms[0], multiset{}, {}) && k <= |calls|
    requires forall j :: 0 <= j < |calls| ==> Into(calls[j], d)
    ensures Inv(ms[k], multiset{}, {}) && SameOutside(ms[0], ms[k], d)
    ensures ms[k].dirs == ms[0].dirs && ms[k].reserved == ms[0].reserved && |ms[k].ref| == |ms[0].ref|
  {
    if k > 0 {
      BuildKeepsOutside(calls, ms, d, k - 1);
      assert Calls(calls[k - 1], ms[k - 1], ms[k - 1 + 1]);
      CallKeepsExact(calls[k - 1], ms[k - 1], ms[k]);
      IntoKeepsOutside(calls[k - 1], ms[k - 1], ms[k], d);
    }
  }

  /** Allocating an address space, building anything in it and freeing it
      restores the set of free pages and every count. */
  lemma BuildAndFreeRestores(m0: Mem, calls: seq<Call>, ms: seq<Mem>, m': Mem)
    requires Run(calls, ms)
    requires Inv(m0, multiset{}, {}) && m0.free != [] && Calls(Exofork, m0, ms[0])
    requires forall j :: 0 <= j < |calls| ==> Into(calls[j], m0.free[0])
    requires Calls(Free(m0.free[0]), ms[|calls|], m')
    ensures forall p :: p in m'.free <==> p in m0.free
    ensures forall p: nat :: Managed(m0, p) ==> RefOf(m', p) == RefOf(m0, p)
  {
    var d := m0.free[0];
    SetupKeeps(m0, multiset{}, {});
    assert SameOutside(m0, ms[0], d);
    BuildKeepsOutside(calls, ms, d, |calls|);
    var m := ms[|calls|];
    EnvFreedTears(m, d);
    TearsForgets(m0, m, m', d);
    FreeSetDetermined(m0, m');
  }
}
