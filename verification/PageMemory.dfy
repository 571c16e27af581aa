/** The page allocator and page-table code as it runs: the pages array with its
    intrusive free list, physical memory updated in place, and the MMU of the
    executing CPU.  Every method is tied to the functions of AddressSpace and
    Tlb, whose lemmas say what they mean. */
module PageMemory {
  import opened Layout
  import opened Paging
  import opened AddressSpace
  import opened Tlb
  import opened FreeList
  import opened Teardown
  import opened PageCalls
  import opened UserMemCheck

  class Memory {
    const pages: array<PageInfo>
    const phys: array<seq<Word>>
    const kernPgdir: nat
    var freeList: Ptr
    var mmu: Mmu
    var userMemCheckAddr: nat
    ghost var m: Mem

    ghost predicate Valid()
      reads this, pages, phys
    {
      && pages.Length == |m.ref| && phys.Length == |m.phys| && pages.Length == phys.Length
      && (forall p :: 0 <= p < pages.Length ==> pages[p].ref == m.ref[p])
      && phys[..] == m.phys && kernPgdir == m.kern
      && Spells(pages[..], freeList, m.free)
    }

    method PageAlloc(zero: bool) returns (pp: Ptr)
      requires Valid()
      modifies this`freeList, this`m, pages, phys
      ensures Valid()
      ensures pp == Head(old(m.free), 0)
      ensures m == if old(m.free) == [] then old(m) else PopFree(old(m), zero)
    {
      if freeList == NULL {
        return NULL;
      }
      pp := freeList;
      PopSpells(pages[..], freeList, m.free);
      if zero {
        ZeroFill(pp.at);
      }
      freeList := pages[pp.at].link;
      pages[pp.at] := pages[pp.at].(link := NULL);
      PopFrees(m, zero);
      m := PopFree(m, zero);
    }

    lemma PopFrees(m: Mem, zero: bool)
      requires m.free != []
      ensures var r := PopFree(m, zero);
              && r.free == m.free[1..] && r.ref == m.ref && r.kern == m.kern && |r.phys| == |m.phys|
              && (m.free[0] < |m.phys| ==> r.phys == if zero then m.phys[m.free[0] := ZeroPage()] else m.phys)
    {
    }

    /** memset of a whole page. */
    method ZeroFill(p: nat)
      requires p < phys.Length
      modifies phys
      ensures phys[..] == old(phys[..])[p := ZeroPage()]
    {
      phys[p] := ZeroPage();
    }

    /** panics on a referenced page and on a page whose link is set; a page that
        is not on the list is pushed.  The tail of the list slips through. */
    method PageFree(p: nat) returns (panicked: bool)
      requires Valid() && p < pages.Length
      modifies this`freeList, this`m, pages
      ensures panicked <==> old(m.ref[p] != 0 || pages[p].link != NULL)
      ensures panicked ==> Valid() && m == old(m)
      ensures !panicked && p !in old(m.free) ==> Valid() && m == PushFree(old(m), p)
      ensures !panicked ==> pages[..] == old(pages[..])[p := PageInfo(old(freeList), 0)] && freeList == To(p)
    {
      if pages[p].ref != 0 || pages[p].link != NULL {
        return true;
      }
      pages[p] := pages[p].(link := freeList);
      freeList := To(p);
      m := PushFree(m, p);
      return false;
    }

    method PageDecref(p: nat)
      requires Valid() && p < pages.Length && m.ref[p] < REF_RANGE && (m.ref[p] == 1 ==> p !in m.free)
      modifies this`freeList, this`m, pages
      ensures Valid() && m == DecRef(old(m), p)
    {
      DecRefCases(m, p);
      var r := Dec16(pages[p].ref);
      SetCount(p, r);
      if r == 0 {
        OffListUnlinked(p);
        var panicked := PageFree(p);
      }
    }

    lemma OffListUnlinked(p: nat)
      requires Valid() && p < pages.Length && p !in m.free
      ensures pages[p].link == NULL
    {
    }

    /** A store to pp->pp_ref. */
    method SetCount(p: nat, r: nat)
      requires Valid() && p < pages.Length
      modifies this`m, pages
      ensures Valid() && m == SetRef(old(m), p, r)
    {
      pages[p] := pages[p].(ref := r);
      m := SetRef(m, p, r);
    }

    /** pp->pp_ref++. */
    method CountReference(p: nat)
      requires Valid() && p < pages.Length
      modifies this`m, pages
      ensures Valid() && m == IncRef(old(m), p)
    {
      SetCount(p, Inc16(pages[p].ref));
    }

    /** A store of one word to physical memory. */
    method Store(p: nat, k: nat, w: Word)
      requires Valid() && p < phys.Length && k < |phys[p]|
      modifies this`m, phys
      ensures Valid() && m == SetWord(old(m), p, k, w)
    {
      phys[p] := phys[p][k := w];
      m := SetWord(m, p, k, w);
    }

    /** A load of one word. */
    method Load(p: nat, k: nat) returns (w: Word)
      requires Valid() && p < phys.Length && k < |phys[p]|
      ensures w == At(m, p, k)
    {
      w := phys[p][k];
    }

    /** pgdir_walk: the page holding the PTE of v, or NULL; the PTE is word
        v % 1024 of it. */
    method PgdirWalk(d: nat, v: nat, create: bool) returns (t: Ptr)
      requires Valid() && InTables(m, d, v)
      modifies this`freeList, this`m, pages, phys
      ensures Valid() && m == Walk(old(m), d, v, create).0
      ensures t == if Walk(old(m), d, v, create).1 then To(TableOf(m, d, PDX(v))) else NULL
      ensures InTables(m, d, v)
    {
      WalkInTables(m, d, v, create);
      var pde := Load(d, PDX(v));
      if P in pde.flags {
        return To(pde.ppn);
      } else if create {
        var pNew := PageAlloc(true);
        if pNew == NULL {
          return NULL;
        }
        CountReference(pNew.at);
        Store(d, PDX(v), Word(pNew.at, {P, U, W}));
        return pNew;
      } else {
        return NULL;
      }
    }

    /** page_lookup: the mapped page, or NULL; with it the page of its PTE. */
    method PageLookup(d: nat, v: nat) returns (pp: Ptr, t: nat)
      requires Valid() && InTables(m, d, v)
      modifies this`freeList, this`m, pages, phys
      ensures Valid() && m == old(m)
      ensures pp == if Present(Translate(m, d, v)) then To(Translate(m, d, v).ppn) else NULL
      ensures pp.To? ==> Present(At(m, d, PDX(v))) && t == TableOf(m, d, PDX(v))
    {
      t := 0;
      var pte := PgdirWalk(d, v, false);
      if pte == NULL {
        return NULL, t;
      }
      var w := Load(pte.at, PTX(v));
      if P !in w.flags {
        return NULL, t;
      }
      return To(w.ppn), pte.at;
    }

    /** tlb_invalidate. */
    method InvalidateTlb(d: nat, v: nat)
      modifies this`mmu
      ensures mmu == TlbInvalidate(old(mmu), d, v)
    {
      if mmu.curDir == NULL || mmu.curDir == To(d) {
        mmu := mmu.(tlb := mmu.tlb - {v});
      }
    }

    /** page_remove. */
    method PageRemove(d: nat, v: nat)
      requires Valid() && InTables(m, d, v) && Removable(m, d, v)
      modifies this, pages, phys
      ensures Valid() && m == Remove(old(m), d, v)
      ensures mmu == RemoveMmu(old(m), old(mmu), d, v)
    {
      var got, t := PageLookup(d, v);
      if got != NULL {
        PageDecref(got.at);
        Store(t, PTX(v), ZERO);
        InvalidateTlb(d, v);
      }
    }

    /** page_insert: true for 0, false for -E_NO_MEM. */
    method PageInsert(d: nat, pp: nat, v: nat, perm: set<Flag>) returns (ok: bool)
      requires Valid() && InTables(m, d, v) && InsertReady(m, d, pp, v)
      modifies this, pages, phys
      ensures Valid() && m == Insert(old(m), d, pp, v, perm).0 && ok == Insert(old(m), d, pp, v, perm).1
      ensures mmu == if ok then RemoveMmu(old(m), old(mmu), d, v) else old(mmu)
    {
      var pte := PgdirWalk(d, v, true);
      if pte == NULL {
        return false;
      }
      InsertEntry(d, pp, v, perm, pte.at);
      return true;
    }

    /** page_insert from the increment on; t is the page of the PTE. */
    method InsertEntry(d: nat, pp: nat, v: nat, perm: set<Flag>, t: nat)
      requires Valid() && InTables(m, d, v) && Present(At(m, d, PDX(v))) && t == TableOf(m, d, PDX(v))
      requires pp < |m.ref| && CountedReady(m, d, pp, v)
      modifies this, pages, phys
      ensures Valid() && m == InsertAt(old(m), d, pp, v, perm)
      ensures mmu == RemoveMmu(old(m), old(mmu), d, v)
    {
      InsertAtSteps(m, d, pp, v, perm);
      var w := Load(t, PTX(v));
      CountReference(pp);
      if P in w.flags {
        PageRemove(d, v);
      }
      Store(t, PTX(v), Word(pp, perm + {P}));
    }

    /** sys_page_alloc on the environment found by envid2env. */
    method SysPageAlloc(env: Ptr, va: nat, perm: Word) returns (e: Err)
      requires Valid() && Inv(m, multiset{}, {}) && EnvOk(m, env)
      modifies this, pages, phys
      ensures Valid() && Inv(m, multiset{}, {})
      ensures (m, e) == PageCalls.SysPageAlloc(old(m), env, va, perm)
      ensures mmu == if e == OK then RemoveMmu(old(m), old(mmu), env.at, PGNUM(va)) else old(mmu)
    {
      if env == NULL {
        return BAD_ENV;
      }
      if va >= UTOP || PGOFF(va) != 0 {
        return INVAL;
      }
      if perm.ppn != 0 || !({U, P} <= perm.flags) || !(perm.flags <= PTE_SYSCALL) {
        return INVAL;
      }
      AllocPlan(m, env.at, PGNUM(va), {U, P} + perm.flags);
      var newPage := PageAlloc(true);
      if newPage == NULL {
        return NO_MEM;
      }
      var ok := PageInsert(env.at, newPage.at, PGNUM(va), {U, P} + perm.flags);
      if !ok {
        OffListUnlinked(newPage.at);
        var panicked := PageFree(newPage.at);
        return NO_MEM;
      }
      return OK;
    }

    /** sys_page_map on the environments found by envid2env. */
    method SysPageMap(src: Ptr, srcva: nat, dst: Ptr, dstva: nat, perm: Word) returns (e: Err)
      requires Valid() && Inv(m, multiset{}, {}) && EnvOk(m, src) && EnvOk(m, dst)
      requires src.To? && dst.To? ==> Countable(m, src.at, srcva, dst.at, dstva)
      modifies this, pages, phys
      ensures Valid() && Inv(m, multiset{}, {})
      ensures (m, e) == PageCalls.SysPageMap(old(m), src, srcva, dst, dstva, perm)
      ensures mmu == if e == OK then RemoveMmu(old(m), old(mmu), dst.at, PGNUM(dstva)) else old(mmu)
    {
      if src == NULL || dst == NULL {
        return BAD_ENV;
      }
      if srcva >= UTOP || PGOFF(srcva) != 0 || dstva >= UTOP || PGOFF(dstva) != 0 {
        return INVAL;
      }
      if perm.ppn != 0 || !({U, P} <= perm.flags) || !(perm.flags <= PTE_SYSCALL) {
        return INVAL;
      }
      InvInTables(m, multiset{}, {}, src.at, PGNUM(srcva));
      var p, t := PageLookup(src.at, PGNUM(srcva));
      if p == NULL {
        return NO_MEM;
      }
      var pte := Load(t, PTX(PGNUM(srcva)));
      if W in perm.flags && W !in pte.flags {
        return INVAL;
      }
      MapPlan(m, src.at, srcva, dst.at, dstva, perm.flags);
      var ok := PageInsert(dst.at, p.at, PGNUM(dstva), perm.flags);
      return if ok then OK else NO_MEM;
    }

    /** sys_page_unmap on the environment found by envid2env. */
    method SysPageUnmap(env: Ptr, va: nat) returns (e: Err)
      requires Valid() && Inv(m, multiset{}, {}) && EnvOk(m, env)
      modifies this, pages, phys
      ensures Valid() && Inv(m, multiset{}, {})
      ensures (m, e) == PageCalls.SysPageUnmap(old(m), env, va)
      ensures mmu == if e == OK then RemoveMmu(old(m), old(mmu), env.at, PGNUM(va)) else old(mmu)
    {
      if env == NULL {
        return BAD_ENV;
      }
      if va >= UTOP || PGOFF(va) != 0 {
        return INVAL;
      }
      InvInTables(m, multiset{}, {}, env.at, PGNUM(va));
      RemoveKeeps(m, multiset{}, {}, env.at, PGNUM(va));
      PageRemove(env.at, PGNUM(va));
      return OK;
    }

    /** The walk and permission test of user_mem_check. */
    method PteAllows(d: nat, v: nat, perm: set<Flag>) returns (ok: bool)
      requires Valid() && InTables(m, d, v)
      modifies this`freeList, this`m, pages, phys
      ensures Valid() && m == old(m) && (ok <==> PageOk(m, d, v, perm))
    {
      var pp := PgdirWalk(d, v, false);
      if pp == NULL {
        return false;
      }
      var w := Load(pp.at, PTX(v));
      return P in w.flags && perm <= w.flags;
    }

    /** user_mem_check of a 32-bit range: true for 0, false for -E_FAULT with
        the first bad address recorded. */
    method CheckUserMem(d: nat, va: nat, len: nat, perm: set<Flag>) returns (ok: bool)
      requires Valid() && (forall v :: 0 <= v < 1048576 ==> InTables(m, d, v))
      requires va < 4294967296 && len < 4294967296
      modifies this`freeList, this`m, this`userMemCheckAddr, pages, phys
      ensures Valid() && m == old(m)
      ensures ok <==> PagesOk(m, d, va, len, perm)
      ensures len > 0 && NoWrap(va, len) ==> Decides(m, d, va, len, perm, ok, userMemCheckAddr)
    {
      var startVa := RoundDown(va);
      var endVa := End32(va, len);
      PageStart(PGNUM((va + len + 4095) % 4294967296));
      ghost var u;
      var bad;
      ok, bad, u := ScanPages(d, startVa, endVa, perm, PGNUM(va), PGNUM(endVa));
      if ok {
        AllPassed(m, d, va, len, perm, userMemCheckAddr);
      } else {
        userMemCheckAddr := if bad < va then va else bad;
        FirstBadByte(m, d, va, len, perm, u);
      }
    }

    /** The loop of user_mem_check: the first page of the range that fails. */
    method ScanPages(d: nat, start: nat, end: nat, perm: set<Flag>, ghost s: nat, ghost e: nat)
      returns (ok: bool, bad: nat, ghost u: nat)
      requires Valid() && (forall v :: 0 <= v < 1048576 ==> InTables(m, d, v))
      requires start == s * 4096 && end == e * 4096 && e <= 1048576
      modifies this`freeList, this`m, pages, phys
      ensures Valid() && m == old(m)
      ensures ok ==> forall v :: s <= v < e ==> Passes(m, d, v, perm)
      ensures !ok ==> bad == u * 4096 && s <= u < e && !Passes(m, d, u, perm)
      ensures !ok ==> forall v :: s <= v < u ==> Passes(m, d, v, perm)
    {
      bad, u := start, s;
      while bad < end
        invariant bad == u * 4096 && s <= u
        invariant Valid() && m == old(m)
        invariant forall v :: s <= v < u ==> Passes(m, d, v, perm)
      {
        PageStart(u);
        var allowed := PteAllows(d, PGNUM(bad), perm);
        if !BelowUlim(bad) || !allowed {
          return false, bad, u;
        }
        bad, u := bad + 4096, u + 1;
      }
      return true, bad, u;
    }

    /** env_setup_vm: the page of the new directory, or NULL for -E_NO_MEM. */
    method EnvSetupVm() returns (d: Ptr)
      requires Valid() && Inv(m, multiset{}, {})
      modifies this, pages, phys
      ensures Valid() && m == SetupVm(old(m)).0 && mmu == old(mmu)
      ensures d == if SetupVm(old(m)).1 then To(old(m.free[0])) else NULL
      ensures Inv(m, multiset{}, {})
    {
      SetupPlan(m);
      var p := PageAlloc(true);
      if p == NULL {
        return NULL;
      }
      CountReference(p.at);
      CopyKernelEntries(p.at);
      m := m.(dirs := m.dirs + {p.at});
      return p;
    }

    /** The loop of env_setup_vm and the self map. */
    method CopyKernelEntries(d: nat)
      requires Valid() && d < phys.Length && phys[d] == ZeroPage()
      requires m.kern < phys.Length && |phys[m.kern]| == ENTRIES && m.kern != d
      modifies this`m, phys
      ensures Valid() && m == old(m).(phys := old(m).phys[d := DirPage(old(m), d)])
    {
      ghost var m0 := m;
      var x := UTOP_PDX;
      while x < ENTRIES
        invariant UTOP_PDX <= x <= ENTRIES
        invariant Valid() && m == m0.(phys := m.phys) && |m.phys| == |m0.phys|
        invariant forall q :: 0 <= q < |m.phys| && q != d ==> m.phys[q] == m0.phys[q]
        invariant |m.phys[d]| == ENTRIES
        invariant forall k :: 0 <= k < ENTRIES ==>
          m.phys[d][k] == if UTOP_PDX <= k < x then m0.phys[m.kern][k] else ZERO
      {
        var w := Load(kernPgdir, x);
        Store(d, x, w);
        x := x + 1;
      }
      Store(d, UVPT_PDX, Word(d, {P, U}));
      assert m.phys[d] == DirPage(m0, d);
      assert m.phys == m0.phys[d := DirPage(m0, d)];
    }

    /** env_free up to the free-environment list: every user mapping, every
        table and the directory.  The caller then clears curenv if it was e. */
    method EnvFree(d: nat)
      requires Valid() && Inv(m, multiset{}, {}) && d in m.dirs
      requires Sound(m, mmu) && Loaded(m, mmu)
      modifies this, pages, phys
      ensures Valid() && Inv(m, multiset{}, {})
      ensures m == EnvFreed(old(m), d) && Tears(old(m), m, d)
      ensures Sound(m, mmu) && mmu.curDir == old(mmu.curDir)
      ensures mmu.cr3 == if old(mmu.curDir) == To(d) then m.kern else old(mmu.cr3)
    {
      if mmu.curDir == To(d) {
        mmu := Lcr3(mmu, kernPgdir);
      }
      ghost var m0, was := m, mmu;
      TearStart(m, d);
      InvBounds(m, multiset{}, {});
      FreeTables(d, m0, was);
      FreeDirectory(d, m0, was);
    }

    /** The outer loop of env_free. */
    method FreeTables(d: nat, ghost m0: Mem, ghost was: Mmu)
      requires Valid() && m0 == m && Torn(m0, m, d, 0, 0) && Untouched(m, mmu, d, was)
      modifies this, pages, phys
      ensures Valid() && Torn(m0, m, d, UTOP_PDX, 0) && Untouched(m, mmu, d, was)
      ensures m == TablesFreed(m0, d, 0)
    {
      ghost var g := TablesFreed(m, d, 0);
      var pdeno := 0;
      while pdeno < UTOP_PDX
        invariant 0 <= pdeno <= UTOP_PDX
        invariant Valid() && Torn(m0, m, d, pdeno, 0) && Untouched(m, mmu, d, was)
        invariant TablesFreed(m, d, pdeno) == g
      {
        ghost var m1 := m;
        FreeTable(d, pdeno, m0, was);
        NextTable(m1, d, pdeno);
        pdeno := pdeno + 1;
      }
    }

    /** The end of env_free: the directory page itself. */
    method FreeDirectory(d: nat, ghost m0: Mem, ghost was: Mmu)
      requires Valid() && Torn(m0, m, d, UTOP_PDX, 0) && Untouched(m, mmu, d, was)
      modifies this, pages, phys
      ensures Valid() && m == DecRef(old(m).(dirs := old(m).dirs - {d}), d)
      ensures Inv(m, multiset{}, {}) && Tears(m0, m, d)
      ensures mmu == old(mmu) && Sound(m, mmu)
    {
      TearDir(m0, m, d);
      UntouchedAfterDrop(m, DecRef(m.(dirs := m.dirs - {d}), d), mmu, d, was);
      m := m.(dirs := m.dirs - {d});
      PageDecref(d);
    }

    /** One iteration of env_free's outer loop. */
    method FreeTable(d: nat, pdeno: nat, ghost m0: Mem, ghost was: Mmu)
      requires Valid() && pdeno < UTOP_PDX && Torn(m0, m, d, pdeno, 0) && Untouched(m, mmu, d, was)
      modifies this, pages, phys
      ensures Valid() && Torn(m0, m, d, pdeno + 1, 0) && Untouched(m, mmu, d, was)
      ensures m == TableFreed(old(m), d, pdeno)
    {
      InvInTables(m, multiset{}, {}, d, PageNumber(pdeno, 0));
      var pde := Load(d, pdeno);
      if P !in pde.flags {
        TearNothing(m0, m, d, pdeno);
        return;
      }
      FreePages(d, pdeno, m0, was);
      DropTable(d, pdeno, pde.ppn, m0, was);
    }

    /** The inner loop of env_free. */
    method FreePages(d: nat, pdeno: nat, ghost m0: Mem, ghost was: Mmu)
      requires Valid() && pdeno < UTOP_PDX && Torn(m0, m, d, pdeno, 0) && Untouched(m, mmu, d, was)
      requires Present(At(m, d, pdeno))
      modifies this, pages, phys
      ensures Valid() && Torn(m0, m, d, pdeno, ENTRIES) && Untouched(m, mmu, d, was)
      ensures At(m, d, pdeno) == old(At(m, d, pdeno)) && m == PagesFreed(old(m), d, pdeno, 0)
    {
      ghost var g := PagesFreed(m, d, pdeno, 0);
      var pteno := 0;
      while pteno < ENTRIES
        invariant 0 <= pteno <= ENTRIES
        invariant Valid() && Torn(m0, m, d, pdeno, pteno) && Untouched(m, mmu, d, was)
        invariant At(m, d, pdeno) == old(At(m, d, pdeno)) && PagesFreed(m, d, pdeno, pteno) == g
      {
        FreePage(d, pdeno, pteno, m0, was);
        pteno := pteno + 1;
      }
    }

    /** env_free: clear the directory entry of an emptied table, drop the table. */
    method DropTable(d: nat, pdeno: nat, t: nat, ghost m0: Mem, ghost was: Mmu)
      requires Valid() && Torn(m0, m, d, pdeno, ENTRIES) && Untouched(m, mmu, d, was)
      requires HasTable(m, d, pdeno) && t == TableOf(m, d, pdeno)
      modifies this, pages, phys
      ensures Valid() && Torn(m0, m, d, pdeno + 1, 0) && Untouched(m, mmu, d, was)
      ensures m == DecRef(SetWord(old(m), d, pdeno, ZERO), t)
    {
      TearTable(m0, m, d, pdeno);
      UntouchedAfterClear(m0, m, DecRef(SetWord(m, d, pdeno, ZERO), t), mmu, d, pdeno, was);
      Store(d, pdeno, ZERO);
      PageDecref(t);
    }

    /** One iteration of env_free's inner loop. */
    method FreePage(d: nat, pdeno: nat, pteno: nat, ghost m0: Mem, ghost was: Mmu)
      requires Valid() && pdeno < UTOP_PDX && pteno < ENTRIES && Present(At(m, d, pdeno))
      requires Torn(m0, m, d, pdeno, pteno) && Untouched(m, mmu, d, was)
      modifies this, pages, phys
      ensures Valid() && Torn(m0, m, d, pdeno, pteno + 1) && Untouched(m, mmu, d, was)
      ensures At(m, d, pdeno) == old(At(m, d, pdeno))
      ensures var v := PageNumber(pdeno, pteno);
              m == if old(Present(Pte(m, d, v))) then old(Remove(m, d, v)) else old(m)
    {
      var v := PageNumber(pdeno, pteno);
      FreePagePlan(m0, m, mmu, d, pdeno, pteno, was);
      var pde := Load(d, pdeno);
      var pte := Load(pde.ppn, pteno);
      if P in pte.flags {
        PageRemove(d, v);
      }
    }
  }

  /** The executing CPU's MMU during a teardown: directory d is not loaded, and
      nothing cached is wrong. */
  ghost predicate Untouched(m: Mem, c: Mmu, d: nat, was: Mmu) {
    Sound(m, c) && Covered(m, c) && c.cr3 != d && c.curDir == was.curDir && c.cr3 == was.cr3
  }

  lemma FreePagePlan(m0: Mem, m: Mem, c: Mmu, d: nat, i: nat, j: nat, was: Mmu)
    requires Torn(m0, m, d, i, j) && Untouched(m, c, d, was)
    requires i < UTOP_PDX && j < ENTRIES && Present(At(m, d, i))
    ensures var v := PageNumber(i, j);
            && PDX(v) == i && PTX(v) == j
            && InTables(m, d, v) && Removable(m, d, v)
            && Torn(m0, Remove(m, d, v), d, i, j + 1)
            && Untouched(Remove(m, d, v), RemoveMmu(m, c, d, v), d, was)
            && At(Remove(m, d, v), d, i) == At(m, d, i)
            && (!Present(Pte(m, d, v)) ==> Remove(m, d, v) == m && RemoveMmu(m, c, d, v) == c)
  {
    var v := PageNumber(i, j);
    InvInTables(m, multiset{}, {}, d, v);
    TearPage(m0, m, d, i, j);
    RemoveSound(m, multiset{}, {}, c, d, v);
    RemoveKeeps(m, multiset{}, {}, d, v);
  }

  lemma UntouchedAfterClear(m0: Mem, m1: Mem, m2: Mem, c: Mmu, d: nat, i: nat, was: Mmu)
    requires Torn(m0, m1, d, i, ENTRIES) && Torn(m0, m2, d, i + 1, 0) && Untouched(m1, c, d, was)
    ensures Untouched(m2, c, d, was)
  {
    KernHasNoUserPages(m1);
    assert m1.dirs == m2.dirs;
    forall v | v in c.tlb ensures c.tlb[v] == Translate(m2, c.cr3, v) {
      if c.cr3 != m1.kern {
        assert Translate(m1, c.cr3, v) == Translate(m0, c.cr3, v);
        assert Translate(m2, c.cr3, v) == Translate(m0, c.cr3, v);
      }
    }
  }

  lemma UntouchedAfterDrop(m1: Mem, m2: Mem, c: Mmu, d: nat, was: Mmu)
    requires Inv(m1, multiset{}, {}) && Untouched(m1, c, d, was)
    requires SameContents(m1.(dirs := m1.dirs - {d}), m2)
    ensures Sound(m2, c)
  {
    assert forall q, k :: At(m2, q, k) == At(m1, q, k);
    assert forall q, u :: Translate(m2, q, u) == Translate(m1, q, u);
  }

  lemma KernHasNoUserPages(m: Mem)
    requires Inv(m, multiset{}, {})
    ensures forall v :: 0 <= v < UTOP_VPN ==> Translate(m, m.kern, v) == ZERO
  {
  }

  lemma SetupPlan(m: Mem)
    requires Inv(m, multiset{}, {})
    ensures m.free != [] ==>
              var d := m.free[0];
              && d < |m.ref| && m.kern != d && m.kern < |m.phys| && |m.phys[m.kern]| == ENTRIES
              && SetupVm(m).1
    ensures Inv(SetupVm(m).0, multiset{}, {})
  {
    if m.free != [] {
      SetupKeeps(m, multiset{}, {});
      assert m.free[0] in m.free;
    }
  }

  /** After the new reference is counted the tables are unchanged and the old
      mapping can be counted down. */
  ghost predicate CountedReady(m: Mem, d: nat, pp: nat, v: nat) {
    var m2 := IncRef(m, pp);
    && InTables(m2, d, v) && Removable(m2, d, v)
    && TableOf(m2, d, PDX(v)) == TableOf(m, d, PDX(v))
    && Pte(m2, d, v) == Pte(m, d, v)
  }

  /** What the steps of page_insert find. */
  ghost predicate InsertReady(m: Mem, d: nat, pp: nat, v: nat) {
    var (m1, ok) := Walk(m, d, v, true);
    && pp < |m.ref|
    && Translate(m1, d, v) == Translate(m, d, v)
    && (ok ==> Present(At(m1, d, PDX(v))) && CountedReady(m1, d, pp, v))
  }

  lemma InvInsertReady(m: Mem, held: multiset<nat>, limbo: set<nat>, d: nat, pp: nat, v: nat)
    requires Inv(m, held, limbo) && d in m.dirs && v < UTOP_VPN
    requires DataPage(m, pp) && pp !in m.free
    ensures InTables(m, d, v) && InsertReady(m, d, pp, v)
  {
    InvInTables(m, held, limbo, d, v);
    WalkKeeps(m, held, limbo, d, v, true);
    var (m1, ok) := Walk(m, d, v, true);
    SameContentsFlat(m1, IncRef(m1, pp));
    if ok {
      RemovableWhileCounted(m1, held, limbo, d, pp, v);
    }
  }

  /** What the steps of sys_page_alloc find. */
  lemma AllocPlan(m: Mem, d: nat, v: nat, flags: set<Flag>)
    requires Inv(m, multiset{}, {}) && d in m.dirs && v < UTOP_VPN
    ensures Inv(AllocMap(m, d, v, flags).0, multiset{}, {})
    ensures m.free != [] ==>
              var p := m.free[0];
              var m1 := PopFree(m, true);
              && InTables(m1, d, v) && InsertReady(m1, d, p, v)
              && p !in m1.free && p < |m.ref| && RefOf(m1, p) == 0
              && (Present(Translate(m1, d, v)) <==> Present(Translate(m, d, v)))
              && (!Insert(m1, d, p, v, flags).1 ==> Insert(m1, d, p, v, flags).0 == m1)
  {
    AllocMapKeeps(m, d, v, flags);
    if m.free != [] {
      var p := m.free[0];
      var m1 := PopFree(m, true);
      assert p in m.free;
      PopKeeps(m, multiset{}, {}, true);
      PopFlat(m, p);
      assert p !in m1.free && DataPage(m1, p);
      InvInsertReady(m1, multiset{}, {} + {p}, d, p, v);
    }
  }

  /** What the steps of sys_page_map find. */
  lemma MapPlan(m: Mem, src: nat, srcva: nat, dst: nat, dstva: nat, flags: set<Flag>)
    requires Inv(m, multiset{}, {}) && src in m.dirs && dst in m.dirs && UserPage(srcva) && UserPage(dstva)
    requires Present(Translate(m, src, PGNUM(srcva))) && Countable(m, src, srcva, dst, dstva) && P in flags
    ensures var p := Translate(m, src, PGNUM(srcva)).ppn;
            && InTables(m, dst, PGNUM(dstva)) && InsertReady(m, dst, p, PGNUM(dstva))
            && Inv(Insert(m, dst, p, PGNUM(dstva), flags).0, multiset{}, {})
  {
    MapPage(m, src, srcva, dst, dstva, flags);
    InvInsertReady(m, multiset{}, {}, dst, Translate(m, src, PGNUM(srcva)).ppn, PGNUM(dstva));
  }

  lemma InsertAtSteps(m1: Mem, d: nat, pp: nat, v: nat, perm: set<Flag>)
    requires Pte(IncRef(m1, pp), d, v) == Pte(m1, d, v)
    requires TableOf(IncRef(m1, pp), d, PDX(v)) == TableOf(m1, d, PDX(v))
    ensures var m2 := IncRef(m1, pp);
            var m3 := if Present(Pte(m1, d, v)) then Remove(m2, d, v) else m2;
            InsertAt(m1, d, pp, v, perm) == SetWord(m3, TableOf(m1, d, PDX(v)), PTX(v), Word(pp, perm + {P}))
  {
  }

  lemma DecRefCases(m: Mem, p: nat)
    requires p < |m.ref| && m.ref[p] < REF_RANGE
    ensures var r := Dec16(m.ref[p]);
            && r == (if m.ref[p] == 0 then REF_RANGE - 1 else m.ref[p] - 1)
            && DecRef(m, p) == if m.ref[p] == 1 then PushFree(SetRef(m, p, 0), p) else SetRef(m, p, r)
  {
  }

  lemma WalkInTables(m: Mem, d: nat, v: nat, create: bool)
    requires InTables(m, d, v) && |m.ref| == |m.phys|
    requires m.free != [] ==> m.free[0] < |m.ref|
    ensures InTables(Walk(m, d, v, create).0, d, v)
  {
    if !Present(At(m, d, PDX(v))) && create && m.free != [] {
      var t := m.free[0];
      var m2 := FreshPage(m);
      assert |m2.phys[d]| == ENTRIES && |m2.phys[t]| == ENTRIES;
      assert At(SetWord(m2, d, PDX(v), Word(t, {P, U, W})), d, PDX(v)) == Word(t, {P, U, W});
    }
  }

  /** The directory and, if there is one, the table for v are in memory. */
  predicate InTables(m: Mem, d: nat, v: nat) {
    && PDX(v) < ENTRIES
    && d < |m.phys| && |m.phys[d]| == ENTRIES
    && (Present(At(m, d, PDX(v))) ==>
          TableOf(m, d, PDX(v)) < |m.phys| && |m.phys[TableOf(m, d, PDX(v))]| == ENTRIES)
  }

  /** What is mapped at v can be counted down. */
  predicate Removable(m: Mem, d: nat, v: nat) {
    Present(Translate(m, d, v)) ==>
      var p := Translate(m, d, v).ppn;
      p < |m.ref| && m.ref[p] < REF_RANGE && (m.ref[p] == 1 ==> p !in m.free)
  }

  lemma InvInTables(m: Mem, held: multiset<nat>, limbo: set<nat>, d: nat, v: nat)
    requires Inv(m, held, limbo) && d in m.dirs && v < UTOP_VPN
    ensures InTables(m, d, v) && Removable(m, d, v)
  {
    InvBounds(m, held, limbo);
    if Present(At(m, d, PDX(v))) {
      assert Refers(m, TableSite(d, PDX(v)), TableOf(m, d, PDX(v)));
    }
    if Present(Translate(m, d, v)) {
      MappedPage(m, held, limbo, d, v);
    }
  }

  lemma RemovableWhileCounted(m: Mem, held: multiset<nat>, limbo: set<nat>, d: nat, pp: nat, v: nat)
    requires Inv(m, held, limbo) && d in m.dirs && v < UTOP_VPN
    requires pp < |m.ref| && pp !in m.free
    ensures InTables(IncRef(m, pp), d, v) && Removable(IncRef(m, pp), d, v)
  {
    InvInTables(m, held, limbo, d, v);
    SameContentsFlat(m, IncRef(m, pp));
  }
}
