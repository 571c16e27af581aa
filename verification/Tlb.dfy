/** Translation caching: the TLB of the executing CPU as a partial cache that the
    hardware may fill from the loaded directory at any time (section 4.10 of
    volume 3A of the Intel 64 and IA-32 manual). */
module Tlb {
  import opened Layout
  import opened Paging
  import opened AddressSpace
  import opened Teardown

  /** curDir: curenv's env_pgdir, NULL when curenv is; cr3: the loaded directory;
      tlb: cached user translations. */
  datatype Mmu = Mmu(curDir: Ptr, cr3: nat, tlb: map<nat, Word>)

  ghost predicate Sound(m: Mem, c: Mmu) {
    forall v :: v in c.tlb ==> v < UTOP_VPN && Present(c.tlb[v]) && c.tlb[v] == Translate(m, c.cr3, v)
  }

  /** tlb_invalidate(d, v). */
  function TlbInvalidate(c: Mmu, d: nat, v: nat): Mmu {
    if c.curDir == NULL || c.curDir == To(d) then c.(tlb := c.tlb - {v}) else c
  }

  /** lcr3 drops everything that was cached. */
  function Lcr3(c: Mmu, d: nat): Mmu {
    c.(cr3 := d, tlb := map[])
  }

  /** Changes to directory d reach the loaded one only through invalidations:
      kern_pgdir is loaded, or curenv's directory is, or curenv is NULL. */
  predicate Covered(m: Mem, c: Mmu) {
    c.cr3 == m.kern || (c.cr3 in m.dirs && (c.curDir == NULL || c.curDir == To(c.cr3)))
  }

  lemma KernMapsNothing(m: Mem, held: multiset<nat>, limbo: set<nat>, v: nat)
    requires Inv(m, held, limbo) && v < UTOP_VPN
    ensures Translate(m, m.kern, v) == ZERO
  {
  }

  lemma SoundAfterSlot(m: Mem, m': Mem, held: multiset<nat>, limbo: set<nat>,
                       held': multiset<nat>, limbo': set<nat>, c: Mmu, d: nat, v: nat, w: Word)
    requires Inv(m, held, limbo) && Inv(m', held', limbo') && Fixed(m, m') && FlatUpdate(m, m', d, v, w)
    requires Sound(m, c) && Covered(m, c)
    ensures Sound(m', TlbInvalidate(c, d, v))
    ensures !Present(Translate(m, d, v)) ==> Sound(m', c)
  {
    forall u | u in c.tlb && c.cr3 == m.kern ensures false {
      KernMapsNothing(m, held, limbo, u);
    }
  }

  lemma SoundAfterSameFlat(m: Mem, m': Mem, held: multiset<nat>, limbo: set<nat>, c: Mmu)
    requires Inv(m, held, limbo) && m'.kern == m.kern && SameFlat(m, m')
    requires Sound(m, c) && Covered(m, c)
    ensures Sound(m', c)
  {
    forall u | u in c.tlb && c.cr3 == m.kern ensures false {
      KernMapsNothing(m, held, limbo, u);
    }
  }

  /** page_remove on the executing CPU: the TLB afterwards. */
  ghost function RemoveMmu(m: Mem, c: Mmu, d: nat, v: nat): Mmu {
    if Present(Translate(m, d, v)) then TlbInvalidate(c, d, v) else c
  }

  lemma RemoveSound(m: Mem, held: multiset<nat>, limbo: set<nat>, c: Mmu, d: nat, v: nat)
    requires Inv(m, held, limbo) && d in m.dirs && v < UTOP_VPN && Sound(m, c) && Covered(m, c)
    ensures Sound(Remove(m, d, v), RemoveMmu(m, c, d, v))
  {
    RemoveKeeps(m, held, limbo, d, v);
    SoundAfterSlot(m, Remove(m, d, v), held, limbo, held, limbo, c, d, v, ZERO);
  }

  lemma InsertSound(m: Mem, held: multiset<nat>, limbo: set<nat>, c: Mmu, d: nat, pp: nat, v: nat, flags: set<Flag>)
    requires Inv(m, held, limbo) && d in m.dirs && v < UTOP_VPN && Sound(m, c) && Covered(m, c)
    requires DataPage(m, pp) && pp !in m.free && CanCount(m, d, pp, v)
    ensures Insert(m, d, pp, v, flags).1 ==> Sound(Insert(m, d, pp, v, flags).0, RemoveMmu(m, c, d, v))
  {
    InsertKeeps(m, held, limbo, d, pp, v, flags);
    var (m', ok) := Insert(m, d, pp, v, flags);
    if ok {
      SoundAfterSlot(m, m', held, limbo, held, limbo - {pp}, c, d, v, Word(pp, flags + {P}));
    }
  }

  /** No invalidation reaches other CPUs.  Whatever a CPU with directory r loaded has
      cached survives the change of one slot exactly when r is another directory,
      or nothing was mapped there, or the entry keeps its value. */
  lemma OtherCpuSafeIff(m: Mem, m': Mem, held: multiset<nat>, limbo: set<nat>, d: nat, v: nat, w: Word, r: nat)
    requires Inv(m, held, limbo) && d in m.dirs && v < UTOP_VPN && FlatUpdate(m, m', d, v, w) && r in m.dirs
    ensures (forall o: Mmu :: o.cr3 == r && Sound(m, o) ==> Sound(m', o)) <==>
            r != d || !Present(Translate(m, d, v)) || w == Translate(m, d, v)
  {
    if r == d && Present(Translate(m, d, v)) && w != Translate(m, d, v) {
      var o := Mmu(To(d), d, map[v := Translate(m, d, v)]);
      assert Sound(m, o);
      assert o.tlb[v] != Translate(m', d, v);
    }
  }

  // ---------------------------------------------------------------- whole runs

  /** curenv is loaded, or kern_pgdir is: how every kernel exit leaves it. */
  predicate Loaded(m: Mem, c: Mmu) {
    match c.curDir
    case NULL => c.cr3 == m.kern
    case To(d) => c.cr3 == d && d in m.dirs
  }

  datatype Op =
    | Fill(v: nat)
    | WalkOp(d: nat, v: nat, create: bool)
    | InsertOp(d: nat, pp: nat, v: nat, flags: set<Flag>)
    | AllocOp(d: nat, v: nat, flags: set<Flag>)
    | RemoveOp(d: nat, v: nat)
    | SetupOp
    | FreeEnvOp(d: nat)
    | RunOp(d: nat)
    | HaltOp

  /** One operation of the executing CPU.  env_run switches only when the
      environment changes; env_free loads kern_pgdir first when it frees curenv,
      whose caller then clears curenv. */
  ghost predicate Step(op: Op, m: Mem, c: Mmu, m': Mem, c': Mmu) {
    match op
    case Fill(v) =>
      m' == m && v < UTOP_VPN && Present(Translate(m, c.cr3, v)) &&
      c' == c.(tlb := c.tlb[v := Translate(m, c.cr3, v)])
    case WalkOp(d, v, create) =>
      d in m.dirs && v < UTOP_VPN && m' == Walk(m, d, v, create).0 && c' == c
    case InsertOp(d, pp, v, flags) =>
      && d in m.dirs && v < UTOP_VPN && DataPage(m, pp) && RefOf(m, pp) > 0 && CanCount(m, d, pp, v)
      && m' == Insert(m, d, pp, v, flags).0
      && c' == if Insert(m, d, pp, v, flags).1 then RemoveMmu(m, c, d, v) else c
    case AllocOp(d, v, flags) =>
      && d in m.dirs && v < UTOP_VPN && m' == AllocMap(m, d, v, flags).0
      && c' == if AllocMap(m, d, v, flags).1 then RemoveMmu(m, c, d, v) else c
    case RemoveOp(d, v) =>
      d in m.dirs && v < UTOP_VPN && m' == Remove(m, d, v) && c' == RemoveMmu(m, c, d, v)
    case SetupOp => m' == SetupVm(m).0 && c' == c
    case FreeEnvOp(d) =>
      && d in m.dirs && m' == EnvFreed(m, d)
      && c' == if c.curDir == To(d) then Mmu(NULL, m.kern, map[]) else c
    case RunOp(d) =>
      d in m.dirs && m' == m && c' == if c.curDir == To(d) then c else Lcr3(c.(curDir := To(d)), d)
    case HaltOp => m' == m && c' == Lcr3(c.(curDir := NULL), m.kern)
  }

  ghost predicate Good(m: Mem, c: Mmu) {
    Inv(m, multiset{}, {}) && Loaded(m, c) && Sound(m, c)
  }

  lemma InsertStepGood(m: Mem, c: Mmu, d: nat, pp: nat, v: nat, flags: set<Flag>)
    requires Good(m, c) && d in m.dirs && v < UTOP_VPN
    requires DataPage(m, pp) && RefOf(m, pp) > 0 && CanCount(m, d, pp, v)
    ensures var (m', ok) := Insert(m, d, pp, v, flags);
            Good(m', if ok then RemoveMmu(m, c, d, v) else c)
  {
    InsertKeeps(m, multiset{}, {}, d, pp, v, flags);
    InsertSound(m, multiset{}, {}, c, d, pp, v, flags);
    assert {} - {pp} == {};
  }

  lemma AllocStepGood(m: Mem, c: Mmu, d: nat, v: nat, flags: set<Flag>)
    requires Good(m, c) && d in m.dirs && v < UTOP_VPN
    ensures var (m', ok) := AllocMap(m, d, v, flags);
            Good(m', if ok then RemoveMmu(m, c, d, v) else c)
  {
    AllocMapKeeps(m, d, v, flags);
    var (m', ok) := AllocMap(m, d, v, flags);
    if ok {
      SoundAfterSlot(m, m', multiset{}, {}, multiset{}, {}, c, d, v, Word(m.free[0], flags + {P}));
    } else {
      SoundAfterSameFlat(m, m', multiset{}, {}, c);
    }
  }

  lemma StepGood(op: Op, m: Mem, c: Mmu, m': Mem, c': Mmu)
    requires Good(m, c) && Step(op, m, c, m', c')
    ensures Good(m', c')
  {
    match op
    case Fill(v) =>
    case WalkOp(d, v, create) =>
      WalkKeeps(m, multiset{}, {}, d, v, create);
      SoundAfterSameFlat(m, m', multiset{}, {}, c);
    case InsertOp(d, pp, v, flags) =>
      InsertStepGood(m, c, d, pp, v, flags);
    case AllocOp(d, v, flags) =>
      AllocStepGood(m, c, d, v, flags);
    case RemoveOp(d, v) =>
      RemoveKeeps(m, multiset{}, {}, d, v);
      RemoveSound(m, multiset{}, {}, c, d, v);
    case SetupOp =>
      if m.free != [] {
        SetupKeeps(m, multiset{}, {});
        SoundAfterSameFlat(m, m', multiset{}, {}, c);
      }
    case FreeEnvOp(d) =>
      EnvFreedTears(m, d);
      if c.curDir != To(d) {
        FreeSound(m, m', c, d);
      }
    case RunOp(d) =>
    case HaltOp =>
  }

  lemma FreeSound(m: Mem, m': Mem, c: Mmu, d: nat)
    requires Good(m, c) && Tears(m, m', d) && c.curDir != To(d)
    ensures Sound(m', c)
  {
    forall u | u in c.tlb && c.cr3 == m.kern ensures false {
      KernMapsNothing(m, multiset{}, {}, u);
    }
  }

  /** A run: the operations, and the states before, between and after them. */
  ghost predicate Run(ops: seq<Op>, ms: seq<Mem>, cs: seq<Mmu>) {
    && |ms| == |cs| == |ops| + 1
    && forall k :: 0 <= k < |ops| ==> Moves(ops, ms, cs, k)
  }

  ghost predicate Moves(ops: seq<Op>, ms: seq<Mem>, cs: seq<Mmu>, k: nat)
    requires k < |ops| && |ms| == |cs| == |ops| + 1
  {
    Step(ops[k], ms[k], cs[k], ms[k + 1], cs[k + 1])
  }

  /** In every run no cached translation ever disagrees with the loaded tables,
      and the counts stay exact. */
  lemma {:induction false} TlbSoundOnEveryRun(ops: seq<Op>, ms: seq<Mem>, cs: seq<Mmu>, k: nat)
    requires Run(ops, ms, cs) && Good(ms[0], cs[0]) && k <= |ops|
    ensures Good(ms[k], cs[k])
  {
    if k > 0 {
      TlbSoundOnEveryRun(ops, ms, cs, k - 1);
      assert Moves(ops, ms, cs, k - 1);
      StepGood(ops[k - 1], ms[k - 1], cs[k - 1], ms[k], cs[k]);
    }
  }

  // ------------------------------------------------------------------ several CPUs

  /** The directory an operation changes under a CPU that has it loaded. */
  function Touches(op: Op): Ptr {
    match op
    case InsertOp(d, pp, v, flags) => To(d)
    case AllocOp(d, v, flags) => To(d)
    case RemoveOp(d, v) => To(d)
    case FreeEnvOp(d) => To(d)
    case _ => NULL
  }

  lemma OtherAfterInsert(m: Mem, o: Mmu, d: nat, pp: nat, v: nat, flags: set<Flag>)
    requires Good(m, o) && d in m.dirs && v < UTOP_VPN && o.cr3 != d
    requires DataPage(m, pp) && RefOf(m, pp) > 0 && CanCount(m, d, pp, v)
    ensures Good(Insert(m, d, pp, v, flags).0, o)
  {
    InsertKeeps(m, multiset{}, {}, d, pp, v, flags);
    assert {} - {pp} == {};
    OtherKeepsSlots(m, Insert(m, d, pp, v, flags).0, o, d);
  }

  /** A cache of another directory sees none of the changes to d. */
  lemma OtherKeepsSlots(m: Mem, m': Mem, o: Mmu, d: nat)
    requires Good(m, o) && Inv(m', multiset{}, {}) && o.cr3 != d
    requires m'.kern == m.kern && m.dirs - {d} <= m'.dirs
    requires forall e, u :: e in m.dirs && e != d && 0 <= u < UTOP_VPN ==> Translate(m', e, u) == Translate(m, e, u)
    ensures Good(m', o)
  {
    forall u | u in o.tlb && o.cr3 == m.kern ensures false {
      KernMapsNothing(m, multiset{}, {}, u);
    }
  }

  /** A CPU that sits through another CPU's operation stays right, unless the
      operation changes the directory it has loaded. */
  lemma BystanderGood(op: Op, m: Mem, c: Mmu, m': Mem, c': Mmu, o: Mmu)
    requires Good(m, c) && Good(m, o) && Step(op, m, c, m', c') && Touches(op) != To(o.cr3)
    ensures Good(m', o)
  {
    StepGood(op, m, c, m', c');
    match op
    case WalkOp(d, v, create) =>
      WalkKeeps(m, multiset{}, {}, d, v, create);
      SoundAfterSameFlat(m, m', multiset{}, {}, o);
    case InsertOp(d, pp, v, flags) => OtherAfterInsert(m, o, d, pp, v, flags);
    case AllocOp(d, v, flags) =>
      AllocMapKeeps(m, d, v, flags);
      OtherKeepsSlots(m, m', o, d);
    case RemoveOp(d, v) =>
      RemoveKeeps(m, multiset{}, {}, d, v);
      OtherKeepsSlots(m, m', o, d);
    case SetupOp =>
      if m.free != [] {
        SetupKeeps(m, multiset{}, {});
        SoundAfterSameFlat(m, m', multiset{}, {}, o);
      }
    case FreeEnvOp(d) =>
      EnvFreedTears(m, d);
      OtherKeepsSlots(m, m', o, d);
    case _ =>
  }

  /** An operation of one CPU. */
  datatype CpuOp = CpuOp(cpu: nat, op: Op)

  /** Operation k: its CPU takes the step, no other CPU has the changed directory
      loaded, and nothing happens to the other CPUs. */
  ghost predicate CpuMoves(ops: seq<CpuOp>, ms: seq<Mem>, css: seq<seq<Mmu>>, k: nat)
    requires k < |ops| && |ms| == |css| == |ops| + 1
  {
    var CpuOp(i, op) := ops[k];
    && i < |css[k]| && |css[k + 1]| == |css[k]|
    && Step(op, ms[k], css[k][i], ms[k + 1], css[k + 1][i])
    && (forall j :: 0 <= j < |css[k]| && j != i ==>
          css[k + 1][j] == css[k][j] && Touches(op) != To(css[k][j].cr3))
  }

  /** A run of all CPUs. */
  ghost predicate CpuRun(ops: seq<CpuOp>, ms: seq<Mem>, css: seq<seq<Mmu>>) {
    && |ms| == |css| == |ops| + 1
    && forall k :: 0 <= k < |ops| ==> CpuMoves(ops, ms, css, k)
  }

  ghost predicate AllGood(m: Mem, cs: seq<Mmu>) {
    Inv(m, multiset{}, {}) && forall j :: 0 <= j < |cs| ==> Good(m, cs[j])
  }

  lemma CpuStepGood(ops: seq<CpuOp>, ms: seq<Mem>, css: seq<seq<Mmu>>, k: nat)
    requires k < |ops| && |ms| == |css| == |ops| + 1 && CpuMoves(ops, ms, css, k) && AllGood(ms[k], css[k])
    ensures AllGood(ms[k + 1], css[k + 1])
  {
    var CpuOp(i, op) := ops[k];
    var m', cs, cs' := ms[k + 1], css[k], css[k + 1];
    StepGood(op, ms[k], cs[i], m', cs'[i]);
    forall j | 0 <= j < |cs| && j != i ensures Good(m', cs'[j]) {
      BystanderGood(op, ms[k], cs[i], m', cs'[i], cs[j]);
    }
  }

  /** In every run of all CPUs, in which no CPU changes a directory that another one
      has loaded, no CPU ever has a cached translation that disagrees with its
      loaded tables. */
  lemma {:induction false} TlbSoundOnEveryCpu(ops: seq<CpuOp>, ms: seq<Mem>, css: seq<seq<Mmu>>, k: nat)
    requires CpuRun(ops, ms, css) && AllGood(ms[0], css[0]) && k <= |ops|
    ensures AllGood(ms[k], css[k])
  {
    if k > 0 {
      TlbSoundOnEveryCpu(ops, ms, css, k - 1);
      CpuStepGood(ops, ms, css, k - 1);
    }
  }
}
