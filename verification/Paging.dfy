/** Physical pages, their reference counts and the two-level page tables built
    out of them, as values.

    The page pool plays three roles at once: data page, page table and page
    directory.  Every counted reference to a page is a Site, so that "the
    reference count is exact" is a statement about the size of a set. */
module Paging {

  /** The twelve flag bits of a page-table word; COW is software bit 11. */
  datatype Flag = P | W | U | PWT | PCD | A | D | PS | G | AVAIL9 | AVAIL10 | COW

  /** A 32-bit word read as a page-table entry: page number and flag bits. */
  datatype Word = Word(ppn: nat, flags: set<Flag>)

  const ZERO := Word(0, {})
  const ENTRIES := 1024       // NPDENTRIES and NPTENTRIES
  const UTOP_PDX := 955       // PDX(UTOP)
  const UVPT_PDX := 957       // PDX(UVPT)
  const UTOP_VPN := 977920    // UTOP / PGSIZE
  const REF_RANGE := 65536    // pp_ref is 16 bits wide

  /** ref: pp_ref by page number; free: page_free_list from its head; phys: page
      contents; dirs: directories of live environments; reserved: pages boot
      keeps out of the pool; kern: the page of kern_pgdir. */
  datatype Mem = Mem(ref: seq<nat>, free: seq<nat>, phys: seq<seq<Word>>,
                     dirs: set<nat>, reserved: set<nat>, kern: nat)

  /** PDX, PTX and PGADDR on virtual page numbers. */
  function PDX(v: nat): nat {
    v / 1024
  }

  function PTX(v: nat): nat {
    v % 1024
  }

  function PageNumber(i: nat, j: nat): nat {
    i * 1024 + j
  }

  /** ++ and -- on a 16-bit counter. */
  function Inc16(r: nat): nat {
    (r + 1) % 65536
  }

  function Dec16(r: nat): nat {
    (r + 65535) % 65536
  }

  /** A page cleared with memset. */
  function ZeroPage(): (c: seq<Word>)
    ensures |c| == ENTRIES && forall k :: 0 <= k < ENTRIES ==> c[k] == ZERO
  {
    seq(ENTRIES, k => ZERO)
  }

  predicate Present(w: Word) {
    P in w.flags
  }

  predicate Maps(w: Word, p: nat) {
    Present(w) && w.ppn == p
  }

  /** Word k of page p; 0 outside physical memory. */
  function At(m: Mem, p: nat, k: nat): Word {
    if p < |m.phys| && k < |m.phys[p]| then m.phys[p][k] else ZERO
  }

  predicate Managed(m: Mem, p: nat) {
    p < |m.ref| && p !in m.reserved
  }

  // ---------------------------------------------------------------- references

  /** A place that counts as one reference to a page: a live environment's
      directory pointer, a user-range directory entry, a user-range PTE. */
  datatype Site =
    | DirSite(dir: nat)
    | TableSite(dir: nat, pdx: nat)
    | PageSite(dir: nat, pdx: nat, ptx: nat)

  ghost predicate InRange(dirs: set<nat>, s: Site) {
    && s.dir in dirs
    && (s.DirSite? || s.pdx < UTOP_PDX)
    && (s.PageSite? ==> s.ptx < ENTRIES)
  }

  ghost function DirSites(dirs: set<nat>): set<Site> {
    set d | d in dirs :: DirSite(d)
  }

  ghost function TableSites(dirs: set<nat>): set<Site> {
    set d, i | d in dirs && 0 <= i < UTOP_PDX :: TableSite(d, i)
  }

  ghost function PageSites(dirs: set<nat>): set<Site> {
    set d, i, j | d in dirs && 0 <= i < UTOP_PDX && 0 <= j < ENTRIES :: PageSite(d, i, j)
  }

  ghost function AllSites(dirs: set<nat>): (r: set<Site>)
    ensures forall s :: s in r <==> InRange(dirs, s)
  {
    DirSites(dirs) + TableSites(dirs) + PageSites(dirs)
  }

  ghost predicate Refers(m: Mem, s: Site, p: nat) {
    && InRange(m.dirs, s)
    && match s
       case DirSite(d) => d == p
       case TableSite(d, i) => Maps(At(m, d, i), p)
       case PageSite(d, i, j) => Present(At(m, d, i)) && Maps(At(m, At(m, d, i).ppn, j), p)
  }

  ghost function Refs(m: Mem, p: nat): (r: set<Site>)
    ensures forall s :: s in r <==> Refers(m, s, p)
  {
    set s | s in AllSites(m.dirs) && Refers(m, s, p)
  }

  // ---------------------------------------------------------------- invariant

  ghost predicate Shape(m: Mem) {
    && |m.ref| == |m.phys|
    && (forall p :: 0 <= p < |m.phys| ==> |m.phys[p]| == ENTRIES)
    && (forall p :: 0 <= p < |m.ref| ==> m.ref[p] < REF_RANGE)
    && m.kern in m.reserved
    && m.kern < |m.phys|
  }

  /** A page table or directory has one reference in all: no page plays two
      roles and no user mapping reaches a paging structure. */
  ghost predicate Roles(m: Mem) {
    forall s, t, p :: Refers(m, s, p) && Refers(m, t, p) && !s.PageSite? ==> s == t
  }

  ghost predicate TargetsManaged(m: Mem) {
    forall s, p :: Refers(m, s, p) ==> Managed(m, p)
  }

  /** pp_ref is the number of sites plus the references the kernel has counted
      but not stored yet. */
  ghost predicate Exact(m: Mem, held: multiset<nat>) {
    forall p: nat :: Managed(m, p) ==> m.ref[p] == |Refs(m, p)| + held[p]
  }

  predicate NoDup(s: seq<nat>) {
    forall i, j :: 0 <= i < j < |s| ==> s[i] != s[j]
  }

  /** The free list holds exactly the unreferenced pool pages, each once, apart
      from pages taken off the list and not referenced yet. */
  ghost predicate FreeExact(m: Mem, limbo: set<nat>) {
    && NoDup(m.free)
    && (forall p: nat :: p in m.free <==> Managed(m, p) && m.ref[p] == 0 && p !in limbo)
    && (forall p :: p in limbo ==> Managed(m, p) && m.ref[p] == 0)
  }

  /** Above UTOP every directory is the kernel's, except for the self map;
      kern_pgdir maps nothing below UTOP. */
  ghost predicate KernelPart(m: Mem) {
    && (forall d, i :: d in m.dirs && UTOP_PDX <= i < ENTRIES ==>
          At(m, d, i) == if i == UVPT_PDX then Word(d, {P, U}) else At(m, m.kern, i))
    && (forall i :: UTOP_PDX <= i < ENTRIES && i != UVPT_PDX && Present(At(m, m.kern, i)) ==>
          At(m, m.kern, i).ppn in m.reserved)
    && (forall i :: 0 <= i < UTOP_PDX ==> !Present(At(m, m.kern, i)))
  }

  /** Every page table is entered for users and for writing: what a mapping permits is
      up to its page-table entry. */
  ghost predicate UserPart(m: Mem) {
    forall d, i :: d in m.dirs && 0 <= i < UTOP_PDX && Present(At(m, d, i)) ==> {P, U, W} <= At(m, d, i).flags
  }

  ghost predicate Inv(m: Mem, held: multiset<nat>, limbo: set<nat>) {
    && Shape(m)
    && Roles(m)
    && TargetsManaged(m)
    && Exact(m, held)
    && FreeExact(m, limbo)
    && KernelPart(m)
    && UserPart(m)
  }

  // --------------------------------------------------------------- operations

  /** Stores outside physical memory do not occur; the functions are total so
      that they can be composed freely. */
  function SetWord(m: Mem, p: nat, k: nat, w: Word): Mem {
    if p < |m.phys| && k < |m.phys[p]| then m.(phys := m.phys[p := m.phys[p][k := w]]) else m
  }

  function SetRef(m: Mem, p: nat, r: nat): Mem {
    if p < |m.ref| then m.(ref := m.ref[p := r]) else m
  }

  function RefOf(m: Mem, p: nat): nat {
    if p < |m.ref| then m.ref[p] else 0
  }

  /** pp->pp_ref++ on a 16-bit counter. */
  function IncRef(m: Mem, p: nat): Mem {
    SetRef(m, p, Inc16(RefOf(m, p)))
  }

  function PushFree(m: Mem, p: nat): Mem {
    m.(free := [p] + m.free)
  }

  /** page_decref: --pp->pp_ref == 0 frees the page. */
  function DecRef(m: Mem, p: nat): Mem {
    var r := Dec16(RefOf(m, p));
    var m1 := SetRef(m, p, r);
    if r == 0 then PushFree(m1, p) else m1
  }

  /** page_alloc when the list is not empty: the page is m.free[0]. */
  function PopFree(m: Mem, zero: bool): Mem
    requires m.free != []
  {
    var m1 := m.(free := m.free[1..]);
    if zero && m.free[0] < |m.phys| then m1.(phys := m.phys[m.free[0] := ZeroPage()]) else m1
  }

  // ------------------------------------------------------------- counting steps

  lemma CountGain(m: Mem, m': Mem, p: nat, s: Site)
    requires Refs(m', p) == Refs(m, p) + {s} && s !in Refs(m, p)
    ensures |Refs(m', p)| == |Refs(m, p)| + 1
  {
  }

  lemma CountLoss(m: Mem, m': Mem, p: nat, s: Site)
    requires Refs(m', p) == Refs(m, p) - {s} && s in Refs(m, p)
    ensures |Refs(m', p)| == |Refs(m, p)| - 1
  {
  }

  // ------------------------------------------------- effect of each memory step

  /** m' has the same references as m, apart from what site s refers to. */
  ghost predicate SameButSite(m: Mem, m': Mem, site: Site) {
    forall s, p :: s != site ==> (Refers(m', s, p) <==> Refers(m, s, p))
  }

  ghost predicate SameRefs(m: Mem, m': Mem) {
    forall s, p :: Refers(m', s, p) <==> Refers(m, s, p)
  }

  lemma SameRefsCount(m: Mem, m': Mem, p: nat)
    requires SameRefs(m, m')
    ensures Refs(m', p) == Refs(m, p)
  {
  }

  /** A page with no reference can hold anything: it is neither table nor
      directory. */
  lemma UnreferencedContents(m: Mem, p: nat, c: seq<Word>)
    requires p < |m.phys| && (forall s :: !Refers(m, s, p))
    ensures SameRefs(m, m.(phys := m.phys[p := c]))
    ensures forall d, i :: d in m.dirs ==> At(m.(phys := m.phys[p := c]), d, i) == At(m, d, i)
  {
    var m' := m.(phys := m.phys[p := c]);
    forall d | d in m.dirs ensures d != p {
      assert Refers(m, DirSite(d), d);
    }
    forall s, q ensures Refers(m', s, q) <==> Refers(m, s, q) {
      if s.PageSite? && InRange(m.dirs, s) && Present(At(m, s.dir, s.pdx)) {
        assert Refers(m, TableSite(s.dir, s.pdx), At(m, s.dir, s.pdx).ppn);
      }
    }
  }

  lemma PopRefs(m: Mem, held: multiset<nat>, limbo: set<nat>, zero: bool)
    requires Inv(m, held, limbo) && m.free != []
    ensures m.free[0] < |m.phys| && SameRefs(m, PopFree(m, zero))
    ensures forall s :: !Refers(m, s, m.free[0])
  {
    var p := m.free[0];
    assert p in m.free;
    assert Refs(m, p) == {};
    assert forall s :: Refers(m, s, p) ==> s in Refs(m, p);
    var m' := PopFree(m, zero);
    if zero {
      UnreferencedContents(m, p, ZeroPage());
      assert SameRefs(m, m.(phys := m.phys[p := ZeroPage()]));
    }
    forall s, q ensures Refers(m', s, q) <==> Refers(m, s, q) {
      assert Refers(m', s, q) <==> Refers(if zero then m.(phys := m.phys[p := ZeroPage()]) else m, s, q);
    }
  }

  lemma PopParts(m: Mem, held: multiset<nat>, limbo: set<nat>, zero: bool)
    requires Inv(m, held, limbo) && m.free != [] && forall s :: !Refers(m, s, m.free[0])
    ensures KernelPart(PopFree(m, zero)) && UserPart(PopFree(m, zero))
  {
    var p := m.free[0];
    var m' := PopFree(m, zero);
    assert p in m.free;
    assert p != m.kern;
    forall d, k | d in m.dirs ensures At(m', d, k) == At(m, d, k) {
      assert Refers(m, DirSite(d), d);
    }
    forall k ensures At(m', m.kern, k) == At(m, m.kern, k) {
    }
  }

  lemma PopKeeps(m: Mem, held: multiset<nat>, limbo: set<nat>, zero: bool)
    requires Inv(m, held, limbo) && m.free != []
    ensures m.free[0] < |m.phys|
    ensures var m' := PopFree(m, zero);
            && Inv(m', held, limbo + {m.free[0]})
            && SameRefs(m, m')
            && forall s :: !Refers(m', s, m.free[0])
  {
    var p := m.free[0];
    var m' := PopFree(m, zero);
    PopRefs(m, held, limbo, zero);
    forall q ensures Refs(m', q) == Refs(m, q) {
      SameRefsCount(m, m', q);
    }
    PopParts(m, held, limbo, zero);
    assert FreeExact(m', limbo + {p}) by {
      assert m.free == [p] + m'.free;
      assert forall q :: q in m.free <==> q == p || q in m'.free;
    }
  }

  lemma IncKeeps(m: Mem, held: multiset<nat>, limbo: set<nat>, p: nat)
    requires Inv(m, held, limbo) && Managed(m, p) && p !in m.free
    requires m.ref[p] < REF_RANGE - 1
    ensures Inv(IncRef(m, p), held + multiset{p}, limbo - {p})
    ensures SameRefs(m, IncRef(m, p))
  {
    var m' := IncRef(m, p);
    assert SameRefs(m, m');
    forall q ensures Refs(m', q) == Refs(m, q) {
      SameRefsCount(m, m', q);
    }
    assert forall q, k :: At(m', q, k) == At(m, q, k);
  }

  lemma DecKeeps(m: Mem, held: multiset<nat>, limbo: set<nat>, p: nat)
    requires Inv(m, held, limbo) && Managed(m, p) && held[p] > 0
    ensures Inv(DecRef(m, p), held - multiset{p}, limbo)
    ensures SameRefs(m, DecRef(m, p))
  {
    var m' := DecRef(m, p);
    assert SameRefs(m, m');
    forall q ensures Refs(m', q) == Refs(m, q) {
      SameRefsCount(m, m', q);
    }
    assert m.ref[p] > 0 && p !in m.free && p !in limbo;
    assert forall q, k :: At(m', q, k) == At(m, q, k);
  }

  lemma FreeKeeps(m: Mem, held: multiset<nat>, limbo: set<nat>, p: nat)
    requires Inv(m, held, limbo) && p in limbo
    ensures Inv(PushFree(m, p), held, limbo - {p})
    ensures SameRefs(m, PushFree(m, p))
  {
    var m' := PushFree(m, p);
    assert SameRefs(m, m');
    forall q ensures Refs(m', q) == Refs(m, q) {
      SameRefsCount(m, m', q);
    }
    assert p !in m.free;
    assert forall q, k :: At(m', q, k) == At(m, q, k);
  }

  /** The page table that directory d has for index i. */
  function TableOf(m: Mem, d: nat, i: nat): nat {
    At(m, d, i).ppn
  }

  ghost predicate HasTable(m: Mem, d: nat, i: nat) {
    d in m.dirs && i < UTOP_PDX && Present(At(m, d, i))
  }

  /** Writing one PTE changes what one site refers to and nothing else. */
  lemma StoreEffect(m: Mem, held: multiset<nat>, limbo: set<nat>, d: nat, i: nat, j: nat, w: Word)
    requires Inv(m, held, limbo) && HasTable(m, d, i) && j < ENTRIES
    ensures Managed(m, TableOf(m, d, i)) && |m.phys[TableOf(m, d, i)]| == ENTRIES
    ensures var m' := SetWord(m, TableOf(m, d, i), j, w);
            && SameButSite(m, m', PageSite(d, i, j))
            && (forall p :: Refers(m', PageSite(d, i, j), p) <==> Maps(w, p))
            && (forall e, k :: e in m.dirs || e in m.reserved ==> At(m', e, k) == At(m, e, k))
            && KernelPart(m') && UserPart(m')
  {
    var t := TableOf(m, d, i);
    assert Refers(m, TableSite(d, i), t);
    var m' := SetWord(m, t, j, w);
    forall e, k | e in m.dirs || e in m.reserved ensures At(m', e, k) == At(m, e, k) {
      if e in m.dirs {
        assert Refers(m, DirSite(e), e);
      }
    }
    forall s, p | s != PageSite(d, i, j) ensures Refers(m', s, p) <==> Refers(m, s, p) {
      if s.PageSite? && InRange(m.dirs, s) && Present(At(m, s.dir, s.pdx)) {
        assert Refers(m, TableSite(s.dir, s.pdx), TableOf(m, s.dir, s.pdx));
      }
    }
  }

  /** The reference a word carries, as a multiset of at most one page. */
  function Load(w: Word): multiset<nat> {
    if Present(w) then multiset{w.ppn} else multiset{}
  }

  /** Pages that only user PTEs may reference. */
  ghost predicate DataPage(m: Mem, p: nat) {
    Managed(m, p) && forall s :: Refers(m, s, p) ==> s.PageSite?
  }

  /** The new word's reference is taken from what the kernel holds; the old
      word's reference is handed back. */
  lemma StoreKeeps(m: Mem, held: multiset<nat>, limbo: set<nat>, d: nat, i: nat, j: nat, w: Word)
    requires Inv(m, held, limbo) && HasTable(m, d, i) && j < ENTRIES
    requires Present(w) ==> DataPage(m, w.ppn) && (held + Load(At(m, TableOf(m, d, i), j)))[w.ppn] > 0
    ensures Managed(m, TableOf(m, d, i)) && |m.phys[TableOf(m, d, i)]| == ENTRIES
    ensures var t := TableOf(m, d, i);
            var m' := SetWord(m, t, j, w);
            && Inv(m', held + Load(At(m, t, j)) - Load(w), limbo)
            && SameButSite(m, m', PageSite(d, i, j))
            && (forall p :: Refers(m', PageSite(d, i, j), p) <==> Maps(w, p))
  {
    StoreEffect(m, held, limbo, d, i, j, w);
    var t := TableOf(m, d, i);
    var was := At(m, t, j);
    var site := PageSite(d, i, j);
    var m' := SetWord(m, t, j, w);
    forall p ensures |Refs(m', p)| + Load(was)[p] == |Refs(m, p)| + Load(w)[p] {
      RefsAfterStore(m, m', site, was, w, p);
    }
    assert Roles(m');
  }

  lemma RefsAfterStore(m: Mem, m': Mem, site: Site, was: Word, w: Word, p: nat)
    requires SameButSite(m, m', site)
    requires Refers(m, site, p) <==> Maps(was, p)
    requires Refers(m', site, p) <==> Maps(w, p)
    ensures |Refs(m', p)| + Load(was)[p] == |Refs(m, p)| + Load(w)[p]
  {
    assert site in Refs(m, p) <==> Maps(was, p);
    assert site in Refs(m', p) <==> Maps(w, p);
    CardBut(Refs(m, p), Refs(m', p), site);
  }

  lemma CardBut(a: set<Site>, b: set<Site>, site: Site)
    requires forall s :: s != site ==> (s in a <==> s in b)
    ensures |b| + (if site in a then 1 else 0) == |a| + (if site in b then 1 else 0)
  {
    assert a - {site} == b - {site};
    assert |a - {site}| == |a| - (if site in a then 1 else 0);
    assert |b - {site}| == |b| - (if site in b then 1 else 0);
  }

  /** Exactly one reference is new: site now refers to page q. */
  ghost predicate Gains(m: Mem, m': Mem, site: Site, q: nat) {
    forall s, p :: Refers(m', s, p) <==> Refers(m, s, p) || (s == site && p == q)
  }

  /** An unreferenced page gets its one reference, which was held until now. */
  lemma GainKeeps(m: Mem, m': Mem, held: multiset<nat>, limbo: set<nat>, site: Site, q: nat)
    requires Inv(m, held, limbo) && held[q] > 0 && Managed(m, q)
    requires forall s :: !Refers(m, s, q)
    requires Gains(m, m', site, q) && (forall p :: p != q ==> !Refers(m, site, p))
    requires m'.ref == m.ref && m'.free == m.free && m'.reserved == m.reserved && m'.kern == m.kern
    requires Shape(m') && KernelPart(m') && UserPart(m')
    ensures Inv(m', held - multiset{q}, limbo)
  {
    forall p: nat ensures |Refs(m', p)| == |Refs(m, p)| + if p == q then 1 else 0 {
      if p == q {
        CountGain(m, m', p, site);
      } else {
        assert Refs(m', p) == Refs(m, p);
      }
    }
    assert Roles(m') && TargetsManaged(m');
  }

  /** The single reference of a table or directory is taken down and held. */
  lemma LossKeeps(m: Mem, m': Mem, held: multiset<nat>, limbo: set<nat>, site: Site, q: nat)
    requires Inv(m, held, limbo) && Refers(m, site, q) && !site.PageSite?
    requires Gains(m', m, site, q) && (forall p :: !Refers(m', site, p))
    requires m'.ref == m.ref && m'.free == m.free && m'.reserved == m.reserved && m'.kern == m.kern
    requires Shape(m') && KernelPart(m') && UserPart(m')
    ensures Inv(m', held + multiset{q}, limbo)
  {
    forall p: nat ensures |Refs(m', p)| == |Refs(m, p)| - if p == q then 1 else 0 {
      if p == q {
        CountLoss(m, m', p, site);
      } else {
        assert Refs(m', p) == Refs(m, p);
      }
    }
    assert Roles(m') && TargetsManaged(m');
  }

  // -------------------------------------------------------- directory entries

  /** Directories are not tables, so writing a user entry of d leaves every
      other directory, every table and kern_pgdir alone. */
  lemma PdeFrame(m: Mem, held: multiset<nat>, limbo: set<nat>, d: nat, i: nat, w: Word)
    requires Inv(m, held, limbo) && d in m.dirs && i < UTOP_PDX && (Present(w) ==> {P, U, W} <= w.flags)
    ensures d < |m.phys| && |m.phys[d]| == ENTRIES
    ensures var m' := SetWord(m, d, i, w);
            && Shape(m') && KernelPart(m') && UserPart(m')
            && (forall p, k :: !(p == d && k == i) ==> At(m', p, k) == At(m, p, k))
            && At(m', d, i) == w
            && (forall s: Site :: !s.PageSite? ==> !Refers(m, s, d) || s == DirSite(d))
  {
    assert Refers(m, DirSite(d), d);
    var m' := SetWord(m, d, i, w);
    assert forall p, k :: !(p == d && k == i) ==> At(m', p, k) == At(m, p, k);
  }

  lemma InstallTable(m: Mem, held: multiset<nat>, limbo: set<nat>, d: nat, i: nat, q: nat, flags: set<Flag>)
    requires Inv(m, held, limbo) && d in m.dirs && i < UTOP_PDX && !Present(At(m, d, i))
    requires Managed(m, q) && held[q] > 0 && m.phys[q] == ZeroPage() && {P, U, W} <= flags
    requires forall s :: !Refers(m, s, q)
    ensures d < |m.phys| && |m.phys[d]| == ENTRIES
    ensures var m' := SetWord(m, d, i, Word(q, flags));
            && Inv(m', held - multiset{q}, limbo)
            && Gains(m, m', TableSite(d, i), q)
            && (forall e, k :: e in m.dirs && !(e == d && k == i) ==> At(m', e, k) == At(m, e, k))
            && (forall k :: !Present(At(m', q, k)))
  {
    PdeFrame(m, held, limbo, d, i, Word(q, flags));
    assert Refers(m, DirSite(d), d);
    var m' := SetWord(m, d, i, Word(q, flags));
    assert forall k :: !Present(At(m, q, k));
    forall s, p ensures Refers(m', s, p) <==> Refers(m, s, p) || (s == TableSite(d, i) && p == q) {
      if s.PageSite? && InRange(m.dirs, s) && Present(At(m, s.dir, s.pdx)) {
        assert Refers(m, TableSite(s.dir, s.pdx), TableOf(m, s.dir, s.pdx));
      }
    }
    GainKeeps(m, m', held, limbo, TableSite(d, i), q);
  }

  lemma ClearTable(m: Mem, held: multiset<nat>, limbo: set<nat>, d: nat, i: nat)
    requires Inv(m, held, limbo) && HasTable(m, d, i)
    requires forall k :: 0 <= k < ENTRIES ==> !Present(At(m, TableOf(m, d, i), k))
    ensures d < |m.phys| && |m.phys[d]| == ENTRIES
    ensures var m' := SetWord(m, d, i, ZERO);
            && Inv(m', held + multiset{TableOf(m, d, i)}, limbo)
            && Gains(m', m, TableSite(d, i), TableOf(m, d, i))
            && (forall e, k :: e in m.dirs && !(e == d && k == i) ==> At(m', e, k) == At(m, e, k))
            && At(m', d, i) == ZERO
  {
    PdeFrame(m, held, limbo, d, i, ZERO);
    var t := TableOf(m, d, i);
    assert Refers(m, DirSite(d), d);
    assert Refers(m, TableSite(d, i), t);
    var m' := SetWord(m, d, i, ZERO);
    forall s, p ensures Refers(m, s, p) <==> Refers(m', s, p) || (s == TableSite(d, i) && p == t) {
      if s.PageSite? && InRange(m.dirs, s) && Present(At(m, s.dir, s.pdx)) {
        assert Refers(m, TableSite(s.dir, s.pdx), TableOf(m, s.dir, s.pdx));
      }
    }
    LossKeeps(m, m', held, limbo, TableSite(d, i), t);
  }

  // ------------------------------------------------------- whole directories

  /** env_setup_vm's page: empty below UTOP, kern_pgdir's entries above, and the
      directory itself at UVPT. */
  function DirPage(m: Mem, d: nat): (c: seq<Word>)
    ensures |c| == ENTRIES
  {
    seq(ENTRIES, k requires 0 <= k < ENTRIES =>
      if k < UTOP_PDX then ZERO else if k == UVPT_PDX then Word(d, {P, U}) else At(m, m.kern, k))
  }

  lemma AddDir(m: Mem, held: multiset<nat>, limbo: set<nat>, d: nat)
    requires Inv(m, held, limbo) && Managed(m, d) && held[d] > 0
    requires forall s :: !Refers(m, s, d)
    ensures var m' := m.(phys := m.phys[d := DirPage(m, d)], dirs := m.dirs + {d});
            && Inv(m', held - multiset{d}, limbo)
            && Gains(m, m', DirSite(d), d)
            && (forall e, k :: e in m.dirs ==> At(m', e, k) == At(m, e, k))
            && d !in m.dirs
  {
    var m1 := m.(phys := m.phys[d := DirPage(m, d)]);
    var m' := m1.(dirs := m.dirs + {d});
    UnreferencedContents(m, d, DirPage(m, d));
    if d in m.dirs {
      assert Refers(m, DirSite(d), d);
    }
    assert forall i :: 0 <= i < UTOP_PDX ==> At(m', d, i) == ZERO;
    forall s, p ensures Refers(m', s, p) <==> Refers(m, s, p) || (s == DirSite(d) && p == d) {
      assert Refers(m1, s, p) <==> Refers(m, s, p);
      assert forall q, k :: At(m', q, k) == At(m1, q, k);
      if s.dir == d && !s.DirSite? && InRange(m'.dirs, s) {
        assert At(m', d, s.pdx) == ZERO;
      }
    }
    assert forall q, k :: q != d ==> At(m', q, k) == At(m, q, k);
    assert forall i :: UTOP_PDX <= i < ENTRIES ==>
      At(m', d, i) == if i == UVPT_PDX then Word(d, {P, U}) else At(m, m.kern, i);
    GainKeeps(m, m', held, limbo, DirSite(d), d);
  }

  lemma DropDir(m: Mem, held: multiset<nat>, limbo: set<nat>, d: nat)
    requires Inv(m, held, limbo) && d in m.dirs
    requires forall i :: 0 <= i < UTOP_PDX ==> !Present(At(m, d, i))
    ensures var m' := m.(dirs := m.dirs - {d});
            && Inv(m', held + multiset{d}, limbo)
            && Gains(m', m, DirSite(d), d)
  {
    var m' := m.(dirs := m.dirs - {d});
    assert Refers(m, DirSite(d), d);
    assert forall q, k :: At(m', q, k) == At(m, q, k);
    forall s, p ensures Refers(m, s, p) <==> Refers(m', s, p) || (s == DirSite(d) && p == d) {
      if s.dir == d && !s.DirSite? && InRange(m.dirs, s) {
        assert !Present(At(m, d, s.pdx));
      }
    }
    LossKeeps(m, m', held, limbo, DirSite(d), d);
  }

  // --------------------------------------------------------------------- at boot

  /** Before the first environment: some pages reserved, every other one free and
      unreferenced, and kern_pgdir, itself reserved, mapping nothing below UTOP and
      only reserved pages above. */
  ghost predicate Booted(m: Mem) {
    && Shape(m) && KernelPart(m) && m.dirs == {} && NoDup(m.free)
    && (forall p: nat :: p in m.free <==> Managed(m, p))
    && (forall p: nat :: Managed(m, p) ==> m.ref[p] == 0)
  }

  /** The invariant holds where every run starts. */
  lemma BootedExact(m: Mem)
    requires Booted(m)
    ensures Inv(m, multiset{}, {})
  {
    forall p: nat ensures Refs(m, p) == {} {
    }
  }

  /** A pool of n pages, with page 0 and the page of kern_pgdir, page 1, reserved; the
      list as page_init pushes it. */
  function Pool(n: nat): (m: Mem)
    ensures |m.ref| == |m.phys| == n + 2 && |m.free| == n
  {
    Mem(seq(n + 2, p => 0), seq(n, k => n + 1 - k), seq(n + 2, p => ZeroPage()), {}, {0, 1}, 1)
  }

  lemma PoolBooted(n: nat)
    ensures Booted(Pool(n))
  {
    var m := Pool(n);
    forall p: nat ensures p in m.free <==> Managed(m, p) {
      if 2 <= p <= n + 1 {
        assert m.free[n + 1 - p] == p;
      }
    }
    assert forall i: nat :: At(m, 1, i) == ZERO;
  }
}
