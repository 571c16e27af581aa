/** Eager copying as the meaning of fork: every environment owns its pages, and
    each duppage call copies one page of the parent to the child at one moment.
    Every run of the copy-on-write machine is a run of this one. */
module CowRefinement {
  import opened Cow

  datatype Image = Image(content: Content, writable: bool)

  /** How far an eager duppage call is. */
  datatype Call = Idle | Pending(child: nat, v: nat) | Copied(child: nat, v: nat)

  /** mem: the private pages; call: for each live environment, its duppage. */
  datatype Eager = Eager(mem: map<Slot, Image>, call: map<nat, Call>)

  datatype Event =
    | Wrote(e: nat, v: nat, off: nat, x: int)
    | Began(e: nat, c: nat, v: nat)
    | Copy(e: nat)
    | Ended(e: nat)
    | Born(c: nat)
    | Left(e: nat)
    | Grew(e: nat, v: nat)
    | Shrank(e: nat, v: nat)

  /** A duppage call copies exactly once between its beginning and its end. */
  predicate Allowed(t: Eager, l: Event) {
    match l
    case Wrote(e, v, off, x) => Slot(e, v) in t.mem && t.mem[Slot(e, v)].writable && off < |t.mem[Slot(e, v)].content|
    case Began(e, c, v) => e in t.call && t.call[e] == Idle && c in t.call && Slot(e, v) in t.mem
    case Copy(e) => e in t.call && t.call[e].Pending? && Slot(e, t.call[e].v) in t.mem
    case Ended(e) => e in t.call && t.call[e].Copied?
    case Born(c) => c !in t.call
    case Left(e) => e in t.call
    case Grew(e, v) => e in t.call
    case Shrank(e, v) => e in t.call
  }

  function After(t: Eager, l: Event): Eager
    requires Allowed(t, l)
  {
    match l
    case Wrote(e, v, off, x) =>
      t.(mem := t.mem[Slot(e, v) := Image(t.mem[Slot(e, v)].content[off := x], true)])
    case Began(e, c, v) => t.(call := t.call[e := Pending(c, v)])
    case Copy(e) =>
      var Pending(c, v) := t.call[e];
      Eager(t.mem[Slot(c, v) := t.mem[Slot(e, v)]], t.call[e := Copied(c, v)])
    case Ended(e) => t.(call := t.call[e := Idle])
    case Born(c) => t.(call := t.call[c := Idle])
    case Left(e) => Eager(map a | a in t.mem && a.env != e :: t.mem[a], t.call - {e})
    case Grew(e, v) => t.(mem := t.mem[Slot(e, v) := Image(Zeros(), true)])
    case Shrank(e, v) => t.(mem := t.mem - {Slot(e, v)})
  }

  /** The events ls lead from t to t'. */
  predicate Leads(ls: seq<Event>, t: Eager, t': Eager) {
    if ls == [] then t == t' else Allowed(t, ls[0]) && Leads(ls[1..], After(t, ls[0]), t')
  }

  // --------------------------------------------------------- refinement mapping

  /** A page in the child that its parent has not been separated from yet: the
      eager copy has still to happen. */
  predicate Shared(s: State, a: Slot) {
    && a in s.pte && a.env in s.envs
    && var p := s.envs[a.env].parent;
       && p in s.envs && s.envs[p].fork == Remap(a.env, a.vpn)
       && Slot(p, a.vpn) in s.pte && s.pte[Slot(p, a.vpn)].ppn == s.pte[a].ppn
  }

  predicate Visible(s: State, a: Slot) {
    a in s.pte && s.pte[a].ppn in s.phys && UserPage(a.vpn) && !Shared(s, a)
  }

  function ImageOf(s: State, a: Slot): Image
    requires Visible(s, a)
  {
    Image(s.phys[s.pte[a].ppn], Shares(s.pte[a]))
  }

  function CallOf(s: State, e: nat): Call
    requires e in s.envs
  {
    match s.envs[e].fork
    case Dup(c, v, cow) => Pending(c, v)
    case Remap(c, v) => if Shared(s, Slot(c, v)) then Pending(c, v) else Copied(c, v)
    case _ => Idle
  }

  /** What each environment sees of its own pages below USTACKTOP. */
  function Abs(s: State): Eager {
    Eager(map a | a in s.pte && Visible(s, a) :: ImageOf(s, a), map e | e in s.envs :: CallOf(s, e))
  }

  /** The environment is between the two mappings of a duppage call and still
      shares the page with the child. */
  predicate Unseparated(s: State, e: nat) {
    e in s.envs && s.envs[e].fork.Remap? && Shared(s, Slot(s.envs[e].fork.child, s.envs[e].fork.v))
  }

  /** The eager events of a step: the copy happens when parent and child are
      separated, by the second mapping, by a fault in between, or by exit. */
  ghost function Shadow(s: State, a: Action): seq<Event>
    requires Inv(s) && Enabled(s, a)
  {
    match a
    case Write(e, v, off, x) => if UserPage(v) then [Wrote(e, v, off, x)] else []
    case FaultMap(e) => if Unseparated(s, e) && s.envs[e].fault.v == s.envs[e].fork.v then [Copy(e)] else []
    case ForkBegin(e, c) => [Born(c)]
    case ForkScan(e) =>
      var Scan(c, v) := s.envs[e].fork;
      if Mapped(s, e, v) then [Began(e, c, v)] else []
    case ForkMapChild(e) => if s.envs[e].fork.cow then [] else [Copy(e), Ended(e)]
    case ForkMapSelf(e) => if Unseparated(s, e) then [Copy(e), Ended(e)] else [Ended(e)]
    case Exit(e) => if Unseparated(s, e) then [Copy(e), Left(e)] else [Left(e)]
    case Alloc(e, v, q) => if UserPage(v) then [Grew(e, v)] else []
    case Unmap(e, v) => if UserPage(v) then [Shrank(e, v)] else []
    case _ => []
  }

  // ------------------------------------------------------------------ the steps

  /** Two states that show the same. */
  lemma SameView(s: State, s': State)
    requires s'.envs.Keys == s.envs.Keys
    requires forall a :: Visible(s', a) <==> Visible(s, a)
    requires forall a :: Visible(s, a) && Visible(s', a) ==> ImageOf(s', a) == ImageOf(s, a)
    requires forall e :: e in s.envs ==> CallOf(s', e) == CallOf(s, e)
    ensures Abs(s') == Abs(s)
  {
  }

  lemma AbsMem(s: State)
    ensures forall a :: a in Abs(s).mem <==> Visible(s, a)
    ensures forall a :: a in Abs(s).mem ==> Abs(s).mem[a] == ImageOf(s, a)
    ensures Abs(s).call.Keys == s.envs.Keys
    ensures forall e :: e in s.envs ==> Abs(s).call[e] == CallOf(s, e)
  {
  }

  /** Only an unstarted child can have an uncopied page. */
  lemma RunningNotShared(s: State, e: nat, v: nat)
    requires Inv(s) && Runs(s, e)
    ensures !Shared(s, Slot(e, v))
  {
    var p := s.envs[e].parent;
    assert p in s.envs ==> ForkOk(s, p);
  }

  /** Whoever else maps the page being written cannot see it yet. */
  lemma WriterAlone(s: State, e: nat, v: nat, b: Slot)
    requires Inv(s) && Runs(s, e) && Slot(e, v) in s.pte && s.pte[Slot(e, v)].w
    requires s.envs[e].fault == NoFault || v == UX_VPN
    requires b in s.pte && b != Slot(e, v) && s.pte[b].ppn == s.pte[Slot(e, v)].ppn
    ensures !Visible(s, b)
  {
    assert FaultOk(s, e) && ForkOk(s, e) && PteOk(s, b);
    assert !FaultAlias(s, Slot(e, v), b);
    assert DupAlias(s, Slot(e, v), b);
  }

  /** One word of page q changed; nothing else that is visible did. */
  lemma WordView(s: State, s': State, q: nat, c: Content)
    requires q in s.phys && s' == s.(phys := s.phys[q := c])
    ensures forall b :: Visible(s', b) <==> Visible(s, b)
    ensures forall b :: Visible(s, b) ==>
              ImageOf(s', b) == if s.pte[b].ppn == q then Image(c, Shares(s.pte[b])) else ImageOf(s, b)
    ensures forall e :: e in s.envs ==> CallOf(s', e) == CallOf(s, e)
  {
    assert forall b :: Shared(s', b) <==> Shared(s, b);
  }

  lemma WriteRefines(s: State, e: nat, v: nat, off: nat, x: int)
    requires Inv(s) && Enabled(s, Write(e, v, off, x))
    ensures Leads(Shadow(s, Write(e, v, off, x)), Abs(s), Abs(Next(s, Write(e, v, off, x))))
  {
    var a := Slot(e, v);
    var s' := Next(s, Write(e, v, off, x));
    assert PteOk(s, a) && IdleOk(s, e);
    var q := s.pte[a].ppn;
    WordView(s, s', q, s.phys[q][off := x]);
    RunningNotShared(s, e, v);
    forall b | Visible(s, b) && s.pte[b].ppn == q ensures b == a {
      if b != a {
        WriterAlone(s, e, v, b);
      }
    }
    if UserPage(v) {
      WriteImage(s, s', a, off, x);
    } else {
      SameView(s, s');
    }
  }

  lemma WriteImage(s: State, s': State, a: Slot, off: nat, x: int)
    requires Visible(s, a) && s.pte[a].w && off < |s.phys[s.pte[a].ppn]|
    requires s'.envs.Keys == s.envs.Keys
    requires forall b :: Visible(s', b) <==> Visible(s, b)
    requires Visible(s', a) && ImageOf(s', a) == Image(s.phys[s.pte[a].ppn][off := x], true)
    requires forall b :: Visible(s, b) && Visible(s', b) && b != a ==> ImageOf(s', b) == ImageOf(s, b)
    requires forall e :: e in s.envs ==> CallOf(s', e) == CallOf(s, e)
    ensures Leads([Wrote(a.env, a.vpn, off, x)], Abs(s), Abs(s'))
  {
    var t := Abs(s);
    assert a == Slot(a.env, a.vpn) && t.mem[a] == ImageOf(s, a);
    assert Abs(s').mem == t.mem[a := Image(t.mem[a].content[off := x], true)];
    assert Abs(s').call == t.call;
    LeadsOne(t, Wrote(a.env, a.vpn, off, x), Abs(s'));
  }

  lemma LeadsOne(t: Eager, l: Event, t': Eager)
    requires Allowed(t, l) && t' == After(t, l)
    ensures Leads([l], t, t')
  {
    assert [l][1..] == [];
  }

  lemma LeadsTwo(t: Eager, l1: Event, l2: Event, t': Eager)
    requires Allowed(t, l1) && Allowed(After(t, l1), l2) && t' == After(After(t, l1), l2)
    ensures Leads([l1, l2], t, t')
  {
    assert [l1, l2][1..] == [l2];
    LeadsOne(After(t, l1), l2, t');
  }

  predicate Quiet(f: Fork) {
    !f.Dup? && !f.Remap?
  }

  /** A step that changes at most one slot outside the pages fork copies, the
      contents of invisible pages, and progress outside duppage, shows nothing. */
  lemma OffstageRefines(s: State, s': State, x: Slot)
    requires Inv(s) && !UserPage(x.vpn) && s'.envs.Keys == s.envs.Keys
    requires forall b :: b != x ==> (b in s'.pte <==> b in s.pte)
    requires forall b :: b != x && b in s.pte && b in s'.pte ==> s'.pte[b] == s.pte[b]
    requires forall b :: b != x && b in s.pte && UserPage(b.vpn) && s.pte[b].ppn in s.phys ==>
               s.pte[b].ppn in s'.phys && s'.phys[s.pte[b].ppn] == s.phys[s.pte[b].ppn]
    requires forall f :: f in s.envs ==> s'.envs[f].parent == s.envs[f].parent
    requires forall f :: f in s.envs ==>
               s'.envs[f].fork == s.envs[f].fork || (Quiet(s'.envs[f].fork) && Quiet(s.envs[f].fork))
    ensures Abs(s') == Abs(s)
  {
    forall b: Slot | UserPage(b.vpn) ensures Shared(s', b) <==> Shared(s, b) {
      assert b.vpn != x.vpn;
      assert b.env in s.envs ==> Slot(s.envs[b.env].parent, b.vpn) != x;
    }
    forall b ensures Visible(s', b) <==> Visible(s, b) {
      if b in s.pte {
        assert PteOk(s, b);
      }
    }
    forall f | f in s.envs ensures CallOf(s', f) == CallOf(s, f) {
      assert ForkOk(s, f);
    }
    SameView(s, s');
  }

  lemma HandlerRefines(s: State, a: Action)
    requires Inv(s) && Enabled(s, a)
    requires a.TakeFault? || a.FaultAlloc? || a.FaultUnmap?
    ensures Abs(Next(s, a)) == Abs(s)
  {
    assert FaultOk(s, a.e);
    var tmp := Slot(a.e, PFTEMP_VPN);
    OffstageRefines(s, Next(s, a), tmp);
  }

  lemma FaultCopyRefines(s: State, e: nat)
    requires Inv(s) && Enabled(s, FaultCopy(e))
    ensures Abs(Next(s, FaultCopy(e))) == Abs(s)
  {
    assert FaultOk(s, e);
    var tmp := Slot(e, PFTEMP_VPN);
    forall b | b in s.pte && b != tmp ensures s.pte[b].ppn != s.pte[tmp].ppn {
      if s.pte[b].ppn == s.pte[tmp].ppn {
        TmpAlone(s, e, b);
      }
    }
    OffstageRefines(s, Next(s, FaultCopy(e)), tmp);
  }

  /** Two states that show the same pages. */
  ghost predicate SamePages(s: State, s': State) {
    && (forall a :: Visible(s', a) <==> Visible(s, a))
    && (forall a :: Visible(s, a) && Visible(s', a) ==> ImageOf(s', a) == ImageOf(s, a))
  }

  /** No other environment's duppage call has moved. */
  ghost predicate OthersCall(s: State, s': State, e: nat) {
    && (forall f :: f != e ==> (f in s'.envs <==> f in s.envs))
    && (forall f :: f in s.envs && f in s'.envs && f != e ==> CallOf(s', f) == CallOf(s, f))
  }

  lemma SamePagesMem(s: State, s': State)
    requires SamePages(s, s')
    ensures Abs(s').mem == Abs(s).mem
  {
  }

  lemma OthersCallAbs(s: State, s': State, e: nat)
    requires OthersCall(s, s', e) && e in s'.envs
    ensures Abs(s').call == Abs(s).call[e := CallOf(s', e)]
  {
  }

  /** Slot d now shows what a shows; every other slot shows what it did. */
  ghost predicate PageCopied(s: State, s': State, a: Slot, d: Slot) {
    && d != a && Visible(s, a) && Visible(s', d) && ImageOf(s', d) == ImageOf(s, a)
    && (forall b :: b != d ==> (Visible(s', b) <==> Visible(s, b)))
    && (forall b :: b != d && Visible(s, b) && Visible(s', b) ==> ImageOf(s', b) == ImageOf(s, b))
  }

  lemma PageCopiedMem(s: State, s': State, a: Slot, d: Slot)
    requires PageCopied(s, s', a, d)
    ensures a in Abs(s).mem && Abs(s').mem == Abs(s).mem[d := Abs(s).mem[a]]
  {
  }

  /** The moment a faulting writer gets its own copy: if a duppage call of it is
      still sharing this page, the eager copy happens now. */
  lemma FaultMapRefines(s: State, e: nat)
    requires Inv(s) && Enabled(s, FaultMap(e))
    ensures Leads(Shadow(s, FaultMap(e)), Abs(s), Abs(Next(s, FaultMap(e))))
  {
    var s' := Next(s, FaultMap(e));
    FaultMapCalls(s, e);
    FaultMapPages(s, e);
    OthersCallAbs(s, s', e);
    if Unseparated(s, e) && s.envs[e].fault.v == s.envs[e].fork.v {
      var c, v := s.envs[e].fork.child, s.envs[e].fork.v;
      PageCopiedMem(s, s', Slot(e, v), Slot(c, v));
      LeadsOne(Abs(s), Copy(e), Abs(s'));
    } else {
      SamePagesMem(s, s');
    }
  }

  lemma FaultMapCalls(s: State, e: nat)
    requires Inv(s) && Enabled(s, FaultMap(e))
    ensures var s' := Next(s, FaultMap(e));
            && OthersCall(s, s', e) && e in s'.envs
            && CallOf(s', e) ==
               if Unseparated(s, e) && s.envs[e].fault.v == s.envs[e].fork.v
               then Copied(s.envs[e].fork.child, s.envs[e].fork.v) else CallOf(s, e)
  {
    FaultMapShared(s, e);
    forall f | f in s.envs && f != e ensures CallOf(Next(s, FaultMap(e)), f) == CallOf(s, f) {
      FaultMapOtherCall(s, e, f);
    }
  }

  lemma FaultMapOtherCall(s: State, e: nat, f: nat)
    requires Inv(s) && Enabled(s, FaultMap(e)) && f in s.envs && f != e
    ensures CallOf(Next(s, FaultMap(e)), f) == CallOf(s, f)
  {
    if s.envs[f].fork.Remap? {
      FaultMapShared(s, e);
      if s.envs[e].fork.Remap? {
        OneParent(s, e, f);
      }
    }
  }

  lemma FaultMapPages(s: State, e: nat)
    requires Inv(s) && Enabled(s, FaultMap(e))
    ensures var s' := Next(s, FaultMap(e));
            if Unseparated(s, e) && s.envs[e].fault.v == s.envs[e].fork.v
            then PageCopied(s, s', Slot(e, s.envs[e].fork.v), Slot(s.envs[e].fork.child, s.envs[e].fork.v))
            else SamePages(s, s')
  {
    FaultMapShared(s, e);
    FaultMapView(s, e);
    assert FaultOk(s, e) && ForkOk(s, e) && PteOk(s, Slot(e, s.envs[e].fault.v));
    if Unseparated(s, e) {
      assert PteOk(s, Slot(s.envs[e].fork.child, s.envs[e].fork.v));
    }
  }

  /** Remapping separates exactly the child slot of the call in progress. */
  lemma FaultMapShared(s: State, e: nat)
    requires Inv(s) && Enabled(s, FaultMap(e))
    ensures var s' := Next(s, FaultMap(e));
            forall b :: Shared(s', b) <==>
              Shared(s, b) && !(s.envs[e].fork == Remap(b.env, s.envs[e].fault.v) && b.vpn == s.envs[e].fault.v)
  {
    var s' := Next(s, FaultMap(e));
    var a := Slot(e, s.envs[e].fault.v);
    var tmp := Slot(e, PFTEMP_VPN);
    assert FaultOk(s, e) && ForkOk(s, e) && IdleOk(s, e) && PteOk(s, a);
    forall b ensures Shared(s', b) <==>
      Shared(s, b) && !(s.envs[e].fork == Remap(b.env, a.vpn) && b.vpn == a.vpn)
    {
      if b in s.pte && b.env in s.envs && s.envs[b.env].parent in s.envs && b != a {
        var p := s.envs[b.env].parent;
        assert ForkOk(s, p) && PteOk(s, b);
        if b != tmp && s.pte[b].ppn == s.pte[tmp].ppn {
          TmpAlone(s, e, b);
        }
      }
      if b == a {
        RunningNotShared(s, e, a.vpn);
        RunningNotSharedAfter(s, s', e, a.vpn);
      }
    }
  }

  lemma RunningNotSharedAfter(s: State, s': State, e: nat, v: nat)
    requires Inv(s) && Runs(s, e) && s'.envs.Keys == s.envs.Keys
    requires forall f :: f in s.envs ==> s'.envs[f].parent == s.envs[f].parent && s'.envs[f].fork == s.envs[f].fork
    ensures !Shared(s', Slot(e, v))
  {
    var p := s.envs[e].parent;
    assert p in s.envs ==> ForkOk(s, p);
  }

  lemma FaultMapView(s: State, e: nat)
    requires Inv(s) && Enabled(s, FaultMap(e))
    ensures var s' := Next(s, FaultMap(e));
            var a := Slot(e, s.envs[e].fault.v);
            && Visible(s, a) && Visible(s', a) && ImageOf(s', a) == ImageOf(s, a)
            && (forall b :: b != a && Visible(s, b) ==> Visible(s', b) && ImageOf(s', b) == ImageOf(s, b))
            && (forall b :: b != a && Visible(s', b) && !Visible(s, b) ==>
                  Shared(s, b) && b.vpn == a.vpn && s.pte[b].ppn == s.pte[a].ppn && ImageOf(s', b) == ImageOf(s, a))
  {
    var s' := Next(s, FaultMap(e));
    var a := Slot(e, s.envs[e].fault.v);
    var tmp := Slot(e, PFTEMP_VPN);
    assert FaultOk(s, e) && ForkOk(s, e) && PteOk(s, a) && PteOk(s, tmp);
    FaultMapShared(s, e);
    RunningNotShared(s, e, a.vpn);
    var src, dst := s.phys[s.pte[a].ppn], s.phys[s.pte[tmp].ppn];
    assert src == dst;
    forall b | b != a && Visible(s', b) && !Visible(s, b)
      ensures Shared(s, b) && b.vpn == a.vpn && s.pte[b].ppn == s.pte[a].ppn && ImageOf(s', b) == ImageOf(s, a)
    {
      assert Shared(s, b);
      assert ForkOk(s, e) && PteOk(s, b);
    }
  }

  lemma ForkBeginRefines(s: State, e: nat, c: nat)
    requires Inv(s) && Enabled(s, ForkBegin(e, c))
    ensures Leads([Born(c)], Abs(s), Abs(Next(s, ForkBegin(e, c))))
  {
    var s' := Next(s, ForkBegin(e, c));
    ForkBeginShared(s, e, c);
    forall f | f in s.envs ensures f != c && CallOf(s', f) == CallOf(s, f) {
      assert ForkOk(s, f);
    }
    SamePagesMem(s, s');
    OthersCallAbs(s, s', c);
    LeadsOne(Abs(s), Born(c), Abs(s'));
  }

  lemma ForkBeginShared(s: State, e: nat, c: nat)
    requires Inv(s) && Enabled(s, ForkBegin(e, c))
    ensures var s' := Next(s, ForkBegin(e, c));
            (forall a :: Shared(s', a) <==> Shared(s, a)) && SamePages(s, s')
  {
    var s' := Next(s, ForkBegin(e, c));
    forall a ensures Shared(s', a) <==> Shared(s, a) {
      if a in s.pte {
        assert PteOk(s, a);
      }
    }
  }

  /** A test of an absent page, and the steps around the child's stack, show
      nothing. */
  lemma QuietForkRefines(s: State, a: Action)
    requires Inv(s) && Enabled(s, a)
    requires a.ForkStack? || a.ForkStart? || (a.ForkScan? && !Mapped(s, a.e, s.envs[a.e].fork.v))
    ensures Abs(Next(s, a)) == Abs(s)
  {
    assert ForkOk(s, a.e);
    forall b | b in s.pte ensures PteOk(s, b) {
    }
    OffstageRefines(s, Next(s, a), Slot(s.envs[a.e].fork.child, UX_VPN));
  }

  lemma ForkScanRefines(s: State, e: nat)
    requires Inv(s) && Enabled(s, ForkScan(e)) && Mapped(s, e, s.envs[e].fork.v)
    ensures Leads(Shadow(s, ForkScan(e)), Abs(s), Abs(Next(s, ForkScan(e))))
  {
    var s' := Next(s, ForkScan(e));
    var Scan(c, v) := s.envs[e].fork;
    ForkScanView(s, e);
    SamePagesMem(s, s');
    OthersCallAbs(s, s', e);
    assert c in s.envs && UserPage(v) && Visible(s, Slot(e, v)) by {
      assert ForkOk(s, e) && FaultOk(s, e) && PteOk(s, Slot(e, v));
      RunningNotShared(s, e, v);
    }
    LeadsOne(Abs(s), Began(e, c, v), Abs(s'));
  }

  lemma ForkScanView(s: State, e: nat)
    requires Inv(s) && Enabled(s, ForkScan(e)) && Mapped(s, e, s.envs[e].fork.v)
    ensures var s' := Next(s, ForkScan(e));
            && SamePages(s, s') && OthersCall(s, s', e) && e in s'.envs
            && CallOf(s', e) == Pending(s.envs[e].fork.child, s.envs[e].fork.v)
  {
    var s' := Next(s, ForkScan(e));
    assert forall a :: Shared(s', a) <==> Shared(s, a);
  }

  /** No two environments build the same child. */
  lemma OneParent(s: State, e: nat, f: nat)
    requires Inv(s) && e in s.envs && f in s.envs && e != f
    requires s.envs[e].fork != NoFork && s.envs[f].fork != NoFork
    ensures s.envs[e].fork.child != s.envs[f].fork.child
  {
    assert ForkOk(s, e) && ForkOk(s, f);
  }

  lemma MapChildShared(s: State, e: nat)
    requires Inv(s) && Enabled(s, ForkMapChild(e))
    ensures var s' := Next(s, ForkMapChild(e));
            var Dup(c, v, cow) := s.envs[e].fork;
            && (forall b :: b != Slot(c, v) ==> (Shared(s', b) <==> Shared(s, b)))
            && (Shared(s', Slot(c, v)) <==> cow) && !Mapped(s, c, v) && c != e
  {
    var s' := Next(s, ForkMapChild(e));
    var Dup(c, v, cow) := s.envs[e].fork;
    assert ForkOk(s, e) && IdleOk(s, e);
    forall b | b != Slot(c, v) ensures Shared(s', b) <==> Shared(s, b) {
      if b.env in s.envs && s.envs[b.env].parent in s.envs {
        var p := s.envs[b.env].parent;
        assert ForkOk(s, p);
        if p == c {
          assert s.envs[c].fork == NoFork;
        }
      }
    }
  }

  /** The copy and the end of a duppage call in one step. */
  lemma CopyAndEnd(s: State, s': State, e: nat, c: nat, v: nat)
    requires PageCopied(s, s', Slot(e, v), Slot(c, v)) && OthersCall(s, s', e)
    requires e in s.envs && e in s'.envs && CallOf(s, e) == Pending(c, v) && CallOf(s', e) == Idle
    ensures Leads([Copy(e), Ended(e)], Abs(s), Abs(s'))
  {
    var t := Abs(s);
    PageCopiedMem(s, s', Slot(e, v), Slot(c, v));
    OthersCallAbs(s, s', e);
    assert t.call[e := Copied(c, v)][e := Idle] == t.call[e := Idle];
    LeadsTwo(t, Copy(e), Ended(e), Abs(s'));
  }

  lemma ForkMapChildRefines(s: State, e: nat)
    requires Inv(s) && Enabled(s, ForkMapChild(e))
    ensures Leads(Shadow(s, ForkMapChild(e)), Abs(s), Abs(Next(s, ForkMapChild(e))))
  {
    var s' := Next(s, ForkMapChild(e));
    var Dup(c, v, cow) := s.envs[e].fork;
    MapChildCalls(s, e);
    MapChildPages(s, e);
    if cow {
      SamePagesMem(s, s');
      OthersCallAbs(s, s', e);
    } else {
      CopyAndEnd(s, s', e, c, v);
    }
  }

  lemma MapChildCalls(s: State, e: nat)
    requires Inv(s) && Enabled(s, ForkMapChild(e))
    ensures var s' := Next(s, ForkMapChild(e));
            var Dup(c, v, cow) := s.envs[e].fork;
            && OthersCall(s, s', e) && e in s'.envs
            && CallOf(s', e) == if cow then Pending(c, v) else Idle
  {
    MapChildShared(s, e);
    forall f | f in s.envs && f != e && s.envs[f].fork.Remap?
      ensures s.envs[f].fork.child != s.envs[e].fork.child
    {
      OneParent(s, e, f);
    }
  }

  lemma MapChildPages(s: State, e: nat)
    requires Inv(s) && Enabled(s, ForkMapChild(e))
    ensures var s' := Next(s, ForkMapChild(e));
            var Dup(c, v, cow) := s.envs[e].fork;
            if cow then SamePages(s, s') else PageCopied(s, s', Slot(e, v), Slot(c, v))
  {
    assert ForkOk(s, e) && PteOk(s, Slot(e, s.envs[e].fork.v));
    MapChildShared(s, e);
    RunningNotShared(s, e, s.envs[e].fork.v);
  }

  lemma MapSelfShared(s: State, e: nat)
    requires Inv(s) && Enabled(s, ForkMapSelf(e))
    ensures var s' := Next(s, ForkMapSelf(e));
            var Remap(c, v) := s.envs[e].fork;
            && (forall b :: b != Slot(c, v) ==> (Shared(s', b) <==> Shared(s, b)))
            && !Shared(s', Slot(c, v)) && c != e
  {
    var s' := Next(s, ForkMapSelf(e));
    var Remap(c, v) := s.envs[e].fork;
    assert ForkOk(s, e) && IdleOk(s, e);
    forall b | b != Slot(c, v) ensures Shared(s', b) <==> Shared(s, b) {
      if b.env in s.envs && s.envs[b.env].parent in s.envs {
        assert ForkOk(s, s.envs[b.env].parent);
      }
    }
  }

  lemma ForkMapSelfRefines(s: State, e: nat)
    requires Inv(s) && Enabled(s, ForkMapSelf(e))
    ensures Leads(Shadow(s, ForkMapSelf(e)), Abs(s), Abs(Next(s, ForkMapSelf(e))))
  {
    var s' := Next(s, ForkMapSelf(e));
    var Remap(c, v) := s.envs[e].fork;
    MapSelfCalls(s, e);
    MapSelfPages(s, e);
    if Unseparated(s, e) {
      CopyAndEnd(s, s', e, c, v);
    } else {
      SamePagesMem(s, s');
      OthersCallAbs(s, s', e);
      LeadsOne(Abs(s), Ended(e), Abs(s'));
    }
  }

  lemma MapSelfCalls(s: State, e: nat)
    requires Inv(s) && Enabled(s, ForkMapSelf(e))
    ensures var s' := Next(s, ForkMapSelf(e));
            OthersCall(s, s', e) && e in s'.envs && CallOf(s', e) == Idle
  {
    MapSelfShared(s, e);
    forall f | f in s.envs && f != e && s.envs[f].fork.Remap?
      ensures s.envs[f].fork.child != s.envs[e].fork.child
    {
      OneParent(s, e, f);
    }
  }

  lemma MapSelfPages(s: State, e: nat)
    requires Inv(s) && Enabled(s, ForkMapSelf(e))
    ensures var s' := Next(s, ForkMapSelf(e));
            var Remap(c, v) := s.envs[e].fork;
            if Unseparated(s, e) then PageCopied(s, s', Slot(e, v), Slot(c, v)) else SamePages(s, s')
  {
    var Remap(c, v) := s.envs[e].fork;
    assert ForkOk(s, e) && PteOk(s, Slot(e, v)) && PteOk(s, Slot(c, v));
    MapSelfShared(s, e);
    RunningNotShared(s, e, v);
  }

  // ------------------------------------------------------ exit, alloc and unmap

  /** What is left once e has gone, a pending copy having been made. */
  ghost predicate Departed(s: State, s': State, e: nat) {
    && s'.envs == s.envs - {e}
    && (forall a: Slot :: a.env != e && !(Unseparated(s, e) && a == Slot(s.envs[e].fork.child, s.envs[e].fork.v)) ==>
          (Visible(s', a) <==> Visible(s, a)))
    && (forall a :: Visible(s, a) && Visible(s', a) ==> ImageOf(s', a) == ImageOf(s, a))
    && (forall a :: Visible(s', a) ==> a.env != e)
    && (forall f :: f in s'.envs ==> CallOf(s', f) == CallOf(s, f))
  }

  lemma ExitShared(s: State, e: nat)
    requires Inv(s) && Enabled(s, Exit(e))
    ensures var s' := Next(s, Exit(e));
            && (forall a :: Shared(s', a) <==> Shared(s, a) && s.envs[a.env].parent != e)
            && (forall a :: Shared(s, a) && s.envs[a.env].parent == e ==>
                  Unseparated(s, e) && a == Slot(s.envs[e].fork.child, s.envs[e].fork.v))
  {
    var s' := Next(s, Exit(e));
    forall a | Shared(s, a) ensures a.env != e {
      RunningNotShared(s, e, a.vpn);
    }
  }

  lemma ExitDeparts(s: State, e: nat)
    requires Inv(s) && Enabled(s, Exit(e))
    ensures Departed(s, Next(s, Exit(e)), e)
  {
    var s' := Next(s, Exit(e));
    ExitShared(s, e);
    forall f | f in s'.envs ensures CallOf(s', f) == CallOf(s, f) {
      assert ForkOk(s, f);
    }
    forall a | a in s.pte ensures PteOk(s, a) {
    }
  }

  lemma ExitRefines(s: State, e: nat)
    requires Inv(s) && Enabled(s, Exit(e))
    ensures Leads(Shadow(s, Exit(e)), Abs(s), Abs(Next(s, Exit(e))))
  {
    ExitDeparts(s, e);
    if Unseparated(s, e) {
      ExitCopies(s, Next(s, Exit(e)), e);
    } else {
      ExitPlain(s, Next(s, Exit(e)), e);
    }
  }

  lemma ExitPlain(s: State, s': State, e: nat)
    requires Departed(s, s', e) && e in s.envs && !Unseparated(s, e)
    ensures Leads([Left(e)], Abs(s), Abs(s'))
  {
    var t, t' := Abs(s), Abs(s');
    AbsMem(s);
    AbsMem(s');
    assert t'.call == t.call - {e};
    assert t'.mem == map a | a in t.mem && a.env != e :: t.mem[a];
    LeadsOne(t, Left(e), t');
  }

  lemma ExitCopies(s: State, s': State, e: nat)
    requires Departed(s, s', e) && Unseparated(s, e)
    requires var a, d := Slot(e, s.envs[e].fork.v), Slot(s.envs[e].fork.child, s.envs[e].fork.v);
             && d.env != e && Visible(s, a) && Visible(s', d) && ImageOf(s', d) == ImageOf(s, a)
    ensures Leads([Copy(e), Left(e)], Abs(s), Abs(s'))
  {
    var t, t' := Abs(s), Abs(s');
    var a, d := Slot(e, s.envs[e].fork.v), Slot(s.envs[e].fork.child, s.envs[e].fork.v);
    AbsMem(s);
    AbsMem(s');
    var u := After(t, Copy(e));
    assert t'.call == u.call - {e};
    assert t'.mem == map b | b in u.mem && b.env != e :: u.mem[b];
    LeadsTwo(t, Copy(e), Left(e), t');
  }

  /** One slot of a running environment outside fork changes. */
  ghost predicate SlotChange(s: State, s': State, x: Slot) {
    && Inv(s) && Normal(s, x.env) && s.envs[x.env].fork == NoFork && s'.envs == s.envs
    && (forall b :: b != x ==> (b in s'.pte <==> b in s.pte))
    && (forall b :: b != x && b in s.pte ==> s'.pte[b] == s.pte[b])
    && (forall b :: b != x && b in s.pte && s.pte[b].ppn in s.phys ==>
          s.pte[b].ppn in s'.phys && s'.phys[s.pte[b].ppn] == s.phys[s.pte[b].ppn])
  }

  lemma SlotShared(s: State, s': State, x: Slot)
    requires SlotChange(s, s', x)
    ensures forall b :: Shared(s', b) <==> Shared(s, b)
    ensures !Shared(s, x)
  {
    RunningNotShared(s, x.env, x.vpn);
    var p := s.envs[x.env].parent;
    assert p in s.envs ==> ForkOk(s, p);
  }

  lemma SlotCalls(s: State, s': State, x: Slot)
    requires SlotChange(s, s', x)
    ensures Abs(s').call == Abs(s).call
  {
    SlotShared(s, s', x);
    assert forall f :: f in s.envs ==> CallOf(s', f) == CallOf(s, f);
  }

  lemma SlotView(s: State, s': State, x: Slot)
    requires SlotChange(s, s', x)
    ensures Abs(s').call == Abs(s).call
    ensures forall b :: b != x ==> (Visible(s', b) <==> Visible(s, b))
    ensures forall b :: b != x && Visible(s, b) && Visible(s', b) ==> ImageOf(s', b) == ImageOf(s, b)
  {
    SlotShared(s, s', x);
    SlotCalls(s, s', x);
    forall b | b in s.pte ensures PteOk(s, b) {
    }
  }

  lemma AllocRefines(s: State, e: nat, v: nat, q: nat)
    requires Inv(s) && Enabled(s, Alloc(e, v, q))
    ensures Leads(Shadow(s, Alloc(e, v, q)), Abs(s), Abs(Next(s, Alloc(e, v, q))))
  {
    var s' := Next(s, Alloc(e, v, q));
    var x := Slot(e, v);
    SlotView(s, s', x);
    SlotShared(s, s', x);
    if UserPage(v) {
      SlotGrew(s, s', x);
    } else {
      SamePagesMem(s, s');
    }
  }

  lemma SlotGrew(s: State, s': State, x: Slot)
    requires Visible(s', x) && ImageOf(s', x) == Image(Zeros(), true) && x.env in s.envs
    requires forall b :: b != x ==> (Visible(s', b) <==> Visible(s, b))
    requires forall b :: b != x && Visible(s, b) && Visible(s', b) ==> ImageOf(s', b) == ImageOf(s, b)
    requires Abs(s').call == Abs(s).call
    ensures Leads([Grew(x.env, x.vpn)], Abs(s), Abs(s'))
  {
    assert Abs(s').mem == Abs(s).mem[x := Image(Zeros(), true)];
    LeadsOne(Abs(s), Grew(x.env, x.vpn), Abs(s'));
  }

  lemma UnmapRefines(s: State, e: nat, v: nat)
    requires Inv(s) && Enabled(s, Unmap(e, v))
    ensures Leads(Shadow(s, Unmap(e, v)), Abs(s), Abs(Next(s, Unmap(e, v))))
  {
    var s' := Next(s, Unmap(e, v));
    var x := Slot(e, v);
    SlotView(s, s', x);
    if UserPage(v) {
      SlotShrank(s, s', x);
    } else {
      SamePagesMem(s, s');
    }
  }

  lemma SlotShrank(s: State, s': State, x: Slot)
    requires !Visible(s', x) && x.env in s.envs
    requires forall b :: b != x ==> (Visible(s', b) <==> Visible(s, b))
    requires forall b :: b != x && Visible(s, b) && Visible(s', b) ==> ImageOf(s', b) == ImageOf(s, b)
    requires Abs(s').call == Abs(s).call
    ensures Leads([Shrank(x.env, x.vpn)], Abs(s), Abs(s'))
  {
    assert Abs(s').mem == Abs(s).mem - {x};
    LeadsOne(Abs(s), Shrank(x.env, x.vpn), Abs(s'));
  }

  // ------------------------------------------------------------------ whole runs

  /** One step of the copy-on-write machine is the eager events it stands for. */
  lemma StepRefines(s: State, a: Action)
    requires Inv(s) && Enabled(s, a)
    ensures Leads(Shadow(s, a), Abs(s), Abs(Next(s, a)))
  {
    match a
    case Write(e, v, off, x) => WriteRefines(s, e, v, off, x);
    case TakeFault(e, v) => HandlerRefines(s, a);
    case FaultAlloc(e, q) => HandlerRefines(s, a);
    case FaultCopy(e) => FaultCopyRefines(s, e);
    case FaultMap(e) => FaultMapRefines(s, e);
    case FaultUnmap(e) => HandlerRefines(s, a);
    case ForkBegin(e, c) => ForkBeginRefines(s, e, c);
    case ForkScan(e) =>
      if Mapped(s, e, s.envs[e].fork.v) {
        ForkScanRefines(s, e);
      } else {
        QuietForkRefines(s, a);
      }
    case ForkMapChild(e) => ForkMapChildRefines(s, e);
    case ForkMapSelf(e) => ForkMapSelfRefines(s, e);
    case ForkStack(e, q) => QuietForkRefines(s, a);
    case ForkStart(e) => QuietForkRefines(s, a);
    case Exit(e) => ExitRefines(s, e);
    case Alloc(e, v, q) => AllocRefines(s, e, v, q);
    case Unmap(e, v) => UnmapRefines(s, e, v);
  }

  /** The actions of run can happen one after the other from s. */
  ghost predicate Possible(s: State, run: seq<Action>)
    requires Inv(s)
    decreases |run|
  {
    run == [] || (Enabled(s, run[0]) && (StepKeeps(s, run[0]); Possible(Next(s, run[0]), run[1..])))
  }

  ghost function End(s: State, run: seq<Action>): (r: State)
    requires Inv(s) && Possible(s, run)
    ensures Inv(r)
    decreases |run|
  {
    if run == [] then s else (StepKeeps(s, run[0]); End(Next(s, run[0]), run[1..]))
  }

  /** The eager events of a whole run. */
  ghost function Shadows(s: State, run: seq<Action>): seq<Event>
    requires Inv(s) && Possible(s, run)
    decreases |run|
  {
    if run == [] then [] else (StepKeeps(s, run[0]); Shadow(s, run[0]) + Shadows(Next(s, run[0]), run[1..]))
  }

  lemma {:induction false} LeadsOn(ls: seq<Event>, ms: seq<Event>, t: Eager, u: Eager, v: Eager)
    requires Leads(ls, t, u) && Leads(ms, u, v)
    ensures Leads(ls + ms, t, v)
  {
    if ls == [] {
      assert ls + ms == ms;
    } else {
      assert (ls + ms)[1..] == ls[1..] + ms;
      LeadsOn(ls[1..], ms, After(t, ls[0]), u, v);
    }
  }

  /** Copy-on-write fork is eager fork: whatever all environments of the family
      do, in whatever order, the same events of the eager machine lead to the
      same contents. */
  lemma {:induction false} ForkCopiesEagerly(s: State, run: seq<Action>)
    requires Inv(s) && Possible(s, run)
    ensures Leads(Shadows(s, run), Abs(s), Abs(End(s, run)))
    decreases |run|
  {
    if run != [] {
      var a := run[0];
      var n := Next(s, a);
      StepKeeps(s, a);
      StepRefines(s, a);
      ForkCopiesEagerly(n, run[1..]);
      LeadsOn(Shadow(s, a), Shadows(n, run[1..]), Abs(s), Abs(n), Abs(End(n, run[1..])));
    }
  }

  /** What a running environment can observe of a page below USTACKTOP is its
      eager image: presence, every word, and whether writing it will succeed, at
      once or after a copy-on-write fault. */
  lemma ReadsAgree(s: State, e: nat, v: nat)
    requires Inv(s) && Runs(s, e) && UserPage(v)
    ensures var a := Slot(e, v);
            && (Mapped(s, e, v) <==> a in Abs(s).mem)
            && (Mapped(s, e, v) ==>
                  && s.phys[s.pte[a].ppn] == Abs(s).mem[a].content
                  && (s.pte[a].w || s.pte[a].cow <==> Abs(s).mem[a].writable))
  {
    RunningNotShared(s, e, v);
    if Mapped(s, e, v) {
      assert PteOk(s, Slot(e, v));
    }
  }
}
