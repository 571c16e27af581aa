/** What a fork call leaves its child with, whatever the parent and all other
    environments do while it runs: every page, as the parent saw it at one moment
    of that page's own turn. */
module ForkCopies {
  import opened Cow
  import opened CowRefinement

  /** Slot a of m is what slot b of t was. */
  predicate SameImage(m: map<Slot, Image>, a: Slot, t: map<Slot, Image>, b: Slot) {
    (a in m <==> b in t) && (a in m ==> m[a] == t[b])
  }

  // ------------------------------------------------------- what a step leaves alone

  /** The event does not touch page b. */
  predicate Spares(t: Eager, l: Event, b: Slot) {
    match l
    case Wrote(e, v, off, x) => b != Slot(e, v)
    case Copy(e) => e in t.call ==> t.call[e] != Pending(b.env, b.vpn)
    case Left(e) => b.env != e
    case Grew(e, v) => b != Slot(e, v)
    case Shrank(e, v) => b != Slot(e, v)
    case _ => true
  }

  /** The environment whose duppage call the event is about. */
  function Subject(l: Event): nat {
    match l
    case Born(c) => c
    case _ => l.e
  }

  lemma SparedOne(t: Eager, l: Event, t': Eager, b: Slot)
    requires Leads([l], t, t') && Spares(t, l, b)
    ensures SameImage(t'.mem, b, t.mem, b)
  {
    assert [l][1..] == [];
  }

  lemma CallsOne(t: Eager, l: Event, t': Eager)
    requires Leads([l], t, t')
    ensures forall f :: f in t.call && f != Subject(l) ==> f in t'.call && t'.call[f] == t.call[f]
  {
    assert [l][1..] == [];
  }

  lemma CallsTwo(t: Eager, l1: Event, l2: Event, t': Eager)
    requires Leads([l1, l2], t, t')
    ensures forall f :: f in t.call && f != Subject(l1) && f != Subject(l2) ==> f in t'.call && t'.call[f] == t.call[f]
  {
    var u := After(t, l1);
    assert [l1, l2][1..] == [l2];
    LeadsOne(t, l1, u);
    CallsOne(t, l1, u);
    CallsOne(u, l2, t');
  }

  lemma SparedTwo(t: Eager, l1: Event, l2: Event, t': Eager, b: Slot)
    requires Leads([l1, l2], t, t') && Spares(t, l1, b) && (l2.Ended? || l2.Left?) && Spares(t, l2, b)
    ensures SameImage(t'.mem, b, t.mem, b)
  {
    var u := After(t, l1);
    assert [l1, l2][1..] == [l2];
    LeadsOne(t, l1, u);
    SparedOne(t, l1, u, b);
    SparedOne(u, l2, t', b);
  }

  /** The step is not about page b: it neither changes it nor copies onto it. */
  predicate SafeFor(s: State, a: Action, b: Slot) {
    && (a.e in s.envs ==> CallOf(s, a.e) != Pending(b.env, b.vpn))
    && match a
       case Write(e, v, off, x) => b != Slot(e, v)
       case Exit(e) => b.env != e
       case Alloc(e, v, q) => b != Slot(e, v)
       case Unmap(e, v) => b != Slot(e, v)
       case _ => true
  }

  lemma ShadowSpares(s: State, a: Action, b: Slot)
    requires Inv(s) && Enabled(s, a) && SafeFor(s, a, b)
    ensures var ls := Shadow(s, a);
            && |ls| <= 2 && (ls != [] ==> Spares(Abs(s), ls[0], b))
            && (|ls| == 2 ==> (ls[1].Ended? || ls[1].Left?) && Spares(Abs(s), ls[1], b))
  {
    AbsMem(s);
  }

  /** Such a step leaves what page b shows as it is. */
  lemma StepSpares(s: State, a: Action, b: Slot)
    requires Inv(s) && Enabled(s, a) && SafeFor(s, a, b)
    ensures SameImage(Abs(Next(s, a)).mem, b, Abs(s).mem, b)
  {
    StepRefines(s, a);
    ShadowSpares(s, a, b);
    var ls, t, t' := Shadow(s, a), Abs(s), Abs(Next(s, a));
    if |ls| == 1 {
      assert ls == [ls[0]];
      SparedOne(t, ls[0], t', b);
    } else if |ls| == 2 {
      assert ls == [ls[0], ls[1]];
      SparedTwo(t, ls[0], ls[1], t', b);
    }
  }

  /** A step moves no other environment's duppage call. */
  lemma StepCalls(s: State, a: Action, f: nat)
    requires Inv(s) && Enabled(s, a) && f in s.envs && f != a.e
    ensures f in Next(s, a).envs && CallOf(Next(s, a), f) == CallOf(s, f)
  {
    StepRefines(s, a);
    AbsMem(s);
    AbsMem(Next(s, a));
    var ls, t, t' := Shadow(s, a), Abs(s), Abs(Next(s, a));
    if |ls| == 1 {
      assert ls == [ls[0]];
      CallsOne(t, ls[0], t');
    } else if |ls| == 2 {
      assert ls == [ls[0], ls[1]];
      CallsTwo(t, ls[0], ls[1], t');
    }
  }

  // ------------------------------------------------------------- one step of a fork

  /** Environment e is inside a fork call whose child is c. */
  predicate Builds(s: State, e: nat, c: nat) {
    e in s.envs && s.envs[e].fork != NoFork && s.envs[e].fork.child == c
  }

  /** The page the loop of fork is at. */
  function Position(f: Fork): nat
    requires f != NoFork
  {
    match f
    case Scan(c, v) => v
    case Dup(c, v, cow) => v
    case Remap(c, v) => v
    case Ready(c) => USTACK_VPN
  }

  /** Page v has had its copy: the loop has passed it, or is at it with the copy
      already made. */
  predicate Done(s: State, e: nat, c: nat, v: nat)
    requires Builds(s, e, c)
  {
    v < Position(s.envs[e].fork) || CallOf(s, e) == Copied(c, v)
  }

  /** Not the end of a fork call of e. */
  predicate GoesOn(a: Action, e: nat) {
    a != Exit(e) && a != ForkStart(e)
  }

  lemma OtherFork(s: State, a: Action, e: nat, c: nat)
    requires Inv(s) && Enabled(s, a) && Builds(s, e, c) && a.e != e
    ensures Builds(Next(s, a), e, c) && Next(s, a).envs[e].fork == s.envs[e].fork
  {
  }

  lemma OwnFork(s: State, a: Action, e: nat, c: nat)
    requires Inv(s) && Enabled(s, a) && Builds(s, e, c) && a.e == e && GoesOn(a, e)
    ensures Builds(Next(s, a), e, c)
    ensures Position(s.envs[e].fork) <= Position(Next(s, a).envs[e].fork) <= Position(s.envs[e].fork) + 1
    ensures a.ForkScan? || a.ForkMapChild? || a.ForkMapSelf? || a.ForkStack? ||
            Next(s, a).envs[e].fork == s.envs[e].fork
    ensures a.ForkStack? ==> Position(Next(s, a).envs[e].fork) == Position(s.envs[e].fork)
    ensures !a.Alloc? && !a.Unmap? && !a.ForkBegin?
  {
  }

  /** Until the call returns or the parent exits it goes on, page by page. */
  lemma StaysBuilding(s: State, a: Action, e: nat, c: nat)
    requires Inv(s) && Enabled(s, a) && Builds(s, e, c) && GoesOn(a, e)
    ensures Builds(Next(s, a), e, c)
    ensures Position(s.envs[e].fork) <= Position(Next(s, a).envs[e].fork)
  {
    if a.e == e {
      OwnFork(s, a, e, c);
    } else {
      OtherFork(s, a, e, c);
    }
  }

  /** Nobody touches a page that the child has had its copy of. */
  lemma DoneSafe(s: State, a: Action, e: nat, c: nat, v: nat)
    requires Inv(s) && Enabled(s, a) && Builds(s, e, c) && GoesOn(a, e) && Done(s, e, c, v)
    ensures SafeFor(s, a, Slot(c, v))
  {
    assert ForkOk(s, e);
    if a.e != e && a.e in s.envs && s.envs[a.e].fork != NoFork {
      OneParent(s, e, a.e);
    }
  }

  /** Steps of e that are not about its duppage call. */
  lemma CallStays(s: State, a: Action, e: nat)
    requires Inv(s) && Enabled(s, a) && a.e == e
    requires a.Write? || a.TakeFault? || a.FaultAlloc? || a.FaultCopy? || a.FaultUnmap?
    ensures CallOf(Next(s, a), e) == CallOf(s, e)
  {
    StepRefines(s, a);
    AbsMem(s);
    AbsMem(Next(s, a));
    if Shadow(s, a) != [] {
      assert Shadow(s, a)[1..] == [];
    }
  }

  /** A copy once made stays made, and stays as it is. */
  lemma DoneStays(s: State, a: Action, e: nat, c: nat, v: nat)
    requires Inv(s) && Enabled(s, a) && Builds(s, e, c) && GoesOn(a, e) && Done(s, e, c, v)
    ensures Builds(Next(s, a), e, c) && Done(Next(s, a), e, c, v)
    ensures SameImage(Abs(Next(s, a)).mem, Slot(c, v), Abs(s).mem, Slot(c, v))
  {
    DoneSafe(s, a, e, c, v);
    StepSpares(s, a, Slot(c, v));
    StaysBuilding(s, a, e, c);
    if v >= Position(s.envs[e].fork) {
      if a.e != e {
        StepCalls(s, a, e);
      } else {
        OwnFork(s, a, e, c);
        match a {
          case FaultMap(_) => FaultMapCalls(s, e);
          case ForkMapSelf(_) =>
          case _ => CallStays(s, a, e);
        }
      }
    }
  }

  /** The step that makes the copy of a page happens in the page's own turn, and
      gives the child what the parent sees then. */
  predicate Copies(s: State, s': State, e: nat, c: nat, v: nat) {
    && Builds(s, e, c) && Position(s.envs[e].fork) == v
    && SameImage(Abs(s').mem, Slot(c, v), Abs(s).mem, Slot(e, v))
  }

  lemma CopyMoment(s: State, a: Action, e: nat, c: nat, v: nat)
    requires Inv(s) && Enabled(s, a) && Builds(s, e, c) && GoesOn(a, e) && UserPage(v)
    requires !Done(s, e, c, v) && Builds(Next(s, a), e, c) && Done(Next(s, a), e, c, v)
    ensures Copies(s, Next(s, a), e, c, v)
  {
    if a.e != e {
      OtherFork(s, a, e, c);
      StepCalls(s, a, e);
    } else {
      OwnFork(s, a, e, c);
      match a {
        case ForkScan(_) => ScanCopies(s, e, c, v);
        case ForkMapChild(_) => MapChildCopies(s, e, c, v);
        case ForkMapSelf(_) => MapSelfCopies(s, e, c, v);
        case FaultMap(_) => FaultMapCopies(s, e, c, v);
        case ForkStack(_, _) =>
        case _ => CallStays(s, a, e);
      }
    }
  }

  /** A page that is absent in the parent stays absent in the child. */
  lemma ScanCopies(s: State, e: nat, c: nat, v: nat)
    requires Inv(s) && Enabled(s, ForkScan(e)) && Builds(s, e, c) && !Done(s, e, c, v)
    requires Builds(Next(s, ForkScan(e)), e, c) && Done(Next(s, ForkScan(e)), e, c, v)
    ensures Copies(s, Next(s, ForkScan(e)), e, c, v)
  {
    assert ForkOk(s, e);
    if !Mapped(s, e, s.envs[e].fork.v) {
      QuietForkRefines(s, ForkScan(e));
      AbsMem(s);
    }
  }

  lemma MapChildDone(s: State, e: nat, c: nat, v: nat)
    requires Inv(s) && Enabled(s, ForkMapChild(e)) && Builds(s, e, c)
    ensures var Dup(_, w, cow) := s.envs[e].fork;
            && Builds(Next(s, ForkMapChild(e)), e, c)
            && (Done(Next(s, ForkMapChild(e)), e, c, v) <==> v < w || (v == w && !cow))
            && (Done(s, e, c, v) <==> v < w)
  {
    MapChildCalls(s, e);
  }

  lemma MapChildCopies(s: State, e: nat, c: nat, v: nat)
    requires Inv(s) && Enabled(s, ForkMapChild(e)) && Builds(s, e, c) && !Done(s, e, c, v)
    requires Builds(Next(s, ForkMapChild(e)), e, c) && Done(Next(s, ForkMapChild(e)), e, c, v)
    ensures Copies(s, Next(s, ForkMapChild(e)), e, c, v)
  {
    MapChildDone(s, e, c, v);
    MapChildPages(s, e);
    PageCopiedMem(s, Next(s, ForkMapChild(e)), Slot(e, v), Slot(c, v));
  }

  lemma MapSelfCopies(s: State, e: nat, c: nat, v: nat)
    requires Inv(s) && Enabled(s, ForkMapSelf(e)) && Builds(s, e, c) && !Done(s, e, c, v)
    requires Builds(Next(s, ForkMapSelf(e)), e, c) && Done(Next(s, ForkMapSelf(e)), e, c, v)
    ensures Copies(s, Next(s, ForkMapSelf(e)), e, c, v)
  {
    MapSelfPages(s, e);
    PageCopiedMem(s, Next(s, ForkMapSelf(e)), Slot(e, v), Slot(c, v));
  }

  lemma FaultMapCopies(s: State, e: nat, c: nat, v: nat)
    requires Inv(s) && Enabled(s, FaultMap(e)) && Builds(s, e, c) && !Done(s, e, c, v)
    requires Builds(Next(s, FaultMap(e)), e, c) && Done(Next(s, FaultMap(e)), e, c, v)
    ensures Copies(s, Next(s, FaultMap(e)), e, c, v)
  {
    FaultMapCalls(s, e);
    FaultMapPages(s, e);
    PageCopiedMem(s, Next(s, FaultMap(e)), Slot(e, v), Slot(c, v));
  }

  // ------------------------------------------------------------------ whole runs

  ghost predicate Steps(s: State, a: Action, s': State) {
    Inv(s) && Enabled(s, a) && s' == Next(s, a)
  }

  ghost predicate StepOf(ss: seq<State>, run: seq<Action>, k: nat)
    requires k < |run| && |ss| == |run| + 1
  {
    Steps(ss[k], run[k], ss[k + 1])
  }

  /** The actions of run lead through the states ss. */
  ghost predicate Trace(ss: seq<State>, run: seq<Action>) {
    && |ss| == |run| + 1 && Inv(ss[0])
    && forall k: nat :: k < |run| ==> StepOf(ss, run, k)
  }

  /** One more step. */
  lemma TraceOn(ss: seq<State>, run: seq<Action>, a: Action)
    requires Trace(ss, run) && Inv(ss[|run|]) && Enabled(ss[|run|], a)
    ensures Trace(ss + [Next(ss[|run|], a)], run + [a])
  {
    var ss', run' := ss + [Next(ss[|run|], a)], run + [a];
    forall k: nat | k < |run'| ensures StepOf(ss', run', k) {
      if k < |run| {
        assert StepOf(ss, run, k);
        assert ss'[k] == ss[k] && run'[k] == run[k] && ss'[k + 1] == ss[k + 1];
      } else {
        assert Steps(ss[k], a, Next(ss[k], a));
        assert ss'[k] == ss[k] && run'[k] == a && ss'[k + 1] == Next(ss[k], a);
      }
    }
  }

  lemma StepBefore(s: State, run: seq<Action>, rest: seq<State>, k: nat)
    requires run != [] && k < |run| && |rest| == |run| && Steps(s, run[0], rest[0])
    requires k > 0 ==> StepOf(rest, run[1..], k - 1)
    ensures StepOf([s] + rest, run, k)
  {
    var ss := [s] + rest;
    if k > 0 {
      assert ss[k] == rest[k - 1] && run[k] == run[1..][k - 1] && ss[k + 1] == rest[k];
    }
  }

  lemma TraceBefore(s: State, run: seq<Action>, rest: seq<State>)
    requires run != [] && Trace(rest, run[1..]) && Steps(s, run[0], rest[0])
    ensures Trace([s] + rest, run)
  {
    forall k: nat | k < |run| ensures StepOf([s] + rest, run, k) {
      assert k > 0 ==> StepOf(rest, run[1..], k - 1);
      StepBefore(s, run, rest, k);
    }
    assert ([s] + rest)[0] == s;
  }

  /** Every run has its states. */
  lemma {:induction false} RunHasTrace(s: State, run: seq<Action>) returns (ss: seq<State>)
    requires Inv(s) && Possible(s, run)
    ensures Trace(ss, run) && ss[0] == s && ss[|run|] == End(s, run)
    decreases |run|
  {
    ss := [s];
    if run != [] {
      StepKeeps(s, run[0]);
      var rest := RunHasTrace(Next(s, run[0]), run[1..]);
      TraceBefore(s, run, rest);
      ss := [s] + rest;
    }
  }

  /** A run that begins with e calling fork, the child being c, and during which the
      call does not return and e does not exit.  Nothing is asked of other actions,
      those of e included. */
  ghost predicate ForkCall(ss: seq<State>, run: seq<Action>, e: nat, c: nat) {
    && Trace(ss, run) && run != [] && run[0] == ForkBegin(e, c)
    && forall i :: 1 <= i < |run| ==> GoesOn(run[i], e)
  }

  lemma {:induction false} InCall(ss: seq<State>, run: seq<Action>, e: nat, c: nat, k: nat)
    requires ForkCall(ss, run, e, c) && 1 <= k <= |run|
    ensures Builds(ss[k], e, c)
    decreases k
  {
    assert StepOf(ss, run, k - 1);
    if k > 1 {
      InCall(ss, run, e, c, k - 1);
      StaysBuilding(ss[k - 1], run[k - 1], e, c);
    }
  }

  /** The loop goes through the pages in order. */
  lemma {:induction false} PagesInOrder(ss: seq<State>, run: seq<Action>, e: nat, c: nat, j: nat, k: nat)
    requires ForkCall(ss, run, e, c) && 1 <= j <= k <= |run|
    ensures Builds(ss[j], e, c) && Builds(ss[k], e, c)
    ensures Position(ss[j].envs[e].fork) <= Position(ss[k].envs[e].fork)
    decreases k - j
  {
    InCall(ss, run, e, c, j);
    if j < k {
      PagesInOrder(ss, run, e, c, j, k - 1);
      assert StepOf(ss, run, k - 1);
      StaysBuilding(ss[k - 1], run[k - 1], e, c);
    }
  }

  /** Page v of the child is, in m, what the parent saw in state j of the run, when
      the loop was at page v. */
  ghost predicate CopyOfState(ss: seq<State>, e: nat, c: nat, v: nat, m: map<Slot, Image>, j: nat) {
    && 1 <= j < |ss| && Builds(ss[j], e, c) && Position(ss[j].envs[e].fork) == v
    && SameImage(m, Slot(c, v), Abs(ss[j]).mem, Slot(e, v))
  }

  lemma NothingDone(s: State, e: nat, c: nat, v: nat)
    requires Inv(s) && Enabled(s, ForkBegin(e, c))
    ensures Builds(Next(s, ForkBegin(e, c)), e, c) && !Done(Next(s, ForkBegin(e, c)), e, c, v)
  {
  }

  lemma StepDone(s: State, a: Action, e: nat, c: nat, v: nat)
    requires Inv(s) && Enabled(s, a) && Builds(s, e, c) && GoesOn(a, e) && UserPage(v)
    requires Builds(Next(s, a), e, c) && Done(Next(s, a), e, c, v)
    ensures if Done(s, e, c, v) then SameImage(Abs(Next(s, a)).mem, Slot(c, v), Abs(s).mem, Slot(c, v))
            else Copies(s, Next(s, a), e, c, v)
  {
    if Done(s, e, c, v) {
      DoneStays(s, a, e, c, v);
    } else {
      CopyMoment(s, a, e, c, v);
    }
  }

  lemma DoneOrCopied(ss: seq<State>, run: seq<Action>, e: nat, c: nat, v: nat, k: nat)
    requires ForkCall(ss, run, e, c) && 1 <= k <= |run| && UserPage(v)
    requires Builds(ss[k], e, c) && Done(ss[k], e, c, v)
    ensures 1 < k && Builds(ss[k - 1], e, c)
    ensures if Done(ss[k - 1], e, c, v) then SameImage(Abs(ss[k]).mem, Slot(c, v), Abs(ss[k - 1]).mem, Slot(c, v))
            else Copies(ss[k - 1], ss[k], e, c, v)
  {
    assert StepOf(ss, run, k - 1);
    if k == 1 {
      NothingDone(ss[0], e, c, v);
    } else {
      InCall(ss, run, e, c, k - 1);
      StepDone(ss[k - 1], run[k - 1], e, c, v);
    }
  }

  /** At any point of the call, each page that has had its copy is what the parent
      saw at one earlier moment, in the page's own turn. */
  lemma {:induction false} CopiedInTurn(ss: seq<State>, run: seq<Action>, e: nat, c: nat, v: nat, k: nat)
    returns (j: nat)
    requires ForkCall(ss, run, e, c) && 1 <= k <= |run| && UserPage(v)
    requires Builds(ss[k], e, c) && Done(ss[k], e, c, v)
    ensures j < k && CopyOfState(ss, e, c, v, Abs(ss[k]).mem, j)
    decreases k
  {
    DoneOrCopied(ss, run, e, c, v, k);
    j := k - 1;
    if Done(ss[k - 1], e, c, v) {
      j := CopiedInTurn(ss, run, e, c, v, k - 1);
    }
  }

  /** When fork starts the child, the child has every page of its parent: each as
      the parent saw it at one moment of the page's own turn, whatever the parent
      and everybody else have done meanwhile. */
  lemma ForkCopiesEveryPage(ss: seq<State>, run: seq<Action>, e: nat, c: nat)
    requires ForkCall(ss, run, e, c) && Inv(ss[|run|]) && Enabled(ss[|run|], ForkStart(e))
    ensures Runs(Next(ss[|run|], ForkStart(e)), c)
    ensures forall v: nat :: UserPage(v) ==>
              exists j :: CopyOfState(ss, e, c, v, Abs(Next(ss[|run|], ForkStart(e))).mem, j)
  {
    var x := ss[|run|];
    InCall(ss, run, e, c, |run|);
    QuietForkRefines(x, ForkStart(e));
    forall v: nat | UserPage(v) ensures exists j :: CopyOfState(ss, e, c, v, Abs(Next(x, ForkStart(e))).mem, j) {
      var j := CopiedInTurn(ss, run, e, c, v, |run|);
    }
  }

  // -------------------------------------------------------- the child's exception stack

  /** c has an exception stack: a zeroed page it can write, mapped by nobody else. */
  ghost predicate HasStack(s: State, c: nat) {
    && Mapped(s, c, UX_VPN) && s.pte[Slot(c, UX_VPN)].w && !s.pte[Slot(c, UX_VPN)].cow
    && var q := s.pte[Slot(c, UX_VPN)].ppn;
       && q in s.phys && s.phys[q] == Zeros()
       && (forall a :: a in s.pte && a != Slot(c, UX_VPN) ==> s.pte[a].ppn != q)
  }

  /** c maps nothing but what fork copies and an exception stack. */
  ghost predicate OnlyCopies(s: State, c: nat) {
    forall v: nat :: Mapped(s, c, v) ==> v < USTACK_VPN || v == UX_VPN
  }

  ghost predicate StackMade(s: State, e: nat, c: nat)
    requires Builds(s, e, c)
  {
    s.envs[e].fork.Ready? ==> HasStack(s, c) && OnlyCopies(s, c)
  }

  lemma NothingMadeYet(s: State, e: nat, c: nat)
    requires Inv(s) && Enabled(s, ForkBegin(e, c))
    ensures Builds(Next(s, ForkBegin(e, c)), e, c) && StackMade(Next(s, ForkBegin(e, c)), e, c)
  {
  }

  lemma StackOnly(s: State, a: Action, e: nat, c: nat)
    requires Inv(s) && Enabled(s, a) && Builds(s, e, c) && GoesOn(a, e)
    requires s.envs[e].fork.Ready? ==> OnlyCopies(s, c)
    requires a.e != e && a.e in s.envs && s.envs[a.e].fork != NoFork ==> s.envs[a.e].fork.child != c
    ensures e in Next(s, a).envs && (Next(s, a).envs[e].fork.Ready? ==> OnlyCopies(Next(s, a), c))
  {
    var s' := Next(s, a);
    assert ForkOk(s, e) && IdleOk(s, c);
    if s'.envs[e].fork.Ready? {
      forall v: nat | Mapped(s', c, v) ensures v < USTACK_VPN || v == UX_VPN {
        assert Mapped(s, c, v) || v == UX_VPN;
      }
    }
  }

  lemma StackOwn(s: State, a: Action, e: nat, c: nat)
    requires Inv(s) && Enabled(s, a) && Builds(s, e, c) && GoesOn(a, e) && a.e == e
    requires s.envs[e].fork.Ready? ==> HasStack(s, c)
    ensures e in Next(s, a).envs && (Next(s, a).envs[e].fork.Ready? ==> HasStack(Next(s, a), c))
  {
    assert ForkOk(s, e);
  }

  lemma StackOther(s: State, a: Action, e: nat, c: nat)
    requires Inv(s) && Enabled(s, a) && Builds(s, e, c) && a.e != e && HasStack(s, c)
    requires a.e in s.envs && s.envs[a.e].fork != NoFork ==> s.envs[a.e].fork.child != c
    ensures HasStack(Next(s, a), c)
  {
    assert ForkOk(s, e) && IdleOk(s, c);
  }

  /** Once the child has its stack nobody touches it before the child runs. */
  lemma StackStays(s: State, a: Action, e: nat, c: nat)
    requires Inv(s) && Enabled(s, a) && Builds(s, e, c) && GoesOn(a, e) && StackMade(s, e, c)
    ensures Builds(Next(s, a), e, c) && StackMade(Next(s, a), e, c)
  {
    StaysBuilding(s, a, e, c);
    if a.e == e {
      StackOwn(s, a, e, c);
    } else {
      if a.e in s.envs && s.envs[a.e].fork != NoFork {
        OneParent(s, e, a.e);
      }
      OtherFork(s, a, e, c);
      if s.envs[e].fork.Ready? {
        StackOther(s, a, e, c);
      }
    }
    StackOnly(s, a, e, c);
  }

  lemma {:induction false} StackInCall(ss: seq<State>, run: seq<Action>, e: nat, c: nat, k: nat)
    requires ForkCall(ss, run, e, c) && 1 <= k <= |run|
    ensures Builds(ss[k], e, c) && StackMade(ss[k], e, c)
    decreases k
  {
    assert StepOf(ss, run, k - 1);
    if k == 1 {
      NothingMadeYet(ss[0], e, c);
    } else {
      StackInCall(ss, run, e, c, k - 1);
      InCall(ss, run, e, c, k - 1);
      StackStays(ss[k - 1], run[k - 1], e, c);
    }
  }

  /** When fork starts the child, the child has an exception stack of its own, and
      maps nothing else besides its copies. */
  lemma ChildGetsStack(ss: seq<State>, run: seq<Action>, e: nat, c: nat)
    requires ForkCall(ss, run, e, c) && Inv(ss[|run|]) && Enabled(ss[|run|], ForkStart(e))
    ensures HasStack(Next(ss[|run|], ForkStart(e)), c) && OnlyCopies(Next(ss[|run|], ForkStart(e)), c)
  {
    InCall(ss, run, e, c, |run|);
    StackInCall(ss, run, e, c, |run|);
    forall v: nat | Mapped(Next(ss[|run|], ForkStart(e)), c, v) ensures v < USTACK_VPN || v == UX_VPN {
      assert Mapped(ss[|run|], c, v);
    }
  }

  // ------------------------------------------------------ pages the parent leaves alone

  /** The parent does not write page v during the call. */
  predicate Unwritten(run: seq<Action>, e: nat, v: nat) {
    forall i :: 0 <= i < |run| ==> !(run[i].Write? && run[i].e == e && run[i].v == v)
  }

  lemma ParentSafe(s: State, a: Action, e: nat, c: nat, v: nat)
    requires Inv(s) && Enabled(s, a) && (a == ForkBegin(e, c) || (Builds(s, e, c) && GoesOn(a, e)))
    requires !(a.Write? && a.e == e && a.v == v)
    ensures SameImage(Abs(Next(s, a)).mem, Slot(e, v), Abs(s).mem, Slot(e, v))
  {
    assert ForkOk(s, e) && IdleOk(s, e);
    assert a.e in s.envs ==> ForkOk(s, a.e);
    StepSpares(s, a, Slot(e, v));
  }

  lemma {:induction false} ParentKeeps(ss: seq<State>, run: seq<Action>, e: nat, c: nat, v: nat, k: nat)
    requires ForkCall(ss, run, e, c) && Unwritten(run, e, v) && k <= |run|
    ensures SameImage(Abs(ss[k]).mem, Slot(e, v), Abs(ss[0]).mem, Slot(e, v))
    decreases k
  {
    if k > 0 {
      ParentKeeps(ss, run, e, c, v, k - 1);
      assert StepOf(ss, run, k - 1);
      if k > 1 {
        InCall(ss, run, e, c, k - 1);
      }
      ParentSafe(ss[k - 1], run[k - 1], e, c, v);
    }
  }

  /** So every page the parent does not write while fork runs is in the child what
      it was in the parent when it called fork, and the parent still sees it. */
  lemma ForkIsSnapshot(ss: seq<State>, run: seq<Action>, e: nat, c: nat, v: nat)
    requires ForkCall(ss, run, e, c) && Inv(ss[|run|]) && Enabled(ss[|run|], ForkStart(e))
    requires UserPage(v) && Unwritten(run, e, v)
    ensures var t := Abs(Next(ss[|run|], ForkStart(e))).mem;
            && SameImage(t, Slot(c, v), Abs(ss[0]).mem, Slot(e, v))
            && SameImage(t, Slot(e, v), Abs(ss[0]).mem, Slot(e, v))
  {
    ForkCopiesEveryPage(ss, run, e, c);
    var j :| CopyOfState(ss, e, c, v, Abs(Next(ss[|run|], ForkStart(e))).mem, j);
    ParentKeeps(ss, run, e, c, v, j);
    ParentKeeps(ss, run, e, c, v, |run|);
    QuietForkRefines(ss[|run|], ForkStart(e));
  }

  // --------------------------------------------------------- one page fault of one environment

  /** e is in pgfault for page v; once the copy has been moved there, the page is
      writable. */
  predicate Handling(s: State, e: nat, v: nat) {
    && Runs(s, e)
    && match s.envs[e].fault
       case NoFault => false
       case Entered(u) => u == v
       case Copying(u, k) => u == v
       case Remapped(u) => u == v && Mapped(s, e, v) && s.pte[Slot(e, v)].w
  }

  /** pgfault has returned, and page v is writable. */
  predicate Handled(s: State, e: nat, v: nat) {
    Normal(s, e) && Mapped(s, e, v) && s.pte[Slot(e, v)].w
  }

  /** All the user mappings of e but those of its pages v and PFTEMP. */
  ghost predicate KeepsMappings(s: State, s': State, e: nat, v: nat) {
    forall u: nat :: u != v && u != PFTEMP_VPN ==>
      (Mapped(s', e, u) <==> Mapped(s, e, u)) && (Mapped(s, e, u) ==> s'.pte[Slot(e, u)] == s.pte[Slot(e, u)])
  }

  /** Nobody changes the mappings of another running environment. */
  lemma OthersMap(s: State, a: Action, e: nat)
    requires Inv(s) && Enabled(s, a) && Runs(s, e) && a.e != e
    ensures Next(s, a).envs.Keys >= {e} && Next(s, a).envs[e] == s.envs[e]
    ensures forall u: nat :: Mapped(Next(s, a), e, u) <==> Mapped(s, e, u)
    ensures forall u: nat :: Mapped(s, e, u) ==> Next(s, a).pte[Slot(e, u)] == s.pte[Slot(e, u)]
  {
    assert a.e in s.envs ==> ForkOk(s, a.e);
  }

  /** e sees all its pages as before. */
  ghost predicate SeesSame(s: State, s': State, e: nat) {
    forall u :: UserPage(u) ==> SameImage(Abs(s').mem, Slot(e, u), Abs(s).mem, Slot(e, u))
  }

  lemma HandlingMap(s: State, a: Action, e: nat, v: nat)
    requires Inv(s) && Enabled(s, a) && Handling(s, e, v) && a != Exit(e)
    ensures Handling(Next(s, a), e, v) || Handled(Next(s, a), e, v)
    ensures KeepsMappings(s, Next(s, a), e, v)
  {
    if a.e != e {
      OthersMap(s, a, e);
    }
    assert FaultOk(s, e);
  }

  /** In the handler e writes none of the pages that fork copies. */
  lemma HandlingSafe(s: State, a: Action, e: nat, v: nat, u: nat)
    requires Inv(s) && Enabled(s, a) && Handling(s, e, v) && a != Exit(e) && UserPage(u)
    ensures SafeFor(s, a, Slot(e, u))
  {
    assert a.e in s.envs ==> ForkOk(s, a.e);
  }

  /** During the handler, whatever others do, and the handler itself, nothing that e
      sees of its pages changes, and only page v is remapped; it ends writable. */
  lemma HandlingStep(s: State, a: Action, e: nat, v: nat)
    requires Inv(s) && Enabled(s, a) && Handling(s, e, v) && a != Exit(e)
    ensures Handling(Next(s, a), e, v) || Handled(Next(s, a), e, v)
    ensures KeepsMappings(s, Next(s, a), e, v)
    ensures SeesSame(s, Next(s, a), e)
  {
    HandlingMap(s, a, e, v);
    forall u | UserPage(u) ensures SameImage(Abs(Next(s, a)).mem, Slot(e, u), Abs(s).mem, Slot(e, u)) {
      HandlingSafe(s, a, e, v, u);
      StepSpares(s, a, Slot(e, u));
    }
  }

  lemma FaultTaken(s: State, e: nat, v: nat)
    requires Inv(s) && Enabled(s, TakeFault(e, v))
    ensures var s' := Next(s, TakeFault(e, v));
            Handling(s', e, v) && KeepsMappings(s, s', e, v) && SeesSame(s, s', e)
  {
    HandlerRefines(s, TakeFault(e, v));
  }

  /** From the fault of e on page v on, up to the return of the handler and that
      included: e sees all its pages as it saw them, and only page v is remapped. */
  lemma {:induction false} FaultHidden(ss: seq<State>, run: seq<Action>, e: nat, v: nat, k: nat)
    requires Trace(ss, run) && 1 <= k <= |run| && run[0] == TakeFault(e, v)
    requires forall i :: 1 <= i < |run| ==> run[i] != Exit(e)
    requires forall i :: 1 <= i < k ==> e in ss[i].envs && ss[i].envs[e].fault != NoFault
    ensures Handling(ss[k], e, v) || Handled(ss[k], e, v)
    ensures KeepsMappings(ss[0], ss[k], e, v)
    ensures SeesSame(ss[0], ss[k], e)
    decreases k
  {
    assert StepOf(ss, run, k - 1);
    if k == 1 {
      FaultTaken(ss[0], e, v);
    } else {
      FaultHidden(ss, run, e, v, k - 1);
      HandlingStep(ss[k - 1], run[k - 1], e, v);
    }
  }
}
