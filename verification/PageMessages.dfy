/** Pages in messages over runs of the whole kernel: a receiver finds the sender's page
    exactly where it asked for it. */
module PageMessages {
  import opened Layout
  import K = Kernel
  import S = KernelSafety
  import E = CallEffects
  import opened Paging
  import opened AddressSpace
  import opened PageCalls
  import opened System

  /** What the kernel machine does in an action of the whole. */
  ghost function KernelAct(x: Whole, a: Action): S.Action {
    match a
    case Other(b) => b
    case Work(c, r) => if K.Here(x.k, c) then S.DoWork(c, KernelOp(x, c, r)) else S.DoTrap(c)
  }

  lemma ActIsStep(x: Whole, a: Action)
    requires System.Inv(x) && Enabled(x, a)
    ensures S.Enabled(x.k, KernelAct(x, a)) && Next(x, a).k == S.Next(x.k, KernelAct(x, a))
  {
    if a.Work? && S.Trapped(x.k, a.c) {
      OpCareful(x, a.c, a.r);
    }
  }

  ghost function KernelStates(run: seq<Whole>): (ks: seq<K.State>)
    ensures |ks| == |run| && forall n :: 0 <= n < |run| ==> ks[n] == run[n].k
  {
    seq(|run|, n requires 0 <= n < |run| => run[n].k)
  }

  ghost function KernelActs(run: seq<Whole>, acts: seq<Action>): (ka: seq<S.Action>)
    requires |run| == |acts| + 1
    ensures |ka| == |acts| && forall n :: 0 <= n < |acts| ==> ka[n] == KernelAct(run[n], acts[n])
  {
    seq(|acts|, n requires 0 <= n < |acts| => KernelAct(run[n], acts[n]))
  }

  /** Every run of the whole is a run of the kernel machine: all that is proved of its
      runs holds with real page memory. */
  lemma KernelRun(run: seq<Whole>, acts: seq<Action>)
    requires System.Run(run, acts) && System.Inv(run[0])
    ensures S.Run(KernelStates(run), KernelActs(run, acts)) && S.Inv(KernelStates(run)[0])
  {
    var ks, ka := KernelStates(run), KernelActs(run, acts);
    forall n: nat | n < |ka| ensures S.StepOf(ks, ka, n) {
      InvAlways(run, acts, n);
      assert StepOf(run, acts, n);
      ActIsStep(run[n], acts[n]);
    }
  }

  // ----------------------------------------------------------------- one send

  /** The environment in slot i waits, and the current one of CPU c sends to it. */
  ghost predicate SendsTo(x: Whole, c: nat, i: nat, r: Request) {
    && System.Inv(x) && S.Trapped(x.k, c) && Enabled(x, Work(c, r)) && r.SendMsg?
    && Live(x, i) && x.k.envs[i].recving && r.envid == x.k.envs[i].id
  }

  lemma SentMemory(x: Whole, c: nat, i: nat, r: Request)
    requires SendsTo(x, c, i, r)
    ensures x.k.envs[i].id >= 0 && K.Envid2Env(x.k, c, r.envid, false) == K.Found(i)
    ensures Next(x, Work(c, r)).m ==
            IpcPage(x.m, CurDir(x, c), r.srcva, x.k.envs[i].pgdir, x.k.envs[i].dstva, r.perm).0
    ensures CurDir(x, c) in x.m.dirs && x.k.envs[i].pgdir in x.m.dirs
    ensures Countable(x.m, CurDir(x, c), r.srcva, x.k.envs[i].pgdir, x.k.envs[i].dstva)
    ensures x.k.envs[i].dstva < UTOP ==> PGOFF(x.k.envs[i].dstva) == 0
  {
    E.PermissionIff(x.k, c, i);
    SendMemory(x, c, r.envid, r.value, r.srcva, r.perm);
    SendPlace(x, c, r.envid);
  }

  /** The sender's result is 0 exactly when the page part went through. */
  lemma SentResult(x: Whole, c: nat, i: nat, r: Request)
    requires SendsTo(x, c, i, r)
    ensures K.Here(Next(x, Work(c, r)).k, c)
    ensures Next(x, Work(c, r)).k.envs[x.k.cpus[c].cur.at].eax == 0 <==>
            IpcPage(x.m, CurDir(x, c), r.srcva, x.k.envs[i].pgdir, x.k.envs[i].dstva, r.perm).1 == OK
  {
    E.PermissionIff(x.k, c, i);
    E.SendEffect(x.k, c, i, KernelOp(x, c, r));
    SendAgrees(x, c, r.envid, r.value, r.srcva, r.perm);
  }

  /** A send that returns 0 to a receiver that wants a page: the sender's page, with the
      permissions the sender gave, is where the receiver wants it, and no other mapping
      of anybody has changed. */
  lemma PageArrives(x: Whole, c: nat, i: nat, r: Request)
    requires SendsTo(x, c, i, r) && r.srcva < UTOP && x.k.envs[i].dstva < UTOP
    requires K.Here(Next(x, Work(c, r)).k, c) && Next(x, Work(c, r)).k.envs[x.k.cpus[c].cur.at].eax == 0
    ensures var m' := Next(x, Work(c, r)).m;
            var w := Translate(x.m, CurDir(x, c), r.srcva / 4096);
            && Present(w) && x.k.envs[i].pgdir in x.m.dirs && m'.dirs == x.m.dirs
            && Translate(m', x.k.envs[i].pgdir, x.k.envs[i].dstva / 4096) == Word(w.ppn, r.perm.flags)
            && FlatUpdate(x.m, m', x.k.envs[i].pgdir, x.k.envs[i].dstva / 4096, Word(w.ppn, r.perm.flags))
  {
    SentMemory(x, c, i, r);
    SentResult(x, c, i, r);
    assert PGNUM(r.srcva) == r.srcva / 4096 && PGNUM(x.k.envs[i].dstva) == x.k.envs[i].dstva / 4096;
    MapPage(x.m, CurDir(x, c), r.srcva, x.k.envs[i].pgdir, x.k.envs[i].dstva, r.perm.flags);
  }

  /** Otherwise no page moves. */
  lemma NoPageMoves(x: Whole, c: nat, i: nat, r: Request)
    requires SendsTo(x, c, i, r) && (r.srcva >= UTOP || x.k.envs[i].dstva >= UTOP)
    ensures Next(x, Work(c, r)).m == x.m
  {
    SentMemory(x, c, i, r);
  }

  // ------------------------------------------------------- from receive to send

  /** In every run: when an environment has called receive with an address below UTOP,
      the send that ends its wait, if it carries a page, puts the sender's page at that
      address. */
  lemma PageArrivesWhereAsked(run: seq<Whole>, acts: seq<Action>, i: nat, dstva: nat, m: nat, n: nat)
    requires System.Run(run, acts) && System.Inv(run[0]) && m < n < |acts| && dstva < UTOP
    requires E.Asks(run[m].k, KernelAct(run[m], acts[m]), i, dstva)
    requires forall j :: m < j <= n ==> E.Waiting(run[j].k, i)
    requires acts[n].Work? && SendsTo(run[n], acts[n].c, i, acts[n].r) && acts[n].r.srcva < UTOP
    requires K.Here(run[n + 1].k, acts[n].c) && run[n + 1].k.envs[run[n].k.cpus[acts[n].c].cur.at].eax == 0
    ensures var x, c, r := run[n], acts[n].c, acts[n].r;
            Translate(run[n + 1].m, x.k.envs[i].pgdir, dstva / 4096) ==
            Word(Translate(x.m, CurDir(x, c), r.srcva / 4096).ppn, r.perm.flags)
  {
    WantedHere(run, acts, i, dstva, m, n);
    assert StepOf(run, acts, n);
    PageArrives(run[n], acts[n].c, i, acts[n].r);
  }

  lemma WantedHere(run: seq<Whole>, acts: seq<Action>, i: nat, dstva: nat, m: nat, n: nat)
    requires System.Run(run, acts) && System.Inv(run[0]) && m < n < |run|
    requires E.Asks(run[m].k, KernelAct(run[m], acts[m]), i, dstva)
    requires forall j :: m < j <= n ==> E.Waiting(run[j].k, i)
    ensures i < |run[n].k.envs| && run[n].k.envs[i].dstva == dstva
  {
    KernelRun(run, acts);
    E.WantedPageKept(KernelStates(run), KernelActs(run, acts), i, dstva, m, n);
  }
}
