/** Exactly when releasing a failed transaction restores every reference and count: a condition on the
    objects of the list and the state before the transaction. */
module UnwindExactly {
  import opened SizeMath
  import opened NodeRefs
  import opened NodeRuns
  import opened Unwind

  // ---------- what an object does to the target's references ----------

  /** An object goes to the target as its own node again, or as a reference to `node`; `counts` says
      whether the reference's count is incremented. */
  datatype Resolved = Local | ToRef(node: Nid, counts: bool)

  predicate HoldsWeakly(s: State, o: Pid, n: Nid) {
    (o, n) in s.byNode && Handle(o, s.byNode[(o, n)]) in s.refs && s.refs[Handle(o, s.byNode[(o, n)])].weak > 0
  }

  /** A handle counts if it is strong, if the node's owner lives or was told of the node, or if the target
      holds it weakly already. */
  function Resolve(s: State, o: Pid, p: Pid, put: Put): Resolved {
    match put
    case BinderOf(n, _, _) => ToRef(n, true)
    case HandleTo(desc, _, strong) =>
      if Handle(p, desc) !in s.refs || s.refs[Handle(p, desc)].node !in s.nodes then Local
      else
        var n := s.refs[Handle(p, desc)].node;
        var x := s.nodes[n];
        if x.owner == Some(o) then Local else ToRef(n, strong || x.owner.Some? || x.hasWeak || HoldsWeakly(s, o, n))
  }

  ghost function ResolvedAll(s: State, b: Bid, o: Pid, p: Pid, puts: seq<Put>): seq<Resolved>
    requires Translates(s, b, p, puts)
    decreases |puts|
  {
    if puts == [] then []
    else [Resolve(s, o, p, puts[0])] + ResolvedAll(Apply(s, AsEvent(b, p, puts[0])), b, o, p, puts[1..])
  }

  ghost predicate Names(rs: seq<Resolved>, n: Nid) {
    exists i :: 0 <= i < |rs| && rs[i].ToRef? && rs[i].node == n
  }

  ghost predicate SomeCounts(rs: seq<Resolved>, n: Nid) {
    exists i :: 0 <= i < |rs| && rs[i] == ToRef(n, true)
  }

  /** A node the target has no reference to needs an object that counts; one that its reference counts
      nothing of must have none. */
  ghost predicate Restorable(s0: State, o: Pid, rs: seq<Resolved>) {
    forall n: Nid :: Names(rs, n) ==>
      if (o, n) in s0.byNode then Zombie(s0, Handle(o, s0.byNode[(o, n)])) ==> !SomeCounts(rs, n) else SomeCounts(rs, n)
  }

  // ---------- references follow the objects ----------

  ghost predicate TallyOk(s0: State, s: State, o: Pid, rs: seq<Resolved>, k: Handle) {
    && (k in s0.refs ==> k in s.refs && s.refs[k].node == s0.refs[k].node)
    && (k in s.refs && k !in s0.refs ==> k.proc == o && Names(rs, s.refs[k].node))
    && (k in s.refs && k.proc == o ==>
          (Zombie(s, k) <==> !SomeCounts(rs, s.refs[k].node) && (k in s0.refs ==> Zombie(s0, k))))
    && (k in s.refs && k.proc != o ==> k in s0.refs && s.refs[k] == s0.refs[k])
  }

  ghost predicate Tallied(s0: State, s: State, o: Pid, rs: seq<Resolved>) {
    && (forall k {:trigger TallyOk(s0, s, o, rs, k)} :: TallyOk(s0, s, o, rs, k))
    && (forall n: Nid :: Names(rs, n) ==> (o, n) in s.byNode)
  }

  lemma Append(rs: seq<Resolved>, r: Resolved, n: Nid)
    ensures Names(rs + [r], n) <==> Names(rs, n) || (r.ToRef? && r.node == n)
    ensures SomeCounts(rs + [r], n) <==> SomeCounts(rs, n) || r == ToRef(n, true)
    ensures SomeCounts(rs, n) ==> Names(rs, n)
  {
    var t := rs + [r];
    if i :| 0 <= i < |rs| && rs[i].ToRef? && rs[i].node == n {
      assert t[i].ToRef? && t[i].node == n;
    }
    if i :| 0 <= i < |rs| && rs[i] == ToRef(n, true) {
      assert t[i] == ToRef(n, true) && rs[i].ToRef? && rs[i].node == n;
    }
    if r.ToRef? && r.node == n {
      assert t[|rs|].ToRef? && t[|rs|].node == n;
    }
  }

  /** The references after an object was resolved. */
  ghost predicate RefsFollow(s: State, s': State, o: Pid, put: Put, r: Resolved) {
    match r
    case Local => s'.refs == s.refs
    case ToRef(n, counts) =>
      && Handle(o, put.d) !in s.refs
      && s'.refs == if counts then Raised(s, o, n, put.d, put.strong) else WithRef(s, o, n, put.d).refs
  }

  lemma PutBinderRefs(s: State, b: Bid, p: Pid, n: Nid, d: nat, strong: bool)
    requires Inv(s) && Enabled(s, PutBinder(b, p, n, d, strong))
    ensures RefsFollow(s, PutBinderOf(s, b, p, n, d, strong), s.bufs[b].owner, BinderOf(n, d, strong), ToRef(n, true))
  {
    hide IncNode, AddRef, WeakNow, StrongNow, NodesOk, BufsOk, RefsOk, NodeStep;
    var o := s.bufs[b].owner;
    LeastUnused(s, o, Start(s, n), d);
    var s1 := if n in s.nodes then s else NewNode(s, n, p);
    if n !in s.nodes { NewNodeKeeps(s, n, p); }
    ListAlwaysCounts(s1, o, n, d, strong);
    AddRefEither(s1, o, n, d, strong, true);
  }

  lemma PutHandleRefs(s: State, b: Bid, p: Pid, desc: nat, d: nat, strong: bool)
    requires Inv(s) && Enabled(s, PutHandle(b, p, desc, d, strong))
    ensures var o, put := s.bufs[b].owner, HandleTo(desc, d, strong);
            RefsFollow(s, PutHandleOf(s, b, p, desc, d, strong), o, put, Resolve(s, o, p, put))
  {
    hide IncNode, AddRef, WeakNow, StrongNow, NodesOk, BufsOk, RefsOk, NodeStep;
    var o, n := s.bufs[b].owner, s.refs[Handle(p, desc)].node;
    if s.nodes[n].owner == Some(o) {
      IncFields(s, n, strong, false, false);
    } else {
      LeastUnused(s, o, Start(s, n), d);
      CountsExactly(s, b, p, desc, d, strong);
      SameHandle(s, o, n, d);
      AddRefEither(s, o, n, d, strong, false);
    }
  }

  lemma SameHandle(s: State, o: Pid, n: Nid, d: nat)
    requires Handle(o, d) !in s.refs
    ensures var k := NewHandle(s, o, n, d); (k in s.refs && s.refs[k].weak > 0) <==> HoldsWeakly(s, o, n)
  {
  }

  /** What translating one object does to the references. */
  lemma PutRefs(s: State, b: Bid, p: Pid, put: Put)
    requires Inv(s) && Enabled(s, AsEvent(b, p, put))
    ensures var o := s.bufs[b].owner;
            RefsFollow(s, Apply(s, AsEvent(b, p, put)), o, put, Resolve(s, o, p, put))
  {
    hide Inv, PutBinderOf, PutHandleOf, RefsFollow;
    match put
    case BinderOf(n, d, strong) => PutBinderRefs(s, b, p, n, d, strong);
    case HandleTo(desc, d, strong) => PutHandleRefs(s, b, p, desc, d, strong);
  }

  lemma LeastUnused(s: State, o: Pid, start: nat, d: nat)
    requires IsLeastFree(s, o, start, d)
    ensures Handle(o, d) !in s.refs
  {
  }

  lemma LocalTally(s0: State, s: State, s': State, o: Pid, rs: seq<Resolved>)
    requires Tallied(s0, s, o, rs) && RefsOk(s) && RefsOk(s') && s'.refs == s.refs
    ensures Tallied(s0, s', o, rs + [Local])
  {
    SameIndexes(s, s');
    forall n
      ensures Names(rs + [Local], n) <==> Names(rs, n)
      ensures SomeCounts(rs + [Local], n) <==> SomeCounts(rs, n)
    {
      Append(rs, Local, n);
    }
    hide Names, SomeCounts;
    forall k
      ensures TallyOk(s0, s', o, rs + [Local], k)
    {
      assert TallyOk(s0, s, o, rs, k);
    }
  }

  lemma RefTally(s0: State, s: State, s': State, o: Pid, rs: seq<Resolved>, n: Nid, d: nat, strong: bool,
          counts: bool, j: Handle)
    requires Tallied(s0, s, o, rs) && RefsOk(s) && Handle(o, d) !in s.refs
    requires forall k :: k in s.refs ==> s.refs[k].strong >= 0 && s.refs[k].weak >= 0
    requires s'.refs == if counts then Raised(s, o, n, d, strong) else WithRef(s, o, n, d).refs
    ensures TallyOk(s0, s', o, rs + [ToRef(n, counts)], j)
  {
    var r, k := ToRef(n, counts), NewHandle(s, o, n, d);
    assert TallyOk(s0, s, o, rs, j) && TallyOk(s0, s, o, rs, k);
    Append(rs, r, n);
    if j in s.refs { Append(rs, r, s.refs[j].node); }
    hide Names, SomeCounts;
    if j == k {
      assert k !in s.refs ==> !Names(rs, n);
    } else if j in s.refs && j.proc == o {
      assert s.refs[j].node != n;
    }
  }

  lemma RefsTally(s0: State, s: State, s': State, o: Pid, rs: seq<Resolved>, n: Nid, d: nat, strong: bool, counts: bool)
    requires Tallied(s0, s, o, rs) && RefsOk(s) && RefsOk(s') && Handle(o, d) !in s.refs
    requires s'.refs == if counts then Raised(s, o, n, d, strong) else WithRef(s, o, n, d).refs
    ensures Tallied(s0, s', o, rs + [ToRef(n, counts)])
  {
    hide TallyOk;
    var r := ToRef(n, counts);
    forall k
      ensures TallyOk(s0, s', o, rs + [r], k)
    {
      RefTally(s0, s, s', o, rs, n, d, strong, counts, k);
    }
    forall m: Nid | Names(rs + [r], m)
      ensures (o, m) in s'.byNode
    {
      Append(rs, r, m);
      var k := if m == n then NewHandle(s, o, n, d) else Handle(o, s.byNode[(o, m)]);
      assert k in s'.refs && s'.refs[k].node == m;
    }
  }

  lemma PutTally(s0: State, s: State, b: Bid, p: Pid, put: Put, rs: seq<Resolved>)
    requires Inv(s) && Enabled(s, AsEvent(b, p, put)) && Tallied(s0, s, s.bufs[b].owner, rs)
    ensures var o, s' := s.bufs[b].owner, Apply(s, AsEvent(b, p, put));
            Tallied(s0, s', o, rs + [Resolve(s, o, p, put)])
  {
    hide Inv, Tallied, Resolve, Apply;
    var o, s' := s.bufs[b].owner, Apply(s, AsEvent(b, p, put));
    PutRefs(s, b, p, put);
    StepKeeps(s, AsEvent(b, p, put));
    RefsOfInv(s);
    RefsOfInv(s');
    match Resolve(s, o, p, put)
    case Local => LocalTally(s0, s, s', o, rs);
    case ToRef(n, counts) =>
      RefsTally(s0, s, s', o, rs, n, put.d, put.strong, counts);
  }

  lemma {:induction false} TranslatingTallies(s0: State, s: State, b: Bid, o: Pid, p: Pid, puts: seq<Put>,
          rs: seq<Resolved>)
    requires Inv(s0) && Going(s0, s, b) && s.bufs[b].owner == o && Tallied(s0, s, o, rs) && Translates(s, b, p, puts)
    ensures Tallied(s0, Translated(s, b, p, puts), o, rs + ResolvedAll(s, b, o, p, puts))
    decreases |puts|
  {
    hide Inv, Balanced, Enabled, Apply, Resolve, Tallied;
    if puts == [] {
      assert rs + [] == rs;
    } else {
      var r, s' := Resolve(s, o, p, puts[0]), Apply(s, AsEvent(b, p, puts[0]));
      PutBalances(s0, s, b, p, puts[0]);
      PutTally(s0, s, b, p, puts[0], rs);
      TranslatingTallies(s0, s', b, o, p, puts[1..], rs + [r]);
      assert rs + ([r] + ResolvedAll(s', b, o, p, puts[1..])) == rs + [r] + ResolvedAll(s', b, o, p, puts[1..]);
    }
  }

  /** The target's reference to a node is the one it had before, if it had one. */
  lemma OldHandle(s0: State, s: State, o: Pid, rs: seq<Resolved>, k: Handle)
    requires RefsOk(s0) && RefsOk(s) && Tallied(s0, s, o, rs) && k in s.refs && k.proc == o
    ensures (o, s.refs[k].node) in s0.byNode ==> k in s0.refs
  {
    if (o, s.refs[k].node) in s0.byNode {
      assert TallyOk(s0, s, o, rs, Handle(o, s0.byNode[(o, s.refs[k].node)]));
    }
  }

  /** The condition on references is the condition on objects. */
  lemma KeptExactly(s0: State, s: State, o: Pid, rs: seq<Resolved>)
    requires RefsOk(s0) && RefsOk(s) && Tallied(s0, s, o, rs)
    ensures Kept(s0, s) <==> Restorable(s0, o, rs)
  {
    hide Names, SomeCounts;
    if Restorable(s0, o, rs) {
      forall k | k in s.refs
        ensures if k in s0.refs then Zombie(s0, k) ==> Zombie(s, k) else !Zombie(s, k)
      {
        assert TallyOk(s0, s, o, rs, k);
        NamedIfCounted(rs, s.refs[k].node);
        if k.proc == o { OldHandle(s0, s, o, rs, k); }
      }
    }
    if Kept(s0, s) {
      forall n: Nid | Names(rs, n)
        ensures if (o, n) in s0.byNode then Zombie(s0, Handle(o, s0.byNode[(o, n)])) ==> !SomeCounts(rs, n)
            else SomeCounts(rs, n)
      {
        var k := Handle(o, s.byNode[(o, n)]);
        assert TallyOk(s0, s, o, rs, k);
        if (o, n) in s0.byNode {
          assert TallyOk(s0, s, o, rs, Handle(o, s0.byNode[(o, n)]));
        }
      }
    }
  }

  lemma NamedIfCounted(rs: seq<Resolved>, n: Nid)
    ensures SomeCounts(rs, n) ==> Names(rs, n)
  {
    if i :| 0 <= i < |rs| && rs[i] == ToRef(n, true) {
      assert rs[i].ToRef? && rs[i].node == n;
    }
  }

  // ---------- the theorem ----------

  lemma GoingHasBuffer(s0: State, s: State, b: Bid)
    requires Going(s0, s, b)
    ensures b in s.bufs && Inv(s) && Balanced(s0, s, b, {})
  {
  }

  /** Up to the object that fails, and what the objects before it were. */
  lemma Translating(s0: State, b: Bid, p: Pid, e: Event, puts: seq<Put>)
    requires Inv(s0) && IsStart(e, b) && Enabled(s0, e) && Translates(Apply(s0, e), b, p, puts)
    ensures var s1 := Apply(s0, e); b in s1.bufs && Going(s0, Translated(s1, b, p, puts), b)
    ensures var s1 := Apply(s0, e); var o := s1.bufs[b].owner;
            Kept(s0, Translated(s1, b, p, puts)) <==> Restorable(s0, o, ResolvedAll(s1, b, o, p, puts))
  {
    hide Inv, Balanced, Enabled, Apply, Translates, Translated, ResolvedAll, Kept, Restorable, Tallied;
    StartBalances(s0, b, e);
    var s1 := Apply(s0, e);
    GoingHasBuffer(s0, s1, b);
    var o := s1.bufs[b].owner;
    TranslatingBalances(s0, s1, b, p, puts);
    NothingTallied(s0, s1, o);
    TranslatingTallies(s0, s1, b, o, p, puts, []);
    var rs := ResolvedAll(s1, b, o, p, puts);
    assert [] + rs == rs;
    RefsOfInv(s0);
    RefsOfInv(Translated(s1, b, p, puts));
    KeptExactly(s0, Translated(s1, b, p, puts), o, rs);
  }

  lemma NothingTallied(s0: State, s: State, o: Pid)
    requires s.refs == s0.refs && s.byNode == s0.byNode
    ensures Tallied(s0, s, o, [])
  {
    forall k
      ensures TallyOk(s0, s, o, [], k)
    {
    }
  }

  /** A transaction that fails at any object: releasing what was translated before restores every
      reference, every count and both indexes, and frees every node made on the way, exactly if no node
      of the list is left with a reference that the list made and nothing counts, or took over a
      reference that counted nothing before. */
  lemma UnwindRestores(s0: State, b: Bid, p: Pid, e: Event, puts: seq<Put>)
    requires Inv(s0) && IsStart(e, b) && Enabled(s0, e) && Translates(Apply(s0, e), b, p, puts)
    ensures var s1 := Apply(s0, e);
            && b in s1.bufs && b in Translated(s1, b, p, puts).bufs
            && var o, s2 := s1.bufs[b].owner, Translated(s1, b, p, puts);
               && (Restored(s0, Released(s2, b), {}) <==> Restorable(s0, o, ResolvedAll(s1, b, o, p, puts)))
               && Inv(Released(s2, b))
  {
    hide Inv, Apply, Enabled, Translates, Translated, ResolvedAll, Restored, Restorable, Kept, RefsBalanced,
        NodesBalanced;
    Translating(s0, b, p, e, puts);
    GoingHasBuffer(s0, Translated(Apply(s0, e), b, p, puts), b);
    ReleaseRestores(s0, Translated(Apply(s0, e), b, p, puts), b, {});
  }

  /** The same when the failing object had made a node already: that node stays behind, and no other. */
  lemma UnwindLeavesNode(s0: State, b: Bid, p: Pid, e: Event, puts: seq<Put>, n: Nid)
    requires Inv(s0) && IsStart(e, b) && Enabled(s0, e) && Translates(Apply(s0, e), b, p, puts)
    requires n !in s0.nodes && n !in Translated(Apply(s0, e), b, p, puts).nodes
    ensures var s1 := Apply(s0, e);
            && b in s1.bufs && b in Translated(s1, b, p, puts).bufs
            && var o, s2 := s1.bufs[b].owner, NewNode(Translated(s1, b, p, puts), n, p);
               && (Restored(s0, Released(s2, b), {n}) <==> Restorable(s0, o, ResolvedAll(s1, b, o, p, puts)))
               && Inv(Released(s2, b)) && n in Released(s2, b).nodes
  {
    hide Inv, Apply, Enabled, Translates, Translated, ResolvedAll, Restored, Restorable, Kept, RefsBalanced,
        NodesBalanced, Released;
    Translating(s0, b, p, e, puts);
    var s := Translated(Apply(s0, e), b, p, puts);
    GoingHasBuffer(s0, s, b);
    NewNodeBalances(s0, s, b, {}, p, n);
    assert {} + {n} == {n};
    KeptIgnoresNodes(s0, s, NewNode(s, n, p));
    ReleaseRestores(s0, NewNode(s, n, p), b, {n});
    NewNodeStays(s, b, p, n);
  }

  lemma KeptIgnoresNodes(s0: State, s: State, s': State)
    requires s'.refs == s.refs
    ensures Kept(s0, s') <==> Kept(s0, s)
  {
  }

  // ---------- the node left behind ----------

  /** Nothing names the node. */
  ghost predicate Alone(s: State, n: Nid) {
    && n in s.nodes && (forall k :: k in s.refs ==> s.refs[k].node != n)
    && (forall b :: b in s.bufs ==>
          s.bufs[b].target != Some(n) && HeldNode(n, true) !in s.bufs[b].objs && HeldNode(n, false) !in s.bufs[b].objs)
  }

  lemma StepLeavesAlone(s: State, s': State, m: Nid, n: Nid)
    requires NodeStep(s, s', m) && m != n && n in s.nodes
    ensures n in s'.nodes
  {
    assert n in s.nodes - {m};
    assert n in s'.nodes - {m};
  }

  lemma DropLeavesAlone(s: State, b: Bid, i: nat, n: Nid)
    requires Inv(s) && b in s.bufs && i < |s.bufs[b].objs| && Alone(s, n)
    ensures var s' := DropObject(s, b, i);
            Alone(s', n) && s'.bufs == s.bufs[b := s.bufs[b].(objs := s.bufs[b].objs[i := Gone])]
  {
    hide DecNode, DecRef, Inv, NodeStep;
    var t := SetBuffer(s, b, s.bufs[b].(objs := s.bufs[b].objs[i := Gone]));
    var s' := DropObject(s, b, i);
    match s.bufs[b].objs[i]
    case Gone =>
    case HeldNode(m, strong) =>
      assert HeldNode(m, strong) in s.bufs[b].objs;
      if m in t.nodes {
        DecNodeStep(t, m, strong, false);
        StepLeavesAlone(t, s', m, n);
      }
    case HeldRef(desc, strong) =>
      var k := Lookup(t, s.bufs[b].owner, desc, strong);
      if k.Some? && t.refs[k.value].node in t.nodes {
        if if strong then t.refs[k.value].strong != 0 else t.refs[k.value].weak != 0 {
          DecRefEffect(t, k.value, strong);
          StepLeavesAlone(t, s', t.refs[k.value].node, n);
        } else {
          NotLowered(t, k.value, strong);
        }
      }
  }

  lemma NotLowered(s: State, k: Handle, strong: bool)
    requires k in s.refs && s.refs[k].node in s.nodes && (if strong then s.refs[k].strong == 0 else s.refs[k].weak == 0)
    ensures DecRef(s, k, strong) == s
  {
  }

  lemma {:induction false} ReleaseLeavesAlone(s: State, b: Bid, i: nat, n: Nid)
    requires Inv(s) && b in s.bufs && i <= |s.bufs[b].objs| && Alone(s, n)
    ensures n in ReleaseFrom(s, b, i).nodes
    decreases |s.bufs[b].objs| - i
  {
    hide Inv, DropObject;
    if i < |s.bufs[b].objs| {
      DropObjectKeeps(s, b, i);
      DropLeavesAlone(s, b, i, n);
      ReleaseLeavesAlone(DropObject(s, b, i), b, i + 1, n);
    }
  }

  lemma NewNodeStays(s: State, b: Bid, p: Pid, n: Nid)
    requires Inv(s) && Inv(NewNode(s, n, p)) && b in s.bufs && n !in s.nodes
    ensures n in Released(NewNode(s, n, p), b).nodes
  {
    hide DecNode, ReleaseFrom, NodeStep, NodesOk;
    var s1 := NewNode(s, n, p);
    FreshIsAlone(s, n, p);
    var s2 := s1;
    if s1.bufs[b].target.Some? {
      TargetExists(s1, b);
      DropTargetKeeps(s1, b);
      var t := SetBuffer(s1, b, s1.bufs[b].(target := None));
      DecNodeStep(t, s1.bufs[b].target.value, true, false);
      s2 := DropTarget(s1, b);
      StepLeavesAlone(t, s2, s1.bufs[b].target.value, n);
    }
    ReleaseLeavesAlone(s2, b, 0, n);
  }

  lemma FreshIsAlone(s: State, n: Nid, p: Pid)
    requires Inv(s) && n !in s.nodes
    ensures Alone(NewNode(s, n, p), n)
  {
  }

  // ---------- reading the condition off the state before ----------

  /** Between distinct processes, what the objects are can be told before the transaction. */
  lemma {:induction false} ForeseenIsResolved(s0: State, s: State, b: Bid, o: Pid, p: Pid, puts: seq<Put>, i: nat)
    requires Inv(s0) && Going(s0, s, b) && s.bufs[b].owner == o && p != o && Translates(s, b, p, puts) && i < |puts|
    ensures |ResolvedAll(s, b, o, p, puts)| == |puts|
    ensures ResolvedAll(s, b, o, p, puts)[i] == Resolve(s0, o, p, puts[i])
    decreases |puts|
  {
    hide Inv, Going, Enabled, Apply, Resolve;
    var s' := Apply(s, AsEvent(b, p, puts[0]));
    PutBalances(s0, s, b, p, puts[0]);
    ResolvedLength(s', b, o, p, puts[1..]);
    if i == 0 {
      SameResolved(s0, s, b, o, p, puts[0]);
    } else {
      ForeseenIsResolved(s0, s', b, o, p, puts[1..], i - 1);
    }
  }

  lemma {:induction false} ResolvedLength(s: State, b: Bid, o: Pid, p: Pid, puts: seq<Put>)
    requires Translates(s, b, p, puts)
    ensures |ResolvedAll(s, b, o, p, puts)| == |puts|
    decreases |puts|
  {
    hide Enabled, Apply, Resolve;
    if puts != [] {
      ResolvedLength(Apply(s, AsEvent(b, p, puts[0])), b, o, p, puts[1..]);
    }
  }

  /** What was true of the sender's handles and of the target's weak counts still is. */
  lemma SameResolved(s0: State, s: State, b: Bid, o: Pid, p: Pid, put: Put)
    requires Inv(s0) && Going(s0, s, b) && s.bufs[b].owner == o && p != o && Enabled(s, AsEvent(b, p, put))
    ensures Resolve(s, o, p, put) == Resolve(s0, o, p, put)
  {
    hide NodesOk, BufsOk, NodeBalanced, Times;
    match put
    case BinderOf(_, _, _) =>
    case HandleTo(desc, _, strong) =>
      var k := Handle(p, desc);
      assert RefBalanced(s0, s, s, b, k);
      var n := s.refs[k].node;
      SameNode(s0, s, n);
      if (o, n) in s.byNode { assert RefBalanced(s0, s, s, b, Handle(o, s.byNode[(o, n)])); }
      if (o, n) in s0.byNode { assert RefBalanced(s0, s, s, b, Handle(o, s0.byNode[(o, n)])); }
  }

  lemma SameNode(s0: State, s: State, n: Nid)
    requires NodesBalanced(s0, s, {}) && n in s0.nodes && n in s.nodes
    ensures SameRecord(s.nodes[n], s0.nodes[n])
  {
    assert NodeBalanced(s0, s, {}, n);
  }
}
