/** What each reference command and process exit does to references, nodes and buffers, and that nodes of
    processes that are gone do not outlive their references. */
module NodeEffects {
  import opened SizeMath
  import opened NodeRefs
  import opened NodeRuns
  import opened Unwind

  // ---------- deleting references ----------

  /** Nothing but references can keep the node. */
  predicate Unheld(x: Node) {
    x.localStrong == 0 && x.localWeak == 0 && !(x.owner.Some? && (x.hasStrong || x.hasWeak))
  }

  /** What deleting references leaves of a node. */
  predicate SameHolders(x: Node, y: Node) {
    SameRecord(x, y) && x.localStrong == y.localStrong && x.localWeak == y.localWeak
  }

  lemma CountedDown(s: State, n: Nid, strong: bool)
    requires n in s.nodes
    ensures var s' := DecNode(s, n, strong, true);
            && (n in s'.nodes ==> SameHolders(s'.nodes[n], s.nodes[n]))
            && (RefsOf(s, n) != {} ==> n in s'.nodes)
            && (!strong && RefsOf(s, n) == {} ==> (n in s'.nodes <==> !Unheld(s.nodes[n])))
  {
    DecFields(s, n, strong, true);
  }

  /** Deleting a reference frees its node exactly if it was the last one and nothing else keeps the node. */
  lemma DeletedNode(s: State, k: Handle)
    requires Inv(s) && k in s.refs
    ensures s.refs[k].node in s.nodes
    ensures var s', n := DeleteRef(s, k), s.refs[k].node;
            && Inv(s') && s'.refs == s.refs - {k} && s'.bufs == s.bufs && s'.mgr == s.mgr
            && s'.nodes - {n} == s.nodes - {n}
            && (n in s'.nodes ==> SameHolders(s'.nodes[n], s.nodes[n]))
            && (n in s'.nodes <==> !(RefsOf(s, n) == {k} && Unheld(s.nodes[n])))
  {
    hide DecNode, Inv, NodeStep;
    var n := s.refs[k].node by { RefUsesNode(s, k); }
    RefUsesNode(s, k);
    DeleteRefKeeps(s, k);
    DeleteRefEffect(s, k);
    DeletedWhen(s, k);
    assert NodeStep(s, DeleteRef(s, k), n);
    NodesOutside(s, DeleteRef(s, k), n);
  }

  lemma NodesOutside(s: State, s': State, n: Nid)
    requires NodeStep(s, s', n)
    ensures s'.nodes - {n} == s.nodes - {n}
  {
  }

  lemma DeletedWhen(s: State, k: Handle)
    requires k in s.refs && s.refs[k].node in s.nodes
    ensures var s', n := DeleteRef(s, k), s.refs[k].node;
            && (n in s'.nodes ==> SameHolders(s'.nodes[n], s.nodes[n]))
            && (n in s'.nodes <==> !(RefsOf(s, n) == {k} && Unheld(s.nodes[n])))
  {
    hide DecNode;
    var n := s.refs[k].node;
    assert k in RefsOf(s, n);
    var s1 := if s.refs[k].strong != 0 then DecNode(s, n, true, true) else s;
    DecNodeStep(s, n, true, true);
    CountedDown(s, n, true);
    var s2 := Unindex(s1, k);
    assert RefsOf(s2, n) == RefsOf(s, n) - {k};
    CountedDown(s2, n, false);
    if RefsOf(s2, n) == {} {
      assert RefsOf(s, n) == {k};
    }
  }

  /** What deleting the references `ks` leaves of the nodes. */
  ghost predicate Deleted(s: State, s': State, ks: set<Handle>) {
    && s'.refs == s.refs - ks && s'.bufs == s.bufs && s'.mgr == s.mgr && s'.nodes.Keys <= s.nodes.Keys
    && (forall n :: n in s'.nodes ==> SameHolders(s'.nodes[n], s.nodes[n]))
    && (forall n :: n in s.nodes ==>
          (n in s'.nodes <==> !(RefsOf(s, n) != {} && RefsOf(s, n) <= ks && Unheld(s.nodes[n]))))
  }

  lemma DeletedThen(s: State, k: Handle, s1: State, s2: State, ks: set<Handle>)
    requires k in s.refs && s.refs[k].node in s.nodes && Deleted(s1, s2, ks)
    requires s1.refs == s.refs - {k} && s1.bufs == s.bufs && s1.mgr == s.mgr
    requires var n := s.refs[k].node;
             && s1.nodes - {n} == s.nodes - {n}
             && (n in s1.nodes ==> SameHolders(s1.nodes[n], s.nodes[n]))
             && (n in s1.nodes <==> !(RefsOf(s, n) == {k} && Unheld(s.nodes[n])))
    ensures Deleted(s, s2, {k} + ks)
  {
    var n := s.refs[k].node;
    assert s.refs - ({k} + ks) == s.refs - {k} - ks;
    assert forall m :: RefsOf(s1, m) == RefsOf(s, m) - {k};
    assert k in RefsOf(s, n);
    forall m | m in s1.nodes && m != n
      ensures m in s.nodes && s1.nodes[m] == s.nodes[m]
    {
      assert m in s1.nodes - {n};
    }
    forall m | m in s.nodes
      ensures m in s2.nodes <==> !(RefsOf(s, m) != {} && RefsOf(s, m) <= {k} + ks && Unheld(s.nodes[m]))
    {
      if m != n {
        assert m in s.nodes - {n};
        assert k !in RefsOf(s, m);
        assert RefsOf(s1, m) == RefsOf(s, m);
      } else if m in s1.nodes && RefsOf(s1, m) == {} {
        assert RefsOf(s, m) == {k};
      }
    }
  }

  ghost function InTable(s: State, ks: seq<Handle>): set<Handle> { set k | k in ks && k in s.refs }

  lemma NoneDeleted(s: State)
    ensures Deleted(s, s, {})
  {
  }

  lemma {:induction false} DeleteRefsEffect(s: State, ks: seq<Handle>)
    requires Inv(s)
    ensures Deleted(s, DeleteRefs(s, ks), InTable(s, ks))
    decreases |ks|
  {
    hide Inv, DeleteRef, Deleted;
    if ks == [] {
      assert InTable(s, ks) == {};
      NoneDeleted(s);
    } else if ks[0] in s.refs {
      DeletedNode(s, ks[0]);
      var s1 := DeleteRef(s, ks[0]);
      DeleteRefsEffect(s1, ks[1..]);
      assert InTable(s, ks) == {ks[0]} + InTable(s1, ks[1..]);
      DeletedThen(s, ks[0], s1, DeleteRefs(s1, ks[1..]), InTable(s1, ks[1..]));
    } else {
      DeleteRefsEffect(s, ks[1..]);
      assert InTable(s, ks) == InTable(s, ks[1..]);
    }
  }

  // ---------- process exit ----------

  /** Some other process refers to the node. */
  ghost predicate NeededByOthers(s: State, p: Pid, n: Nid) {
    exists k :: k in s.refs && s.refs[k].node == n && k.proc != p
  }

  /** After a process has exited: its references and its buffers are gone, nobody else's are touched; a node it
      owned stays, without owner and holders, exactly if another process refers to it; any other node goes
      exactly if only the process referred to it and nothing else keeps it. */
  ghost predicate Exited(s: State, s': State, p: Pid) {
    && s'.refs == (map k | k in s.refs && k.proc != p :: s.refs[k])
    && s'.bufs == (map b | b in s.bufs && s.bufs[b].owner != p :: s.bufs[b])
    && s'.mgr == (if exists n :: s.mgr == Some(n) && n in s.nodes && s.nodes[n].owner == Some(p) then None else s.mgr)
    && (forall n :: n in s'.nodes ==>
          && n in s.nodes
          && s'.nodes[n].owner == (if s.nodes[n].owner == Some(p) then None else s.nodes[n].owner)
          && s'.nodes[n].hasStrong == s.nodes[n].hasStrong && s'.nodes[n].hasWeak == s.nodes[n].hasWeak)
    && (forall n :: n in s.nodes && s.nodes[n].owner == Some(p) ==> (n in s'.nodes <==> NeededByOthers(s, p, n)))
    && (forall n :: n in s.nodes && s.nodes[n].owner != Some(p) ==>
          (n in s'.nodes <==> RefsOf(s, n) == {} || NeededByOthers(s, p, n) || !Unheld(s.nodes[n])))
  }

  lemma NeededExactly(s: State, p: Pid, n: Nid, gone: set<Handle>)
    requires forall k :: k in gone <==> k in s.refs && k.proc == p
    ensures NeededByOthers(s, p, n) <==> !(RefsOf(s, n) <= gone)
  {
    if RefsOf(s, n) <= gone {
      forall k | k in s.refs && s.refs[k].node == n
        ensures k.proc == p
      {
        assert k in RefsOf(s, n);
      }
    } else {
      var k :| k in RefsOf(s, n) && k !in gone;
    }
  }

  /** What the release of a process's nodes and buffers leaves, before its references go. */
  ghost predicate Abandoned(s: State, s1: State, p: Pid) {
    && s1.refs == s.refs
    && s1.bufs == (map b | b in s.bufs && s.bufs[b].owner != p :: s.bufs[b])
    && s1.mgr == (if exists n :: s.mgr == Some(n) && n in s.nodes && s.nodes[n].owner == Some(p) then None else s.mgr)
    && (forall n :: n in s1.nodes <==> n in s.nodes && (s.nodes[n].owner == Some(p) ==> RefsOf(s, n) != {}))
    && (forall n :: n in s1.nodes ==>
          if s.nodes[n].owner == Some(p)
          then s1.nodes[n].owner.None? && Unheld(s1.nodes[n]) && s1.nodes[n].hasStrong == s.nodes[n].hasStrong
               && s1.nodes[n].hasWeak == s.nodes[n].hasWeak
          else s1.nodes[n] == s.nodes[n])
  }

  lemma ExitAbandons(s: State, p: Pid)
    ensures Abandoned(s, ExitNodes(s, p), p)
  {
  }

  lemma ExitEffect(s: State, p: Pid, ks: seq<Handle>)
    requires Inv(s) && Enabled(s, ProcessExit(p, ks))
    ensures Exited(s, Apply(s, ProcessExit(p, ks)), p)
  {
    hide Inv, DeleteRefs, ExitNodes, RefsOf, Unheld, NeededByOthers, Abandoned, Exited, Deleted;
    var s1 := ExitNodes(s, p);
    ExitNodesKeeps(s, p);
    ExitAbandons(s, p);
    DeleteRefsEffect(s1, ks);
    AbandonedThenDeleted(s, p, ks, s1, Apply(s, ProcessExit(p, ks)));
  }

  lemma AbandonedThenDeleted(s: State, p: Pid, ks: seq<Handle>, s1: State, s': State)
    requires (forall k :: k in s.refs && k.proc == p ==> k in ks) && (forall k :: k in ks ==> k.proc == p)
    requires Abandoned(s, s1, p) && Deleted(s1, s', InTable(s1, ks))
    ensures Exited(s, s', p)
  {
    hide NeededByOthers, Unheld, RefsOf;
    var gone := InTable(s1, ks);
    assert s'.refs == map k | k in s.refs && k.proc != p :: s.refs[k];
    forall n | n in s.nodes
      ensures RefsOf(s1, n) == RefsOf(s, n) && (NeededByOthers(s, p, n) <==> !(RefsOf(s, n) <= gone))
    {
      SameUsers(s, s1, n);
      NeededExactly(s, p, n, gone);
    }
  }

  lemma SameUsers(s: State, s': State, n: Nid)
    requires s'.refs == s.refs
    ensures RefsOf(s', n) == RefsOf(s, n)
  {
  }

  /** A node whose owner is gone goes with its last reference. */
  lemma DeadGoWithLastRef(s: State, p: Pid, ks: seq<Handle>, n: Nid)
    requires Inv(s) && Enabled(s, ProcessExit(p, ks)) && n in s.nodes && s.nodes[n].owner.None?
    requires RefsOf(s, n) != {} && !NeededByOthers(s, p, n)
    ensures n !in Apply(s, ProcessExit(p, ks)).nodes
  {
    ExitEffect(s, p, ks);
    assert NodeOk(s, n);
  }

  // ---------- the other events ----------

  /** The node a handle is for: the context manager for handle 0, otherwise that of a strong reference. */
  lemma CallTargetExactly(s: State, p: Pid, desc: nat, n: Nid)
    ensures CallTarget(s, p, desc) == Some(n) <==>
            if desc == 0 then s.mgr == Some(n)
            else exists k ::
                   && k in s.refs && k.proc == p && k.desc == desc
                   && s.refs[k].strong != 0 && s.refs[k].node == n
  {
    if desc != 0 {
      assert forall k: Handle :: k.proc == p && k.desc == desc ==> k == Handle(p, desc);
    }
  }

  /** A call's buffer is for the process that owns the node, and counts as one holder of it. */
  lemma StartCallEffect(s: State, b: Bid, p: Pid, desc: nat, n: Nid)
    requires Inv(s) && Enabled(s, StartCall(b, p, desc)) && CallTarget(s, p, desc) == Some(n)
    ensures var s', x := Apply(s, StartCall(b, p, desc)), s.nodes[n];
            && x.owner.Some? && s'.bufs == s.bufs[b := Buffer(x.owner.value, Some(n), [])]
            && s'.refs == s.refs && s'.mgr == s.mgr
            && s'.nodes == s.nodes[n := x.(localStrong := x.localStrong + 1)]
  {
    IncFields(s, n, true, false, false);
    assert s.nodes[n := s.nodes[n].(localStrong := s.nodes[n].localStrong + 1)] - {n} == s.nodes - {n};
  }

  /** Whether a count on a reference that stands at `r` can be raised without a list for the news. */
  ghost predicate CanRaise(s: State, n: Nid, r: Ref, strong: bool)
    requires n in s.nodes
  {
    if strong
    then r.strong != 0 || StrongRefsOf(s, n) != {} || (s.mgr == Some(n) && s.nodes[n].hasStrong)
    else r.weak != 0 || s.nodes[n].hasWeak || s.nodes[n].queued
  }

  function OneMore(r: Ref, strong: bool): Ref {
    if strong then r.(strong := r.strong + 1) else r.(weak := r.weak + 1)
  }

  /** BC_INCREFS and BC_ACQUIRE raise one count of one reference, or none. The context manager's is made
      if it is missing, and stays even if the count cannot be raised. */
  lemma IncCommandEffect(s: State, p: Pid, desc: nat, strong: bool, d: nat)
    requires Inv(s) && Enabled(s, IncCommand(p, desc, strong, d))
    ensures var s' := Apply(s, IncCommand(p, desc, strong, d));
            && s'.bufs == s.bufs && s'.mgr == s.mgr && s'.nodes.Keys == s.nodes.Keys
            && if desc == 0 && s.mgr.Some? then
                 var n := s.mgr.value;
                 var k := if (p, n) in s.byNode then Handle(p, s.byNode[(p, n)]) else Handle(p, d);
                 var r := if (p, n) in s.byNode && k in s.refs then s.refs[k] else Ref(n, 0, 0);
                 && n in s.nodes
                 && s'.refs == s.refs[k := if CanRaise(s, n, r, strong) then OneMore(r, strong) else r]
               else
                 var k := Handle(p, desc);
                 && k in s.refs && s.refs[k].node in s.nodes
                 && s'.refs == if CanRaise(s, s.refs[k].node, s.refs[k], strong)
                               then s.refs[k := OneMore(s.refs[k], strong)] else s.refs
  {
    hide BufsOk, IncNode;
    if desc == 0 && s.mgr.Some? {
      var n := s.mgr.value;
      WithRefRefs(s, p, n, d);
      var s1 := WithRef(s, p, n, d);
      SameMakes(s, p, n, d);
      RaisesExactly(s1, Handle(p, s1.byNode[(p, n)]), strong);
    } else {
      assert NodeOk(s, s.refs[Handle(p, desc)].node);
      RaisesExactly(s, Handle(p, desc), strong);
    }
  }

  lemma SameMakes(s: State, p: Pid, n: Nid, d: nat)
    requires Inv(s) && n in s.nodes && Handle(p, d) !in s.refs
    ensures var s1 := WithRef(s, p, n, d);
            && s1.nodes == s.nodes && StrongRefsOf(s1, n) == StrongRefsOf(s, n)
            && s1.nodes[n].internalStrong == |StrongRefsOf(s1, n)|
            && (s1.mgr == Some(n) ==> s1.nodes[n].owner.Some?)
  {
    assert NodeOk(s, n);
  }

  lemma RaisesExactly(s: State, k: Handle, strong: bool)
    requires k in s.refs && s.refs[k].node in s.nodes && s.refs[k].strong >= 0
    requires var n := s.refs[k].node;
             && s.nodes[n].internalStrong == |StrongRefsOf(s, n)|
             && (s.mgr == Some(n) ==> s.nodes[n].owner.Some?)
    ensures var (s', r) := (IncRef(s, k, strong, false).0, s.refs[k]);
            && s'.bufs == s.bufs && s'.mgr == s.mgr && s'.nodes.Keys == s.nodes.Keys
            && s'.refs == if CanRaise(s, r.node, r, strong) then s.refs[k := OneMore(r, strong)] else s.refs
  {
    var n := s.refs[k].node;
    IncFields(s, n, strong, true, false);
    assert s.nodes[n].internalStrong == 0 <==> StrongRefsOf(s, n) == {};
  }

  /** BC_RELEASE and BC_DECREFS lower one count of one reference, which goes when both are zero; a count
      that is zero stays. */
  lemma DecCommandEffect(s: State, p: Pid, desc: nat, strong: bool)
    requires Inv(s) && Enabled(s, DecCommand(p, desc, strong))
    ensures var s', k := Apply(s, DecCommand(p, desc, strong)), Handle(p, desc);
            && k in s.refs && s'.bufs == s.bufs && s'.mgr == s.mgr
            && s'.refs == (if (if strong then s.refs[k].strong else s.refs[k].weak) == 0 then s.refs
                           else Lowered(s, k, strong))
  {
    var k := Handle(p, desc);
    if (if strong then s.refs[k].strong else s.refs[k].weak) != 0 {
      hide DecRef;
      DecRefEffect(s, k, strong);
    }
  }

  /** Acquiring and releasing a handle is no change to any reference. */
  lemma IncThenDec(s: State, p: Pid, desc: nat, strong: bool, d: nat)
    requires Inv(s) && Enabled(s, IncCommand(p, desc, strong, d)) && !(desc == 0 && s.mgr.Some?)
    requires CanRaise(s, s.refs[Handle(p, desc)].node, s.refs[Handle(p, desc)], strong)
    requires s.refs[Handle(p, desc)].strong != 0 || s.refs[Handle(p, desc)].weak != 0
    ensures var s1 := Apply(s, IncCommand(p, desc, strong, d));
            Enabled(s1, DecCommand(p, desc, strong)) && Apply(s1, DecCommand(p, desc, strong)).refs == s.refs
  {
    hide Apply;
    IncCommandEffect(s, p, desc, strong, d);
    StepKeeps(s, IncCommand(p, desc, strong, d));
    var s1, k := Apply(s, IncCommand(p, desc, strong, d)), Handle(p, desc);
    RefUsesNode(s1, k);
    assert Enabled(s1, DecCommand(p, desc, strong));
    DecCommandEffect(s1, p, desc, strong);
  }

  /** A node becomes the context manager with one count of each kind, known to its owner. */
  lemma SetManagerEffect(s: State, p: Pid, n: Nid)
    requires Enabled(s, SetManager(p, n))
    ensures var s' := Apply(s, SetManager(p, n));
            && s'.mgr == Some(n) && s'.nodes.Keys == s.nodes.Keys + {n} && s'.refs == s.refs && s'.bufs == s.bufs
            && s'.nodes[n].owner == Some(p) && s'.nodes[n].localStrong == s'.nodes[n].localWeak == 1
            && s'.nodes[n].hasStrong && s'.nodes[n].hasWeak
  {
  }

  // ---------- what a translated object means ----------

  /** The node that an object in a buffer stands for in the process that receives it. */
  function Denotes(s: State, p: Pid, h: Held): Option<Nid> {
    match h
    case HeldNode(n, _) => if n in s.nodes && s.nodes[n].owner == Some(p) then Some(n) else None
    case HeldRef(desc, _) => if Handle(p, desc) in s.refs then Some(s.refs[Handle(p, desc)].node) else None
    case Gone => None
  }

  predicate IsStrong(h: Held) { if h.HeldNode? then h.strong else h.HeldRef? && h.strong }

  /** The buffer has one more object, which stands for node `n` and counts as the sender's did; nothing else of
      any buffer is different. */
  ghost predicate Passed(s: State, s': State, b: Bid, n: Nid, strong: bool)
    requires b in s.bufs
  {
    && b in s'.bufs && s'.bufs[b].owner == s.bufs[b].owner && s'.bufs[b].target == s.bufs[b].target
    && |s'.bufs[b].objs| == |s.bufs[b].objs| + 1 && s'.bufs[b].objs[..|s.bufs[b].objs|] == s.bufs[b].objs
    && s'.bufs - {b} == s.bufs - {b}
    && var h := s'.bufs[b].objs[|s.bufs[b].objs|];
       Denotes(s', s.bufs[b].owner, h) == Some(n) && IsStrong(h) == strong
  }

  lemma HeldMeans(s: State, b: Bid, n: Nid, d: nat, strong: bool, list: bool)
    requires Inv(s) && b in s.bufs && n in s.nodes && Handle(s.bufs[b].owner, d) !in s.refs
    requires strong || list ==> AddRef(s, s.bufs[b].owner, n, d, strong, list).1
    ensures var s' := HoldRef(s, b, n, d, strong, list);
            Passed(s, s', b, n, strong) && s'.bufs[b].objs[|s.bufs[b].objs|].HeldRef? && n in s'.nodes
            && SameRecord(s'.nodes[n], s.nodes[n])
  {
    hide AddRef, Inv;
    AddRefEither(s, s.bufs[b].owner, n, d, strong, list);
  }

  /** A handle that is passed on still stands for the same node: in its owner's process as the node itself, in
      any other as that process's reference to it. */
  lemma HandleMeansSame(s: State, b: Bid, p: Pid, desc: nat, d: nat, strong: bool)
    requires Inv(s) && Enabled(s, PutHandle(b, p, desc, d, strong))
    ensures var s', n := Apply(s, PutHandle(b, p, desc, d, strong)), s.refs[Handle(p, desc)].node;
            && n in s.nodes && Passed(s, s', b, n, strong)
            && (s'.bufs[b].objs[|s.bufs[b].objs|].HeldNode? <==> s.nodes[n].owner == Some(s.bufs[b].owner))
  {
    hide NodesOk, RefsOk, BufsOk, HoldRef, IncNode;
    var n := s.refs[Handle(p, desc)].node;
    if s.nodes[n].owner == Some(s.bufs[b].owner) {
      IncFields(s, n, strong, false, false);
    } else {
      if strong { CountsExactly(s, b, p, desc, d, strong); }
      HeldMeans(s, b, n, d, strong, false);
    }
  }

  /** A binder that is sent stands for the sender's node, as the receiver's reference to it. */
  lemma BinderMeansSame(s: State, b: Bid, p: Pid, n: Nid, d: nat, strong: bool)
    requires Inv(s) && Enabled(s, PutBinder(b, p, n, d, strong))
    ensures var s' := Apply(s, PutBinder(b, p, n, d, strong));
            && Passed(s, s', b, n, strong) && s'.bufs[b].objs[|s.bufs[b].objs|].HeldRef?
            && n in s'.nodes && s'.nodes[n].owner == Some(p)
  {
    hide Inv, HoldRef, AddRef;
    var s1 := if n in s.nodes then s else NewNode(s, n, p);
    if n !in s.nodes { NewNodeKeeps(s, n, p); }
    ListAlwaysCounts(s1, s.bufs[b].owner, n, d, strong);
    HeldMeans(s1, b, n, d, strong, true);
  }

  /** A node made for an object counts nothing, its owner knows nothing of it, and it is in no list. */
  lemma LeaveNodeEffect(s: State, p: Pid, n: Nid)
    requires Enabled(s, LeaveNode(p, n))
    ensures var s' := Apply(s, LeaveNode(p, n));
            && s' == s.(nodes := s'.nodes) && s'.nodes.Keys == s.nodes.Keys + {n} && s'.nodes - {n} == s.nodes
            && var x := s'.nodes[n];
               && x.owner == Some(p) && x.internalStrong == x.localStrong == x.localWeak == 0
               && !x.hasStrong && !x.hasWeak && !x.pendStrong && !x.pendWeak && !x.queued
  {
  }

  /** Releasing an object of a buffer lowers one count of what it holds: the local count of a node, or a
      count of the reference with its descriptor. */
  lemma FreeObjectEffect(s: State, b: Bid, i: nat)
    requires Inv(s) && Enabled(s, FreeObject(b, i))
    ensures var s', buf := Apply(s, FreeObject(b, i)), s.bufs[b];
            && s'.bufs == s.bufs[b := buf.(objs := buf.objs[i := Gone])]
            && match buf.objs[i]
               case Gone => s'.refs == s.refs && s'.nodes == s.nodes
               case HeldNode(n, strong) =>
                 && n in s.nodes && s'.refs == s.refs
                 && (n in s'.nodes ==>
                       && s'.nodes[n].localStrong == s.nodes[n].localStrong - One(strong)
                       && s'.nodes[n].localWeak == s.nodes[n].localWeak - One(!strong))
                 && (n !in s'.nodes ==> s.nodes[n].localStrong == One(strong) && s.nodes[n].localWeak == One(!strong))
               case HeldRef(desc, strong) =>
                 var k := Handle(buf.owner, desc);
                 s'.refs == if k in s.refs && (if strong then s.refs[k].strong else s.refs[k].weak) != 0
                            then Lowered(s, k, strong) else s.refs
  {
    hide DecNode, DecRef, BufsOk;
    var h, s1 := s.bufs[b].objs[i], SetBuffer(s, b, s.bufs[b].(objs := s.bufs[b].objs[i := Gone]));
    match h
    case Gone =>
    case HeldNode(n, strong) =>
      NothingDangles(s);
      DecFields(s1, n, strong, false);
    case HeldRef(desc, strong) =>
      var k := Handle(s.bufs[b].owner, desc);
      if k in s.refs {
        RefUsesNode(s, k);
        DecRefOrNot(s1, k, strong);
      }
  }

  /** Releasing a buffer's target gives back the one count it held; the freed buffer is gone. */
  lemma FreeTargetEffect(s: State, b: Bid)
    requires Inv(s) && Enabled(s, FreeTarget(b))
    ensures var s', n := Apply(s, FreeTarget(b)), s.bufs[b].target.value;
            && s'.bufs == s.bufs[b := s.bufs[b].(target := None)] && s'.refs == s.refs
            && (n in s'.nodes ==> s'.nodes[n].localStrong == s.nodes[n].localStrong - 1)
            && (n !in s'.nodes ==> s.nodes[n].localStrong == 1 && RefsOf(s, n) == {})
  {
    DecFields(SetBuffer(s, b, s.bufs[b].(target := None)), s.bufs[b].target.value, true, false);
  }

  lemma FreeBufferEffect(s: State, b: Bid)
    requires Enabled(s, FreeBuffer(b))
    ensures Apply(s, FreeBuffer(b)) == s.(bufs := s.bufs - {b})
  {
  }

  lemma DecRefOrNot(s: State, k: Handle, strong: bool)
    requires k in s.refs && s.refs[k].node in s.nodes
    ensures var s' := DecRef(s, k, strong);
            && s'.bufs == s.bufs
            && s'.refs == (if (if strong then s.refs[k].strong else s.refs[k].weak) != 0 then Lowered(s, k, strong)
                           else s.refs)
  {
    if (if strong then s.refs[k].strong else s.refs[k].weak) != 0 {
      hide DecRef;
      DecRefEffect(s, k, strong);
    }
  }

  // ---------- unused nodes ----------

  ghost predicate Unused(s: State, n: Nid) {
    n in s.nodes && s.nodes[n].owner.Some? && !WeakNow(s, n)
  }

  /** The owner reads the node's work until there is none. */
  ghost predicate OnlyReads(es: seq<Event>, n: Nid) {
    forall i :: 0 <= i < |es| ==> es[i] == ReadWork(n)
  }

  lemma UnusedIsQueued(s: State, n: Nid)
    requires Inv(s) && Unused(s, n) && (s.nodes[n].hasStrong || s.nodes[n].hasWeak)
    ensures s.nodes[n].queued
  {
    assert NodeOk(s, n);
  }

  /** Reading the work of an unused node takes one thing back that its owner has been told, or frees it. */
  lemma UnusedShrinks(s: State, n: Nid)
    requires Inv(s) && Unused(s, n) && s.nodes[n].queued
    ensures Enabled(s, ReadWork(n))
    ensures var s', x := Apply(s, ReadWork(n)), s.nodes[n];
            if x.hasStrong then Unused(s', n) && s'.nodes[n] == x.(hasStrong := false)
            else if x.hasWeak then Unused(s', n) && s'.nodes[n] == x.(hasWeak := false)
            else n !in s'.nodes
  {
    var s' := Apply(s, ReadWork(n));
    assert RefsOf(s', n) == RefsOf(s, n);
  }

  /** A node that nothing uses and that its owner has heard of, or that is queued, is freed as soon as its owner
      has read all that is to be said about it. */
  lemma {:induction false} UnusedGoes(s: State, n: Nid) returns (es: seq<Event>)
    requires Inv(s) && Unused(s, n) && (s.nodes[n].queued || s.nodes[n].hasStrong || s.nodes[n].hasWeak)
    ensures IsRun(s, es) && OnlyReads(es, n) && n !in After(s, es).nodes
    decreases One(s.nodes[n].hasStrong) + One(s.nodes[n].hasWeak)
  {
    hide Inv, Apply, Enabled, WeakNow;
    if s.nodes[n].hasStrong || s.nodes[n].hasWeak { UnusedIsQueued(s, n); }
    UnusedShrinks(s, n);
    var s' := Apply(s, ReadWork(n));
    if n in s'.nodes {
      StepKeeps(s, ReadWork(n));
      var rest := UnusedGoes(s', n);
      es := [ReadWork(n)] + rest;
      assert es[1..] == rest;
    } else {
      es := [ReadWork(n)];
      assert es[1..] == [];
    }
  }

  // ---------- dead nodes ----------

  /** A node whose owner is gone is referred to. */
  ghost predicate NeededAt(s: State, n: Nid) {
    n in s.nodes && s.nodes[n].owner.None? ==> RefsOf(s, n) != {}
  }

  ghost predicate DeadAreNeeded(s: State) {
    forall n {:trigger NeededAt(s, n)} :: NeededAt(s, n)
  }

  /** References only come, and no node loses its owner. */
  ghost predicate OnlyGrows(s: State, s': State) {
    && (forall k :: k in s.refs ==> k in s'.refs && s'.refs[k].node == s.refs[k].node)
    && (forall n :: n in s'.nodes && s'.nodes[n].owner.None? ==> n in s.nodes && s.nodes[n].owner.None?)
  }

  lemma GrowingKeeps(s: State, s': State)
    requires DeadAreNeeded(s) && OnlyGrows(s, s')
    ensures DeadAreNeeded(s')
  {
    forall n
      ensures NeededAt(s', n)
    {
      if n in s'.nodes && s'.nodes[n].owner.None? {
        assert NeededAt(s, n);
        var k :| k in RefsOf(s, n);
        assert k in RefsOf(s', n);
      }
    }
  }

  predicate DeadUnheld(x: Node) { x.owner.None? ==> x.localStrong == 0 && x.localWeak == 0 }

  lemma RefToDead(s: State, k: Handle)
    requires Inv(s) && k in s.refs
    ensures s.refs[k].node in s.nodes && DeadUnheld(s.nodes[s.refs[k].node])
  {
    assert NodeOk(s, s.refs[k].node);
  }

  /** The last reference of a node without owner and holders takes the node along. */
  lemma DecRefNeeded(s: State, k: Handle, strong: bool)
    requires DeadAreNeeded(s) && k in s.refs && s.refs[k].node in s.nodes && DeadUnheld(s.nodes[s.refs[k].node])
    ensures DeadAreNeeded(DecRef(s, k, strong))
  {
    var n, s' := s.refs[k].node, DecRef(s, k, strong);
    if (if strong then s.refs[k].strong else s.refs[k].weak) != 0 {
      DecRefAt(s, k, strong);
      DecRefEffect(s, k, strong);
      forall m
        ensures NeededAt(s', m)
      {
        assert NeededAt(s, m);
        if m != n && m in s'.nodes {
          assert m in s'.nodes - {n};
          assert k !in RefsOf(s, m);
          assert RefsOf(s', m) == RefsOf(s, m);
        }
      }
    }
  }

  lemma DecRefAt(s: State, k: Handle, strong: bool)
    requires k in s.refs && s.refs[k].node in s.nodes && DeadUnheld(s.nodes[s.refs[k].node])
    requires (if strong then s.refs[k].strong else s.refs[k].weak) != 0
    ensures NeededAt(DecRef(s, k, strong), s.refs[k].node)
  {
    hide DecNode, DeleteRef;
    var r, n := s.refs[k], s.refs[k].node;
    var r1 := if strong then r.(strong := r.strong - 1) else r.(weak := r.weak - 1);
    var s1 := s.(refs := s.refs[k := r1]);
    var s2 := if strong && r1.strong == 0 then DecNode(s1, n, true, true) else s1;
    assert k in RefsOf(s1, n);
    CountedDown(s1, n, true);
    DecNodeStep(s1, n, true, true);
    if r1.strong == 0 && r1.weak == 0 {
      var s' := DeleteRef(s2, k);
      DeletedWhen(s2, k);
      DeleteRefEffect(s2, k);
      assert RefsOf(s', n) == RefsOf(s2, n) - {k};
      assert k in RefsOf(s2, n);
      assert RefsOf(s', n) == {} ==> RefsOf(s2, n) == {k};
    } else {
      assert k in RefsOf(s2, n);
    }
  }

  lemma ExitNeeded(s: State, p: Pid, ks: seq<Handle>)
    requires Inv(s) && DeadAreNeeded(s) && Enabled(s, ProcessExit(p, ks))
    ensures DeadAreNeeded(Apply(s, ProcessExit(p, ks)))
  {
    hide Enabled, Apply;
    ExitEffect(s, p, ks);
    var s' := Apply(s, ProcessExit(p, ks));
    forall n
      ensures NeededAt(s', n)
    {
      if n in s'.nodes && s'.nodes[n].owner.None? {
        assert NeededAt(s, n) && NodeOk(s, n);
        var k :| k in s.refs && s.refs[k].node == n && k.proc != p;
        assert k in RefsOf(s', n);
      }
    }
  }

  lemma AddRefGrows(s: State, p: Pid, n: Nid, d: nat, strong: bool, list: bool)
    requires RefsOk(s) && n in s.nodes && Handle(p, d) !in s.refs
    ensures OnlyGrows(s, AddRef(s, p, n, d, strong, list).0)
  {
    hide IncNode;
    WithRefRefs(s, p, n, d);
    var s1, s' := WithRef(s, p, n, d), AddRef(s, p, n, d, strong, list).0;
    IncFields(s1, n, strong, true, list);
    forall m | m in s'.nodes && s'.nodes[m].owner.None?
      ensures m in s.nodes && s.nodes[m].owner.None?
    {
      if m != n {
        assert m in s'.nodes - {n};
      }
    }
  }

  lemma PutGrows(s: State, b: Bid, n: Nid, d: nat, strong: bool, list: bool)
    requires RefsOk(s) && b in s.bufs && n in s.nodes && Handle(s.bufs[b].owner, d) !in s.refs
    ensures OnlyGrows(s, HoldRef(s, b, n, d, strong, list))
  {
    hide AddRef;
    AddRefGrows(s, s.bufs[b].owner, n, d, strong, list);
  }

  lemma IncGrows(s: State, p: Pid, desc: nat, strong: bool, d: nat)
    requires Inv(s) && Enabled(s, IncCommand(p, desc, strong, d))
    ensures OnlyGrows(s, Apply(s, IncCommand(p, desc, strong, d)))
  {
    hide IncNode, BufsOk;
    if desc == 0 && s.mgr.Some? {
      AddRefGrows(s, p, s.mgr.value, d, strong, false);
    } else {
      hide AddRef;
      var k := Handle(p, desc);
      var n := s.refs[k].node;
      AddIsInc(s, p, k, d, strong);
      AddRefGrows(s, p, n, d, strong, false);
    }
  }

  lemma NodeStepGrows(s: State, s': State, n: Nid)
    requires NodeStep(s, s', n) && s'.refs == s.refs
    ensures OnlyGrows(s, s')
  {
    forall m | m in s'.nodes && m != n
      ensures m in s.nodes && s.nodes[m] == s'.nodes[m]
    {
      assert m in s'.nodes - {n};
    }
  }

  lemma LocalGrows(s: State, s1: State, n: Nid, strong: bool)
    requires n in s.nodes && s1.refs == s.refs && s1.nodes.Keys == s.nodes.Keys
    requires forall m :: m in s.nodes ==> s1.nodes[m].owner == s.nodes[m].owner
    ensures OnlyGrows(s, DecNode(s1, n, strong, false)) && OnlyGrows(s, IncNode(s1, n, strong, false, false).0)
  {
    hide DecNode, IncNode, NodeStep, OnlyGrows;
    DecNodeStep(s1, n, strong, false);
    NodeStepGrows(s1, DecNode(s1, n, strong, false), n);
    IncOwner(s1, n, strong);
    GrowsThen(s, s1, DecNode(s1, n, strong, false));
    GrowsThen(s, s1, IncNode(s1, n, strong, false, false).0);
  }

  lemma IncOwner(s: State, n: Nid, strong: bool)
    requires n in s.nodes
    ensures OnlyGrows(s, IncNode(s, n, strong, false, false).0)
  {
  }

  lemma GrowsThen(s: State, s1: State, s2: State)
    requires s1.refs == s.refs && s1.nodes.Keys == s.nodes.Keys && OnlyGrows(s1, s2)
    requires forall m :: m in s.nodes ==> s1.nodes[m].owner == s.nodes[m].owner
    ensures OnlyGrows(s, s2)
  {
  }

  lemma ObjectNeeded(s: State, b: Bid, i: nat)
    requires Inv(s) && DeadAreNeeded(s) && Enabled(s, FreeObject(b, i))
    ensures DeadAreNeeded(DropObject(s, b, i))
  {
    hide DecNode, DecRef, DeadAreNeeded, OnlyGrows, NodesOk, BufsOk;
    var h, s1 := s.bufs[b].objs[i], SetBuffer(s, b, s.bufs[b].(objs := s.bufs[b].objs[i := Gone]));
    match h
    case Gone => GrowingKeeps(s, s1) by { SameGrows(s, s1); }
    case HeldNode(n, strong) =>
      NothingDangles(s);
      LocalGrows(s, s1, n, strong);
      GrowingKeeps(s, DropObject(s, b, i));
    case HeldRef(desc, strong) =>
      var k := Handle(s.bufs[b].owner, desc);
      SameGrows(s, s1);
      GrowingKeeps(s, s1);
      if k in s.refs {
        RefToDead(s, k);
        DecRefNeeded(s1, k, strong);
      }
  }

  lemma SameGrows(s: State, s': State)
    requires s'.refs == s.refs && s'.nodes == s.nodes
    ensures OnlyGrows(s, s')
  {
  }

  lemma StepNeeded(s: State, e: Event)
    requires Inv(s) && DeadAreNeeded(s) && Enabled(s, e)
    ensures DeadAreNeeded(Apply(s, e))
  {
    hide DeadAreNeeded, OnlyGrows, NodesOk, BufsOk, RefsOk, IncNode, DecNode, DecRef, DropObject, HoldRef, IsLeastFree;
    match e
    case DecCommand(p, desc, strong) =>
      RefToDead(s, Handle(p, desc));
      DecRefNeeded(s, Handle(p, desc), strong);
    case FreeObject(b, i) => ObjectNeeded(s, b, i);
    case ProcessExit(p, ks) => ExitNeeded(s, p, ks);
    case _ =>
      GrowsOtherwise(s, e);
      GrowingKeeps(s, Apply(s, e));
  }

  lemma GrowsOtherwise(s: State, e: Event)
    requires Inv(s) && Enabled(s, e) && !e.DecCommand? && !e.FreeObject? && !e.ProcessExit?
    ensures OnlyGrows(s, Apply(s, e))
  {
    hide Inv, OnlyGrows, IncNode, DecNode, HoldRef, IsLeastFree, NodeWork, Done;
    match e
    case SetManager(p, n) => MadeGrows(s, n, p);
    case IncCommand(p, desc, strong, d) => IncGrows(s, p, desc, strong, d);
    case AckCommand(n, strong) => DoneGrows(s, n, strong);
    case ReadWork(n) => WorkGrows(s, n);
    case StartCall(b, p, desc) => LocalGrows(s, s, CallTarget(s, p, desc).value, true); CallGrows(s, e);
    case StartReply(b, q) => SameGrows(s, Apply(s, e));
    case PutBinder(b, p, n, d, strong) => BinderGrows(s, b, p, n, d, strong);
    case PutHandle(b, p, desc, d, strong) => HandleGrows(s, b, p, desc, d, strong);
    case LeaveNode(p, n) => MadeGrows(s, n, p);
    case FreeTarget(b) => LocalGrows(s, SetBuffer(s, b, s.bufs[b].(target := None)), s.bufs[b].target.value, true);
    case FreeBuffer(b) => SameGrows(s, Apply(s, e));
  }

  lemma MadeGrows(s: State, n: Nid, p: Pid)
    ensures OnlyGrows(s, NewNode(s, n, p)) && OnlyGrows(s, NewManager(s, n, p))
  {
  }

  lemma DoneGrows(s: State, n: Nid, strong: bool)
    requires n in s.nodes
    ensures OnlyGrows(s, Done(s, n, strong))
  {
    hide DecNode, OnlyGrows;
    var x := s.nodes[n];
    SameGrows(s, s);
    var x1 := if strong then x.(pendStrong := false) else x.(pendWeak := false);
    LocalGrows(s, s.(nodes := s.nodes[n := x1]), n, strong);
  }

  lemma WorkGrows(s: State, n: Nid)
    requires n in s.nodes
    ensures OnlyGrows(s, NodeWork(s, n))
  {
  }

  lemma CallGrows(s: State, e: Event)
    requires Enabled(s, e) && e.StartCall?
    requires OnlyGrows(s, IncNode(s, CallTarget(s, e.p, e.desc).value, true, false, false).0)
    ensures OnlyGrows(s, Apply(s, e))
  {
    hide IncNode;
  }

  lemma BinderGrows(s: State, b: Bid, p: Pid, n: Nid, d: nat, strong: bool)
    requires Inv(s) && Enabled(s, PutBinder(b, p, n, d, strong))
    ensures OnlyGrows(s, PutBinderOf(s, b, p, n, d, strong))
  {
    hide Inv, HoldRef;
    var s1 := if n in s.nodes then s else NewNode(s, n, p);
    if n !in s.nodes { NewNodeKeeps(s, n, p); }
    RefsOfInv(s1);
    PutGrows(s1, b, n, d, strong, true);
  }

  lemma HandleGrows(s: State, b: Bid, p: Pid, desc: nat, d: nat, strong: bool)
    requires Inv(s) && Enabled(s, PutHandle(b, p, desc, d, strong))
    ensures OnlyGrows(s, PutHandleOf(s, b, p, desc, d, strong))
  {
    hide Inv, HoldRef, IncNode;
    var n := s.refs[Handle(p, desc)].node;
    if s.nodes[n].owner == Some(s.bufs[b].owner) {
      IncOwner(s, n, strong);
    } else {
      RefsOfInv(s);
      PutGrows(s, b, n, d, strong, false);
    }
  }

  lemma {:induction false} RunsNeeded(s: State, es: seq<Event>)
    requires Inv(s) && DeadAreNeeded(s) && IsRun(s, es)
    ensures DeadAreNeeded(After(s, es))
    decreases |es|
  {
    hide Inv, Enabled, Apply, DeadAreNeeded;
    if es != [] {
      StepKeeps(s, es[0]);
      StepNeeded(s, es[0]);
      RunsNeeded(Apply(s, es[0]), es[1..]);
    }
  }

  /** In every run: a node whose owner is gone is there only as long as some process refers to it. */
  lemma EveryDeadNode(es: seq<Event>, n: Nid)
    requires IsRun(EMPTY, es) && n in After(EMPTY, es).nodes && After(EMPTY, es).nodes[n].owner.None?
    ensures exists k :: k in After(EMPTY, es).refs && After(EMPTY, es).refs[k].node == n
  {
    hide IsRun, After;
    RunsNeeded(EMPTY, es);
    assert NeededAt(After(EMPTY, es), n);
    var k :| k in RefsOf(After(EMPTY, es), n);
  }
}
