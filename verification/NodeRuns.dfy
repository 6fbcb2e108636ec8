/** Runs of the reference commands, and the operations of the driver that loop over references. */
module NodeRuns {
  import opened SizeMath
  import opened NodeRefs

  /** `LeaveNode` is an object whose translation fails after a node was made for it. */
  datatype Event =
    | SetManager(p: Pid, n: Nid)
    | IncCommand(p: Pid, desc: nat, strong: bool, d: nat)
    | DecCommand(p: Pid, desc: nat, strong: bool)
    | AckCommand(n: Nid, strong: bool)
    | ReadWork(n: Nid)
    | StartCall(b: Bid, p: Pid, desc: nat)
    | StartReply(b: Bid, q: Pid)
    | PutBinder(b: Bid, p: Pid, n: Nid, d: nat, strong: bool)
    | PutHandle(b: Bid, p: Pid, desc: nat, d: nat, strong: bool)
    | LeaveNode(p: Pid, n: Nid)
    | FreeTarget(b: Bid)
    | FreeObject(b: Bid, i: nat)
    | FreeBuffer(b: Bid)
    | ProcessExit(p: Pid, ks: seq<Handle>)

  /** The node a call to a handle is for: the context manager for handle 0, otherwise the node of a
      strong reference. */
  function CallTarget(s: State, p: Pid, desc: nat): Option<Nid> {
    if desc == 0 then s.mgr
    else var k := Lookup(s, p, desc, true); if k.Some? then Some(s.refs[k.value].node) else None
  }

  predicate Finds(s: State, p: Pid, desc: nat, strong: bool) {
    Lookup(s, p, desc, strong).Some? && s.refs[Handle(p, desc)].node in s.nodes
  }

  ghost predicate Enabled(s: State, e: Event) {
    match e
    case SetManager(_, n) => s.mgr.None? && n !in s.nodes
    case IncCommand(p, desc, strong, d) =>
      if desc == 0 && s.mgr.Some? then IsLeastFree(s, p, 0, d) else Handle(p, d) !in s.refs && Finds(s, p, desc, strong)
    case DecCommand(p, desc, strong) => Finds(s, p, desc, strong)
    case AckCommand(n, _) => n in s.nodes && s.nodes[n].owner.Some?
    case ReadWork(n) => n in s.nodes && s.nodes[n].owner.Some? && s.nodes[n].queued
    case StartCall(b, p, desc) =>
      b !in s.bufs && CallTarget(s, p, desc).Some? && CallTarget(s, p, desc).value in s.nodes
      && s.nodes[CallTarget(s, p, desc).value].owner.Some?
    case StartReply(b, _) => b !in s.bufs
    case PutBinder(b, p, n, d, _) =>
      b in s.bufs && (n in s.nodes ==> s.nodes[n].owner == Some(p)) && IsLeastFree(s, s.bufs[b].owner, Start(s, n), d)
    case PutHandle(b, p, desc, d, strong) =>
      && b in s.bufs && Finds(s, p, desc, strong)
      && IsLeastFree(s, s.bufs[b].owner, Start(s, s.refs[Handle(p, desc)].node), d)
    case LeaveNode(_, n) => n !in s.nodes
    case FreeTarget(b) => b in s.bufs && s.bufs[b].target.Some? && s.bufs[b].target.value in s.nodes
    case FreeObject(b, i) => b in s.bufs && i < |s.bufs[b].objs|
    case FreeBuffer(b) =>
      b in s.bufs && s.bufs[b].target.None? && (forall i :: 0 <= i < |s.bufs[b].objs| ==> s.bufs[b].objs[i] == Gone)
    case ProcessExit(p, ks) =>
      (forall k :: k in s.refs && k.proc == p ==> k in ks) && (forall k :: k in ks ==> k.proc == p)
  }

  /** Deleting the references of an exiting process, in any order. */
  function DeleteRefs(s: State, ks: seq<Handle>): State
    decreases |ks|
  {
    if ks == [] then s
    else DeleteRefs(if ks[0] in s.refs && s.refs[ks[0]].node in s.nodes then DeleteRef(s, ks[0]) else s, ks[1..])
  }

  ghost function Apply(s: State, e: Event): State
    requires Enabled(s, e)
  {
    match e
    case SetManager(p, n) => NewManager(s, n, p)
    case IncCommand(p, desc, strong, d) =>
      if desc == 0 && s.mgr.Some? then AddRef(s, p, s.mgr.value, d, strong, false).0
      else IncRef(s, Handle(p, desc), strong, false).0
    case DecCommand(p, desc, strong) => DecRef(s, Handle(p, desc), strong)
    case AckCommand(n, strong) => Done(s, n, strong)
    case ReadWork(n) => NodeWork(s, n)
    case StartCall(b, p, desc) =>
      var n := CallTarget(s, p, desc).value; HoldTarget(s, b, s.nodes[n].owner.value, n)
    case StartReply(b, q) => OpenBuffer(s, b, q)
    case PutBinder(b, p, n, d, strong) => PutBinderOf(s, b, p, n, d, strong)
    case PutHandle(b, p, desc, d, strong) => PutHandleOf(s, b, p, desc, d, strong)
    case LeaveNode(p, n) => NewNode(s, n, p)
    case FreeTarget(b) => DropTarget(s, b)
    case FreeObject(b, i) => DropObject(s, b, i)
    case FreeBuffer(b) => CloseBuffer(s, b)
    case ProcessExit(p, ks) => DeleteRefs(ExitNodes(s, p), ks)
  }

  /** binder_translate_binder: the sender's node, created if new, as a reference of the target. */
  function PutBinderOf(s: State, b: Bid, p: Pid, n: Nid, d: nat, strong: bool): State
    requires b in s.bufs
  {
    HoldRef(if n in s.nodes then s else NewNode(s, n, p), b, n, d, strong, true)
  }

  /** binder_translate_handle: back to the owner's own node, or to a reference of a third process. */
  function PutHandleOf(s: State, b: Bid, p: Pid, desc: nat, d: nat, strong: bool): State
    requires b in s.bufs && Handle(p, desc) in s.refs && s.refs[Handle(p, desc)].node in s.nodes
  {
    var n := s.refs[Handle(p, desc)].node;
    if s.nodes[n].owner == Some(s.bufs[b].owner) then HoldNode(s, b, n, strong)
    else HoldRef(s, b, n, d, strong, false)
  }

  // ---------- each event keeps the invariant ----------

  lemma {:induction false} DeleteRefsKeeps(s: State, ks: seq<Handle>)
    requires Inv(s)
    ensures Inv(DeleteRefs(s, ks))
    decreases |ks|
  {
    hide Inv, DeleteRef;
    if ks != [] {
      if ks[0] in s.refs && s.refs[ks[0]].node in s.nodes {
        DeleteRefKeeps(s, ks[0]);
        DeleteRefsKeeps(DeleteRef(s, ks[0]), ks[1..]);
      } else {
        DeleteRefsKeeps(s, ks[1..]);
      }
    }
  }

  /** A reference is evidence that its node is in use. */
  lemma RefUsesNode(s: State, k: Handle)
    requires Inv(s) && k in s.refs
    ensures s.refs[k].node in s.nodes && WeakNow(s, s.refs[k].node)
    ensures s.refs[k].strong != 0 ==> StrongNow(s.nodes[s.refs[k].node])
  {
    var n := s.refs[k].node;
    assert NodeOk(s, n) && k in RefsOf(s, n);
    if s.refs[k].strong != 0 {
      assert k in StrongRefsOf(s, n);
    }
  }

  lemma ManagerUsed(s: State)
    requires Inv(s) && s.mgr.Some?
    ensures s.mgr.value in s.nodes && StrongNow(s.nodes[s.mgr.value]) && WeakNow(s, s.mgr.value)
  {
    assert NodeOk(s, s.mgr.value);
  }

  lemma IncCommandKeeps(s: State, p: Pid, desc: nat, strong: bool, d: nat)
    requires Inv(s) && Enabled(s, IncCommand(p, desc, strong, d))
    ensures Inv(Apply(s, IncCommand(p, desc, strong, d)))
  {
    hide NodesOk, AddRef, WeakNow;
    if desc == 0 && s.mgr.Some? {
      ManagerUsed(s);
      AddRefKeeps(s, p, s.mgr.value, d, strong, false);
    } else {
      var k := Handle(p, desc);
      RefUsesNode(s, k);
      var n := s.refs[k].node;
      assert AddRef(s, p, n, d, strong, false) == IncRef(s, k, strong, false) by { AddIsInc(s, p, k, d, strong); }
      AddRefKeeps(s, p, n, d, strong, false);
    }
  }

  lemma AddIsInc(s: State, p: Pid, k: Handle, d: nat, strong: bool)
    requires Inv(s) && k in s.refs && k.proc == p && Handle(p, d) !in s.refs && s.refs[k].node in s.nodes
    ensures AddRef(s, p, s.refs[k].node, d, strong, false) == IncRef(s, k, strong, false)
  {
  }

  lemma PutBinderKeeps(s: State, b: Bid, p: Pid, n: Nid, d: nat, strong: bool)
    requires Inv(s) && Enabled(s, PutBinder(b, p, n, d, strong))
    ensures Inv(PutBinderOf(s, b, p, n, d, strong))
  {
    hide Inv, HoldRef;
    var s1 := if n in s.nodes then s else NewNode(s, n, p);
    if n !in s.nodes {
      NewNodeKeeps(s, n, p);
    }
    HoldRefKeeps(s1, b, n, d, strong, true);
  }

  lemma PutHandleKeeps(s: State, b: Bid, p: Pid, desc: nat, d: nat, strong: bool)
    requires Inv(s) && Enabled(s, PutHandle(b, p, desc, d, strong))
    ensures Inv(PutHandleOf(s, b, p, desc, d, strong))
  {
    hide NodesOk, HoldRef, HoldNode, WeakNow, StrongNow;
    var k := Handle(p, desc);
    RefUsesNode(s, k);
    var n := s.refs[k].node;
    if s.nodes[n].owner == Some(s.bufs[b].owner) {
      HoldNodeKeeps(s, b, n, strong);
    } else {
      HoldRefKeeps(s, b, n, d, strong, false);
    }
  }

  lemma StartCallKeeps(s: State, b: Bid, p: Pid, desc: nat)
    requires Inv(s) && Enabled(s, StartCall(b, p, desc))
    ensures Inv(Apply(s, StartCall(b, p, desc)))
  {
    hide HoldTarget, StrongNow, WeakNow;
    var n := CallTarget(s, p, desc).value;
    if desc == 0 {
      ManagerUsed(s);
    } else {
      RefUsesNode(s, Handle(p, desc));
    }
    HoldTargetKeeps(s, b, s.nodes[n].owner.value, n);
  }

  lemma StartReplyKeeps(s: State, b: Bid, q: Pid)
    requires Inv(s) && b !in s.bufs
    ensures Inv(OpenBuffer(s, b, q))
  {
    NoPlaces(b, Buffer(q, None, []));
    NoPlaces(b, BufferAt(s, b));
    SetBufferKeeps(s, b, Buffer(q, None, []));
  }

  lemma StepKeeps(s: State, e: Event)
    requires Inv(s) && Enabled(s, e)
    ensures Inv(Apply(s, e))
  {
    match e
    case SetManager(p, n) => NewManagerKeeps(s, n, p);
    case IncCommand(p, desc, strong, d) => IncCommandKeeps(s, p, desc, strong, d);
    case DecCommand(p, desc, strong) => DecRefKeeps(s, Handle(p, desc), strong);
    case AckCommand(n, strong) => DoneKeeps(s, n, strong);
    case ReadWork(n) => NodeWorkKeeps(s, n);
    case StartCall(b, p, desc) => StartCallKeeps(s, b, p, desc);
    case StartReply(b, q) => StartReplyKeeps(s, b, q);
    case PutBinder(b, p, n, d, strong) => PutBinderKeeps(s, b, p, n, d, strong);
    case PutHandle(b, p, desc, d, strong) => PutHandleKeeps(s, b, p, desc, d, strong);
    case LeaveNode(p, n) => NewNodeKeeps(s, n, p);
    case FreeTarget(b) => DropTargetKeeps(s, b);
    case FreeObject(b, i) => DropObjectKeeps(s, b, i);
    case FreeBuffer(b) => CloseBufferKeeps(s, b);
    case ProcessExit(p, ks) =>
      ExitNodesKeeps(s, p);
      DeleteRefsKeeps(ExitNodes(s, p), ks);
  }

  // ---------- whole runs ----------

  const EMPTY: State := State(map[], map[], map[], map[], None)

  ghost predicate IsRun(s: State, es: seq<Event>)
    decreases |es|
  {
    es == [] || (Enabled(s, es[0]) && IsRun(Apply(s, es[0]), es[1..]))
  }

  ghost function After(s: State, es: seq<Event>): State
    requires IsRun(s, es)
    decreases |es|
  {
    if es == [] then s else After(Apply(s, es[0]), es[1..])
  }

  /** Every state of every run satisfies the invariant. */
  lemma {:induction false} RunsKeep(s: State, es: seq<Event>)
    requires Inv(s) && IsRun(s, es)
    ensures Inv(After(s, es))
    decreases |es|
  {
    hide Inv, Enabled, Apply;
    if es != [] {
      StepKeeps(s, es[0]);
      RunsKeep(Apply(s, es[0]), es[1..]);
    }
  }

  lemma EveryRun(es: seq<Event>)
    requires IsRun(EMPTY, es)
    ensures Inv(After(EMPTY, es))
  {
    RunsKeep(EMPTY, es);
  }

  /** The enabling conditions that speak of a node's existence are never what stops an event: in every
      run references and buffers name existing nodes only. */
  lemma NothingDangles(s: State)
    requires Inv(s)
    ensures forall k :: k in s.refs ==> s.refs[k].node in s.nodes
    ensures forall b, n :: b in s.bufs && s.bufs[b].target == Some(n) ==> n in s.nodes && s.nodes[n].localStrong > 0
    ensures forall b, i :: b in s.bufs && 0 <= i < |s.bufs[b].objs| && s.bufs[b].objs[i].HeldNode? ==>
              var h := s.bufs[b].objs[i];
              h.node in s.nodes && (if h.strong then s.nodes[h.node].localStrong > 0 else s.nodes[h.node].localWeak > 0)
  {
    forall b, n | b in s.bufs && s.bufs[b].target == Some(n)
      ensures n in s.nodes && s.nodes[n].localStrong > 0
    {
      assert NodeOk(s, n) && b in TargetedBy(s, n);
    }
    forall b, i | b in s.bufs && 0 <= i < |s.bufs[b].objs| && s.bufs[b].objs[i].HeldNode?
      ensures var h := s.bufs[b].objs[i];
              h.node in s.nodes && (if h.strong then s.nodes[h.node].localStrong > 0 else s.nodes[h.node].localWeak > 0)
    {
      var h := s.bufs[b].objs[i];
      assert NodeOk(s, h.node);
      NamedMember(s, h, (b, i));
    }
  }

  // ---------- a run on which discarded work matters ----------

  /** A run extended by one event. */
  lemma {:induction false} RunThen(s: State, es: seq<Event>, e: Event)
    requires IsRun(s, es) && Enabled(After(s, es), e)
    ensures IsRun(s, es + [e]) && After(s, es + [e]) == Apply(After(s, es), e)
    decreases |es|
  {
    var es' := es + [e];
    if es == [] {
      assert es'[1..] == [];
    } else {
      RunThen(Apply(s, es[0]), es[1..], e);
      assert es'[1..] == es[1..] + [e];
    }
  }

  /** Process 2 is sent a new node of process 1, whose owner has not read the news yet. */
  lemma SendNew() returns (es: seq<Event>)
    ensures IsRun(EMPTY, es)
    ensures After(EMPTY, es) == State(map[7 := BLANK.(owner := Some(1), queued := true)],
                                      map[Handle(2, 1) := Ref(7, 0, 1)], map[(2, 7) := 1],
                                      map[1 := Buffer(2, None, [HeldRef(1, false)])], None)
  {
    var reply, send := StartReply(1, 2), PutBinder(1, 1, 7, 1, false);
    var s1 := State(map[], map[], map[], map[1 := Buffer(2, None, [])], None);
    RunThen(EMPTY, [], reply);
    assert After(EMPTY, [] + [reply]) == s1;
    assert [] + [reply] == [reply];
    RunThen(EMPTY, [reply], send);
    es := [reply] + [send];
    var s := Apply(s1, send);
    assert s.nodes == map[7 := BLANK.(owner := Some(1), queued := true)];
    assert s.refs == map[Handle(2, 1) := Ref(7, 0, 1)] && s.byNode == map[(2, 7) := 1];
    assert [] + [HeldRef(1, false)] == [HeldRef(1, false)];
    assert s.bufs == map[1 := Buffer(2, None, [HeldRef(1, false)])];
  }

  /** Discarding that news, as an exiting thread does, leaves the owner out of step with the counts. */
  lemma DiscardingCanBreak() returns (es: seq<Event>, n: Nid)
    ensures IsRun(EMPTY, es)
    ensures var s := After(EMPTY, es);
            n in s.nodes && s.nodes[n].owner.Some? && s.nodes[n].queued && !Inv(DiscardWork(s, n))
  {
    es := SendNew();
    n := 7;
    EveryRun(es);
    var s := After(EMPTY, es);
    assert Handle(2, 1) in RefsOf(s, n);
    DiscardWorkKeeps(s, n);
  }

  /** One reference per process and node; the descriptor identifies it. */
  lemma OneRefPerNode(s: State, p: Pid, d: nat, e: nat)
    requires Inv(s) && Handle(p, d) in s.refs && Handle(p, e) in s.refs
    ensures s.refs[Handle(p, d)].node == s.refs[Handle(p, e)].node <==> d == e
  {
  }
}
