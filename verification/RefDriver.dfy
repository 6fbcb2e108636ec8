/** The loops of the driver over references and buffer objects. */
module RefDriver {
  import opened SizeMath
  import opened NodeEffects
  import opened NodeRefs
  import opened NodeRuns
  import opened Unwind

  ghost predicate Ascends(order: seq<nat>) {
    forall i, j :: 0 <= i < j < |order| ==> order[i] < order[j]
  }

  /** The descriptor loop of binder_get_ref_for_node, over the descriptors in ascending order. */
  method PickDescriptor(order: seq<nat>, start: nat) returns (d: nat)
    requires Ascends(order) && start <= 1
    ensures d >= start && d !in order && forall e :: start <= e < d ==> e in order
  {
    d := start;
    var i := 0;
    while i < |order| && order[i] <= d
      invariant 0 <= i <= |order| && d >= start
      invariant forall e :: start <= e < d ==> e in order
      invariant forall j :: 0 <= j < i ==> order[j] < d
      invariant i < |order| ==> order[i] >= d || (i == 0 && d == start)
    {
      d := order[i] + 1;
      i := i + 1;
    }
  }

  class Table {
    var now: State

    ghost predicate Valid()
      reads this
    {
      Inv(now)
    }

    constructor ()
      ensures Valid() && now == EMPTY
    {
      now := EMPTY;
    }

    /** binder_get_ref_for_node: an existing reference, or a new one under the least unused descriptor,
        which both indexes then hold. */
    method GetRefForNode(p: Pid, n: Nid, order: seq<nat>) returns (k: Handle)
      requires Valid() && n in now.nodes && Ascends(order) && forall d :: d in order <==> Handle(p, d) in now.refs
      modifies this
      ensures k.proc == p && k in now.refs && now.refs[k].node == n && RefsOk(now)
      ensures (p, n) in old(now.byNode) ==> now == old(now) && k.desc == old(now.byNode[(p, n)])
      ensures (p, n) !in old(now.byNode) ==>
                now == WithRef(old(now), p, n, k.desc) && IsLeastFree(old(now), p, Start(old(now), n), k.desc)
    {
      if (p, n) in now.byNode {
        return Handle(p, now.byNode[(p, n)]);
      }
      var d := PickDescriptor(order, Start(now, n));
      k := Handle(p, d);
      assert k !in now.refs;
      WithRefRefs(now, p, n, d);
      now := now.(refs := now.refs[k := Ref(n, 0, 0)], byNode := now.byNode[(p, n) := d]);
    }

    /** binder_transaction_buffer_release and the freeing of the buffer. */
    method ReleaseBuffer(b: Bid)
      requires Valid() && b in now.bufs
      modifies this
      ensures Valid() && now == Released(old(now), b)
    {
      hide Inv, DropTarget, DropObject;
      var buf := now.bufs[b];
      if buf.target.Some? {
        TargetExists(now, b);
        DropTargetKeeps(now, b);
        DropTargetBuffer(now, b);
        now := DropTarget(now, b);
      }
      ghost var s1 := now;
      var i := 0;
      while i < |buf.objs|
        invariant 0 <= i <= |buf.objs| && b in now.bufs && now.bufs[b].target.None? && |now.bufs[b].objs| == |buf.objs|
        invariant Valid() && ReleaseFrom(now, b, i) == ReleaseFrom(s1, b, 0)
        invariant forall j :: 0 <= j < i ==> now.bufs[b].objs[j] == Gone
      {
        DropObjectKeeps(now, b, i);
        DropObjectBuffer(now, b, i);
        now := DropObject(now, b, i);
        i := i + 1;
      }
      CloseBufferKeeps(now, b);
      now := CloseBuffer(now, b);
    }

    /** The reference loop of binder_deferred_release: no reference of the process is left, every other one is
        untouched, and so are the nodes that somebody else needs. */
    method ExitProcess(p: Pid, ks: seq<Handle>)
      requires Valid() && Enabled(now, ProcessExit(p, ks))
      modifies this
      ensures Valid() && now == Apply(old(now), ProcessExit(p, ks))
      ensures now.refs == (map k | k in old(now).refs && k.proc != p :: old(now).refs[k]) && Exited(old(now), now, p)
    {
      hide Inv, DeleteRef, ExitNodes;
      ExitEffect(now, p, ks);
      ExitNodesKeeps(now, p);
      now := ExitNodes(now, p);
      ghost var s1 := now;
      var i := 0;
      while i < |ks|
        invariant 0 <= i <= |ks| && Valid() && DeleteRefs(now, ks[i..]) == DeleteRefs(s1, ks)
      {
        assert ks[i..][1..] == ks[i + 1..];
        if ks[i] in now.refs && now.refs[ks[i]].node in now.nodes {
          DeleteRefKeeps(now, ks[i]);
          now := DeleteRef(now, ks[i]);
        }
        i := i + 1;
      }
    }
  }

  lemma DropTargetBuffer(s: State, b: Bid)
    requires b in s.bufs && s.bufs[b].target.Some? && s.bufs[b].target.value in s.nodes
    ensures DropTarget(s, b).bufs == s.bufs[b := s.bufs[b].(target := None)]
  {
  }

  lemma DropObjectBuffer(s: State, b: Bid, i: nat)
    requires b in s.bufs && i < |s.bufs[b].objs|
    ensures DropObject(s, b, i).bufs == s.bufs[b := s.bufs[b].(objs := s.bufs[b].objs[i := Gone])]
  {
    hide DecNode, DecRef;
    var erased := SetBuffer(s, b, s.bufs[b].(objs := s.bufs[b].objs[i := Gone]));
    match s.bufs[b].objs[i]
    case Gone =>
    case HeldNode(n, strong) =>
      if n in erased.nodes { DecNodeBuffers(erased, n, strong, false); }
    case HeldRef(desc, strong) =>
      var k := Lookup(erased, s.bufs[b].owner, desc, strong);
      if k.Some? && erased.refs[k.value].node in erased.nodes { DecRefBuffers(erased, k.value, strong); }
  }

  lemma DecNodeBuffers(s: State, n: Nid, strong: bool, internal: bool)
    requires n in s.nodes
    ensures DecNode(s, n, strong, internal).bufs == s.bufs
  {
  }

  lemma DeleteRefBuffers(s: State, k: Handle)
    requires k in s.refs && s.refs[k].node in s.nodes
    ensures DeleteRef(s, k).bufs == s.bufs
  {
  }

  lemma DecRefBuffers(s: State, k: Handle, strong: bool)
    requires k in s.refs && s.refs[k].node in s.nodes
    ensures DecRef(s, k, strong).bufs == s.bufs
  {
    hide DecNode, DeleteRef;
    var r := s.refs[k];
    if (if strong then r.strong == 0 else r.weak == 0) { return; }
    var r1 := if strong then r.(strong := r.strong - 1) else r.(weak := r.weak - 1);
    var s1 := s.(refs := s.refs[k := r1]);
    DecNodeBuffers(s1, r.node, true, true);
    var s2 := if strong && r1.strong == 0 then DecNode(s1, r.node, true, true) else s1;
    if k in s2.refs && s2.refs[k].node in s2.nodes { DeleteRefBuffers(s2, k); }
  }
}
