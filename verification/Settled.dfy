/** Failed transactions in every run; and runs in which every reference counts something, because their
    unchecked increments succeed. */
module Settled {
  import opened SizeMath
  import opened NodeRefs
  import opened NodeRuns
  import opened Unwind
  import opened UnwindExactly

  /** The owner of the context manager's node knows of it from the start. */
  predicate ManagerKnown(s: State) {
    s.mgr.Some? ==> s.mgr.value in s.nodes && s.nodes[s.mgr.value].hasStrong && s.nodes[s.mgr.value].hasWeak
  }

  /** Every reference counts something. */
  ghost predicate NoZombies(s: State) {
    forall k :: k in s.refs ==> s.refs[k].strong > 0 || s.refs[k].weak > 0
  }

  ghost predicate Settled(s: State) {
    NoZombies(s) && ManagerKnown(s)
  }

  /** No owner was told anything between the two states. */
  ghost predicate FlagsKept(s: State, s': State) {
    && s'.mgr == s.mgr
    && forall n :: n in s.nodes && n in s'.nodes ==>
         s'.nodes[n].hasStrong == s.nodes[n].hasStrong && s'.nodes[n].hasWeak == s.nodes[n].hasWeak
  }

  lemma StepFlags(s: State, s': State, n: Nid)
    requires NodeStep(s, s', n) && s'.mgr == s.mgr
    ensures FlagsKept(s, s')
  {
    forall m | m in s.nodes && m in s'.nodes && m != n
      ensures s'.nodes[m] == s.nodes[m]
    {
      assert m in s.nodes - {n} && m in s'.nodes - {n};
      assert (s'.nodes - {n})[m] == (s.nodes - {n})[m];
    }
  }

  lemma FlagsSettle(s: State, s': State)
    requires Inv(s) && ManagerKnown(s) && Inv(s') && FlagsKept(s, s')
    ensures ManagerKnown(s')
  {
  }

  // ---------- the reference operations ----------

  lemma AddSettles(s: State, p: Pid, n: Nid, d: nat, strong: bool, list: bool)
    requires Inv(s) && NoZombies(s) && n in s.nodes && Handle(p, d) !in s.refs && AddRef(s, p, n, d, strong, list).1
    ensures var s' := AddRef(s, p, n, d, strong, list).0; NoZombies(s') && FlagsKept(s, s')
  {
    hide AddRef, NodeStep, NodesOk, FlagsKept;
    AddRefEffect(s, p, n, d, strong, list);
    StepFlags(s, AddRef(s, p, n, d, strong, list).0, n);
  }

  /** The driver also hands out references to the context manager without a list to queue on; that
      never fails. */
  lemma ManagerCounts(s: State, p: Pid, d: nat, strong: bool)
    requires Inv(s) && ManagerKnown(s) && s.mgr.Some? && Handle(p, d) !in s.refs
    ensures AddRef(s, p, s.mgr.value, d, strong, false).1
  {
    assert NodeOk(s, s.mgr.value);
    WithRefOfInv(s, p, s.mgr.value, d);
  }

  /** Counting up an existing reference, even in vain. */
  lemma IncSettles(s: State, k: Handle, strong: bool)
    requires Inv(s) && NoZombies(s) && k in s.refs && s.refs[k].node in s.nodes
    ensures var s' := IncRef(s, k, strong, false).0; NoZombies(s') && FlagsKept(s, s')
  {
    hide IncNode, NodesOk, NodeStep;
    var n := s.refs[k].node;
    IncFields(s, n, strong, true, false);
    var s' := IncRef(s, k, strong, false).0;
    if IncRef(s, k, strong, false).1 {
      IncRefEffect(s, k, strong, false);
      StepFlags(s, s', n);
    } else {
      InFlags(s, n, strong, true);
    }
  }

  lemma InFlags(s: State, n: Nid, strong: bool, internal: bool)
    requires n in s.nodes
    ensures var s' := IncNode(s, n, strong, internal, false).0; FlagsKept(s, s') && s'.refs == s.refs
  {
  }

  lemma DecSettles(s: State, k: Handle, strong: bool)
    requires Inv(s) && NoZombies(s) && k in s.refs && s.refs[k].node in s.nodes
    ensures var s' := DecRef(s, k, strong); NoZombies(s') && FlagsKept(s, s')
  {
    hide DecNode, DeleteRef, NodeStep, NodesOk;
    if if strong then s.refs[k].strong != 0 else s.refs[k].weak != 0 {
      hide DecRef, FlagsKept;
      DecRefEffect(s, k, strong);
      StepFlags(s, DecRef(s, k, strong), s.refs[k].node);
      CountsOf(s, k);
    }
  }

  lemma CountsOf(s: State, k: Handle)
    requires Inv(s) && k in s.refs
    ensures s.refs[k].strong >= 0 && s.refs[k].weak >= 0
  {
  }

  lemma DecNodeSettles(s: State, n: Nid, strong: bool)
    requires NoZombies(s) && n in s.nodes
    ensures var s' := DecNode(s, n, strong, false); NoZombies(s') && FlagsKept(s, s')
  {
    hide DecNode, NodeStep, FlagsKept;
    DecNodeStep(s, n, strong, false);
    StepFlags(s, DecNode(s, n, strong, false), n);
  }

  lemma {:induction false} DeleteSettles(s: State, ks: seq<Handle>)
    requires NoZombies(s)
    ensures NoZombies(DeleteRefs(s, ks)) && FlagsKept(s, DeleteRefs(s, ks))
    ensures DeleteRefs(s, ks).nodes.Keys <= s.nodes.Keys
    decreases |ks|
  {
    hide DeleteRef, NodeStep;
    if ks != [] {
      if ks[0] in s.refs && s.refs[ks[0]].node in s.nodes {
        var s1 := DeleteRef(s, ks[0]);
        DeleteRefEffect(s, ks[0]);
        StepFlags(s, s1, s.refs[ks[0]].node);
        StepKeys(s, s1, s.refs[ks[0]].node);
        DeleteSettles(s1, ks[1..]);
      } else {
        DeleteSettles(s, ks[1..]);
      }
    }
  }

  lemma StepKeys(s: State, s': State, n: Nid)
    requires NodeStep(s, s', n)
    ensures s'.nodes.Keys <= s.nodes.Keys
  {
    forall m | m in s'.nodes && m != n
      ensures m in s.nodes
    {
      assert m in s'.nodes - {n};
    }
  }

  // ---------- the events ----------

  /** An event whose unchecked increment, if it has one, succeeds. */
  ghost predicate Sure(s: State, e: Event)
    requires Enabled(s, e)
  {
    e.PutHandle? ==> Counts(s, e.b, e.p, HandleTo(e.desc, e.d, e.strong))
  }

  lemma HoldSettles(s: State, b: Bid, n: Nid, d: nat, strong: bool, list: bool)
    requires Inv(s) && NoZombies(s) && b in s.bufs && n in s.nodes && Handle(s.bufs[b].owner, d) !in s.refs
    requires AddRef(s, s.bufs[b].owner, n, d, strong, list).1
    ensures var s' := HoldRef(s, b, n, d, strong, list); NoZombies(s') && FlagsKept(s, s')
  {
    hide AddRef, NodesOk;
    AddSettles(s, s.bufs[b].owner, n, d, strong, list);
  }

  lemma PutSettles(s: State, b: Bid, p: Pid, n: Nid, d: nat, strong: bool)
    requires Inv(s) && NoZombies(s) && Enabled(s, PutBinder(b, p, n, d, strong))
    ensures var s' := PutBinderOf(s, b, p, n, d, strong); NoZombies(s') && FlagsKept(s, s')
  {
    hide Inv, HoldRef, AddRef;
    var s1 := if n in s.nodes then s else NewNode(s, n, p);
    if n !in s.nodes { NewNodeKeeps(s, n, p); }
    ListAlwaysCounts(s1, s.bufs[b].owner, n, d, strong);
    HoldSettles(s1, b, n, d, strong, true);
  }

  lemma HandleSettles(s: State, b: Bid, p: Pid, desc: nat, d: nat, strong: bool)
    requires Inv(s) && NoZombies(s) && Enabled(s, PutHandle(b, p, desc, d, strong))
    requires Counts(s, b, p, HandleTo(desc, d, strong))
    ensures var s' := PutHandleOf(s, b, p, desc, d, strong); NoZombies(s') && FlagsKept(s, s')
  {
    hide Inv, HoldRef, AddRef, IncNode;
    var n := s.refs[Handle(p, desc)].node;
    if s.nodes[n].owner == Some(s.bufs[b].owner) {
      InFlags(s, n, strong, false);
    } else {
      HoldSettles(s, b, n, d, strong, false);
    }
  }

  lemma DropSettles(s: State, b: Bid, i: nat)
    requires Inv(s) && NoZombies(s) && b in s.bufs && i < |s.bufs[b].objs|
    ensures var s' := DropObject(s, b, i); NoZombies(s') && FlagsKept(s, s')
  {
    hide DecNode, DecRef, Inv;
    var s1 := SetBuffer(s, b, s.bufs[b].(objs := s.bufs[b].objs[i := Gone]));
    match s.bufs[b].objs[i]
    case Gone =>
    case HeldNode(n, strong) =>
      if n in s1.nodes { DecNodeSettles(s1, n, strong); }
    case HeldRef(desc, strong) =>
      EraseRefKeeps(s, b, i);
      var k := Lookup(s1, s.bufs[b].owner, desc, strong);
      if k.Some? && s1.refs[k.value].node in s1.nodes { DecSettles(s1, k.value, strong); }
  }

  lemma WorkSettles(s: State, n: Nid)
    requires Inv(s) && Settled(s) && n in s.nodes && s.nodes[n].owner.Some? && s.nodes[n].queued
    ensures NoZombies(NodeWork(s, n)) && ManagerKnown(NodeWork(s, n))
  {
    hide Inv, WeakNow, StrongNow;
    NodeWorkKeeps(s, n);
    if s.mgr.Some? { ManagerUsed(s); }
    ManagerThere(NodeWork(s, n));
  }

  lemma ManagerThere(s: State)
    requires Inv(s)
    ensures s.mgr.Some? ==> s.mgr.value in s.nodes
  {
  }

  lemma ExitSettles(s: State, p: Pid, ks: seq<Handle>)
    requires Inv(s) && Settled(s) && Enabled(s, ProcessExit(p, ks))
    ensures Settled(DeleteRefs(ExitNodes(s, p), ks))
  {
    hide Inv, DeleteRefs;
    var s1 := ExitNodes(s, p);
    ExitNodesKeeps(s, p);
    DeleteRefsKeeps(s1, ks);
    ManagerThere(s1);
    DeleteSettles(s1, ks);
    FlagsSettle(s1, DeleteRefs(s1, ks));
  }

  lemma CommandSettles(s: State, p: Pid, desc: nat, strong: bool, d: nat)
    requires Inv(s) && Settled(s) && Enabled(s, IncCommand(p, desc, strong, d))
    ensures var s' := Apply(s, IncCommand(p, desc, strong, d)); NoZombies(s') && FlagsKept(s, s')
  {
    hide Inv, AddRef, IncRef, IsLeastFree, FlagsKept;
    if desc == 0 && s.mgr.Some? {
      LeastIsFree(s, p, 0, d);
      ManagerCounts(s, p, d, strong);
      AddSettles(s, p, s.mgr.value, d, strong, false);
    } else {
      IncSettles(s, Handle(p, desc), strong);
    }
  }

  lemma AckSettles(s: State, n: Nid, strong: bool)
    requires NoZombies(s) && n in s.nodes
    ensures NoZombies(Done(s, n, strong)) && FlagsKept(s, Done(s, n, strong))
  {
    hide DecNode;
    var x := s.nodes[n];
    var s1 := s.(nodes := s.nodes[n := if strong then x.(pendStrong := false) else x.(pendWeak := false)]);
    DecNodeSettles(s1, n, strong);
  }

  lemma EventSettles(s: State, e: Event)
    requires Inv(s) && Settled(s) && Enabled(s, e) && Sure(s, e) && !e.SetManager? && !e.ReadWork? && !e.ProcessExit?
    ensures NoZombies(Apply(s, e)) && FlagsKept(s, Apply(s, e))
  {
    hide Inv, IncNode, DecNode, AddRef, IncRef, DecRef, DropObject, PutBinderOf, PutHandleOf, Counts, IsLeastFree, Done;
    match e
    case IncCommand(p, desc, strong, d) => CommandSettles(s, p, desc, strong, d);
    case DecCommand(p, desc, strong) => DecSettles(s, Handle(p, desc), strong);
    case AckCommand(n, strong) => AckSettles(s, n, strong);
    case StartCall(b, p, desc) => InFlags(s, CallTarget(s, p, desc).value, true, false);
    case StartReply(b, q) =>
    case PutBinder(b, p, n, d, strong) => PutSettles(s, b, p, n, d, strong);
    case PutHandle(b, p, desc, d, strong) => HandleSettles(s, b, p, desc, d, strong);
    case LeaveNode(p, n) =>
    case FreeTarget(b) => DecNodeSettles(SetBuffer(s, b, s.bufs[b].(target := None)), s.bufs[b].target.value, true);
    case FreeObject(b, i) => DropSettles(s, b, i);
    case FreeBuffer(b) =>
  }

  lemma LeastIsFree(s: State, p: Pid, start: nat, d: nat)
    requires IsLeastFree(s, p, start, d)
    ensures Handle(p, d) !in s.refs
  {
  }

  lemma StepSettles(s: State, e: Event)
    requires Inv(s) && Settled(s) && Enabled(s, e) && Sure(s, e)
    ensures Settled(Apply(s, e))
  {
    hide Inv, Sure, FlagsKept, DeleteRefs, ExitNodes, NodeWork;
    if e.ReadWork? {
      WorkSettles(s, e.n);
    } else if e.ProcessExit? {
      ExitSettles(s, e.p, e.ks);
    } else if !e.SetManager? {
      hide Enabled, Apply;
      EventSettles(s, e);
      StepKeeps(s, e);
      FlagsSettle(s, Apply(s, e));
    }
  }

  ghost predicate SureRun(s: State, es: seq<Event>)
    requires IsRun(s, es)
    decreases |es|
  {
    es == [] || (Sure(s, es[0]) && SureRun(Apply(s, es[0]), es[1..]))
  }

  lemma {:induction false} RunsSettle(s: State, es: seq<Event>)
    requires Inv(s) && Settled(s) && IsRun(s, es) && SureRun(s, es)
    ensures Inv(After(s, es)) && Settled(After(s, es))
    decreases |es|
  {
    hide Inv, Settled, Enabled, Apply, Sure;
    if es != [] {
      StepKeeps(s, es[0]);
      StepSettles(s, es[0]);
      RunsSettle(Apply(s, es[0]), es[1..]);
    }
  }

  // ---------- failed transactions ----------

  /** What the objects of a list are, told from the state before the transaction. */
  function Foreseen(s0: State, o: Pid, p: Pid, puts: seq<Put>): seq<Resolved> {
    seq(|puts|, i requires 0 <= i < |puts| => Resolve(s0, o, p, puts[i]))
  }

  lemma ForeseenAll(s0: State, b: Bid, o: Pid, p: Pid, e: Event, puts: seq<Put>)
    requires Inv(s0) && IsStart(e, b) && Enabled(s0, e) && Translates(Apply(s0, e), b, p, puts)
    requires b in Apply(s0, e).bufs && Apply(s0, e).bufs[b].owner == o && p != o
    ensures ResolvedAll(Apply(s0, e), b, o, p, puts) == Foreseen(s0, o, p, puts)
  {
    hide Inv, Enabled, Apply, Translates, ResolvedAll, Resolve, Going;
    var s1 := Apply(s0, e);
    StartBalances(s0, b, e);
    ResolvedLength(s1, b, o, p, puts);
    forall i | 0 <= i < |puts|
      ensures ResolvedAll(s1, b, o, p, puts)[i] == Resolve(s0, o, p, puts[i])
    {
      ForeseenIsResolved(s0, s1, b, o, p, puts, i);
    }
  }

  /** After every run, a transaction to another process that fails at any object leaves no trace, that is,
      references, counts, indexes and buffers are what they were, exactly if its list is restorable. */
  lemma EveryUnwind(es: seq<Event>, b: Bid, p: Pid, e: Event, puts: seq<Put>)
    requires IsRun(EMPTY, es) && IsStart(e, b) && Enabled(After(EMPTY, es), e)
    requires Translates(Apply(After(EMPTY, es), e), b, p, puts)
    ensures var s0 := After(EMPTY, es);
            var s1 := Apply(s0, e);
            && b in s1.bufs && b in Translated(s1, b, p, puts).bufs
            && var o, s2 := s1.bufs[b].owner, Translated(s1, b, p, puts);
               && (Restored(s0, Released(s2, b), {}) <==> Restorable(s0, o, ResolvedAll(s1, b, o, p, puts)))
               && (p != o ==> ResolvedAll(s1, b, o, p, puts) == Foreseen(s0, o, p, puts))
  {
    hide IsRun, After, Apply, Enabled, Translates, Translated, Restored, Released, Restorable, ResolvedAll, Inv,
        Foreseen;
    var s0 := After(EMPTY, es);
    EveryRun(es);
    UnwindRestores(s0, b, p, e, puts);
    var o := Apply(s0, e).bufs[b].owner;
    if p != o { ForeseenAll(s0, b, o, p, e, puts); }
  }

  /** Where every increment succeeds, and did so before, the list always is restorable. */
  lemma SureIsRestorable(es: seq<Event>, o: Pid, rs: seq<Resolved>)
    requires IsRun(EMPTY, es) && SureRun(EMPTY, es)
    requires forall i :: 0 <= i < |rs| && rs[i].ToRef? ==> rs[i].counts
    ensures Restorable(After(EMPTY, es), o, rs)
  {
    hide IsRun, SureRun, After;
    assert Inv(EMPTY) && Settled(EMPTY);
    RunsSettle(EMPTY, es);
    var s0 := After(EMPTY, es);
    forall n: Nid | Names(rs, n)
      ensures if (o, n) in s0.byNode then Zombie(s0, Handle(o, s0.byNode[(o, n)])) ==> !SomeCounts(rs, n)
          else SomeCounts(rs, n)
    {
      var i :| 0 <= i < |rs| && rs[i].ToRef? && rs[i].node == n;
      assert rs[i] == ToRef(n, true);
    }
  }

  /** A list that is not restorable can come up: process 2 was sent a weak reference to a node of process 1,
      which exited before it read of it, and passes the handle on to process 3. */
  lemma UnrestorableReachable() returns (es: seq<Event>, e: Event, puts: seq<Put>)
    ensures IsRun(EMPTY, es) && IsStart(e, 2) && Enabled(After(EMPTY, es), e)
    ensures var s0 := After(EMPTY, es);
            Translates(Apply(s0, e), 2, 2, puts) && !Restorable(s0, 3, Foreseen(s0, 3, 2, puts))
  {
    var exit := ProcessExit(1, []);
    es := SendNew();
    OwnerExits(After(EMPTY, es));
    RunThen(EMPTY, es, exit);
    es := es + [exit];
    e := StartReply(2, 3);
    puts := [HandleTo(1, 1, false)];
    PassedOn(After(EMPTY, es));
  }

  const NEW_NODE: Node := NodeRefs.BLANK.(owner := Some(1), queued := true)

  lemma OwnerExits(s: State)
    requires s.nodes == map[7 := NEW_NODE] && s.refs == map[Handle(2, 1) := Ref(7, 0, 1)] && s.mgr.None?
    ensures Enabled(s, ProcessExit(1, []))
    ensures Apply(s, ProcessExit(1, [])).nodes == map[7 := NodeRefs.BLANK]
    ensures Apply(s, ProcessExit(1, [])).refs == s.refs && Apply(s, ProcessExit(1, [])).byNode == s.byNode
    ensures 2 !in s.bufs ==> 2 !in Apply(s, ProcessExit(1, [])).bufs
    ensures Apply(s, ProcessExit(1, [])).mgr.None?
  {
    assert Handle(2, 1) in RefsOf(s, 7);
  }

  lemma PassedOn(s0: State)
    requires s0.nodes == map[7 := NodeRefs.BLANK] && s0.refs == map[Handle(2, 1) := Ref(7, 0, 1)]
    requires s0.byNode == map[(2, 7) := 1] && 2 !in s0.bufs && s0.mgr.None?
    ensures var e, puts := StartReply(2, 3), [HandleTo(1, 1, false)];
            Enabled(s0, e) && Translates(Apply(s0, e), 2, 2, puts) && !Restorable(s0, 3, Foreseen(s0, 3, 2, puts))
  {
    var e, put := StartReply(2, 3), HandleTo(1, 1, false);
    var s1, rs := Apply(s0, e), Foreseen(s0, 3, 2, [put]);
    assert Enabled(s1, AsEvent(2, 2, put)) && [put][1..] == [];
    assert rs == [ToRef(7, false)];
    assert rs[0].ToRef? && rs[0].node == 7;
    assert Names(rs, 7) && !SomeCounts(rs, 7);
  }

  // ---------- when an unchecked increment fails ----------

  lemma DropLeavesZombie(s: State, b: Bid, i: nat, k: Handle)
    requires Inv(s) && b in s.bufs && i < |s.bufs[b].objs| && Zombie(s, k)
    ensures Zombie(DropObject(s, b, i), k)
  {
    hide DecNode, Inv, DeleteRef, NodeStep;
    var s1 := SetBuffer(s, b, s.bufs[b].(objs := s.bufs[b].objs[i := Gone]));
    match s.bufs[b].objs[i]
    case Gone =>
    case HeldNode(n, strong) =>
      if n in s1.nodes { DecNodeStep(s1, n, strong, false); }
    case HeldRef(desc, strong) =>
      var j := Lookup(s1, s.bufs[b].owner, desc, strong);
      if j.Some? && s1.refs[j.value].node in s1.nodes {
        if if strong then s1.refs[j.value].strong != 0 else s1.refs[j.value].weak != 0 {
          DecRefEffect(s1, j.value, strong);
        }
      }
  }

  lemma {:induction false} ReleaseLeavesZombie(s: State, b: Bid, i: nat, k: Handle)
    requires Inv(s) && b in s.bufs && i <= |s.bufs[b].objs| && Zombie(s, k)
    ensures Zombie(ReleaseFrom(s, b, i), k)
    decreases |s.bufs[b].objs| - i
  {
    hide Inv, DropObject;
    if i < |s.bufs[b].objs| {
      DropObjectKeeps(s, b, i);
      DropLeavesZombie(s, b, i, k);
      var s' := DropObject(s, b, i);
      if b in s'.bufs && |s'.bufs[b].objs| == |s.bufs[b].objs| {
        ReleaseLeavesZombie(s', b, i + 1, k);
      }
    }
  }

  /** The condition on increments is needed: where one fails for a reference just created, that
      reference is still there, counting nothing, after everything has been released. */
  lemma UncountedIsLeft(s: State, b: Bid, p: Pid, desc: nat, d: nat, strong: bool)
    requires Inv(s) && Enabled(s, PutHandle(b, p, desc, d, strong)) && !Counts(s, b, p, HandleTo(desc, d, strong))
    requires (s.bufs[b].owner, s.refs[Handle(p, desc)].node) !in s.byNode
    ensures var k, s1 := Handle(s.bufs[b].owner, d), PutHandleOf(s, b, p, desc, d, strong);
            k !in s.refs && b in s1.bufs && Zombie(Released(s1, b), k)
  {
    hide Inv, DecNode, ReleaseFrom, NodeStep;
    var k, s1 := Handle(s.bufs[b].owner, d), PutHandleOf(s, b, p, desc, d, strong);
    PutHandleKeeps(s, b, p, desc, d, strong);
    assert Zombie(s1, k);
    var s2 := s1;
    if s1.bufs[b].target.Some? {
      TargetExists(s1, b);
      DropTargetKeeps(s1, b);
      DecNodeStep(SetBuffer(s1, b, s1.bufs[b].(target := None)), s1.bufs[b].target.value, true, false);
      s2 := DropTarget(s1, b);
    }
    ReleaseLeavesZombie(s2, b, 0, k);
  }
}
