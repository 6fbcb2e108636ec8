/** A failed transaction: translating some objects and then releasing them again restores references,
    counts and descriptors. */
module Unwind {
  import opened SizeMath
  import opened NodeRefs
  import opened NodeRuns

  // ---------- what one reference operation does ----------

  /** Fields of a node that counting up and down never touches. */
  predicate SameRecord(x: Node, y: Node) {
    && x.owner == y.owner && x.hasStrong == y.hasStrong && x.hasWeak == y.hasWeak
    && x.pendStrong == y.pendStrong && x.pendWeak == y.pendWeak
  }

  /** Nodes change at `n` only; `n` keeps its record, stays only if the owner knows of it or something
      uses it, and is freed only if the owner does not know of it or is gone. */
  ghost predicate NodeStep(s: State, s': State, n: Nid) {
    && n in s.nodes && s'.nodes - {n} == s.nodes - {n}
    && (n in s'.nodes ==> SameRecord(s'.nodes[n], s.nodes[n]))
    && (n in s'.nodes ==> s'.nodes[n].hasStrong || s'.nodes[n].hasWeak || WeakNow(s', n))
    && (n !in s'.nodes ==> s.nodes[n].owner.None? || (!s.nodes[n].hasStrong && !s.nodes[n].hasWeak))
  }

  /** The reference table after one count of `k` went down. */
  function Lowered(s: State, k: Handle, strong: bool): map<Handle, Ref>
    requires k in s.refs
  {
    var r := s.refs[k];
    var r1 := if strong then r.(strong := r.strong - 1) else r.(weak := r.weak - 1);
    if r1.strong == 0 && r1.weak == 0 then s.refs - {k} else s.refs[k := r1]
  }

  lemma DecNodeStep(s: State, n: Nid, strong: bool, internal: bool)
    requires n in s.nodes
    ensures var s' := DecNode(s, n, strong, internal);
            NodeStep(s, s', n) && s'.refs == s.refs && s'.byNode == s.byNode && s'.bufs == s.bufs && s'.mgr == s.mgr
  {
    DecFields(s, n, strong, internal);
    var s' := DecNode(s, n, strong, internal);
    assert RefsOf(s', n) == RefsOf(s, n);
  }

  lemma DeleteRefEffect(s: State, k: Handle)
    requires k in s.refs && s.refs[k].node in s.nodes
    ensures var s' := DeleteRef(s, k);
            NodeStep(s, s', s.refs[k].node) && s'.refs == s.refs - {k} && s'.bufs == s.bufs && s'.mgr == s.mgr
  {
    hide DecNode;
    var n := s.refs[k].node;
    var s1 := if s.refs[k].strong != 0 then DecNode(s, n, true, true) else s;
    if s.refs[k].strong != 0 {
      assert k in RefsOf(s, n);
      ReferencedStays(s, n, true, true);
      DecNodeStep(s, n, true, true);
    }
    var s2 := Unindex(s1, k);
    DecNodeStep(s2, n, false, true);
    NodeStepTrans(s, s1, s2, DecNode(s2, n, false, true), n);
  }

  lemma NodeStepTrans(s: State, s1: State, s2: State, s3: State, n: Nid)
    requires n in s.nodes && s1.nodes - {n} == s.nodes - {n} && n in s1.nodes && SameRecord(s1.nodes[n], s.nodes[n])
    requires s2.nodes == s1.nodes && NodeStep(s2, s3, n)
    ensures NodeStep(s, s3, n)
  {
  }

  /** With a reference left, counting down frees nothing. */
  lemma ReferencedStays(s: State, n: Nid, strong: bool, internal: bool)
    requires n in s.nodes && RefsOf(s, n) != {}
    ensures n in DecNode(s, n, strong, internal).nodes && DecNode(s, n, strong, internal).refs == s.refs
  {
  }

  lemma DecRefEffect(s: State, k: Handle, strong: bool)
    requires k in s.refs && s.refs[k].node in s.nodes && (if strong then s.refs[k].strong != 0 else s.refs[k].weak != 0)
    ensures var s' := DecRef(s, k, strong);
            NodeStep(s, s', s.refs[k].node) && s'.refs == Lowered(s, k, strong) && s'.bufs == s.bufs && s'.mgr == s.mgr
  {
    hide DecNode, DeleteRef;
    var r := s.refs[k];
    var n := r.node;
    var r1 := if strong then r.(strong := r.strong - 1) else r.(weak := r.weak - 1);
    var s1 := s.(refs := s.refs[k := r1]);
    var s2 := s1;
    if strong && r1.strong == 0 {
      s2 := DecNode(s1, n, true, true);
      assert k in RefsOf(s1, n);
      ReferencedStays(s1, n, true, true);
      DecNodeStep(s1, n, true, true);
    }
    if r1.strong == 0 && r1.weak == 0 {
      DeleteRefEffect(s2, k);
      NodeStepTrans(s, s2, s2, DeleteRef(s2, k), n);
    } else {
      assert k in RefsOf(s2, n);
    }
  }

  /** The reference table after a successful AddRef. */
  function Raised(s: State, p: Pid, n: Nid, d: nat, strong: bool): map<Handle, Ref> {
    var k := if (p, n) in s.byNode then Handle(p, s.byNode[(p, n)]) else Handle(p, d);
    var r := if k in s.refs then s.refs[k] else Ref(n, 0, 0);
    s.refs[k := if strong then r.(strong := r.strong + 1) else r.(weak := r.weak + 1)]
  }

  lemma IncRefEffect(s: State, k: Handle, strong: bool, list: bool)
    requires k in s.refs && s.refs[k].node in s.nodes && IncRef(s, k, strong, list).1
    ensures var s', r := IncRef(s, k, strong, list).0, s.refs[k];
            && NodeStep(s, s', r.node) && r.node in s'.nodes
            && s'.bufs == s.bufs && s'.mgr == s.mgr && s'.byNode == s.byNode
            && s'.refs == s.refs[k := if strong then r.(strong := r.strong + 1) else r.(weak := r.weak + 1)]
  {
    hide IncNode;
    IncFields(s, s.refs[k].node, strong, true, list);
    var s' := IncRef(s, k, strong, list).0;
    assert k in RefsOf(s', s.refs[k].node);
  }

  lemma AddRefEffect(s: State, p: Pid, n: Nid, d: nat, strong: bool, list: bool)
    requires RefsOk(s) && n in s.nodes && Handle(p, d) !in s.refs && AddRef(s, p, n, d, strong, list).1
    ensures var s' := AddRef(s, p, n, d, strong, list).0;
            && NodeStep(s, s', n) && n in s'.nodes && s'.bufs == s.bufs && s'.mgr == s.mgr
            && s'.refs == Raised(s, p, n, d, strong)
            && (p, n) in s'.byNode && s'.byNode[(p, n)] == if (p, n) in s.byNode then s.byNode[(p, n)] else d
  {
    hide IncRef, RefsOk, NodeStep;
    WithRefRefs(s, p, n, d);
    var s1 := WithRef(s, p, n, d);
    IncRefEffect(s1, Handle(p, s1.byNode[(p, n)]), strong, list);
    NodeStepTrans(s, s, s1, AddRef(s, p, n, d, strong, list).0, n);
  }

  /** A count that binder_inc_ref refuses leaves at most the reference made for it. */
  lemma AddRefFails(s: State, p: Pid, n: Nid, d: nat)
    requires RefsOk(s) && n in s.nodes && Handle(p, d) !in s.refs && !AddRef(s, p, n, d, false, false).1
    ensures AddRef(s, p, n, d, false, false).0 == WithRef(s, p, n, d)
  {
    WithRefRefs(s, p, n, d);
    var s1 := WithRef(s, p, n, d);
    assert s1.nodes[n := s1.nodes[n]] == s1.nodes;
  }

  // ---------- the balance ----------

  function Times(buf: Buffer, desc: nat, strong: bool): nat {
    multiset(buf.objs)[HeldRef(desc, strong)]
  }

  predicate Zombie(s: State, k: Handle) {
    k in s.refs && s.refs[k].strong == 0 && s.refs[k].weak == 0
  }

  /** Weak objects of this reference are never counted: its node's owner is gone and was never told of
      the node, and the reference had no weak count when the transaction began. */
  predicate Mute(s0: State, s1: State, k: Handle)
    requires k in s1.refs
  {
    var n := s1.refs[k].node;
    n in s0.nodes && s0.nodes[n].owner.None? && !s0.nodes[n].hasWeak && (k in s0.refs ==> s0.refs[k].weak == 0)
  }

  /** What was counted before the transaction and what the objects in the buffer count. */
  function Base(s0: State, k: Handle): (int, int) {
    if k in s0.refs then (s0.refs[k].strong, s0.refs[k].weak) else (0, 0)
  }

  function Strongs(s: State, b: Bid, k: Handle): nat
    requires b in s.bufs
  {
    if k.proc == s.bufs[b].owner then Times(s.bufs[b], k.desc, true) else 0
  }

  function Weaks(s: State, b: Bid, k: Handle): nat
    requires b in s.bufs
  {
    if k.proc == s.bufs[b].owner then Times(s.bufs[b], k.desc, false) else 0
  }

  function Counted(s0: State, s1: State, s: State, b: Bid, k: Handle): nat
    requires b in s.bufs && k in s1.refs
  {
    if Mute(s0, s1, k) then 0 else Weaks(s, b, k)
  }

  /** `s1` is the state in which the last object was translated. A reference is what it was in `s0` plus
      what the objects left in the buffer count. It goes when its last count goes; one that counted nothing
      in `s1` is not touched. */
  ghost predicate RefBalanced(s0: State, s1: State, s: State, b: Bid, k: Handle)
    requires b in s.bufs
  {
    if k !in s1.refs then k !in s.refs && k !in s0.refs && Strongs(s, b, k) == Weaks(s, b, k) == 0
    else
      var strong, weak := Base(s0, k).0 + Strongs(s, b, k), Base(s0, k).1 + Counted(s0, s1, s, b, k);
      && (k in s0.refs ==> s1.refs[k].node == s0.refs[k].node)
      && (k !in s0.refs ==> k.proc == s.bufs[b].owner)
      && (k in s.refs <==> strong + weak > 0 || Zombie(s1, k))
      && (k in s.refs ==> s.refs[k] == Ref(s1.refs[k].node, strong, weak))
      && (Zombie(s1, k) ==> strong == weak == 0)
  }

  /** A node known before keeps its record while it is there, and is there while it is in use; a node
      made by the transaction is there only while it is in use. `leaked` are nodes made for an object
      whose translation then failed. */
  ghost predicate NodeBalanced(s0: State, s: State, leaked: set<Nid>, n: Nid) {
    && (n in s0.nodes && n in s.nodes ==> SameRecord(s.nodes[n], s0.nodes[n]))
    && (n in s0.nodes && WeakNow(s0, n) ==> n in s.nodes)
    && (n !in s0.nodes && n !in leaked && n in s.nodes ==>
          !s.nodes[n].hasStrong && !s.nodes[n].hasWeak && s.nodes[n].owner.Some? && WeakNow(s, n))
  }

  ghost predicate OnlyBuffer(s0: State, s: State, b: Bid) {
    b !in s0.bufs && b in s.bufs && s.bufs - {b} == s0.bufs && s.mgr == s0.mgr
  }

  ghost predicate RefsBalanced(s0: State, s1: State, s: State, b: Bid) {
    OnlyBuffer(s0, s, b) && forall k {:trigger RefBalanced(s0, s1, s, b, k)} :: RefBalanced(s0, s1, s, b, k)
  }

  ghost predicate NodesBalanced(s0: State, s: State, leaked: set<Nid>) {
    forall n {:trigger NodeBalanced(s0, s, leaked, n)} :: NodeBalanced(s0, s, leaked, n)
  }

  /** While objects are translated. */
  ghost predicate Balanced(s0: State, s: State, b: Bid, leaked: set<Nid>) {
    RefsBalanced(s0, s, s, b) && NodesBalanced(s0, s, leaked)
  }

  ghost predicate RefsKept(s0: State, s: State) {
    forall k :: k in s0.refs ==> k in s.refs && s.refs[k].node == s0.refs[k].node
  }

  // ---------- the end ----------

  /** When every object has been released and the buffer is closed, references, buffers and counts are
      exactly what they were; only whether a node's work item is queued may differ. */
  ghost predicate Restored(s0: State, s: State, leaked: set<Nid>) {
    && s.refs == s0.refs && s.byNode == s0.byNode && s.bufs == s0.bufs && s.mgr == s0.mgr
    && s.nodes.Keys <= s0.nodes.Keys + leaked
    && (forall n :: n in s0.nodes && WeakNow(s0, n) ==> n in s.nodes)
    && (forall n :: n in s0.nodes && n in s.nodes ==> s.nodes[n] == s0.nodes[n].(queued := s.nodes[n].queued))
  }

  /** Every reference made by the transaction counts something when it fails, and none that counted
      nothing before does. */
  ghost predicate Kept(s0: State, s1: State) {
    forall k :: k in s1.refs ==> if k in s0.refs then Zombie(s0, k) ==> Zombie(s1, k) else !Zombie(s1, k)
  }

  lemma SameIndexes(s: State, s': State)
    requires RefsOk(s) && RefsOk(s') && s'.refs == s.refs
    ensures s'.byNode == s.byNode
  {
    assert s'.byNode.Keys == s.byNode.Keys by {
      forall p, n
        ensures (p, n) in s.byNode <==> (p, n) in s'.byNode
      {
        if (p, n) in s.byNode {
          assert Handle(p, s.byNode[(p, n)]) in s'.refs;
        }
        if (p, n) in s'.byNode {
          assert Handle(p, s'.byNode[(p, n)]) in s.refs;
        }
      }
      assert forall x :: x in s.byNode ==> (x.0, x.1) in s'.byNode;
      assert forall x :: x in s'.byNode ==> (x.0, x.1) in s.byNode;
    }
    forall x | x in s.byNode
      ensures s'.byNode[x] == s.byNode[x]
    {
      var k := Handle(x.0, s.byNode[(x.0, x.1)]);
      assert k in s'.refs && s'.refs[k].node == x.1;
    }
  }

  /** Counts are determined by references, buffers and pending flags. */
  lemma SameCounts(s0: State, s: State, n: Nid)
    requires Inv(s0) && Inv(s) && n in s0.nodes && n in s.nodes && SameRecord(s.nodes[n], s0.nodes[n])
    requires s.refs == s0.refs && s.bufs == s0.bufs && s.mgr == s0.mgr
    ensures s.nodes[n] == s0.nodes[n].(queued := s.nodes[n].queued)
  {
    assert NodeOk(s0, n) && NodeOk(s, n);
    SameRefs(s0, s);
  }

  lemma ReleasedRefs(s0: State, s1: State, s: State, b: Bid)
    requires RefsOk(s0) && RefsBalanced(s0, s1, s, b)
    requires forall i :: 0 <= i < |s.bufs[b].objs| ==> s.bufs[b].objs[i] == Gone
    ensures s.refs == s0.refs <==> Kept(s0, s1)
  {
    forall k
      ensures k !in s1.refs ==> k !in s.refs && k !in s0.refs
      ensures k in s1.refs ==>
                && (k in s.refs <==> Zombie(s1, k) || (k in s0.refs && !Zombie(s0, k)))
                && (k in s.refs && k in s0.refs ==> s.refs[k] == s0.refs[k])
    {
      assert RefBalanced(s0, s1, s, b, k);
      assert HeldRef(k.desc, true) !in s.bufs[b].objs && HeldRef(k.desc, false) !in s.bufs[b].objs;
    }
    if s.refs == s0.refs {
      forall k | k in s1.refs
        ensures if k in s0.refs then Zombie(s0, k) ==> Zombie(s1, k) else !Zombie(s1, k)
      {
        assert k in s.refs <==> k in s0.refs;
      }
    }
  }

  lemma BalancedEmptyIsRestored(s0: State, s1: State, s: State, b: Bid, leaked: set<Nid>)
    requires Inv(s0) && Inv(s) && RefsBalanced(s0, s1, s, b) && NodesBalanced(s0, s, leaked) && Kept(s0, s1)
    requires s.bufs[b].target.None? && forall i :: 0 <= i < |s.bufs[b].objs| ==> s.bufs[b].objs[i] == Gone
    ensures Restored(s0, CloseBuffer(s, b), leaked) && Inv(CloseBuffer(s, b))
  {
    hide Inv, NodeBalanced, RefBalanced, Kept;
    var s' := CloseBuffer(s, b);
    CloseBufferKeeps(s, b);
    RefsOfInv(s0);
    RefsOfInv(s');
    ReleasedRefs(s0, s1, s, b);
    SameIndexes(s0, s');
    forall n
      ensures n in s'.nodes ==> n in s0.nodes || n in leaked
      ensures n in s0.nodes && WeakNow(s0, n) ==> n in s'.nodes
      ensures n in s0.nodes && n in s'.nodes ==> s'.nodes[n] == s0.nodes[n].(queued := s'.nodes[n].queued)
    {
      EndNode(s0, s, b, leaked, n);
    }
  }

  lemma RefsOfInv(s: State)
    requires Inv(s)
    ensures RefsOk(s)
  {
  }

  /** A node made since, which nothing of what was there before mentions, is not in use. */
  lemma NewIsUnused(s0: State, s: State, n: Nid)
    requires Inv(s0) && Inv(s) && n !in s0.nodes && n in s.nodes && s.nodes[n].owner.Some?
    requires !s.nodes[n].hasStrong && !s.nodes[n].hasWeak
    requires s.refs == s0.refs && s.bufs == s0.bufs && s.mgr == s0.mgr
    ensures !WeakNow(s, n)
  {
    FreshIsUnused(s0, n);
    SameRefs(s0, s);
    assert NodeOk(s, n);
  }

  lemma WeakAfterClose(s: State, b: Bid, n: Nid)
    requires n in s.nodes
    ensures WeakNow(CloseBuffer(s, b), n) == WeakNow(s, n)
  {
    assert RefsOf(CloseBuffer(s, b), n) == RefsOf(s, n);
  }

  lemma EndNode(s0: State, s: State, b: Bid, leaked: set<Nid>, n: Nid)
    requires Inv(s0) && Inv(s) && OnlyBuffer(s0, s, b) && NodeBalanced(s0, s, leaked, n)
    requires Inv(CloseBuffer(s, b)) && s.refs == s0.refs
    ensures var s' := CloseBuffer(s, b);
            && (n in s'.nodes ==> n in s0.nodes || n in leaked)
            && (n in s0.nodes && WeakNow(s0, n) ==> n in s'.nodes)
            && (n in s0.nodes && n in s'.nodes ==> s'.nodes[n] == s0.nodes[n].(queued := s'.nodes[n].queued))
  {
    var s' := CloseBuffer(s, b);
    if n in s'.nodes && n !in s0.nodes && n !in leaked {
      NewIsUnused(s0, s', n);
      WeakAfterClose(s, b, n);
    }
    if n in s0.nodes && n in s'.nodes {
      SameCounts(s0, s', n);
    }
  }

  // ---------- nodes stay balanced ----------

  lemma NodeStaysBalanced(s0: State, s: State, s': State, b: Bid, leaked: set<Nid>, n: Nid, m: Nid)
    requires Inv(s0) && Inv(s) && Inv(s') && NodesBalanced(s0, s, leaked) && NodeStep(s, s', n)
    requires OnlyBuffer(s0, s', b) && RefsKept(s0, s')
    requires m != n ==> RefsOf(s', m) == RefsOf(s, m)
    ensures NodeBalanced(s0, s', leaked, m)
  {
    assert NodeBalanced(s0, s, leaked, m);
    if m != n {
      assert m in s.nodes <==> m in s.nodes - {n};
      assert m in s'.nodes <==> m in s'.nodes - {n};
    } else if n in s0.nodes && n !in s'.nodes {
      FreedWasUnused(s0, s, s', b, n);
    }
  }

  lemma FreedWasUnused(s0: State, s: State, s': State, b: Bid, n: Nid)
    requires Inv(s0) && Inv(s) && Inv(s') && n in s0.nodes && n in s.nodes && n !in s'.nodes
    requires SameRecord(s.nodes[n], s0.nodes[n]) && NodeStep(s, s', n) && OnlyBuffer(s0, s', b) && RefsKept(s0, s')
    ensures !WeakNow(s0, n)
  {
    hide NodesOk, RefsOk, BufsOk;
    FreshIsUnused(s', n);
    assert NodeOk(s0, n) && NodeOk(s, n) by { NodesOfInv(s0, n); NodesOfInv(s, n); }
    forall k | k in s0.refs
      ensures s0.refs[k].node != n
    {
      assert k !in RefsOf(s', n);
    }
    assert RefsOf(s0, n) == {} && StrongRefsOf(s0, n) == {};
    assert forall c :: c in s0.bufs ==> c in s'.bufs - {b};
    assert forall c :: c in s0.bufs ==> c in s'.bufs && s'.bufs[c] == s0.bufs[c];
    assert TargetedBy(s0, n) <= TargetedBy(s', n);
    NamedSubset(s0, s', HeldNode(n, true));
    NamedSubset(s0, s', HeldNode(n, false));
  }

  lemma NodesOfInv(s: State, n: Nid)
    requires Inv(s) && n in s.nodes
    ensures NodeOk(s, n)
  {
  }

  lemma NamedSubset(s: State, s': State, h: Held)
    requires forall c :: c in s.bufs ==> c in s'.bufs && s'.bufs[c] == s.bufs[c]
    ensures ObjectsNaming(s, h) <= ObjectsNaming(s', h)
  {
    forall x: (Bid, nat) | x in ObjectsNaming(s, h)
      ensures x in ObjectsNaming(s', h)
    {
      NamedMember(s, h, x);
      NamedMember(s', h, x);
    }
  }

  lemma NodesStayBalanced(s0: State, s: State, s': State, b: Bid, leaked: set<Nid>, n: Nid)
    requires Inv(s0) && Inv(s) && Inv(s') && NodesBalanced(s0, s, leaked) && NodeStep(s, s', n)
    requires OnlyBuffer(s0, s', b) && RefsKept(s0, s')
    requires forall m :: m != n ==> RefsOf(s', m) == RefsOf(s, m)
    ensures NodesBalanced(s0, s', leaked)
  {
    hide Inv, NodeStep, NodeBalanced, NodesBalanced, RefsOf, RefsKept, OnlyBuffer;
    forall m
      ensures NodeBalanced(s0, s', leaked, m)
    {
      NodeStaysBalanced(s0, s, s', b, leaked, n, m);
    }
    NodesBalancedBy(s0, s', leaked);
  }

  lemma NodesBalancedBy(s0: State, s: State, leaked: set<Nid>)
    requires forall n {:trigger NodeBalanced(s0, s, leaked, n)} :: NodeBalanced(s0, s, leaked, n)
    ensures NodesBalanced(s0, s, leaked)
  {
  }

  /** While objects are translated nothing is taken away. */
  lemma TranslatingKeepsRefs(s0: State, s: State, b: Bid)
    requires RefsBalanced(s0, s, s, b)
    ensures RefsKept(s0, s)
  {
    forall k | k in s0.refs
      ensures k in s.refs && s.refs[k].node == s0.refs[k].node
    {
      assert RefBalanced(s0, s, s, b, k);
    }
  }

  /** While objects are released no reference goes that was there before, if it kept what it counted. */
  lemma ReleasingKeepsRefs(s0: State, s1: State, s: State, b: Bid)
    requires RefsOk(s0) && RefsBalanced(s0, s1, s, b) && Kept(s0, s1)
    ensures RefsKept(s0, s)
  {
    forall k | k in s0.refs
      ensures k in s.refs && s.refs[k].node == s0.refs[k].node
    {
      assert RefBalanced(s0, s1, s, b, k);
    }
  }

  /** Replacing the contents of the transaction's buffer. */
  lemma SetBufferStep(s: State, s': State, b: Bid, buf: Buffer, n: Nid)
    requires b in s.bufs && NodeStep(s, s', n)
    ensures NodeStep(s, SetBuffer(s', b, buf), n)
    ensures SetBuffer(s', b, buf).refs == s'.refs && forall m :: RefsOf(SetBuffer(s', b, buf), m) == RefsOf(s', m)
  {
    assert forall m :: RefsOf(SetBuffer(s', b, buf), m) == RefsOf(s', m);
  }

  lemma OnlyRefsAt(s: State, s': State, k: Handle, n: Nid)
    requires s'.refs - {k} == s.refs - {k} && (k in s.refs ==> s.refs[k].node == n)
    requires (k in s'.refs ==> s'.refs[k].node == n)
    ensures forall m :: m != n ==> RefsOf(s', m) == RefsOf(s, m)
  {
    assert forall j :: j != k ==> (j in s.refs <==> j in s.refs - {k}) && (j in s'.refs <==> j in s'.refs - {k});
    assert forall j :: j != k && j in s.refs ==> j in s'.refs && s'.refs[j] == s.refs[j];
    assert forall j :: j != k && j in s'.refs ==> j in s.refs;
  }

  /** The handle a new object is translated to. */
  function NewHandle(s: State, p: Pid, n: Nid, d: nat): Handle {
    if (p, n) in s.byNode then Handle(p, s.byNode[(p, n)]) else Handle(p, d)
  }

  lemma IncLocalStep(s: State, n: Nid, strong: bool)
    requires n in s.nodes && s.nodes[n].localStrong >= 0 && s.nodes[n].localWeak >= 0
    ensures var s' := IncNode(s, n, strong, false, false).0;
            && NodeStep(s, s', n) && n in s'.nodes && s'.refs == s.refs && s'.bufs == s.bufs && s'.mgr == s.mgr
  {
    IncFields(s, n, strong, false, false);
  }

  lemma NodeStepFrom(s: State, s1: State, s2: State, n: Nid)
    requires s1.nodes == s.nodes && NodeStep(s1, s2, n)
    ensures NodeStep(s, s2, n)
  {
  }

  // ---------- translating ----------

  /** One object more in the buffer. */
  lemma MoreTimes(buf: Buffer, h: Held, d: nat, strong: bool)
    ensures Times(buf.(objs := buf.objs + [h]), d, strong)
         == Times(buf, d, strong) + (if h == HeldRef(d, strong) then 1 else 0)
  {
  }

  /** A counted object. */
  lemma RaisedBalances(s0: State, s: State, s': State, b: Bid, n: Nid, d: nat, strong: bool, j: Handle)
    requires RefsOk(s0) && RefsOk(s) && b in s.bufs && RefBalanced(s0, s, s, b, j) && b in s'.bufs
    requires Handle(s.bufs[b].owner, d) !in s.refs
    requires s'.refs == Raised(s, s.bufs[b].owner, n, d, strong)
    requires var k := NewHandle(s, s.bufs[b].owner, n, d);
             && s'.bufs[b] == s.bufs[b].(objs := s.bufs[b].objs + [HeldRef(k.desc, strong)])
             && (strong || !Mute(s0, s', k))
    ensures RefBalanced(s0, s', s', b, j)
  {
    hide Mute, Times;
    var k := NewHandle(s, s.bufs[b].owner, n, d);
    MoreTimes(s.bufs[b], HeldRef(k.desc, strong), j.desc, true);
    MoreTimes(s.bufs[b], HeldRef(k.desc, strong), j.desc, false);
    if j in s.refs { MuteOfNode(s0, s, s', j); }
  }

  /** An object whose count was refused. */
  lemma UncountedBalances(s0: State, s: State, s': State, b: Bid, n: Nid, d: nat, j: Handle)
    requires RefsOk(s0) && RefsOk(s) && b in s.bufs && RefBalanced(s0, s, s, b, j) && b in s'.bufs
    requires Handle(s.bufs[b].owner, d) !in s.refs
    requires s'.refs == WithRef(s, s.bufs[b].owner, n, d).refs
    requires var k := NewHandle(s, s.bufs[b].owner, n, d);
             && s'.bufs[b] == s.bufs[b].(objs := s.bufs[b].objs + [HeldRef(k.desc, false)])
             && k in s'.refs && Mute(s0, s', k)
    ensures RefBalanced(s0, s', s', b, j)
  {
    hide Mute, Times;
    var k := NewHandle(s, s.bufs[b].owner, n, d);
    MoreTimes(s.bufs[b], HeldRef(k.desc, false), j.desc, true);
    MoreTimes(s.bufs[b], HeldRef(k.desc, false), j.desc, false);
    if j in s.refs { MuteOfNode(s0, s, s', j); }
  }

  /** Whether a weak object counts shows in the state before the transaction. */
  lemma MuteExactly(s0: State, s: State, b: Bid, leaked: set<Nid>, n: Nid, d: nat)
    requires Inv(s0) && Inv(s) && Balanced(s0, s, b, leaked) && n in s.nodes && Handle(s.bufs[b].owner, d) !in s.refs
    requires WeakNow(s, n) && n !in leaked
    ensures var o := s.bufs[b].owner; var k := NewHandle(s, o, n, d);
            && WithRef(s, o, n, d).refs.Keys == s.refs.Keys + {k} && WithRef(s, o, n, d).refs[k].node == n
            && (AddRef(s, o, n, d, false, false).1 <==> !Mute(s0, WithRef(s, o, n, d), k))
  {
    var o := s.bufs[b].owner;
    var k := NewHandle(s, o, n, d);
    assert NodeOk(s, n) && NodeBalanced(s0, s, leaked, n) && RefBalanced(s0, s, s, b, k);
    WithRefOfInv(s, o, n, d);
    assert WithRef(s, o, n, d).refs.Keys == s.refs.Keys + {k};
  }

  /** Translating an object to a reference of the target keeps the balance, counted or not. */
  lemma HoldRefBalances(s0: State, s: State, b: Bid, leaked: set<Nid>, n: Nid, d: nat, strong: bool, list: bool)
    requires Inv(s0) && Inv(s) && Balanced(s0, s, b, leaked) && n in s.nodes && Handle(s.bufs[b].owner, d) !in s.refs
    requires (list || WeakNow(s, n)) && (list ==> s.nodes[n].owner.Some?) && (list || n !in leaked)
    requires strong || list ==> AddRef(s, s.bufs[b].owner, n, d, strong, list).1
    ensures var s' := HoldRef(s, b, n, d, strong, list);
            && Balanced(s0, s', b, leaked) && Inv(s')
            && n in s'.nodes && SameRecord(s'.nodes[n], s.nodes[n]) && WeakNow(s', n)
            && s'.bufs[b].target == s.bufs[b].target && s'.bufs[b].owner == s.bufs[b].owner
            && s.nodes.Keys <= s'.nodes.Keys
  {
    hide AddRef, NodesOk, NodeBalanced, RefBalanced, BufsOk, Mute, NodeStep;
    var p := s.bufs[b].owner;
    var s1, s' := AddRef(s, p, n, d, strong, list).0, HoldRef(s, b, n, d, strong, list);
    var k := NewHandle(s, p, n, d);
    var ok := AddRef(s, p, n, d, strong, list).1;
    AddRefEither(s, p, n, d, strong, list);
    HoldRefKeeps(s, b, n, d, strong, list);
    var buf := s.bufs[b].(objs := s.bufs[b].objs + [HeldRef(k.desc, strong)]);
    assert s' == SetBuffer(s1, b, buf);
    SetBufferStep(s, s1, b, buf, n);
    OnlyRefsAt(s, s', k, n);
    assert k in RefsOf(s', n);
    forall j
      ensures RefBalanced(s0, s', s', b, j)
    {
      assert RefBalanced(s0, s, s, b, j);
      if strong {
        RaisedBalances(s0, s, s', b, n, d, strong, j);
      } else if list {
        ListIsHeard(s0, s, s', b, leaked, n, k);
        RaisedBalances(s0, s, s', b, n, d, strong, j);
      } else {
        MuteExactly(s0, s, b, leaked, n, d);
        MuteOfNode(s0, s', WithRef(s, p, n, d), k);
        if ok { RaisedBalances(s0, s, s', b, n, d, strong, j); } else { UncountedBalances(s0, s, s', b, n, d, j); }
      }
    }
    TranslatingKeepsRefs(s0, s', b);
    NodesStayBalanced(s0, s, s', b, leaked, n);
    StepKeepsNode(s, s', n);
  }

  lemma MuteOfNode(s0: State, s: State, s': State, k: Handle)
    requires k in s.refs && k in s'.refs && s.refs[k].node == s'.refs[k].node
    ensures Mute(s0, s, k) <==> Mute(s0, s', k)
  {
  }

  /** An object made by the sender has a live owner. */
  lemma ListIsHeard(s0: State, s: State, s': State, b: Bid, leaked: set<Nid>, n: Nid, k: Handle)
    requires Inv(s0) && NodesBalanced(s0, s, leaked) && n in s.nodes && s.nodes[n].owner.Some? && k in s'.refs
    requires s'.refs[k].node == n
    ensures !Mute(s0, s', k)
  {
    assert NodeBalanced(s0, s, leaked, n);
  }

  lemma StepKeepsNode(s: State, s': State, n: Nid)
    requires NodeStep(s, s', n) && n in s'.nodes
    ensures s.nodes.Keys <= s'.nodes.Keys && SameRecord(s'.nodes[n], s.nodes[n])
  {
    assert forall m :: m in s.nodes && m != n ==> m in s.nodes - {n};
    assert forall m :: m in s'.nodes - {n} ==> m in s'.nodes;
  }

  lemma AddRefEither(s: State, p: Pid, n: Nid, d: nat, strong: bool, list: bool)
    requires Inv(s) && n in s.nodes && Handle(p, d) !in s.refs
    requires strong || list ==> AddRef(s, p, n, d, strong, list).1
    ensures var (s', ok) := AddRef(s, p, n, d, strong, list); var k := NewHandle(s, p, n, d);
            && NodeStep(s, s', n) && n in s'.nodes && s'.bufs == s.bufs && s'.mgr == s.mgr
            && s'.refs == (if ok then Raised(s, p, n, d, strong) else WithRef(s, p, n, d).refs)
            && (p, n) in s'.byNode && s'.byNode[(p, n)] == k.desc
            && k in s'.refs && s'.refs[k].node == n && s'.refs - {k} == s.refs - {k}
  {
    hide AddRef, NodesOk;
    RefsOfInv(s);
    WithRefRefs(s, p, n, d);
    if AddRef(s, p, n, d, strong, list).1 {
      AddRefEffect(s, p, n, d, strong, list);
    } else {
      AddRefFails(s, p, n, d);
      var s' := WithRef(s, p, n, d);
      assert Handle(p, s'.byNode[(p, n)]) in RefsOf(s', n);
    }
  }

  /** Changes that touch neither references nor descriptors held. */
  lemma SameRefsBalance(s0: State, s1: State, s: State, s': State, b: Bid)
    requires RefsBalanced(s0, s1, s, b) && s'.refs == s.refs && OnlyBuffer(s0, s', b)
    requires s'.bufs[b].owner == s.bufs[b].owner
    requires forall d, st :: Times(s'.bufs[b], d, st) == Times(s.bufs[b], d, st)
    ensures RefsBalanced(s0, s1, s', b)
  {
    hide Times, Mute;
    forall k
      ensures RefBalanced(s0, s1, s', b, k)
    {
      assert RefBalanced(s0, s1, s, b, k);
    }
  }

  lemma SameRefsTranslating(s0: State, s: State, s': State, b: Bid)
    requires RefsBalanced(s0, s, s, b) && s'.refs == s.refs && OnlyBuffer(s0, s', b)
    requires s'.bufs[b].owner == s.bufs[b].owner
    requires forall d, st :: Times(s'.bufs[b], d, st) == Times(s.bufs[b], d, st)
    ensures RefsBalanced(s0, s', s', b)
  {
    hide Times;
    forall k
      ensures RefBalanced(s0, s', s', b, k)
    {
      assert RefBalanced(s0, s, s, b, k);
    }
  }

  /** Translating a handle back to the target's own node keeps the balance. */
  lemma HoldNodeBalances(s0: State, s: State, b: Bid, leaked: set<Nid>, n: Nid, strong: bool)
    requires Inv(s0) && Inv(s) && Balanced(s0, s, b, leaked) && n in s.nodes
    requires s.nodes[n].owner == Some(s.bufs[b].owner)
    requires if strong then StrongNow(s.nodes[n]) else WeakNow(s, n)
    ensures var s' := HoldNode(s, b, n, strong);
            && Balanced(s0, s', b, leaked) && Inv(s') && s.nodes.Keys <= s'.nodes.Keys
            && s'.bufs[b].target == s.bufs[b].target && s'.bufs[b].owner == s.bufs[b].owner
  {
    hide IncNode, BufsOk, RefsOk, NodeBalanced, RefBalanced, NodeStep;
    var s' := HoldNode(s, b, n, strong);
    HoldNodeKeeps(s, b, n, strong);
    assert NodeOk(s, n);
    IncLocalStep(s, n, strong);
    var s1 := IncNode(s, n, strong, false, false).0;
    var buf := s.bufs[b].(objs := s.bufs[b].objs + [HeldNode(n, strong)]);
    SetBufferStep(s, s1, b, buf, n);
    SameRefsTranslating(s0, s, s', b);
    TranslatingKeepsRefs(s0, s', b);
    NodesStayBalanced(s0, s, s', b, leaked, n);
    StepKeepsNode(s, s', n);
  }

  // ---------- releasing ----------

  /** One object less in the buffer. */
  lemma LessTimes(buf: Buffer, i: nat, d: nat, strong: bool)
    requires i < |buf.objs|
    ensures var gone := buf.(objs := buf.objs[i := Gone]);
            Times(buf, d, strong) == Times(gone, d, strong) + (if buf.objs[i] == HeldRef(d, strong) then 1 else 0)
  {
    assert buf.objs[i] in multiset(buf.objs);
  }

  /** A counted object is released. */
  lemma LoweredBalances(s0: State, s1: State, s: State, s': State, b: Bid, i: nat, j: Handle)
    requires RefsOk(s0) && b in s.bufs && RefBalanced(s0, s1, s, b, j) && b in s'.bufs && i < |s.bufs[b].objs|
    requires s.bufs[b].objs[i].HeldRef?
    requires s'.bufs[b] == s.bufs[b].(objs := s.bufs[b].objs[i := Gone])
    requires var h, k := s.bufs[b].objs[i], Handle(s.bufs[b].owner, s.bufs[b].objs[i].desc);
             && k in s.refs && k in s1.refs && (h.strong || !Mute(s0, s1, k)) && s'.refs == Lowered(s, k, h.strong)
    ensures RefBalanced(s0, s1, s', b, j)
  {
    hide Mute, Times;
    LessTimes(s.bufs[b], i, j.desc, true);
    LessTimes(s.bufs[b], i, j.desc, false);
  }

  /** An object that was never counted is released. */
  lemma MutedBalances(s0: State, s1: State, s: State, s': State, b: Bid, i: nat, j: Handle)
    requires RefsOk(s0) && b in s.bufs && RefBalanced(s0, s1, s, b, j) && b in s'.bufs && i < |s.bufs[b].objs|
    requires s.bufs[b].objs[i].HeldRef?
    requires s'.bufs[b] == s.bufs[b].(objs := s.bufs[b].objs[i := Gone]) && s'.refs == s.refs
    requires var k := Handle(s.bufs[b].owner, s.bufs[b].objs[i].desc);
        !s.bufs[b].objs[i].strong && k in s1.refs && Mute(s0, s1, k)
    ensures RefBalanced(s0, s1, s', b, j)
  {
    hide Mute, Times;
    LessTimes(s.bufs[b], i, j.desc, true);
    LessTimes(s.bufs[b], i, j.desc, false);
  }

  /** A counted object finds its reference, with a count to take off; an object that was never counted
      finds no weak count. */
  lemma HeldIsFound(s0: State, s1: State, s: State, b: Bid, i: nat)
    requires RefsOk(s0) && RefsOk(s) && RefsBalanced(s0, s1, s, b) && i < |s.bufs[b].objs| && s.bufs[b].objs[i].HeldRef?
    ensures var h, k := s.bufs[b].objs[i], Handle(s.bufs[b].owner, s.bufs[b].objs[i].desc);
            && k in s1.refs
            && (if h.strong || !Mute(s0, s1, k)
                then k in s.refs && s.refs[k].node in s.nodes && (if h.strong then s.refs[k].strong > 0
                    else s.refs[k].weak > 0)
                else k in s.refs ==> s.refs[k].weak == 0)
  {
    var h, k := s.bufs[b].objs[i], Handle(s.bufs[b].owner, s.bufs[b].objs[i].desc);
    assert RefBalanced(s0, s1, s, b, k);
    assert h in multiset(s.bufs[b].objs) && multiset(s.bufs[b].objs)[h] >= 1;
  }

  /** Releasing an object that names a reference. */
  lemma DropRefBalances(s0: State, s1: State, s: State, b: Bid, i: nat)
    requires Inv(s0) && Inv(s) && RefsBalanced(s0, s1, s, b) && i < |s.bufs[b].objs| && s.bufs[b].objs[i].HeldRef?
    ensures var s' := DropObject(s, b, i);
            && RefsBalanced(s0, s1, s', b) && s'.bufs == s.bufs[b := s.bufs[b].(objs := s.bufs[b].objs[i := Gone])]
            && ((s'.refs == s.refs && s'.nodes == s.nodes)
                || exists n :: NodeStep(s, s', n) && forall m :: m != n ==> RefsOf(s', m) == RefsOf(s, m))
  {
    hide DecRef, NodesOk, RefsOk, BufsOk, NodeStep, RefBalanced, Mute;
    RefsOfInv(s0);
    RefsOfInv(s);
    var h := s.bufs[b].objs[i];
    var t := SetBuffer(s, b, s.bufs[b].(objs := s.bufs[b].objs[i := Gone]));
    var s' := DropObject(s, b, i);
    var k := Handle(s.bufs[b].owner, h.desc);
    HeldIsFound(s0, s1, s, b, i);
    var counted := h.strong || !Mute(s0, s1, k);
    if counted {
      DecRefEffect(t, k, h.strong);
      NodeStepFrom(s, t, s', s.refs[k].node);
      OnlyRefsAt(s, s', k, s.refs[k].node);
    } else {
      NothingLowered(t, k);
    }
    assert OnlyBuffer(s0, s', b);
    forall j
      ensures RefBalanced(s0, s1, s', b, j)
    {
      assert RefBalanced(s0, s1, s, b, j);
      if counted { LoweredBalances(s0, s1, s, s', b, i, j); } else { MutedBalances(s0, s1, s, s', b, i, j); }
    }
  }

  lemma NothingLowered(s: State, k: Handle)
    requires k in s.refs ==> s.refs[k].weak == 0
    ensures k in s.refs && s.refs[k].node in s.nodes ==> DecRef(s, k, false) == s
  {
  }

  /** Releasing one object. */
  lemma DropObjectRefs(s0: State, s1: State, s: State, b: Bid, i: nat)
    requires Inv(s0) && Inv(s) && RefsBalanced(s0, s1, s, b) && i < |s.bufs[b].objs|
    ensures var s' := DropObject(s, b, i);
            && RefsBalanced(s0, s1, s', b) && s'.bufs == s.bufs[b := s.bufs[b].(objs := s.bufs[b].objs[i := Gone])]
            && ((s'.refs == s.refs && s'.nodes == s.nodes)
                || exists n :: NodeStep(s, s', n) && forall m :: m != n ==> RefsOf(s', m) == RefsOf(s, m))
  {
    hide DecNode, NodesOk, RefsOk, BufsOk, RefBalanced, NodeStep, Mute;
    var t := SetBuffer(s, b, s.bufs[b].(objs := s.bufs[b].objs[i := Gone]));
    var s' := DropObject(s, b, i);
    match s.bufs[b].objs[i]
    case HeldNode(n, strong) =>
      if n in t.nodes {
        DecNodeStep(t, n, strong, false);
        NodeStepFrom(s, t, s', n);
        assert forall m :: RefsOf(s', m) == RefsOf(s, m);
      }
      SameRefsBalance(s0, s1, s, s', b);
    case HeldRef(desc, strong) =>
      DropRefBalances(s0, s1, s, b, i);
    case Gone =>
      assert s.bufs[b].objs[i := Gone] == s.bufs[b].objs;
      assert s.bufs[b := s.bufs[b]] == s.bufs;
      assert s' == s;
  }

  /** The nodes, too, if no reference loses what it counted before. */
  lemma DropObjectNodes(s0: State, s1: State, s: State, b: Bid, leaked: set<Nid>, i: nat)
    requires Inv(s0) && Inv(s) && RefsBalanced(s0, s1, s, b) && i < |s.bufs[b].objs| && NodesBalanced(s0, s, leaked)
    requires Kept(s0, s1)
    ensures NodesBalanced(s0, DropObject(s, b, i), leaked)
  {
    hide DropObject, NodesOk, RefsOk, BufsOk, RefBalanced, NodeBalanced, NodeStep, Kept, RefsKept;
    var s' := DropObject(s, b, i);
    DropObjectRefs(s0, s1, s, b, i);
    DropObjectKeeps(s, b, i);
    RefsOfInv(s0);
    if s'.refs == s.refs && s'.nodes == s.nodes {
      SameNodesBalanced(s0, s, s', leaked);
    } else {
      var n :| NodeStep(s, s', n) && forall m :: m != n ==> RefsOf(s', m) == RefsOf(s, m);
      ReleasingKeepsRefs(s0, s1, s', b);
      NodesStayBalanced(s0, s, s', b, leaked, n);
    }
  }

  lemma SameNodesBalanced(s0: State, s: State, s': State, leaked: set<Nid>)
    requires NodesBalanced(s0, s, leaked) && s'.refs == s.refs && s'.nodes == s.nodes
    ensures NodesBalanced(s0, s', leaked)
  {
    forall n
      ensures NodeBalanced(s0, s', leaked, n)
    {
      assert NodeBalanced(s0, s, leaked, n);
      assert RefsOf(s', n) == RefsOf(s, n);
    }
  }

  lemma DropTargetBalances(s0: State, s1: State, s: State, b: Bid, leaked: set<Nid>)
    requires Inv(s0) && Inv(s) && RefsBalanced(s0, s1, s, b) && s.bufs[b].target.Some?
    requires s.bufs[b].target.value in s.nodes
    ensures var s' := DropTarget(s, b);
            && RefsBalanced(s0, s1, s', b) && Inv(s') && s'.bufs[b] == s.bufs[b].(target := None)
            && (NodesBalanced(s0, s, leaked) && Kept(s0, s1) ==> NodesBalanced(s0, s', leaked))
  {
    hide DecNode, NodesOk, BufsOk, RefsOk, NodeBalanced, RefBalanced, NodeStep, Kept, RefsKept;
    var n := s.bufs[b].target.value;
    var t := SetBuffer(s, b, s.bufs[b].(target := None));
    var s' := DropTarget(s, b);
    DropTargetKeeps(s, b);
    DecNodeStep(t, n, true, false);
    NodeStepFrom(s, t, s', n);
    SameRefsBalance(s0, s1, s, s', b);
    RefsOfInv(s0);
    if NodesBalanced(s0, s, leaked) && Kept(s0, s1) {
      assert forall m :: RefsOf(s', m) == RefsOf(s, m);
      ReleasingKeepsRefs(s0, s1, s', b);
      NodesStayBalanced(s0, s, s', b, leaked, n);
    }
  }

  // ---------- a whole transaction ----------

  /** An object as the sender names it; `d` is the descriptor a new reference gets. */
  datatype Put = BinderOf(n: Nid, d: nat, strong: bool) | HandleTo(desc: nat, d: nat, strong: bool)

  function AsEvent(b: Bid, p: Pid, put: Put): Event {
    match put
    case BinderOf(n, d, strong) => PutBinder(b, p, n, d, strong)
    case HandleTo(desc, d, strong) => PutHandle(b, p, desc, d, strong)
  }

  /** The reference count increment, whose result the driver does not check, succeeds. */
  ghost predicate Counts(s: State, b: Bid, p: Pid, put: Put)
    requires Enabled(s, AsEvent(b, p, put))
  {
    match put
    case BinderOf(_, _, _) => true
    case HandleTo(desc, d, strong) =>
      var n := s.refs[Handle(p, desc)].node;
      s.nodes[n].owner == Some(s.bufs[b].owner) || AddRef(s, s.bufs[b].owner, n, d, strong, false).1
  }

  /** The unchecked increment fails exactly for a weak handle of a node whose owner is gone and had never
      been told of it, if the target holds no weak count of the node yet. */
  lemma CountsExactly(s: State, b: Bid, p: Pid, desc: nat, d: nat, strong: bool)
    requires Inv(s) && Enabled(s, PutHandle(b, p, desc, d, strong))
    ensures var o, x := s.bufs[b].owner, s.nodes[s.refs[Handle(p, desc)].node];
            var k := NewHandle(s, o, s.refs[Handle(p, desc)].node, d);
            (Counts(s, b, p, HandleTo(desc, d, strong))
             <==> strong || x.owner.Some? || x.hasWeak || (k in s.refs && s.refs[k].weak > 0))
  {
    var n := s.refs[Handle(p, desc)].node;
    RefUsesNode(s, Handle(p, desc));
    assert NodeOk(s, n);
    WithRefOfInv(s, s.bufs[b].owner, n, d);
    if strong {
      assert Handle(p, desc) in StrongRefsOf(s, n);
    }
  }

  /** The objects of a list are translated one after the other. */
  ghost predicate Translates(s: State, b: Bid, p: Pid, puts: seq<Put>)
    decreases |puts|
  {
    puts == [] || (Enabled(s, AsEvent(b, p, puts[0])) && Translates(Apply(s, AsEvent(b, p, puts[0])), b, p, puts[1..]))
  }

  ghost function Translated(s: State, b: Bid, p: Pid, puts: seq<Put>): State
    requires Translates(s, b, p, puts)
    decreases |puts|
  {
    if puts == [] then s else Translated(Apply(s, AsEvent(b, p, puts[0])), b, p, puts[1..])
  }

  /** The object loop of binder_transaction_buffer_release, from object `i` on. */
  function ReleaseFrom(s: State, b: Bid, i: nat): State
    requires b in s.bufs
    decreases |s.bufs[b].objs| - i
  {
    if i >= |s.bufs[b].objs| then s
    else
      var s' := DropObject(s, b, i);
      if b in s'.bufs && |s'.bufs[b].objs| == |s.bufs[b].objs| then ReleaseFrom(s', b, i + 1) else s'
  }

  /** binder_transaction_buffer_release on the translated prefix, then the buffer is freed. */
  function Released(s: State, b: Bid): State
    requires b in s.bufs
  {
    var s1 := if s.bufs[b].target.Some? && s.bufs[b].target.value in s.nodes then DropTarget(s, b) else s;
    if b in s1.bufs then CloseBuffer(ReleaseFrom(s1, b, 0), b) else s1
  }

  lemma NewNodeBalances(s0: State, s: State, b: Bid, leaked: set<Nid>, p: Pid, n: Nid)
    requires Inv(s0) && Inv(s) && Balanced(s0, s, b, leaked) && n !in s.nodes && n !in s0.nodes
    ensures Inv(NewNode(s, n, p)) && Balanced(s0, NewNode(s, n, p), b, leaked + {n})
  {
    hide Mute, Times;
    var s' := NewNode(s, n, p);
    NewNodeKeeps(s, n, p);
    assert NodeBalanced(s0, s, leaked, n);
    SameRefsTranslating(s0, s, s', b);
    forall m
      ensures NodeBalanced(s0, s', leaked + {n}, m)
    {
      assert NodeBalanced(s0, s, leaked, m);
      assert RefsOf(s', m) == RefsOf(s, m);
    }
  }

  /** A node made for an object is in use once the object is translated. */
  lemma NotLeaked(s0: State, s: State, b: Bid, leaked: set<Nid>, n: Nid)
    requires Balanced(s0, s, b, leaked + {n}) && n in s.nodes && n !in s0.nodes
    requires !s.nodes[n].hasStrong && !s.nodes[n].hasWeak && s.nodes[n].owner.Some? && WeakNow(s, n)
    ensures Balanced(s0, s, b, leaked)
  {
    hide RefBalanced;
    forall m
      ensures NodeBalanced(s0, s, leaked, m)
    {
      assert NodeBalanced(s0, s, leaked + {n}, m);
    }
  }

  /** What both kinds of objects keep. */
  ghost predicate Going(s0: State, s: State, b: Bid) {
    Inv(s) && Balanced(s0, s, b, {}) && s0.nodes.Keys <= s.nodes.Keys
  }

  lemma PutBinderBalances(s0: State, s: State, b: Bid, p: Pid, n: Nid, d: nat, strong: bool)
    requires Inv(s0) && Going(s0, s, b) && Enabled(s, PutBinder(b, p, n, d, strong))
    ensures var s' := PutBinderOf(s, b, p, n, d, strong);
            Going(s0, s', b) && s'.bufs[b].target == s.bufs[b].target && s'.bufs[b].owner == s.bufs[b].owner
  {
    hide Inv, HoldRef, AddRef, NodeBalanced, RefBalanced;
    var s' := PutBinderOf(s, b, p, n, d, strong);
    var s1 := if n in s.nodes then s else NewNode(s, n, p);
    if n !in s.nodes {
      NewNodeBalances(s0, s, b, {}, p, n);
    }
    var leaked: set<Nid> := if n in s.nodes then {} else {} + {n};
    ListAlwaysCounts(s1, s1.bufs[b].owner, n, d, strong);
    HoldRefBalances(s0, s1, b, leaked, n, d, strong, true);
    if n !in s.nodes {
      NotLeaked(s0, s', b, {}, n);
    }
  }

  lemma ListAlwaysCounts(s: State, p: Pid, n: Nid, d: nat, strong: bool)
    requires Inv(s) && n in s.nodes && Handle(p, d) !in s.refs
    ensures AddRef(s, p, n, d, strong, true).1
  {
    WithRefOfInv(s, p, n, d);
  }

  lemma PutHandleBalances(s0: State, s: State, b: Bid, p: Pid, desc: nat, d: nat, strong: bool)
    requires Inv(s0) && Going(s0, s, b) && Enabled(s, PutHandle(b, p, desc, d, strong))
    ensures var s' := PutHandleOf(s, b, p, desc, d, strong);
            Going(s0, s', b) && s'.bufs[b].target == s.bufs[b].target && s'.bufs[b].owner == s.bufs[b].owner
  {
    hide Inv, HoldRef, AddRef, IncNode, NodeBalanced, RefBalanced, WeakNow, StrongNow;
    RefUsesNode(s, Handle(p, desc));
    var n := s.refs[Handle(p, desc)].node;
    if s.nodes[n].owner == Some(s.bufs[b].owner) {
      HoldNodeBalances(s0, s, b, {}, n, strong);
    } else {
      if strong { CountsExactly(s, b, p, desc, d, strong); }
      HoldRefBalances(s0, s, b, {}, n, d, strong, false);
    }
  }

  lemma PutBalances(s0: State, s: State, b: Bid, p: Pid, put: Put)
    requires Inv(s0) && Going(s0, s, b) && Enabled(s, AsEvent(b, p, put))
    ensures var s' := Apply(s, AsEvent(b, p, put)); Going(s0, s', b) && s'.bufs[b].owner == s.bufs[b].owner
  {
    hide Inv, Going;
    match put
    case BinderOf(n, d, strong) => PutBinderBalances(s0, s, b, p, n, d, strong);
    case HandleTo(desc, d, strong) => PutHandleBalances(s0, s, b, p, desc, d, strong);
  }

  lemma {:induction false} TranslatingBalances(s0: State, s: State, b: Bid, p: Pid, puts: seq<Put>)
    requires Inv(s0) && Going(s0, s, b) && Translates(s, b, p, puts)
    ensures Going(s0, Translated(s, b, p, puts), b)
    decreases |puts|
  {
    hide Inv, Going, Enabled, Apply;
    if puts != [] {
      PutBalances(s0, s, b, p, puts[0]);
      TranslatingBalances(s0, Apply(s, AsEvent(b, p, puts[0])), b, p, puts[1..]);
    }
  }

  lemma {:induction false} ReleasingBalances(s0: State, s1: State, s: State, b: Bid, leaked: set<Nid>, i: nat)
    requires Inv(s0) && Inv(s) && RefsBalanced(s0, s1, s, b) && i <= |s.bufs[b].objs|
    requires Kept(s0, s1) ==> NodesBalanced(s0, s, leaked)
    requires forall j :: 0 <= j < i ==> s.bufs[b].objs[j] == Gone
    ensures var s' := ReleaseFrom(s, b, i);
            && RefsBalanced(s0, s1, s', b) && Inv(s') && s'.bufs[b].target == s.bufs[b].target
            && (Kept(s0, s1) ==> NodesBalanced(s0, s', leaked))
            && forall j :: 0 <= j < |s'.bufs[b].objs| ==> s'.bufs[b].objs[j] == Gone
    decreases |s.bufs[b].objs| - i
  {
    hide Inv, DropObject, RefBalanced, NodesBalanced, Kept;
    if i < |s.bufs[b].objs| {
      DropObjectRefs(s0, s1, s, b, i);
      DropObjectKeeps(s, b, i);
      if Kept(s0, s1) { DropObjectNodes(s0, s1, s, b, leaked, i); }
      ReleasingBalances(s0, s1, DropObject(s, b, i), b, leaked, i + 1);
    }
  }

  ghost predicate IsStart(e: Event, b: Bid) {
    (e.StartCall? || e.StartReply?) && e.b == b
  }

  /** Opening the buffer changes no reference and no node but the target's counts. */
  lemma StartEffect(s: State, b: Bid, e: Event)
    requires Inv(s) && IsStart(e, b) && Enabled(s, e)
    ensures var s' := Apply(s, e);
            && s'.refs == s.refs && s'.byNode == s.byNode && s'.mgr == s.mgr && s'.nodes.Keys == s.nodes.Keys
            && b !in s.bufs && b in s'.bufs && s'.bufs - {b} == s.bufs && s'.bufs[b].objs == []
            && forall n :: n in s.nodes ==> SameRecord(s'.nodes[n], s.nodes[n])
  {
    hide Inv, IncNode, WeakNow;
    if e.StartCall? {
      IncFields(s, CallTarget(s, e.p, e.desc).value, true, false, false);
      IncKeys(s, CallTarget(s, e.p, e.desc).value, true);
    }
    assert Apply(s, e).bufs - {b} == s.bufs;
  }

  lemma StartBalances(s: State, b: Bid, e: Event)
    requires Inv(s) && IsStart(e, b) && Enabled(s, e)
    ensures Going(s, Apply(s, e), b) && Apply(s, e).refs == s.refs && Apply(s, e).byNode == s.byNode
  {
    hide NodesOk, BufsOk, Enabled, Apply;
    StepKeeps(s, e);
    StartEffect(s, b, e);
    var s' := Apply(s, e);
    forall n
      ensures NodeBalanced(s, s', {}, n)
    {
    }
    forall k
      ensures RefBalanced(s, s', s', b, k)
    {
    }
  }

  lemma IncKeys(s: State, n: Nid, strong: bool)
    requires n in s.nodes
    ensures var s' := IncNode(s, n, strong, false, false).0;
            s'.nodes.Keys == s.nodes.Keys && forall m :: m in s.nodes && m != n ==> s'.nodes[m] == s.nodes[m]
  {
  }

  /** Releasing everything restores the state exactly if no reference made in the meantime counts nothing
      and none that counted nothing before has begun to count. */
  lemma ReleaseRestores(s0: State, s1: State, b: Bid, leaked: set<Nid>)
    requires Inv(s0) && Inv(s1) && Balanced(s0, s1, b, leaked)
    ensures Restored(s0, Released(s1, b), leaked) <==> Kept(s0, s1)
    ensures Inv(Released(s1, b))
  {
    hide Inv, RefBalanced, NodesBalanced, DropTarget, ReleaseFrom, Kept, WeakNow;
    var s := s1;
    if s1.bufs[b].target.Some? {
      TargetExists(s1, b);
      s := DropTarget(s1, b);
      DropTargetBalances(s0, s1, s1, b, leaked);
    }
    ReleasingBalances(s0, s1, s, b, leaked, 0);
    var t := ReleaseFrom(s, b, 0);
    CloseBufferKeeps(t, b);
    if Kept(s0, s1) {
      BalancedEmptyIsRestored(s0, s1, t, b, leaked);
    } else {
      RefsOfInv(s0);
      ReleasedRefs(s0, s1, t, b);
    }
  }

  lemma TargetExists(s: State, b: Bid)
    requires Inv(s) && b in s.bufs && s.bufs[b].target.Some?
    ensures s.bufs[b].target.value in s.nodes
  {
  }

}
