/** Nodes, references and the buffers that hold them: counts, the handle tables of processes and the
    INCREFS/ACQUIRE/RELEASE/DECREFS handshake with a node's owner. */
module NodeRefs {
  import opened SizeMath

  type Pid = nat
  type Nid = nat
  type Bid = nat

  /** `queued` says that the node's work item is in some work list. */
  datatype Node = Node(
    owner: Option<Pid>,
    internalStrong: int,
    localStrong: int,
    localWeak: int,
    hasStrong: bool,
    pendStrong: bool,
    hasWeak: bool,
    pendWeak: bool,
    queued: bool)

  datatype Ref = Ref(node: Nid, strong: int, weak: int)

  /** A process and a descriptor in its handle table. */
  datatype Handle = Handle(proc: Pid, desc: nat)

  /** What a translated object in a delivered buffer keeps alive. */
  datatype Held = HeldNode(node: Nid, strong: bool) | HeldRef(desc: nat, strong: bool) | Gone

  datatype Buffer = Buffer(owner: Pid, target: Option<Nid>, objs: seq<Held>)

  /** `refs` is refs_by_desc of all processes, `byNode` is refs_by_node. */
  datatype State = State(
    nodes: map<Nid, Node>,
    refs: map<Handle, Ref>,
    byNode: map<(Pid, Nid), nat>,
    bufs: map<Bid, Buffer>,
    mgr: Option<Nid>)

  // ---------- what the counts count ----------

  function RefsOf(s: State, n: Nid): set<Handle> {
    set k | k in s.refs && s.refs[k].node == n
  }

  function StrongRefsOf(s: State, n: Nid): set<Handle> {
    set k | k in s.refs && s.refs[k].node == n && s.refs[k].strong > 0
  }

  function TargetedBy(s: State, n: Nid): set<Bid> {
    set b | b in s.bufs && s.bufs[b].target == Some(n)
  }

  function ObjectsNaming(s: State, h: Held): set<(Bid, nat)> {
    set b, i | b in s.bufs && 0 <= i < |s.bufs[b].objs| && s.bufs[b].objs[i] == h :: (b, i)
  }

  function One(b: bool): int { if b then 1 else 0 }

  predicate StrongNow(x: Node) {
    x.internalStrong != 0 || x.localStrong != 0
  }

  predicate WeakNow(s: State, n: Nid)
    requires n in s.nodes
  {
    RefsOf(s, n) != {} || s.nodes[n].localWeak != 0 || StrongNow(s.nodes[n])
  }

  // ---------- node counts ----------

  /** binder_inc_node; the flag is false for -EINVAL. `list` says that a target list is given. */
  function IncNode(s: State, n: Nid, strong: bool, internal: bool, list: bool): (State, bool)
    requires n in s.nodes
  {
    var x := s.nodes[n];
    if strong then
      if internal && !list && x.internalStrong == 0 && !(x.owner.Some? && s.mgr == Some(n) && x.hasStrong)
          then (s, false)
      else
        var x1 := if internal then x.(internalStrong := x.internalStrong + 1) else x.(localStrong := x.localStrong + 1);
        (s.(nodes := s.nodes[n := x1.(queued := x.queued || (!x.hasStrong && list))]), true)
    else
      var x1 := if internal then x else x.(localWeak := x.localWeak + 1);
      if !x.hasWeak && !x.queued then (s.(nodes := s.nodes[n := x1.(queued := list)]), list)
      else (s.(nodes := s.nodes[n := x1]), true)
  }

  /** binder_dec_node: when the last count of a kind goes, the owner is told, or the node is freed
      if the owner never knew of it. */
  function DecNode(s: State, n: Nid, strong: bool, internal: bool): State
    requires n in s.nodes
  {
    var x := s.nodes[n];
    var x1 := if strong then
                (if internal then x.(internalStrong := x.internalStrong - 1) else x.(localStrong := x.localStrong - 1))
              else if internal then x else x.(localWeak := x.localWeak - 1);
    if (if strong then StrongNow(x1) else x1.localWeak != 0 || RefsOf(s, n) != {}) then s.(nodes := s.nodes[n := x1])
    else if x1.owner.Some? && (x1.hasStrong || x1.hasWeak) then s.(nodes := s.nodes[n := x1.(queued := true)])
    else if RefsOf(s, n) == {} && x1.localStrong == 0 && x1.localWeak == 0 then s.(nodes := s.nodes - {n})
    else s.(nodes := s.nodes[n := x1])
  }

  // ---------- references ----------

  function Start(s: State, n: Nid): nat { if s.mgr == Some(n) then 0 else 1 }

  /** The least unused descriptor of a process, from `d` on. */
  ghost predicate IsLeastFree(s: State, p: Pid, start: nat, d: nat) {
    d >= start && Handle(p, d) !in s.refs && forall e :: start <= e < d ==> Handle(p, e) in s.refs
  }

  /** The reference of a process to a node, created with descriptor `d` if there is none. */
  function WithRef(s: State, p: Pid, n: Nid, d: nat): State {
    if (p, n) in s.byNode then s
    else s.(refs := s.refs[Handle(p, d) := Ref(n, 0, 0)], byNode := s.byNode[(p, n) := d])
  }

  /** binder_inc_ref. */
  function IncRef(s: State, k: Handle, strong: bool, list: bool): (State, bool)
    requires k in s.refs && s.refs[k].node in s.nodes
  {
    var r := s.refs[k];
    var first := if strong then r.strong == 0 else r.weak == 0;
    var (s1, ok) := if first then IncNode(s, r.node, strong, true, list) else (s, true);
    if !ok then (s1, false)
    else (s1.(refs := s1.refs[k := if strong then r.(strong := r.strong + 1) else r.(weak := r.weak + 1)]), true)
  }

  function Unindex(s: State, k: Handle): State
    requires k in s.refs
  {
    s.(refs := s.refs - {k}, byNode := s.byNode - {(k.proc, s.refs[k].node)})
  }

  /** binder_delete_ref. */
  function DeleteRef(s: State, k: Handle): State
    requires k in s.refs && s.refs[k].node in s.nodes
  {
    var n := s.refs[k].node;
    var s1 := if s.refs[k].strong != 0 then DecNode(s, n, true, true) else s;
    var s2 := if k in s1.refs then Unindex(s1, k) else s1;
    if n in s2.nodes then DecNode(s2, n, false, true) else s2
  }

  /** binder_dec_ref; -EINVAL changes nothing. */
  function DecRef(s: State, k: Handle, strong: bool): State
    requires k in s.refs && s.refs[k].node in s.nodes
  {
    var r := s.refs[k];
    if (if strong then r.strong == 0 else r.weak == 0) then s else
    var r1 := if strong then r.(strong := r.strong - 1) else r.(weak := r.weak - 1);
    var s1 := s.(refs := s.refs[k := r1]);
    var s2 := if strong && r1.strong == 0 then DecNode(s1, r.node, true, true) else s1;
    if r1.strong == 0 && r1.weak == 0 && k in s2.refs && s2.refs[k].node in s2.nodes then DeleteRef(s2, k) else s2
  }

  // ---------- the invariant ----------

  /** The owner has been told exactly what the counts say, unless the work item that will tell it is
      still queued. */
  predicate Announced(s: State, n: Nid)
    requires n in s.nodes
  {
    s.nodes[n].owner.Some? && !s.nodes[n].queued ==>
      s.nodes[n].hasStrong == StrongNow(s.nodes[n]) && s.nodes[n].hasWeak == WeakNow(s, n)
  }

  /** Internal counts are numbers of references, local counts are numbers of holders, and only what the
      owner has been told can await its acknowledgement. */
  ghost predicate Counted(s: State, n: Nid)
    requires n in s.nodes
  {
    var x := s.nodes[n];
    && (x.pendStrong ==> x.hasStrong) && (x.pendWeak ==> x.hasWeak)
    && x.internalStrong == |StrongRefsOf(s, n)|
    && (x.owner.Some? ==>
          && x.localStrong == |TargetedBy(s, n)| + |ObjectsNaming(s, HeldNode(n, true))|
                              + One(x.pendStrong) + One(s.mgr == Some(n))
          && x.localWeak == |ObjectsNaming(s, HeldNode(n, false))| + One(x.pendWeak) + One(s.mgr == Some(n)))
    && (x.owner.None? ==> x.localStrong == 0 && x.localWeak == 0 && !x.queued && s.mgr != Some(n))
  }

  ghost predicate NodeOk(s: State, n: Nid)
    requires n in s.nodes
  {
    Announced(s, n) && Counted(s, n)
  }

  ghost predicate NodesOk(s: State) {
    forall n {:trigger NodeOk(s, n)} :: n in s.nodes ==> NodeOk(s, n)
  }

  /** References point to existing nodes, counts are not negative, and both indexes hold the same
      references. */
  ghost predicate RefsOk(s: State) {
    && (forall k :: k in s.refs ==> s.refs[k].node in s.nodes && s.refs[k].strong >= 0 && s.refs[k].weak >= 0)
    && (forall k :: k in s.refs ==>
          (k.proc, s.refs[k].node) in s.byNode && s.byNode[(k.proc, s.refs[k].node)] == k.desc)
    && (forall p, n :: (p, n) in s.byNode ==>
          Handle(p, s.byNode[(p, n)]) in s.refs && s.refs[Handle(p, s.byNode[(p, n)])].node == n)
  }

  /** Buffers hold only nodes of the process they belong to, and those nodes exist. */
  ghost predicate BufsOk(s: State) {
    && (forall b, n :: b in s.bufs && s.bufs[b].target == Some(n) ==>
          n in s.nodes && s.nodes[n].owner == Some(s.bufs[b].owner))
    && (forall b, i :: b in s.bufs && 0 <= i < |s.bufs[b].objs| && s.bufs[b].objs[i].HeldNode? ==>
          s.bufs[b].objs[i].node in s.nodes && s.nodes[s.bufs[b].objs[i].node].owner == Some(s.bufs[b].owner))
  }

  ghost predicate Inv(s: State) {
    NodesOk(s) && RefsOk(s) && BufsOk(s) && (s.mgr.Some? ==> s.mgr.value in s.nodes)
  }

  // ---------- framing ----------

  /** Nothing that node `m` is judged by differs between two states. */
  ghost predicate SameFor(s: State, s': State, m: Nid) {
    && m in s.nodes && m in s'.nodes && s'.nodes[m] == s.nodes[m]
    && RefsOf(s', m) == RefsOf(s, m) && StrongRefsOf(s', m) == StrongRefsOf(s, m)
    && TargetedBy(s', m) == TargetedBy(s, m)
    && ObjectsNaming(s', HeldNode(m, true)) == ObjectsNaming(s, HeldNode(m, true))
    && ObjectsNaming(s', HeldNode(m, false)) == ObjectsNaming(s, HeldNode(m, false))
    && (s'.mgr == Some(m) <==> s.mgr == Some(m))
  }

  lemma NodesOkAround(s: State, s': State, n: Nid)
    requires forall m {:trigger NodeOk(s, m)} :: m in s.nodes && m != n ==> NodeOk(s, m)
    requires forall m :: m in s'.nodes && m != n ==> SameFor(s, s', m)
    requires n in s'.nodes ==> NodeOk(s', n)
    ensures NodesOk(s')
  {
    forall m | m in s'.nodes
      ensures NodeOk(s', m)
    {
      if m != n {
        assert SameFor(s, s', m);
        assert NodeOk(s, m);
      }
    }
  }

  /** A change of nodes only at `n`. */
  lemma OnlyNode(s: State, s': State, n: Nid)
    requires s' == s.(nodes := s'.nodes) && s'.nodes - {n} == s.nodes - {n}
    ensures forall m :: m in s'.nodes && m != n ==> SameFor(s, s', m)
    ensures RefsOf(s', n) == RefsOf(s, n) && StrongRefsOf(s', n) == StrongRefsOf(s, n)
    ensures TargetedBy(s', n) == TargetedBy(s, n)
    ensures forall h :: ObjectsNaming(s', h) == ObjectsNaming(s, h)
  {
    forall m | m in s'.nodes && m != n
      ensures SameFor(s, s', m)
    {
      assert m in s'.nodes - {n};
    }
  }

  /** A change of one reference to `n`, and of nodes only at `n`. */
  lemma OnlyRef(s: State, s': State, n: Nid, k: Handle)
    requires s' == s.(nodes := s'.nodes, refs := s'.refs, byNode := s'.byNode)
    requires s'.nodes - {n} == s.nodes - {n} && s'.refs - {k} == s.refs - {k}
    requires (k in s.refs ==> s.refs[k].node == n) && (k in s'.refs ==> s'.refs[k].node == n)
    ensures forall m :: m in s'.nodes && m != n ==> SameFor(s, s', m)
    ensures RefsOf(s', n) - {k} == RefsOf(s, n) - {k} && StrongRefsOf(s', n) - {k} == StrongRefsOf(s, n) - {k}
    ensures TargetedBy(s', n) == TargetedBy(s, n)
    ensures forall h :: ObjectsNaming(s', h) == ObjectsNaming(s, h)
  {
    assert forall j :: j in s'.refs && j != k ==> j in s'.refs - {k};
    assert forall j :: j in s.refs && j != k ==> j in s.refs - {k};
    assert forall j :: j in s'.refs && j != k ==> j in s.refs && s.refs[j] == s'.refs[j];
    assert forall j :: j in s.refs && j != k ==> j in s'.refs && s.refs[j] == s'.refs[j];
    forall m | m in s'.nodes && m != n
      ensures SameFor(s, s', m)
    {
      assert m in s'.nodes - {n};
      assert RefsOf(s', m) == RefsOf(s, m);
      assert StrongRefsOf(s', m) == StrongRefsOf(s, m);
    }
  }

  lemma CardSwap<T>(a: set<T>, p: set<T>, b: set<T>, q: set<T>)
    requires p <= a && q <= b && a - p == b - q
    ensures |a| - |p| == |b| - |q|
  {
    assert a == (a - p) + p && b == (b - q) + q;
  }

  lemma CardWith<T>(a: set<T>, b: set<T>, k: T)
    requires a - {k} == b - {k}
    ensures |a| - One(k in a) == |b| - One(k in b)
  {
    var p: set<T>, q: set<T> := if k in a then {k} else {}, if k in b then {k} else {};
    assert a - p == a - {k} && b - q == b - {k};
    CardSwap(a, p, b, q);
  }

  // ---------- counting down ----------

  /** What binder_dec_node relies on besides the counts: the owner knows of the node's strong state,
      and of its weak state as it was before a reference was unlinked. */
  predicate KnownBefore(s: State, n: Nid, unlinked: bool)
    requires n in s.nodes
  {
    s.nodes[n].owner.Some? && !s.nodes[n].queued ==>
      s.nodes[n].hasStrong == StrongNow(s.nodes[n]) && s.nodes[n].hasWeak == (unlinked || WeakNow(s, n))
  }

  lemma DecAnnounces(s: State, n: Nid, strong: bool, internal: bool)
    requires n in s.nodes && KnownBefore(s, n, !strong && internal)
    requires s.nodes[n].internalStrong >= One(strong && internal)
    requires s.nodes[n].localStrong >= One(strong && !internal) && s.nodes[n].localWeak >= One(!strong && !internal)
    ensures var s' := DecNode(s, n, strong, internal); n in s'.nodes ==> Announced(s', n)
  {
    var s' := DecNode(s, n, strong, internal);
    assert RefsOf(s', n) == RefsOf(s, n);
  }

  /** What DecNode does to the record, when it does not free the node. */
  lemma DecFields(s: State, n: Nid, strong: bool, internal: bool)
    requires n in s.nodes
    ensures var s', x := DecNode(s, n, strong, internal), s.nodes[n];
            && s' == s.(nodes := s'.nodes) && s'.nodes - {n} == s.nodes - {n}
            && (n in s'.nodes ==>
                  s'.nodes[n] == x.(internalStrong := x.internalStrong - One(strong && internal),
                                    localStrong := x.localStrong - One(strong && !internal),
                                    localWeak := x.localWeak - One(!strong && !internal),
                                    queued := s'.nodes[n].queued)
                  && (x.owner.None? ==> s'.nodes[n].queued == x.queued))
            && (n !in s'.nodes ==>
                  && RefsOf(s, n) == {}
                  && x.localStrong == One(strong && !internal) && x.localWeak == One(!strong && !internal))
  {
  }

  /** The invariant, except that node `n` counts `di` internal, `ds` strong and `dw` weak holders too many. */
  ghost predicate InvBut(s: State, n: Nid, di: int, ds: int, dw: int) {
    && (forall m {:trigger NodeOk(s, m)} :: m in s.nodes && m != n ==> NodeOk(s, m))
    && RefsOk(s) && BufsOk(s) && (s.mgr.Some? ==> s.mgr.value in s.nodes)
    && n in s.nodes
    && var x := s.nodes[n];
       && (x.pendStrong ==> x.hasStrong) && (x.pendWeak ==> x.hasWeak)
       && x.internalStrong == |StrongRefsOf(s, n)| + di
       && (x.owner.Some? ==>
             && x.localStrong == |TargetedBy(s, n)| + |ObjectsNaming(s, HeldNode(n, true))|
                                 + One(x.pendStrong) + One(s.mgr == Some(n)) + ds
             && x.localWeak == |ObjectsNaming(s, HeldNode(n, false))| + One(x.pendWeak) + One(s.mgr == Some(n)) + dw)
       && (x.owner.None? ==> x.localStrong == 0 && x.localWeak == 0 && !x.queued && s.mgr != Some(n))
  }

  lemma InvIsInvBut(s: State, n: Nid)
    requires Inv(s) && n in s.nodes
    ensures InvBut(s, n, 0, 0, 0) && Announced(s, n) && KnownBefore(s, n, false)
  {
    assert NodeOk(s, n);
  }

  /** Taking the excess holder off the count restores the invariant; a node that is freed on the way
      has no reference, no buffer object and no targeting buffer left. */
  lemma DecNodeKeeps(s: State, n: Nid, strong: bool, internal: bool)
    requires InvBut(s, n, One(strong && internal), One(strong && !internal), One(!strong && !internal))
    requires KnownBefore(s, n, !strong && internal)
    requires s.nodes[n].owner.None? ==> internal
    ensures Inv(DecNode(s, n, strong, internal))
    ensures n !in DecNode(s, n, strong, internal).nodes ==> RefsOf(s, n) == {}
  {
    hide DecNode, BufsOk;
    var s' := DecNode(s, n, strong, internal);
    DecFields(s, n, strong, internal);
    DecAnnounces(s, n, strong, internal);
    OnlyNode(s, s', n);
    NodesOkAround(s, s', n);
    if n !in s'.nodes {
      FreedIsUnheld(s, n);
    }
    OwnersKept(s, s', n);
    NodesKept(s, s', n);
  }

  /** References and the context stay valid when nodes change at `n` only, or `n` goes unreferenced. */
  lemma NodesKept(s: State, s': State, n: Nid)
    requires RefsOk(s) && (s.mgr.Some? ==> s.mgr.value in s.nodes)
    requires s' == s.(nodes := s'.nodes) && s'.nodes - {n} == s.nodes - {n}
    requires n !in s'.nodes ==> RefsOf(s, n) == {} && s.mgr != Some(n)
    ensures RefsOk(s') && (s'.mgr.Some? ==> s'.mgr.value in s'.nodes)
  {
    assert forall m :: m in s.nodes && m != n ==> m in s.nodes - {n};
    forall k | k in s'.refs
      ensures s'.refs[k].node in s'.nodes
    {
      assert n in s'.nodes || k !in RefsOf(s, n);
    }
  }

  /** No buffer and not the context refers to a node whose holders have all been counted off. */
  ghost predicate Unheld(s: State, n: Nid) {
    && s.mgr != Some(n)
    && (forall b :: b in s.bufs ==> s.bufs[b].target != Some(n))
    && (forall b, i :: b in s.bufs && 0 <= i < |s.bufs[b].objs| && s.bufs[b].objs[i].HeldNode? ==>
          s.bufs[b].objs[i].node != n)
  }

  lemma FreedIsUnheld(s: State, n: Nid)
    requires n in s.nodes && BufsOk(s)
    requires s.nodes[n].owner.Some? ==>
               |TargetedBy(s, n)| + |ObjectsNaming(s, HeldNode(n, true))| + One(s.mgr == Some(n)) <= 0
               && |ObjectsNaming(s, HeldNode(n, false))| <= 0
    requires s.nodes[n].owner.None? ==> s.mgr != Some(n)
    ensures Unheld(s, n)
  {
    forall b | b in s.bufs
      ensures s.bufs[b].target != Some(n)
    {
      assert b !in TargetedBy(s, n) || s.nodes[n].owner.None?;
    }
    forall b, i | b in s.bufs && 0 <= i < |s.bufs[b].objs| && s.bufs[b].objs[i].HeldNode?
      ensures s.bufs[b].objs[i].node != n
    {
      if s.nodes[n].owner.Some? {
        assert (b, i) !in ObjectsNaming(s, HeldNode(n, true));
        assert (b, i) !in ObjectsNaming(s, HeldNode(n, false));
      }
    }
  }

  /** Buffers stay valid when nodes change at `n` only, without changing its owner, or `n` is unheld. */
  lemma OwnersKept(s: State, s': State, n: Nid)
    requires BufsOk(s) && s'.bufs == s.bufs && s'.nodes - {n} == s.nodes - {n} && n in s.nodes
    requires if n in s'.nodes then s'.nodes[n].owner == s.nodes[n].owner else Unheld(s, n)
    ensures BufsOk(s')
  {
    assert forall m :: m in s.nodes && m != n ==> m in s'.nodes - {n};
    assert forall m :: m in s.nodes && m != n ==> m in s'.nodes && s'.nodes[m] == s.nodes[m];
  }

  // ---------- references ----------

  /** A node that is still referenced is not freed: only the counts move. */
  lemma DecNodeShifts(s: State, n: Nid, strong: bool, internal: bool, di: int, ds: int, dw: int)
    requires InvBut(s, n, di, ds, dw) && KnownBefore(s, n, !strong && internal) && RefsOf(s, n) != {}
    requires s.nodes[n].internalStrong >= One(strong && internal)
    requires s.nodes[n].localStrong >= One(strong && !internal) && s.nodes[n].localWeak >= One(!strong && !internal)
    requires s.nodes[n].owner.None? ==> internal
    ensures var s' := DecNode(s, n, strong, internal);
            && InvBut(s', n, di - One(strong && internal), ds - One(strong && !internal),
                      dw - One(!strong && !internal))
            && Announced(s', n) && s'.refs == s.refs && s'.byNode == s.byNode
  {
    hide DecNode, BufsOk, RefsOk, NodeOk, SameFor;
    var s' := DecNode(s, n, strong, internal);
    DecFields(s, n, strong, internal);
    DecAnnounces(s, n, strong, internal);
    OnlyNode(s, s', n);
    OwnersKept(s, s', n);
    NodesKept(s, s', n);
    OthersKept(s, s', n);
  }

  lemma UnindexRefs(s: State, k: Handle)
    requires RefsOk(s) && k in s.refs
    ensures RefsOk(Unindex(s, k))
  {
  }

  /** Unlinking a reference takes it off the reference sets of its node. */
  lemma UnindexShifts(s: State, k: Handle, n: Nid, di: int)
    requires k in s.refs && s.refs[k].node == n && InvBut(s, n, di, 0, 0) && Announced(s, n)
    ensures InvBut(Unindex(s, k), n, di + One(s.refs[k].strong > 0), 0, 0) && KnownBefore(Unindex(s, k), n, true)
  {
    hide BufsOk, RefsOk, NodeOk, SameFor;
    var s' := Unindex(s, k);
    OnlyRef(s, s', n, k);
    CardWith(StrongRefsOf(s, n), StrongRefsOf(s', n), k);
    UnindexRefs(s, k);
    SameBufs(s, s');
    RefsInNodes(s);
    assert k in RefsOf(s, n);
    OthersKept(s, s', n);
  }

  lemma SameBufs(s: State, s': State)
    requires BufsOk(s) && s'.bufs == s.bufs && s'.nodes == s.nodes
    ensures BufsOk(s')
  {
  }

  lemma RefsInNodes(s: State)
    requires RefsOk(s)
    ensures forall k :: k in s.refs ==> s.refs[k].node in s.nodes && s.refs[k].strong >= 0 && s.refs[k].weak >= 0
  {
  }

  lemma DeleteRefKeeps(s: State, k: Handle)
    requires Inv(s) && k in s.refs && s.refs[k].node in s.nodes
    ensures Inv(DeleteRef(s, k))
  {
    hide Inv, InvBut, DecNode, Unindex, KnownBefore, Announced;
    var n := s.refs[k].node;
    InvIsInvBut(s, n);
    assert RefsOf(s, n) != {} by { assert k in RefsOf(s, n); }
    var s1 := s;
    if s.refs[k].strong != 0 {
      StrongIsCounted(s, k);
      s1 := DecNode(s, n, true, true);
      DecNodeShifts(s, n, true, true, 0, 0, 0);
    }
    assert s1.refs == s.refs;
    StrongIsCounted(s, k);
    UnindexShifts(s1, k, n, -One(s.refs[k].strong > 0));
    InvButHasNode(Unindex(s1, k), n);
    DecNodeKeeps(Unindex(s1, k), n, false, true);
  }

  lemma InvButHasNode(s: State, n: Nid)
    requires InvBut(s, n, 0, 0, 0)
    ensures n in s.nodes
  {
  }

  lemma StrongIsCounted(s: State, k: Handle)
    requires Inv(s) && k in s.refs && s.refs[k].node in s.nodes
    ensures s.refs[k].strong >= 0 && s.refs[k].weak >= 0
    ensures s.refs[k].strong != 0 ==> s.nodes[s.refs[k].node].internalStrong >= 1
    ensures s.nodes[s.refs[k].node].internalStrong >= 0 && s.nodes[s.refs[k].node].localStrong >= 0
    ensures s.nodes[s.refs[k].node].localWeak >= 0
  {
    var n := s.refs[k].node;
    assert NodeOk(s, n);
    if s.refs[k].strong != 0 {
      assert k in StrongRefsOf(s, n);
    }
  }

  lemma UpdateRefs(s: State, k: Handle, r: Ref)
    requires RefsOk(s) && k in s.refs && r.node == s.refs[k].node && r.strong >= 0 && r.weak >= 0
    ensures RefsOk(s.(refs := s.refs[k := r]))
  {
  }

  lemma OthersKept(s: State, s': State, n: Nid)
    requires forall m {:trigger NodeOk(s, m)} :: m in s.nodes && m != n ==> NodeOk(s, m)
    requires forall m :: m in s'.nodes && m != n ==> SameFor(s, s', m)
    ensures forall m {:trigger NodeOk(s', m)} :: m in s'.nodes && m != n ==> NodeOk(s', m)
  {
    forall m | m in s'.nodes && m != n
      ensures NodeOk(s', m)
    {
      assert SameFor(s, s', m) && NodeOk(s, m);
    }
  }

  /** Changing the counts of one reference. */
  lemma ChangeRef(s: State, k: Handle, r: Ref, di: int)
    requires k in s.refs && r.node == s.refs[k].node && r.strong >= 0 && r.weak >= 0
    requires InvBut(s, r.node, di, 0, 0) && Announced(s, r.node)
    ensures var s1, n := s.(refs := s.refs[k := r]), r.node;
            && InvBut(s1, n, di + One(s.refs[k].strong > 0) - One(r.strong > 0), 0, 0)
            && Announced(s1, n) && k in RefsOf(s1, n)
  {
    hide BufsOk, RefsOk, NodeOk, SameFor;
    var s1, n := s.(refs := s.refs[k := r]), r.node;
    OnlyRef(s, s1, n, k);
    CardWith(StrongRefsOf(s, n), StrongRefsOf(s1, n), k);
    assert RefsOf(s1, n) == RefsOf(s, n) by {
      assert k in RefsOf(s, n) && k in RefsOf(s1, n);
      assert RefsOf(s1, n) == (RefsOf(s1, n) - {k}) + {k};
    }
    SameBufs(s, s1);
    UpdateRefs(s, k, r);
    OthersKept(s, s1, n);
  }

  lemma AnnouncedIsKnown(s: State, n: Nid)
    requires n in s.nodes && Announced(s, n)
    ensures KnownBefore(s, n, false)
  {
  }

  lemma InvButIsInv(s: State, n: Nid)
    requires InvBut(s, n, 0, 0, 0) && Announced(s, n)
    ensures Inv(s)
  {
    forall m | m in s.nodes
      ensures NodeOk(s, m)
    {
    }
  }

  lemma DecRefKeeps(s: State, k: Handle, strong: bool)
    requires Inv(s) && k in s.refs && s.refs[k].node in s.nodes
    ensures Inv(DecRef(s, k, strong))
  {
    hide Inv, InvBut, DecNode, DeleteRef, KnownBefore, Announced, RefsOf;
    var r := s.refs[k];
    StrongIsCounted(s, k);
    if !(if strong then r.strong == 0 else r.weak == 0) {
      var r1 := if strong then r.(strong := r.strong - 1) else r.(weak := r.weak - 1);
      var s1 := s.(refs := s.refs[k := r1]);
      InvIsInvBut(s, r.node);
      ChangeRef(s, k, r1, 0);
      AnnouncedIsKnown(s1, r.node);
      var s2 := s1;
      if strong && r1.strong == 0 {
        s2 := DecNode(s1, r.node, true, true);
        DecNodeKeeps(s1, r.node, true, true);
        DecFields(s1, r.node, true, true);
      } else {
        InvButIsInv(s1, r.node);
      }
      if r1.strong == 0 && r1.weak == 0 && k in s2.refs && s2.refs[k].node in s2.nodes {
        DeleteRefKeeps(s2, k);
      }
    }
  }

  // ---------- counting up ----------

  lemma IncFields(s: State, n: Nid, strong: bool, internal: bool, list: bool)
    requires n in s.nodes
    ensures var (s', ok) := IncNode(s, n, strong, internal, list);
            && s' == s.(nodes := s'.nodes) && s'.nodes - {n} == s.nodes - {n} && n in s'.nodes
            && (ok || !strong ==>
                  s'.nodes[n] == s.nodes[n].(internalStrong := s.nodes[n].internalStrong + One(strong && internal),
                                             localStrong := s.nodes[n].localStrong + One(strong && !internal),
                                             localWeak := s.nodes[n].localWeak + One(!strong && !internal),
                                             queued := s'.nodes[n].queued))
            && (!ok && strong ==> s' == s)
            && (!list ==> s'.nodes[n].queued == s.nodes[n].queued)
  {
    var (s', ok) := IncNode(s, n, strong, internal, list);
    UpdateKeepsOthers(s.nodes, n, s'.nodes[n]);
    if ok || !strong {
      assert s'.nodes == s.nodes[n := s'.nodes[n]];
    }
  }

  lemma UpdateKeepsOthers(nodes: map<Nid, Node>, n: Nid, x: Node)
    requires n in nodes
    ensures nodes[n := x] - {n} == nodes - {n} && nodes[n := nodes[n]] == nodes
  {
  }

  /** The owner knows the strong state; a reference just created may make the weak state news to it,
      but then there is a list to queue the news on. */
  predicate KnownOrNews(s: State, n: Nid, list: bool)
    requires n in s.nodes
  {
    s.nodes[n].owner.Some? && !s.nodes[n].queued ==>
      && s.nodes[n].hasStrong == StrongNow(s.nodes[n])
      && (if list then s.nodes[n].hasStrong ==> s.nodes[n].hasWeak else s.nodes[n].hasWeak && WeakNow(s, n))
  }

  lemma IncAnnounces(s: State, n: Nid, strong: bool, internal: bool, list: bool)
    requires n in s.nodes && KnownOrNews(s, n, list) && s.nodes[n].internalStrong >= 0 && s.nodes[n].localStrong >= 0
    requires s.nodes[n].localWeak >= 0
    requires RefsOf(s, n) != {} || !list
    requires strong && !list && !internal ==> StrongNow(s.nodes[n])
    ensures Announced(IncNode(s, n, strong, internal, list).0, n) || (list && !IncNode(s, n, strong, internal, list).1)
    ensures list ==> IncNode(s, n, strong, internal, list).1
  {
    var s' := IncNode(s, n, strong, internal, list).0;
    assert RefsOf(s', n) == RefsOf(s, n);
  }

  lemma IncNodeShifts(s: State, n: Nid, strong: bool, internal: bool, list: bool, di: int, ds: int, dw: int)
    requires InvBut(s, n, di, ds, dw) && IncNode(s, n, strong, internal, list).1
    requires s.nodes[n].owner.None? ==> internal && !list
    ensures var s' := IncNode(s, n, strong, internal, list).0;
            && InvBut(s', n, di + One(strong && internal), ds + One(strong && !internal),
                      dw + One(!strong && !internal))
            && s'.refs == s.refs && s'.byNode == s.byNode && s'.bufs == s.bufs
  {
    hide IncNode, BufsOk, RefsOk, NodeOk, SameFor;
    var s' := IncNode(s, n, strong, internal, list).0;
    IncFields(s, n, strong, internal, list);
    OnlyNode(s, s', n);
    OwnersKept(s, s', n);
    NodesKept(s, s', n);
    OthersKept(s, s', n);
  }

  // ---------- getting a reference ----------

  /** binder_get_ref_for_node followed by binder_inc_ref; `d` is the descriptor of a new reference. */
  function AddRef(s: State, p: Pid, n: Nid, d: nat, strong: bool, list: bool): (State, bool) {
    var s1 := WithRef(s, p, n, d);
    if HasRef(s1, p, n) then IncRef(s1, Handle(p, s1.byNode[(p, n)]), strong, list) else (s1, false)
  }

  predicate HasRef(s: State, p: Pid, n: Nid) {
    && (p, n) in s.byNode && Handle(p, s.byNode[(p, n)]) in s.refs
    && s.refs[Handle(p, s.byNode[(p, n)])].node in s.nodes
  }

  lemma WithRefRefs(s: State, p: Pid, n: Nid, d: nat)
    requires RefsOk(s) && n in s.nodes && Handle(p, d) !in s.refs
    ensures var s1 := WithRef(s, p, n, d);
            && RefsOk(s1) && (p, n) in s1.byNode && Handle(p, s1.byNode[(p, n)]) in s1.refs
            && s1.refs[Handle(p, s1.byNode[(p, n)])].node == n
  {
  }

  lemma WithRefShifts(s: State, p: Pid, n: Nid, d: nat, list: bool)
    requires Inv(s) && n in s.nodes && Handle(p, d) !in s.refs && (list || WeakNow(s, n))
    ensures var s1 := WithRef(s, p, n, d);
            && InvBut(s1, n, 0, 0, 0) && KnownOrNews(s1, n, list) && RefsOf(s1, n) != {}
            && (!list ==> Announced(s1, n)) && (s1 == s ==> Announced(s1, n))
  {
    hide BufsOk, RefsOk, NodeOk, SameFor;
    var s1 := WithRef(s, p, n, d);
    InvIsInvBut(s, n);
    WithRefRefs(s, p, n, d);
    assert Handle(p, s1.byNode[(p, n)]) in RefsOf(s1, n);
    if s1 != s {
      var k := Handle(p, d);
      OnlyRef(s, s1, n, k);
      CardWith(StrongRefsOf(s, n), StrongRefsOf(s1, n), k);
      SameBufs(s, s1);
      OthersKept(s, s1, n);
    }
  }

  lemma CountsNonNegative(s: State, n: Nid)
    requires InvBut(s, n, 0, 0, 0)
    ensures s.nodes[n].internalStrong >= 0 && s.nodes[n].localStrong >= 0 && s.nodes[n].localWeak >= 0
  {
  }

  /** Handing a process a reference keeps the invariant. Without a list to queue on, the node must
      already be known to be in use, which the caller's own reference to it guarantees. */
  lemma AddRefKeeps(s: State, p: Pid, n: Nid, d: nat, strong: bool, list: bool)
    requires Inv(s) && n in s.nodes && Handle(p, d) !in s.refs && (list || WeakNow(s, n))
    requires list ==> s.nodes[n].owner.Some?
    ensures Inv(AddRef(s, p, n, d, strong, list).0)
  {
    hide Inv, InvBut, IncNode, RefsOf, KnownOrNews, Announced, WeakNow;
    var s1 := WithRef(s, p, n, d);
    WithRefShifts(s, p, n, d, list);
    WithRefOfInv(s, p, n, d);
    var k := Handle(p, s1.byNode[(p, n)]);
    var r := s1.refs[k];
    var r' := if strong then r.(strong := r.strong + 1) else r.(weak := r.weak + 1);
    CountsNonNegative(s1, n);
    if (if strong then r.strong == 0 else r.weak == 0) {
      var (s2, ok) := IncNode(s1, n, strong, true, list);
      IncAnnounces(s1, n, strong, true, list);
      IncFields(s1, n, strong, true, list);
      if ok {
        IncNodeShifts(s1, n, strong, true, list, 0, 0, 0);
        ChangeRef(s2, k, r', One(strong));
        InvButIsInv(s2.(refs := s2.refs[k := r']), n);
      } else {
        FailedIncIsNoop(s1, n, strong);
        InvButIsInv(s1, n);
      }
    } else {
      assert s1 == s;
      ChangeRef(s1, k, r', 0);
      InvButIsInv(s1.(refs := s1.refs[k := r']), n);
    }
  }

  lemma WithRefOfInv(s: State, p: Pid, n: Nid, d: nat)
    requires Inv(s) && n in s.nodes && Handle(p, d) !in s.refs
    ensures var s1 := WithRef(s, p, n, d);
            && (p, n) in s1.byNode && Handle(p, s1.byNode[(p, n)]) in s1.refs && n in s1.nodes
            && s1.refs[Handle(p, s1.byNode[(p, n)])].node == n
            && s1.refs[Handle(p, s1.byNode[(p, n)])].strong >= 0 && s1.refs[Handle(p, s1.byNode[(p, n)])].weak >= 0
  {
    WithRefRefs(s, p, n, d);
  }

  lemma FailedIncIsNoop(s: State, n: Nid, strong: bool)
    requires n in s.nodes && !IncNode(s, n, strong, true, false).1
    ensures IncNode(s, n, strong, true, false).0 == s
  {
  }

  // ---------- buffers ----------

  function SetBuffer(s: State, b: Bid, buf: Buffer): State {
    s.(bufs := s.bufs[b := buf])
  }

  function BufferAt(s: State, b: Bid): Buffer {
    if b in s.bufs then s.bufs[b] else Buffer(0, None, [])
  }

  /** The nodes a buffer holds are those of its owner. */
  ghost predicate HoldsOwn(s: State, buf: Buffer) {
    && (buf.target.Some? ==> buf.target.value in s.nodes && s.nodes[buf.target.value].owner == Some(buf.owner))
    && (forall i :: 0 <= i < |buf.objs| && buf.objs[i].HeldNode? ==>
          buf.objs[i].node in s.nodes && s.nodes[buf.objs[i].node].owner == Some(buf.owner))
  }

  /** How often a buffer counts for one kind of object. */
  function Places(b: Bid, buf: Buffer, h: Held): set<(Bid, nat)> {
    set i | 0 <= i < |buf.objs| && buf.objs[i] == h :: (b, i)
  }

  predicate IsNamed(s: State, h: Held, x: (Bid, nat)) {
    x.0 in s.bufs && x.1 < |s.bufs[x.0].objs| && s.bufs[x.0].objs[x.1] == h
  }

  lemma NamedMember(s: State, h: Held, x: (Bid, nat))
    ensures x in ObjectsNaming(s, h) <==> IsNamed(s, h, x)
  {
    if IsNamed(s, h, x) {
      assert (x.0, x.1) in ObjectsNaming(s, h);
    }
  }

  lemma PlacesMember(b: Bid, buf: Buffer, h: Held, x: (Bid, nat))
    ensures x in Places(b, buf, h) <==> x.0 == b && x.1 < |buf.objs| && buf.objs[x.1] == h
  {
    if x.0 == b && x.1 < |buf.objs| && buf.objs[x.1] == h {
      assert (b, x.1) in Places(b, buf, h);
    }
  }

  /** Replacing one buffer moves the objects of that buffer and no others. */
  lemma ObjectSets(s: State, b: Bid, buf: Buffer, h: Held)
    ensures var s', was := SetBuffer(s, b, buf), BufferAt(s, b);
            && |ObjectsNaming(s', h)| - |Places(b, buf, h)| == |ObjectsNaming(s, h)| - |Places(b, was, h)|
            && (Places(b, buf, h) == Places(b, was, h) ==> ObjectsNaming(s', h) == ObjectsNaming(s, h))
  {
    hide ObjectsNaming, Places;
    var s', was := SetBuffer(s, b, buf), BufferAt(s, b);
    var p, q := Places(b, buf, h), Places(b, was, h);
    var a, c := ObjectsNaming(s', h), ObjectsNaming(s, h);
    forall x: (Bid, nat)
      ensures (x in p ==> x in a) && (x in q ==> x in c) && (x in a && x !in p <==> x in c && x !in q)
    {
      NamedMember(s, h, x);
      NamedMember(s', h, x);
      PlacesMember(b, buf, h, x);
      PlacesMember(b, was, h, x);
    }
    CardSwap(a, p, c, q);
    if p == q {
      assert a == (a - p) + p && c == (c - q) + q;
    }
  }

  lemma TargetSets(s: State, b: Bid, buf: Buffer, n: Nid)
    ensures var s', was := SetBuffer(s, b, buf), BufferAt(s, b);
            && |TargetedBy(s', n)| - One(buf.target == Some(n)) == |TargetedBy(s, n)| - One(was.target == Some(n))
            && ((buf.target == Some(n)) == (was.target == Some(n)) ==> TargetedBy(s', n) == TargetedBy(s, n))
  {
    var s', was := SetBuffer(s, b, buf), BufferAt(s, b);
    assert TargetedBy(s', n) - {b} == TargetedBy(s, n) - {b};
    CardWith(TargetedBy(s', n), TargetedBy(s, n), b);
    assert b in TargetedBy(s', n) <==> buf.target == Some(n);
    assert b in TargetedBy(s, n) <==> was.target == Some(n);
    if b in TargetedBy(s', n) <==> b in TargetedBy(s, n) {
      assert TargetedBy(s', n) == TargetedBy(s, n);
    }
  }

  lemma SetBufferBufs(s: State, b: Bid, buf: Buffer)
    requires BufsOk(s) && HoldsOwn(s, buf)
    ensures BufsOk(SetBuffer(s, b, buf))
  {
  }

  /** Replacing a buffer by one that differs in its holds on one node only. */
  lemma SetBufferShifts(s: State, b: Bid, buf: Buffer, n: Nid, ds: int, dw: int)
    requires InvBut(s, n, 0, ds, dw) && HoldsOwn(s, buf) && s.nodes[n].owner.Some?
    requires var was := BufferAt(s, b);
             && (forall m :: m != n ==> (buf.target == Some(m)) == (was.target == Some(m)))
             && (forall m, strong :: m != n ==>
                   Places(b, buf, HeldNode(m, strong)) == Places(b, was, HeldNode(m, strong)))
    ensures var s' := SetBuffer(s, b, buf);
            var was := BufferAt(s, b);
            && (Announced(s, n) ==> Announced(s', n))
            && InvBut(s', n, 0,
                 ds - One(buf.target == Some(n)) + One(was.target == Some(n))
                    - |Places(b, buf, HeldNode(n, true))| + |Places(b, was, HeldNode(n, true))|,
                 dw - |Places(b, buf, HeldNode(n, false))| + |Places(b, was, HeldNode(n, false))|)
  {
    hide BufsOk, RefsOk, NodeOk, Places, TargetedBy, ObjectsNaming;
    var s' := SetBuffer(s, b, buf);
    ObjectSets(s, b, buf, HeldNode(n, true));
    ObjectSets(s, b, buf, HeldNode(n, false));
    TargetSets(s, b, buf, n);
    assert forall m :: RefsOf(s', m) == RefsOf(s, m) && StrongRefsOf(s', m) == StrongRefsOf(s, m);
    forall m | m in s'.nodes && m != n
      ensures SameFor(s, s', m)
    {
      ObjectSets(s, b, buf, HeldNode(m, true));
      ObjectSets(s, b, buf, HeldNode(m, false));
      TargetSets(s, b, buf, m);
    }
    SetBufferBufs(s, b, buf);
    RefsUntouched(s, s');
    OthersKept(s, s', n);
  }

  lemma RefsUntouched(s: State, s': State)
    requires RefsOk(s) && s'.refs == s.refs && s'.byNode == s.byNode && s'.nodes == s.nodes
    ensures RefsOk(s')
  {
  }

  lemma PlacesAppend(b: Bid, buf: Buffer, h: Held, g: Held)
    ensures var buf' := buf.(objs := buf.objs + [h]);
            && |Places(b, buf', g)| == |Places(b, buf, g)| + One(g == h)
            && (g != h ==> Places(b, buf', g) == Places(b, buf, g))
  {
    hide Places;
    var buf', x := buf.(objs := buf.objs + [h]), (b, |buf.objs|);
    forall y: (Bid, nat)
      ensures y in Places(b, buf', g) <==> y in Places(b, buf, g) || (y == x && g == h)
    {
      PlacesMember(b, buf, g, y);
      PlacesMember(b, buf', g, y);
    }
    PlacesMember(b, buf, g, x);
    assert Places(b, buf', g) == Places(b, buf, g) + (if g == h then {x} else {});
  }

  lemma PlacesErase(b: Bid, buf: Buffer, i: nat, g: Held)
    requires i < |buf.objs| && g != Gone
    ensures var buf' := buf.(objs := buf.objs[i := Gone]);
            && |Places(b, buf', g)| == |Places(b, buf, g)| - One(g == buf.objs[i])
            && (g != buf.objs[i] ==> Places(b, buf', g) == Places(b, buf, g))
  {
    hide Places;
    var buf', x := buf.(objs := buf.objs[i := Gone]), (b, i);
    forall y: (Bid, nat)
      ensures y in Places(b, buf', g) <==> y in Places(b, buf, g) && !(y == x && g == buf.objs[i])
    {
      PlacesMember(b, buf, g, y);
      PlacesMember(b, buf', g, y);
    }
    PlacesMember(b, buf, g, x);
    assert Places(b, buf', g) == Places(b, buf, g) - (if g == buf.objs[i] then {x} else {});
  }

  /** A change of one buffer that affects no node. */
  lemma SetBufferKeeps(s: State, b: Bid, buf: Buffer)
    requires Inv(s) && HoldsOwn(s, buf) && buf.target == BufferAt(s, b).target
    requires forall m, strong :: Places(b, buf, HeldNode(m, strong)) == Places(b, BufferAt(s, b), HeldNode(m, strong))
    ensures Inv(SetBuffer(s, b, buf))
  {
    hide BufsOk, RefsOk, Places, TargetedBy, ObjectsNaming;
    var s' := SetBuffer(s, b, buf);
    assert forall m :: RefsOf(s', m) == RefsOf(s, m) && StrongRefsOf(s', m) == StrongRefsOf(s, m);
    forall m | m in s'.nodes
      ensures NodeOk(s', m)
    {
      ObjectSets(s, b, buf, HeldNode(m, true));
      ObjectSets(s, b, buf, HeldNode(m, false));
      TargetSets(s, b, buf, m);
      assert NodeOk(s, m);
    }
    SetBufferBufs(s, b, buf);
    RefsUntouched(s, s');
  }

  // ---------- steps of a transaction ----------

  /** A buffer for a reply, which targets no node. */
  function OpenBuffer(s: State, b: Bid, p: Pid): State { SetBuffer(s, b, Buffer(p, None, [])) }

  /** A buffer for a call on node `n` of process `p`. */
  function HoldTarget(s: State, b: Bid, p: Pid, n: Nid): State
    requires n in s.nodes
  {
    SetBuffer(IncNode(s, n, true, false, false).0, b, Buffer(p, Some(n), []))
  }

  function Append(s: State, b: Bid, h: Held): State
    requires b in s.bufs
  {
    SetBuffer(s, b, s.bufs[b].(objs := s.bufs[b].objs + [h]))
  }

  /** binder_translate_handle on a handle whose node belongs to the target process. */
  function HoldNode(s: State, b: Bid, n: Nid, strong: bool): State
    requires n in s.nodes && b in s.bufs
  {
    Append(IncNode(s, n, strong, false, false).0, b, HeldNode(n, strong))
  }

  /** binder_translate_binder, and binder_translate_handle towards a third process. */
  function HoldRef(s: State, b: Bid, n: Nid, d: nat, strong: bool, list: bool): State
    requires b in s.bufs
  {
    var p := s.bufs[b].owner;
    var s1 := AddRef(s, p, n, d, strong, list).0;
    if b in s1.bufs && (p, n) in s1.byNode then Append(s1, b, HeldRef(s1.byNode[(p, n)], strong)) else s1
  }

  /** The target part of binder_transaction_buffer_release. */
  function DropTarget(s: State, b: Bid): State
    requires b in s.bufs && s.bufs[b].target.Some? && s.bufs[b].target.value in s.nodes
  {
    DecNode(SetBuffer(s, b, s.bufs[b].(target := None)), s.bufs[b].target.value, true, false)
  }

  /** binder_get_ref. */
  function Lookup(s: State, p: Pid, desc: nat, needStrong: bool): Option<Handle> {
    if Handle(p, desc) in s.refs && (needStrong ==> s.refs[Handle(p, desc)].strong != 0)
        then Some(Handle(p, desc)) else None
  }

  /** One turn of the object loop of binder_transaction_buffer_release, on an object that reads as `h`. */
  function DropAs(s: State, b: Bid, i: nat, h: Held): State
    requires b in s.bufs && i < |s.bufs[b].objs|
  {
    var s1 := SetBuffer(s, b, s.bufs[b].(objs := s.bufs[b].objs[i := Gone]));
    match h
    case HeldNode(n, strong) => if n in s1.nodes then DecNode(s1, n, strong, false) else s1
    case HeldRef(desc, strong) =>
      var k := Lookup(s1, s.bufs[b].owner, desc, strong);
      if k.Some? && s1.refs[k.value].node in s1.nodes then DecRef(s1, k.value, strong) else s1
    case Gone => s1
  }

  /** The object reads as what it was translated to. */
  function DropObject(s: State, b: Bid, i: nat): State
    requires b in s.bufs && i < |s.bufs[b].objs|
  {
    DropAs(s, b, i, s.bufs[b].objs[i])
  }

  function CloseBuffer(s: State, b: Bid): State { s.(bufs := s.bufs - {b}) }

  lemma HoldTargetKeeps(s: State, b: Bid, p: Pid, n: Nid)
    requires Inv(s) && b !in s.bufs && n in s.nodes && s.nodes[n].owner == Some(p) && StrongNow(s.nodes[n])
    ensures Inv(HoldTarget(s, b, p, n))
  {
    hide Inv, InvBut, IncNode, KnownOrNews, Announced, Places, StrongNow, WeakNow;
    var s1, buf := IncNode(s, n, true, false, false).0, Buffer(p, Some(n), []);
    HoldLocal(s, n, true);
    assert forall m, strong ::
        Places(b, buf, HeldNode(m, strong)) == {} && Places(b, BufferAt(s1, b), HeldNode(m, strong)) == {} by {
      NoPlaces(b, buf);
      NoPlaces(b, BufferAt(s1, b));
    }
    SetBufferShifts(s1, b, buf, n, 1, 0);
    InvButIsInv(SetBuffer(s1, b, buf), n);
  }

  lemma NoPlaces(b: Bid, buf: Buffer)
    requires forall i :: 0 <= i < |buf.objs| ==> !buf.objs[i].HeldNode?
    ensures forall m, strong :: Places(b, buf, HeldNode(m, strong)) == {}
  {
  }

  /** Raising a local count of a node in use. */
  lemma HoldLocal(s: State, n: Nid, strong: bool)
    requires Inv(s) && n in s.nodes && s.nodes[n].owner.Some?
    requires (if strong then StrongNow(s.nodes[n]) else WeakNow(s, n))
    ensures var (s1, ok) := IncNode(s, n, strong, false, false);
            && ok && InvBut(s1, n, 0, One(strong), One(!strong)) && Announced(s1, n)
            && s1.bufs == s.bufs && s1.nodes[n].owner == s.nodes[n].owner
  {
    InvIsInvBut(s, n);
    CountsNonNegative(s, n);
    IncAnnounces(s, n, strong, false, false);
    IncFields(s, n, strong, false, false);
    IncNodeShifts(s, n, strong, false, false, 0, 0, 0);
  }

  /** Replacing one object changes no hold on any other node. */
  lemma AppendShifts(s: State, b: Bid, n: Nid, strong: bool)
    requires b in s.bufs && InvBut(s, n, 0, One(strong), One(!strong)) && Announced(s, n)
    requires s.nodes[n].owner == Some(s.bufs[b].owner)
    ensures Inv(Append(s, b, HeldNode(n, strong)))
  {
    hide InvBut, Announced, Places;
    var was, h := s.bufs[b], HeldNode(n, strong);
    var buf := was.(objs := was.objs + [h]);
    forall m, st
      ensures |Places(b, buf, HeldNode(m, st))| == |Places(b, was, HeldNode(m, st))| + One(HeldNode(m, st) == h)
      ensures HeldNode(m, st) != h ==> Places(b, buf, HeldNode(m, st)) == Places(b, was, HeldNode(m, st))
    {
      PlacesAppend(b, was, h, HeldNode(m, st));
    }
    InvButBufs(s, n, 0, One(strong), One(!strong));
    AppendHoldsOwn(s, b, h);
    SetBufferShifts(s, b, buf, n, One(strong), One(!strong));
    InvButIsInv(SetBuffer(s, b, buf), n);
  }

  lemma InvButBufs(s: State, n: Nid, di: int, ds: int, dw: int)
    requires InvBut(s, n, di, ds, dw)
    ensures BufsOk(s) && n in s.nodes
  {
  }

  lemma AppendHoldsOwn(s: State, b: Bid, h: Held)
    requires BufsOk(s) && b in s.bufs
    requires h.HeldNode? ==> h.node in s.nodes && s.nodes[h.node].owner == Some(s.bufs[b].owner)
    ensures HoldsOwn(s, s.bufs[b].(objs := s.bufs[b].objs + [h]))
  {
  }

  lemma HoldNodeKeeps(s: State, b: Bid, n: Nid, strong: bool)
    requires Inv(s) && b in s.bufs && n in s.nodes && s.nodes[n].owner == Some(s.bufs[b].owner)
    requires if strong then StrongNow(s.nodes[n]) else WeakNow(s, n)
    ensures Inv(HoldNode(s, b, n, strong))
  {
    hide Inv, InvBut, IncNode, Announced, StrongNow, WeakNow, SetBuffer;
    HoldLocal(s, n, strong);
    AppendShifts(IncNode(s, n, strong, false, false).0, b, n, strong);
  }

  /** Descriptors in a buffer are not holds on nodes. */
  lemma AppendRefKeeps(s: State, b: Bid, desc: nat, strong: bool)
    requires Inv(s) && b in s.bufs
    ensures Inv(Append(s, b, HeldRef(desc, strong)))
  {
    hide Places;
    var was, h := s.bufs[b], HeldRef(desc, strong);
    forall m, st
      ensures Places(b, was.(objs := was.objs + [h]), HeldNode(m, st)) == Places(b, was, HeldNode(m, st))
    {
      PlacesAppend(b, was, h, HeldNode(m, st));
    }
    AppendHoldsOwn(s, b, h);
    SetBufferKeeps(s, b, was.(objs := was.objs + [h]));
  }

  lemma HoldRefKeeps(s: State, b: Bid, n: Nid, d: nat, strong: bool, list: bool)
    requires Inv(s) && b in s.bufs && n in s.nodes && Handle(s.bufs[b].owner, d) !in s.refs
    requires (list || WeakNow(s, n)) && (list ==> s.nodes[n].owner.Some?)
    ensures Inv(HoldRef(s, b, n, d, strong, list))
  {
    hide Inv, AddRef, SetBuffer;
    var p := s.bufs[b].owner;
    AddRefKeeps(s, p, n, d, strong, list);
    var s1 := AddRef(s, p, n, d, strong, list).0;
    if b in s1.bufs && (p, n) in s1.byNode {
      AppendRefKeeps(s1, b, s1.byNode[(p, n)], strong);
    }
  }

  /** A local count includes every holder, so taking one off never makes it negative. */
  lemma DropTargetKeeps(s: State, b: Bid)
    requires Inv(s) && b in s.bufs && s.bufs[b].target.Some? && s.bufs[b].target.value in s.nodes
    ensures s.nodes[s.bufs[b].target.value].localStrong >= 1
    ensures Inv(DropTarget(s, b))
  {
    hide InvBut, DecNode, Places;
    var n, buf := s.bufs[b].target.value, s.bufs[b].(target := None);
    InvIsInvBut(s, n);
    assert NodeOk(s, n) && b in TargetedBy(s, n);
    assert forall h :: Places(b, buf, h) == Places(b, s.bufs[b], h) by { SamePlaces(b, buf, s.bufs[b]); }
    SetBufferShifts(s, b, buf, n, 0, 0);
    AnnouncedIsKnown(SetBuffer(s, b, buf), n);
    DecNodeKeeps(SetBuffer(s, b, buf), n, true, false);
  }

  lemma SamePlaces(b: Bid, buf: Buffer, was: Buffer)
    requires buf.objs == was.objs
    ensures forall h :: Places(b, buf, h) == Places(b, was, h)
  {
  }

  lemma EraseHoldsOwn(s: State, b: Bid, i: nat)
    requires BufsOk(s) && b in s.bufs && i < |s.bufs[b].objs|
    ensures HoldsOwn(s, s.bufs[b].(objs := s.bufs[b].objs[i := Gone]))
  {
  }

  lemma DropNodeKeeps(s: State, b: Bid, i: nat, n: Nid, strong: bool)
    requires Inv(s) && b in s.bufs && i < |s.bufs[b].objs| && s.bufs[b].objs[i] == HeldNode(n, strong) && n in s.nodes
    ensures if strong then s.nodes[n].localStrong >= 1 else s.nodes[n].localWeak >= 1
    ensures Inv(DecNode(SetBuffer(s, b, s.bufs[b].(objs := s.bufs[b].objs[i := Gone])), n, strong, false))
  {
    hide InvBut, DecNode, Places;
    var was := s.bufs[b];
    var buf := was.(objs := was.objs[i := Gone]);
    InvIsInvBut(s, n);
    assert s.nodes[n].owner.Some?;
    forall m, st
      ensures |Places(b, buf, HeldNode(m, st))|
           == |Places(b, was, HeldNode(m, st))| - One(HeldNode(m, st) == HeldNode(n, strong))
      ensures HeldNode(m, st) != HeldNode(n, strong) ==>
                Places(b, buf, HeldNode(m, st)) == Places(b, was, HeldNode(m, st))
    {
      PlacesErase(b, was, i, HeldNode(m, st));
    }
    assert NodeOk(s, n);
    NamedMember(s, HeldNode(n, strong), (b, i));
    EraseHoldsOwn(s, b, i);
    SetBufferShifts(s, b, buf, n, 0, 0);
    AnnouncedIsKnown(SetBuffer(s, b, buf), n);
    DecNodeKeeps(SetBuffer(s, b, buf), n, strong, false);
  }

  lemma EraseRefKeeps(s: State, b: Bid, i: nat)
    requires Inv(s) && b in s.bufs && i < |s.bufs[b].objs| && !s.bufs[b].objs[i].HeldNode?
    ensures Inv(SetBuffer(s, b, s.bufs[b].(objs := s.bufs[b].objs[i := Gone])))
  {
    hide Places;
    var was := s.bufs[b];
    forall m, st
      ensures Places(b, was.(objs := was.objs[i := Gone]), HeldNode(m, st)) == Places(b, was, HeldNode(m, st))
    {
      PlacesErase(b, was, i, HeldNode(m, st));
    }
    EraseHoldsOwn(s, b, i);
    SetBufferKeeps(s, b, was.(objs := was.objs[i := Gone]));
  }

  lemma DropObjectKeeps(s: State, b: Bid, i: nat)
    requires Inv(s) && b in s.bufs && i < |s.bufs[b].objs|
    ensures Inv(DropObject(s, b, i))
  {
    hide NodesOk, DecNode, DecRef;
    var s1 := SetBuffer(s, b, s.bufs[b].(objs := s.bufs[b].objs[i := Gone]));
    match s.bufs[b].objs[i]
    case HeldNode(n, strong) => DropNodeKeeps(s, b, i, n, strong);
    case HeldRef(desc, strong) =>
      EraseRefKeeps(s, b, i);
      var k := Lookup(s1, s.bufs[b].owner, desc, strong);
      if k.Some? {
        DecRefKeeps(s1, k.value, strong);
      }
    case Gone => EraseRefKeeps(s, b, i);
  }

  lemma ClosedHoldsNothing(s: State, b: Bid, h: Held)
    requires b in s.bufs && h.HeldNode? && forall i :: 0 <= i < |s.bufs[b].objs| ==> s.bufs[b].objs[i] == Gone
    ensures ObjectsNaming(CloseBuffer(s, b), h) == ObjectsNaming(s, h)
  {
    hide ObjectsNaming;
    forall x: (Bid, nat)
      ensures x in ObjectsNaming(CloseBuffer(s, b), h) <==> x in ObjectsNaming(s, h)
    {
      NamedMember(s, h, x);
      NamedMember(CloseBuffer(s, b), h, x);
    }
  }

  /** A buffer that holds nothing any more can go. */
  lemma CloseBufferKeeps(s: State, b: Bid)
    requires Inv(s) && b in s.bufs && s.bufs[b].target.None?
    requires forall i :: 0 <= i < |s.bufs[b].objs| ==> s.bufs[b].objs[i] == Gone
    ensures Inv(CloseBuffer(s, b))
  {
    hide ObjectsNaming, RefsOk;
    var s' := CloseBuffer(s, b);
    forall m | m in s'.nodes
      ensures NodeOk(s', m)
    {
      assert NodeOk(s, m);
      assert RefsOf(s', m) == RefsOf(s, m) && StrongRefsOf(s', m) == StrongRefsOf(s, m);
      assert TargetedBy(s', m) == TargetedBy(s, m);
      ClosedHoldsNothing(s, b, HeldNode(m, true));
      ClosedHoldsNothing(s, b, HeldNode(m, false));
    }
    RefsUntouched(s, s');
  }

  // ---------- the owner's side ----------

  /** BC_ACQUIRE_DONE and BC_INCREFS_DONE; without a pending request nothing happens. */
  function Done(s: State, n: Nid, strong: bool): State
    requires n in s.nodes
  {
    var x := s.nodes[n];
    if (if strong then !x.pendStrong else !x.pendWeak) then s
    else
      var x1 := if strong then x.(pendStrong := false) else x.(pendWeak := false);
      DecNode(s.(nodes := s.nodes[n := x1]), n, strong, false)
  }

  datatype Command = Increfs | Acquire | Release | Decrefs | Noop

  function NextCommand(s: State, n: Nid): Command
    requires n in s.nodes
  {
    var x, strong, weak := s.nodes[n], StrongNow(s.nodes[n]), WeakNow(s, n);
    if weak && !x.hasWeak then Increfs
    else if strong && !x.hasStrong then Acquire
    else if !strong && x.hasStrong then Release
    else if !weak && x.hasWeak then Decrefs
    else Noop
  }

  /** One turn of binder_thread_read on a queued node: one command to the owner, or, when the owner
      knows everything, the node leaves the list and, if nothing uses it, is freed. */
  function NodeWork(s: State, n: Nid): State
    requires n in s.nodes
  {
    var x := s.nodes[n];
    match NextCommand(s, n)
    case Increfs => s.(nodes := s.nodes[n := x.(hasWeak := true, pendWeak := true, localWeak := x.localWeak + 1)])
    case Acquire =>
      s.(nodes := s.nodes[n := x.(hasStrong := true, pendStrong := true, localStrong := x.localStrong + 1)])
    case Release => s.(nodes := s.nodes[n := x.(hasStrong := false)])
    case Decrefs => s.(nodes := s.nodes[n := x.(hasWeak := false)])
    case Noop =>
      if !WeakNow(s, n) && !StrongNow(x) then s.(nodes := s.nodes - {n})
      else s.(nodes := s.nodes[n := x.(queued := false)])
  }

  lemma DoneKeeps(s: State, n: Nid, strong: bool)
    requires Inv(s) && n in s.nodes && s.nodes[n].owner.Some?
    ensures Inv(Done(s, n, strong))
  {
    hide DecNode, BufsOk, RefsOk, SameFor;
    var x := s.nodes[n];
    if if strong then x.pendStrong else x.pendWeak {
      var s1 := s.(nodes := s.nodes[n := if strong then x.(pendStrong := false) else x.(pendWeak := false)]);
      assert NodeOk(s, n);
      OnlyNode(s, s1, n);
      OwnersKept(s, s1, n);
      NodesKept(s, s1, n);
      OthersKept(s, s1, n);
      DecNodeKeeps(s1, n, strong, false);
    }
  }

  lemma NodeWorkAnnounces(s: State, n: Nid)
    requires n in s.nodes && NodeOk(s, n) && s.nodes[n].owner.Some? && s.nodes[n].queued
    ensures var s' := NodeWork(s, n); n in s'.nodes ==> NodeOk(s', n)
  {
    hide TargetedBy, ObjectsNaming, StrongRefsOf;
    OnlyNode(s, NodeWork(s, n), n);
  }

  lemma NodeWorkKeeps(s: State, n: Nid)
    requires Inv(s) && n in s.nodes && s.nodes[n].owner.Some? && s.nodes[n].queued
    ensures Inv(NodeWork(s, n))
  {
    hide BufsOk, RefsOk, SameFor, Announced;
    var s' := NodeWork(s, n);
    assert NodeOk(s, n);
    NodeWorkAnnounces(s, n);
    OnlyNode(s, s', n);
    if n !in s'.nodes {
      FreedIsUnheld(s, n);
    }
    OwnersKept(s, s', n);
    NodesKept(s, s', n);
    NodesOkAround(s, s', n);
  }

  /** Thread exit discards queued node work without acting on it. The handshake survives that exactly
      when the owner already knew everything. */
  function DiscardWork(s: State, n: Nid): State
    requires n in s.nodes
  {
    s.(nodes := s.nodes[n := s.nodes[n].(queued := false)])
  }

  lemma DiscardWorkKeeps(s: State, n: Nid)
    requires Inv(s) && n in s.nodes && s.nodes[n].owner.Some?
    ensures Inv(DiscardWork(s, n)) <==> NextCommand(s, n) == Noop
  {
    hide BufsOk, RefsOk, SameFor, StrongRefsOf, TargetedBy, ObjectsNaming;
    var s' := DiscardWork(s, n);
    assert NodeOk(s, n);
    OnlyNode(s, s', n);
    OwnersKept(s, s', n);
    NodesKept(s, s', n);
    OthersKept(s, s', n);
    if NextCommand(s, n) == Noop {
      NodesOkAround(s, s', n);
    }
    if Inv(s') {
      assert NodeOk(s', n);
    }
  }

  // ---------- nodes come and go ----------

  const BLANK: Node := Node(None, 0, 0, 0, false, false, false, false, false)

  /** binder_new_node. */
  function NewNode(s: State, n: Nid, p: Pid): State {
    s.(nodes := s.nodes[n := BLANK.(owner := Some(p))])
  }

  /** BINDER_SET_CONTEXT_MGR. */
  function NewManager(s: State, n: Nid, p: Pid): State {
    s.(nodes := s.nodes[n := Node(Some(p), 0, 1, 1, true, false, true, false, false)], mgr := Some(n))
  }

  /** Nothing mentions an identity that is not in use. */
  lemma FreshIsUnused(s: State, n: Nid)
    requires Inv(s) && n !in s.nodes
    ensures RefsOf(s, n) == {} && StrongRefsOf(s, n) == {} && TargetedBy(s, n) == {} && s.mgr != Some(n)
    ensures ObjectsNaming(s, HeldNode(n, true)) == {} && ObjectsNaming(s, HeldNode(n, false)) == {}
  {
  }

  lemma NewNodeKeeps(s: State, n: Nid, p: Pid)
    requires Inv(s) && n !in s.nodes
    ensures Inv(NewNode(s, n, p))
  {
    hide RefsOf, StrongRefsOf, TargetedBy, ObjectsNaming;
    var s' := NewNode(s, n, p);
    FreshIsUnused(s, n);
    OnlyNode(s, s', n);
    NodesOkAround(s, s', n);
  }

  lemma NewManagerKeeps(s: State, n: Nid, p: Pid)
    requires Inv(s) && n !in s.nodes && s.mgr.None?
    ensures Inv(NewManager(s, n, p))
  {
    hide RefsOf, StrongRefsOf, TargetedBy, ObjectsNaming;
    var s1, s' := NewNode(s, n, p), NewManager(s, n, p);
    FreshIsUnused(s, n);
    OnlyNode(s, s1, n);
    SameRefs(s1, s');
    forall m | m in s'.nodes && m != n
      ensures SameFor(s, s', m)
    {
      assert SameFor(s, s1, m);
    }
    NodesOkAround(s, s', n);
  }

  lemma SameRefs(s: State, s': State)
    requires s'.refs == s.refs && s'.bufs == s.bufs
    ensures forall m :: RefsOf(s', m) == RefsOf(s, m) && StrongRefsOf(s', m) == StrongRefsOf(s, m)
    ensures forall m :: TargetedBy(s', m) == TargetedBy(s, m)
    ensures forall h :: ObjectsNaming(s', h) == ObjectsNaming(s, h)
  {
  }

  /** The node and buffer part of binder_deferred_release: nodes nobody refers to are freed, the others
      stay as dead nodes, and the process's buffers go with everything they hold. */
  function ExitNodes(s: State, p: Pid): State {
    s.(nodes := map n | n in s.nodes && (s.nodes[n].owner != Some(p) || RefsOf(s, n) != {}) ::
                  if s.nodes[n].owner == Some(p)
                  then s.nodes[n].(owner := None, localStrong := 0, localWeak := 0, queued := false)
                  else s.nodes[n],
       bufs := map b | b in s.bufs && s.bufs[b].owner != p :: s.bufs[b],
       mgr := if s.mgr.Some? && s.mgr.value in s.nodes && s.nodes[s.mgr.value].owner == Some(p) then None else s.mgr)
  }

  /** The buffers of a process hold no node of another one. */
  lemma OthersUnaffected(s: State, p: Pid, n: Nid)
    requires BufsOk(s) && n in s.nodes && s.nodes[n].owner != Some(p)
    ensures var s' := ExitNodes(s, p);
            && TargetedBy(s', n) == TargetedBy(s, n)
            && ObjectsNaming(s', HeldNode(n, true)) == ObjectsNaming(s, HeldNode(n, true))
            && ObjectsNaming(s', HeldNode(n, false)) == ObjectsNaming(s, HeldNode(n, false))
  {
    var s' := ExitNodes(s, p);
    forall x: (Bid, nat), strong: bool
      ensures x in ObjectsNaming(s', HeldNode(n, strong)) <==> x in ObjectsNaming(s, HeldNode(n, strong))
    {
      NamedMember(s, HeldNode(n, strong), x);
      NamedMember(s', HeldNode(n, strong), x);
    }
  }

  lemma ExitNodesKeeps(s: State, p: Pid)
    requires Inv(s)
    ensures Inv(ExitNodes(s, p))
  {
    hide TargetedBy, ObjectsNaming;
    var s' := ExitNodes(s, p);
    forall m | m in s'.nodes
      ensures NodeOk(s', m)
    {
      assert NodeOk(s, m);
      assert RefsOf(s', m) == RefsOf(s, m) && StrongRefsOf(s', m) == StrongRefsOf(s, m);
      if s.nodes[m].owner != Some(p) {
        OthersUnaffected(s, p, m);
      }
    }
    forall k | k in s'.refs
      ensures s'.refs[k].node in s'.nodes
    {
      assert k in RefsOf(s, s.refs[k].node);
    }
  }
}
