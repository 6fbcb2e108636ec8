/** One-way calls: at most one per node is under way, the others wait in the node's own list. */
module OneWay {
  type Nid = nat
  type Mid = nat
  type Qid = nat

  /** Where a one-way call with a live buffer is: waiting in its node, in the work list of a process or
      thread, read by the receiver but not freed, or thrown away unread by an exiting thread. */
  datatype Place = Waiting | Queued(list: Qid) | Delivered | Lost

  datatype Call = Call(node: Nid, place: Place)

  /** `sent` and `got` record, per node, the calls sent and read so far, in order. */
  datatype Node = Node(hasAsync: bool, asyncTodo: seq<Mid>, sent: seq<Mid>, got: seq<Mid>)

  datatype State = State(nodes: map<Nid, Node>, calls: map<Mid, Call>, lists: map<Qid, seq<Mid>>, used: set<Mid>)

  function List(s: State, q: Qid): seq<Mid> { if q in s.lists then s.lists[q] else [] }

  // ---------- the steps ----------

  /** BC_TRANSACTION with TF_ONE_WAY to node `n`, whose process has list `q`. */
  function Send(s: State, n: Nid, m: Mid, q: Qid): State
    requires n in s.nodes
  {
    var x := s.nodes[n];
    if x.hasAsync then
      s.(nodes := s.nodes[n := x.(asyncTodo := x.asyncTodo + [m], sent := x.sent + [m])],
         calls := s.calls[m := Call(n, Waiting)], used := s.used + {m})
    else
      s.(nodes := s.nodes[n := x.(hasAsync := true, sent := x.sent + [m])],
         calls := s.calls[m := Call(n, Queued(q))], lists := s.lists[q := List(s, q) + [m]], used := s.used + {m})
  }

  /** The first call of a list is read. */
  function Read(s: State, q: Qid): State
    requires List(s, q) != [] && List(s, q)[0] in s.calls && s.calls[List(s, q)[0]].node in s.nodes
  {
    var m := List(s, q)[0];
    var n := s.calls[m].node;
    s.(nodes := s.nodes[n := s.nodes[n].(got := s.nodes[n].got + [m])],
       calls := s.calls[m := Call(n, Delivered)], lists := s.lists[q := List(s, q)[1..]])
  }

  /** BC_FREE_BUFFER by a thread with list `q`: the node's next call, if any, goes to that list. */
  function Free(s: State, m: Mid, q: Qid): State
    requires m in s.calls && s.calls[m].node in s.nodes
  {
    var n := s.calls[m].node;
    var x := s.nodes[n];
    if x.asyncTodo == [] then s.(nodes := s.nodes[n := x.(hasAsync := false)], calls := s.calls - {m})
    else
      var next := x.asyncTodo[0];
      s.(nodes := s.nodes[n := x.(asyncTodo := x.asyncTodo[1..])],
         calls := (s.calls - {m})[next := Call(n, Queued(q))], lists := s.lists[q := List(s, q) + [next]])
  }

  /** A thread exits: the calls in its list are thrown away, their buffers stay. */
  function Discard(s: State, q: Qid): State {
    s.(calls := map m | m in s.calls :: if s.calls[m].place == Queued(q) then Call(s.calls[m].node, Lost)
        else s.calls[m],
       lists := s.lists[q := []])
  }

  /** What stays of a work list when the calls to a node go. */
  function Others(l: seq<Mid>, s: State, n: Nid): seq<Mid> {
    if l == [] then []
    else (if l[0] in s.calls && s.calls[l[0]].node == n then [] else [l[0]]) + Others(l[1..], s, n)
  }

  /** The owner exits: with the node go its calls, wherever they are, and their buffers. */
  function Gone(s: State, n: Nid): State {
    s.(nodes := s.nodes - {n}, calls := map m | m in s.calls && s.calls[m].node != n :: s.calls[m],
       lists := map q | q in s.lists :: Others(s.lists[q], s, n))
  }

  // ---------- the invariant ----------

  predicate IsOut(s: State, m: Mid, n: Nid) {
    m in s.calls && s.calls[m].node == n && s.calls[m].place != Waiting
  }

  predicate IsUnread(s: State, m: Mid, n: Nid) {
    IsOut(s, m, n) && s.calls[m].place != Delivered
  }

  ghost predicate NoDup(l: seq<Mid>) {
    forall i, j :: 0 <= i < j < |l| ==> l[i] != l[j]
  }

  /** A node's flag says exactly whether one of its calls is under way; there is never a second one;
      what was sent is what was read, the call under way if still unread, and what is waiting. */
  ghost predicate NodeOk(s: State, n: Nid)
    requires n in s.nodes
  {
    var x := s.nodes[n];
    && (x.hasAsync <==> exists m :: IsOut(s, m, n))
    && (forall m, k :: IsOut(s, m, n) && IsOut(s, k, n) ==> m == k)
    && (x.asyncTodo != [] ==> x.hasAsync)
    && NoDup(x.asyncTodo)
    && (forall m :: m in x.asyncTodo <==> m in s.calls && s.calls[m] == Call(n, Waiting))
    && (forall m :: IsUnread(s, m, n) ==> x.sent == x.got + [m] + x.asyncTodo)
    && ((forall m :: !IsUnread(s, m, n)) ==> x.sent == x.got + x.asyncTodo)
  }

  ghost predicate ListOk(s: State, q: Qid) {
    && NoDup(List(s, q))
    && (forall m :: m in List(s, q) <==> m in s.calls && s.calls[m].place == Queued(q))
  }

  ghost predicate Inv(s: State) {
    && (forall n {:trigger NodeOk(s, n)} :: n in s.nodes ==> NodeOk(s, n))
    && (forall q {:trigger ListOk(s, q)} :: ListOk(s, q))
    && (forall m :: m in s.calls ==> s.calls[m].node in s.nodes && m in s.used)
  }

  /** Nodes and lists that a step leaves alone. */
  lemma NodeFrame(s: State, s': State, n: Nid)
    requires n in s.nodes && n in s'.nodes && s'.nodes[n] == s.nodes[n] && NodeOk(s, n)
    requires forall m :: (m in s.calls && s.calls[m].node == n) || (m in s'.calls && s'.calls[m].node == n) ==>
               m in s.calls && m in s'.calls && s'.calls[m] == s.calls[m]
    ensures NodeOk(s', n)
  {
    assert forall m :: IsOut(s', m, n) == IsOut(s, m, n);
    assert forall m :: IsUnread(s', m, n) == IsUnread(s, m, n);
  }

  // ---------- preservation ----------

  lemma SendNode(s: State, n: Nid, m: Mid, q: Qid)
    requires Inv(s) && n in s.nodes && m !in s.used
    ensures NodeOk(Send(s, n, m, q), n)
  {
    var s', x := Send(s, n, m, q), s.nodes[n];
    assert NodeOk(s, n) && m !in s.calls;
    if x.hasAsync {
      assert forall k :: IsOut(s', k, n) == IsOut(s, k, n);
      assert forall k :: IsUnread(s', k, n) == IsUnread(s, k, n);
      forall k | IsUnread(s', k, n)
        ensures x.sent + [m] == x.got + [k] + (x.asyncTodo + [m])
      {
        assert x.got + [k] + (x.asyncTodo + [m]) == x.got + [k] + x.asyncTodo + [m];
      }
      assert x.got + (x.asyncTodo + [m]) == x.got + x.asyncTodo + [m];
    } else {
      forall k
        ensures IsOut(s', k, n) <==> k == m
      {
        assert !IsOut(s, k, n);
      }
      assert IsUnread(s', m, n);
      assert x.asyncTodo == [] && (forall k :: !IsUnread(s, k, n));
      assert x.sent + [m] == x.got + [m] + x.asyncTodo;
    }
  }

  lemma SendKeeps(s: State, n: Nid, m: Mid, q: Qid)
    requires Inv(s) && n in s.nodes && m !in s.used
    ensures Inv(Send(s, n, m, q))
  {
    var s' := Send(s, n, m, q);
    SendNode(s, n, m, q);
    forall k | k in s'.nodes
      ensures NodeOk(s', k)
    {
      if k != n {
        assert NodeOk(s, k);
        NodeFrame(s, s', k);
      }
    }
    forall r
      ensures ListOk(s', r)
    {
      assert ListOk(s, r);
    }
  }

  lemma ReadKeeps(s: State, q: Qid)
    requires Inv(s) && List(s, q) != []
    ensures List(s, q)[0] in s.calls && s.calls[List(s, q)[0]].node in s.nodes && Inv(Read(s, q))
  {
    var l, m := List(s, q), List(s, q)[0];
    assert ListOk(s, q) && m in l;
    var s', n := Read(s, q), s.calls[m].node;
    assert NodeOk(s, n) && IsUnread(s, m, n);
    assert forall k :: IsOut(s', k, n) == IsOut(s, k, n);
    assert forall k :: !IsUnread(s', k, n);
    assert NodeOk(s', n);
    forall k | k in s'.nodes
      ensures NodeOk(s', k)
    {
      if k != n {
        assert NodeOk(s, k);
        NodeFrame(s, s', k);
      }
    }
    forall r
      ensures ListOk(s', r)
    {
      assert ListOk(s, r);
      assert l == [m] + l[1..];
    }
  }

  /** Freeing a delivered buffer finds the flag set. */
  lemma FreeFindsFlag(s: State, m: Mid)
    requires Inv(s) && m in s.calls && s.calls[m].place == Delivered
    ensures s.calls[m].node in s.nodes && s.nodes[s.calls[m].node].hasAsync
  {
    assert NodeOk(s, s.calls[m].node) && IsOut(s, m, s.calls[m].node);
  }

  lemma FreeNode(s: State, m: Mid, q: Qid)
    requires Inv(s) && m in s.calls && s.calls[m].place == Delivered && s.calls[m].node in s.nodes
    ensures NodeOk(Free(s, m, q), s.calls[m].node)
  {
    var s', n := Free(s, m, q), s.calls[m].node;
    var x := s.nodes[n];
    assert NodeOk(s, n) && IsOut(s, m, n);
    if x.asyncTodo == [] {
      forall k
        ensures !IsOut(s', k, n)
      {
        assert IsOut(s', k, n) ==> IsOut(s, k, n);
      }
      assert forall k :: !IsUnread(s, k, n);
    } else {
      var next := x.asyncTodo[0];
      assert x.asyncTodo == [next] + x.asyncTodo[1..] && next in x.asyncTodo;
      forall k
        ensures IsOut(s', k, n) <==> k == next
      {
        assert IsOut(s', k, n) && k != next ==> IsOut(s, k, n);
      }
      assert IsUnread(s', next, n) && forall k :: !IsUnread(s, k, n);
      assert x.sent == x.got + [next] + x.asyncTodo[1..];
    }
  }

  lemma FreeLists(s: State, m: Mid, q: Qid, r: Qid)
    requires Inv(s) && m in s.calls && s.calls[m].place == Delivered && s.calls[m].node in s.nodes
    ensures ListOk(Free(s, m, q), r)
  {
    assert NodeOk(s, s.calls[m].node) && ListOk(s, r);
    if s.nodes[s.calls[m].node].asyncTodo != [] {
      assert s.nodes[s.calls[m].node].asyncTodo[0] in s.nodes[s.calls[m].node].asyncTodo;
    }
  }

  lemma FreeKeeps(s: State, m: Mid, q: Qid)
    requires Inv(s) && m in s.calls && s.calls[m].place == Delivered && s.calls[m].node in s.nodes
    ensures Inv(Free(s, m, q))
  {
    var s', n := Free(s, m, q), s.calls[m].node;
    FreeNode(s, m, q);
    assert NodeOk(s, n);
    assert forall k :: k in s.nodes[n].asyncTodo ==> k in s.calls && s.calls[k] == Call(n, Waiting);
    assert s.nodes[n].asyncTodo != [] ==> s.nodes[n].asyncTodo[0] in s.nodes[n].asyncTodo;
    forall k | k in s'.nodes
      ensures NodeOk(s', k)
    {
      if k != n {
        assert NodeOk(s, k);
        NodeFrame(s, s', k);
      }
    }
    forall r
      ensures ListOk(s', r)
    {
      FreeLists(s, m, q, r);
    }
  }

  lemma DiscardNode(s: State, q: Qid, n: Nid)
    requires n in s.nodes && NodeOk(s, n)
    ensures NodeOk(Discard(s, q), n)
  {
    var s' := Discard(s, q);
    forall k
      ensures IsOut(s', k, n) == IsOut(s, k, n) && IsUnread(s', k, n) == IsUnread(s, k, n)
      ensures k in s'.calls && s'.calls[k] == Call(n, Waiting) <==> k in s.calls && s.calls[k] == Call(n, Waiting)
    {
    }
  }

  lemma DiscardList(s: State, q: Qid, r: Qid)
    requires ListOk(s, r) && ListOk(s, q)
    ensures ListOk(Discard(s, q), r)
  {
  }

  lemma DiscardKeeps(s: State, q: Qid)
    requires Inv(s)
    ensures Inv(Discard(s, q))
  {
    hide NodeOk, ListOk;
    var s' := Discard(s, q);
    forall n | n in s'.nodes
      ensures NodeOk(s', n)
    {
      assert NodeOk(s, n);
      DiscardNode(s, q, n);
    }
    forall r
      ensures ListOk(s', r)
    {
      assert ListOk(s, r) && ListOk(s, q);
      DiscardList(s, q, r);
    }
  }

  lemma {:induction false} OthersOf(l: seq<Mid>, s: State, n: Nid)
    requires NoDup(l)
    ensures NoDup(Others(l, s, n))
    ensures forall m :: m in Others(l, s, n) <==> m in l && !(m in s.calls && s.calls[m].node == n)
  {
    if l != [] {
      assert forall i, j :: 0 <= i < j < |l[1..]| ==> l[1..][i] == l[i + 1] && l[1..][j] == l[j + 1];
      OthersOf(l[1..], s, n);
      assert l == [l[0]] + l[1..];
    }
  }

  lemma GoneKeeps(s: State, n: Nid)
    requires Inv(s)
    ensures Inv(Gone(s, n))
  {
    var s' := Gone(s, n);
    forall k | k in s'.nodes
      ensures NodeOk(s', k)
    {
      assert NodeOk(s, k);
      NodeFrame(s, s', k);
    }
    forall q
      ensures ListOk(s', q)
    {
      assert ListOk(s, q);
      if q in s.lists {
        OthersOf(s.lists[q], s, n);
      }
    }
  }

  // ---------- whole runs ----------

  datatype Event =
    | NewNode(n: Nid)
    | SendTo(n: Nid, m: Mid, list: Qid)
    | ReadFrom(list: Qid)
    | FreeBy(m: Mid, list: Qid)
    | ThreadExit(list: Qid)
    | NodeGone(n: Nid)

  ghost predicate Enabled(s: State, e: Event) {
    match e
    case NewNode(n) => n !in s.nodes
    case SendTo(n, m, _) => n in s.nodes && m !in s.used
    case ReadFrom(q) => List(s, q) != [] && List(s, q)[0] in s.calls && s.calls[List(s, q)[0]].node in s.nodes
    case FreeBy(m, _) => m in s.calls && s.calls[m].place == Delivered && s.calls[m].node in s.nodes
    case ThreadExit(_) => true
    case NodeGone(_) => true
  }

  function Apply(s: State, e: Event): State
    requires Enabled(s, e)
  {
    match e
    case NewNode(n) => s.(nodes := s.nodes[n := Node(false, [], [], [])])
    case SendTo(n, m, q) => Send(s, n, m, q)
    case ReadFrom(q) => Read(s, q)
    case FreeBy(m, q) => Free(s, m, q)
    case ThreadExit(q) => Discard(s, q)
    case NodeGone(n) => Gone(s, n)
  }

  lemma NewNodeKeeps(s: State, n: Nid)
    requires Inv(s) && n !in s.nodes
    ensures Inv(Apply(s, NewNode(n)))
  {
    var s' := Apply(s, NewNode(n));
    assert forall m :: !IsOut(s', m, n);
    forall k | k in s'.nodes
      ensures NodeOk(s', k)
    {
      if k != n {
        assert NodeOk(s, k);
        NodeFrame(s, s', k);
      }
    }
    forall q
      ensures ListOk(s', q)
    {
      assert ListOk(s, q);
    }
  }

  lemma StepKeeps(s: State, e: Event)
    requires Inv(s) && Enabled(s, e)
    ensures Inv(Apply(s, e))
  {
    hide NodeOk, ListOk;
    match e
    case NewNode(n) => NewNodeKeeps(s, n);
    case SendTo(n, m, q) => SendKeeps(s, n, m, q);
    case ReadFrom(q) => ReadKeeps(s, q);
    case FreeBy(m, q) => FreeKeeps(s, m, q);
    case ThreadExit(q) => DiscardKeeps(s, q);
    case NodeGone(n) => GoneKeeps(s, n);
  }

  const EMPTY: State := State(map[], map[], map[], {})

  ghost predicate IsRun(s: State, es: seq<Event>)
    decreases |es|
  {
    es == [] || (Enabled(s, es[0]) && IsRun(Apply(s, es[0]), es[1..]))
  }

  ghost function After(s: State, es: seq<Event>): State
    requires IsRun(s, es)
    decreases |es|
  {
    if es == [] then s else After(Apply(s, es[0]), es[1..])
  }

  lemma {:induction false} RunsKeep(s: State, es: seq<Event>)
    requires Inv(s) && IsRun(s, es)
    ensures Inv(After(s, es))
    decreases |es|
  {
    hide Inv, Enabled, Apply;
    if es != [] {
      StepKeeps(s, es[0]);
      RunsKeep(Apply(s, es[0]), es[1..]);
    }
  }

  /** In every run: one call per node under way at most, the flag says exactly whether there is one,
      calls are read in the order they were sent, and freeing a read call always finds the flag set. */
  lemma EveryRun(es: seq<Event>, n: Nid)
    requires IsRun(EMPTY, es) && n in After(EMPTY, es).nodes
    ensures var s := After(EMPTY, es);
            && s.nodes[n].got <= s.nodes[n].sent
            && (forall m, k :: IsOut(s, m, n) && IsOut(s, k, n) ==> m == k)
            && (s.nodes[n].hasAsync <==> exists m :: IsOut(s, m, n))
            && (forall m :: m in s.calls && s.calls[m] == Call(n, Delivered) ==> s.nodes[n].hasAsync)
  {
    hide IsRun, After;
    assert Inv(EMPTY);
    RunsKeep(EMPTY, es);
    var s := After(EMPTY, es);
    var x := s.nodes[n];
    assert NodeOk(s, n);
    if m :| IsUnread(s, m, n) {
      assert x.sent == x.got + ([m] + x.asyncTodo);
    }
    forall m | m in s.calls && s.calls[m] == Call(n, Delivered)
      ensures x.hasAsync
    {
      FreeFindsFlag(s, m);
    }
  }

  /** A node takes its own calls along, in every place, and no other call; of each list the others stay, in
      their order. */
  lemma GoneTakesAll(s: State, n: Nid)
    requires Inv(s)
    ensures var s' := Gone(s, n);
            && s'.nodes == s.nodes - {n}
            && (forall m :: m in s'.calls <==> m in s.calls && s.calls[m].node != n)
            && (forall m :: m in s'.calls ==> s'.calls[m] == s.calls[m])
            && forall q :: IsPart(List(s', q), List(s, q)) &&
                 forall m :: m in List(s', q) <==> m in List(s, q) && !(m in s.calls && s.calls[m].node == n)
  {
    forall q
      ensures IsPart(List(Gone(s, n), q), List(s, q))
      ensures forall m :: m in List(Gone(s, n), q) <==> m in List(s, q) && !(m in s.calls && s.calls[m].node == n)
    {
      assert ListOk(s, q);
      if q in s.lists {
        OthersOf(s.lists[q], s, n);
        OthersArePart(s.lists[q], s, n);
      }
    }
  }

  // ---------- a call thrown away unread ----------

  lemma LostStays(s: State, e: Event, n: Nid, m: Mid)
    requires Inv(s) && Enabled(s, e) && e != NodeGone(n) && m in s.calls && s.calls[m] == Call(n, Lost)
    ensures var s' := Apply(s, e);
            m in s'.calls && s'.calls[m] == Call(n, Lost) && n in s'.nodes && s'.nodes[n].got == s.nodes[n].got
  {
    assert NodeOk(s, n) && IsOut(s, m, n);
    if e.ReadFrom? {
      var k := List(s, e.list)[0];
      assert ListOk(s, e.list);
      assert IsOut(s, k, s.calls[k].node);
    } else if e.FreeBy? {
      assert IsOut(s, e.m, s.calls[e.m].node);
      assert NodeOk(s, s.calls[e.m].node);
    }
  }

  /** Once an exiting thread has thrown away a node's call unread, no call to the node is ever read again:
      its buffer cannot be freed, so the flag stays. */
  lemma {:induction false} LostBlocksNode(s: State, es: seq<Event>, n: Nid, m: Mid)
    requires Inv(s) && IsRun(s, es) && m in s.calls && s.calls[m] == Call(n, Lost)
    requires forall i :: 0 <= i < |es| ==> es[i] != NodeGone(n)
    ensures n in s.nodes && n in After(s, es).nodes
    ensures After(s, es).nodes[n].got == s.nodes[n].got && After(s, es).nodes[n].hasAsync
    decreases |es|
  {
    hide Enabled, Apply;
    if es == [] {
      assert NodeOk(s, n) && IsOut(s, m, n);
    } else {
      LostStays(s, es[0], n, m);
      StepKeeps(s, es[0]);
      LostBlocksNode(Apply(s, es[0]), es[1..], n, m);
    }
  }

  /** A run without the node's end in which the node's next call, and no other of its calls, is read. */
  ghost predicate ReadsNext(s: State, n: Nid, es: seq<Event>)
    requires n in s.nodes && |s.nodes[n].got| < |s.nodes[n].sent|
  {
    && IsRun(s, es) && NodeGone(n) !in es && n in After(s, es).nodes
    && After(s, es).nodes[n].got == s.nodes[n].got + [s.nodes[n].sent[|s.nodes[n].got|]]
  }

  /** Reading the head of a list leaves a queued call of the node one place nearer, or delivers it. */
  lemma ReadNearer(s: State, q: Qid, i: nat, n: Nid)
    requires Inv(s) && i < |List(s, q)| && List(s, q)[i] in s.calls && s.calls[List(s, q)[i]] == Call(n, Queued(q))
    ensures n in s.nodes && Enabled(s, ReadFrom(q))
    ensures var m, s' := List(s, q)[i], Read(s, q);
            && Inv(s') && n in s'.nodes && s'.nodes[n].sent == s.nodes[n].sent
            && (if i == 0 then s'.nodes[n].got == s.nodes[n].got + [m]
                else s'.nodes[n].got == s.nodes[n].got && |List(s', q)| == |List(s, q)| - 1 && List(s', q)[i - 1] == m
                     && m in s'.calls && s'.calls[m] == s.calls[m])
  {
    var m, head := List(s, q)[i], List(s, q)[0];
    assert ListOk(s, q) && head in List(s, q);
    assert NodeOk(s, n) && IsOut(s, m, n) && IsOut(s, head, s.calls[head].node);
    ReadKeeps(s, q);
  }

  lemma {:induction false} QueuedIsRead(s: State, q: Qid, i: nat, n: Nid) returns (es: seq<Event>)
    requires Inv(s) && i < |List(s, q)| && List(s, q)[i] in s.calls && s.calls[List(s, q)[i]] == Call(n, Queued(q))
    ensures n in s.nodes && IsRun(s, es) && NodeGone(n) !in es && n in After(s, es).nodes
    ensures After(s, es).nodes[n].got == s.nodes[n].got + [List(s, q)[i]]
    decreases i
  {
    hide Inv, Enabled;
    ReadNearer(s, q, i, n);
    var s' := Apply(s, ReadFrom(q));
    if i == 0 {
      es := [ReadFrom(q)];
      assert es[1..] == [];
    } else {
      var rest := QueuedIsRead(s', q, i - 1, n);
      es := [ReadFrom(q)] + rest;
      assert es[1..] == rest;
    }
  }

  /** Where a node's next call is, when none of its calls is lost. */
  lemma NextCall(s: State, n: Nid) returns (m: Mid)
    requires Inv(s) && n in s.nodes && s.nodes[n].sent != s.nodes[n].got
    requires forall k :: k in s.calls ==> s.calls[k] != Call(n, Lost)
    ensures |s.nodes[n].got| < |s.nodes[n].sent| && IsOut(s, m, n)
    ensures s.calls[m].place.Queued? || s.calls[m].place.Delivered?
    ensures s.calls[m].place.Queued? ==> m in List(s, s.calls[m].place.list) && s.nodes[n].sent[|s.nodes[n].got|] == m
    ensures s.calls[m].place.Delivered? ==>
              && s.nodes[n].asyncTodo != [] && s.nodes[n].sent[|s.nodes[n].got|] == s.nodes[n].asyncTodo[0]
  {
    var x := s.nodes[n];
    assert NodeOk(s, n);
    if k :| IsUnread(s, k, n) {
      m := k;
      assert ListOk(s, s.calls[m].place.list);
      assert x.sent == x.got + ([m] + x.asyncTodo);
    } else {
      m :| IsOut(s, m, n);
      assert !IsUnread(s, m, n);
    }
  }

  lemma NextIsRead(s: State, n: Nid) returns (es: seq<Event>)
    requires Inv(s) && n in s.nodes && s.nodes[n].sent != s.nodes[n].got
    requires forall k :: k in s.calls ==> s.calls[k] != Call(n, Lost)
    ensures |s.nodes[n].got| < |s.nodes[n].sent| && ReadsNext(s, n, es)
  {
    hide Inv;
    var m := NextCall(s, n);
    if s.calls[m].place.Queued? {
      var q := s.calls[m].place.list;
      var i :| 0 <= i < |List(s, q)| && List(s, q)[i] == m;
      es := QueuedIsRead(s, q, i, n);
    } else {
      var next := s.nodes[n].asyncTodo[0];
      FreeKeeps(s, m, 0);
      var s' := Apply(s, FreeBy(m, 0));
      var i := |List(s, 0)|;
      assert List(s', 0)[i] == next && s'.calls[next] == Call(n, Queued(0));
      var rest := QueuedIsRead(s', 0, i, n);
      es := [FreeBy(m, 0)] + rest;
      assert es[1..] == rest;
    }
  }

  /** A node with unread calls can read its next one exactly if none of its calls is lost. */
  lemma ReadableExactly(s: State, n: Nid)
    requires Inv(s) && n in s.nodes && s.nodes[n].sent != s.nodes[n].got
    ensures |s.nodes[n].got| < |s.nodes[n].sent|
    ensures (exists es :: ReadsNext(s, n, es)) <==> forall k :: k in s.calls ==> s.calls[k] != Call(n, Lost)
  {
    hide Inv, IsRun, After;
    if k :| k in s.calls && s.calls[k] == Call(n, Lost) {
      LostIsUnread(s, n, k);
      forall es | ReadsNext(s, n, es)
        ensures false
      {
        LostBlocksNode(s, es, n, k);
      }
    } else {
      var es := NextIsRead(s, n);
    }
  }

  lemma LostIsUnread(s: State, n: Nid, m: Mid)
    requires Inv(s) && n in s.nodes && m in s.calls && s.calls[m] == Call(n, Lost)
    ensures |s.nodes[n].got| < |s.nodes[n].sent|
  {
    assert NodeOk(s, n) && IsUnread(s, m, n);
  }

  /** A call gets lost when the thread that could read it exits first. */
  lemma LostIsReachable()
    ensures var es := [NewNode(1), SendTo(1, 1, 9), ThreadExit(9)];
            && IsRun(EMPTY, es) && 1 in After(EMPTY, es).calls && After(EMPTY, es).calls[1] == Call(1, Lost)
            && 1 in After(EMPTY, es).nodes
            && After(EMPTY, es).nodes[1].sent == [1] && After(EMPTY, es).nodes[1].got == []
  {
    var made, sent, exited := NewNode(1), SendTo(1, 1, 9), ThreadExit(9);
    var s1 := Apply(EMPTY, made);
    var s2 := Apply(s1, sent);
    var s3 := Apply(s2, exited);
    assert s2.calls[1] == Call(1, Queued(9));
    hide Apply;
    assert [exited][1..] == [] && [sent, exited][1..] == [exited] && [made, sent, exited][1..] == [sent, exited];
    assert IsRun(s3, []) && After(s3, []) == s3;
    assert IsRun(s2, [exited]) && After(s2, [exited]) == s3;
    assert IsRun(s1, [sent, exited]) && After(s1, [sent, exited]) == s3;
  }

  // ---------- the order of a work list ----------

  /** The call an event puts into list `q`: one sent to a node without a call under way, or the first that
      waits behind the one freed. */
  function Enters(s: State, e: Event, q: Qid): seq<Mid> {
    match e
    case SendTo(n, m, list) => if list == q && n in s.nodes && !s.nodes[n].hasAsync then [m] else []
    case FreeBy(m, list) =>
      if list == q && m in s.calls && s.calls[m].node in s.nodes && s.nodes[s.calls[m].node].asyncTodo != []
      then [s.nodes[s.calls[m].node].asyncTodo[0]] else []
    case _ => []
  }

  /** The call that a read takes out of list `q`: the one that has been delivered by it. */
  ghost function Leaves(s: State, e: Event, q: Qid): seq<Mid>
    requires Enabled(s, e)
  {
    if e != ReadFrom(q) then []
    else if m :| m in s.calls && m in Apply(s, e).calls && s.calls[m].place == Queued(q)
                 && Apply(s, e).calls[m].place == Delivered then [m]
    else []
  }

  ghost function Filled(s: State, es: seq<Event>, q: Qid): seq<Mid>
    requires IsRun(s, es)
    decreases |es|
  {
    if es == [] then [] else Enters(s, es[0], q) + Filled(Apply(s, es[0]), es[1..], q)
  }

  ghost function Taken(s: State, es: seq<Event>, q: Qid): seq<Mid>
    requires IsRun(s, es)
    decreases |es|
  {
    if es == [] then [] else Leaves(s, es[0], q) + Taken(Apply(s, es[0]), es[1..], q)
  }

  /** `part` is `whole` with some members left out. */
  ghost predicate IsPart(part: seq<Mid>, whole: seq<Mid>)
    decreases |whole|
  {
    || part == []
    || (whole != [] && part[0] == whole[0] && IsPart(part[1..], whole[1..]))
    || (whole != [] && IsPart(part, whole[1..]))
  }

  lemma {:induction false} WholeIsPart(l: seq<Mid>)
    ensures IsPart(l, l)
    decreases |l|
  {
    if l != [] {
      WholeIsPart(l[1..]);
    }
  }

  lemma {:induction false} OthersArePart(l: seq<Mid>, s: State, n: Nid)
    ensures IsPart(Others(l, s, n), l)
    decreases |l|
  {
    if l != [] {
      OthersArePart(l[1..], s, n);
      assert ([l[0]] + Others(l[1..], s, n))[1..] == Others(l[1..], s, n);
      assert [] + Others(l[1..], s, n) == Others(l[1..], s, n);
    }
  }

  lemma {:induction false} PartThen(part: seq<Mid>, whole: seq<Mid>, rest: seq<Mid>)
    requires IsPart(part, whole)
    ensures IsPart(part + rest, whole + rest)
    decreases |whole|
  {
    if part == [] {
      assert [] + rest == rest;
      SuffixIsPart(whole, rest);
    } else {
      assert (whole + rest)[1..] == whole[1..] + rest && (part + rest)[1..] == part[1..] + rest;
      if part[0] == whole[0] && IsPart(part[1..], whole[1..]) {
        PartThen(part[1..], whole[1..], rest);
      } else {
        PartThen(part, whole[1..], rest);
      }
    }
  }

  lemma {:induction false} SuffixIsPart(front: seq<Mid>, l: seq<Mid>)
    ensures IsPart(l, front + l)
    decreases |front|
  {
    if front == [] {
      assert front + l == l;
      WholeIsPart(l);
    } else {
      assert (front + l)[1..] == front[1..] + l;
      SuffixIsPart(front[1..], l);
    }
  }

  lemma {:induction false} PartOfPart(a: seq<Mid>, b: seq<Mid>, c: seq<Mid>)
    requires IsPart(a, b) && IsPart(b, c)
    ensures IsPart(a, c)
    decreases |c|
  {
    if a != [] && b != [] {
      if b[0] == c[0] && IsPart(b[1..], c[1..]) {
        if a[0] == b[0] && IsPart(a[1..], b[1..]) {
          PartOfPart(a[1..], b[1..], c[1..]);
        } else {
          PartOfPart(a, b[1..], c[1..]);
        }
      } else {
        PartOfPart(a, b, c[1..]);
      }
    }
  }

  /** What leaves a list in one event, and then what is still in it, was in it before or has entered at
      its end, in this order. */
  lemma StepInOrder(s: State, e: Event, q: Qid)
    requires Inv(s) && Enabled(s, e)
    ensures IsPart(Leaves(s, e, q) + List(Apply(s, e), q), List(s, q) + Enters(s, e, q))
    ensures !e.ThreadExit? && !e.NodeGone? ==>
              Leaves(s, e, q) + List(Apply(s, e), q) == List(s, q) + Enters(s, e, q)
  {
    var l, s' := List(s, q), Apply(s, e);
    if e == ReadFrom(q) {
      ReadTakes(s, q);
      assert [l[0]] + l[1..] == l;
    }
    assert [] + List(s', q) == List(s', q) && l + [] == l;
    match e
    case ThreadExit(r) => if r == q { assert List(s', q) == []; } else { WholeIsPart(l); }
    case NodeGone(n) => OthersArePart(l, s, n);
    case _ => WholeIsPart(l + Enters(s, e, q));
  }

  lemma ReadTakes(s: State, q: Qid)
    requires Inv(s) && Enabled(s, ReadFrom(q))
    ensures Leaves(s, ReadFrom(q), q) == [List(s, q)[0]]
  {
    var m, s' := List(s, q)[0], Apply(s, ReadFrom(q));
    assert ListOk(s, q) && m in List(s, q);
    assert s.calls[m].place == Queued(q) && s'.calls[m].place == Delivered;
    assert forall k :: k in s.calls && k != m ==> k in s'.calls && s'.calls[k] == s.calls[k];
  }

  /** In every run a work list is read in the order it was filled: the calls read from it, and then those still
      in it, are the calls put into it, in this order, without those thrown away. Without an exiting thread or
      owner they are all of them. */
  lemma {:induction false} ListsAreQueues(s: State, es: seq<Event>, q: Qid)
    requires Inv(s) && IsRun(s, es)
    ensures IsPart(Taken(s, es, q) + List(After(s, es), q), List(s, q) + Filled(s, es, q))
    ensures (forall i :: 0 <= i < |es| ==> !es[i].ThreadExit? && !es[i].NodeGone?) ==>
              Taken(s, es, q) + List(After(s, es), q) == List(s, q) + Filled(s, es, q)
    decreases |es|
  {
    hide Inv, Enabled, Apply, Leaves, Enters, List, IsPart;
    if es == [] {
      assert [] + List(s, q) == List(s, q) == List(s, q) + [];
      WholeIsPart(List(s, q));
    } else {
      var s1, left, entered := Apply(s, es[0]), Leaves(s, es[0], q), Enters(s, es[0], q);
      var taken, filled := Taken(s1, es[1..], q), Filled(s1, es[1..], q);
      StepInOrder(s, es[0], q);
      StepKeeps(s, es[0]);
      ListsAreQueues(s1, es[1..], q);
      PartBehind(left, taken + List(After(s, es), q), List(s1, q) + filled);
      PartThen(left + List(s1, q), List(s, q) + entered, filled);
      assert left + (List(s1, q) + filled) == left + List(s1, q) + filled;
      assert List(s, q) + entered + filled == List(s, q) + (entered + filled);
      assert left + (taken + List(After(s, es), q)) == left + taken + List(After(s, es), q);
      PartOfPart(left + taken + List(After(s, es), q), left + List(s1, q) + filled, List(s, q) + (entered + filled));
    }
  }

  lemma {:induction false} PartBehind(front: seq<Mid>, part: seq<Mid>, whole: seq<Mid>)
    requires IsPart(part, whole)
    ensures IsPart(front + part, front + whole)
    decreases |front|
  {
    if front == [] {
      assert front + part == part && front + whole == whole;
    } else {
      assert (front + part)[1..] == front[1..] + part && (front + whole)[1..] == front[1..] + whole;
      PartBehind(front[1..], part, whole);
    }
  }

  // ---------- the driver ----------

  class Driver {
    var nodes: map<Nid, Node>
    var calls: map<Mid, Call>
    var lists: map<Qid, seq<Mid>>
    var used: set<Mid>

    function Now(): State
      reads this
    {
      State(nodes, calls, lists, used)
    }

    constructor ()
      ensures Inv(Now()) && Now() == EMPTY
    {
      nodes, calls, lists, used := map[], map[], map[], {};
    }

    /** The one-way branch at the end of binder_transaction. */
    method SendAsync(n: Nid, m: Mid, q: Qid)
      requires Inv(Now()) && Enabled(Now(), SendTo(n, m, q))
      modifies this
      ensures Inv(Now()) && Now() == Send(old(Now()), n, m, q)
    {
      hide Inv;
      SendKeeps(Now(), n, m, q);
      var x := nodes[n];
      x := x.(sent := x.sent + [m]);
      used := used + {m};
      if x.hasAsync {
        calls := calls[m := Call(n, Waiting)];
        nodes := nodes[n := x.(asyncTodo := x.asyncTodo + [m])];
      } else {
        calls := calls[m := Call(n, Queued(q))];
        lists := lists[q := (if q in lists then lists[q] else []) + [m]];
        nodes := nodes[n := x.(hasAsync := true)];
      }
    }

    /** The one-way branch of BC_FREE_BUFFER; the driver's check that the flag is set never fails. */
    method FreeAsync(m: Mid, q: Qid)
      requires Inv(Now()) && Enabled(Now(), FreeBy(m, q))
      modifies this
      ensures Inv(Now()) && Now() == Free(old(Now()), m, q)
    {
      hide Inv;
      FreeKeeps(Now(), m, q);
      FreeFindsFlag(Now(), m);
      var n := calls[m].node;
      var x := nodes[n];
      assert x.hasAsync;
      calls := calls - {m};
      if x.asyncTodo == [] {
        nodes := nodes[n := x.(hasAsync := false)];
      } else {
        var next := x.asyncTodo[0];
        calls := calls[next := Call(n, Queued(q))];
        lists := lists[q := (if q in lists then lists[q] else []) + [next]];
        nodes := nodes[n := x.(asyncTodo := x.asyncTodo[1..])];
      }
    }
  }
}
