/** Synchronous calls: transaction stacks of threads, replies, failed replies and thread exit. */
module CallChains {
  import opened SizeMath

  type Tid = nat
  type Pid = nat
  type Xid = nat

  /** Where the receiving side of a transaction is: in the work list of a process or of a thread, on
      the stack of the thread that reads it, or taken off both. */
  datatype Place = AtProc(proc: Pid) | AtThread(thread: Tid) | OnStack | Nowhere

  datatype Txn = Txn(from: Option<Tid>, fromParent: Option<Xid>, toThread: Option<Tid>, toParent: Option<Xid>,
      place: Place)

  /** `err` and `err2` say that return_error and return_error2 hold a code other than BR_OK. */
  datatype Thread = Thread(proc: Pid, stack: Option<Xid>, err: bool, err2: bool)

  datatype State = State(threads: map<Tid, Thread>, txns: map<Xid, Txn>, lastId: nat)

  predicate Involves(x: Txn, th: Tid) {
    x.from == Some(th) || (x.place == OnStack && x.toThread == Some(th))
  }

  // ---------- the steps ----------

  /** The search of binder_transaction along from_parent: the outermost caller in the target
      process, if any. */
  function TargetThread(s: State, t: Option<Xid>, proc: Pid, found: Option<Tid>): Option<Tid>
    decreases if t.Some? then t.value + 1 else 0
  {
    if t.None? || t.value !in s.txns then found else
    var x := s.txns[t.value];
    var found' := if x.from.Some? && x.from.value in s.threads && s.threads[x.from.value].proc == proc
        then x.from else found;
    if x.fromParent.Some? && x.fromParent.value >= t.value then found'
    else TargetThread(s, x.fromParent, proc, found')
  }

  /** A thread may send when it has no stack or is serving the transaction on top of it. */
  predicate MaySend(s: State, th: Tid) {
    && th in s.threads && !s.threads[th].err
    && (s.threads[th].stack.Some? ==>
          s.threads[th].stack.value in s.txns && s.txns[s.threads[th].stack.value].toThread == Some(th))
  }

  function Send(s: State, th: Tid, proc: Pid): State
    requires MaySend(s, th)
  {
    var t := s.lastId + 1;
    var stack := s.threads[th].stack;
    var target := TargetThread(s, stack, proc, None);
    var place := if target.Some? then AtThread(target.value) else AtProc(proc);
    State(s.threads[th := s.threads[th].(stack := Some(t))],
          s.txns[t := Txn(Some(th), stack, target, None, place)], t)
  }

  /** A thread reads from its own list, or from its process's list when it has no stack. */
  predicate MayDeliver(s: State, th: Tid, t: Xid) {
    && th in s.threads && t in s.txns && !s.threads[th].err
    && (s.txns[t].place == AtThread(th) || (s.txns[t].place == AtProc(s.threads[th].proc) && s.threads[th].stack.None?))
  }

  function Deliver(s: State, th: Tid, t: Xid): State
    requires MayDeliver(s, th, t)
  {
    s.(threads := s.threads[th := s.threads[th].(stack := Some(t))],
       txns := s.txns[t := s.txns[t].(toParent := s.threads[th].stack, toThread := Some(th), place := OnStack)])
  }

  /** binder_pop_transaction. */
  function Pop(s: State, t: Xid): State
    requires t in s.txns
  {
    var x := s.txns[t];
    var threads := if x.from.Some? && x.from.value in s.threads
                   then s.threads[x.from.value := s.threads[x.from.value].(stack := x.fromParent)] else s.threads;
    s.(threads := threads, txns := s.txns - {t})
  }

  /** binder_send_failed_reply: towards the root, past callers that are gone. */
  function FailedReply(s: State, t: Xid): State
    requires t in s.txns
    decreases t
  {
    var x := s.txns[t];
    if x.from.Some? && x.from.value in s.threads then
      var f := s.threads[x.from.value];
      if f.err && f.err2 then s
      else
        var popped := Pop(s, t);
        popped.(threads := popped.threads[x.from.value := popped.threads[x.from.value].(err := true, err2 := f.err)])
    else
      var s' := Pop(s, t);
      if x.fromParent.Some? && x.fromParent.value < t && x.fromParent.value in s'.txns
      then FailedReply(s', x.fromParent.value) else s'
  }

  predicate MayReply(s: State, th: Tid) {
    && th in s.threads && !s.threads[th].err && s.threads[th].stack.Some?
    && s.threads[th].stack.value in s.txns && s.txns[s.threads[th].stack.value].toThread == Some(th)
  }

  /** The answered transaction leaves its receiver's stack. */
  function Unstack(s: State, th: Tid): State
    requires MayReply(s, th)
  {
    var t := s.threads[th].stack.value;
    s.(threads := s.threads[th := s.threads[th].(stack := s.txns[t].toParent)],
       txns := s.txns[t := s.txns[t].(place := Nowhere)])
  }

  /** BC_REPLY; `ok` says that allocating and translating the reply succeeds. */
  function Reply(s: State, th: Tid, ok: bool): State
    requires MayReply(s, th)
  {
    var t := s.threads[th].stack.value;
    var s1 := Unstack(s, th);
    if ok && s.txns[t].from.Some? then Pop(s1, t)
    else FailedReply(s1.(threads := s1.threads[th := s1.threads[th].(err := true)]), t)
  }

  /** A transaction after the walk of binder_free_thread over the exiting thread's stack. */
  function OffStack(x: Txn, th: Tid): Txn {
    var x1 := if x.from == Some(th) then x.(from := None) else x;
    if x.place == OnStack && x.toThread == Some(th) then x1.(toThread := None, place := Nowhere) else x1
  }

  /** A transaction after it, too, was taken from the exiting thread's work list. */
  function Detached(x: Txn, th: Tid): Txn {
    if x.place == AtThread(th) then OffStack(x, th).(place := Nowhere) else OffStack(x, th)
  }

  function Detach(s: State, th: Tid): State {
    s.(threads := s.threads - {th}, txns := map t | t in s.txns :: Detached(s.txns[t], th))
  }

  predicate LosesReceiver(s: State, th: Tid, t: Xid)
    requires t in s.txns
  {
    || s.txns[t].place == AtThread(th)
    || (th in s.threads && s.threads[th].stack == Some(t) && s.txns[t].toThread == Some(th))
  }

  /** The transaction a thread's exit leaves without a receiver: the one it was serving, or the one
      still queued for it. */
  predicate Unserved(s: State, th: Tid, q: Option<Xid>) {
    && (q.Some? ==> q.value in s.txns && LosesReceiver(s, th, q.value))
    && (q.None? ==> forall t :: t in s.txns ==> !LosesReceiver(s, th, t))
  }

  function Exit(s: State, th: Tid, q: Option<Xid>): State
    requires Unserved(s, th, q)
  {
    var s1 := Detach(s, th);
    if q.Some? then FailedReply(s1, q.value) else s1
  }

  function Dequeue(s: State, t: Xid): State
    requires t in s.txns
  {
    s.(txns := s.txns[t := s.txns[t].(place := Nowhere)])
  }

  /** binder_release_work on a process's list: a queued call fails. */
  function ReleaseQueued(s: State, t: Xid): State
    requires t in s.txns
  {
    FailedReply(Dequeue(s, t), t)
  }

  // ---------- the invariant ----------

  /** The call chain a transaction belongs to, named by its first transaction, and its depth. */
  datatype Spot = Spot(chain: Xid, pos: nat)
  type Spots = map<Xid, Spot>

  /** from_parent is the one transaction one level up, older than its child; a nested call is made by
      the thread that serves the call around it, and both ends of it are gone together. */
  ghost predicate LinkOk(s: State, at: Spots, t: Xid)
    requires t in s.txns
  {
    && t in at && at[t].chain <= t
    && match s.txns[t].fromParent
       case None => at[t].pos == 0
       case Some(u) =>
         && u in s.txns && u in at && u < t && at[t].pos > 0 && at[u] == Spot(at[t].chain, at[t].pos - 1)
         && s.txns[u].toThread == s.txns[t].from
         && s.txns[u].place == if s.txns[u].toThread.Some? then OnStack else Nowhere
  }

  ghost predicate Linked(s: State, at: Spots) {
    && at.Keys == s.txns.Keys
    && (forall t :: t in s.txns ==> t <= s.lastId)
    && (forall t, u :: t in at && u in at && at[t] == at[u] ==> t == u)
    && (forall t {:trigger LinkOk(s, at, t)} :: t in s.txns ==> LinkOk(s, at, t))
  }

  /** The innermost of the transactions of a chain, above a given depth, that involve a thread. */
  ghost predicate Innermost(s: State, at: Spots, th: Tid, top: Option<Xid>, chain: Xid, below: nat) {
    && (forall u :: u in s.txns && u in at && at[u].chain == chain && at[u].pos < below && Involves(s.txns[u], th)
          ==> top.Some? && top.value in at && at[u].pos <= at[top.value].pos)
    && (top.Some? ==> top.value in s.txns && top.value in at && at[top.value].chain == chain
                      && at[top.value].pos < below && Involves(s.txns[top.value], th))
  }

  /** A thread's stack top is the innermost transaction that involves it, and it is involved in one
      chain only. */
  ghost predicate StackOk(s: State, at: Spots, th: Tid)
    requires th in s.threads
  {
    var top := s.threads[th].stack;
    && (top.Some? ==> top.value in s.txns && top.value in at && Involves(s.txns[top.value], th))
    && (forall u :: u in s.txns && u in at && Involves(s.txns[u], th)
          ==> top.Some? && top.value in at && at[u].chain == at[top.value].chain && at[u].pos <= at[top.value].pos)
  }

  ghost predicate StacksOk(s: State, at: Spots) {
    forall th {:trigger StackOk(s, at, th)} :: th in s.threads ==> StackOk(s, at, th)
  }

  /** to_parent is what the receiver's stack held when it took the transaction. */
  ghost predicate ParentOk(s: State, at: Spots, t: Xid)
    requires t in s.txns
  {
    s.txns[t].place == OnStack ==>
      t in at && s.txns[t].toThread.Some?
      && Innermost(s, at, s.txns[t].toThread.value, s.txns[t].toParent, at[t].chain, at[t].pos)
  }

  ghost predicate ParentsOk(s: State, at: Spots) {
    forall t {:trigger ParentOk(s, at, t)} :: t in s.txns ==> ParentOk(s, at, t)
  }

  ghost predicate WaitsIn(s: State, at: Spots, th: Tid, chain: Xid) {
    && th in s.threads && s.threads[th].stack.Some?
    && s.threads[th].stack.value in at && at[s.threads[th].stack.value].chain == chain
  }

  /** No transaction points to a thread that is gone, none has the same thread on both ends, and a
      thread with a call in its own list is waiting in the same chain. */
  ghost predicate EndOk(s: State, at: Spots, t: Xid)
    requires t in s.txns
  {
    var x := s.txns[t];
    && (x.from.Some? ==> x.from.value in s.threads && x.from != x.toThread)
    && (x.toThread.Some? && x.place != Nowhere ==> x.toThread.value in s.threads)
    && (x.place.AtProc? ==> x.toThread.None?)
    && (x.place.AtThread? ==>
          x.toThread == Some(x.place.thread) && t in at && WaitsIn(s, at, x.place.thread, at[t].chain))
  }

  ghost predicate EndsOk(s: State, at: Spots) {
    forall t {:trigger EndOk(s, at, t)} :: t in s.txns ==> EndOk(s, at, t)
  }

  /** A thread whose second error register is taken is not waiting for a reply. */
  ghost predicate ErrorOk(s: State, th: Tid)
    requires th in s.threads
  {
    s.threads[th].err2 ==>
      && s.threads[th].err
      && (s.threads[th].stack.Some? ==>
            s.threads[th].stack.value in s.txns && s.txns[s.threads[th].stack.value].toThread == Some(th))
  }

  ghost predicate ErrorsOk(s: State) {
    forall th {:trigger ErrorOk(s, th)} :: th in s.threads ==> ErrorOk(s, th)
  }

  ghost predicate Inv(s: State, at: Spots) {
    Linked(s, at) && StacksOk(s, at) && ParentsOk(s, at) && EndsOk(s, at) && ErrorsOk(s)
  }

  ghost predicate SameChain(at: Spots, t: Xid, u: Xid) {
    t in at && u in at && at[t].chain == at[u].chain
  }

  ghost predicate Tail(at: Spots, t: Xid) {
    t in at && forall u :: u in at && at[u].chain == at[t].chain ==> at[u].pos <= at[t].pos
  }

  /** Every innermost call is queued or being served. */
  ghost predicate NoOrphans(s: State, at: Spots) {
    forall t {:trigger Tail(at, t)} :: t in s.txns && Tail(at, t) ==> s.txns[t].place != Nowhere
  }

  // ---------- consequences ----------

  /** Below the innermost transaction of a chain every transaction has a nested call. */
  lemma {:induction false} HasChild(s: State, at: Spots, t: Xid, v: Xid) returns (c: Xid)
    requires Linked(s, at) && t in s.txns && v in s.txns
    requires at[t].chain == at[v].chain && at[t].pos < at[v].pos
    ensures c in s.txns && s.txns[c].fromParent == Some(t) && at[c] == Spot(at[t].chain, at[t].pos + 1)
    decreases at[v].pos
  {
    assert LinkOk(s, at, v);
    var u := s.txns[v].fromParent.value;
    if at[u].pos == at[t].pos {
      assert at[u] == at[t];
      c := v;
    } else {
      c := HasChild(s, at, t, u);
    }
  }

  /** A transaction is innermost unless it is served by a thread that went on to call, or that
      thread is gone. */
  lemma IsTail(s: State, at: Spots, t: Xid)
    requires Linked(s, at) && t in s.txns
    requires forall c :: c in s.txns && s.txns[c].fromParent == Some(t) ==> !LinkOk(s, at, c)
    ensures Tail(at, t)
  {
    forall v | v in at && at[v].chain == at[t].chain
      ensures at[v].pos <= at[t].pos
    {
      if at[v].pos > at[t].pos {
        var c := HasChild(s, at, t, v);
      }
    }
  }

  /** The transaction a thread is serving at the top of its stack is the innermost of its chain. */
  lemma ServedIsTail(s: State, at: Spots, th: Tid, t: Xid)
    requires Inv(s, at) && th in s.threads && s.threads[th].stack == Some(t)
    requires t in s.txns && s.txns[t].toThread == Some(th)
    ensures s.txns[t].place == OnStack && Tail(at, t)
  {
    assert StackOk(s, at, th) && EndOk(s, at, t);
    forall c | c in s.txns && s.txns[c].fromParent == Some(t)
      ensures !LinkOk(s, at, c)
    {
      if LinkOk(s, at, c) {
        assert Involves(s.txns[c], th);
      }
    }
    IsTail(s, at, t);
  }

  lemma QueuedIsTail(s: State, at: Spots, t: Xid)
    requires Linked(s, at) && t in s.txns && (s.txns[t].place.AtProc? || s.txns[t].place.AtThread?)
    ensures Tail(at, t)
  {
    IsTail(s, at, t);
  }

  /** The caller of an innermost transaction has it on top of its stack. */
  lemma CallerWaits(s: State, at: Spots, t: Xid)
    requires Inv(s, at) && t in s.txns && Tail(at, t) && s.txns[t].from.Some?
    ensures s.txns[t].from.value in s.threads && s.threads[s.txns[t].from.value].stack == Some(t)
    ensures !s.threads[s.txns[t].from.value].err2
  {
    var f := s.txns[t].from.value;
    assert EndOk(s, at, t) && StackOk(s, at, f) && ErrorOk(s, f);
    assert Involves(s.txns[t], f);
    var top := s.threads[f].stack.value;
    assert at[top] == at[t];
  }

  /** A reply from the right callee always finds its caller waiting for exactly this transaction. */
  lemma ReplyFindsCaller(s: State, at: Spots, th: Tid)
    requires Inv(s, at) && MayReply(s, th) && s.txns[s.threads[th].stack.value].from.Some?
    ensures var t := s.threads[th].stack.value;
            s.txns[t].from.value in s.threads && s.threads[s.txns[t].from.value].stack == Some(t)
  {
    var t := s.threads[th].stack.value;
    ServedIsTail(s, at, th, t);
    CallerWaits(s, at, t);
  }

  // ---------- sending ----------

  /** A thread found by the search is waiting in the same chain. */
  lemma {:induction false} TargetWaits(s: State, at: Spots, t: Option<Xid>, proc: Pid, found: Option<Tid>, chain: Xid)
    requires Linked(s, at) && StacksOk(s, at)
    requires t.Some? ==> t.value in s.txns && at[t.value].chain == chain
    requires found.Some? ==> WaitsIn(s, at, found.value, chain)
    ensures var r := TargetThread(s, t, proc, found); r.Some? ==> WaitsIn(s, at, r.value, chain)
    decreases if t.Some? then t.value + 1 else 0
  {
    if t.Some? {
      var x := s.txns[t.value];
      var here := x.from.Some? && x.from.value in s.threads && s.threads[x.from.value].proc == proc;
      if here {
        assert Involves(x, x.from.value) && StackOk(s, at, x.from.value);
      }
      assert LinkOk(s, at, t.value);
      TargetWaits(s, at, x.fromParent, proc, if here then x.from else found, chain);
    }
  }

  function SendSpots(s: State, at: Spots, th: Tid): Spots
    requires th in s.threads
  {
    var t, stack := s.lastId + 1, s.threads[th].stack;
    at[t := if stack.Some? && stack.value in at then Spot(at[stack.value].chain, at[stack.value].pos + 1)
        else Spot(t, 0)]
  }

  /** The new transaction is new, and deeper than everything in its chain. */
  lemma SendIsNew(s: State, at: Spots, th: Tid)
    requires Inv(s, at) && MaySend(s, th)
    ensures var t, at' := s.lastId + 1, SendSpots(s, at, th);
            && t !in s.txns && t !in at && at.Keys == s.txns.Keys
            && forall u :: u in s.txns && at[u].chain == at'[t].chain ==> at[u].pos < at'[t].pos
  {
    var t, at', stack := s.lastId + 1, SendSpots(s, at, th), s.threads[th].stack;
    if stack.Some? {
      ServedIsTail(s, at, th, stack.value);
    }
    forall u | u in s.txns && at[u].chain == at'[t].chain
      ensures at[u].pos < at'[t].pos
    {
      assert LinkOk(s, at, u);
    }
  }

  lemma SendLinks(s: State, at: Spots, th: Tid, proc: Pid)
    requires Inv(s, at) && MaySend(s, th)
    ensures Linked(Send(s, th, proc), SendSpots(s, at, th))
  {
    var s', at', t := Send(s, th, proc), SendSpots(s, at, th), s.lastId + 1;
    SendIsNew(s, at, th);
    if s.threads[th].stack.Some? {
      ServedIsTail(s, at, th, s.threads[th].stack.value);
      assert LinkOk(s, at, s.threads[th].stack.value);
    }
    forall u | u in s'.txns
      ensures LinkOk(s', at', u)
    {
      assert u != t ==> LinkOk(s, at, u);
    }
  }

  lemma SendStacks(s: State, at: Spots, th: Tid, proc: Pid)
    requires Inv(s, at) && MaySend(s, th) && TargetThread(s, s.threads[th].stack, proc, None) != Some(th)
    ensures StacksOk(Send(s, th, proc), SendSpots(s, at, th)) && ErrorsOk(Send(s, th, proc))
  {
    var s', at', t := Send(s, th, proc), SendSpots(s, at, th), s.lastId + 1;
    SendIsNew(s, at, th);
    forall h | h in s'.threads
      ensures StackOk(s', at', h) && ErrorOk(s', h)
    {
      assert StackOk(s, at, h) && ErrorOk(s, h);
    }
  }

  /** `Innermost` depends only on the transactions of the chain above the given depth. */
  lemma InnermostFrame(s: State, at: Spots, s': State, at': Spots, th: Tid, top: Option<Xid>, chain: Xid, below: nat)
    requires Innermost(s, at, th, top, chain, below)
    requires forall u :: u in s'.txns && u in at' && at'[u].chain == chain && at'[u].pos < below
               ==> u in s.txns && u in at && at[u] == at'[u] && Involves(s.txns[u], th) == Involves(s'.txns[u], th)
    requires top.Some? ==> top.value in s'.txns && top.value in at' && at'[top.value] == at[top.value]
    ensures Innermost(s', at', th, top, chain, below)
  {
  }

  lemma SendParents(s: State, at: Spots, th: Tid, proc: Pid)
    requires Inv(s, at) && MaySend(s, th)
    ensures ParentsOk(Send(s, th, proc), SendSpots(s, at, th))
  {
    var s', at' := Send(s, th, proc), SendSpots(s, at, th);
    SendIsNew(s, at, th);
    forall u | u in s'.txns
      ensures ParentOk(s', at', u)
    {
      if s'.txns[u].place == OnStack {
        assert ParentOk(s, at, u);
        InnermostFrame(s, at, s', at', s.txns[u].toThread.value, s.txns[u].toParent, at[u].chain, at[u].pos);
      }
    }
  }

  lemma SendEnds(s: State, at: Spots, th: Tid, proc: Pid)
    requires Inv(s, at) && MaySend(s, th) && TargetThread(s, s.threads[th].stack, proc, None) != Some(th)
    ensures EndsOk(Send(s, th, proc), SendSpots(s, at, th))
  {
    var s', at', stack := Send(s, th, proc), SendSpots(s, at, th), s.threads[th].stack;
    SendIsNew(s, at, th);
    if stack.Some? {
      TargetWaits(s, at, stack, proc, None, at[stack.value].chain);
    }
    forall u | u in s'.txns
      ensures EndOk(s', at', u)
    {
      if u in s.txns {
        assert EndOk(s, at, u);
      }
    }
  }

  lemma SendKeeps(s: State, at: Spots, th: Tid, proc: Pid)
    requires Inv(s, at) && NoOrphans(s, at) && MaySend(s, th)
    requires TargetThread(s, s.threads[th].stack, proc, None) != Some(th)
    ensures Inv(Send(s, th, proc), SendSpots(s, at, th)) && NoOrphans(Send(s, th, proc), SendSpots(s, at, th))
  {
    SendLinks(s, at, th, proc);
    SendStacks(s, at, th, proc);
    SendParents(s, at, th, proc);
    SendEnds(s, at, th, proc);
    var s', at' := Send(s, th, proc), SendSpots(s, at, th);
    SendIsNew(s, at, th);
    forall u | u in s'.txns && Tail(at', u)
      ensures s'.txns[u].place != Nowhere
    {
      if u in s.txns {
        TailOfPart(at, at', u);
      }
    }
  }

  // ---------- delivering ----------

  lemma TailOfPart(at: Spots, at': Spots, t: Xid)
    requires Tail(at', t) && t in at && forall u :: u in at ==> u in at' && at'[u] == at[u]
    ensures Tail(at, t)
  {
  }

  lemma DeliverLinks(s: State, at: Spots, th: Tid, t: Xid)
    requires Inv(s, at) && MayDeliver(s, th, t)
    ensures Linked(Deliver(s, th, t), at)
  {
    var s' := Deliver(s, th, t);
    forall u | u in s'.txns
      ensures LinkOk(s', at, u)
    {
      assert LinkOk(s, at, u);
    }
  }

  lemma DeliverEnds(s: State, at: Spots, th: Tid, t: Xid)
    requires Inv(s, at) && MayDeliver(s, th, t)
    ensures EndsOk(Deliver(s, th, t), at)
  {
    var s' := Deliver(s, th, t);
    assert EndOk(s, at, t) && StackOk(s, at, th);
    forall u | u in s'.txns
      ensures EndOk(s', at, u)
    {
      assert EndOk(s, at, u);
    }
  }

  lemma DeliverStacks(s: State, at: Spots, th: Tid, t: Xid)
    requires Inv(s, at) && MayDeliver(s, th, t)
    ensures StacksOk(Deliver(s, th, t), at) && ErrorsOk(Deliver(s, th, t))
  {
    var s' := Deliver(s, th, t);
    QueuedIsTail(s, at, t);
    assert EndOk(s, at, t);
    forall h | h in s'.threads
      ensures StackOk(s', at, h) && ErrorOk(s', h)
    {
      assert StackOk(s, at, h) && ErrorOk(s, h);
    }
  }

  lemma DeliverParents(s: State, at: Spots, th: Tid, t: Xid)
    requires Inv(s, at) && MayDeliver(s, th, t)
    ensures ParentsOk(Deliver(s, th, t), at)
  {
    var s' := Deliver(s, th, t);
    QueuedIsTail(s, at, t);
    assert EndOk(s, at, t) && StackOk(s, at, th);
    assert Innermost(s, at, th, s.threads[th].stack, at[t].chain, at[t].pos);
    forall u | u in s'.txns
      ensures ParentOk(s', at, u)
    {
      if u == t {
        InnermostFrame(s, at, s', at, th, s.threads[th].stack, at[t].chain, at[t].pos);
      } else if s.txns[u].place == OnStack {
        assert ParentOk(s, at, u);
        InnermostFrame(s, at, s', at, s.txns[u].toThread.value, s.txns[u].toParent, at[u].chain, at[u].pos);
      }
    }
  }

  lemma DeliverKeeps(s: State, at: Spots, th: Tid, t: Xid)
    requires Inv(s, at) && NoOrphans(s, at) && MayDeliver(s, th, t)
    ensures Inv(Deliver(s, th, t), at) && NoOrphans(Deliver(s, th, t), at)
  {
    DeliverLinks(s, at, th, t);
    DeliverEnds(s, at, th, t);
    DeliverStacks(s, at, th, t);
    DeliverParents(s, at, th, t);
  }

  // ---------- taking a transaction off its receiver ----------

  lemma UnstackTxns(s: State, at: Spots, th: Tid)
    requires Inv(s, at) && MayReply(s, th)
    ensures Linked(Unstack(s, th), at) && EndsOk(Unstack(s, th), at)
  {
    var s', t := Unstack(s, th), s.threads[th].stack.value;
    ServedIsTail(s, at, th, t);
    assert ParentOk(s, at, t);
    forall u | u in s'.txns
      ensures LinkOk(s', at, u)
    {
      assert LinkOk(s, at, u);
    }
    forall u | u in s'.txns
      ensures EndOk(s', at, u)
    {
      assert EndOk(s, at, u);
      if s.txns[u].place == AtThread(th) {
        QueuedIsTail(s, at, u);
        assert at[u] == at[t];
      }
    }
  }

  lemma UnstackStacks(s: State, at: Spots, th: Tid)
    requires Inv(s, at) && MayReply(s, th)
    ensures StacksOk(Unstack(s, th), at) && ErrorsOk(Unstack(s, th))
  {
    var s', t := Unstack(s, th), s.threads[th].stack.value;
    ServedIsTail(s, at, th, t);
    assert ParentOk(s, at, t) && EndOk(s, at, t) && StackOk(s, at, th);
    forall h | h in s'.threads
      ensures StackOk(s', at, h) && ErrorOk(s', h)
    {
      assert StackOk(s, at, h) && ErrorOk(s, h);
      assert forall u :: u in at && at[u].chain == at[t].chain && at[u].pos >= at[t].pos ==> u == t;
    }
  }

  lemma UnstackParents(s: State, at: Spots, th: Tid)
    requires Inv(s, at) && MayReply(s, th)
    ensures ParentsOk(Unstack(s, th), at)
  {
    var s', t := Unstack(s, th), s.threads[th].stack.value;
    ServedIsTail(s, at, th, t);
    forall u | u in s'.txns
      ensures ParentOk(s', at, u)
    {
      if s'.txns[u].place == OnStack {
        assert ParentOk(s, at, u);
        InnermostFrame(s, at, s', at, s.txns[u].toThread.value, s.txns[u].toParent, at[u].chain, at[u].pos);
      }
    }
  }

  /** Answering moves the receiver's stack back to what it held before the call. */
  lemma UnstackKeeps(s: State, at: Spots, th: Tid)
    requires Inv(s, at) && MayReply(s, th)
    ensures Inv(Unstack(s, th), at) && Tail(at, s.threads[th].stack.value)
  {
    UnstackTxns(s, at, th);
    UnstackStacks(s, at, th);
    UnstackParents(s, at, th);
    ServedIsTail(s, at, th, s.threads[th].stack.value);
  }

  // ---------- removing the innermost transaction ----------

  lemma PopTxns(s: State, at: Spots, t: Xid)
    requires Inv(s, at) && t in s.txns && Tail(at, t) && s.txns[t].place == Nowhere
    ensures Linked(Pop(s, t), at - {t}) && EndsOk(Pop(s, t), at - {t})
  {
    var s', at' := Pop(s, t), at - {t};
    assert LinkOk(s, at, t);
    if s.txns[t].from.Some? {
      CallerWaits(s, at, t);
    }
    forall u | u in s'.txns
      ensures LinkOk(s', at', u)
    {
      assert LinkOk(s, at, u);
    }
    forall u | u in s'.txns
      ensures EndOk(s', at', u)
    {
      assert EndOk(s, at, u);
      if s.txns[u].place.AtThread? {
        QueuedIsTail(s, at, u);
        assert at[u].chain == at[t].chain ==> at[u] == at[t];
      }
    }
  }

  lemma PopStacks(s: State, at: Spots, t: Xid)
    requires Inv(s, at) && t in s.txns && Tail(at, t) && s.txns[t].place == Nowhere
    ensures StacksOk(Pop(s, t), at - {t}) && ErrorsOk(Pop(s, t))
  {
    var s', at' := Pop(s, t), at - {t};
    assert LinkOk(s, at, t) && EndOk(s, at, t);
    if s.txns[t].from.Some? {
      CallerWaits(s, at, t);
    }
    forall h | h in s'.threads
      ensures StackOk(s', at', h) && ErrorOk(s', h)
    {
      assert StackOk(s, at, h) && ErrorOk(s, h);
      assert forall u :: u in at && at[u].chain == at[t].chain && at[u].pos >= at[t].pos ==> u == t;
    }
  }

  lemma PopParents(s: State, at: Spots, t: Xid)
    requires Inv(s, at) && t in s.txns && Tail(at, t) && s.txns[t].place == Nowhere
    ensures ParentsOk(Pop(s, t), at - {t})
  {
    var s', at' := Pop(s, t), at - {t};
    forall u | u in s'.txns
      ensures ParentOk(s', at', u)
    {
      if s'.txns[u].place == OnStack {
        assert ParentOk(s, at, u);
        InnermostFrame(s, at, s', at', s.txns[u].toThread.value, s.txns[u].toParent, at[u].chain, at[u].pos);
      }
    }
  }

  lemma PopKeeps(s: State, at: Spots, t: Xid)
    requires Inv(s, at) && t in s.txns && Tail(at, t) && s.txns[t].place == Nowhere
    ensures Inv(Pop(s, t), at - {t})
  {
    PopTxns(s, at, t);
    PopStacks(s, at, t);
    PopParents(s, at, t);
  }

  /** The error registers matter only to `ErrorOk`. */
  lemma SetErrors(s: State, at: Spots, th: Tid, e: bool, e2: bool)
    requires Inv(s, at) && th in s.threads
    requires e2 ==> e && ErrorOk(s.(threads := s.threads[th := s.threads[th].(err := e, err2 := e2)]), th)
    ensures Inv(s.(threads := s.threads[th := s.threads[th].(err := e, err2 := e2)]), at)
  {
    var s' := s.(threads := s.threads[th := s.threads[th].(err := e, err2 := e2)]);
    forall u | u in s'.txns
      ensures LinkOk(s', at, u) && EndOk(s', at, u) && ParentOk(s', at, u)
    {
      assert LinkOk(s, at, u) && EndOk(s, at, u) && ParentOk(s, at, u);
    }
    forall h | h in s'.threads
      ensures StackOk(s', at, h) && ErrorOk(s', h)
    {
      assert StackOk(s, at, h) && ErrorOk(s, h);
    }
  }

  // ---------- failed replies ----------

  ghost predicate NoOrphansBut(s: State, at: Spots, t: Xid) {
    forall u {:trigger Tail(at, u)} :: u in s.txns && u != t && Tail(at, u) ==> s.txns[u].place != Nowhere
  }

  /** What a failed reply leaves: the consecutive transactions of the chain from `stop` inwards are
      freed, every one inside `stop` had no caller left, and `stop` is the first one with a live
      caller, who gets an error and has its stack popped, or the root. */
  ghost predicate FailedTo(s: State, at: Spots, s': State, stop: Xid) {
    && stop in s.txns && stop in at && s'.lastId == s.lastId
    && (forall u :: u in s'.txns <==>
          u in s.txns && u in at && !(at[u].chain == at[stop].chain && at[u].pos >= at[stop].pos))
    && (forall u :: u in s'.txns ==> s'.txns[u] == s.txns[u])
    && (forall u :: u in s.txns && u in at && at[u].chain == at[stop].chain && at[u].pos > at[stop].pos ==>
          s.txns[u].from.None?)
    && match s.txns[stop].from
       case None => s.txns[stop].fromParent.None? && s'.threads == s.threads
       case Some(f) =>
         && f in s.threads && s.threads[f].stack == Some(stop) && !s.threads[f].err2
         && var caller := s.threads[f].(stack := s.txns[stop].fromParent, err := true, err2 := s.threads[f].err);
            s'.threads == s.threads[f := caller]
  }

  function Restrict(at: Spots, s: State): Spots {
    map t | t in at && t in s.txns :: at[t]
  }

  /** One turn of the loop of binder_send_failed_reply when the caller is alive. */
  lemma FailAtCaller(s: State, at: Spots, t: Xid)
    requires Inv(s, at) && t in s.txns && Tail(at, t) && s.txns[t].place == Nowhere && s.txns[t].from.Some?
    ensures FailedTo(s, at, FailedReply(s, t), t) && Inv(FailedReply(s, t), at - {t})
  {
    var f := s.txns[t].from.value;
    CallerWaits(s, at, t);
    PopKeeps(s, at, t);
    assert LinkOk(s, at, t);
    SetErrors(Pop(s, t), at - {t}, f, true, s.threads[f].err);
    TailIsLast(s, at, t);
  }

  lemma TailIsLast(s: State, at: Spots, t: Xid)
    requires Linked(s, at) && t in s.txns && Tail(at, t)
    ensures forall u :: u in s.txns && at[u].chain == at[t].chain && at[u].pos >= at[t].pos ==> u == t
  {
  }

  /** Freeing a callerless innermost transaction first extends a walk that starts at its parent. */
  lemma FailedToExtends(s: State, at: Spots, t: Xid, s': State, stop: Xid)
    requires Linked(s, at) && t in s.txns && Tail(at, t) && s.txns[t].from.None? && s.txns[t].fromParent.Some?
    requires FailedTo(Pop(s, t), at - {t}, s', stop) && SameChain(at, t, stop)
    ensures FailedTo(s, at, s', stop) && Restrict(at - {t}, s') == Restrict(at, s')
  {
    TailIsLast(s, at, t);
  }

  lemma ParentIsTail(s: State, at: Spots, t: Xid, u: Xid)
    requires Linked(s, at) && t in s.txns && Tail(at, t) && s.txns[t].fromParent == Some(u)
    ensures u in s.txns && u < t && SameChain(at, t, u) && Tail(at - {t}, u)
    ensures s.txns[t].from.None? ==> s.txns[u].place == Nowhere
  {
    assert LinkOk(s, at, t);
    TailIsLast(s, at, t);
  }

  lemma {:induction false} FailedReplyWalk(s: State, at: Spots, t: Xid) returns (stop: Xid)
    requires Inv(s, at) && t in s.txns && Tail(at, t) && s.txns[t].place == Nowhere
    ensures SameChain(at, t, stop) && FailedTo(s, at, FailedReply(s, t), stop)
    ensures Inv(FailedReply(s, t), Restrict(at, FailedReply(s, t)))
    decreases t
  {
    hide StacksOk, ParentsOk, EndsOk, ErrorsOk, FailedReply, FailedTo, Tail, LinkOk;
    if s.txns[t].from.Some? {
      stop := t;
      FailAtCaller(s, at, t);
      FailedToRestricts(s, at, FailedReply(s, t), t);
    } else {
      PopKeeps(s, at, t);
      FailedReplyStep(s, t);
      if s.txns[t].fromParent.Some? {
        var u := s.txns[t].fromParent.value;
        ParentIsTail(s, at, t, u);
        stop := FailedReplyWalk(Pop(s, t), at - {t}, u);
        FailedToExtends(s, at, t, FailedReply(s, t), stop);
      } else {
        stop := t;
        FailAtRoot(s, at, t);
      }
    }
  }

  lemma FailedToRestricts(s: State, at: Spots, s': State, t: Xid)
    requires Linked(s, at) && t in s.txns && Tail(at, t) && FailedTo(s, at, s', t)
    ensures Restrict(at, s') == at - {t}
  {
    TailIsLast(s, at, t);
  }

  lemma FailAtRoot(s: State, at: Spots, t: Xid)
    requires Linked(s, at) && t in s.txns && Tail(at, t) && s.txns[t].from.None? && s.txns[t].fromParent.None?
    ensures FailedTo(s, at, Pop(s, t), t) && Restrict(at, Pop(s, t)) == at - {t}
  {
    TailIsLast(s, at, t);
  }

  lemma FailedReplyStep(s: State, t: Xid)
    requires t in s.txns && s.txns[t].from.None?
    ensures var u := s.txns[t].fromParent;
            FailedReply(s, t) == if u.Some? && u.value < t && u.value in s.txns
                then FailedReply(Pop(s, t), u.value) else Pop(s, t)
  {
  }

  /** After a failed reply every innermost call is queued or being served again. */
  lemma FailedReplySettles(s: State, at: Spots, t: Xid)
    requires Inv(s, at) && t in s.txns && Tail(at, t) && s.txns[t].place == Nowhere && NoOrphansBut(s, at, t)
    ensures var s' := FailedReply(s, t); Inv(s', Restrict(at, s')) && NoOrphans(s', Restrict(at, s'))
  {
    var s' := FailedReply(s, t);
    var stop := FailedReplyWalk(s, at, t);
    var at' := Restrict(at, s');
    assert LinkOk(s, at, stop);
    forall u | u in s'.txns && Tail(at', u)
      ensures s'.txns[u].place != Nowhere
    {
      if at[u].chain == at[stop].chain {
        ParentOfStop(s, at, s', stop, u);
      } else {
        OtherChainTail(s, at, s', stop, u);
      }
    }
  }

  lemma OtherChainTail(s: State, at: Spots, s': State, stop: Xid, u: Xid)
    requires Linked(s, at) && FailedTo(s, at, s', stop) && u in s'.txns && at[u].chain != at[stop].chain
    requires Tail(Restrict(at, s'), u)
    ensures Tail(at, u)
  {
    forall v | v in at && at[v].chain == at[u].chain
      ensures at[v].pos <= at[u].pos
    {
      assert v in Restrict(at, s');
    }
  }

  /** The new innermost transaction is the one the popped caller is serving. */
  lemma ParentOfStop(s: State, at: Spots, s': State, stop: Xid, u: Xid)
    requires Linked(s, at) && FailedTo(s, at, s', stop) && LinkOk(s, at, stop)
    requires u in s'.txns && at[u].chain == at[stop].chain && Tail(Restrict(at, s'), u)
    ensures s.txns[stop].from.Some? && s.txns[stop].fromParent == Some(u) && s.txns[u].place == OnStack
  {
    assert s.txns[stop].fromParent.Some?;
    var p := s.txns[stop].fromParent.value;
    assert p in Restrict(at, s');
    assert at[p] == at[u];
  }

  // ---------- replying ----------

  ghost function ReplySpots(s: State, at: Spots, th: Tid, ok: bool): Spots
    requires MayReply(s, th)
  {
    Restrict(at, Reply(s, th, ok))
  }

  lemma ReplyKeeps(s: State, at: Spots, th: Tid, ok: bool)
    requires Inv(s, at) && NoOrphans(s, at) && MayReply(s, th)
    ensures Inv(Reply(s, th, ok), ReplySpots(s, at, th, ok)) && NoOrphans(Reply(s, th, ok), ReplySpots(s, at, th, ok))
  {
    hide StacksOk, ParentsOk, EndsOk, ErrorsOk, FailedReply, Tail, LinkOk;
    var t, s1 := s.threads[th].stack.value, Unstack(s, th);
    UnstackKeeps(s, at, th);
    assert NoOrphansBut(s1, at, t);
    if ok && s.txns[t].from.Some? {
      PopKeeps(s1, at, t);
      assert Restrict(at, Pop(s1, t)) == at - {t};
      PopSettles(s1, at, t);
    } else {
      SetErrors(s1, at, th, true, s1.threads[th].err2) by { ErrorRoom(s, at, th); }
      var s2 := s1.(threads := s1.threads[th := s1.threads[th].(err := true)]);
      assert s2 == s1.(threads := s1.threads[th := s1.threads[th].(err := true, err2 := s1.threads[th].err2)]);
      FailedReplySettles(s2, at, t);
    }
  }

  lemma ErrorRoom(s: State, at: Spots, th: Tid)
    requires Inv(s, at) && th in s.threads && !s.threads[th].err
    ensures !s.threads[th].err2
  {
    assert ErrorOk(s, th);
  }

  lemma PopSettles(s: State, at: Spots, t: Xid)
    requires Inv(s, at) && t in s.txns && Tail(at, t) && s.txns[t].from.Some? && NoOrphansBut(s, at, t)
    ensures NoOrphans(Pop(s, t), at - {t})
  {
    var at' := at - {t};
    assert LinkOk(s, at, t);
    forall u | u in Pop(s, t).txns && Tail(at', u)
      ensures s.txns[u].place != Nowhere
    {
      if at[u].chain == at[t].chain {
        var p := s.txns[t].fromParent.value;
        assert p in at' && at[p] == at[u];
      } else {
        assert forall v :: v in at && at[v].chain == at[u].chain ==> v in at';
        assert Tail(at, u);
      }
    }
  }

  // ---------- thread exit and process exit ----------

  lemma DetachOthers(x: Txn, th: Tid, h: Tid)
    requires h != th
    ensures Involves(Detached(x, th), h) == Involves(x, h)
    ensures x.toThread == Some(h) ==> Detached(x, th).toThread == Some(h)
    ensures Detached(x, th).place == OnStack ==>
              x.place == OnStack && x.toThread == Detached(x, th).toThread != Some(th)
    ensures Detached(x, th).toParent == x.toParent
  {
  }

  lemma DetachLinks(s: State, at: Spots, th: Tid)
    requires Inv(s, at)
    ensures Linked(Detach(s, th), at)
  {
    var s' := Detach(s, th);
    forall u | u in s'.txns
      ensures LinkOk(s', at, u)
    {
      assert LinkOk(s, at, u);
    }
  }

  lemma DetachEnds(s: State, at: Spots, th: Tid)
    requires Inv(s, at)
    ensures EndsOk(Detach(s, th), at)
  {
    var s' := Detach(s, th);
    forall u | u in s'.txns
      ensures EndOk(s', at, u)
    {
      assert EndOk(s, at, u);
    }
  }

  lemma DetachStacks(s: State, at: Spots, th: Tid)
    requires Inv(s, at)
    ensures StacksOk(Detach(s, th), at) && ErrorsOk(Detach(s, th))
  {
    hide Detached, Involves;
    var s' := Detach(s, th);
    forall h | h in s'.threads
      ensures StackOk(s', at, h) && ErrorOk(s', h)
    {
      assert StackOk(s, at, h) && ErrorOk(s, h);
      forall u | u in s.txns {
        DetachOthers(s.txns[u], th, h);
      }
    }
  }

  lemma DetachParents(s: State, at: Spots, th: Tid)
    requires Inv(s, at)
    ensures ParentsOk(Detach(s, th), at)
  {
    hide Detached, Involves;
    var s' := Detach(s, th);
    forall t | t in s'.txns
      ensures ParentOk(s', at, t)
    {
      DetachOthers(s.txns[t], th, th + 1);
      if s'.txns[t].place == OnStack {
        assert ParentOk(s, at, t);
        var h := s.txns[t].toThread.value;
        forall u | u in s.txns {
          DetachOthers(s.txns[u], th, h);
        }
        InnermostFrame(s, at, s', at, h, s.txns[t].toParent, at[t].chain, at[t].pos);
      }
    }
  }

  /** The one transaction an exit leaves without a receiver is innermost, and there is no other. */
  lemma UnservedIsTail(s: State, at: Spots, th: Tid, t: Xid)
    requires Inv(s, at) && th in s.threads && t in s.txns && LosesReceiver(s, th, t)
    ensures Tail(at, t) && Detach(s, th).txns[t].place == Nowhere
    ensures WaitsIn(s, at, th, at[t].chain)
  {
    assert EndOk(s, at, t) && StackOk(s, at, th);
    if s.txns[t].place == AtThread(th) {
      QueuedIsTail(s, at, t);
    } else {
      ServedIsTail(s, at, th, t);
    }
  }

  lemma OnlyUnservedOrphans(s: State, at: Spots, th: Tid, u: Xid)
    requires Inv(s, at) && NoOrphans(s, at) && th in s.threads && u in s.txns && Tail(at, u)
    requires Detach(s, th).txns[u].place == Nowhere
    ensures LosesReceiver(s, th, u)
  {
    if s.txns[u].place == OnStack {
      assert StackOk(s, at, th) && Involves(s.txns[u], th);
      assert at[s.threads[th].stack.value] == at[u];
    }
  }

  lemma ExitKeeps(s: State, at: Spots, th: Tid, q: Option<Xid>)
    requires Inv(s, at) && NoOrphans(s, at) && th in s.threads && Unserved(s, th, q)
    ensures var s' := Exit(s, th, q); Inv(s', Restrict(at, s')) && NoOrphans(s', Restrict(at, s'))
  {
    hide StacksOk, ParentsOk, EndsOk, ErrorsOk, FailedReply, LinkOk, LosesReceiver, Detached;
    var s1 := Detach(s, th);
    DetachLinks(s, at, th);
    DetachEnds(s, at, th);
    DetachStacks(s, at, th);
    DetachParents(s, at, th);
    if q.None? {
      assert Restrict(at, s1) == at;
      forall u | u in s1.txns && Tail(at, u)
        ensures s1.txns[u].place != Nowhere
      {
        if s1.txns[u].place == Nowhere {
          OnlyUnservedOrphans(s, at, th, u);
        }
      }
    } else {
      UnservedIsTail(s, at, th, q.value);
      forall u | u in s1.txns && u != q.value && Tail(at, u)
        ensures s1.txns[u].place != Nowhere
      {
        if s1.txns[u].place == Nowhere {
          OnlyUnservedOrphans(s, at, th, u);
          UnservedIsTail(s, at, th, u);
        }
      }
      FailedReplySettles(s1, at, q.value);
    }
  }

  lemma DequeueTxns(s: State, at: Spots, t: Xid)
    requires Inv(s, at) && t in s.txns && s.txns[t].place.AtProc?
    ensures Linked(Dequeue(s, t), at) && EndsOk(Dequeue(s, t), at)
  {
    var s' := Dequeue(s, t);
    forall u | u in s'.txns
      ensures LinkOk(s', at, u) && EndOk(s', at, u)
    {
      assert LinkOk(s, at, u) && EndOk(s, at, u);
    }
  }

  lemma DequeueStacks(s: State, at: Spots, t: Xid)
    requires Inv(s, at) && t in s.txns && s.txns[t].place.AtProc?
    ensures StacksOk(Dequeue(s, t), at) && ErrorsOk(Dequeue(s, t)) && ParentsOk(Dequeue(s, t), at)
  {
    var s' := Dequeue(s, t);
    forall h | h in s'.threads
      ensures StackOk(s', at, h) && ErrorOk(s', h)
    {
      assert StackOk(s, at, h) && ErrorOk(s, h);
    }
    forall u | u in s'.txns
      ensures ParentOk(s', at, u)
    {
      assert ParentOk(s, at, u);
    }
  }

  lemma ReleaseQueuedKeeps(s: State, at: Spots, t: Xid)
    requires Inv(s, at) && NoOrphans(s, at) && t in s.txns && s.txns[t].place.AtProc?
    ensures var s' := ReleaseQueued(s, t); Inv(s', Restrict(at, s')) && NoOrphans(s', Restrict(at, s'))
  {
    QueuedIsTail(s, at, t);
    DequeueTxns(s, at, t);
    DequeueStacks(s, at, t);
    FailedReplySettles(Dequeue(s, t), at, t);
  }

  // ---------- whole runs ----------

  datatype Event =
    | Start(th: Tid, proc: Pid)
    | SendTo(th: Tid, proc: Pid)
    | Receive(th: Tid, t: Xid)
    | ReplyBy(th: Tid, ok: bool)
    | OtherFailure(th: Tid)
    | ReadErrors(th: Tid)
    | ReadSecondError(th: Tid)
    | ThreadExit(th: Tid, q: Option<Xid>)
    | ReleaseOf(t: Xid)

  /** When an event can happen. A send whose search ends at the sender itself is excluded. */
  predicate Enabled(s: State, e: Event) {
    match e
    case Start(th, _) => th !in s.threads
    case SendTo(th, proc) => MaySend(s, th) && TargetThread(s, s.threads[th].stack, proc, None) != Some(th)
    case Receive(th, t) => MayDeliver(s, th, t)
    case ReplyBy(th, _) => MayReply(s, th)
    case OtherFailure(th) => th in s.threads && !s.threads[th].err
    case ReadErrors(th) => th in s.threads
    case ReadSecondError(th) => th in s.threads
    case ThreadExit(th, q) => th in s.threads && Unserved(s, th, q)
    case ReleaseOf(t) => t in s.txns && s.txns[t].place.AtProc?
  }

  function Apply(s: State, e: Event): State
    requires Enabled(s, e)
  {
    match e
    case Start(th, proc) => s.(threads := s.threads[th := Thread(proc, None, false, false)])
    case SendTo(th, proc) => Send(s, th, proc)
    case Receive(th, t) => Deliver(s, th, t)
    case ReplyBy(th, ok) => Reply(s, th, ok)
    case OtherFailure(th) => s.(threads := s.threads[th := s.threads[th].(err := true)])
    case ReadErrors(th) => s.(threads := s.threads[th := s.threads[th].(err := false, err2 := false)])
    case ReadSecondError(th) => s.(threads := s.threads[th := s.threads[th].(err2 := false)])
    case ThreadExit(th, q) => Exit(s, th, q)
    case ReleaseOf(t) => ReleaseQueued(s, t)
  }

  const EMPTY: State := State(map[], map[], 0)

  ghost predicate IsRun(s: State, es: seq<Event>)
    decreases |es|
  {
    es == [] || (Enabled(s, es[0]) && IsRun(Apply(s, es[0]), es[1..]))
  }

  ghost function After(s: State, es: seq<Event>): State
    requires IsRun(s, es)
    decreases |es|
  {
    if es == [] then s else After(Apply(s, es[0]), es[1..])
  }

  lemma StartKeeps(s: State, at: Spots, th: Tid, proc: Pid)
    requires Inv(s, at) && NoOrphans(s, at) && th !in s.threads
    ensures Inv(Apply(s, Start(th, proc)), at) && NoOrphans(Apply(s, Start(th, proc)), at)
  {
    var s' := Apply(s, Start(th, proc));
    forall u | u in s'.txns
      ensures LinkOk(s', at, u) && EndOk(s', at, u) && ParentOk(s', at, u) && !Involves(s.txns[u], th)
    {
      assert LinkOk(s, at, u) && EndOk(s, at, u) && ParentOk(s, at, u);
    }
    forall h | h in s'.threads
      ensures StackOk(s', at, h) && ErrorOk(s', h)
    {
      assert h != th ==> StackOk(s, at, h) && ErrorOk(s, h);
    }
  }

  lemma StepKeeps(s: State, at: Spots, e: Event) returns (at': Spots)
    requires Inv(s, at) && NoOrphans(s, at) && Enabled(s, e)
    ensures Inv(Apply(s, e), at') && NoOrphans(Apply(s, e), at')
  {
    hide Linked, StacksOk, ParentsOk, EndsOk, ErrorsOk, FailedReply, Tail, Unserved, MayReply, MayDeliver, TargetThread;
    match e
    case Start(th, proc) =>
      StartKeeps(s, at, th, proc);
      at' := at;
    case SendTo(th, proc) =>
      SendKeeps(s, at, th, proc);
      at' := SendSpots(s, at, th);
    case Receive(th, t) =>
      DeliverKeeps(s, at, th, t);
      at' := at;
    case ReplyBy(th, ok) =>
      ReplyKeeps(s, at, th, ok);
      at' := ReplySpots(s, at, th, ok);
    case OtherFailure(th) =>
      ErrorRoom(s, at, th);
      SetErrors(s, at, th, true, false);
      assert Apply(s, e) == s.(threads := s.threads[th := s.threads[th].(err := true, err2 := false)]);
      at' := at;
    case ReadErrors(th) =>
      SetErrors(s, at, th, false, false);
      at' := at;
    case ReadSecondError(th) =>
      SetErrors(s, at, th, s.threads[th].err, false);
      assert s.threads[th].(err := s.threads[th].err, err2 := false) == s.threads[th].(err2 := false);
      at' := at;
    case ThreadExit(th, q) =>
      ExitKeeps(s, at, th, q);
      at' := Restrict(at, Exit(s, th, q));
    case ReleaseOf(t) =>
      ReleaseQueuedKeeps(s, at, t);
      at' := Restrict(at, ReleaseQueued(s, t));
  }

  /** In every run: the invariant holds throughout, so the checks that guard replies and pops never
      fail, and no innermost call is ever lost. */
  lemma {:induction false} RunsKeep(s: State, at: Spots, es: seq<Event>) returns (at': Spots)
    requires Inv(s, at) && NoOrphans(s, at) && IsRun(s, es)
    ensures Inv(After(s, es), at') && NoOrphans(After(s, es), at')
    decreases |es|
  {
    if es == [] {
      at' := at;
    } else {
      var at1 := StepKeeps(s, at, es[0]);
      at' := RunsKeep(Apply(s, es[0]), at1, es[1..]);
    }
  }

  lemma EveryRun(es: seq<Event>)
    requires IsRun(EMPTY, es)
    ensures exists at :: Inv(After(EMPTY, es), at) && NoOrphans(After(EMPTY, es), at)
  {
    assert Inv(EMPTY, map[]) && NoOrphans(EMPTY, map[]);
    var at := RunsKeep(EMPTY, map[], es);
  }

  // ---------- the excluded send ----------

  lemma {:induction false} TargetIsInProcess(s: State, t: Option<Xid>, proc: Pid, found: Option<Tid>)
    requires found.Some? ==> found.value in s.threads && s.threads[found.value].proc == proc
    ensures var r := TargetThread(s, t, proc, found);
        r.Some? ==> r.value in s.threads && s.threads[r.value].proc == proc
    decreases if t.Some? then t.value + 1 else 0
  {
    if t.Some? && t.value in s.txns {
      var x := s.txns[t.value];
      var here := x.from.Some? && x.from.value in s.threads && s.threads[x.from.value].proc == proc;
      if !(x.fromParent.Some? && x.fromParent.value >= t.value) {
        TargetIsInProcess(s, x.fromParent, proc, if here then x.from else found);
      }
    }
  }

  /** Between distinct processes the excluded case cannot arise. */
  lemma DistinctProcessesSuffice(s: State, th: Tid, proc: Pid)
    requires MaySend(s, th) && s.threads[th].proc != proc
    ensures Enabled(s, SendTo(th, proc))
  {
    TargetIsInProcess(s, s.threads[th].stack, proc, None);
  }

  /** A call becomes its own to_parent when it is read exactly if the search ended at the sender. */
  lemma SelfCallLoops(s: State, at: Spots, th: Tid, proc: Pid, h: Tid)
    requires Inv(s, at) && MaySend(s, th) && MayDeliver(Send(s, th, proc), h, s.lastId + 1)
    ensures Deliver(Send(s, th, proc), h, s.lastId + 1).txns[s.lastId + 1].toParent == Some(s.lastId + 1)
       <==> TargetThread(s, s.threads[th].stack, proc, None) == Some(th)
  {
    SendIsNew(s, at, th);
    if h in s.threads {
      assert StackOk(s, at, h);
    }
  }

  /** A run extended by one event. */
  lemma {:induction false} RunThen(s: State, es: seq<Event>, e: Event)
    requires IsRun(s, es) && Enabled(After(s, es), e)
    ensures IsRun(s, es + [e]) && After(s, es + [e]) == Apply(After(s, es), e)
    decreases |es|
  {
    var es' := es + [e];
    if es == [] {
      assert es'[1..] == [];
    } else {
      RunThen(Apply(s, es[0]), es[1..], e);
      assert es'[1..] == es[1..] + [e];
    }
  }

  /** The excluded case is reachable: a thread serving a call that its own earlier call led to, and
      calling its own process. */
  lemma SelfCallReachable() returns (es: seq<Event>)
    ensures IsRun(EMPTY, es) && MaySend(After(EMPTY, es), 1)
    ensures TargetThread(After(EMPTY, es), After(EMPTY, es).threads[1].stack, 10, None) == Some(1)
  {
    var idle1, idle2 := Thread(10, None, false, false), Thread(20, None, false, false);
    var busy1, busy2 := idle1.(stack := Some(1)), idle2.(stack := Some(1));
    var call := Txn(Some(1), None, None, None, AtProc(20));
    var served := call.(toThread := Some(2), place := OnStack);
    var back := Txn(Some(2), Some(1), Some(1), None, AtThread(1));
    es := [];
    RunThen(EMPTY, es, Start(1, 10));
    es := es + [Start(1, 10)];
    RunThen(EMPTY, es, Start(2, 20));
    es := es + [Start(2, 20)];
    RunThen(EMPTY, es, SendTo(1, 20));
    es := es + [SendTo(1, 20)];
    assert After(EMPTY, es) == State(map[1 := busy1, 2 := idle2], map[1 := call], 1);
    RunThen(EMPTY, es, Receive(2, 1));
    es := es + [Receive(2, 1)];
    assert After(EMPTY, es) == State(map[1 := busy1, 2 := busy2], map[1 := served], 1);
    RunThen(EMPTY, es, SendTo(2, 10));
    es := es + [SendTo(2, 10)];
    assert After(EMPTY, es) == State(map[1 := busy1, 2 := busy2.(stack := Some(2))], map[1 := served, 2 := back], 2);
    RunThen(EMPTY, es, Receive(1, 2));
    es := es + [Receive(1, 2)];
  }
}
