/** What sending and answering do, told by the positions of transactions in their chains, and that every
    call can be brought to its end. */
module CallSteps {
  import opened SizeMath
  import opened CallChains

  // ---------- the search for a waiting thread ----------

  /** `u` is at or above `t` in its chain and was sent by a live thread of the process. */
  ghost predicate SentFrom(s: State, at: Spots, t: Xid, proc: Pid, u: Xid) {
    && u in s.txns && SameChain(at, t, u) && at[u].pos <= at[t].pos
    && s.txns[u].from.Some? && s.txns[u].from.value in s.threads && s.threads[s.txns[u].from.value].proc == proc
  }

  /** `u` is the outermost of them. */
  ghost predicate Outermost(s: State, at: Spots, t: Xid, proc: Pid, u: Xid) {
    SentFrom(s, at, t, proc, u) && forall v :: SentFrom(s, at, t, proc, v) ==> at[u].pos <= at[v].pos
  }

  /** The thread that a call from below `top` to the process has to go to, if any. */
  ghost predicate IsTarget(s: State, at: Spots, top: Option<Xid>, proc: Pid, target: Option<Tid>) {
    match target
    case None => top.Some? ==> forall u :: !SentFrom(s, at, top.value, proc, u)
    case Some(f) => top.Some? && exists u :: Outermost(s, at, top.value, proc, u) && s.txns[u].from == target
  }

  lemma {:induction false} SearchFrom(s: State, at: Spots, t: Xid, proc: Pid, found: Option<Tid>)
    requires Linked(s, at) && t in s.txns
    ensures var r := TargetThread(s, Some(t), proc, found);
            || (r == found && forall u :: !SentFrom(s, at, t, proc, u))
            || (exists u :: Outermost(s, at, t, proc, u) && s.txns[u].from == r)
    decreases t
  {
    var x, r := s.txns[t], TargetThread(s, Some(t), proc, found);
    assert LinkOk(s, at, t);
    if x.fromParent.None? {
      if SentFrom(s, at, t, proc, t) {
        assert Outermost(s, at, t, proc, t);
      }
    } else {
      var p := x.fromParent.value;
      SearchFrom(s, at, p, proc, if SentFrom(s, at, t, proc, t) then x.from else found);
      assert forall u :: SentFrom(s, at, t, proc, u) <==>
                           SentFrom(s, at, p, proc, u) || (u == t && SentFrom(s, at, t, proc, t));
      if u :| Outermost(s, at, p, proc, u) && s.txns[u].from == r {
        assert Outermost(s, at, t, proc, u);
      } else if SentFrom(s, at, t, proc, t) {
        assert Outermost(s, at, t, proc, t);
      }
    }
  }

  /** The search ends at the outermost caller in the process, and with nothing exactly if there is none. */
  lemma SearchFindsOutermost(s: State, at: Spots, top: Option<Xid>, proc: Pid)
    requires Inv(s, at) && (top.Some? ==> top.value in s.txns)
    ensures IsTarget(s, at, top, proc, TargetThread(s, top, proc, None))
  {
    if top.Some? {
      SearchFrom(s, at, top.value, proc, None);
    }
  }

  lemma OneTarget(s: State, at: Spots, top: Option<Xid>, proc: Pid, f: Option<Tid>, g: Option<Tid>)
    requires Linked(s, at) && IsTarget(s, at, top, proc, f) && IsTarget(s, at, top, proc, g)
    ensures f == g
  {
    if f.Some? && g.Some? {
      var u :| Outermost(s, at, top.value, proc, u) && s.txns[u].from == f;
      var v :| Outermost(s, at, top.value, proc, v) && s.txns[v].from == g;
      assert at[u] == at[v];
    }
  }

  /** A call is queued for the outermost thread of the process that waits in its chain, otherwise for the
      process; it goes on top of the sender's stack, and nothing else changes. */
  lemma SendQueues(s: State, at: Spots, th: Tid, proc: Pid, target: Option<Tid>)
    requires Inv(s, at) && MaySend(s, th) && IsTarget(s, at, s.threads[th].stack, proc, target)
    ensures var t, x := s.lastId + 1, s.threads[th];
            var place := if target.Some? then AtThread(target.value) else AtProc(proc);
            var call := Txn(Some(th), x.stack, target, None, place);
            Send(s, th, proc) == State(s.threads[th := x.(stack := Some(t))], s.txns[t := call], t)
  {
    SearchFindsOutermost(s, at, s.threads[th].stack, proc);
    OneTarget(s, at, s.threads[th].stack, proc, target, TargetThread(s, s.threads[th].stack, proc, None));
  }

  // ---------- replies ----------

  /** A successful reply gives both threads their stacks back and raises no error. */
  lemma ReplyReturns(s: State, at: Spots, th: Tid)
    requires Inv(s, at) && MayReply(s, th) && s.txns[s.threads[th].stack.value].from.Some?
    ensures var t := s.threads[th].stack.value;
            var x, f := s.txns[t], s.txns[t].from.value;
            && f in s.threads && f != th && s.threads[f].stack == Some(t)
            && Reply(s, th, true)
            == s.(threads := s.threads[th := s.threads[th].(stack := x.toParent)]
                                      [f := s.threads[f].(stack := x.fromParent)],
                  txns := s.txns - {t})
  {
    var t := s.threads[th].stack.value;
    ReplyFindsCaller(s, at, th);
    assert EndOk(s, at, t);
    var popped := Reply(s, th, true);
    assert s.txns[t := s.txns[t].(place := Nowhere)] - {t} == s.txns - {t};
  }

  /** A reply that cannot be built fails both threads: the replier hears of it, and so does the caller, who
      is popped all the same and keeps an error it had. */
  lemma ReplyFails(s: State, at: Spots, th: Tid)
    requires Inv(s, at) && MayReply(s, th) && s.txns[s.threads[th].stack.value].from.Some?
    ensures var t := s.threads[th].stack.value;
            var x, f := s.txns[t], s.txns[t].from.value;
            && f in s.threads && f != th && s.threads[f].stack == Some(t)
            && Reply(s, th, false)
            == s.(threads := s.threads[th := s.threads[th].(stack := x.toParent, err := true)]
                                      [f := s.threads[f].(stack := x.fromParent, err := true,
                                                          err2 := s.threads[f].err)],
                  txns := s.txns - {t})
  {
    var t := s.threads[th].stack.value;
    var x, f := s.txns[t], s.txns[t].from;
    ReplyFindsCaller(s, at, th);
    ServedIsTail(s, at, th, t);
    CallerWaits(s, at, t);
    assert EndOk(s, at, t);
    assert s.txns[t := x.(place := Nowhere)] - {t} == s.txns - {t};
  }

  /** The state a reply starts its failure from when nobody waits for it. */
  function Unanswerable(s: State, th: Tid): State
    requires th in s.threads && s.threads[th].stack.Some? && s.threads[th].stack.value in s.txns
  {
    var t := s.threads[th].stack.value;
    s.(threads := s.threads[th := s.threads[th].(stack := s.txns[t].toParent, err := true)],
       txns := s.txns[t := s.txns[t].(place := Nowhere)])
  }

  /** Without a caller the reply fails in any case, and so do the calls around it, up to the first one with
      a live caller. */
  lemma ReplyToNobody(s: State, at: Spots, th: Tid, ok: bool) returns (stop: Xid)
    requires Inv(s, at) && MayReply(s, th) && s.txns[s.threads[th].stack.value].from.None?
    ensures SameChain(at, s.threads[th].stack.value, stop)
    ensures FailedTo(Unanswerable(s, th), at, Reply(s, th, ok), stop)
  {
    hide StacksOk, ParentsOk, EndsOk, ErrorsOk, FailedReply, FailedTo, Tail, LinkOk;
    var t, s1, s2 := s.threads[th].stack.value, Unstack(s, th), Unanswerable(s, th);
    UnstackKeeps(s, at, th);
    ErrorRoom(s, at, th);
    SetErrors(s1, at, th, true, false);
    assert s2 == s1.(threads := s1.threads[th := s1.threads[th].(err := true, err2 := false)]);
    stop := FailedReplyWalk(s2, at, t);
  }

  // ---------- exits ----------

  /** An exiting thread is off every call. The calls it made are without caller, those it was serving are off
      their receiver, and all others are as before. */
  lemma DetachEffect(s: State, th: Tid)
    ensures var s' := Detach(s, th);
            && s'.threads == s.threads - {th} && s'.txns.Keys == s.txns.Keys && s'.lastId == s.lastId
            && forall t :: t in s.txns ==>
                 var x, x' := s.txns[t], s'.txns[t];
                 && x'.fromParent == x.fromParent && x'.toParent == x.toParent
                 && x'.from == (if x.from == Some(th) then None else x.from)
                 && (if x.place == OnStack && x.toThread == Some(th) then x'.toThread == None && x'.place == Nowhere
                     else x'.toThread == x.toThread && x'.place == if x.place == AtThread(th) then Nowhere else x.place)
  {
  }

  /** The call that loses its receiver by the exit gets a failed reply, and nothing else happens. */
  lemma ExitFailsOne(s: State, at: Spots, th: Tid, q: Option<Xid>) returns (stop: Xid)
    requires Inv(s, at) && th in s.threads && Unserved(s, th, q)
    ensures q.None? ==> Exit(s, th, q) == Detach(s, th)
    ensures q.Some? ==> SameChain(at, q.value, stop) && FailedTo(Detach(s, th), at, Exit(s, th, q), stop)
  {
    hide StacksOk, ParentsOk, EndsOk, ErrorsOk, FailedReply, FailedTo, Tail, LinkOk, LosesReceiver, Detach;
    stop := 0;
    if q.Some? {
      UnservedIsTail(s, at, th, q.value);
      DetachLinks(s, at, th);
      DetachEnds(s, at, th);
      DetachStacks(s, at, th);
      DetachParents(s, at, th);
      stop := FailedReplyWalk(Detach(s, th), at, q.value);
    }
  }

  /** A call that is queued for an exiting process fails in the same way. */
  lemma ReleaseFailsOne(s: State, at: Spots, t: Xid) returns (stop: Xid)
    requires Inv(s, at) && t in s.txns && s.txns[t].place.AtProc?
    ensures SameChain(at, t, stop)
    ensures FailedTo(s.(txns := s.txns[t := s.txns[t].(place := Nowhere)]), at, ReleaseQueued(s, t), stop)
  {
    hide FailedReply, FailedTo;
    QueuedIsTail(s, at, t);
    DequeueTxns(s, at, t);
    DequeueStacks(s, at, t);
    stop := FailedReplyWalk(Dequeue(s, t), at, t);
  }

  // ---------- a call and its reply ----------

  /** A call that is sent, read and answered leaves no trace but its number. */
  lemma CallReturns(s: State, at: Spots, th: Tid, proc: Pid, h: Tid)
    requires Inv(s, at) && NoOrphans(s, at) && Enabled(s, SendTo(th, proc))
    requires MayDeliver(Send(s, th, proc), h, s.lastId + 1)
    ensures var s2 := Deliver(Send(s, th, proc), h, s.lastId + 1);
            && MayReply(s2, h) && Reply(s2, h, true) == s.(lastId := s.lastId + 1)
  {
    hide Inv, NoOrphans, Linked;
    var t, at1 := s.lastId + 1, SendSpots(s, at, th);
    SendKeeps(s, at, th, proc);
    var s1 := Send(s, th, proc);
    DeliverKeeps(s1, at1, h, t);
    var s2 := Deliver(s1, h, t);
    ReplyReturns(s2, at1, h);
    SendIsNew(s, at, th);
    var s3 := Reply(s2, h, true);
    assert s3.txns == s.txns;
    assert s3.threads == s.threads;
  }

  // ---------- every call can be brought to its end ----------

  /** What serving threads do: they start, read their errors and their work, and answer. */
  predicate Serves(e: Event) {
    e.Start? || e.ReadErrors? || e.Receive? || (e.ReplyBy? && e.ok)
  }

  ghost predicate AllServe(es: seq<Event>) {
    forall i :: 0 <= i < |es| ==> Serves(es[i])
  }

  lemma {:induction false} RunsJoin(s: State, es: seq<Event>, fs: seq<Event>)
    requires IsRun(s, es) && IsRun(After(s, es), fs)
    ensures IsRun(s, es + fs) && After(s, es + fs) == After(After(s, es), fs)
    decreases |es|
  {
    hide Enabled, Apply;
    if es == [] {
      assert es + fs == fs;
    } else {
      assert (es + fs)[1..] == es[1..] + fs;
      RunsJoin(Apply(s, es[0]), es[1..], fs);
    }
  }

  lemma OneStep(s: State, e: Event)
    requires Enabled(s, e)
    ensures IsRun(s, [e]) && After(s, [e]) == Apply(s, e)
  {
    assert [e][1..] == [];
  }

  lemma {:induction false} UnusedThread(used: set<Tid>) returns (h: Tid)
    ensures forall g :: g in used ==> g < h
    decreases |used|
  {
    if used == {} {
      h := 0;
    } else {
      var g :| g in used;
      var rest := UnusedThread(used - {g});
      h := if g < rest then rest else g + 1;
      assert forall i :: i in used && i != g ==> i in used - {g};
    }
  }

  lemma {:induction false} TailOf(s: State, at: Spots, t: Xid) returns (v: Xid)
    requires Linked(s, at) && t in s.txns
    ensures v in s.txns && SameChain(at, t, v) && Tail(at, v)
    decreases s.lastId - t
  {
    if u :| u in at && at[u].chain == at[t].chain && at[u].pos > at[t].pos {
      var c := HasChild(s, at, t, u);
      assert LinkOk(s, at, c);
      v := TailOf(s, at, c);
    } else {
      v := t;
    }
  }

  /** The same calls with the same callers. */
  ghost predicate SameCalls(s: State, s': State) {
    && s'.txns.Keys == s.txns.Keys
    && forall u :: u in s.txns ==>
         s'.txns[u].from == s.txns[u].from && s'.txns[u].fromParent == s.txns[u].fromParent
  }

  /** A thread without errors is about to answer `v`. */
  ghost predicate Answers(s: State, at: Spots, h: Tid, v: Xid) {
    Inv(s, at) && NoOrphans(s, at) && MayReply(s, h) && s.threads[h].stack == Some(v)
  }

  /** A thread reads the errors it has, if any. */
  lemma Calmed(s: State, at: Spots, h: Tid) returns (es: seq<Event>)
    requires Inv(s, at) && NoOrphans(s, at) && h in s.threads
    ensures IsRun(s, es) && AllServe(es)
    ensures After(s, es) == s.(threads := s.threads[h := s.threads[h].(err := false, err2 := false)])
    ensures Inv(After(s, es), at) && NoOrphans(After(s, es), at)
  {
    es := [ReadErrors(h)];
    OneStep(s, ReadErrors(h));
    SetErrors(s, at, h, false, false);
  }

  lemma ReceiveQueued(s: State, at: Spots, h: Tid, v: Xid) returns (es: seq<Event>)
    requires Inv(s, at) && NoOrphans(s, at) && MayDeliver(s, h, v)
    ensures IsRun(s, es) && AllServe(es) && SameCalls(s, After(s, es)) && Answers(After(s, es), at, h, v)
  {
    es := [Receive(h, v)];
    OneStep(s, Receive(h, v));
    DeliverKeeps(s, at, h, v);
  }

  /** The innermost call of a chain can be brought to the point of being answered: its receiver goes on
      serving it, a thread it is queued for reads it, or a new thread of its process does. */
  lemma InnermostIsServed(s: State, at: Spots, v: Xid) returns (es: seq<Event>, h: Tid)
    requires Inv(s, at) && NoOrphans(s, at) && v in s.txns && Tail(at, v)
    ensures IsRun(s, es) && AllServe(es) && SameCalls(s, After(s, es)) && Answers(After(s, es), at, h, v)
  {
    hide Inv, NoOrphans;
    var before: State;
    if s.txns[v].place.AtProc? {
      var p := s.txns[v].place.proc;
      h := UnusedThread(s.threads.Keys);
      StartKeeps(s, at, h, p);
      es := [Start(h, p)];
      OneStep(s, Start(h, p));
      before := After(s, es);
    } else {
      h := HasReceiver(s, at, v);
      es := Calmed(s, at, h);
      before := After(s, es);
    }
    if s.txns[v].place != OnStack {
      var more := ReceiveQueued(before, at, h, v);
      RunsJoin(s, es, more);
      es := es + more;
    }
  }

  lemma HasReceiver(s: State, at: Spots, v: Xid) returns (h: Tid)
    requires Inv(s, at) && NoOrphans(s, at) && v in s.txns && Tail(at, v) && !s.txns[v].place.AtProc?
    ensures h in s.threads
    ensures s.txns[v].place == AtThread(h) ||
            (s.txns[v].place == OnStack && s.txns[v].toThread == Some(h) && s.threads[h].stack == Some(v))
  {
    assert EndOk(s, at, v);
    if s.txns[v].place.AtThread? {
      h := s.txns[v].place.thread;
    } else {
      assert ParentOk(s, at, v);
      h := s.txns[v].toThread.value;
      assert StackOk(s, at, h) && Involves(s.txns[v], h);
      assert at[s.threads[h].stack.value] == at[v];
    }
  }

  /** What is true of the calls that a run leaves, and of the callers of those it ends. */
  ghost predicate EndsSome(s: State, s': State) {
    && s'.txns.Keys < s.txns.Keys
    && (forall u :: u in s'.txns ==>
          s'.txns[u].from == s.txns[u].from && s'.txns[u].fromParent == s.txns[u].fromParent)
    && (forall u, f :: u in s.txns && u !in s'.txns && s.txns[u].from == Some(f) ==>
          f in s'.threads && s'.threads[f].stack == s.txns[u].fromParent)
  }

  /** Answering the innermost call ends it, and any other call it ends has its caller popped. */
  lemma AnswerEnds(s: State, at: Spots, h: Tid, v: Xid)
    requires Answers(s, at, h, v)
    ensures EndsSome(s, Reply(s, h, true))
  {
    hide StacksOk, ParentsOk, EndsOk, ErrorsOk, Reply;
    var s' := Reply(s, h, true);
    assert v in s.txns;
    if s.txns[v].from.Some? {
      ReplyReturns(s, at, h);
      assert v !in s'.txns;
    } else {
      var stop := ReplyToNobody(s, at, h, true);
      assert stop !in s'.txns;
      forall u, f | u in s.txns && u !in s'.txns && s.txns[u].from == Some(f)
        ensures f in s'.threads && s'.threads[f].stack == s.txns[u].fromParent
      {
        assert at[u] == at[stop];
      }
    }
  }

  lemma ChainShrinks(s: State, at: Spots, t: Xid) returns (es: seq<Event>, at': Spots)
    requires Inv(s, at) && NoOrphans(s, at) && t in s.txns
    ensures IsRun(s, es) && AllServe(es) && EndsSome(s, After(s, es))
    ensures Inv(After(s, es), at') && NoOrphans(After(s, es), at')
  {
    hide Inv, NoOrphans, Reply, IsRun, After, Linked, Tail;
    IsLinked(s, at);
    var v := TailOf(s, at, t);
    var before, h := InnermostIsServed(s, at, v);
    var s1 := After(s, before);
    AnswerEnds(s1, at, h, v);
    ReplyKeeps(s1, at, h, true);
    at' := ReplySpots(s1, at, h, true);
    OneStep(s1, ReplyBy(h, true));
    RunsJoin(s, before, [ReplyBy(h, true)]);
    es := before + [ReplyBy(h, true)];
  }

  /** No call can get stuck: from every state, threads that only serve can bring any call to its end, and
      its caller, if it lives, back to where it was before the call. */
  lemma {:induction false} CallEnds(s: State, at: Spots, t: Xid) returns (es: seq<Event>)
    requires Inv(s, at) && NoOrphans(s, at) && t in s.txns
    ensures IsRun(s, es) && AllServe(es) && t !in After(s, es).txns
    ensures forall f :: s.txns[t].from == Some(f) ==>
              f in After(s, es).threads && After(s, es).threads[f].stack == s.txns[t].fromParent
    decreases |s.txns.Keys|
  {
    hide Inv, NoOrphans, IsRun, After;
    var at';
    es, at' := ChainShrinks(s, at, t);
    var s' := After(s, es);
    if t in s'.txns {
      Fewer(s'.txns.Keys, s.txns.Keys);
      var rest := CallEnds(s', at', t);
      RunsJoin(s, es, rest);
      es := es + rest;
    }
  }

  lemma IsLinked(s: State, at: Spots)
    requires Inv(s, at)
    ensures Linked(s, at)
  {
  }

  lemma Fewer(a: set<Xid>, b: set<Xid>)
    requires a < b
    ensures |a| < |b|
  {
    assert |b - a| + |a| == |b| by { assert b == (b - a) + a; }
    var x :| x in b && x !in a;
    assert x in b - a;
  }

  /** So in every run. */
  lemma EveryCallEnds(es: seq<Event>, t: Xid) returns (more: seq<Event>)
    requires IsRun(EMPTY, es) && t in After(EMPTY, es).txns
    ensures IsRun(EMPTY, es + more) && AllServe(more) && t !in After(EMPTY, es + more).txns
    ensures forall f :: After(EMPTY, es).txns[t].from == Some(f) ==>
              && f in After(EMPTY, es + more).threads
              && After(EMPTY, es + more).threads[f].stack == After(EMPTY, es).txns[t].fromParent
  {
    hide IsRun, After;
    EveryRun(es);
    var at :| Inv(After(EMPTY, es), at) && NoOrphans(After(EMPTY, es), at);
    more := CallEnds(After(EMPTY, es), at, t);
    RunsJoin(EMPTY, es, more);
  }
}
