/** The call operations on mutable driver state, with the driver's own loops: the search for a
    waiting thread, the failed-reply walk and the stack walk of an exiting thread. */
module CallDriver {
  import opened SizeMath
  import opened CallChains
  import opened CallSteps

  // ---------- a thread's stack as a sequence ----------

  /** One step down a thread's stack, as binder_free_thread takes it. */
  function Below(s: State, th: Tid, t: Xid): Option<Xid>
    requires t in s.txns
  {
    if s.txns[t].toThread == Some(th) then s.txns[t].toParent else s.txns[t].fromParent
  }

  ghost function StackOf(s: State, at: Spots, th: Tid, top: Option<Xid>): seq<Xid>
    decreases if top.Some? && top.value in at then at[top.value].pos + 1 else 0
  {
    if top.None? || top.value !in s.txns || top.value !in at then [] else
    var next := Below(s, th, top.value);
    if next.Some? && next.value in at && at[next.value].pos >= at[top.value].pos then [top.value]
    else [top.value] + StackOf(s, at, th, next)
  }

  /** Below the innermost transaction involving a thread comes the next one. */
  lemma BelowIsInnermost(s: State, at: Spots, th: Tid, t: Xid)
    requires Inv(s, at) && t in s.txns && Involves(s.txns[t], th)
    ensures Innermost(s, at, th, Below(s, th, t), at[t].chain, at[t].pos)
  {
    assert LinkOk(s, at, t) && EndOk(s, at, t) && ParentOk(s, at, t);
    if s.txns[t].toThread != Some(th) && s.txns[t].fromParent.Some? {
      var u := s.txns[t].fromParent.value;
      assert Involves(s.txns[u], th) && at[u] == Spot(at[t].chain, at[t].pos - 1);
    }
  }

  /** A thread's stack lists exactly the transactions that involve it, innermost first, all of one
      chain: it is finite and has no cycle. */
  lemma {:induction false} StackIsExact(s: State, at: Spots, th: Tid, top: Option<Xid>, chain: Xid, below: nat)
    requires Inv(s, at) && Innermost(s, at, th, top, chain, below)
    ensures var l := StackOf(s, at, th, top);
            && (forall u :: u in l <==>
                  u in s.txns && at[u].chain == chain && at[u].pos < below && Involves(s.txns[u], th))
            && (forall i, j :: 0 <= i < j < |l| ==> l[i] in at && l[j] in at && at[l[i]].pos > at[l[j]].pos)
    decreases below
  {
    hide StacksOk, ParentsOk, EndsOk, ErrorsOk, LinkOk;
    if top.Some? {
      var t, next := top.value, Below(s, th, top.value);
      BelowIsInnermost(s, at, th, t);
      StackIsExact(s, at, th, next, chain, at[t].pos);
      var l := StackOf(s, at, th, next);
      assert StackOf(s, at, th, top) == [t] + l;
      forall u | u in s.txns && at[u].chain == chain && at[u].pos < below && Involves(s.txns[u], th)
        ensures u in [t] + l
      {
        if at[u].pos == at[t].pos {
          assert at[u] == at[t];
        }
      }
    }
  }

  lemma StackOfThread(s: State, at: Spots, th: Tid)
    requires Inv(s, at) && th in s.threads
    ensures var l := StackOf(s, at, th, s.threads[th].stack);
            && (forall u :: u in l <==> u in s.txns && Involves(s.txns[u], th))
            && (forall i, j :: 0 <= i < j < |l| ==> SameChain(at, l[i], l[j]) && at[l[i]].pos > at[l[j]].pos)
  {
    assert StackOk(s, at, th);
    var top := s.threads[th].stack;
    if top.Some? {
      StackIsExact(s, at, th, top, at[top.value].chain, at[top.value].pos + 1);
    }
  }

  // ---------- the driver ----------

  /** The loop of binder_transaction that looks for a thread already waiting in the chain. */
  method FindTarget(s: State, ghost at: Spots, top: Option<Xid>, proc: Pid) returns (target: Option<Tid>)
    requires Inv(s, at) && (top.Some? ==> top.value in s.txns)
    ensures target == TargetThread(s, top, proc, None) && IsTarget(s, at, top, proc, target)
  {
    SearchFindsOutermost(s, at, top, proc);
    var tmp := top;
    target := None;
    while tmp.Some?
      invariant tmp.Some? ==> tmp.value in s.txns
      invariant TargetThread(s, tmp, proc, target) == TargetThread(s, top, proc, None)
      decreases if tmp.Some? then tmp.value + 1 else 0
    {
      assert LinkOk(s, at, tmp.value) && EndOk(s, at, tmp.value);
      var x := s.txns[tmp.value];
      if x.from.Some? && s.threads[x.from.value].proc == proc {
        target := x.from;
      }
      tmp := x.fromParent;
    }
  }

  class Driver {
    var threads: map<Tid, Thread>
    var txns: map<Xid, Txn>
    var lastId: nat
    ghost var at: Spots

    function Now(): State
      reads this
    {
      State(threads, txns, lastId)
    }

    ghost predicate Valid()
      reads this
    {
      Inv(Now(), at) && NoOrphans(Now(), at)
    }

    constructor ()
      ensures Valid() && Now() == EMPTY
    {
      threads, txns, lastId, at := map[], map[], 0, map[];
    }

    /** BC_TRANSACTION, synchronous. */
    method SendCall(th: Tid, proc: Pid)
      requires Valid() && Enabled(Now(), SendTo(th, proc))
      modifies this
      ensures Valid() && Now() == Send(old(Now()), th, proc)
      ensures var t, stack := old(lastId) + 1, old(threads)[th].stack;
              exists target :: IsTarget(old(Now()), old(at), stack, proc, target)
                && var place := if target.Some? then AtThread(target.value) else AtProc(proc);
                   txns == old(txns)[t := Txn(Some(th), stack, target, None, place)] && lastId == t
                   && threads == old(threads)[th := old(threads)[th].(stack := Some(t))]
    {
      hide Inv, NoOrphans, IsTarget;
      SendKeeps(Now(), at, th, proc);
      StackInTxns(Now(), at, th);
      var stack := threads[th].stack;
      var target := FindTarget(Now(), at, stack, proc);
      ghost var at' := SendSpots(Now(), at, th);
      var t := lastId + 1;
      var place := if target.Some? then AtThread(target.value) else AtProc(proc);
      txns := txns[t := Txn(Some(th), stack, target, None, place)];
      threads := threads[th := threads[th].(stack := Some(t))];
      lastId := t;
      at := at';
    }

    /** The delivery of BR_TRANSACTION. */
    method ReadCall(th: Tid, t: Xid)
      requires Valid() && MayDeliver(Now(), th, t)
      modifies this
      ensures Valid() && Now() == Deliver(old(Now()), th, t)
    {
      hide Inv, NoOrphans;
      DeliverKeeps(Now(), at, th, t);
      txns := txns[t := txns[t].(toParent := threads[th].stack, toThread := Some(th), place := OnStack)];
      threads := threads[th := threads[th].(stack := Some(t))];
    }

    /** binder_send_failed_reply, from an innermost transaction that is off its receiver. */
    method SendFailedReply(t0: Xid)
      requires Inv(Now(), at) && t0 in txns && Tail(at, t0) && txns[t0].place == Nowhere
      modifies this`threads, this`txns
      ensures Now() == FailedReply(old(Now()), t0)
    {
      ghost var spots := at;
      var t := t0;
      while true
        invariant Inv(Now(), spots) && t in txns && Tail(spots, t) && txns[t].place == Nowhere
        invariant FailedReply(Now(), t) == FailedReply(old(Now()), t0)
        decreases t
      {
        hide StacksOk, ParentsOk, EndsOk, ErrorsOk, LinkOk, Tail;
        var x := txns[t];
        if x.from.Some? {
          CallerWaits(Now(), spots, t);
          var f := x.from.value;
          assert threads[f].stack == Some(t) && !(threads[f].err && threads[f].err2);
          threads := threads[f := threads[f].(stack := x.fromParent, err := true, err2 := threads[f].err)];
          txns := txns - {t};
          return;
        }
        PopKeeps(Now(), spots, t);
        FailedReplyStep(Now(), t);
        if x.fromParent.None? {
          txns := txns - {t};
          return;
        }
        ParentIsTail(Now(), spots, t, x.fromParent.value);
        spots := spots - {t};
        txns := txns - {t};
        t := x.fromParent.value;
      }
    }

    /** BC_REPLY: the caller's stack top is always the answered transaction. */
    method ReplyCall(th: Tid, ok: bool)
      requires Valid() && MayReply(Now(), th)
      modifies this
      ensures Valid() && Now() == Reply(old(Now()), th, ok)
      ensures var t := old(threads)[th].stack.value;
              var x := old(txns)[t];
              match x.from
              case Some(f) =>
                && f in old(threads) && txns == old(txns) - {t}
                && threads == (if ok
                               then old(threads)[th := old(threads)[th].(stack := x.toParent)]
                                                [f := old(threads)[f].(stack := x.fromParent)]
                               else old(threads)[th := old(threads)[th].(stack := x.toParent, err := true)]
                                                [f := old(threads)[f].(stack := x.fromParent, err := true,
                                                                       err2 := old(threads)[f].err)])
              case None => exists stop :: FailedTo(Unanswerable(old(Now()), th), old(at), Now(), stop)
    {
      hide Inv, NoOrphans, FailedReply, Tail, FailedTo;
      ghost var before, spots := Now(), at;
      ReplyEffect(before, spots, th, ok);
      ReplyKeeps(before, spots, th, ok);
      UnstackKeeps(before, spots, th);
      ErrorRoom(before, spots, th);
      var t := threads[th].stack.value;
      var x := txns[t];
      threads := threads[th := threads[th].(stack := x.toParent)];
      txns := txns[t := x.(place := Nowhere)];
      if ok && x.from.Some? {
        var f := x.from.value;
        CallerWaits(Now(), at, t);
        assert threads[f].stack == Some(t);
        threads := threads[f := threads[f].(stack := x.fromParent)];
        txns := txns - {t};
      } else {
        SetErrors(Now(), at, th, true, false);
        threads := threads[th := threads[th].(err := true)];
        ghost var left := Unstack(before, th);
        assert Now() == left.(threads := left.threads[th := left.threads[th].(err := true, err2 := false)]);
        SendFailedReply(t);
      }
      at := ReplySpots(before, spots, th, ok);
    }

    /** The stack walk of binder_free_thread: visits exactly the transactions that involve the thread
        and takes it off both ends; the check that each of them does involve it never fails. */
    method WalkStack(th: Tid) returns (active: nat)
      requires Inv(Now(), at) && th in threads
      modifies this`txns
      ensures txns == map u | u in old(txns) :: OffStack(old(txns)[u], th)
      ensures active == |StackOf(old(Now()), at, th, old(threads[th].stack))|
    {
      hide StacksOk, ParentsOk, EndsOk, ErrorsOk, LinkOk, Involves;
      ghost var s0 := Now();
      var t := threads[th].stack;
      active := 0;
      ghost var chain, below := WalkStarts(s0, at, th);
      while t.Some?
        invariant Innermost(s0, at, th, t, chain, below) && txns.Keys == s0.txns.Keys
        invariant forall u :: u in s0.txns && Involves(s0.txns[u], th) ==> at[u].chain == chain
        invariant forall u :: u in s0.txns ==>
                    txns[u] == if Involves(s0.txns[u], th) && at[u].pos >= below then OffStack(s0.txns[u], th)
                        else s0.txns[u]
        invariant active + |StackOf(s0, at, th, t)| == |StackOf(s0, at, th, s0.threads[th].stack)|
        decreases below
      {
        WalkStep(s0, at, th, t.value);
        var x := txns[t.value];
        if x.toThread == Some(th) {
          txns := txns[t.value := x.(toThread := None, place := Nowhere)];
        } else {
          assert x.from == Some(th);
          txns := txns[t.value := x.(from := None)];
        }
        chain, below := at[t.value].chain, at[t.value].pos;
        t := if x.toThread == Some(th) then x.toParent else x.fromParent;
        active := active + 1;
      }
      forall u | u in s0.txns
        ensures txns[u] == OffStack(s0.txns[u], th)
      {
        NotInvolved(s0.txns[u], th);
      }
    }

    /** binder_free_thread: the call the thread was serving, or the one queued for it, fails; no
        transaction mentions the thread afterwards. */
    method FreeThread(th: Tid) returns (active: nat, ghost q: Option<Xid>)
      requires Valid() && th in threads
      modifies this
      ensures Valid() && Unserved(old(Now()), th, q) && Now() == Exit(old(Now()), th, q)
      ensures active == |StackOf(old(Now()), old(at), th, old(threads[th].stack))|
      ensures th !in threads && forall t :: t in txns ==> !Mentions(txns[t], th)
    {
      hide Inv, NoOrphans, FailedReply, Tail, StackOf;
      ghost var s0, spots := Now(), at;
      var top := threads[th].stack;
      StackInTxns(s0, spots, th);
      var sendReply := if top.Some? && txns[top.value].toThread == Some(th) then top else None;
      active := WalkStack(th);
      threads := threads - {th};
      if sendReply.Some? {
        q := sendReply;
        NoneQueued(s0, spots, th, q.value);
        assert Now() == Detach(s0, th);
        ExitReady(s0, spots, th, q.value);
        SendFailedReply(sendReply.value);
      } else if t :| t in txns && txns[t].place == AtThread(th) {
        q := Some(t);
        OnlyQueued(s0, spots, th, t);
        txns := txns[t := txns[t].(place := Nowhere)];
        assert Now() == Detach(s0, th);
        ExitReady(s0, spots, th, t);
        SendFailedReply(t);
      } else {
        q := None;
        forall t | t in s0.txns
          ensures !LosesReceiver(s0, th, t)
        {
          assert txns[t].place != AtThread(th);
        }
        assert Now() == Detach(s0, th);
      }
      ExitKeeps(s0, spots, th, q);
      at := Restrict(spots, Exit(s0, th, q));
      if q.Some? {
        FailedReplyThreads(Detach(s0, th), q.value);
      }
      GoneThread(Now(), at, th);
    }
  }

  /** The three ends of a reply. */
  lemma ReplyEffect(s: State, at: Spots, th: Tid, ok: bool)
    requires Inv(s, at) && MayReply(s, th)
    ensures var t, s' := s.threads[th].stack.value, Reply(s, th, ok);
            var x := s.txns[t];
            match x.from
            case Some(f) =>
              && f in s.threads && s'.txns == s.txns - {t}
              && s'.threads == (if ok
                                then s.threads[th := s.threads[th].(stack := x.toParent)]
                                              [f := s.threads[f].(stack := x.fromParent)]
                                else s.threads[th := s.threads[th].(stack := x.toParent, err := true)]
                                              [f := s.threads[f].(stack := x.fromParent, err := true,
                                                                  err2 := s.threads[f].err)])
            case None => exists stop :: FailedTo(Unanswerable(s, th), at, s', stop)
  {
    hide Inv, Reply, FailedTo;
    var t := s.threads[th].stack.value;
    if s.txns[t].from.Some? {
      if ok { ReplyReturns(s, at, th); } else { ReplyFails(s, at, th); }
    } else {
      var stop := ReplyToNobody(s, at, th, ok);
    }
  }

  /** Where the walk unlinks a transaction from its buffer, the transaction is not queued. */
  lemma UnlinkedIsServed(s: State, at: Spots, th: Tid, t: Xid)
    requires Inv(s, at) && t in s.txns && Involves(s.txns[t], th) && s.txns[t].toThread == Some(th)
    ensures s.txns[t].place == OnStack
  {
    assert EndOk(s, at, t);
  }

  /** After a send the walk of the sender would unlink the call while it is queued exactly if the search
      for a waiting thread ended at the sender. */
  lemma QueuedIsUnlinkedExactly(s: State, th: Tid, proc: Pid)
    requires MaySend(s, th)
    ensures var s' := Send(s, th, proc);
            var top := s'.threads[th].stack;
            && top.Some? && top.value in s'.txns && Involves(s'.txns[top.value], th)
            && (s'.txns[top.value].toThread == Some(th) && s'.txns[top.value].place != OnStack
                <==> TargetThread(s, s.threads[th].stack, proc, None) == Some(th))
            && (s'.txns[top.value].toThread == Some(th) ==>
                  s'.txns[top.value].place == AtThread(th) && s'.txns[top.value].toParent == None)
  {
  }

  predicate Mentions(x: Txn, th: Tid) {
    x.from == Some(th) || x.toThread == Some(th) || x.place == AtThread(th)
  }

  lemma StackInTxns(s: State, at: Spots, th: Tid)
    requires Inv(s, at) && th in s.threads
    ensures s.threads[th].stack.Some? ==> s.threads[th].stack.value in s.txns
  {
    assert StackOk(s, at, th);
  }

  lemma {:induction false} FailedReplyThreads(s: State, t: Xid)
    requires t in s.txns
    ensures FailedReply(s, t).threads.Keys == s.threads.Keys
    decreases t
  {
    var x, s' := s.txns[t], Pop(s, t);
    if !(x.from.Some? && x.from.value in s.threads)
       && x.fromParent.Some? && x.fromParent.value < t && x.fromParent.value in s'.txns {
      FailedReplyThreads(s', x.fromParent.value);
    }
  }

  /** While a thread serves a call nothing else is queued for it. */
  lemma NoneQueued(s: State, at: Spots, th: Tid, t: Xid)
    requires Inv(s, at) && th in s.threads && t in s.txns && s.threads[th].stack == Some(t)
    requires s.txns[t].toThread == Some(th)
    ensures forall u :: u in s.txns ==> s.txns[u].place != AtThread(th)
  {
    ServedIsTail(s, at, th, t);
    forall u | u in s.txns
      ensures s.txns[u].place != AtThread(th)
    {
      if s.txns[u].place == AtThread(th) {
        UnservedIsTail(s, at, th, u);
        UnservedIsTail(s, at, th, t);
      }
    }
  }

  /** At most one call is queued for a thread. */
  lemma OnlyQueued(s: State, at: Spots, th: Tid, t: Xid)
    requires Inv(s, at) && th in s.threads && t in s.txns && s.txns[t].place == AtThread(th)
    ensures forall u :: u in s.txns && s.txns[u].place == AtThread(th) ==> u == t
  {
    forall u | u in s.txns && s.txns[u].place == AtThread(th)
      ensures u == t
    {
      UnservedIsTail(s, at, th, u);
      UnservedIsTail(s, at, th, t);
      assert at[u] == at[t];
    }
  }

  lemma ExitReady(s: State, at: Spots, th: Tid, t: Xid)
    requires Inv(s, at) && th in s.threads && t in s.txns && LosesReceiver(s, th, t)
    ensures Inv(Detach(s, th), at) && Tail(at, t) && Detach(s, th).txns[t].place == Nowhere
  {
    UnservedIsTail(s, at, th, t);
    DetachLinks(s, at, th);
    DetachEnds(s, at, th);
    DetachStacks(s, at, th);
    DetachParents(s, at, th);
  }

  lemma GoneThread(s: State, at: Spots, th: Tid)
    requires Inv(s, at) && NoOrphans(s, at) && th !in s.threads
    ensures forall t :: t in s.txns ==> !Mentions(s.txns[t], th)
  {
    forall t | t in s.txns
      ensures !Mentions(s.txns[t], th)
    {
      assert EndOk(s, at, t);
      if s.txns[t].place == Nowhere {
        StaleIsGone(s, at, t);
      }
    }
  }

  /** Between steps a transaction that is off its receiver has no receiver recorded. */
  lemma StaleIsGone(s: State, at: Spots, t: Xid)
    requires Inv(s, at) && NoOrphans(s, at) && t in s.txns && s.txns[t].place == Nowhere
    ensures s.txns[t].toThread.None?
  {
    if s.txns[t].toThread.Some? {
      forall c | c in s.txns && s.txns[c].fromParent == Some(t)
        ensures !LinkOk(s, at, c)
      {
      }
      IsTail(s, at, t);
    }
  }

  lemma WalkStarts(s: State, at: Spots, th: Tid) returns (chain: Xid, below: nat)
    requires Inv(s, at) && th in s.threads
    ensures Innermost(s, at, th, s.threads[th].stack, chain, below)
    ensures forall u :: u in s.txns && Involves(s.txns[u], th) ==> at[u].chain == chain && at[u].pos < below
  {
    assert StackOk(s, at, th);
    chain, below := 0, 0;
    if s.threads[th].stack.Some? {
      var t := s.threads[th].stack.value;
      chain, below := at[t].chain, at[t].pos + 1;
    }
  }

  lemma WalkStep(s: State, at: Spots, th: Tid, t: Xid)
    requires Inv(s, at) && t in s.txns && Involves(s.txns[t], th)
    ensures Innermost(s, at, th, Below(s, th, t), at[t].chain, at[t].pos)
    ensures s.txns[t].toThread == Some(th) <==> s.txns[t].from != Some(th)
    ensures OffStack(s.txns[t], th) == if s.txns[t].toThread == Some(th)
        then s.txns[t].(toThread := None, place := Nowhere)
                                       else s.txns[t].(from := None)
    ensures |StackOf(s, at, th, Some(t))| == 1 + |StackOf(s, at, th, Below(s, th, t))|
    ensures forall u :: u in s.txns && at[u].chain == at[t].chain && at[u].pos == at[t].pos ==> u == t
  {
    BelowIsInnermost(s, at, th, t);
    assert EndOk(s, at, t);
    assert forall u :: u in s.txns && at[u].chain == at[t].chain && at[u].pos == at[t].pos ==> at[u] == at[t];
  }

  lemma NotInvolved(x: Txn, th: Tid)
    ensures !Involves(x, th) ==> OffStack(x, th) == x
  {
  }
}
