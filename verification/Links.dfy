/** The two links between transactions and buffers: a transaction waiting in a work list always has its
    buffer, and a buffer is freed only when no transaction points to it. */
module Links {
  import opened SizeMath

  type Xid = nat
  type Bid = nat
  type Pid = nat

  /** `queued` says that the transaction is in a work list of the process its buffer belongs to. */
  datatype Txn = Txn(buffer: Option<Bid>, queued: bool)

  datatype Buffer = Buffer(proc: Pid, txn: Option<Xid>, userFree: bool)

  datatype State = State(txns: map<Xid, Txn>, bufs: map<Bid, Buffer>)

  // ---------- the steps ----------

  /** A transaction is queued with the buffer allocated for it. */
  function Send(s: State, t: Xid, b: Bid, p: Pid): State {
    State(s.txns[t := Txn(Some(b), true)], s.bufs[b := Buffer(p, Some(t), false)])
  }

  /** Both links go; without a buffer nothing happens. */
  function Unlink(s: State, t: Xid): State
    requires t in s.txns
  {
    match s.txns[t].buffer
    case None => s
    case Some(b) =>
      State(s.txns[t := s.txns[t].(buffer := None)], if b in s.bufs then s.bufs[b := s.bufs[b].(txn := None)]
          else s.bufs)
  }

  /** A transaction is freed: answered, failed, thrown away, or one-way or a reply and read. */
  function Drop(s: State, t: Xid): State
    requires t in s.txns
  {
    var u := Unlink(s, t);
    u.(txns := u.txns - {t})
  }

  /** Reading lets the receiver free the buffer; only a synchronous call outlives it. */
  function Read(s: State, t: Xid, sync: bool): State
    requires t in s.txns && s.txns[t].buffer.Some? && s.txns[t].buffer.value in s.bufs
  {
    var b := s.txns[t].buffer.value;
    var s1 := State(s.txns[t := s.txns[t].(queued := false)], s.bufs[b := s.bufs[b].(userFree := true)]);
    if sync then s1 else Drop(s1, t)
  }

  /** BC_FREE_BUFFER. */
  function UserFree(s: State, b: Bid): State
    requires b in s.bufs && (s.bufs[b].txn.Some? ==> s.bufs[b].txn.value in s.txns)
  {
    var s1 := if s.bufs[b].txn.Some? then Unlink(s, s.bufs[b].txn.value) else s;
    s1.(bufs := s1.bufs - {b})
  }

  predicate In(s: State, t: Xid, p: Pid)
    requires t in s.txns
  {
    s.txns[t].buffer.Some? && s.txns[t].buffer.value in s.bufs && s.bufs[s.txns[t].buffer.value].proc == p
  }

  /** binder_deferred_release: work lists first, buffers last. */
  function Exit(s: State, p: Pid): State {
    State(map t | t in s.txns && !(s.txns[t].queued && In(s, t, p)) ::
            if In(s, t, p) then s.txns[t].(buffer := None) else s.txns[t],
          map b | b in s.bufs && s.bufs[b].proc != p :: s.bufs[b])
  }

  // ---------- the invariant ----------

  predicate TxnOk(s: State, t: Xid)
    requires t in s.txns
  {
    var x := s.txns[t];
    && (x.buffer.Some? ==> x.buffer.value in s.bufs && s.bufs[x.buffer.value].txn == Some(t))
    && (x.queued ==> x.buffer.Some? && !s.bufs[x.buffer.value].userFree)
  }

  predicate BufOk(s: State, b: Bid)
    requires b in s.bufs
  {
    s.bufs[b].txn.Some? ==> s.bufs[b].txn.value in s.txns && s.txns[s.bufs[b].txn.value].buffer == Some(b)
  }

  ghost predicate Inv(s: State) {
    && (forall t {:trigger TxnOk(s, t)} :: t in s.txns ==> TxnOk(s, t))
    && (forall b {:trigger BufOk(s, b)} :: b in s.bufs ==> BufOk(s, b))
  }

  /** Unlinking a call that an exiting thread has on its stack is harmless exactly if the call is no longer
      queued. */
  lemma UnlinkKeeps(s: State, t: Xid)
    requires Inv(s) && t in s.txns
    ensures Inv(Unlink(s, t)) <==> !s.txns[t].queued
  {
    var s' := Unlink(s, t);
    assert TxnOk(s, t);
    if s.txns[t].queued {
      assert !TxnOk(s', t);
      return;
    }
    forall u | u in s'.txns
      ensures TxnOk(s', u)
    {
      assert TxnOk(s, u);
    }
    forall b | b in s'.bufs
      ensures BufOk(s', b)
    {
      assert BufOk(s, b);
    }
  }

  lemma DropKeeps(s: State, t: Xid)
    requires Inv(s) && t in s.txns
    ensures Inv(Drop(s, t))
  {
    var s' := Drop(s, t);
    assert TxnOk(s, t);
    forall u | u in s'.txns
      ensures TxnOk(s', u)
    {
      assert TxnOk(s, u);
    }
    forall b | b in s'.bufs
      ensures BufOk(s', b)
    {
      assert BufOk(s, b);
    }
  }

  lemma ReadKeeps(s: State, t: Xid, sync: bool)
    requires Inv(s) && t in s.txns && s.txns[t].queued
    ensures s.txns[t].buffer.Some? && s.txns[t].buffer.value in s.bufs && Inv(Read(s, t, sync))
  {
    assert TxnOk(s, t);
    var s1 := Read(s, t, true);
    forall u | u in s1.txns
      ensures TxnOk(s1, u)
    {
      assert TxnOk(s, u);
    }
    forall b | b in s1.bufs
      ensures BufOk(s1, b)
    {
      assert BufOk(s, b);
    }
    if !sync { DropKeeps(s1, t); }
  }

  lemma UserFreeKeeps(s: State, b: Bid)
    requires Inv(s) && b in s.bufs && s.bufs[b].userFree
    ensures s.bufs[b].txn.Some? ==> s.bufs[b].txn.value in s.txns
    ensures Inv(UserFree(s, b)) && UserFree(s, b).txns.Keys == s.txns.Keys
  {
    assert BufOk(s, b);
    if s.bufs[b].txn.Some? { assert TxnOk(s, s.bufs[b].txn.value); }
    var s' := UserFree(s, b);
    forall t | t in s'.txns
      ensures TxnOk(s', t)
    {
      assert TxnOk(s, t);
    }
    forall c | c in s'.bufs
      ensures BufOk(s', c)
    {
      assert BufOk(s, c);
    }
  }

  lemma ExitKeeps(s: State, p: Pid)
    requires Inv(s)
    ensures Inv(Exit(s, p))
  {
    var s' := Exit(s, p);
    forall t | t in s'.txns
      ensures TxnOk(s', t)
    {
      assert TxnOk(s, t);
    }
    forall b | b in s'.bufs
      ensures BufOk(s', b)
    {
      assert BufOk(s, b);
    }
  }

  lemma SendKeeps(s: State, t: Xid, b: Bid, p: Pid)
    requires Inv(s) && t !in s.txns && b !in s.bufs
    ensures Inv(Send(s, t, b, p))
  {
    var s' := Send(s, t, b, p);
    forall u | u in s'.txns
      ensures TxnOk(s', u)
    {
      assert u in s.txns ==> TxnOk(s, u);
    }
    forall c | c in s'.bufs
      ensures BufOk(s', c)
    {
      assert c in s.bufs ==> BufOk(s, c);
    }
  }

  // ---------- whole runs ----------

  /** A transaction can be dropped from a work list or from a stack; a thread that exits unlinks the calls
      it was serving. Those are not queued, unless the thread itself was found as the receiver of its own
      call; as in `CallChains`, such sends are not part of the runs. */
  datatype Event =
    | Sends(t: Xid, b: Bid, p: Pid)
    | Reads(t: Xid, sync: bool)
    | Drops(t: Xid)
    | Unlinks(t: Xid)
    | UserFrees(b: Bid)
    | Exits(p: Pid)

  predicate Enabled(s: State, e: Event) {
    match e
    case Sends(t, b, _) => t !in s.txns && b !in s.bufs
    case Reads(t, _) => t in s.txns && s.txns[t].queued
    case Drops(t) => t in s.txns
    case Unlinks(t) => t in s.txns && !s.txns[t].queued
    case UserFrees(b) => b in s.bufs && s.bufs[b].userFree
    case Exits(_) => true
  }

  /** A dangling link would stop an event; `StepKeeps` shows that there is none. */
  function Apply(s: State, e: Event): State
    requires Enabled(s, e)
  {
    match e
    case Sends(t, b, p) => Send(s, t, b, p)
    case Reads(t, sync) => if s.txns[t].buffer.Some? && s.txns[t].buffer.value in s.bufs then Read(s, t, sync) else s
    case Drops(t) => Drop(s, t)
    case Unlinks(t) => Unlink(s, t)
    case UserFrees(b) => if s.bufs[b].txn.Some? && s.bufs[b].txn.value !in s.txns then s else UserFree(s, b)
    case Exits(p) => Exit(s, p)
  }

  lemma StepKeeps(s: State, e: Event)
    requires Inv(s) && Enabled(s, e)
    ensures Inv(Apply(s, e))
  {
    match e
    case Sends(t, b, p) => SendKeeps(s, t, b, p);
    case Reads(t, sync) => ReadKeeps(s, t, sync);
    case Drops(t) => DropKeeps(s, t);
    case Unlinks(t) => UnlinkKeeps(s, t);
    case UserFrees(b) => UserFreeKeeps(s, b);
    case Exits(p) => ExitKeeps(s, p);
  }

  ghost predicate IsRun(s: State, es: seq<Event>)
    decreases |es|
  {
    es == [] || (Enabled(s, es[0]) && IsRun(Apply(s, es[0]), es[1..]))
  }

  ghost function After(s: State, es: seq<Event>): State
    requires IsRun(s, es)
    decreases |es|
  {
    if es == [] then s else After(Apply(s, es[0]), es[1..])
  }

  lemma {:induction false} RunsKeep(s: State, es: seq<Event>)
    requires Inv(s) && IsRun(s, es)
    ensures Inv(After(s, es))
    decreases |es|
  {
    hide Inv, Enabled, Apply;
    if es != [] {
      StepKeeps(s, es[0]);
      RunsKeep(Apply(s, es[0]), es[1..]);
    }
  }

  /** In every run: a transaction in a work list has a buffer, which its receiver cannot free, and the links
      lead back and forth. */
  lemma EveryRun(es: seq<Event>, t: Xid)
    requires IsRun(State(map[], map[]), es) && t in After(State(map[], map[]), es).txns
    ensures var s := After(State(map[], map[]), es);
            var x := s.txns[t];
            && (x.buffer.Some? ==> x.buffer.value in s.bufs && s.bufs[x.buffer.value].txn == Some(t))
            && (x.queued ==> x.buffer.Some? && !s.bufs[x.buffer.value].userFree)
  {
    var start := State(map[], map[]);
    RunsKeep(start, es);
    assert TxnOk(After(start, es), t);
  }

  // ---------- who can free a buffer ----------

  /** A read buffer can be freed by its receiver, who can then no longer reach it through the call. */
  lemma ReadThenFree(s: State, t: Xid, sync: bool)
    requires Inv(s) && t in s.txns && s.txns[t].queued
    ensures s.txns[t].buffer.Some? && s.txns[t].buffer.value in s.bufs
    ensures var b, s1 := s.txns[t].buffer.value, Apply(s, Reads(t, sync));
            && Enabled(s1, UserFrees(b)) && s1.bufs[b].proc == s.bufs[b].proc
            && (if sync then t in s1.txns && !s1.txns[t].queued && s1.txns[t].buffer == Some(b) else t !in s1.txns)
            && var s2 := Apply(s1, UserFrees(b));
               && s2.bufs == s.bufs - {b}
               && s2.txns == if sync then s.txns[t := Txn(None, false)] else s.txns - {t}
  {
    ReadKeeps(s, t, sync);
    var b, s1 := s.txns[t].buffer.value, Apply(s, Reads(t, sync));
    assert TxnOk(s, t);
    UserFreeKeeps(s1, b);
    var s2 := Apply(s1, UserFrees(b));
    assert s2.bufs == s.bufs - {b};
    if sync {
      assert s2.txns == s.txns[t := Txn(None, false)];
    } else {
      assert s2.txns == s.txns - {t};
    }
  }

  /** A call that is sent can be read, and its buffer is then the receiver's to free. */
  lemma SendThenRead(s: State, t: Xid, b: Bid, p: Pid)
    requires Inv(s) && Enabled(s, Sends(t, b, p))
    ensures var s1 := Apply(s, Sends(t, b, p));
            && Enabled(s1, Reads(t, true)) && !Enabled(s1, UserFrees(b)) && s1.bufs[b].proc == p
            && s1.bufs - {b} == s.bufs && s1.txns - {t} == s.txns
            && var s2 := Apply(s1, Reads(t, true));
               && Enabled(s2, UserFrees(b)) && Apply(s2, UserFrees(b)) == State(s.txns[t := Txn(None, false)], s.bufs)
  {
    var s1 := Apply(s, Sends(t, b, p));
    SendKeeps(s, t, b, p);
    ReadThenFree(s1, t, true);
    assert s1.bufs - {b} == s.bufs;
  }

  /** Dropping a call cuts its buffer loose, and unlinking it keeps the call; nobody else is affected. */
  lemma DropEffect(s: State, t: Xid)
    requires Inv(s) && t in s.txns
    ensures Apply(s, Drops(t)).txns == s.txns - {t}
    ensures match s.txns[t].buffer
            case None =>
              Apply(s, Drops(t)).bufs == s.bufs && (!s.txns[t].queued ==> Apply(s, Unlinks(t)) == s)
            case Some(b) =>
              && b in s.bufs
              && var bufs := s.bufs[b := s.bufs[b].(txn := None)];
                 && Apply(s, Drops(t)).bufs == bufs
                 && var cut := State(s.txns[t := s.txns[t].(buffer := None)], bufs);
                    !s.txns[t].queued ==> Apply(s, Unlinks(t)) == cut
  {
    assert TxnOk(s, t);
  }

  /** The receiver may free the buffer, or is still to read the call it carries. */
  predicate InReach(s: State, b: Bid)
    requires b in s.bufs
  {
    || s.bufs[b].userFree
    || (s.bufs[b].txn.Some? && s.bufs[b].txn.value in s.txns && s.txns[s.bufs[b].txn.value].queued)
  }

  ghost predicate Frees(s: State, es: seq<Event>, b: Bid) {
    IsRun(s, es) && (forall i :: 0 <= i < |es| ==> !es[i].Exits?) && b !in After(s, es).bufs
  }

  lemma OutOfReachStays(s: State, e: Event, b: Bid)
    requires Inv(s) && Enabled(s, e) && !e.Exits? && b in s.bufs && !InReach(s, b)
    ensures b in Apply(s, e).bufs && !InReach(Apply(s, e), b)
  {
    assert BufOk(s, b);
    match e
    case Reads(t, _) => assert TxnOk(s, t);
    case Drops(t) => assert TxnOk(s, t);
    case Unlinks(t) => assert TxnOk(s, t);
    case UserFrees(c) => assert BufOk(s, c);
    case _ =>
  }

  lemma {:induction false} OutOfReachForGood(s: State, es: seq<Event>, b: Bid)
    requires Inv(s) && IsRun(s, es) && b in s.bufs && !InReach(s, b)
    requires forall i :: 0 <= i < |es| ==> !es[i].Exits?
    ensures b in After(s, es).bufs
    decreases |es|
  {
    hide Inv, Enabled, Apply, InReach;
    if es != [] {
      OutOfReachStays(s, es[0], b);
      StepKeeps(s, es[0]);
      OutOfReachForGood(Apply(s, es[0]), es[1..], b);
    }
  }

  lemma FreesAtOnce(s: State, b: Bid)
    requires Enabled(s, UserFrees(b)) && b !in Apply(s, UserFrees(b)).bufs
    ensures Frees(s, [UserFrees(b)], b)
  {
    var es := [UserFrees(b)];
    assert es[1..] == [];
    assert IsRun(Apply(s, es[0]), es[1..]) && After(Apply(s, es[0]), es[1..]) == Apply(s, es[0]);
  }

  /** While its process lives, a buffer can be freed exactly if it is in reach of its receiver. */
  lemma FreeableExactly(s: State, b: Bid)
    requires Inv(s) && b in s.bufs
    ensures (exists es :: Frees(s, es, b)) <==> InReach(s, b)
  {
    if !InReach(s, b) {
      forall es | Frees(s, es, b)
        ensures false
      {
        OutOfReachForGood(s, es, b);
      }
    } else if s.bufs[b].userFree {
      UserFreeKeeps(s, b);
      FreesAtOnce(s, b);
    } else {
      var t := s.bufs[b].txn.value;
      assert BufOk(s, b);
      ReadThenFree(s, t, true);
      FreesAtOnce(Apply(s, Reads(t, true)), b);
      var es := [Reads(t, true), UserFrees(b)];
      assert es[1..] == [UserFrees(b)];
      assert Frees(s, es, b);
    }
  }

  /** A buffer stays in reach unless the call that it carries is dropped while it is in a work list. */
  lemma StaysInReach(s: State, e: Event, b: Bid)
    requires Inv(s) && Enabled(s, e) && b in s.bufs && InReach(s, b) && b in Apply(s, e).bufs
    requires !(e.Drops? && s.txns[e.t].queued && s.txns[e.t].buffer == Some(b))
    ensures InReach(Apply(s, e), b)
  {
    assert BufOk(s, b);
    match e
    case Reads(t, _) => assert TxnOk(s, t);
    case Drops(t) => assert TxnOk(s, t);
    case Unlinks(t) => assert TxnOk(s, t);
    case UserFrees(c) => assert BufOk(s, c);
    case _ =>
  }

  // ---------- the driver ----------

  class Driver {
    var txns: map<Xid, Txn>
    var bufs: map<Bid, Buffer>

    function Now(): State
      reads this
    {
      State(txns, bufs)
    }

    constructor ()
      ensures Inv(Now()) && Now() == State(map[], map[])
    {
      txns, bufs := map[], map[];
    }

    /** The delivery of a transaction; its buffer is always there. */
    method ReadTxn(t: Xid, sync: bool)
      requires Inv(Now()) && Enabled(Now(), Reads(t, sync))
      modifies this
      ensures Inv(Now()) && Now() == Apply(old(Now()), Reads(t, sync))
      ensures old(txns)[t].buffer.Some? && Enabled(Now(), UserFrees(old(txns)[t].buffer.value))
      ensures if sync then txns == old(txns)[t := old(txns)[t].(queued := false)] else txns == old(txns) - {t}
    {
      hide Inv;
      ReadKeeps(Now(), t, sync);
      assert txns[t].buffer.Some?;
      var b := txns[t].buffer.value;
      txns := txns[t := txns[t].(queued := false)];
      bufs := bufs[b := bufs[b].(userFree := true)];
      if !sync {
        bufs := bufs[b := bufs[b].(txn := None)];
        txns := txns - {t};
        assert txns == Read(old(Now()), t, sync).txns;
      }
    }

    /** BC_FREE_BUFFER on a buffer the receiver may free: no transaction points to it when it goes. */
    method FreeBuffer(b: Bid)
      requires Inv(Now()) && Enabled(Now(), UserFrees(b))
      modifies this
      ensures Inv(Now()) && Now() == Apply(old(Now()), UserFrees(b))
      ensures bufs == old(bufs) - {b} && forall t :: t in txns ==> txns[t].buffer != Some(b)
    {
      hide Inv;
      UserFreeKeeps(Now(), b);
      LinksBack(Now(), b);
      if bufs[b].txn.Some? {
        var t := bufs[b].txn.value;
        txns := txns[t := txns[t].(buffer := None)];
        bufs := bufs[b := bufs[b].(txn := None)];
      }
      assert bufs[b].txn.None?;
      bufs := bufs - {b};
    }

    /** The buffer loop of binder_deferred_release; `order` lists the buffers of the process. */
    method ReleaseBuffers(p: Pid, order: seq<Bid>)
      requires Inv(Now()) && forall b :: b in order <==> b in bufs && bufs[b].proc == p
      requires forall i, j :: 0 <= i < j < |order| ==> order[i] != order[j]
      requires forall t :: t in txns && In(Now(), t, p) ==> !txns[t].queued
      modifies this
      ensures Inv(Now()) && Now() == Exit(old(Now()), p)
      ensures bufs == (map b | b in old(bufs) && old(bufs)[b].proc != p :: old(bufs)[b])
      ensures txns.Keys == old(txns).Keys && forall t :: t in txns ==>
                txns[t] == if In(old(Now()), t, p) then old(txns)[t].(buffer := None) else old(txns)[t]
    {
      hide Inv, Freed, Exit;
      ghost var s0 := Now();
      ExitKeeps(s0, p);
      ExitEffect(s0, p);
      FreedAll(s0, p, order);
      var i := 0;
      assert order[..i] == [];
      while i < |order|
        invariant 0 <= i <= |order| && Now() == Freed(s0, order[..i])
      {
        var b := order[i];
        assert b in order;
        FreeOne(s0, order, i);
        if bufs[b].txn.Some? {
          var t := bufs[b].txn.value;
          txns := txns[t := txns[t].(buffer := None)];
          bufs := bufs[b := bufs[b].(txn := None)];
        }
        assert bufs[b].txn.None?;
        bufs := bufs - {b};
        i := i + 1;
      }
      assert order[..i] == order;
    }
  }

  /** An exiting process takes along its buffers and the calls in its work lists; other calls that had one of its
      buffers stay without it. */
  lemma ExitEffect(s: State, p: Pid)
    ensures var s' := Apply(s, Exits(p));
            && s'.bufs == (map b | b in s.bufs && s.bufs[b].proc != p :: s.bufs[b])
            && (forall t :: t in s'.txns <==> t in s.txns && !(s.txns[t].queued && In(s, t, p)))
            && forall t :: t in s'.txns ==>
                 s'.txns[t] == if In(s, t, p) then s.txns[t].(buffer := None) else s.txns[t]
  {
  }

  lemma LinksBack(s: State, b: Bid)
    requires Inv(s) && b in s.bufs
    ensures BufOk(s, b)
    ensures forall t :: t in s.txns && s.txns[t].buffer == Some(b) ==> s.bufs[b].txn == Some(t)
  {
    assert BufOk(s, b);
    forall t | t in s.txns && s.txns[t].buffer == Some(b)
      ensures s.bufs[b].txn == Some(t)
    {
      assert TxnOk(s, t);
    }
  }

  /** The state once the buffers `done` have been freed. */
  ghost function Freed(s: State, done: seq<Bid>): State {
    State(map t | t in s.txns :: if s.txns[t].buffer.Some? && s.txns[t].buffer.value in done
        then s.txns[t].(buffer := None) else s.txns[t],
          map b | b in s.bufs && b !in done :: s.bufs[b])
  }

  lemma FreedAll(s: State, p: Pid, order: seq<Bid>)
    requires Inv(s) && forall b :: b in order <==> b in s.bufs && s.bufs[b].proc == p
    requires forall t :: t in s.txns && In(s, t, p) ==> !s.txns[t].queued
    ensures Freed(s, []) == s && Freed(s, order) == Exit(s, p)
  {
    assert forall t :: t in s.txns ==> Freed(s, []).txns[t] == s.txns[t];
    assert forall b :: b in s.bufs ==> Freed(s, []).bufs[b] == s.bufs[b];
    forall t | t in s.txns
      ensures s.txns[t].buffer.Some? ==> (s.txns[t].buffer.value in order <==> In(s, t, p))
    {
      assert TxnOk(s, t);
    }
  }

  lemma FreeOne(s: State, order: seq<Bid>, i: nat)
    requires Inv(s) && i < |order| && order[i] in s.bufs && forall j :: 0 <= j < i ==> order[j] != order[i]
    ensures var b, before, after := order[i], Freed(s, order[..i]), Freed(s, order[..i + 1]);
            && b in before.bufs && before.bufs[b] == s.bufs[b]
            && (s.bufs[b].txn.Some? ==> s.bufs[b].txn.value in before.txns)
            && after.bufs == before.bufs - {b}
            && after.txns == if s.bufs[b].txn.Some?
                             then before.txns[s.bufs[b].txn.value := before.txns[s.bufs[b].txn.value].(buffer := None)]
                             else before.txns
  {
    var b := order[i];
    assert order[..i + 1] == order[..i] + [b];
    LinksBack(s, b);
  }
}
