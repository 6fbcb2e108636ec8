/** Death notifications: requests, clears, delivery and acknowledgement. */
module Death {
  import opened SizeMath

  type Pid = nat
  type Rid = nat
  type Nid = nat
  type Did = nat
  type Qid = nat

  /** The work type of a record; `Fresh` is a record whose node has not died. */
  datatype Kind = Fresh | DeadBinder | DeadBinderAndClear | ClearNotification

  /** Which list the record is in: none, a work list, or a process's list of delivered deaths. */
  datatype Where = Idle | Todo(list: Qid) | Told(proc: Pid)

  /** `ref` is the reference the record was requested for. */
  datatype Record = Record(ref: Rid, proc: Pid, cookie: nat, kind: Kind, where: Where)

  datatype Ref = Ref(proc: Pid, node: Nid, death: Option<Did>)

  /** What passes between driver and process about one record. `raced` says that the clear came while
      the death was queued or delivered and not yet acknowledged. */
  datatype Note = SaidDead | GotDone | AskedClear(raced: bool) | SaidCleared

  datatype State = State(refs: map<Rid, Ref>, deaths: map<Did, Record>, dead: set<Nid>, log: map<Did, seq<Note>>)

  function Noted(s: State, d: Did, note: Note): map<Did, seq<Note>> {
    s.log[d := (if d in s.log then s.log[d] else []) + [note]]
  }

  // ---------- the steps ----------

  /** BC_REQUEST_DEATH_NOTIFICATION. */
  function Request(s: State, r: Rid, d: Did, cookie: nat, q: Qid): State
    requires r in s.refs && s.refs[r].death.None?
  {
    var isDead := s.refs[r].node in s.dead;
    var kind := if isDead then DeadBinder else Fresh;
    s.(refs := s.refs[r := s.refs[r].(death := Some(d))],
       deaths := s.deaths[d := Record(r, s.refs[r].proc, cookie, kind, if isDead then Todo(q) else Idle)],
       log := s.log[d := []])
  }

  predicate MayClear(s: State, r: Rid, cookie: nat) {
    && r in s.refs && s.refs[r].death.Some? && s.refs[r].death.value in s.deaths
    && s.deaths[s.refs[r].death.value].cookie == cookie
  }

  /** BC_CLEAR_DEATH_NOTIFICATION. */
  function Clear(s: State, r: Rid, cookie: nat, q: Qid): State
    requires MayClear(s, r, cookie)
  {
    var d := s.refs[r].death.value;
    var x := s.deaths[d];
    s.(refs := s.refs[r := s.refs[r].(death := None)],
       deaths := s.deaths[d := if x.where.Idle? then x.(kind := ClearNotification, where := Todo(q))
           else x.(kind := DeadBinderAndClear)],
       log := Noted(s, d, AskedClear(!x.where.Idle?)))
  }

  /** A record is read from a work list. */
  function Read(s: State, d: Did): State
    requires d in s.deaths
  {
    var x := s.deaths[d];
    if x.kind == ClearNotification then s.(deaths := s.deaths - {d}, log := Noted(s, d, SaidCleared))
    else s.(deaths := s.deaths[d := x.(where := Told(x.proc))], log := Noted(s, d, SaidDead))
  }

  /** BC_DEAD_BINDER_DONE on a delivered record. */
  function Done(s: State, d: Did, q: Qid): State
    requires d in s.deaths
  {
    var x := s.deaths[d];
    s.(deaths := s.deaths[d := if x.kind == DeadBinderAndClear
        then x.(kind := ClearNotification, where := Todo(q)) else x.(where := Idle)],
       log := Noted(s, d, GotDone))
  }

  predicate Notified(s: State, n: Nid, d: Did)
    requires d in s.deaths
  {
    s.deaths[d].ref in s.refs && s.refs[s.deaths[d].ref].node == n && s.refs[s.deaths[d].ref].death == Some(d)
  }

  /** binder_node_release: every reference with a record gets it queued; `todo` is each process's list. */
  function NodeDies(s: State, n: Nid, todo: Pid -> Qid): State {
    s.(dead := s.dead + {n},
       deaths := map d | d in s.deaths ::
         if Notified(s, n, d) then s.deaths[d].(kind := DeadBinder, where := Todo(todo(s.deaths[d].proc)))
             else s.deaths[d])
  }

  /** binder_delete_ref: the record, wherever it is, goes with the reference. */
  function DeleteRef(s: State, r: Rid): State
    requires r in s.refs
  {
    s.(refs := s.refs - {r}, deaths := if s.refs[r].death.Some? then s.deaths - {s.refs[r].death.value} else s.deaths)
  }

  predicate Withdrawn(x: Record) {
    x.kind.DeadBinderAndClear? || x.kind.ClearNotification?
  }

  /** binder_release_work on one list: cleared records are freed, others only leave the list. */
  function ReleaseWork(s: State, w: Where): State {
    s.(deaths := map d | d in s.deaths && !(s.deaths[d].where == w && Withdrawn(s.deaths[d])) ::
         if s.deaths[d].where == w then s.deaths[d].(where := Idle) else s.deaths[d])
  }

  // ---------- the invariant ----------

  predicate Owned(s: State, d: Did)
    requires d in s.deaths
  {
    s.deaths[d].ref in s.refs && s.refs[s.deaths[d].ref].death == Some(d)
  }

  /** The logs a record can have when its clear waits to be confirmed. */
  predicate ClearLog(l: seq<Note>) {
    || l == [AskedClear(false)]
    || l == [SaidDead, GotDone, AskedClear(false)]
    || l == [SaidDead, AskedClear(true), GotDone]
    || l == [AskedClear(true), SaidDead, GotDone]
  }

  /** The life of a record: every kind and list it can be in, who owns it there, and what has been
      said about it by then. */
  predicate LifeOk(s: State, d: Did)
    requires d in s.deaths && d in s.log
  {
    var x, l := s.deaths[d], s.log[d];
    match x.kind
    case Fresh => Owned(s, d) && x.where == Idle && s.refs[x.ref].node !in s.dead && l == []
    case DeadBinder =>
      && Owned(s, d) && s.refs[x.ref].node in s.dead
      && (match x.where
          case Idle => l == [] || l == [SaidDead, GotDone]
          case Todo(_) => l == []
          case Told(p) => p == x.proc && l == [SaidDead])
    case DeadBinderAndClear =>
      && !Owned(s, d)
      && (match x.where
          case Idle => false
          case Todo(_) => l == [AskedClear(true)]
          case Told(p) => p == x.proc && (l == [SaidDead, AskedClear(true)] || l == [AskedClear(true), SaidDead]))
    case ClearNotification => !Owned(s, d) && x.where.Todo? && ClearLog(l)
  }

  /** What can have been said about a record that is gone. */
  predicate OverLog(l: seq<Note>) {
    || l == [] || l == [SaidDead] || l == [SaidDead, GotDone]
    || l == [AskedClear(true)] || l == [SaidDead, AskedClear(true)] || l == [AskedClear(true), SaidDead]
    || ClearLog(l)
    || (l != [] && l[|l| - 1] == SaidCleared && ClearLog(l[..|l| - 1]))
  }

  ghost predicate DeathOk(s: State, d: Did)
    requires d in s.log
  {
    if d in s.deaths then LifeOk(s, d) else OverLog(s.log[d])
  }

  /** A reference's record exists and was requested for this reference. */
  predicate RefOk(s: State, r: Rid)
    requires r in s.refs
  {
    s.refs[r].death.Some? ==>
      && s.refs[r].death.value in s.deaths
      && s.deaths[s.refs[r].death.value].ref == r && s.deaths[s.refs[r].death.value].proc == s.refs[r].proc
  }

  ghost predicate Inv(s: State) {
    && (forall d :: d in s.deaths ==> d in s.log)
    && (forall d {:trigger DeathOk(s, d)} :: d in s.log ==> DeathOk(s, d))
    && (forall r {:trigger RefOk(s, r)} :: r in s.refs ==> RefOk(s, r))
  }

  lemma RequestedForRef(s: State, r: Rid)
    requires Inv(s) && r in s.refs && s.refs[r].death.Some?
    ensures RefOk(s, r)
  {
  }

  // ---------- preservation ----------

  /** A record whose own reference and fields are untouched. */
  lemma DeathFrame(s: State, s': State, d: Did)
    requires d in s.log && d in s'.log && DeathOk(s, d) && s'.log[d] == s.log[d]
    requires d in s.deaths <==> d in s'.deaths
    requires d in s.deaths ==> s'.deaths[d] == s.deaths[d]
    requires d in s.deaths ==> Owned(s', d) == Owned(s, d)
    requires d in s.deaths && Owned(s, d) ==> s'.refs[s.deaths[d].ref].node == s.refs[s.deaths[d].ref].node
    requires d in s.deaths && Owned(s, d) ==>
               (s.refs[s.deaths[d].ref].node in s'.dead <==> s.refs[s.deaths[d].ref].node in s.dead)
    ensures DeathOk(s', d)
  {
  }

  lemma RequestKeeps(s: State, r: Rid, d: Did, cookie: nat, q: Qid)
    requires Inv(s) && r in s.refs && s.refs[r].death.None? && d !in s.log
    ensures Inv(Request(s, r, d, cookie, q))
  {
    var s' := Request(s, r, d, cookie, q);
    forall k | k in s'.log
      ensures DeathOk(s', k)
    {
      if k != d {
        assert DeathOk(s, k);
        DeathFrame(s, s', k);
      }
    }
    forall j | j in s'.refs
      ensures RefOk(s', j)
    {
      assert RefOk(s, j);
    }
  }

  /** A clear of a record that is in a list always finds it waiting as a plain death. */
  lemma ClearFindsDeath(s: State, r: Rid, cookie: nat)
    requires Inv(s) && MayClear(s, r, cookie) && !s.deaths[s.refs[r].death.value].where.Idle?
    ensures s.deaths[s.refs[r].death.value].kind == DeadBinder
  {
    assert RefOk(s, r) && DeathOk(s, s.refs[r].death.value);
  }

  lemma ClearKeeps(s: State, r: Rid, cookie: nat, q: Qid)
    requires Inv(s) && MayClear(s, r, cookie)
    ensures Inv(Clear(s, r, cookie, q))
  {
    var s', d := Clear(s, r, cookie, q), s.refs[r].death.value;
    assert RefOk(s, r) && DeathOk(s, d);
    assert DeathOk(s', d);
    forall k | k in s'.log
      ensures DeathOk(s', k)
    {
      if k != d {
        assert DeathOk(s, k);
        DeathFrame(s, s', k);
      }
    }
    forall j | j in s'.refs
      ensures RefOk(s', j)
    {
      assert RefOk(s, j);
    }
  }

  lemma ReadLives(s: State, d: Did)
    requires d in s.deaths && d in s.log && DeathOk(s, d) && s.deaths[d].where.Todo?
    ensures d in Read(s, d).log && DeathOk(Read(s, d), d)
  {
    var s' := Read(s, d);
    assert Owned(s, d) ==> d in s'.deaths && Owned(s', d);
    if d !in s'.deaths {
      assert s'.log[d][..|s'.log[d]| - 1] == s.log[d];
    }
  }

  lemma ReadKeeps(s: State, d: Did)
    requires Inv(s) && d in s.deaths && s.deaths[d].where.Todo?
    ensures Inv(Read(s, d))
  {
    var s' := Read(s, d);
    ReadLives(s, d);
    forall k | k in s'.log
      ensures DeathOk(s', k)
    {
      if k != d {
        assert DeathOk(s, k);
        DeathFrame(s, s', k);
      }
    }
    forall j | j in s'.refs
      ensures RefOk(s', j)
    {
      assert RefOk(s, j);
    }
  }

  lemma DoneKeeps(s: State, d: Did, q: Qid)
    requires Inv(s) && d in s.deaths && s.deaths[d].where.Told?
    ensures Inv(Done(s, d, q))
  {
    var s' := Done(s, d, q);
    assert DeathOk(s, d);
    assert DeathOk(s', d);
    forall k | k in s'.log
      ensures DeathOk(s', k)
    {
      if k != d {
        assert DeathOk(s, k);
        DeathFrame(s, s', k);
      }
    }
    forall j | j in s'.refs
      ensures RefOk(s', j)
    {
      assert RefOk(s, j);
    }
  }

  /** When a node dies, the record of every reference to it is in no list. */
  lemma DyingFindsIdle(s: State, n: Nid, r: Rid)
    requires Inv(s) && n !in s.dead && r in s.refs && s.refs[r].node == n && s.refs[r].death.Some?
    ensures s.refs[r].death.value in s.deaths && s.deaths[s.refs[r].death.value].where == Idle
  {
    assert RefOk(s, r) && DeathOk(s, s.refs[r].death.value);
  }

  lemma NodeDiesKeeps(s: State, n: Nid, todo: Pid -> Qid)
    requires Inv(s) && n !in s.dead
    ensures Inv(NodeDies(s, n, todo))
  {
    var s' := NodeDies(s, n, todo);
    forall k | k in s'.log
      ensures DeathOk(s', k)
    {
      assert DeathOk(s, k);
      if !(k in s.deaths && Notified(s, n, k)) {
        DeathFrame(s, s', k);
      }
    }
    forall j | j in s'.refs
      ensures RefOk(s', j)
    {
      assert RefOk(s, j);
    }
  }

  lemma DeleteRefKeeps(s: State, r: Rid)
    requires Inv(s) && r in s.refs
    ensures Inv(DeleteRef(s, r))
  {
    var s' := DeleteRef(s, r);
    assert RefOk(s, r);
    forall k | k in s'.log
      ensures DeathOk(s', k)
    {
      assert DeathOk(s, k);
      if s.refs[r].death != Some(k) {
        DeathFrame(s, s', k);
      }
    }
    forall j | j in s'.refs
      ensures RefOk(s', j)
    {
      assert RefOk(s, j);
    }
  }

  lemma ReleaseWorkKeeps(s: State, w: Where)
    requires Inv(s) && w.Todo?
    ensures Inv(ReleaseWork(s, w))
  {
    var s' := ReleaseWork(s, w);
    forall k | k in s'.log
      ensures DeathOk(s', k)
    {
      assert DeathOk(s, k);
      if k in s.deaths && s.deaths[k].where != w {
        DeathFrame(s, s', k);
      }
    }
    forall j | j in s'.refs
      ensures RefOk(s', j)
    {
      assert RefOk(s, j);
      if s.refs[j].death.Some? {
        assert DeathOk(s, s.refs[j].death.value);
      }
    }
  }

  /** Process exit releases its list of delivered deaths after its references are gone; every record
      in it was cleared by then, so all of them are freed. */
  lemma ReleaseToldKeeps(s: State, p: Pid)
    requires Inv(s) && forall r :: r in s.refs ==> s.refs[r].proc != p
    ensures Inv(ReleaseWork(s, Told(p)))
    ensures forall d :: d in ReleaseWork(s, Told(p)).deaths ==> s.deaths[d].where != Told(p)
  {
    var s' := ReleaseWork(s, Told(p));
    forall d | d in s.deaths && s.deaths[d].where == Told(p)
      ensures d !in s'.deaths
    {
      ToldIsCleared(s, p, d);
    }
    forall k | k in s'.log
      ensures DeathOk(s', k)
    {
      assert DeathOk(s, k);
      if k in s'.deaths {
        DeathFrame(s, s', k);
      }
    }
    forall j | j in s'.refs
      ensures RefOk(s', j)
    {
      assert RefOk(s, j);
      if s.refs[j].death.Some? {
        assert DeathOk(s, s.refs[j].death.value);
      }
    }
  }

  lemma ToldIsCleared(s: State, p: Pid, d: Did)
    requires Inv(s) && d in s.deaths && s.deaths[d].where == Told(p) && forall r :: r in s.refs ==> s.refs[r].proc != p
    ensures s.deaths[d].kind == DeadBinderAndClear
  {
    assert DeathOk(s, d);
    if Owned(s, d) {
      RequestedForRef(s, s.deaths[d].ref);
    }
  }

  /** A record has one owner: the reference it was requested for until it is cleared, and one list from then on. */
  lemma OneOwner(s: State, d: Did)
    requires Inv(s) && d in s.deaths
    ensures Owned(s, d) <==> s.deaths[d].kind in {Fresh, DeadBinder}
    ensures !Owned(s, d) ==> s.deaths[d].where != Idle
    ensures forall r :: r in s.refs && s.refs[r].death == Some(d) ==> Owned(s, d) && r == s.deaths[d].ref
  {
    assert DeathOk(s, d);
    forall r | r in s.refs && s.refs[r].death == Some(d)
      ensures Owned(s, d) && r == s.deaths[d].ref
    {
      RequestedForRef(s, r);
    }
  }

  /** A process without references has only cleared records left, all of them in lists: once its work
      lists and its list of delivered deaths are released, none remains. */
  lemma NothingLeaks(s: State, d: Did)
    requires Inv(s) && d in s.deaths && forall r :: r in s.refs ==> s.refs[r].proc != s.deaths[d].proc
    ensures s.deaths[d].where != Idle && d !in ReleaseWork(s, s.deaths[d].where).deaths
  {
    assert DeathOk(s, d);
    if Owned(s, d) {
      RequestedForRef(s, s.deaths[d].ref);
    }
  }

  // ---------- whole runs ----------

  datatype Event =
    | NewRef(r: Rid, proc: Pid, n: Nid)
    | RequestFor(r: Rid, d: Did, cookie: nat, q: Qid)
    | ClearFor(r: Rid, cookie: nat, q: Qid)
    | ReadWork(d: Did)
    | DoneFor(d: Did, q: Qid)
    | Dies(n: Nid, todo: Pid -> Qid)
    | RefGoes(r: Rid)
    | ThreadExits(q: Qid)
    | ExitReleases(p: Pid)

  ghost predicate Enabled(s: State, e: Event) {
    match e
    case NewRef(r, _, _) => r !in s.refs
    case RequestFor(r, d, _, _) => r in s.refs && s.refs[r].death.None? && d !in s.log
    case ClearFor(r, cookie, _) => MayClear(s, r, cookie)
    case ReadWork(d) => d in s.deaths && s.deaths[d].where.Todo?
    case DoneFor(d, _) => d in s.deaths && s.deaths[d].where.Told?
    case Dies(n, _) => n !in s.dead
    case RefGoes(r) => r in s.refs
    case ThreadExits(_) => true
    case ExitReleases(p) => forall r :: r in s.refs ==> s.refs[r].proc != p
  }

  ghost function Apply(s: State, e: Event): State
    requires Enabled(s, e)
  {
    match e
    case NewRef(r, p, n) => s.(refs := s.refs[r := Ref(p, n, None)])
    case RequestFor(r, d, cookie, q) => Request(s, r, d, cookie, q)
    case ClearFor(r, cookie, q) => Clear(s, r, cookie, q)
    case ReadWork(d) => Read(s, d)
    case DoneFor(d, q) => Done(s, d, q)
    case Dies(n, todo) => NodeDies(s, n, todo)
    case RefGoes(r) => DeleteRef(s, r)
    case ThreadExits(q) => ReleaseWork(s, Todo(q))
    case ExitReleases(p) => ReleaseWork(s, Told(p))
  }

  lemma NewRefKeeps(s: State, r: Rid, p: Pid, n: Nid)
    requires Inv(s) && r !in s.refs
    ensures Inv(Apply(s, NewRef(r, p, n)))
  {
    var s' := Apply(s, NewRef(r, p, n));
    forall k | k in s'.log
      ensures DeathOk(s', k)
    {
      assert DeathOk(s, k);
      DeathFrame(s, s', k);
    }
    forall j | j in s'.refs
      ensures RefOk(s', j)
    {
      assert j in s.refs ==> RefOk(s, j);
    }
  }

  lemma StepKeeps(s: State, e: Event)
    requires Inv(s) && Enabled(s, e)
    ensures Inv(Apply(s, e))
  {
    match e
    case NewRef(r, p, n) => NewRefKeeps(s, r, p, n);
    case RequestFor(r, d, cookie, q) => RequestKeeps(s, r, d, cookie, q);
    case ClearFor(r, cookie, q) => ClearKeeps(s, r, cookie, q);
    case ReadWork(d) => ReadKeeps(s, d);
    case DoneFor(d, q) => DoneKeeps(s, d, q);
    case Dies(n, todo) => NodeDiesKeeps(s, n, todo);
    case RefGoes(r) => DeleteRefKeeps(s, r);
    case ThreadExits(q) => ReleaseWorkKeeps(s, Todo(q));
    case ExitReleases(p) => ReleaseToldKeeps(s, p);
  }

  const EMPTY: State := State(map[], map[], {}, map[])

  ghost predicate IsRun(s: State, es: seq<Event>)
    decreases |es|
  {
    es == [] || (Enabled(s, es[0]) && IsRun(Apply(s, es[0]), es[1..]))
  }

  ghost function After(s: State, es: seq<Event>): State
    requires IsRun(s, es)
    decreases |es|
  {
    if es == [] then s else After(Apply(s, es[0]), es[1..])
  }

  lemma {:induction false} RunsKeep(s: State, es: seq<Event>)
    requires Inv(s) && IsRun(s, es)
    ensures Inv(After(s, es))
    decreases |es|
  {
    hide Inv, Enabled, Apply;
    if es != [] {
      StepKeeps(s, es[0]);
      RunsKeep(Apply(s, es[0]), es[1..]);
    }
  }

  /** Position `i` comes no later than position `j` and holds `note`. */
  ghost predicate Before(l: seq<Note>, note: Note, j: nat) {
    j < |l| && exists i :: 0 <= i < j && l[i] == note
  }

  /** In every run, for every request: the process is told of the death at most once, a clear is confirmed
      at most once and last, and never before an announced death, or one the clear raced with, has been
      announced and acknowledged. */
  lemma EveryRun(es: seq<Event>, d: Did)
    requires IsRun(EMPTY, es) && d in After(EMPTY, es).log
    ensures var l := After(EMPTY, es).log[d];
            && (forall i, j :: 0 <= i < j < |l| && l[i] == SaidDead ==> l[j] != SaidDead)
            && (forall j :: 0 <= j < |l| && l[j] == SaidCleared ==> j == |l| - 1)
            && (forall j :: 0 <= j < |l| && l[j] == SaidCleared && (SaidDead in l || AskedClear(true) in l) ==>
                  Before(l, SaidDead, j) && Before(l, GotDone, j))
  {
    hide IsRun, After;
    assert Inv(EMPTY);
    RunsKeep(EMPTY, es);
    var s := After(EMPTY, es);
    assert DeathOk(s, d);
    LogsAreOrdered(s, d);
  }

  lemma LogsAreOrdered(s: State, d: Did)
    requires d in s.log && DeathOk(s, d)
    ensures var l := s.log[d];
            && (forall i, j :: 0 <= i < j < |l| && l[i] == SaidDead ==> l[j] != SaidDead)
            && (forall j :: 0 <= j < |l| && l[j] == SaidCleared ==> j == |l| - 1)
            && (forall j :: 0 <= j < |l| && l[j] == SaidCleared && (SaidDead in l || AskedClear(true) in l) ==>
                  Before(l, SaidDead, j) && Before(l, GotDone, j))
  {
    var l := s.log[d];
    if l != [] && l[|l| - 1] == SaidCleared {
      ConfirmedLog(l);
    } else {
      assert |l| <= 3;
      assert OverLog(l);
    }
  }

  lemma ConfirmedLog(l: seq<Note>)
    requires l != [] && l[|l| - 1] == SaidCleared && ClearLog(l[..|l| - 1])
    ensures forall i, j :: 0 <= i < j < |l| && l[i] == SaidDead ==> l[j] != SaidDead
    ensures forall j :: 0 <= j < |l| && l[j] == SaidCleared ==> j == |l| - 1
    ensures SaidDead in l || AskedClear(true) in l ==> Before(l, SaidDead, |l| - 1) && Before(l, GotDone, |l| - 1)
  {
    var c := l[..|l| - 1];
    assert forall i :: 0 <= i < |c| ==> l[i] == c[i];
    if |c| == 3 {
      if c[0] == SaidDead && c[1] == GotDone {
        assert l[0] == SaidDead && l[1] == GotDone;
      } else if c[0] == SaidDead {
        assert l[0] == SaidDead && l[2] == GotDone;
      } else {
        assert l[1] == SaidDead && l[2] == GotDone;
      }
    }
  }

  // ---------- who gets to hear of a death ----------

  /** A record still requested for, whose node is dead and whose process has not been told. */
  ghost predicate Owed(s: State, d: Did) {
    && d in s.deaths && d in s.log && Owned(s, d) && s.refs[s.deaths[d].ref].node in s.dead
    && SaidDead !in s.log[d]
  }

  /** Every such record waits in a work list. */
  ghost predicate Promised(s: State) {
    forall d {:trigger Owed(s, d)} :: Owed(s, d) ==> s.deaths[d].where.Todo?
  }

  /** No exiting thread throws its work list away. */
  ghost predicate KeepsLists(es: seq<Event>) {
    forall i :: 0 <= i < |es| ==> !es[i].ThreadExits?
  }

  lemma StepPromises(s: State, e: Event)
    requires Inv(s) && Promised(s) && Enabled(s, e) && !e.ThreadExits?
    ensures Promised(Apply(s, e))
  {
    StepKeeps(s, e);
    var s' := Apply(s, e);
    forall d | Owed(s', d)
      ensures s'.deaths[d].where.Todo?
    {
      assert DeathOk(s', d);
      if d in s.deaths {
        assert DeathOk(s, d);
        if !Owed(s, d) {
          FirstOwed(s, e, d);
        } else {
          StaysQueued(s, e, d);
        }
      }
    }
  }

  lemma FirstOwed(s: State, e: Event, d: Did)
    requires Inv(s) && Enabled(s, e) && Inv(Apply(s, e)) && d in s.deaths && !Owed(s, d) && Owed(Apply(s, e), d)
    ensures Apply(s, e).deaths[d].where.Todo?
  {
    assert DeathOk(s, d) && DeathOk(Apply(s, e), d);
    assert forall note :: note in s.log[d] ==> note in s.log[d] + [GotDone];
  }

  lemma StaysQueued(s: State, e: Event, d: Did)
    requires Inv(s) && Enabled(s, e) && !e.ThreadExits? && Owed(s, d) && s.deaths[d].where.Todo?
    requires Owed(Apply(s, e), d)
    ensures Apply(s, e).deaths[d].where.Todo?
  {
    assert DeathOk(s, d);
  }

  lemma {:induction false} RunsPromise(s: State, es: seq<Event>)
    requires Inv(s) && Promised(s) && IsRun(s, es) && KeepsLists(es)
    ensures Promised(After(s, es))
    decreases |es|
  {
    hide Inv, Enabled, Apply, Promised;
    if es != [] {
      StepKeeps(s, es[0]);
      StepPromises(s, es[0]);
      RunsPromise(Apply(s, es[0]), es[1..]);
    }
  }

  /** In every run in which no exiting thread throws its list away: whoever asked to hear of a node's death
      and has not withdrawn has been told of it or finds it in a work list, and reading that list tells it. */
  lemma EveryDeathIsAnnounced(es: seq<Event>, d: Did)
    requires IsRun(EMPTY, es) && KeepsLists(es)
    requires var s := After(EMPTY, es); d in s.deaths && Owned(s, d) && s.refs[s.deaths[d].ref].node in s.dead
    ensures var s := After(EMPTY, es);
            && d in s.log
            && (SaidDead in s.log[d]
                || (Enabled(s, ReadWork(d))
                    && var s' := Apply(s, ReadWork(d)); d in s'.log && s'.log[d] == s.log[d] + [SaidDead]))
  {
    hide IsRun, After;
    assert Inv(EMPTY) && Promised(EMPTY);
    RunsKeep(EMPTY, es);
    RunsPromise(EMPTY, es);
    var s := After(EMPTY, es);
    assert DeathOk(s, d);
    if SaidDead !in s.log[d] {
      assert Owed(s, d);
    }
  }

  /** A record about which nothing can be said any more but that its clear is done. */
  ghost predicate Silent(s: State, d: Did) {
    && d in s.log && SaidDead !in s.log[d]
    && (d in s.deaths ==>
          || s.deaths[d].kind == ClearNotification
          || (s.deaths[d].kind == DeadBinder && s.deaths[d].where == Idle && Owned(s, d)
              && s.refs[s.deaths[d].ref].node in s.dead))
  }

  lemma SilentStays(s: State, e: Event, d: Did)
    requires Inv(s) && Enabled(s, e) && Silent(s, d)
    ensures Silent(Apply(s, e), d)
  {
    assert DeathOk(s, d);
    assert forall note: Note :: note != SaidDead ==> SaidDead !in s.log[d] + [note];
    if e.ClearFor? || e.RefGoes? {
      assert RefOk(s, e.r);
    }
  }

  lemma {:induction false} SilentForGood(s: State, es: seq<Event>, d: Did)
    requires Inv(s) && IsRun(s, es) && Silent(s, d)
    ensures Silent(After(s, es), d)
    decreases |es|
  {
    hide Inv, Enabled, Apply, Silent;
    if es != [] {
      StepKeeps(s, es[0]);
      SilentStays(s, es[0], d);
      SilentForGood(Apply(s, es[0]), es[1..], d);
    }
  }

  ghost predicate Tells(s: State, es: seq<Event>, d: Did) {
    IsRun(s, es) && d in After(s, es).log && SaidDead in After(s, es).log[d]
  }

  lemma TellsAtOnce(s: State, d: Did)
    requires Inv(s) && Owed(s, d) && s.deaths[d].where.Todo?
    ensures Tells(s, [ReadWork(d)], d)
  {
    var es, s' := [ReadWork(d)], Apply(s, ReadWork(d));
    assert DeathOk(s, d);
    assert es[1..] == [] && IsRun(s', []) && After(s', []) == s';
    assert s'.log[d][|s.log[d]|] == SaidDead;
  }

  /** A death that is owed can still be announced exactly if the record is in a work list. */
  lemma AnnounceableExactly(s: State, d: Did)
    requires Inv(s) && Owed(s, d)
    ensures (exists es :: Tells(s, es, d)) <==> s.deaths[d].where.Todo?
  {
    hide Apply, IsRun, After;
    assert DeathOk(s, d);
    if s.deaths[d].where.Todo? {
      TellsAtOnce(s, d);
    } else {
      assert Silent(s, d);
      forall es | Tells(s, es, d)
        ensures false
      {
        SilentForGood(s, es, d);
      }
    }
  }

  /** A death gets lost when the thread in whose list it is exits first. */
  lemma LostDeathIsReachable()
    ensures var es := [NewRef(1, 5, 7), Dies(7, p => 9), RequestFor(1, 1, 0, 9), ThreadExits(9)];
            IsRun(EMPTY, es) && Owed(After(EMPTY, es), 1) && !After(EMPTY, es).deaths[1].where.Todo?
  {
    var made, dies, asked, exits := NewRef(1, 5, 7), Dies(7, p => 9), RequestFor(1, 1, 0, 9), ThreadExits(9);
    var s1 := Apply(EMPTY, made);
    var s2 := Apply(s1, dies);
    var s3 := Apply(s2, asked);
    var s4 := Apply(s3, exits);
    assert s3.deaths[1] == Record(1, 5, 0, DeadBinder, Todo(9));
    hide Apply;
    assert [exits][1..] == [] && [asked, exits][1..] == [exits] && [dies, asked, exits][1..] == [asked, exits];
    assert [made, dies, asked, exits][1..] == [dies, asked, exits];
    assert IsRun(s4, []) && After(s4, []) == s4;
    assert IsRun(s3, [exits]) && After(s3, [exits]) == s4;
    assert IsRun(s2, [asked, exits]) && After(s2, [asked, exits]) == s4;
    assert IsRun(s1, [dies, asked, exits]) && After(s1, [dies, asked, exits]) == s4;
  }

  // ---------- what becomes of a record ----------

  /** The record of reference `r` as its process finds it, and what has been said about it. */
  ghost predicate Stands(s: State, r: Rid, d: Did, cookie: nat, kind: Kind, where: Where, said: seq<Note>) {
    && r in s.refs && s.refs[r].death == Some(d) && d in s.deaths && d in s.log
    && s.deaths[d] == Record(r, s.refs[r].proc, cookie, kind, where) && s.log[d] == said
  }

  /** A request on a live node waits, is queued when the node dies, and tells of it when it is read. */
  lemma AskedThenTold(s: State, r: Rid, d: Did, cookie: nat, q: Qid, todo: Pid -> Qid)
    requires Inv(s) && Enabled(s, RequestFor(r, d, cookie, q)) && s.refs[r].node !in s.dead
    ensures var asked, p := Apply(s, RequestFor(r, d, cookie, q)), s.refs[r].proc;
            && Stands(asked, r, d, cookie, Fresh, Idle, []) && Enabled(asked, Dies(s.refs[r].node, todo))
            && var died := Apply(asked, Dies(s.refs[r].node, todo));
               && Stands(died, r, d, cookie, DeadBinder, Todo(todo(p)), []) && Enabled(died, ReadWork(d))
               && Stands(Apply(died, ReadWork(d)), r, d, cookie, DeadBinder, Told(p), [SaidDead])
  {
    var asked := Apply(s, RequestFor(r, d, cookie, q));
    assert Notified(asked, s.refs[r].node, d);
    assert [] + [SaidDead] == [SaidDead];
  }

  /** A death that has been told is acknowledged, and the request withdrawn and confirmed: nothing is left but
      the account of it. */
  lemma ToldThenOver(s: State, r: Rid, d: Did, cookie: nat, q: Qid)
    requires r in s.refs && Stands(s, r, d, cookie, DeadBinder, Told(s.refs[r].proc), [SaidDead])
    ensures Enabled(s, DoneFor(d, q))
    ensures var done := Apply(s, DoneFor(d, q));
            && Stands(done, r, d, cookie, DeadBinder, Idle, [SaidDead, GotDone])
            && Enabled(done, ClearFor(r, cookie, q))
            && var cleared := Apply(done, ClearFor(r, cookie, q));
               && Enabled(cleared, ReadWork(d))
               && var over := Apply(cleared, ReadWork(d));
                  && over.refs == s.refs[r := s.refs[r].(death := None)] && over.deaths == s.deaths - {d}
                  && over.log == s.log[d := [SaidDead, GotDone, AskedClear(false), SaidCleared]]
  {
    assert [SaidDead] + [GotDone] == [SaidDead, GotDone];
    assert [SaidDead, GotDone] + [AskedClear(false)] == [SaidDead, GotDone, AskedClear(false)];
    var over := Apply(Apply(Apply(s, DoneFor(d, q)), ClearFor(r, cookie, q)), ReadWork(d));
    assert over.log[d] == [SaidDead, GotDone, AskedClear(false), SaidCleared];
    assert over.log == s.log[d := over.log[d]];
    assert over.deaths == s.deaths - {d};
  }

  /** An exiting thread takes the records in its list along that nobody's reference holds; the others leave the
      list and stay. */
  lemma WorkThrownAway(s: State, q: Qid)
    requires Inv(s)
    ensures var s' := Apply(s, ThreadExits(q));
            && s' == s.(deaths := s'.deaths)
            && (forall d :: d in s'.deaths <==> d in s.deaths && (s.deaths[d].where == Todo(q) ==> Owned(s, d)))
            && forall d :: d in s'.deaths ==>
                 s'.deaths[d] == if s.deaths[d].where == Todo(q) then s.deaths[d].(where := Idle) else s.deaths[d]
  {
    forall d | d in s.deaths
      ensures Owned(s, d) <==> !Withdrawn(s.deaths[d])
    {
      assert DeathOk(s, d);
    }
  }

  /** A process that has lost its references takes all records that were delivered to it along. */
  lemma ToldAreGone(s: State, p: Pid)
    requires Inv(s) && Enabled(s, ExitReleases(p))
    ensures var s' := Apply(s, ExitReleases(p));
            && s' == s.(deaths := s'.deaths)
            && (forall d :: d in s'.deaths <==> d in s.deaths && s.deaths[d].where != Told(p))
            && forall d :: d in s'.deaths ==> s'.deaths[d] == s.deaths[d]
  {
    forall d | d in s.deaths && s.deaths[d].where == Told(p)
      ensures Withdrawn(s.deaths[d])
    {
      ToldIsCleared(s, p, d);
    }
  }

  /** A reference takes its record along. */
  lemma RefTakesRecord(s: State, r: Rid)
    requires Enabled(s, RefGoes(r))
    ensures var s' := Apply(s, RefGoes(r));
            && s'.refs == s.refs - {r} && s'.dead == s.dead && s'.log == s.log
            && s'.deaths == if s.refs[r].death.Some? then s.deaths - {s.refs[r].death.value} else s.deaths
  {
  }

  // ---------- the driver ----------

  class Driver {
    var refs: map<Rid, Ref>
    var deaths: map<Did, Record>
    var dead: set<Nid>
    ghost var log: map<Did, seq<Note>>

    ghost function Now(): State
      reads this
    {
      State(refs, deaths, dead, log)
    }

    constructor ()
      ensures Inv(Now()) && Now() == EMPTY
    {
      refs, deaths, dead, log := map[], map[], {}, map[];
    }

    /** BC_REQUEST_DEATH_NOTIFICATION. A second request changes nothing; a request on a dead node is queued at
        once. */
    method RequestDeath(r: Rid, d: Did, cookie: nat, q: Qid) returns (ok: bool)
      requires Inv(Now()) && r in refs && d !in log
      modifies this
      ensures Inv(Now()) && ok == old(refs)[r].death.None?
      ensures !ok ==> Now() == old(Now())
      ensures ok ==>
                && Now() == Request(old(Now()), r, d, cookie, q)
                && refs == old(refs)[r := old(refs)[r].(death := Some(d))] && dead == old(dead)
                && deaths == old(deaths)[d := if old(refs)[r].node in dead
                                              then Record(r, old(refs)[r].proc, cookie, DeadBinder, Todo(q))
                                              else Record(r, old(refs)[r].proc, cookie, Fresh, Idle)]
    {
      hide Inv;
      if refs[r].death.Some? {
        return false;
      }
      RequestKeeps(Now(), r, d, cookie, q);
      refs := refs[r := refs[r].(death := Some(d))];
      var x := Record(r, refs[r].proc, cookie, Fresh, Idle);
      if refs[r].node in dead {
        x := x.(kind := DeadBinder, where := Todo(q));
      }
      deaths := deaths[d := x];
      log := log[d := []];
      return true;
    }

    /** BC_CLEAR_DEATH_NOTIFICATION; the driver's check on the record's type never fails. */
    method ClearDeath(r: Rid, cookie: nat, q: Qid)
      requires Inv(Now()) && MayClear(Now(), r, cookie)
      modifies this
      ensures Inv(Now()) && Now() == Clear(old(Now()), r, cookie, q)
    {
      hide Inv;
      ClearKeeps(Now(), r, cookie, q);
      var d := refs[r].death.value;
      var x := deaths[d];
      ghost var log' := Noted(Now(), d, AskedClear(!x.where.Idle?));
      if !x.where.Idle? {
        ClearFindsDeath(Now(), r, cookie);
        assert x.kind == DeadBinder;
      }
      refs := refs[r := refs[r].(death := None)];
      if x.where.Idle? {
        deaths := deaths[d := x.(kind := ClearNotification, where := Todo(q))];
      } else {
        deaths := deaths[d := x.(kind := DeadBinderAndClear)];
      }
      log := log';
    }

    /** BC_DEAD_BINDER_DONE: `delivered` is process `p`'s list of delivered deaths in order; its first
        record with this cookie is acknowledged, and an unknown cookie changes nothing. */
    method DeadBinderDone(p: Pid, delivered: seq<Did>, cookie: nat, q: Qid) returns (found: Option<Did>)
      requires Inv(Now()) && forall d :: d in delivered <==> d in deaths && deaths[d].where == Told(p)
      modifies this
      ensures Inv(Now())
      ensures found.None? ==> Now() == old(Now()) && forall d :: d in delivered ==> deaths[d].cookie != cookie
      ensures found.Some? ==>
                && (exists i ::
                      && 0 <= i < |delivered| && delivered[i] == found.value
                      && old(deaths)[delivered[i]].cookie == cookie
                      && (forall j :: 0 <= j < i ==> old(deaths)[delivered[j]].cookie != cookie))
                && Now() == Done(old(Now()), found.value, q)
    {
      hide Inv;
      var i := 0;
      while i < |delivered| && deaths[delivered[i]].cookie != cookie
        invariant 0 <= i <= |delivered| && forall j :: 0 <= j < i ==> deaths[delivered[j]].cookie != cookie
      {
        assert delivered[i] in delivered;
        i := i + 1;
      }
      if i == |delivered| { return None; }
      var d := delivered[i];
      assert d in delivered;
      DoneKeeps(Now(), d, q);
      ghost var log' := Noted(Now(), d, GotDone);
      var x := deaths[d];
      if x.kind == DeadBinderAndClear {
        deaths := deaths[d := x.(kind := ClearNotification, where := Todo(q))];
      } else {
        deaths := deaths[d := x.(where := Idle)];
      }
      log := log';
      return Some(d);
    }

    /** The reference loop of binder_node_release; `order` lists the node's references. The record of
        each is found in no list. */
    method ReleaseNode(n: Nid, order: seq<Rid>, todo: Pid -> Qid)
      requires Inv(Now()) && n !in dead
      requires forall r :: r in order <==> r in refs && refs[r].node == n
      requires forall i, j :: 0 <= i < j < |order| ==> order[i] != order[j]
      modifies this
      ensures Inv(Now()) && Now() == NodeDies(old(Now()), n, todo)
    {
      hide Inv, Announced, NodeDies;
      ghost var s0 := Now();
      NodeDiesKeeps(s0, n, todo);
      AnnouncedAll(s0, n, order, todo);
      var i := 0;
      assert order[..i] == [];
      while i < |order|
        invariant 0 <= i <= |order| && refs == s0.refs && dead == s0.dead && log == s0.log
        invariant deaths == Announced(s0, n, order[..i], todo)
      {
        var r := order[i];
        assert r in order;
        AnnounceOne(s0, n, order, i, todo);
        if refs[r].death.Some? {
          var d := refs[r].death.value;
          assert deaths[d].where == Idle;
          deaths := deaths[d := deaths[d].(kind := DeadBinder, where := Todo(todo(refs[r].proc)))];
        }
        i := i + 1;
      }
      assert order[..i] == order;
      dead := dead + {n};
    }
  }

  // ---------- the loop over a dying node's references ----------

  /** The records once the references `done` have been visited. */
  ghost function Announced(s: State, n: Nid, done: seq<Rid>, todo: Pid -> Qid): map<Did, Record> {
    map d | d in s.deaths ::
      if Notified(s, n, d) && s.deaths[d].ref in done
          then s.deaths[d].(kind := DeadBinder, where := Todo(todo(s.deaths[d].proc)))
      else s.deaths[d]
  }

  lemma AnnouncedAll(s: State, n: Nid, order: seq<Rid>, todo: Pid -> Qid)
    requires forall r :: r in order <==> r in s.refs && s.refs[r].node == n
    ensures Announced(s, n, [], todo) == s.deaths
    ensures NodeDies(s, n, todo) == s.(dead := s.dead + {n}, deaths := Announced(s, n, order, todo))
  {
  }

  lemma AnnounceOne(s: State, n: Nid, order: seq<Rid>, i: nat, todo: Pid -> Qid)
    requires Inv(s) && n !in s.dead && i < |order| && order[i] in s.refs && s.refs[order[i]].node == n
    requires forall j :: 0 <= j < i ==> order[j] != order[i]
    ensures var r := order[i];
            var before, after := Announced(s, n, order[..i], todo), Announced(s, n, order[..i + 1], todo);
            if s.refs[r].death.None? then after == before
            else
              var d := s.refs[r].death.value;
              && d in before && before[d].where == Idle && s.refs[r].proc == s.deaths[d].proc
              && after == before[d := before[d].(kind := DeadBinder, where := Todo(todo(s.refs[r].proc)))]
  {
    var r := order[i];
    assert order[..i + 1] == order[..i] + [r];
    if s.refs[r].death.Some? {
      RequestedForRef(s, r);
      DyingFindsIdle(s, n, r);
      hide Inv;
      assert Notified(s, n, s.refs[r].death.value);
    }
  }
}
