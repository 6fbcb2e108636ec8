/** What a node's owner hears: over every run the commands for a node and the owner's acknowledgements
    follow one protocol, and the driver's flags are exactly where that protocol stands. */
module NodeTalk {
  import opened SizeMath
  import opened NodeRefs
  import opened NodeRuns
  import opened Unwind

  // ---------- the protocol ----------

  datatype Note = Told(command: Command) | Acked(strong: bool)

  /** The owner's view: which kinds of reference it has been asked to hold, and which of these requests it
      has not acknowledged yet. */
  datatype Owner = Owner(weak: bool, strong: bool, owesWeak: bool, owesStrong: bool)

  const SILENT := Owner(false, false, false, false)
  const KNOWN := Owner(true, true, false, false)

  /** What may come next; anything else breaks the protocol. */
  function Hear(o: Owner, note: Note): Option<Owner> {
    match note
    case Told(Increfs) => if o == SILENT then Some(o.(weak := true, owesWeak := true)) else None
    case Told(Acquire) => if o.weak && !o.strong then Some(o.(strong := true, owesStrong := true)) else None
    case Told(Release) => if o.strong && !o.owesStrong then Some(o.(strong := false)) else None
    case Told(Decrefs) => if o.weak && !o.strong && !o.owesWeak then Some(o.(weak := false)) else None
    case Told(Noop) => None
    case Acked(strong) =>
      if strong then if o.owesStrong then Some(o.(owesStrong := false)) else None
      else if o.owesWeak then Some(o.(owesWeak := false)) else None
  }

  function Heard(o: Owner, notes: seq<Note>): Option<Owner> {
    if notes == [] then Some(o)
    else
      var before := Heard(o, notes[..|notes| - 1]);
      if before.None? then None else Hear(before.value, notes[|notes| - 1])
  }

  /** Only what is held can be owed, and strong holding implies weak. */
  predicate Shaped(o: Owner) {
    (o.strong ==> o.weak) && (o.owesStrong ==> o.strong) && (o.owesWeak ==> o.weak)
  }

  lemma {:induction false} PrefixHeard(o: Owner, notes: seq<Note>, i: nat)
    requires i <= |notes| && Heard(o, notes).Some? && Shaped(o)
    ensures Heard(o, notes[..i]).Some? && Shaped(Heard(o, notes[..i]).value)
    ensures i < |notes| ==> Heard(o, notes[..i + 1]) == Hear(Heard(o, notes[..i]).value, notes[i])
    decreases |notes|
  {
    if i < |notes| {
      var shorter := notes[..|notes| - 1];
      PrefixHeard(o, shorter, i);
      assert shorter[..i] == notes[..i];
      if i < |shorter| {
        assert shorter[..i + 1] == notes[..i + 1];
      }
      assert notes[..i + 1][..i] == notes[..i];
    } else {
      assert notes[..i] == notes;
      if notes != [] {
        PrefixHeard(o, notes[..|notes| - 1], |notes| - 1);
        assert notes[..|notes| - 1][..|notes| - 1] == notes[..|notes| - 1];
      }
    }
  }

  // ---------- what the protocol means ----------

  /** The commands after which a command can come. */
  predicate Follows(before: Command, after: Command) {
    match after
    case Increfs => before == Decrefs
    case Acquire => before == Increfs || before == Release
    case Release => before == Acquire
    case Decrefs => before == Increfs || before == Release
    case Noop => false
  }

  /** What the owner holds right after a command. */
  predicate HoldsAfter(o: Owner, c: Command) {
    match c
    case Increfs => o.weak && !o.strong
    case Acquire => o.weak && o.strong
    case Release => o.weak && !o.strong
    case Decrefs => !o.weak && !o.strong
    case Noop => false
  }

  lemma {:induction false} HoldsUntilNext(o: Owner, notes: seq<Note>, i: nat, j: nat)
    requires i < j <= |notes| && Heard(o, notes).Some? && Shaped(o) && notes[i].Told?
    requires forall k :: i < k < j ==> notes[k].Acked?
    ensures Heard(o, notes[..j]).Some? && HoldsAfter(Heard(o, notes[..j]).value, notes[i].command)
    decreases j
  {
    PrefixHeard(o, notes, j - 1);
    PrefixHeard(o, notes, j);
    if i < j - 1 {
      HoldsUntilNext(o, notes, i, j - 1);
    }
  }

  /** Consecutive commands follow the grammar Increfs (Acquire Release)* Decrefs, repeated. */
  lemma Grammar(o: Owner, notes: seq<Note>, i: nat, j: nat)
    requires i < j < |notes| && Heard(o, notes).Some? && Shaped(o) && notes[i].Told? && notes[j].Told?
    requires forall k :: i < k < j ==> notes[k].Acked?
    ensures Follows(notes[i].command, notes[j].command)
  {
    HoldsUntilNext(o, notes, i, j);
    PrefixHeard(o, notes, j);
    PrefixHeard(o, notes, j + 1);
  }

  /** A node its owner does not know of is announced first. */
  lemma FirstIsIncrefs(notes: seq<Note>)
    requires notes != [] && Heard(SILENT, notes).Some?
    ensures notes[0] == Told(Increfs)
  {
    PrefixHeard(SILENT, notes, 0);
  }

  function Get(strong: bool): Note { Told(if strong then Acquire else Increfs) }

  function Put(strong: bool): Note { Told(if strong then Release else Decrefs) }

  /** A request stands until it is taken back, and is owed an acknowledgement until that comes. */
  lemma {:induction false} RequestStands(o: Owner, notes: seq<Note>, strong: bool, i: nat, j: nat)
    requires i < j <= |notes| && Heard(o, notes).Some? && Shaped(o) && notes[i] == Get(strong)
    requires forall k :: i < k < j ==> notes[k] != Put(strong)
    ensures Heard(o, notes[..j]).Some?
    ensures var v := Heard(o, notes[..j]).value;
            && (if strong then v.strong else v.weak)
            && ((forall k :: i < k < j ==> notes[k] != Acked(strong)) ==> if strong then v.owesStrong else v.owesWeak)
    decreases j
  {
    PrefixHeard(o, notes, j - 1);
    PrefixHeard(o, notes, j);
    if i < j - 1 {
      RequestStands(o, notes, strong, i, j - 1);
    }
  }

  /** Between two requests of the same kind the first is acknowledged and then taken back. */
  lemma NoSecondRequest(o: Owner, notes: seq<Note>, strong: bool, i: nat, j: nat)
    requires i < j < |notes| && Heard(o, notes).Some? && Shaped(o) && notes[i] == notes[j] == Get(strong)
    ensures exists a, r :: i < a < r < j && notes[a] == Acked(strong) && notes[r] == Put(strong)
  {
    TakenBack(o, notes, strong, i, j);
    var r := FirstAfter(notes, Put(strong), i, j);
    AckedFirst(o, notes, strong, i, r);
  }

  lemma TakenBack(o: Owner, notes: seq<Note>, strong: bool, i: nat, j: nat)
    requires i < j < |notes| && Heard(o, notes).Some? && Shaped(o) && notes[i] == notes[j] == Get(strong)
    ensures exists k :: i < k < j && notes[k] == Put(strong)
  {
    hide Heard;
    PrefixHeard(o, notes, j);
    PrefixHeard(o, notes, j + 1);
    if forall k :: i < k < j ==> notes[k] != Put(strong) {
      RequestStands(o, notes, strong, i, j);
    }
  }

  lemma AckedFirst(o: Owner, notes: seq<Note>, strong: bool, i: nat, r: nat)
    requires i < r < |notes| && Heard(o, notes).Some? && Shaped(o) && notes[i] == Get(strong) && notes[r] == Put(strong)
    requires forall k :: i < k < r ==> notes[k] != Put(strong)
    ensures exists a :: i < a < r && notes[a] == Acked(strong)
  {
    hide Heard;
    PrefixHeard(o, notes, r);
    PrefixHeard(o, notes, r + 1);
    RequestStands(o, notes, strong, i, r);
  }

  lemma FirstAfter(notes: seq<Note>, note: Note, i: nat, j: nat) returns (r: nat)
    requires i < j <= |notes| && exists k :: i < k < j && notes[k] == note
    ensures i < r < j && notes[r] == note && forall k :: i < k < r ==> notes[k] != note
  {
    r := i + 1;
    while notes[r] != note
      invariant i < r < j && (forall k :: i < k < r ==> notes[k] != note) && exists k :: r <= k < j && notes[k] == note
      decreases j - r
    {
      r := r + 1;
    }
  }

  // ---------- what is said in a run ----------

  function View(x: Node): Owner {
    Owner(x.hasWeak, x.hasStrong, x.pendWeak, x.pendStrong)
  }

  /** What passes between driver and owner about a node in one event. */
  function Said(s: State, e: Event, n: Nid): seq<Note>
    requires n in s.nodes
  {
    match e
    case ReadWork(m) => if m == n && NextCommand(s, n) != Noop then [Told(NextCommand(s, n))] else []
    case AckCommand(m, strong) =>
      if m == n && (if strong then s.nodes[n].pendStrong else s.nodes[n].pendWeak) then [Acked(strong)] else []
    case _ => []
  }

  /** What has passed about a node since it was made; the manager's node is known from the start. */
  datatype Talk = Talk(start: Owner, notes: seq<Note>)

  ghost function NextTalks(s: State, t: map<Nid, Talk>, e: Event): map<Nid, Talk>
    requires Enabled(s, e)
  {
    map n | n in Apply(s, e).nodes ::
      if n in s.nodes && n in t then Talk(t[n].start, t[n].notes + Said(s, e, n))
      else Talk(if e.SetManager? then KNOWN else SILENT, [])
  }

  ghost function Talks(s: State, t: map<Nid, Talk>, es: seq<Event>): map<Nid, Talk>
    requires IsRun(s, es)
    decreases |es|
  {
    if es == [] then t else Talks(Apply(s, es[0]), NextTalks(s, t, es[0]), es[1..])
  }

  // ---------- events that say nothing ----------

  /** A node keeps its owner and its flags; one that goes leaves nothing held with a live owner; a new one
      starts silent. */
  ghost predicate QuietAt(s: State, s': State, m: Nid) {
    && (m in s.nodes && m in s'.nodes ==> SameRecord(s'.nodes[m], s.nodes[m]))
    && (m in s.nodes && m !in s'.nodes ==> s.nodes[m].owner.None? || (!s.nodes[m].hasStrong && !s.nodes[m].hasWeak))
    && (m !in s.nodes && m in s'.nodes ==> View(s'.nodes[m]) == SILENT)
  }

  ghost predicate Quiet(s: State, s': State) {
    forall m {:trigger QuietAt(s, s', m)} :: QuietAt(s, s', m)
  }

  lemma QuietThen(s: State, s1: State, s2: State)
    requires Quiet(s, s1) && Quiet(s1, s2) && (s.nodes.Keys <= s1.nodes.Keys || s2.nodes.Keys <= s1.nodes.Keys)
    ensures Quiet(s, s2)
  {
    forall m
      ensures QuietAt(s, s2, m)
    {
      assert QuietAt(s, s1, m) && QuietAt(s1, s2, m);
    }
  }

  lemma StepIsQuiet(s: State, s': State, n: Nid)
    requires NodeStep(s, s', n)
    ensures Quiet(s, s') && s'.nodes.Keys <= s.nodes.Keys
  {
    forall m
      ensures QuietAt(s, s', m) && (m in s'.nodes ==> m in s.nodes)
    {
      assert m != n ==> (m in s.nodes <==> m in s.nodes - {n}) && (m in s'.nodes <==> m in s'.nodes - {n});
    }
  }

  lemma SameNodesQuiet(s: State, s': State)
    requires s'.nodes == s.nodes
    ensures Quiet(s, s')
  {
    forall m
      ensures QuietAt(s, s', m)
    {
    }
  }

  lemma IncIsQuiet(s: State, s': State, n: Nid, strong: bool, internal: bool, list: bool)
    requires n in s.nodes && s'.nodes == IncNode(s, n, strong, internal, list).0.nodes
    ensures Quiet(s, s') && s'.nodes.Keys == s.nodes.Keys
  {
    IncFlags(s, n, strong, internal, list);
    hide IncNode;
    forall m
      ensures QuietAt(s, s', m)
    {
    }
  }

  lemma IncFlags(s: State, n: Nid, strong: bool, internal: bool, list: bool)
    requires n in s.nodes
    ensures var nodes := IncNode(s, n, strong, internal, list).0.nodes;
            && nodes.Keys == s.nodes.Keys && SameRecord(nodes[n], s.nodes[n])
            && forall m :: m in s.nodes && m != n ==> nodes[m] == s.nodes[m]
  {
    IncFields(s, n, strong, internal, list);
    hide IncNode;
    var nodes := IncNode(s, n, strong, internal, list).0.nodes;
    assert forall m :: m != n ==> (m in s.nodes <==> m in s.nodes - {n}) && (m in nodes <==> m in nodes - {n});
    assert forall m :: m in s.nodes && m != n ==> (nodes - {n})[m] == nodes[m] && (s.nodes - {n})[m] == s.nodes[m];
  }

  lemma AddIsQuiet(s: State, p: Pid, n: Nid, d: nat, strong: bool, list: bool)
    requires RefsOk(s) && n in s.nodes && Handle(p, d) !in s.refs
    ensures Quiet(s, AddRef(s, p, n, d, strong, list).0)
    ensures AddRef(s, p, n, d, strong, list).0.nodes.Keys == s.nodes.Keys
  {
    hide IncNode, Quiet;
    WithRefRefs(s, p, n, d);
    var s1, s' := WithRef(s, p, n, d), AddRef(s, p, n, d, strong, list).0;
    if s'.nodes == s.nodes { SameNodesQuiet(s, s'); } else {
      IncIsQuiet(s1, s', n, strong, true, list);
      SameNodesQuiet(s, s1);
      QuietThen(s, s1, s');
    }
  }

  lemma HoldIsQuiet(s: State, b: Bid, n: Nid, d: nat, strong: bool, list: bool)
    requires RefsOk(s) && b in s.bufs && n in s.nodes && Handle(s.bufs[b].owner, d) !in s.refs
    ensures Quiet(s, HoldRef(s, b, n, d, strong, list))
  {
    hide AddRef, Quiet;
    var s1, s' := AddRef(s, s.bufs[b].owner, n, d, strong, list).0, HoldRef(s, b, n, d, strong, list);
    AddIsQuiet(s, s.bufs[b].owner, n, d, strong, list);
    SameNodesQuiet(s1, s');
    QuietThen(s, s1, s');
  }

  lemma NewIsQuiet(s: State, n: Nid, p: Pid)
    requires n !in s.nodes
    ensures Quiet(s, NewNode(s, n, p))
  {
    forall m
      ensures QuietAt(s, NewNode(s, n, p), m)
    {
    }
  }

  lemma DecRefIsQuiet(s: State, k: Handle, strong: bool)
    requires k in s.refs && s.refs[k].node in s.nodes
    ensures Quiet(s, DecRef(s, k, strong)) && DecRef(s, k, strong).nodes.Keys <= s.nodes.Keys
  {
    hide DecNode, DeleteRef, NodeStep, Quiet;
    if if strong then s.refs[k].strong != 0 else s.refs[k].weak != 0 {
      DecRefEffect(s, k, strong);
      StepIsQuiet(s, DecRef(s, k, strong), s.refs[k].node);
    } else {
      SameNodesQuiet(s, DecRef(s, k, strong));
    }
  }

  lemma DecIsQuiet(s: State, t: State, n: Nid, strong: bool)
    requires t.nodes == s.nodes && n in t.nodes
    ensures Quiet(s, DecNode(t, n, strong, false)) && DecNode(t, n, strong, false).nodes.Keys <= s.nodes.Keys
  {
    hide DecNode, NodeStep, Quiet;
    DecNodeStep(t, n, strong, false);
    StepIsQuiet(t, DecNode(t, n, strong, false), n);
    SameNodesQuiet(s, t);
    QuietThen(s, t, DecNode(t, n, strong, false));
  }

  lemma DropIsQuiet(s: State, b: Bid, i: nat)
    requires b in s.bufs && i < |s.bufs[b].objs|
    ensures Quiet(s, DropObject(s, b, i)) && DropObject(s, b, i).nodes.Keys <= s.nodes.Keys
  {
    hide DecNode, DecRef, Quiet;
    var t := SetBuffer(s, b, s.bufs[b].(objs := s.bufs[b].objs[i := Gone]));
    SameNodesQuiet(s, t);
    match s.bufs[b].objs[i]
    case Gone =>
    case HeldNode(n, strong) =>
      if n in t.nodes { DecIsQuiet(s, t, n, strong); }
    case HeldRef(desc, strong) =>
      var k := Lookup(t, s.bufs[b].owner, desc, strong);
      if k.Some? && t.refs[k.value].node in t.nodes {
        DecRefIsQuiet(t, k.value, strong);
        QuietThen(s, t, DecRef(t, k.value, strong));
      }
  }

  lemma {:induction false} DeletesAreQuiet(s: State, ks: seq<Handle>)
    ensures Quiet(s, DeleteRefs(s, ks)) && DeleteRefs(s, ks).nodes.Keys <= s.nodes.Keys
    decreases |ks|
  {
    hide DeleteRef, NodeStep, Quiet;
    if ks == [] {
      SameNodesQuiet(s, s);
    } else if ks[0] in s.refs && s.refs[ks[0]].node in s.nodes {
      var s1 := DeleteRef(s, ks[0]);
      DeleteRefEffect(s, ks[0]);
      StepIsQuiet(s, s1, s.refs[ks[0]].node);
      DeletesAreQuiet(s1, ks[1..]);
      QuietThen(s, s1, DeleteRefs(s1, ks[1..]));
    } else {
      DeletesAreQuiet(s, ks[1..]);
    }
  }

  predicate Speaks(e: Event) { e.ReadWork? || e.AckCommand? || e.SetManager? || e.ProcessExit? }

  lemma CommandIsQuiet(s: State, p: Pid, desc: nat, strong: bool, d: nat)
    requires Inv(s) && Enabled(s, IncCommand(p, desc, strong, d))
    ensures Quiet(s, Apply(s, IncCommand(p, desc, strong, d)))
  {
    hide Inv, IncNode, Quiet, AddRef;
    RefsOfInv(s);
    if desc == 0 && s.mgr.Some? {
      ManagerUsed(s);
      LeastFree(s, p, 0, d);
      AddIsQuiet(s, p, s.mgr.value, d, strong, false);
    } else {
      var k := Handle(p, desc);
      RefUsesNode(s, k);
      AddIsInc(s, p, k, d, strong);
      AddIsQuiet(s, p, s.refs[k].node, d, strong, false);
    }
  }

  lemma LeastFree(s: State, p: Pid, start: nat, d: nat)
    requires IsLeastFree(s, p, start, d)
    ensures Handle(p, d) !in s.refs
  {
  }

  lemma PutIsQuiet(s: State, b: Bid, p: Pid, n: Nid, d: nat, strong: bool)
    requires Inv(s) && Enabled(s, PutBinder(b, p, n, d, strong))
    ensures Quiet(s, PutBinderOf(s, b, p, n, d, strong))
  {
    hide Inv, HoldRef, Quiet;
    LeastFree(s, s.bufs[b].owner, Start(s, n), d);
    var s1 := if n in s.nodes then s else NewNode(s, n, p);
    if n !in s.nodes {
      NewNodeKeeps(s, n, p);
      NewIsQuiet(s, n, p);
    } else {
      SameNodesQuiet(s, s1);
    }
    RefsOfInv(s1);
    HoldIsQuiet(s1, b, n, d, strong, true);
    QuietThen(s, s1, HoldRef(s1, b, n, d, strong, true));
  }

  lemma HandleIsQuiet(s: State, b: Bid, p: Pid, desc: nat, d: nat, strong: bool)
    requires Inv(s) && Enabled(s, PutHandle(b, p, desc, d, strong))
    ensures Quiet(s, PutHandleOf(s, b, p, desc, d, strong))
  {
    hide Inv, IncNode, HoldRef, Quiet;
    var n := s.refs[Handle(p, desc)].node;
    if s.nodes[n].owner == Some(s.bufs[b].owner) {
      IncIsQuiet(s, HoldNode(s, b, n, strong), n, strong, false, false);
    } else {
      RefsOfInv(s);
      LeastFree(s, s.bufs[b].owner, Start(s, n), d);
      HoldIsQuiet(s, b, n, d, strong, false);
    }
  }

  lemma OthersAreQuiet(s: State, e: Event)
    requires Inv(s) && Enabled(s, e) && !Speaks(e)
    ensures Quiet(s, Apply(s, e))
  {
    hide Inv, Quiet, IncNode, DecNode, DecRef, DropObject, PutBinderOf, PutHandleOf, IsLeastFree;
    match e
    case IncCommand(p, desc, strong, d) => CommandIsQuiet(s, p, desc, strong, d);
    case DecCommand(p, desc, strong) => DecRefIsQuiet(s, Handle(p, desc), strong);
    case StartCall(b, p, desc) => IncIsQuiet(s, Apply(s, e), CallTarget(s, p, desc).value, true, false, false);
    case StartReply(b, q) => SameNodesQuiet(s, Apply(s, e));
    case PutBinder(b, p, n, d, strong) => PutIsQuiet(s, b, p, n, d, strong);
    case PutHandle(b, p, desc, d, strong) => HandleIsQuiet(s, b, p, desc, d, strong);
    case LeaveNode(p, n) => NewIsQuiet(s, n, p);
    case FreeTarget(b) => DecIsQuiet(s, SetBuffer(s, b, s.bufs[b].(target := None)), s.bufs[b].target.value, true);
    case FreeObject(b, i) => DropIsQuiet(s, b, i);
    case FreeBuffer(b) => SameNodesQuiet(s, Apply(s, e));
  }

  // ---------- events that speak ----------

  /** One event takes the owner's view from the node's old flags to its new ones. */
  ghost predicate Spoken(s: State, e: Event, n: Nid)
    requires Enabled(s, e)
  {
    var s' := Apply(s, e);
    && (n in s.nodes && n in s'.nodes && Shaped(View(s.nodes[n])) ==>
          Heard(View(s.nodes[n]), Said(s, e, n)) == Some(View(s'.nodes[n])))
    && (n !in s.nodes && n in s'.nodes ==> View(s'.nodes[n]) == if e.SetManager? then KNOWN else SILENT)
    && (&& n in s.nodes && n !in s'.nodes && s.nodes[n].owner.Some?
        && !(e.ProcessExit? && s.nodes[n].owner == Some(e.p)) ==>
          View(s.nodes[n]) == SILENT && Said(s, e, n) == [])
  }

  lemma HeardOne(o: Owner, note: Note)
    ensures Heard(o, [note]) == Hear(o, note) && Heard(o, []) == Some(o)
  {
    assert [note][..0] == [];
  }

  /** What the owner owes is counted. */
  lemma OwedIsCounted(s: State, n: Nid)
    requires Inv(s) && n in s.nodes && s.nodes[n].owner.Some?
    ensures var x := s.nodes[n];
            && (x.pendStrong ==> x.hasStrong && StrongNow(x)) && (x.pendWeak ==> x.hasWeak && WeakNow(s, n))
  {
    assert NodeOk(s, n);
  }

  lemma WorkSaid(s: State, n: Nid)
    requires Inv(s) && Enabled(s, ReadWork(n))
    ensures var s', x := NodeWork(s, n), s.nodes[n];
            && (n in s'.nodes && Shaped(View(x)) ==>
                  if NextCommand(s, n) == Noop then View(s'.nodes[n]) == View(x)
                  else Hear(View(x), Told(NextCommand(s, n))) == Some(View(s'.nodes[n])))
            && (n !in s'.nodes ==> View(x) == SILENT && NextCommand(s, n) == Noop)
  {
    OwedIsCounted(s, n);
    hide Inv, RefsOf;
  }

  lemma WorkElsewhere(s: State, n: Nid)
    requires n in s.nodes
    ensures NodeWork(s, n).nodes - {n} == s.nodes - {n}
  {
    hide StrongNow, WeakNow;
  }

  lemma WorkSpoken(s: State, n: Nid, m: Nid)
    requires Inv(s) && Enabled(s, ReadWork(n))
    ensures Spoken(s, ReadWork(n), m)
  {
    hide Inv, Heard, Hear, NextCommand, NodeWork;
    WorkSaid(s, n);
    WorkElsewhere(s, n);
    HeardOne(View(s.nodes[n]), Told(NextCommand(s, n)));
    assert m != n ==>
             && (m in s.nodes <==> m in s.nodes - {n})
             && (m in NodeWork(s, n).nodes <==> m in NodeWork(s, n).nodes - {n});
    if m in s.nodes { HeardOne(View(s.nodes[m]), Acked(true)); }
  }

  lemma AckSpoken(s: State, n: Nid, strong: bool, m: Nid)
    requires Inv(s) && Enabled(s, AckCommand(n, strong))
    ensures Spoken(s, AckCommand(n, strong), m)
  {
    hide DecNode, NodeStep;
    var x := s.nodes[n];
    assert NodeOk(s, n);
    HeardOne(View(x), Acked(strong));
    if if strong then x.pendStrong else x.pendWeak {
      var t := s.(nodes := s.nodes[n := if strong then x.(pendStrong := false) else x.(pendWeak := false)]);
      DecNodeStep(t, n, strong, false);
      StepIsQuiet(t, Done(s, n, strong), n);
      assert QuietAt(t, Done(s, n, strong), m);
    }
    if m in s.nodes {
      assert NodeOk(s, m);
      HeardOne(View(s.nodes[m]), Acked(strong));
    }
  }

  lemma ExitSpoken(s: State, p: Pid, ks: seq<Handle>, m: Nid)
    requires Inv(s) && Enabled(s, ProcessExit(p, ks))
    ensures Spoken(s, ProcessExit(p, ks), m)
  {
    var s1 := ExitNodes(s, p);
    DeletesAreQuiet(s1, ks);
    assert QuietAt(s1, DeleteRefs(s1, ks), m);
    if m in s.nodes {
      assert NodeOk(s, m);
      HeardOne(View(s.nodes[m]), Acked(true));
    }
  }

  lemma EventSpoken(s: State, e: Event, m: Nid)
    requires Inv(s) && Enabled(s, e)
    ensures Spoken(s, e, m)
  {
    hide Enabled, Apply;
    if Speaks(e) {
      match e
      case ReadWork(n) => WorkSpoken(s, n, m);
      case AckCommand(n, strong) => AckSpoken(s, n, strong, m);
      case ProcessExit(p, ks) => ExitSpoken(s, p, ks, m);
      case SetManager(p, n) => ManagerSpoken(s, p, n, m);
    } else {
      OthersAreQuiet(s, e);
      assert QuietAt(s, Apply(s, e), m);
      if m in s.nodes {
        assert NodeOk(s, m);
        HeardOne(View(s.nodes[m]), Acked(true));
      }
    }
  }

  lemma ManagerSpoken(s: State, p: Pid, n: Nid, m: Nid)
    requires Inv(s) && Enabled(s, SetManager(p, n))
    ensures Spoken(s, SetManager(p, n), m)
  {
    if m in s.nodes { HeardOne(View(s.nodes[m]), Acked(true)); }
  }

  // ---------- whole runs ----------

  ghost predicate TalkOk(s: State, t: map<Nid, Talk>, n: Nid) {
    n in s.nodes ==>
      && n in t && (t[n].start == SILENT || t[n].start == KNOWN)
      && Heard(t[n].start, t[n].notes) == Some(View(s.nodes[n]))
  }

  ghost predicate TalksOk(s: State, t: map<Nid, Talk>) {
    forall n {:trigger TalkOk(s, t, n)} :: TalkOk(s, t, n)
  }

  lemma {:induction false} HeardThen(o: Owner, notes: seq<Note>, more: seq<Note>)
    requires |more| <= 1 && Heard(o, notes).Some?
    ensures Heard(o, notes + more) == Heard(Heard(o, notes).value, more)
  {
    if more == [] {
      assert notes + more == notes;
    } else {
      assert more == [more[0]];
      HeardOne(Heard(o, notes).value, more[0]);
      assert (notes + more)[..|notes|] == notes;
    }
  }

  lemma TalkStep(s: State, t: map<Nid, Talk>, e: Event, n: Nid)
    requires Inv(s) && Enabled(s, e) && TalksOk(s, t)
    ensures TalkOk(Apply(s, e), NextTalks(s, t, e), n)
  {
    hide Inv, Enabled, Apply, Hear;
    assert TalkOk(s, t, n);
    EventSpoken(s, e, n);
    if n in s.nodes {
      PrefixHeard(t[n].start, t[n].notes, |t[n].notes|);
      assert t[n].notes[..|t[n].notes|] == t[n].notes;
      HeardThen(t[n].start, t[n].notes, Said(s, e, n));
    }
  }

  lemma {:induction false} RunsTalk(s: State, t: map<Nid, Talk>, es: seq<Event>)
    requires Inv(s) && TalksOk(s, t) && IsRun(s, es)
    ensures TalksOk(After(s, es), Talks(s, t, es))
    decreases |es|
  {
    hide Inv, Enabled, Apply, NextTalks, TalkOk;
    if es != [] {
      StepKeeps(s, es[0]);
      forall n
        ensures TalkOk(Apply(s, es[0]), NextTalks(s, t, es[0]), n)
      {
        TalkStep(s, t, es[0], n);
      }
      RunsTalk(Apply(s, es[0]), NextTalks(s, t, es[0]), es[1..]);
    }
  }

  /** In every run, for every node there is: what has passed about it keeps to the protocol, and the driver's
      flags are the owner's view. */
  lemma EveryTalk(es: seq<Event>, n: Nid)
    requires IsRun(EMPTY, es) && n in After(EMPTY, es).nodes
    ensures n in Talks(EMPTY, map[], es)
    ensures var t := Talks(EMPTY, map[], es)[n];
            && Shaped(t.start) && (t.start == SILENT || t.start == KNOWN)
            && Heard(t.start, t.notes) == Some(View(After(EMPTY, es).nodes[n]))
  {
    hide IsRun, After, Talks;
    assert Inv(EMPTY) && TalksOk(EMPTY, map[]);
    RunsTalk(EMPTY, map[], es);
    assert TalkOk(After(EMPTY, es), Talks(EMPTY, map[], es), n);
  }

  /** In every run: commands follow one another as the grammar says, a second request comes only after the
      first was acknowledged and taken back, and a node that is freed while its owner lives has left its
      owner holding and owing nothing. */
  lemma EveryOwner(es: seq<Event>, n: Nid)
    requires IsRun(EMPTY, es) && n in After(EMPTY, es).nodes && n in Talks(EMPTY, map[], es)
    ensures var notes := Talks(EMPTY, map[], es)[n].notes;
            && (forall i, j :: 0 <= i < j < |notes| && notes[i].Told? && notes[j].Told?
                               && (forall k :: i < k < j ==> notes[k].Acked?) ==>
                  Follows(notes[i].command, notes[j].command))
            && (Talks(EMPTY, map[], es)[n].start == SILENT && notes != [] ==> notes[0] == Told(Increfs))
            && (forall i, j, strong :: 0 <= i < j < |notes| && notes[i] == Get(strong) && notes[j] == Get(strong) ==>
                  exists a, r :: i < a < r < j && notes[a] == Acked(strong) && notes[r] == Put(strong))
    ensures forall e :: Enabled(After(EMPTY, es), e) && n !in Apply(After(EMPTY, es), e).nodes
                        && After(EMPTY, es).nodes[n].owner.Some?
                        && !(e.ProcessExit? && After(EMPTY, es).nodes[n].owner == Some(e.p)) ==>
              View(After(EMPTY, es).nodes[n]) == SILENT
  {
    hide IsRun, After, Talks, Enabled, Apply, Inv, Heard, Follows;
    EveryTalk(es, n);
    EveryRun(es);
    var o, notes := Talks(EMPTY, map[], es)[n].start, Talks(EMPTY, map[], es)[n].notes;
    forall i, j |
      && 0 <= i < j < |notes| && notes[i].Told? && notes[j].Told?
      && (forall k :: i < k < j ==> notes[k].Acked?)
      ensures Follows(notes[i].command, notes[j].command)
    {
      Grammar(o, notes, i, j);
    }
    forall i, j, strong | 0 <= i < j < |notes| && notes[i] == Get(strong) && notes[j] == Get(strong)
      ensures exists a, r :: i < a < r < j && notes[a] == Acked(strong) && notes[r] == Put(strong)
    {
      NoSecondRequest(o, notes, strong, i, j);
    }
    if o == SILENT && notes != [] { FirstIsIncrefs(notes); }
    forall e | Enabled(After(EMPTY, es), e) && n !in Apply(After(EMPTY, es), e).nodes
               && After(EMPTY, es).nodes[n].owner.Some?
               && !(e.ProcessExit? && After(EMPTY, es).nodes[n].owner == Some(e.p))
      ensures View(After(EMPTY, es).nodes[n]) == SILENT
    {
      EventSpoken(After(EMPTY, es), e, n);
    }
  }
}
