/** A failed transaction as a whole: one list of objects, one place of failure, one pass over the buffer that
    reads every object back, drops what binders and handles hold and closes descriptors. */
module FailedTransaction {
  import ByteMemory
  import FdUnwind
  import Objects
  import opened NodeRefs
  import opened NodeRuns
  import opened NodeTalk
  import opened RefDriver
  import opened SizeMath
  import opened Unwind
  import opened UnwindExactly

  type Input = Objects.Input
  type Byte = ByteMemory.Byte

  // ---------- binders and handles in the buffer ----------

  const BINDER := 0x7362_2a85
  const WEAK_BINDER := 0x7762_2a85
  const HANDLE := 0x7368_2a85
  const WEAK_HANDLE := 0x7768_2a85

  /** The 24 bytes of a translated object say what it holds: its type, and the descriptor of a reference or
      the address by which the owner knows its node. */
  predicate Says(bytes: seq<Byte>, h: Held, ptr: Nid -> nat) {
    && |bytes| == 24
    && match h
       case HeldNode(n, strong) =>
         && ByteMemory.Get(bytes, 0, 4) == (if strong then BINDER else WEAK_BINDER)
         && ByteMemory.Get(bytes, 8, 8) == ptr(n)
       case HeldRef(desc, strong) =>
         && ByteMemory.Get(bytes, 0, 4) == (if strong then HANDLE else WEAK_HANDLE)
         && ByteMemory.Get(bytes, 8, 4) == desc
       case Gone => false
  }

  /** binder_get_node. */
  ghost function FindNode(s: State, p: Pid, ptr: Nid -> nat, v: nat): Option<Nid> {
    if exists n :: n in OwnNodes(s, p) && ptr(n) == v
    then Some(var n :| n in OwnNodes(s, p) && ptr(n) == v; n)
    else None
  }

  function OwnNodes(s: State, p: Pid): set<Nid> {
    set n | n in s.nodes && s.nodes[n].owner == Some(p)
  }

  /** The release reads an object. */
  ghost function Reread(s: State, p: Pid, ptr: Nid -> nat, mem: seq<Byte>, at: nat): Held {
    var t := ByteMemory.Get(mem, at, 4);
    if t == BINDER || t == WEAK_BINDER then
      var n := FindNode(s, p, ptr, ByteMemory.Get(mem, at + 8, 8));
      if n.Some? then HeldNode(n.value, t == BINDER) else Gone
    else if t == HANDLE || t == WEAK_HANDLE then HeldRef(ByteMemory.Get(mem, at + 8, 4), t == HANDLE)
    else Gone
  }

  /** No process has two nodes with one address. */
  ghost predicate Distinct(nodes: set<Nid>, ptr: Nid -> nat) {
    forall n, m :: n in nodes && m in nodes && ptr(n) == ptr(m) ==> n == m
  }

  lemma GetWithin(mem: seq<Byte>, at: nat, bytes: seq<Byte>, from: nat, len: nat)
    requires at + |bytes| <= |mem| && mem[at..at + |bytes|] == bytes && from + len <= |bytes|
    ensures ByteMemory.Get(mem, at + from, len) == ByteMemory.Get(bytes, from, len)
  {
    var u, v := mem[at + from..at + from + len], bytes[from..from + len];
    forall i | 0 <= i < len
      ensures u[i] == v[i]
    {
      assert u[i] == mem[at + (from + i)] == mem[at..at + |bytes|][from + i];
    }
    assert u == v;
  }

  /** An object whose bytes are still there is read as what the buffer holds. */
  lemma ReadsBack(s: State, p: Pid, ptr: Nid -> nat, mem: seq<Byte>, at: nat, bytes: seq<Byte>, h: Held)
    requires at + 24 <= |mem| && mem[at..at + 24] == bytes && Says(bytes, h, ptr)
    requires h.HeldNode? ==> h.node in OwnNodes(s, p) && Distinct(OwnNodes(s, p), ptr)
    ensures Reread(s, p, ptr, mem, at) == h
  {
    hide ByteMemory.Get;
    GetWithin(mem, at, bytes, 0, 4);
    GetWithin(mem, at, bytes, 8, 8);
    GetWithin(mem, at, bytes, 8, 4);
  }

  // ---------- the release ----------

  /** How many of the first `k` objects are binders or handles. */
  function Flats(inp: Input, k: nat): nat
    requires k <= |inp.objs|
  {
    if k == 0 then 0 else Flats(inp, k - 1) + if inp.objs[k - 1].Flat? then 1 else 0
  }

  lemma {:induction false} FlatsGrow(inp: Input, j: nat, k: nat)
    requires j <= k <= |inp.objs|
    ensures Flats(inp, j) <= Flats(inp, k)
    decreases k
  {
    if j < k {
      FlatsGrow(inp, j, k - 1);
    }
  }

  /** The object loop of binder_transaction_buffer_release from object `j` on, after a failure at object
      `n`; object `i` of those the buffer holds is the next binder or handle. */
  ghost function ReleaseAll(inp: Input, base: nat, mem: seq<Byte>, ptr: Nid -> nat, b: Bid, s: State, files: set<nat>,
          i: nat, j: nat, n: nat): (State, set<nat>)
    requires Objects.Shaped(inp) && n <= |inp.objs|
    decreases n - j
  {
    if j >= n then (s, files)
    else if Objects.ValidateObject(inp.dataSize, inp.offsets[j], inp.objs[j]) == 0 then
      ReleaseAll(inp, base, mem, ptr, b, s, files, i, j + 1, n)
    else if inp.objs[j].Flat? then
      if b in s.bufs && i < |s.bufs[b].objs| then
        var h := Reread(s, s.bufs[b].owner, ptr, mem, inp.offsets[j]);
        ReleaseAll(inp, base, mem, ptr, b, DropAs(s, b, i, h), files, i + 1, j + 1, n)
      else (s, files)
    else
      var closed := FdUnwind.SetOf(FdUnwind.ClosedAt(inp, base, mem, j, true));
      ReleaseAll(inp, base, mem, ptr, b, s, files - closed, i, j + 1, n)
  }

  /** The buffer's bytes say what the buffer holds. */
  ghost predicate AllSay(inp: Input, env: FdUnwind.Env, ptr: Nid -> nat, objs: seq<Held>, j: nat, n: nat)
    requires n <= |inp.objs|
  {
    && |objs| == Flats(inp, n)
    && forall k {:trigger Flats(inp, k)} :: j <= k < n && inp.objs[k].Flat? && Flats(inp, k) < |objs| ==>
         Says(env.bytes(k), objs[Flats(inp, k)], ptr)
  }

  lemma OwnShrinks(s: State, s': State, p: Pid)
    requires Quiet(s, s') && s'.nodes.Keys <= s.nodes.Keys
    ensures OwnNodes(s', p) <= OwnNodes(s, p)
  {
    forall n | n in OwnNodes(s', p)
      ensures n in OwnNodes(s, p)
    {
      assert QuietAt(s, s', n);
    }
  }

  /** One binder or handle. */
  lemma DropsWhatItHolds(inp: Input, env: FdUnwind.Env, p: Objects.Progress, mem: seq<Byte>, ptr: Nid -> nat, b: Bid,
          s: State, j: nat, n: nat)
    requires Objects.Shaped(inp) && j < n <= |inp.objs| && Objects.Good(inp, n, p) && inp.objs[j].Flat?
    requires FdUnwind.Delivers(inp, env) && FdUnwind.Holds(inp, p, env, mem, n)
    requires Inv(s) && b in s.bufs && AllSay(inp, env, ptr, s.bufs[b].objs, j, n)
    requires Distinct(OwnNodes(s, s.bufs[b].owner), ptr)
    ensures Flats(inp, j) < |s.bufs[b].objs|
    ensures var i := Flats(inp, j);
            var s' := DropObject(s, b, i);
            && DropAs(s, b, i, Reread(s, s.bufs[b].owner, ptr, mem, inp.offsets[j])) == s'
            && Inv(s') && b in s'.bufs && s'.bufs[b].owner == s.bufs[b].owner
            && |s'.bufs[b].objs| == |s.bufs[b].objs|
            && AllSay(inp, env, ptr, s'.bufs[b].objs, j + 1, n) && Distinct(OwnNodes(s', s.bufs[b].owner), ptr)
  {
    hide Objects.Good, Objects.ValidateObject, DropAs, ByteMemory.Get, Says, Reread, Quiet, NodesOk;
    var i, o := Flats(inp, j), s.bufs[b].owner;
    FlatsGrow(inp, j + 1, n);
    var h := s.bufs[b].objs[i];
    assert FdUnwind.ObjHolds(inp, p, env, mem, j);
    assert Says(env.bytes(j), h, ptr);
    ReadsBack(s, o, ptr, mem, inp.offsets[j], env.bytes(j), h);
    DropObjectKeeps(s, b, i);
    DropObjectBuffer(s, b, i);
    DropIsQuiet(s, b, i);
    var s' := DropObject(s, b, i);
    OwnShrinks(s, s', o);
    forall k | j + 1 <= k < n && inp.objs[k].Flat? && Flats(inp, k) < |s'.bufs[b].objs|
      ensures Says(env.bytes(k), s'.bufs[b].objs[Flats(inp, k)], ptr)
    {
      FlatsGrow(inp, j + 1, k);
      assert Says(env.bytes(k), s.bufs[b].objs[Flats(inp, k)], ptr);
    }
  }

  /** The whole loop drops what the buffer holds and closes what was installed. */
  lemma {:induction false} ReleasesAll(inp: Input, env: FdUnwind.Env, p: Objects.Progress, mem: seq<Byte>,
          ptr: Nid -> nat, b: Bid, s: State, open: set<nat>, j: nat, n: nat)
    requires Objects.Shaped(inp) && j <= n <= |inp.objs| && Objects.Good(inp, n, p)
    requires FdUnwind.Delivers(inp, env) && FdUnwind.Holds(inp, p, env, mem, n)
    requires Inv(s) && b in s.bufs && AllSay(inp, env, ptr, s.bufs[b].objs, j, n)
    requires Distinct(OwnNodes(s, s.bufs[b].owner), ptr)
    ensures var files := open - FdUnwind.SetOf(FdUnwind.Closed(inp, env.base, mem, j, true));
            var (s', files') := ReleaseAll(inp, env.base, mem, ptr, b, s, files, Flats(inp, j), j, n);
            && s' == ReleaseFrom(s, b, Flats(inp, j))
            && files' == open - FdUnwind.SetOf(FdUnwind.Closed(inp, env.base, mem, n, true))
    decreases n - j
  {
    hide Objects.Good, Objects.ValidateObject, DropAs, DropObject, Reread, Inv, FdUnwind.Holds, FdUnwind.ClosedAt;
    hide Says, OwnNodes;
    if j < n {
      FdUnwind.PassesAgain(inp, p, n, j);
      var closed := FdUnwind.ClosedAt(inp, env.base, mem, j, true);
      if inp.objs[j].Flat? {
        NoneClosed(inp, env.base, mem, j);
        DropsWhatItHolds(inp, env, p, mem, ptr, b, s, j, n);
        ReleasesAll(inp, env, p, mem, ptr, b, DropObject(s, b, Flats(inp, j)), open, j + 1, n);
      } else {
        var files := open - FdUnwind.SetOf(FdUnwind.Closed(inp, env.base, mem, j, true));
        assert files - FdUnwind.SetOf(closed)
            == open - FdUnwind.SetOf(FdUnwind.Closed(inp, env.base, mem, j + 1, true));
        ReleasesAll(inp, env, p, mem, ptr, b, s, open, j + 1, n);
      }
    }
  }

  lemma NoneClosed(inp: Input, base: nat, mem: seq<Byte>, j: nat)
    requires Objects.Shaped(inp) && j < |inp.objs| && inp.objs[j].Flat?
    ensures FdUnwind.ClosedAt(inp, base, mem, j, true) == []
    ensures FdUnwind.Closed(inp, base, mem, j + 1, true) == FdUnwind.Closed(inp, base, mem, j, true)
  {
  }

  // ---------- one object of the buffer for each binder or handle of the list ----------

  lemma HoldsOneMore(s: State, b: Bid, p: Pid, put: Put)
    requires Inv(s) && Enabled(s, AsEvent(b, p, put))
    ensures var s' := Apply(s, AsEvent(b, p, put)); b in s'.bufs && |s'.bufs[b].objs| == |s.bufs[b].objs| + 1
  {
    hide IncNode, AddRef, NodesOk, WeakNow, StrongNow, IsLeastFree, NodeStep;
    match put
    case BinderOf(n, d, strong) =>
      LeastUnused(s, s.bufs[b].owner, Start(s, n), d);
      var s1 := if n in s.nodes then s else NewNode(s, n, p);
      if n !in s.nodes { NewNodeKeeps(s, n, p); }
      ListAlwaysCounts(s1, s.bufs[b].owner, n, d, strong);
      AddRefEither(s1, s.bufs[b].owner, n, d, strong, true);
    case HandleTo(desc, d, strong) =>
      var n := s.refs[Handle(p, desc)].node;
      if s.nodes[n].owner == Some(s.bufs[b].owner) {
        IncFields(s, n, strong, false, false);
      } else {
        LeastUnused(s, s.bufs[b].owner, Start(s, n), d);
        if strong { CountsExactly(s, b, p, desc, d, strong); }
        AddRefEither(s, s.bufs[b].owner, n, d, strong, false);
      }
  }

  lemma {:induction false} HoldsAsMany(s: State, b: Bid, p: Pid, puts: seq<Put>)
    requires Inv(s) && b in s.bufs && Translates(s, b, p, puts)
    ensures var s' := Translated(s, b, p, puts); b in s'.bufs && |s'.bufs[b].objs| == |s.bufs[b].objs| + |puts|
    decreases |puts|
  {
    hide Inv, Enabled, Apply;
    if puts != [] {
      HoldsOneMore(s, b, p, puts[0]);
      StepKeeps(s, AsEvent(b, p, puts[0]));
      HoldsAsMany(Apply(s, AsEvent(b, p, puts[0])), b, p, puts[1..]);
    }
  }

  // ---------- the theorem ----------

  /** The release of a failed transaction and the freeing of its buffer. */
  ghost function Undone(inp: Input, base: nat, mem: seq<Byte>, ptr: Nid -> nat, b: Bid, s: State, files: set<nat>,
          n: nat): (State, set<nat>)
    requires Objects.Shaped(inp) && n <= |inp.objs| && b in s.bufs
  {
    var t := if s.bufs[b].target.Some? && s.bufs[b].target.value in s.nodes then DropTarget(s, b) else s;
    var (s', open) := ReleaseAll(inp, base, mem, ptr, b, t, files, 0, 0, n);
    (CloseBuffer(s', b), open)
  }

  lemma UndoneIsReleased(inp: Input, env: FdUnwind.Env, p: Objects.Progress, mem: seq<Byte>, ptr: Nid -> nat, b: Bid,
          s: State, files: set<nat>, n: nat)
    requires Objects.Shaped(inp) && n <= |inp.objs| && Objects.Good(inp, n, p)
    requires FdUnwind.Delivers(inp, env) && FdUnwind.Holds(inp, p, env, mem, n)
    requires Inv(s) && b in s.bufs && AllSay(inp, env, ptr, s.bufs[b].objs, 0, n)
    requires Distinct(OwnNodes(s, s.bufs[b].owner), ptr)
    ensures Undone(inp, env.base, mem, ptr, b, s, files, n)
         == (Released(s, b), files - FdUnwind.SetOf(FdUnwind.Closed(inp, env.base, mem, n, true)))
  {
    hide Objects.Good, Inv, FdUnwind.Holds, AllSay, DropTarget, ReleaseAll, ReleaseFrom, Quiet, OwnNodes;
    var t := s;
    if s.bufs[b].target.Some? {
      TargetExists(s, b);
      DropTargetKeeps(s, b);
      DropTargetBuffer(s, b);
      t := DropTarget(s, b);
      TargetIsQuiet(s, b);
      OwnShrinks(s, t, s.bufs[b].owner);
    }
    assert files - FdUnwind.SetOf(FdUnwind.Closed(inp, env.base, mem, 0, true)) == files;
    ReleasesAll(inp, env, p, mem, ptr, b, t, files, 0, n);
  }

  lemma TargetIsQuiet(s: State, b: Bid)
    requires b in s.bufs && s.bufs[b].target.Some? && s.bufs[b].target.value in s.nodes
    ensures Quiet(s, DropTarget(s, b)) && DropTarget(s, b).nodes.Keys <= s.nodes.Keys
  {
    DecIsQuiet(s, SetBuffer(s, b, s.bufs[b].(target := None)), s.bufs[b].target.value, true);
  }

  /** Everything a failed transaction is about: a list accepted up to object `n`, the buffer `mem` after object
      `n` failed, the descriptors installed, and the binders and handles translated to the references of
      the receiving process, each written into the buffer as what it holds. */
  ghost predicate Failed(inp: Input, oks: nat -> bool, env: FdUnwind.Env, start: seq<Byte>, n: nat, mem: seq<Byte>,
          files: set<nat>, s: State, b: Bid, ptr: Nid -> nat)
  {
    && Objects.Shaped(inp) && n <= |inp.objs| && FdUnwind.Delivers(inp, env) && Objects.Process(inp, oks, n).Some?
    && |start| == FdUnwind.BufferSize(inp) == |mem|
    && (forall i :: 0 <= i < |mem| && !FdUnwind.MayTouch(inp, Objects.Process(inp, oks, n).value, n, i) ==>
          mem[i] == FdUnwind.BufferAfter(inp, oks, env, start, n)[i])
    && files !! FdUnwind.SetOf(FdUnwind.Installed(inp, env, n, true))
    && b in s.bufs && AllSay(inp, env, ptr, s.bufs[b].objs, 0, n) && Distinct(OwnNodes(s, s.bufs[b].owner), ptr)
  }

  lemma BothHalves(inp: Input, oks: nat -> bool, env: FdUnwind.Env, start: seq<Byte>, n: nat, mem: seq<Byte>,
          files: set<nat>, s: State, b: Bid, ptr: Nid -> nat)
    requires Failed(inp, oks, env, start, n, mem, files, s, b, ptr) && Inv(s)
    ensures Undone(inp, env.base, mem, ptr, b, s, files + FdUnwind.SetOf(FdUnwind.Installed(inp, env, n, true)), n)
         == (Released(s, b), files)
  {
    hide FdUnwind.BufferAfter, FdUnwind.MayTouch, FdUnwind.Installed, FdUnwind.Closed, FdUnwind.Delivers;
    hide Objects.Process, AllSay, Distinct, OwnNodes, Undone, Released, Inv, FdUnwind.Holds, Objects.Good;
    FdUnwind.FailedTransactionCloses(inp, oks, env, start, n, mem, files);
    Objects.ProcessKeeps(inp, oks, n);
    var all := files + FdUnwind.SetOf(FdUnwind.Installed(inp, env, n, true));
    UndoneIsReleased(inp, env, Objects.Process(inp, oks, n).value, mem, ptr, b, s, all, n);
  }

  /** For every list of objects and every place of failure: one pass of the release over the buffer closes
      exactly the descriptors installed, and restores every reference and count exactly if the list's
      binders and handles are restorable. */
  lemma FailedTransactionIsUndone(inp: Input, oks: nat -> bool, env: FdUnwind.Env, start: seq<Byte>, n: nat,
          mem: seq<Byte>, files: set<nat>, s0: State, b: Bid, p: Pid, e: Event, puts: seq<Put>, ptr: Nid -> nat)
    requires Inv(s0) && IsStart(e, b) && Enabled(s0, e) && Translates(Apply(s0, e), b, p, puts)
    requires Failed(inp, oks, env, start, n, mem, files, Translated(Apply(s0, e), b, p, puts), b, ptr)
    ensures |puts| == Flats(inp, n)
    ensures var s1 := Apply(s0, e);
            && b in s1.bufs
            && var o, s2 := s1.bufs[b].owner, Translated(s1, b, p, puts);
               var before := files + FdUnwind.SetOf(FdUnwind.Installed(inp, env, n, true));
               var (s3, open) := Undone(inp, env.base, mem, ptr, b, s2, before, n);
               && open == files
               && (Restored(s0, s3, {}) <==> Restorable(s0, o, ResolvedAll(s1, b, o, p, puts)))
  {
    hide Inv, Apply, Enabled, Translates, Translated, ResolvedAll, Restored, Restorable, Released, Undone;
    hide FdUnwind.MayTouch, FdUnwind.BufferAfter, FdUnwind.Installed, FdUnwind.Delivers, Objects.Process;
    hide Distinct, OwnNodes;
    UnwindRestores(s0, b, p, e, puts);
    StepKeeps(s0, e);
    StartBalances(s0, b, e);
    StartsEmpty(s0, b, e);
    var s1 := Apply(s0, e);
    HoldsAsMany(s1, b, p, puts);
    TranslatingKeepsInv(s0, s1, b, p, puts);
    BothHalves(inp, oks, env, start, n, mem, files, Translated(s1, b, p, puts), b, ptr);
  }

  lemma StartsEmpty(s: State, b: Bid, e: Event)
    requires Inv(s) && IsStart(e, b) && Enabled(s, e)
    ensures b in Apply(s, e).bufs && Apply(s, e).bufs[b].objs == []
  {
    hide Inv, Enabled, Apply;
    StartEffect(s, b, e);
  }

  lemma TranslatingKeepsInv(s0: State, s: State, b: Bid, p: Pid, puts: seq<Put>)
    requires Inv(s0) && Going(s0, s, b) && Translates(s, b, p, puts)
    ensures Inv(Translated(s, b, p, puts))
  {
    TranslatingBalances(s0, s, b, p, puts);
  }

  /** The same when the failing object is a binder whose node had just been made. */
  lemma FailedTransactionLeavesNode(inp: Input, oks: nat -> bool, env: FdUnwind.Env, start: seq<Byte>, n: nat,
          mem: seq<Byte>, files: set<nat>, s0: State, b: Bid, p: Pid, e: Event, puts: seq<Put>, ptr: Nid -> nat, m: Nid)
    requires Inv(s0) && IsStart(e, b) && Enabled(s0, e) && Translates(Apply(s0, e), b, p, puts)
    requires m !in s0.nodes && m !in Translated(Apply(s0, e), b, p, puts).nodes
    requires Failed(inp, oks, env, start, n, mem, files, NewNode(Translated(Apply(s0, e), b, p, puts), m, p), b, ptr)
    ensures var s1 := Apply(s0, e);
            && b in s1.bufs
            && var o, s2 := s1.bufs[b].owner, NewNode(Translated(s1, b, p, puts), m, p);
               var before := files + FdUnwind.SetOf(FdUnwind.Installed(inp, env, n, true));
               var (s3, open) := Undone(inp, env.base, mem, ptr, b, s2, before, n);
               && open == files && m in s3.nodes
               && (Restored(s0, s3, {m}) <==> Restorable(s0, o, ResolvedAll(s1, b, o, p, puts)))
  {
    hide Inv, Apply, Enabled, Translates, Translated, ResolvedAll, Restored, Restorable, Released, Undone;
    hide FdUnwind.MayTouch, FdUnwind.BufferAfter, FdUnwind.Installed, FdUnwind.Delivers, Objects.Process;
    hide Distinct, OwnNodes;
    UnwindLeavesNode(s0, b, p, e, puts, m);
    StartBalances(s0, b, e);
    var s1 := Apply(s0, e);
    TranslatingKeepsInv(s0, s1, b, p, puts);
    NewNodeKeeps(Translated(s1, b, p, puts), m, p);
    BothHalves(inp, oks, env, start, n, mem, files, NewNode(Translated(s1, b, p, puts), m, p), b, ptr);
  }
}
