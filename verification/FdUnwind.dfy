/** The transaction buffer byte by byte: what translation writes into it, that nothing written later
    touches what the release of a failed transaction reads back, and that the release closes exactly the
    descriptors that were installed. */
module FdUnwind {
  import opened ByteMemory
  import opened Objects
  import opened SizeMath

  // ---------- what translating an object writes ----------

  /** What comes from outside: the address of the buffer in the receiving process, the descriptors the
      kernel installs for each object, the bytes copied for each sub-buffer, and the new contents of
      each translated binder or handle. */
  datatype Env = Env(base: nat, fds: nat -> seq<nat>, bytes: nat -> seq<Byte>)

  function BufferSize(inp: Input): nat { ExtraBase(inp) + inp.extra }

  ghost predicate DeliversAt(inp: Input, env: Env, k: nat)
    requires k < |inp.objs|
  {
    match inp.objs[k]
    case Flat => |env.bytes(k)| == 24
    case Fd => |env.fds(k)| == 1 && Words(env.fds(k))
    case Ptr(length, _, _, _) => |env.bytes(k)| == length
    case Fda(num, _, _) => |env.fds(k)| == num && Words(env.fds(k))
    case Unknown => true
  }

  ghost predicate Delivers(inp: Input, env: Env) {
    env.base + BufferSize(inp) < SIZE_MOD && forall k {:trigger DeliversAt(inp, env, k)} ::
        0 <= k < |inp.objs| ==> DeliversAt(inp, env, k)
  }

  /** Where a sub-buffer lies, from the pointer in its metadata object. */
  function SubBufferAt(inp: Input, base: nat, mem: seq<Byte>, i: nat): int {
    if i < |inp.offsets| then Get(mem, inp.offsets[i] as int + 8, 8) - base else 0
  }

  /** Translating object `k` successfully. */
  function StepMem(inp: Input, p: Progress, k: nat, env: Env, mem: seq<Byte>): (r: seq<Byte>)
    requires Shaped(inp) && k < |inp.objs| && DeliversAt(inp, env, k)
    ensures |r| == |mem|
  {
    var at := inp.offsets[k];
    match inp.objs[k]
    case Flat => Put(mem, at, env.bytes(k))
    case Fd => Put(Put(mem, at + 8, Bytes(0, 8)), at + 8, Bytes(env.fds(k)[0], 4))
    case Ptr(_, hasParent, parent, parentOffset) =>
      var addr := ExtraBase(inp) + p.sgNext;
      var m := Put(Put(mem, addr, env.bytes(k)), at + 8, Bytes(env.base + addr, 8));
      if hasParent then Put(m, SubBufferAt(inp, env.base, m, parent) + parentOffset, Bytes(Get(m, at + 8, 8), 8)) else m
    case Fda(_, parent, parentOffset) => PutAll(mem, SubBufferAt(inp, env.base, mem, parent) + parentOffset, env.fds(k))
    case Unknown => mem
  }

  /** The buffer after the first `n` objects; `start` is what was copied from the sender. */
  ghost function BufferAfter(inp: Input, oks: nat -> bool, env: Env, start: seq<Byte>, n: nat): (r: seq<Byte>)
    requires Shaped(inp) && n <= |inp.objs| && Delivers(inp, env) && Process(inp, oks, n).Some?
    ensures |r| == |start|
    decreases n
  {
    if n == 0 then start else
    assert DeliversAt(inp, env, n - 1);
    StepMem(inp, Process(inp, oks, n - 1).value, n - 1, env, BufferAfter(inp, oks, env, start, n - 1))
  }

  // ---------- what is there to be read back ----------

  predicate InPatch(inp: Input, p: Progress, q: Patch, i: int) {
    q.parent in p.starts
    && var at := ExtraBase(inp) + p.starts[q.parent] + q.start;
       at <= i < at + q.len
  }

  /** The bytes that object `j` was translated to: its metadata and its fixup. */
  predicate Cell(inp: Input, p: Progress, j: nat, i: int)
    requires Shaped(inp) && j < |inp.objs|
  {
    || inp.offsets[j] <= i < inp.offsets[j] + ObjectSize(inp.objs[j])
    || (PatchOf(inp.objs[j], j).Some? && InPatch(inp, p, PatchOf(inp.objs[j], j).value, i))
  }

  /** Object `j` reads as it was translated: a binder or handle as rewritten, a descriptor as installed, a
      pointer as where the sub-buffer was copied, in its metadata and in its parent, and an array as the
      descriptors installed. */
  ghost predicate Reads(inp: Input, p: Progress, env: Env, mem: seq<Byte>, j: nat)
    requires Shaped(inp) && j < |inp.objs| && DeliversAt(inp, env, j)
  {
    var at, base := inp.offsets[j], ExtraBase(inp);
    match inp.objs[j]
    case Flat => at + 24 <= |mem| && mem[at..at + 24] == env.bytes(j)
    case Fd => Get(mem, at + 8, 4) == env.fds(j)[0]
    case Ptr(_, hasParent, parent, parentOffset) =>
      && j in p.starts && Get(mem, at + 8, 8) == env.base + base + p.starts[j]
      && (hasParent ==>
            parent in p.starts && Get(mem, base + p.starts[parent] + parentOffset, 8) == env.base + base + p.starts[j])
    case Fda(num, parent, parentOffset) =>
      && num < (SIZE_MOD - 1) / 4 && parent in p.starts
      && GetAll(mem, base + p.starts[parent] + parentOffset, num) == env.fds(j)
    case Unknown => true
  }

  ghost predicate ObjHolds(inp: Input, p: Progress, env: Env, mem: seq<Byte>, j: nat)
    requires Shaped(inp) && j < |inp.objs| && DeliversAt(inp, env, j)
  {
    Reads(inp, p, env, mem, j) && (PatchOf(inp.objs[j], j).Some? ==> PatchOf(inp.objs[j], j).value in p.patches)
  }

  ghost predicate Holds(inp: Input, p: Progress, env: Env, mem: seq<Byte>, n: nat)
    requires Shaped(inp) && n <= |inp.objs| && Delivers(inp, env)
  {
    && |mem| == BufferSize(inp)
    && forall j {:trigger ObjHolds(inp, p, env, mem, j)} ::
        0 <= j < n ==> DeliversAt(inp, env, j) && ObjHolds(inp, p, env, mem, j)
  }

  // ---------- nothing overwrites it ----------

  /** The bytes that translating object `k` can touch, whether it succeeds or fails: its metadata, the
      place of its sub-buffer, and its fixup if it is allowed. */
  ghost predicate MayTouch(inp: Input, p: Progress, k: nat, i: int)
    requires Shaped(inp)
  {
    && k < |inp.objs| && ValidateObject(inp.dataSize, inp.offsets[k], inp.objs[k]) != 0 && inp.offsets[k] >= p.offMin
    && var o := inp.objs[k];
       || inp.offsets[k] <= i < inp.offsets[k] + ObjectSize(o)
       || (o.Ptr? && o.length <= BufLeft(inp.extra, p.sgNext)
           && ExtraBase(inp) + p.sgNext <= i < ExtraBase(inp) + p.sgNext + o.length)
       || (Step(inp, p, k, true).Some? && PatchOf(o, k).Some? && InPatch(inp, p, PatchOf(o, k).value, i))
  }

  lemma StepPatch(inp: Input, p: Progress, k: nat)
    requires Shaped(inp) && k < |inp.objs| && Step(inp, p, k, true).Some?
    ensures var p' := Step(inp, p, k, true).value;
            && p'.patches == p.patches + (if PatchOf(inp.objs[k], k).Some? then [PatchOf(inp.objs[k], k).value] else [])
            && p'.starts == if inp.objs[k].Ptr? then p.starts[k := p.sgNext] else p.starts
  {
    hide ValidateObject, OpenFrom, RoundUp8;
  }

  /** Two fixups of an accepted list have no byte in common. */
  lemma PatchesMiss(inp: Input, p: Progress, k: nat, q: Patch, i: int)
    requires Shaped(inp) && k < |inp.objs| && Good(inp, k, p) && inp.extra % 8 == 0 && Step(inp, p, k, true).Some?
    requires q in p.patches && PatchOf(inp.objs[k], k).Some?
    requires InPatch(inp, p, q, i)
    ensures !InPatch(inp, p, PatchOf(inp.objs[k], k).value, i)
  {
    hide Step, ValidateObject, OpenFrom, SubBuffersDisjoint, PatchesAscend, ObjectsDisjoint, StackEncodes, ParentsFit;
    var p' := Step(inp, p, k, true).value;
    StepKeeps(inp, p, k, true);
    StepPatch(inp, p, k);
    var a :| 0 <= a < |p.patches| && p.patches[a] == q;
    var b := |p.patches|;
    assert p'.patches[a] == q && p'.patches[b] == PatchOf(inp.objs[k], k).value;
    assert q.parent < k && p'.patches[b].parent < k;
    PatchPair(inp, k + 1, p', a, b);
  }

  /** Nothing that translating a later object can touch belongs to an earlier one. */
  lemma CellsApart(inp: Input, p: Progress, k: nat, j: nat, i: int)
    requires Shaped(inp) && j < k <= |inp.objs| && Good(inp, k, p) && inp.extra % 8 == 0
    requires PatchOf(inp.objs[j], j).Some? ==> PatchOf(inp.objs[j], j).value in p.patches
    requires Cell(inp, p, j, i)
    ensures !MayTouch(inp, p, k, i)
  {
    hide Step, OpenFrom, PatchesAscend, StackEncodes, ParentsFit, ValidateObject;
    if k < |inp.objs| {
      ValidateObjectExact(inp.dataSize, inp.offsets[k], inp.objs[k]);
      if inp.offsets[j] <= i < inp.offsets[j] + ObjectSize(inp.objs[j]) {
        assert i < p.offMin && i < inp.dataSize;
      } else {
        var q := PatchOf(inp.objs[j], j).value;
        var a :| 0 <= a < |p.patches| && p.patches[a] == q;
        assert p.starts[q.parent] + inp.objs[q.parent].length <= p.sgNext;
        if Step(inp, p, k, true).Some? && PatchOf(inp.objs[k], k).Some? {
          PatchesMiss(inp, p, k, q, i);
        }
      }
    }
  }

  /** An earlier object reads the same after anything that touches only what a later one can. */
  lemma ReadsSame(inp: Input, p: Progress, p': Progress, env: Env, mem: seq<Byte>, mem': seq<Byte>, j: nat)
    requires Shaped(inp) && j < |inp.objs| && DeliversAt(inp, env, j) && Reads(inp, p, env, mem, j) && |mem'| == |mem|
    requires forall i :: 0 <= i < |mem| && Cell(inp, p, j, i) ==> mem'[i] == mem[i]
    requires forall s :: s in p.starts ==> s in p'.starts && p'.starts[s] == p.starts[s]
    ensures Reads(inp, p', env, mem', j)
  {
    var at, base := inp.offsets[j], ExtraBase(inp);
    match inp.objs[j]
    case Flat => assert mem'[at..at + 24] == mem[at..at + 24];
    case Fd => GetSame(mem, mem', at + 8, 4);
    case Ptr(_, hasParent, parent, parentOffset) =>
      GetSame(mem, mem', at + 8, 8);
      if hasParent { GetSame(mem, mem', base + p.starts[parent] + parentOffset, 8); }
    case Fda(num, parent, parentOffset) =>
      GetAllSame(mem, mem', base + p.starts[parent] + parentOffset, num);
    case Unknown =>
  }

  /** What object `k` leaves alone, it leaves readable. */
  lemma StillHolds(inp: Input, p: Progress, p': Progress, env: Env, k: nat, mem: seq<Byte>, mem': seq<Byte>)
    requires Shaped(inp) && k <= |inp.objs| && Good(inp, k, p) && inp.extra % 8 == 0 && Delivers(inp, env)
    requires Holds(inp, p, env, mem, k) && |mem'| == |mem|
    requires forall i :: 0 <= i < |mem| && !MayTouch(inp, p, k, i) ==> mem'[i] == mem[i]
    requires forall s :: s in p.starts ==> s in p'.starts && p'.starts[s] == p.starts[s]
    requires forall q :: q in p.patches ==> q in p'.patches
    ensures Holds(inp, p', env, mem', k)
  {
    hide Good, Reads, MayTouch, Cell;
    forall j | 0 <= j < k
      ensures DeliversAt(inp, env, j) && ObjHolds(inp, p', env, mem', j)
    {
      assert ObjHolds(inp, p, env, mem, j);
      forall i | 0 <= i < |mem| && Cell(inp, p, j, i)
        ensures mem'[i] == mem[i]
      {
        CellsApart(inp, p, k, j, i);
      }
      ReadsSame(inp, p, p', env, mem, mem', j);
    }
  }

  // ---------- translating keeps it readable ----------

  /** Where objects and sub-buffers lie in the buffer. */
  lemma InBuffer(inp: Input, p: Progress, k: nat)
    requires Shaped(inp) && k < |inp.objs| && Good(inp, k, p) && Step(inp, p, k, true).Some?
    ensures inp.offsets[k] + ObjectSize(inp.objs[k]) <= inp.dataSize <= ExtraBase(inp) && inp.offsets[k] >= p.offMin
    ensures ValidateObject(inp.dataSize, inp.offsets[k], inp.objs[k]) != 0
    ensures p.sgNext <= inp.extra
    ensures inp.objs[k].Ptr? ==>
              inp.objs[k].length <= BufLeft(inp.extra, p.sgNext) && p.sgNext + inp.objs[k].length <= inp.extra
    ensures PatchOf(inp.objs[k], k).Some? ==>
              var q := PatchOf(inp.objs[k], k).value;
              && q.parent < k && q.parent in p.starts && inp.objs[q.parent].Ptr?
              && p.starts[q.parent] + q.start + q.len <= p.sgNext
  {
    hide OpenFrom, PatchesAscend, StackEncodes, ParentsFit, ObjectsDisjoint, ValidateObject;
    ValidateObjectExact(inp.dataSize, inp.offsets[k], inp.objs[k]);
  }

  /** The parent's metadata object says where the parent was copied. */
  lemma ParentPlace(inp: Input, p: Progress, env: Env, mem: seq<Byte>, mem': seq<Byte>, k: nat, parent: nat)
    requires Shaped(inp) && parent < k < |inp.objs| && inp.objs[parent].Ptr? && Good(inp, k, p) && inp.extra % 8 == 0
    requires Delivers(inp, env) && Holds(inp, p, env, mem, k) && |mem'| == |mem|
    requires forall i :: 0 <= i < |mem| && !MayTouch(inp, p, k, i) ==> mem'[i] == mem[i]
    ensures parent in p.starts && SubBufferAt(inp, env.base, mem', parent) == ExtraBase(inp) + p.starts[parent]
  {
    hide Good, MayTouch, Cell;
    StillHolds(inp, p, p, env, k, mem, mem');
    assert ObjHolds(inp, p, env, mem', parent);
  }

  ghost predicate StepOk(inp: Input, p: Progress, env: Env, mem: seq<Byte>, k: nat) {
    && Shaped(inp) && k < |inp.objs| && Good(inp, k, p) && inp.extra % 8 == 0 && Step(inp, p, k, true).Some?
    && Delivers(inp, env) && DeliversAt(inp, env, k) && Holds(inp, p, env, mem, k)
  }

  /** What a successful step writes is where it may, and the object reads as it was translated. */
  ghost predicate StepDone(inp: Input, p: Progress, env: Env, mem: seq<Byte>, k: nat)
    requires StepOk(inp, p, env, mem, k)
  {
    var mem' := StepMem(inp, p, k, env, mem);
    && |mem'| == |mem| && (forall i :: 0 <= i < |mem| && !MayTouch(inp, p, k, i) ==> mem'[i] == mem[i])
    && Reads(inp, Step(inp, p, k, true).value, env, mem', k)
  }

  lemma SmallStep(inp: Input, p: Progress, env: Env, mem: seq<Byte>, k: nat)
    requires StepOk(inp, p, env, mem, k) && (inp.objs[k].Flat? || inp.objs[k].Fd? || inp.objs[k].Unknown?)
    ensures StepDone(inp, p, env, mem, k)
  {
    hide Good, Step, ValidateObject, Bytes, Number;
    InBuffer(inp, p, k);
    var at := inp.offsets[k];
    if inp.objs[k].Flat? {
      PutEffect(mem, at, env.bytes(k));
    } else if inp.objs[k].Fd? {
      Limits();
      PutEffect(mem, at + 8, Bytes(0, 8));
      GetPut(Put(mem, at + 8, Bytes(0, 8)), at + 8, env.fds(k)[0], 4);
    }
  }

  lemma FdaStepDone(inp: Input, p: Progress, env: Env, mem: seq<Byte>, k: nat)
    requires StepOk(inp, p, env, mem, k) && inp.objs[k].Fda?
    ensures StepDone(inp, p, env, mem, k)
  {
    hide Good, ValidateObject, Get, Put, PutAll, GetAll, FixupAllowed;
    InBuffer(inp, p, k);
    StepPatch(inp, p, k);
    var o := inp.objs[k];
    ParentPlace(inp, p, env, mem, mem, k, o.parent);
    PutAllEffect(mem, ExtraBase(inp) + p.starts[o.parent] + o.parentOffset, env.fds(k));
  }

  /** Writing where a step may. */
  lemma PutWhereAllowed(inp: Input, p: Progress, k: nat, m: seq<Byte>, at: nat, bs: seq<Byte>)
    requires Shaped(inp) && forall i :: at <= i < at + |bs| ==> MayTouch(inp, p, k, i)
    ensures forall i :: 0 <= i < |m| && !MayTouch(inp, p, k, i) ==> Put(m, at, bs)[i] == m[i]
  {
    hide MayTouch;
    PutEffect(m, at, bs);
  }

  lemma CopyAllowed(inp: Input, p: Progress, k: nat, i: int)
    requires Shaped(inp) && k < |inp.objs| && inp.objs[k].Ptr? && Good(inp, k, p) && Step(inp, p, k, true).Some?
    requires ExtraBase(inp) + p.sgNext <= i < ExtraBase(inp) + p.sgNext + inp.objs[k].length
          || inp.offsets[k] + 8 <= i < inp.offsets[k] + 16
    ensures MayTouch(inp, p, k, i)
  {
    hide Good, Step, ValidateObject;
    InBuffer(inp, p, k);
  }

  /** The sub-buffer is copied and the metadata object points to it. */
  lemma CopyDone(inp: Input, p: Progress, env: Env, mem: seq<Byte>, k: nat)
    requires StepOk(inp, p, env, mem, k) && inp.objs[k].Ptr?
    ensures var addr := ExtraBase(inp) + p.sgNext;
            var m := Put(Put(mem, addr, env.bytes(k)), inp.offsets[k] + 8, Bytes(env.base + addr, 8));
            && |m| == |mem| && (forall i :: 0 <= i < |mem| && !MayTouch(inp, p, k, i) ==> m[i] == mem[i])
            && Get(m, inp.offsets[k] + 8, 8) == env.base + addr
  {
    hide Good, Step, ValidateObject, Bytes, Get, Put, MayTouch;
    InBuffer(inp, p, k);
    Limits();
    var addr, at := ExtraBase(inp) + p.sgNext, inp.offsets[k];
    forall i | addr <= i < addr + |env.bytes(k)| || at + 8 <= i < at + 16
      ensures MayTouch(inp, p, k, i)
    {
      CopyAllowed(inp, p, k, i);
    }
    var m := Put(mem, addr, env.bytes(k));
    PutWhereAllowed(inp, p, k, mem, addr, env.bytes(k));
    GetPut(m, at + 8, env.base + addr, 8);
    PutWhereAllowed(inp, p, k, m, at + 8, Bytes(env.base + addr, 8));
  }

  lemma FixupAllowedThere(inp: Input, p: Progress, k: nat, i: int)
    requires Shaped(inp) && k < |inp.objs| && Good(inp, k, p) && Step(inp, p, k, true).Some?
    requires PatchOf(inp.objs[k], k).Some? && InPatch(inp, p, PatchOf(inp.objs[k], k).value, i)
    ensures MayTouch(inp, p, k, i)
  {
    hide Good, Step, ValidateObject, InPatch;
    InBuffer(inp, p, k);
  }

  /** Then the pointer is stored in the parent. */
  lemma FixupDone(inp: Input, p: Progress, env: Env, mem: seq<Byte>, m: seq<Byte>, k: nat)
    requires StepOk(inp, p, env, mem, k) && inp.objs[k].Ptr? && inp.objs[k].hasParent && |m| == |mem|
    requires forall i :: 0 <= i < |mem| && !MayTouch(inp, p, k, i) ==> m[i] == mem[i]
    requires env.base + ExtraBase(inp) + p.sgNext < SIZE_MOD
    ensures var o, v := inp.objs[k], env.base + ExtraBase(inp) + p.sgNext;
            var m' := Put(m, SubBufferAt(inp, env.base, m, o.parent) + o.parentOffset, Bytes(v, 8));
            && o.parent in p.starts
            && (forall i :: 0 <= i < |mem| && !MayTouch(inp, p, k, i) ==> m'[i] == mem[i])
            && Get(m', ExtraBase(inp) + p.starts[o.parent] + o.parentOffset, 8) == v
            && Get(m', inp.offsets[k] + 8, 8) == Get(m, inp.offsets[k] + 8, 8)
  {
    hide Good, Step, ValidateObject, Get, Put, Bytes, SubBufferAt, MayTouch;
    InBuffer(inp, p, k);
    Limits();
    var o, v := inp.objs[k], env.base + ExtraBase(inp) + p.sgNext;
    ParentPlace(inp, p, env, mem, m, k, o.parent);
    var to := ExtraBase(inp) + p.starts[o.parent] + o.parentOffset;
    forall i | to <= i < to + 8
      ensures MayTouch(inp, p, k, i)
    {
      FixupAllowedThere(inp, p, k, i);
    }
    GetPut(m, to, v, 8);
    PutWhereAllowed(inp, p, k, m, to, Bytes(v, 8));
    GetSame(m, Put(m, to, Bytes(v, 8)), inp.offsets[k] + 8, 8);
  }

  lemma PtrStepDone(inp: Input, p: Progress, env: Env, mem: seq<Byte>, k: nat)
    requires StepOk(inp, p, env, mem, k) && inp.objs[k].Ptr?
    ensures StepDone(inp, p, env, mem, k)
  {
    hide Good, Step, ValidateObject, Get, Put, Bytes, SubBufferAt, MayTouch, Holds, Delivers;
    StepPatch(inp, p, k);
    CopyDone(inp, p, env, mem, k);
    PlaceFits(inp, p, env, mem, k);
    InBuffer(inp, p, k);
    var addr, at := ExtraBase(inp) + p.sgNext, inp.offsets[k] as int;
    var m := Put(Put(mem, addr, env.bytes(k)), at + 8, Bytes(env.base + addr, 8));
    if inp.objs[k].hasParent {
      FixupDone(inp, p, env, mem, m, k);
    }
  }

  lemma PlaceFits(inp: Input, p: Progress, env: Env, mem: seq<Byte>, k: nat)
    requires StepOk(inp, p, env, mem, k)
    ensures env.base + ExtraBase(inp) + p.sgNext < SIZE_MOD
  {
    hide Step;
  }

  lemma StepHolds(inp: Input, p: Progress, env: Env, mem: seq<Byte>, k: nat)
    requires StepOk(inp, p, env, mem, k)
    ensures Holds(inp, Step(inp, p, k, true).value, env, StepMem(inp, p, k, env, mem), k + 1)
  {
    hide Good, Step, ValidateObject, StepMem, Reads, MayTouch;
    var p', mem' := Step(inp, p, k, true).value, StepMem(inp, p, k, env, mem);
    match inp.objs[k] {
      case Fda(_, _, _) => FdaStepDone(inp, p, env, mem, k);
      case Ptr(_, _, _, _) => PtrStepDone(inp, p, env, mem, k);
      case _ => SmallStep(inp, p, env, mem, k);
    }
    StepPatch(inp, p, k);
    FreshStart(inp, p, k);
    StillHolds(inp, p, p', env, k, mem, mem');
    assert ObjHolds(inp, p', env, mem', k);
  }

  lemma FreshStart(inp: Input, p: Progress, k: nat)
    requires Shaped(inp) && k < |inp.objs| && Good(inp, k, p)
    ensures k !in p.starts
  {
  }

  /** After every accepted prefix each of its objects reads as it was translated. */
  lemma {:induction false} BufferHolds(inp: Input, oks: nat -> bool, env: Env, start: seq<Byte>, n: nat)
    requires Shaped(inp) && n <= |inp.objs| && Delivers(inp, env) && Process(inp, oks, n).Some?
    requires |start| == BufferSize(inp)
    ensures Holds(inp, Process(inp, oks, n).value, env, BufferAfter(inp, oks, env, start, n), n)
    decreases n
  {
    hide Good, ValidateObject, StepMem, ObjHolds, FdaStep, PtrStep;
    if n > 0 {
      ProcessKeeps(inp, oks, n - 1);
      BufferHolds(inp, oks, env, start, n - 1);
      assert DeliversAt(inp, env, n - 1);
      AcceptedIsOk(inp, Process(inp, oks, n - 1).value, n - 1, oks(n - 1));
      StepHolds(inp, Process(inp, oks, n - 1).value, env, BufferAfter(inp, oks, env, start, n - 1), n - 1);
    }
  }

  lemma AcceptedIsOk(inp: Input, p: Progress, k: nat, ok: bool)
    requires Shaped(inp) && k < |inp.objs| && Step(inp, p, k, ok).Some?
    ensures ok && Step(inp, p, k, true) == Step(inp, p, k, ok)
  {
  }

  // ---------- the release ----------

  /** What the release of object `j` closes, with its own checks. A single descriptor is closed only when
      the transaction failed. */
  function ClosedAt(inp: Input, base: nat, mem: seq<Byte>, j: nat, failed: bool): seq<nat>
    requires Shaped(inp) && j < |inp.objs|
  {
    if ValidateObject(inp.dataSize, inp.offsets[j], inp.objs[j]) == 0 then [] else
    match inp.objs[j]
    case Fd => if failed then [Get(mem, inp.offsets[j] + 8, 4)] else []
    case Fda(num, parent, parentOffset) =>
      if !IsParent(inp.objs, parent, j) || num >= (SIZE_MOD - 1) / 4 then []
      else if 4 * num > inp.objs[parent].length || parentOffset > inp.objs[parent].length - 4 * num then []
      else GetAll(mem, SubBufferAt(inp, base, mem, parent) + parentOffset, num)
    case _ => []
  }

  function Closed(inp: Input, base: nat, mem: seq<Byte>, n: nat, failed: bool): seq<nat>
    requires Shaped(inp) && n <= |inp.objs|
  {
    if n == 0 then [] else Closed(inp, base, mem, n - 1, failed) + ClosedAt(inp, base, mem, n - 1, failed)
  }

  /** The descriptors installed for the first `n` objects; without `singles`, for their arrays only. */
  ghost function Installed(inp: Input, env: Env, n: nat, singles: bool): seq<nat>
    requires n <= |inp.objs|
  {
    if n == 0 then []
    else Installed(inp, env, n - 1, singles) + (if inp.objs[n - 1].Fda? || (singles && inp.objs[n - 1].Fd?)
        then env.fds(n - 1) else [])
  }

  /** The release's own checks pass again. */
  lemma PassesAgain(inp: Input, p: Progress, n: nat, j: nat)
    requires Shaped(inp) && j < n <= |inp.objs| && Good(inp, n, p)
    ensures ValidateObject(inp.dataSize, inp.offsets[j], inp.objs[j]) != 0
    ensures PatchOf(inp.objs[j], j).Some? && PatchOf(inp.objs[j], j).value in p.patches ==>
              var q := PatchOf(inp.objs[j], j).value;
              IsParent(inp.objs, q.parent, j) && q.parent in p.starts && q.start + q.len <= inp.objs[q.parent].length
  {
    hide ValidateObject, OpenFrom, PatchesAscend, StackEncodes, ParentsFit;
    ValidateObjectExact(inp.dataSize, inp.offsets[j], inp.objs[j]);
  }

  lemma ClosesWhatItReads(inp: Input, p: Progress, env: Env, mem: seq<Byte>, n: nat, j: nat, failed: bool)
    requires Shaped(inp) && j < n <= |inp.objs| && Good(inp, n, p) && Delivers(inp, env) && Holds(inp, p, env, mem, n)
    ensures ClosedAt(inp, env.base, mem, j, failed)
         == if inp.objs[j].Fda? || (failed && inp.objs[j].Fd?) then env.fds(j) else []
  {
    hide ValidateObject, Good, GetAll, Get;
    assert ObjHolds(inp, p, env, mem, j);
    PassesAgain(inp, p, n, j);
    if inp.objs[j].Fda? {
      assert ObjHolds(inp, p, env, mem, PatchOf(inp.objs[j], j).value.parent);
    }
  }

  /** For every accepted prefix, releasing it closes exactly the descriptors installed for it, in order. */
  lemma {:induction false} ClosesInstalled(inp: Input, p: Progress, env: Env, mem: seq<Byte>, n: nat, m: nat,
          failed: bool)
    requires Shaped(inp) && m <= n <= |inp.objs| && Good(inp, n, p) && Delivers(inp, env) && Holds(inp, p, env, mem, n)
    ensures Closed(inp, env.base, mem, m, failed) == Installed(inp, env, m, failed)
    decreases m
  {
    hide Good, Holds, ClosedAt;
    if m > 0 {
      ClosesInstalled(inp, p, env, mem, n, m - 1, failed);
      ClosesWhatItReads(inp, p, env, mem, n, m - 1, failed);
    }
  }

  function SetOf(fds: seq<nat>): set<nat> { set fd | fd in fds }

  /** A transaction that fails at object `n`, whatever that object wrote before it failed: the release
      finds every pointer, descriptor, binder and handle of the objects before it as translated, closes
      exactly the descriptors installed for them, and leaves open what was open before. */
  lemma FailedTransactionCloses(inp: Input, oks: nat -> bool, env: Env, start: seq<Byte>, n: nat, mem: seq<Byte>,
          files: set<nat>)
    requires Shaped(inp) && n <= |inp.objs| && Delivers(inp, env) && Process(inp, oks, n).Some?
    requires |start| == BufferSize(inp) == |mem|
    requires forall i :: 0 <= i < |mem| && !MayTouch(inp, Process(inp, oks, n).value, n, i) ==>
               mem[i] == BufferAfter(inp, oks, env, start, n)[i]
    requires files !! SetOf(Installed(inp, env, n, true))
    ensures Holds(inp, Process(inp, oks, n).value, env, mem, n)
    ensures Closed(inp, env.base, mem, n, true) == Installed(inp, env, n, true)
    ensures files + SetOf(Installed(inp, env, n, true)) - SetOf(Closed(inp, env.base, mem, n, true)) == files
  {
    hide Good, Holds, MayTouch, BufferAfter, Process, Closed, Installed;
    var p := Process(inp, oks, n).value;
    ProcessKeeps(inp, oks, n);
    BufferHolds(inp, oks, env, start, n);
    SizeOfBuffer(inp, p, env, BufferAfter(inp, oks, env, start, n), n);
    StillHolds(inp, p, p, env, n, BufferAfter(inp, oks, env, start, n), mem);
    ClosesInstalled(inp, p, env, mem, n, n, true);
  }

  lemma SizeOfBuffer(inp: Input, p: Progress, env: Env, mem: seq<Byte>, n: nat)
    requires Shaped(inp) && n <= |inp.objs| && Delivers(inp, env) && Holds(inp, p, env, mem, n)
    ensures |mem| == BufferSize(inp)
  {
  }

  /** A delivered transaction that is freed later closes the descriptors of its arrays, and no others. */
  lemma DeliveredTransactionCloses(inp: Input, oks: nat -> bool, env: Env, start: seq<Byte>)
    requires Shaped(inp) && Delivers(inp, env) && Process(inp, oks, |inp.objs|).Some? && |start| == BufferSize(inp)
    ensures Closed(inp, env.base, BufferAfter(inp, oks, env, start, |inp.objs|), |inp.objs|, false)
         == Installed(inp, env, |inp.objs|, false)
  {
    hide Good, Holds, BufferAfter, Process, Closed, Installed;
    ProcessKeeps(inp, oks, |inp.objs|);
    BufferHolds(inp, oks, env, start, |inp.objs|);
    ClosesInstalled(inp, Process(inp, oks, |inp.objs|).value, env, BufferAfter(inp, oks, env, start, |inp.objs|),
        |inp.objs|, |inp.objs|, false);
  }

  // ---------- the driver's loops ----------

  /** What the kernel answers when asked for descriptors: each one it grants is unused. */
  ghost predicate FreshGrants(files: set<nat>, grants: seq<Option<nat>>) {
    && (forall i :: 0 <= i < |grants| && grants[i].Some? ==> grants[i].value !in files && grants[i].value < Limit(4))
    && (forall i, j :: 0 <= i < j < |grants| && grants[i].Some? && grants[j].Some? ==>
          grants[i].value != grants[j].value)
  }

  method WriteWord(buf: array<Byte>, at: nat, v: nat)
    requires at + 4 <= buf.Length
    modifies buf
    ensures buf[..] == Put(old(buf[..]), at, Bytes(v, 4))
  {
    var bs := Bytes(v, 4);
    buf[at], buf[at + 1], buf[at + 2], buf[at + 3] := bs[0], bs[1], bs[2], bs[3];
    assert bs == [bs[0], bs[1], bs[2], bs[3]];
  }

  /** The loops of binder_translate_fd_array, on the array in the buffer: installs all descriptors, or
      closes those installed, as it reads them back, and fails. */
  method TranslateFds(buf: array<Byte>, at: nat, files: set<nat>, grants: seq<Option<nat>>)
    returns (ok: bool, open: set<nat>, ghost fds: seq<nat>)
    requires at + 4 * |grants| <= buf.Length && FreshGrants(files, grants)
    modifies buf
    ensures ok <==> forall i :: 0 <= i < |grants| ==> grants[i].Some?
    ensures ok ==> |fds| == |grants| && forall i :: 0 <= i < |grants| ==> grants[i] == Some(fds[i])
    ensures ok ==> buf[..] == PutAll(old(buf[..]), at, fds) && open == files + SetOf(fds) && files !! SetOf(fds)
    ensures !ok ==> open == files && SameOutside(old(buf[..]), buf[..], at, at + 4 * |grants|)
  {
    hide Put, PutAll, Bytes, Limit;
    ghost var start := buf[..];
    var fdi := 0;
    ok, open, fds := true, files, [];
    NothingPut(start, at);
    while fdi < |grants|
      invariant 0 <= fdi <= |grants| && |fds| == fdi && open == files + SetOf(fds) && ok
      invariant forall i :: 0 <= i < fdi ==> grants[i] == Some(fds[i])
      invariant buf[..] == PutAll(start, at, fds)
    {
      if grants[fdi].None? {
        ok := false;
        break;
      }
      var targetFd := grants[fdi].value;
      PutAllAppend(start, at, fds, targetFd);
      WriteWord(buf, at + 4 * fdi, targetFd);
      assert SetOf(fds + [targetFd]) == SetOf(fds) + {targetFd};
      open, fds, fdi := open + {targetFd}, fds + [targetFd], fdi + 1;
    }
    PutAllEffect(start, at, fds);
    if !ok {
      open := CloseArray(buf, at, fdi, open);
    }
  }

  /** The object loop of binder_transaction_buffer_release, as far as it closes descriptors. */
  method ReleaseFds(inp: Input, base: nat, buf: array<Byte>, n: nat, failed: bool,
          files: set<nat>) returns (open: set<nat>)
    requires Shaped(inp) && n <= |inp.objs|
    ensures open == files - SetOf(Closed(inp, base, buf[..], n, failed))
  {
    hide ValidateObject, Get, GetAll, SubBufferAt;
    open := files;
    var j := 0;
    while j < n
      invariant 0 <= j <= n && open == files - SetOf(Closed(inp, base, buf[..], j, failed))
    {
      var o := inp.objs[j];
      ghost var before, closed := open, ClosedAt(inp, base, buf[..], j, failed);
      if ValidateObject(inp.dataSize, inp.offsets[j], o) != 0 {
        if o.Fd? && failed {
          var fd := Get(buf[..], inp.offsets[j] as int + 8, 4);
          open := open - {fd};
        } else if o.Fda? && IsParent(inp.objs, o.parent, j) && o.numFds < (SIZE_MOD - 1) / 4 {
          var length := inp.objs[o.parent].length;
          if 4 * o.numFds <= length && o.parentOffset <= length - 4 * o.numFds {
            open := CloseArray(buf, SubBufferAt(inp, base, buf[..], o.parent) + o.parentOffset, o.numFds, open);
          }
        }
      }
      assert open == before - SetOf(closed);
      j := j + 1;
    }
  }

  method CloseArray(buf: array<Byte>, at: int, num: nat, files: set<nat>) returns (open: set<nat>)
    ensures open == files - SetOf(GetAll(buf[..], at, num))
  {
    hide Get;
    open := files;
    var fdIndex := 0;
    while fdIndex < num
      invariant 0 <= fdIndex <= num && open == files - SetOf(GetAll(buf[..], at, fdIndex))
    {
      var fd := Get(buf[..], at + 4 * fdIndex, 4);
      assert GetAll(buf[..], at, fdIndex + 1) == GetAll(buf[..], at, fdIndex) + [fd];
      open := open - {fd};
      fdIndex := fdIndex + 1;
    }
  }
}
