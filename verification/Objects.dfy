/** The object loop of binder_transaction: offsets and metadata objects, scattered sub-buffers and
    the fixups inside them. Positions are relative to the buffer's data; translation of binders,
    handles and descriptors and copying from user space may fail at any object. */
module Objects {
  import opened SizeMath

  /** What the bytes at an offset say they are. */
  datatype Object =
    | Flat
    | Fd
    | Ptr(length: Size, hasParent: bool, parent: Size, parentOffset: Size)
    | Fda(numFds: Size, parent: Size, parentOffset: Size)
    | Unknown

  datatype Input = Input(dataSize: Size, offsetsSize: Size, extra: Size, offsets: seq<Size>, objs: seq<Object>)

  ghost predicate Shaped(inp: Input) {
    |inp.objs| == |inp.offsets| == inp.offsetsSize / 8
  }

  /** sizeof of each metadata object on a 64-bit machine. */
  function ObjectSize(o: Object): Size {
    match o
    case Flat => 24
    case Fd => 24
    case Ptr(_, _, _, _) => 40
    case Fda(_, _, _) => 32
    case Unknown => 0
  }

  /** Machine subtraction: wraps below zero. */
  function Minus(a: Size, b: Size): Size {
    if a >= b then a - b else a - b + SIZE_MOD
  }

  /** binder_validate_object. */
  function ValidateObject(dataSize: Size, offset: Size, o: Object): Size {
    if offset > Minus(dataSize, 4) || dataSize < 4 || offset % 4 != 0 then 0
    else if offset <= Minus(dataSize, ObjectSize(o)) && dataSize >= ObjectSize(o) then ObjectSize(o)
    else 0
  }

  /** Despite the wrapping subtractions, an object is accepted exactly when it is of a known type,
      4-aligned and wholly inside the data. */
  lemma ValidateObjectExact(dataSize: Size, offset: Size, o: Object)
    ensures ValidateObject(dataSize, offset, o)
         == if offset % 4 == 0 && offset + ObjectSize(o) <= dataSize then ObjectSize(o) else 0
  {
  }

  // ---------- fixups ----------

  /** binder_validate_ptr. */
  predicate IsParent(objs: seq<Object>, index: int, numValid: nat) {
    0 <= index < numValid && index < |objs| && objs[index].Ptr?
  }

  /** Accepted sub-buffers so far name an earlier sub-buffer as their parent, and leave room for
      their pointer in it. */
  ghost predicate ParentsFit(objs: seq<Object>, n: nat) {
    forall i :: 0 <= i < n && i < |objs| && objs[i].Ptr? && objs[i].hasParent ==>
      IsParent(objs, objs[i].parent, i) && objs[i].parentOffset + 8 <= objs[objs[i].parent].length
  }

  /** The least offset still open in `target`, if it is `last` or one of its ancestors. */
  function OpenFrom(objs: seq<Object>, last: nat, lastMin: nat, target: nat): Option<nat>
    decreases last
  {
    if last == target then Some(lastMin)
    else if last < |objs| && objs[last].Ptr? && objs[last].hasParent && objs[last].parent < last
    then OpenFrom(objs, objs[last].parent, objs[last].parentOffset + 8, target)
    else None
  }

  /** binder_validate_fixup: walks from the last fixed-up buffer to its ancestors. The walk ends,
      since a parent always comes earlier in the list. */
  method ValidateFixup(objs: seq<Object>, target: nat, offset: nat, last: Option<nat>, lastMin: nat,
          ghost n: nat) returns (ok: bool)
    requires n <= |objs| && ParentsFit(objs, n) && target < n && (last.Some? ==> IsParent(objs, last.value, n))
    ensures ok <==> last.Some? && OpenFrom(objs, last.value, lastMin, target).Some?
                    && offset >= OpenFrom(objs, last.value, lastMin, target).value
  {
    if last.None? {
      return false;
    }
    var obj: nat, min: nat := last.value, lastMin;
    while obj != target
      invariant IsParent(objs, obj, n)
      invariant OpenFrom(objs, obj, min, target) == OpenFrom(objs, last.value, lastMin, target)
      decreases obj
    {
      if !objs[obj].hasParent {
        return false;
      }
      min := objs[obj].parentOffset + 8;
      obj := objs[obj].parent;
    }
    return offset >= min;
  }

  // ---------- the loop ----------

  /** A write into sub-buffer `parent`, made while object `step` was processed. */
  datatype Patch = Patch(parent: nat, start: nat, len: nat, step: nat)

  /** What object `k` writes into a sub-buffer other than its own. */
  function PatchOf(o: Object, k: nat): Option<Patch> {
    match o
    case Ptr(_, hasParent, parent, parentOffset) => if hasParent then Some(Patch(parent, parentOffset, 8, k)) else None
    case Fda(num, parent, parentOffset) => Some(Patch(parent, parentOffset, 4 * num, k))
    case _ => None
  }

  datatype Progress = Progress(
    offMin: nat,
    sgNext: nat,
    starts: map<nat, nat>,
    last: Option<nat>,
    lastMin: nat,
    patches: seq<Patch>)

  const START: Progress := Progress(0, 0, map[], None, 0, [])

  predicate FixupAllowed(objs: seq<Object>, p: Progress, target: nat, offset: nat) {
    && p.last.Some? && OpenFrom(objs, p.last.value, p.lastMin, target).Some?
    && offset >= OpenFrom(objs, p.last.value, p.lastMin, target).value
  }

  /** The case of a file descriptor array. */
  function FdaStep(inp: Input, p: Progress, k: nat, o: Object, ok: bool): Option<Progress>
    requires k < |inp.objs| && o.Fda?
  {
    if !IsParent(inp.objs, o.parent, k) || o.parent !in p.starts then None
    else if !FixupAllowed(inp.objs, p, o.parent, o.parentOffset) then None
    else if o.numFds >= (SIZE_MOD - 1) / 4 then None
    else
      var bytes, length := 4 * o.numFds, inp.objs[o.parent].length;
      if bytes > length || o.parentOffset > length - bytes then None
      else if (p.starts[o.parent] + o.parentOffset) % 4 != 0 || !ok then None
      else Some(p.(last := Some(o.parent), lastMin := o.parentOffset + bytes,
                   patches := p.patches + [Patch(o.parent, o.parentOffset, bytes, k)]))
  }

  /** sg_buf_end - sg_bufp as a size_t: it would wrap if the cursor were past the end. */
  function BufLeft(extra: nat, next: nat): int {
    if next <= extra then extra - next else extra - next + SIZE_MOD
  }

  /** The case of a sub-buffer: copied behind the previous one, then its parent is patched. */
  function PtrStep(inp: Input, p: Progress, k: nat, o: Object, ok: bool): Option<Progress>
    requires k < |inp.objs| && o.Ptr?
  {
    if o.length > BufLeft(inp.extra, p.sgNext) || !ok then None
    else
      var p1 := p.(starts := p.starts[k := p.sgNext], sgNext := p.sgNext + RoundUp8(o.length), last := Some(k),
          lastMin := 0);
      if !o.hasParent then Some(p1)
      else if !IsParent(inp.objs, o.parent, k) || !FixupAllowed(inp.objs, p, o.parent, o.parentOffset) then None
      else if inp.objs[o.parent].length < 8 || o.parentOffset > inp.objs[o.parent].length - 8 then None
      else Some(p1.(patches := p.patches + [Patch(o.parent, o.parentOffset, 8, k)]))
  }

  /** One turn of the loop on object `k`; `ok` says that translating or copying it succeeds. */
  function Step(inp: Input, p: Progress, k: nat, ok: bool): Option<Progress>
    requires Shaped(inp) && k < |inp.objs|
  {
    var o, offset := inp.objs[k], inp.offsets[k];
    var size := ValidateObject(inp.dataSize, offset, o);
    if size == 0 || offset < p.offMin then None
    else
      var p1 := p.(offMin := offset + size);
      match o
      case Fda(_, _, _) => FdaStep(inp, p1, k, o, ok)
      case Ptr(_, _, _, _) => PtrStep(inp, p1, k, o, ok)
      case _ => if ok then Some(p1) else None
  }

  // ---------- what is accepted ----------

  /** Metadata objects lie inside the data, one behind the other. */
  ghost predicate ObjectsDisjoint(inp: Input, n: nat)
    requires Shaped(inp)
  {
    && (forall i :: 0 <= i < n && i < |inp.objs| ==>
          && ObjectSize(inp.objs[i]) > 0 && inp.offsets[i] % 4 == 0
          && inp.offsets[i] + ObjectSize(inp.objs[i]) <= inp.dataSize)
    && (forall i, j :: 0 <= i < j < n && j < |inp.objs| ==> inp.offsets[i] + ObjectSize(inp.objs[i]) <= inp.offsets[j])
  }

  /** Sub-buffers are 8-aligned, inside the extra area, one behind the other. */
  ghost predicate SubBuffersDisjoint(inp: Input, n: nat, p: Progress) {
    && (forall i :: i in p.starts <==> 0 <= i < n && i < |inp.objs| && inp.objs[i].Ptr?)
    && (forall i :: i in p.starts ==>
          i < |inp.objs| && inp.objs[i].Ptr? && p.starts[i] % 8 == 0 && p.starts[i] + inp.objs[i].length <= p.sgNext)
    && (forall i, j :: i in p.starts && j in p.starts && i < j ==>
          i < |inp.objs| && inp.objs[i].Ptr? && p.starts[i] + inp.objs[i].length <= p.starts[j])
  }

  /** Every patch lies inside its parent's sub-buffer, which was copied before. */
  ghost predicate PatchesInside(inp: Input, n: nat, p: Progress) {
    forall a :: 0 <= a < |p.patches| ==>
      var q := p.patches[a];
      q.parent < q.step < n && IsParent(inp.objs, q.parent, n) && q.start + q.len <= inp.objs[q.parent].length
  }

  /** Patches in one parent go upwards without overlap. */
  ghost predicate PatchesAscend(p: Progress) {
    forall a, b :: 0 <= a < b < |p.patches| && p.patches[a].parent == p.patches[b].parent ==>
      p.patches[a].start + p.patches[a].len <= p.patches[b].start
  }

  /** What the pair (last object, least offset) encodes: a stack of open ancestors, in each of which
      everything below its open offset has been patched already. */
  ghost predicate StackEncodes(objs: seq<Object>, p: Progress) {
    forall a :: 0 <= a < |p.patches| && p.last.Some? ==>
      var open := OpenFrom(objs, p.last.value, p.lastMin, p.patches[a].parent);
      open.Some? ==> p.patches[a].start + p.patches[a].len <= open.value
  }

  ghost predicate Good(inp: Input, n: nat, p: Progress)
    requires Shaped(inp)
  {
    && n <= |inp.objs|
    && ObjectsDisjoint(inp, n)
    && (forall i :: 0 <= i < n ==> inp.offsets[i] + ObjectSize(inp.objs[i]) <= p.offMin)
    && ParentsFit(inp.objs, n)
    && p.sgNext % 8 == 0 && p.sgNext <= inp.extra
    && SubBuffersDisjoint(inp, n, p)
    && (p.last.Some? ==> IsParent(inp.objs, p.last.value, n))
    && PatchesInside(inp, n, p) && PatchesAscend(p) && StackEncodes(inp.objs, p)
  }

  /** An open ancestor of an open ancestor is open, from the same offset. */
  lemma {:induction false} OpenTransitive(objs: seq<Object>, last: nat, lastMin: nat, mid: nat, min: nat, target: nat)
    requires OpenFrom(objs, last, lastMin, mid).Some? && OpenFrom(objs, mid, min, target).Some? && target != mid
    ensures OpenFrom(objs, last, lastMin, target) == OpenFrom(objs, mid, min, target)
    ensures target < mid <= last
    decreases last
  {
    OpenIsAncestor(objs, mid, min, target);
    OpenIsAncestor(objs, last, lastMin, mid);
    if last != mid {
      OpenTransitive(objs, objs[last].parent, objs[last].parentOffset + 8, mid, min, target);
    }
  }

  lemma {:induction false} OpenIsAncestor(objs: seq<Object>, last: nat, lastMin: nat, target: nat)
    requires OpenFrom(objs, last, lastMin, target).Some?
    ensures target <= last
    decreases last
  {
    if last != target {
      OpenIsAncestor(objs, objs[last].parent, objs[last].parentOffset + 8, target);
    }
  }

  lemma StepObjects(inp: Input, p: Progress, k: nat, ok: bool)
    requires Shaped(inp) && k < |inp.objs| && Good(inp, k, p) && Step(inp, p, k, ok).Some?
    ensures var p' := Step(inp, p, k, ok).value;
            && ObjectsDisjoint(inp, k + 1)
            && (forall i :: 0 <= i <= k ==> inp.offsets[i] + ObjectSize(inp.objs[i]) <= p'.offMin)
  {
    ValidateObjectExact(inp.dataSize, inp.offsets[k], inp.objs[k]);
  }

  /** A length that fits before an 8-aligned end still fits when rounded up. */
  lemma RoundedFits(next: nat, length: nat, end: nat)
    requires next % 8 == 0 && end % 8 == 0 && next + length <= end
    ensures next + length <= next + RoundUp8(length) <= end && (next + RoundUp8(length)) % 8 == 0
  {
  }

  lemma StepSubBuffers(inp: Input, p: Progress, k: nat, ok: bool)
    requires Shaped(inp) && k < |inp.objs| && Good(inp, k, p) && inp.extra % 8 == 0 && Step(inp, p, k, ok).Some?
    ensures var p' := Step(inp, p, k, ok).value;
            && p'.sgNext % 8 == 0 && p'.sgNext <= inp.extra && SubBuffersDisjoint(inp, k + 1, p')
  {
    hide ObjectsDisjoint, ValidateObject, ParentsFit, PatchesInside, PatchesAscend, StackEncodes, OpenFrom, RoundUp8;
    var p' := Step(inp, p, k, ok).value;
    if inp.objs[k].Ptr? {
      RoundedFits(p.sgNext, inp.objs[k].length, inp.extra);
      assert p'.starts == p.starts[k := p.sgNext];
    } else {
      assert p'.starts == p.starts && p'.sgNext == p.sgNext;
    }
  }

  lemma StepParents(inp: Input, p: Progress, k: nat, ok: bool)
    requires Shaped(inp) && k < |inp.objs| && Good(inp, k, p) && Step(inp, p, k, ok).Some?
    ensures var p' := Step(inp, p, k, ok).value;
            ParentsFit(inp.objs, k + 1) && (p'.last.Some? ==> IsParent(inp.objs, p'.last.value, k + 1))
  {
    hide ObjectsDisjoint, ValidateObject, SubBuffersDisjoint, PatchesInside, PatchesAscend, StackEncodes, OpenFrom;
  }

  /** Opening `parent` at `end`, an offset past everything patched there, keeps the encoding. */
  lemma ReopenKeeps(objs: seq<Object>, p: Progress, parent: nat, start: nat, len: nat, k: nat, t: nat)
    requires FixupAllowed(objs, p, parent, start) && StackEncodes(objs, p)
    ensures forall a ::
              && 0 <= a < |p.patches| && p.patches[a].parent == t
              && OpenFrom(objs, parent, start + len, t).Some? ==>
                p.patches[a].start + p.patches[a].len <= OpenFrom(objs, parent, start + len, t).value
  {
    if OpenFrom(objs, parent, start + len, t).Some? && t != parent {
      OpenTransitive(objs, p.last.value, p.lastMin, parent, start + len, t);
    }
  }

  lemma StepStack(inp: Input, p: Progress, k: nat, ok: bool)
    requires Shaped(inp) && k < |inp.objs| && Good(inp, k, p) && Step(inp, p, k, ok).Some?
    ensures StackEncodes(inp.objs, Step(inp, p, k, ok).value)
  {
    hide SubBuffersDisjoint, ObjectsDisjoint, ValidateObject, ParentsFit, PatchesAscend;
    var p', o := Step(inp, p, k, ok).value, inp.objs[k];
    forall a | 0 <= a < |p'.patches| && p'.last.Some?
      ensures var q := p'.patches[a];
              var open := OpenFrom(inp.objs, p'.last.value, p'.lastMin, q.parent);
              open.Some? ==> q.start + q.len <= open.value
    {
      var q := p'.patches[a];
      if a < |p.patches| {
        assert q == p.patches[a];
      }
      if o.Fda? {
        ReopenKeeps(inp.objs, p, o.parent, o.parentOffset, 4 * o.numFds, k, q.parent);
      } else if o.Ptr? && o.hasParent {
        ReopenKeeps(inp.objs, p, o.parent, o.parentOffset, 8, k, q.parent);
      }
    }
  }

  lemma StepPatches(inp: Input, p: Progress, k: nat, ok: bool)
    requires Shaped(inp) && k < |inp.objs| && Good(inp, k, p) && Step(inp, p, k, ok).Some?
    ensures var p' := Step(inp, p, k, ok).value; PatchesInside(inp, k + 1, p') && PatchesAscend(p')
  {
    hide SubBuffersDisjoint, ObjectsDisjoint, ValidateObject, ParentsFit, OpenFrom;
    var p' := Step(inp, p, k, ok).value;
    assert |p'.patches| == |p.patches| || (|p'.patches| == |p.patches| + 1 && p'.patches[|p.patches|].step == k);
    assert forall a :: 0 <= a < |p.patches| ==> p'.patches[a] == p.patches[a];
  }

  /** Accepting one more object keeps everything. */
  lemma StepKeeps(inp: Input, p: Progress, k: nat, ok: bool)
    requires Shaped(inp) && k < |inp.objs| && Good(inp, k, p) && inp.extra % 8 == 0 && Step(inp, p, k, ok).Some?
    ensures Good(inp, k + 1, Step(inp, p, k, ok).value)
  {
    hide SubBuffersDisjoint, ObjectsDisjoint, Step, ParentsFit, PatchesInside, PatchesAscend, StackEncodes;
    StepObjects(inp, p, k, ok);
    StepSubBuffers(inp, p, k, ok);
    StepParents(inp, p, k, ok);
    StepStack(inp, p, k, ok);
    StepPatches(inp, p, k, ok);
  }

  // ---------- whole lists ----------

  /** The loop over the first `n` offsets, after the two alignment checks. */
  function Process(inp: Input, oks: nat -> bool, n: nat): Option<Progress>
    requires Shaped(inp) && n <= |inp.objs|
  {
    if n == 0 then
      if inp.offsetsSize % 8 != 0 || inp.extra % 8 != 0 then None else Some(START)
    else
      var p := Process(inp, oks, n - 1);
      if p.None? then None else Step(inp, p.value, n - 1, oks(n - 1))
  }

  lemma {:induction false} ProcessKeeps(inp: Input, oks: nat -> bool, n: nat)
    requires Shaped(inp) && n <= |inp.objs| && Process(inp, oks, n).Some?
    ensures inp.extra % 8 == 0 && inp.offsetsSize % 8 == 0 && Good(inp, n, Process(inp, oks, n).value)
    decreases n
  {
    if n > 0 {
      ProcessKeeps(inp, oks, n - 1);
      StepKeeps(inp, Process(inp, oks, n - 1).value, n - 1, oks(n - 1));
    }
  }

  lemma {:induction false} NoneStaysNone(inp: Input, oks: nat -> bool, k: nat, n: nat)
    requires Shaped(inp) && k <= n <= |inp.objs| && Process(inp, oks, k).None?
    ensures Process(inp, oks, n).None?
    decreases n
  {
    if k < n {
      NoneStaysNone(inp, oks, k, n - 1);
    }
  }

  /** binder_translate_fd_array behind the checks of its caller. */
  method TranslateFdArray(inp: Input, p: Progress, k: nat, ok: bool) returns (r: Option<Progress>)
    requires Shaped(inp) && k < |inp.objs| && inp.objs[k].Fda? && ParentsFit(inp.objs, k)
    requires (p.last.Some? ==> IsParent(inp.objs, p.last.value, k)) && SubBuffersDisjoint(inp, k, p)
    ensures r == FdaStep(inp, p, k, inp.objs[k], ok)
  {
    hide OpenFrom;
    var o := inp.objs[k];
    if !IsParent(inp.objs, o.parent, k) {
      return None;
    }
    var allowed := ValidateFixup(inp.objs, o.parent, o.parentOffset, p.last, p.lastMin, k);
    if !allowed || o.numFds >= (SIZE_MOD - 1) / 4 {
      return None;
    }
    var bytes, length := 4 * o.numFds, inp.objs[o.parent].length;
    if bytes > length || o.parentOffset > length - bytes {
      return None;
    }
    if (p.starts[o.parent] + o.parentOffset) % 4 != 0 || !ok {
      return None;
    }
    return Some(p.(last := Some(o.parent), lastMin := o.parentOffset + bytes,
                   patches := p.patches + [Patch(o.parent, o.parentOffset, bytes, k)]));
  }

  /** The BINDER_TYPE_PTR case with binder_fixup_parent. */
  method TranslatePtr(inp: Input, p: Progress, k: nat, ok: bool) returns (r: Option<Progress>)
    requires Shaped(inp) && k < |inp.objs| && inp.objs[k].Ptr? && ParentsFit(inp.objs, k)
    requires p.last.Some? ==> IsParent(inp.objs, p.last.value, k)
    ensures r == PtrStep(inp, p, k, inp.objs[k], ok)
  {
    hide OpenFrom;
    var o := inp.objs[k];
    if o.length > BufLeft(inp.extra, p.sgNext) || !ok {
      return None;
    }
    var p1 := p.(starts := p.starts[k := p.sgNext], sgNext := p.sgNext + RoundUp8(o.length), last := Some(k),
        lastMin := 0);
    if !o.hasParent {
      return Some(p1);
    }
    if !IsParent(inp.objs, o.parent, k) {
      return None;
    }
    var allowed := ValidateFixup(inp.objs, o.parent, o.parentOffset, p.last, p.lastMin, k);
    if !allowed || inp.objs[o.parent].length < 8 || o.parentOffset > inp.objs[o.parent].length - 8 {
      return None;
    }
    return Some(p1.(patches := p.patches + [Patch(o.parent, o.parentOffset, 8, k)]));
  }

  method TranslateOne(inp: Input, p: Progress, k: nat, ok: bool) returns (next: Option<Progress>)
    requires Shaped(inp) && k < |inp.objs| && Good(inp, k, p)
    ensures next == Step(inp, p, k, ok)
  {
    hide ValidateObject, FdaStep, PtrStep, ObjectsDisjoint, PatchesInside, PatchesAscend, StackEncodes;
    var o, offset := inp.objs[k], inp.offsets[k];
    var size := ValidateObject(inp.dataSize, offset, o);
    if size == 0 || offset < p.offMin {
      return None;
    }
    var p1 := p.(offMin := offset + size);
    if o.Fda? {
      next := TranslateFdArray(inp, p1, k, ok);
    } else if o.Ptr? {
      next := TranslatePtr(inp, p1, k, ok);
    } else {
      next := if ok then Some(p1) else None;
    }
  }

  /** The loop itself. A failure reports the object it stopped at. */
  method TranslateObjects(inp: Input, oks: nat -> bool) returns (accepted: bool, stop: nat, p: Progress)
    requires Shaped(inp)
    ensures accepted ==> stop == |inp.objs| && Process(inp, oks, stop) == Some(p)
    ensures !accepted ==> Process(inp, oks, |inp.objs|).None? && stop <= |inp.objs|
    ensures !accepted && Process(inp, oks, 0).Some? ==>
              stop < |inp.objs| && Process(inp, oks, stop).Some? && Process(inp, oks, stop + 1).None?
  {
    hide Step, Good;
    accepted, stop, p := false, 0, START;
    if inp.offsetsSize % 8 != 0 || inp.extra % 8 != 0 {
      NoneStaysNone(inp, oks, 0, |inp.objs|);
      return;
    }
    while stop < |inp.objs|
      invariant stop <= |inp.objs| && Process(inp, oks, stop) == Some(p)
    {
      ProcessKeeps(inp, oks, stop);
      var next := TranslateOne(inp, p, stop, oks(stop));
      if next.None? {
        NoneStaysNone(inp, oks, stop + 1, |inp.objs|);
        return;
      }
      p := next.value;
      stop := stop + 1;
    }
    accepted := true;
  }

  // ---------- the theorems ----------

  /** Where the areas of a buffer lie, relative to its data. */
  function ExtraBase(inp: Input): nat {
    RoundUp8(inp.dataSize) + RoundUp8(inp.offsetsSize)
  }

  /** Two patches, at their places in the extra area, have no byte in common. */
  ghost predicate PatchesApart(p: Progress, a: nat, b: nat)
    requires a < |p.patches| && b < |p.patches|
  {
    var qa, qb := p.patches[a], p.patches[b];
    && qa.parent in p.starts && qb.parent in p.starts
    && var (sa, sb) := (p.starts[qa.parent] + qa.start, p.starts[qb.parent] + qb.start);
       sa + qa.len <= sb || sb + qb.len <= sa
  }

  /** Every accepted list: the copied sub-buffers lie in the extra area of the allocated buffer, are
      8-aligned and pairwise disjoint, the copy cursor never passes the end, and no two fixups,
      in the same parent or in different ones, touch a common byte. */
  lemma AcceptedLayout(inp: Input, oks: nat -> bool)
    requires Shaped(inp) && Process(inp, oks, |inp.objs|).Some?
    ensures ObjectsDisjoint(inp, |inp.objs|)
    ensures var p, base := Process(inp, oks, |inp.objs|).value, ExtraBase(inp);
            && p.sgNext <= inp.extra && base + inp.extra == TrueSize(inp.dataSize, inp.offsetsSize, inp.extra)
            && SubBuffersDisjoint(inp, |inp.objs|, p)
            && PatchesInside(inp, |inp.objs|, p) && PatchesAscend(p)
    ensures var p := Process(inp, oks, |inp.objs|).value;
            forall a: nat, b: nat :: a < b < |p.patches| ==> PatchesApart(p, a, b)
  {
    hide Process, ObjectsDisjoint, SubBuffersDisjoint, PatchesInside, PatchesAscend, StackEncodes, ParentsFit,
        PatchesApart;
    ProcessKeeps(inp, oks, |inp.objs|);
    var p := Process(inp, oks, |inp.objs|).value;
    assert RoundUp8(inp.extra) == inp.extra;
    forall a: nat, b: nat | a < b < |p.patches|
      ensures PatchesApart(p, a, b)
    {
      PatchPair(inp, |inp.objs|, p, a, b);
    }
  }

  lemma PatchPair(inp: Input, n: nat, p: Progress, a: nat, b: nat)
    requires Shaped(inp) && n <= |inp.objs| && a < b < |p.patches|
    requires SubBuffersDisjoint(inp, n, p) && PatchesInside(inp, n, p) && PatchesAscend(p)
    ensures PatchesApart(p, a, b)
  {
    var qa, qb := p.patches[a], p.patches[b];
    assert qa.parent in p.starts && qb.parent in p.starts;
    assert qa.parent < qb.parent ==> p.starts[qa.parent] + inp.objs[qa.parent].length <= p.starts[qb.parent];
    assert qb.parent < qa.parent ==> p.starts[qb.parent] + inp.objs[qb.parent].length <= p.starts[qa.parent];
  }

  /** Every accepted child has its fixup in the right place of the right parent. */
  lemma {:induction false} ChildrenArePatched(inp: Input, oks: nat -> bool, n: nat, k: nat)
    requires Shaped(inp) && k < n <= |inp.objs| && Process(inp, oks, n).Some?
    requires inp.objs[k].Ptr? && inp.objs[k].hasParent
    ensures Patch(inp.objs[k].parent, inp.objs[k].parentOffset, 8, k) in Process(inp, oks, n).value.patches
    decreases n
  {
    hide ValidateObject, OpenFrom;
    var before := Process(inp, oks, n - 1).value;
    var after := Process(inp, oks, n).value;
    if k < n - 1 {
      ChildrenArePatched(inp, oks, n - 1, k);
      assert before.patches <= after.patches;
    } else {
      assert after.patches[|before.patches|] == Patch(inp.objs[k].parent, inp.objs[k].parentOffset, 8, k);
    }
  }
}
