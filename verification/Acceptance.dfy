/** Which object lists a transaction accepts, told from the list alone: without the loop, its cursors or its
    walk over ancestors. */
module Acceptance {
  import opened SizeMath
  import opened Objects

  // ---------- what a list says ----------

  /** What the sub-buffers before object `k` take of the extra area. */
  function Taken(objs: seq<Object>, k: nat): (t: nat)
    requires k <= |objs|
    ensures t % 8 == 0
  {
    if k == 0 then 0 else Taken(objs, k - 1) + if objs[k - 1].Ptr? then RoundUp8(objs[k - 1].length) else 0
  }

  function Writes(objs: seq<Object>, k: nat): seq<Patch>
    requires k <= |objs|
  {
    if k == 0 then []
    else
      var w := PatchOf(objs[k - 1], k - 1);
      Writes(objs, k - 1) + (if w.Some? then [w.value] else [])
  }

  /** The sub-buffer that the objects before `k` dealt with last. */
  function Latest(objs: seq<Object>, k: nat): Option<nat>
    requires k <= |objs|
  {
    if k == 0 then None
    else
      match objs[k - 1]
      case Ptr(_, _, _, _) => Some(k - 1)
      case Fda(_, parent, _) => Some(parent)
      case _ => Latest(objs, k - 1)
  }

  /** `target` is `x`, or its parent, or its parent's parent, and so on. */
  predicate Ancestor(objs: seq<Object>, x: nat, target: nat)
    decreases x
  {
    || x == target
    || (x < |objs| && objs[x].Ptr? && objs[x].hasParent && objs[x].parent < x && Ancestor(objs, objs[x].parent, target))
  }

  predicate EndsBy(w: Patch, end: nat) { w.start + w.len <= end }

  /** Something may be written at `start` of sub-buffer `target` when object `k` comes: `target` is the
      sub-buffer dealt with last or contains it, and everything written there so far lies before `start`. */
  ghost predicate InOrder(objs: seq<Object>, k: nat, target: nat, start: nat)
    requires k <= |objs|
  {
    && Latest(objs, k).Some? && Ancestor(objs, Latest(objs, k).value, target)
    && forall j :: 0 <= j < k && PatchOf(objs[j], j).Some? && PatchOf(objs[j], j).value.parent == target ==>
         EndsBy(PatchOf(objs[j], j).value, start)
  }

  /** Object `k` writes inside a sub-buffer of an earlier object, in order. */
  ghost predicate WritesWell(objs: seq<Object>, k: nat)
    requires k < |objs|
  {
    var w := PatchOf(objs[k], k);
    w.Some? ==>
      && w.value.parent < k && objs[w.value.parent].Ptr?
      && w.value.start + w.value.len <= objs[w.value.parent].length
      && (objs[k].Fda? ==> w.value.start % 4 == 0)
      && InOrder(objs, k, w.value.parent, w.value.start)
  }

  /** What object `k` has to be; `ok` says that translating or copying it succeeds. */
  ghost predicate Acceptable(inp: Input, k: nat, ok: bool)
    requires Shaped(inp) && k < |inp.objs|
  {
    var o, offset := inp.objs[k], inp.offsets[k];
    && ok && !o.Unknown? && offset % 4 == 0 && offset + ObjectSize(o) <= inp.dataSize
    && (forall j :: 0 <= j < k ==> inp.offsets[j] + ObjectSize(inp.objs[j]) <= offset)
    && (o.Ptr? ==> Taken(inp.objs, k) + o.length <= inp.extra)
    && WritesWell(inp.objs, k)
  }

  // ---------- what the loop has found out by object k ----------

  function LatestMin(objs: seq<Object>, k: nat): nat
    requires k <= |objs|
  {
    if k == 0 then 0
    else
      match objs[k - 1]
      case Ptr(_, _, _, _) => 0
      case Fda(num, _, parentOffset) => parentOffset + 4 * num
      case _ => LatestMin(objs, k - 1)
  }

  /** The loop's variables are readings of the list. */
  ghost predicate Reads(inp: Input, k: nat, p: Progress)
    requires Shaped(inp) && k <= |inp.objs|
  {
    && p.offMin == (if k == 0 then 0 else inp.offsets[k - 1] + ObjectSize(inp.objs[k - 1]))
    && p.sgNext == Taken(inp.objs, k)
    && (forall i :: i in p.starts ==> i < k && p.starts[i] == Taken(inp.objs, i))
    && p.last == Latest(inp.objs, k) && p.lastMin == LatestMin(inp.objs, k)
    && p.patches == Writes(inp.objs, k)
  }

  lemma {:induction false} WrittenIsListed(objs: seq<Object>, k: nat)
    requires k <= |objs|
    ensures forall j :: 0 <= j < k && PatchOf(objs[j], j).Some? ==> PatchOf(objs[j], j).value in Writes(objs, k)
    ensures forall q :: q in Writes(objs, k) ==> q.step < k && PatchOf(objs[q.step], q.step) == Some(q)
  {
    if k > 0 {
      WrittenIsListed(objs, k - 1);
      forall j | 0 <= j < k && PatchOf(objs[j], j).Some?
        ensures PatchOf(objs[j], j).value in Writes(objs, k)
      {
        assert j < k - 1 ==> PatchOf(objs[j], j).value in Writes(objs, k - 1);
      }
    }
  }

  lemma {:induction false} OpenExactly(objs: seq<Object>, x: nat, min: nat, target: nat)
    ensures OpenFrom(objs, x, min, target).Some? <==> Ancestor(objs, x, target)
    decreases x
  {
    if x != target && x < |objs| && objs[x].Ptr? && objs[x].hasParent && objs[x].parent < x {
      OpenExactly(objs, objs[x].parent, objs[x].parentOffset + 8, target);
    }
  }

  /** Where something written into `target` ends, or its beginning. */
  ghost predicate IsEnd(objs: seq<Object>, k: nat, target: nat, end: nat)
    requires k <= |objs|
  {
    || end == 0
    || exists j :: 0 <= j < k && PatchOf(objs[j], j).Some? && PatchOf(objs[j], j).value.parent == target
                   && PatchOf(objs[j], j).value.start + PatchOf(objs[j], j).value.len == end
  }

  lemma {:induction false} LatestEnds(objs: seq<Object>, k: nat)
    requires k <= |objs| && Latest(objs, k).Some?
    ensures IsEnd(objs, k, Latest(objs, k).value, LatestMin(objs, k))
  {
    var o := objs[k - 1];
    if o.Fda? {
      assert PatchOf(objs[k - 1], k - 1).value == Patch(o.parent, o.parentOffset, 4 * o.numFds, k - 1);
    } else if !o.Ptr? {
      LatestEnds(objs, k - 1);
    }
  }

  /** The least open offset of an ancestor is where something written there ends. */
  lemma {:induction false} OpensAtEnd(objs: seq<Object>, k: nat, x: nat, min: nat, target: nat)
    requires x < k <= |objs| && IsEnd(objs, k, x, min) && OpenFrom(objs, x, min, target).Some?
    ensures IsEnd(objs, k, target, OpenFrom(objs, x, min, target).value)
    decreases x
  {
    if x != target {
      assert PatchOf(objs[x], x).value == Patch(objs[x].parent, objs[x].parentOffset, 8, x);
      OpensAtEnd(objs, k, objs[x].parent, objs[x].parentOffset + 8, target);
    }
  }

  /** The walk over ancestors allows a write exactly if it is in order. */
  lemma AllowedExactly(inp: Input, k: nat, p: Progress, target: nat, start: nat)
    requires Shaped(inp) && k <= |inp.objs| && Good(inp, k, p) && Reads(inp, k, p)
    ensures FixupAllowed(inp.objs, p, target, start) <==> InOrder(inp.objs, k, target, start)
  {
    hide ObjectsDisjoint, SubBuffersDisjoint, PatchesInside, PatchesAscend;
    var objs := inp.objs;
    WrittenIsListed(objs, k);
    if p.last.Some? {
      OpenExactly(objs, p.last.value, p.lastMin, target);
      if OpenFrom(objs, p.last.value, p.lastMin, target).Some? {
        LatestEnds(objs, k);
        OpensAtEnd(objs, k, p.last.value, p.lastMin, target);
        EndsBefore(objs, k, p, target);
      }
    }
  }

  lemma EndsBefore(objs: seq<Object>, k: nat, p: Progress, target: nat)
    requires k <= |objs| && p.patches == Writes(objs, k) && StackEncodes(objs, p)
    requires p.last.Some? && OpenFrom(objs, p.last.value, p.lastMin, target).Some?
    ensures forall j :: 0 <= j < k && PatchOf(objs[j], j).Some? && PatchOf(objs[j], j).value.parent == target ==>
              EndsBy(PatchOf(objs[j], j).value, OpenFrom(objs, p.last.value, p.lastMin, target).value)
  {
    WrittenIsListed(objs, k);
    forall j | 0 <= j < k && PatchOf(objs[j], j).Some? && PatchOf(objs[j], j).value.parent == target
      ensures EndsBy(PatchOf(objs[j], j).value, OpenFrom(objs, p.last.value, p.lastMin, target).value)
    {
      var a :| 0 <= a < |p.patches| && p.patches[a] == PatchOf(objs[j], j).value;
    }
  }

  // ---------- one object ----------

  lemma PtrExactly(inp: Input, k: nat, p: Progress, p1: Progress, ok: bool)
    requires Shaped(inp) && k < |inp.objs| && Good(inp, k, p) && Reads(inp, k, p) && inp.objs[k].Ptr?
    requires p1 == p.(offMin := p1.offMin)
    ensures PtrStep(inp, p1, k, inp.objs[k], ok).Some? <==>
            ok && Taken(inp.objs, k) + inp.objs[k].length <= inp.extra && WritesWell(inp.objs, k)
  {
    hide Good, Reads, InOrder, FixupAllowed;
    var o := inp.objs[k];
    assert p1.sgNext == Taken(inp.objs, k) <= inp.extra by { ReadsCursor(inp, k, p); }
    if o.hasParent {
      AllowedExactly(inp, k, p, o.parent, o.parentOffset);
      assert FixupAllowed(inp.objs, p1, o.parent, o.parentOffset) == FixupAllowed(inp.objs, p, o.parent, o.parentOffset)
        by { SameAllowed(inp.objs, p, p1, o.parent, o.parentOffset); }
    }
  }

  lemma ReadsCursor(inp: Input, k: nat, p: Progress)
    requires Shaped(inp) && k <= |inp.objs| && Good(inp, k, p) && Reads(inp, k, p)
    ensures p.sgNext == Taken(inp.objs, k) <= inp.extra
  {
  }

  lemma SameAllowed(objs: seq<Object>, p: Progress, p1: Progress, target: nat, start: nat)
    requires p1.last == p.last && p1.lastMin == p.lastMin
    ensures FixupAllowed(objs, p1, target, start) == FixupAllowed(objs, p, target, start)
  {
  }

  lemma FdaExactly(inp: Input, k: nat, p: Progress, p1: Progress, ok: bool)
    requires Shaped(inp) && k < |inp.objs| && Good(inp, k, p) && Reads(inp, k, p) && inp.objs[k].Fda?
    requires p1 == p.(offMin := p1.offMin) && inp.extra % 8 == 0
    ensures FdaStep(inp, p1, k, inp.objs[k], ok).Some? <==> ok && WritesWell(inp.objs, k)
  {
    hide Good, Reads, InOrder, FixupAllowed;
    var o := inp.objs[k];
    AllowedExactly(inp, k, p, o.parent, o.parentOffset);
    SameAllowed(inp.objs, p, p1, o.parent, o.parentOffset);
    if IsParent(inp.objs, o.parent, k) {
      ParentArea(inp, k, p, o.parent);
    }
  }

  /** A parent starts at a multiple of 8 and is too small for the wrap-around check to matter. */
  lemma ParentArea(inp: Input, k: nat, p: Progress, i: nat)
    requires Shaped(inp) && k <= |inp.objs| && Good(inp, k, p) && inp.extra % 8 == 0
    requires IsParent(inp.objs, i, k)
    ensures i in p.starts && p.starts[i] % 8 == 0 && inp.objs[i].length <= SIZE_MOD - 8
  {
  }

  /** One turn of the loop accepts exactly what is acceptable. */
  lemma StepExactly(inp: Input, k: nat, p: Progress, ok: bool)
    requires Shaped(inp) && k < |inp.objs| && Good(inp, k, p) && Reads(inp, k, p) && inp.extra % 8 == 0
    ensures Step(inp, p, k, ok).Some? <==> Acceptable(inp, k, ok)
  {
    hide PtrStep, FdaStep, WritesWell, StackEncodes, PatchesInside, PatchesAscend, SubBuffersDisjoint, ParentsFit;
    hide ValidateObject;
    var o, p1 := inp.objs[k], p.(offMin := inp.offsets[k] + ObjectSize(inp.objs[k]));
    ValidateObjectExact(inp.dataSize, inp.offsets[k], o);
    BehindAll(inp, k, p);
    if o.Ptr? {
      PtrExactly(inp, k, p, p1, ok);
    } else if o.Fda? {
      FdaExactly(inp, k, p, p1, ok);
    } else {
      NoWrite(inp.objs, k);
    }
  }

  lemma NoWrite(objs: seq<Object>, k: nat)
    requires k < |objs| && !objs[k].Ptr? && !objs[k].Fda?
    ensures WritesWell(objs, k)
  {
  }

  lemma BehindAll(inp: Input, k: nat, p: Progress)
    requires Shaped(inp) && k < |inp.objs| && Good(inp, k, p) && Reads(inp, k, p)
    ensures inp.offsets[k] >= p.offMin <==>
            forall j :: 0 <= j < k ==> inp.offsets[j] + ObjectSize(inp.objs[j]) <= inp.offsets[k]
  {
    if k > 0 && forall j :: 0 <= j < k ==> inp.offsets[j] + ObjectSize(inp.objs[j]) <= inp.offsets[k] {
      assert inp.offsets[k - 1] + ObjectSize(inp.objs[k - 1]) <= inp.offsets[k];
    }
  }

  lemma StepReads(inp: Input, k: nat, p: Progress, ok: bool)
    requires Shaped(inp) && k < |inp.objs| && Reads(inp, k, p) && Step(inp, p, k, ok).Some?
    ensures Reads(inp, k + 1, Step(inp, p, k, ok).value)
  {
    hide FixupAllowed;
    ValidateObjectExact(inp.dataSize, inp.offsets[k], inp.objs[k]);
    var p', w := Step(inp, p, k, ok).value, PatchOf(inp.objs[k], k);
    assert p'.patches == p.patches + (if w.Some? then [w.value] else []);
  }

  // ---------- whole lists ----------

  lemma {:induction false} ProcessReads(inp: Input, oks: nat -> bool, n: nat)
    requires Shaped(inp) && n <= |inp.objs| && Process(inp, oks, n).Some?
    ensures Reads(inp, n, Process(inp, oks, n).value)
    decreases n
  {
    hide Step, Reads;
    if n > 0 {
      ProcessReads(inp, oks, n - 1);
      StepReads(inp, n - 1, Process(inp, oks, n - 1).value, oks(n - 1));
    } else {
      NothingRead(inp);
    }
  }

  lemma NothingRead(inp: Input)
    requires Shaped(inp)
    ensures Reads(inp, 0, START)
  {
  }

  /** A list is accepted up to object `n` exactly if the sizes are aligned and each object before `n` is
      acceptable: every list, every `n`, and whatever succeeds or fails along the way. */
  lemma {:induction false} AcceptedExactly(inp: Input, oks: nat -> bool, n: nat)
    requires Shaped(inp) && n <= |inp.objs|
    ensures Process(inp, oks, n).Some? <==>
            && inp.offsetsSize % 8 == 0 && inp.extra % 8 == 0
            && forall k :: 0 <= k < n ==> Acceptable(inp, k, oks(k))
    decreases n
  {
    hide Step, Reads, Good, Acceptable;
    if n > 0 {
      AcceptedExactly(inp, oks, n - 1);
      if Process(inp, oks, n - 1).Some? {
        var p := Process(inp, oks, n - 1).value;
        ProcessKeeps(inp, oks, n - 1);
        ProcessReads(inp, oks, n - 1);
        StepExactly(inp, n - 1, p, oks(n - 1));
      }
    }
  }
}
