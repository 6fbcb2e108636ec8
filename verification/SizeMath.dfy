/** Unsigned 64-bit sizes as binder_alloc_buf and binder_free_buf compute with them. */
module SizeMath {

  const SIZE_MOD: int := 0x1_0000_0000_0000_0000

  type Size = x: int | 0 <= x < SIZE_MOD

  datatype Option<+T> = None | Some(value: T)

  /** Machine addition: wraps at 2^64. */
  function Plus(a: Size, b: Size): Size {
    if a + b < SIZE_MOD then a + b else a + b - SIZE_MOD
  }

  /** ALIGN(x, 8) on a size_t: the addition of 7 may wrap. */
  function Align8(x: Size): Size {
    Plus(x, 7) / 8 * 8
  }

  /** Rounding up to a multiple of eight, over the unbounded integers. */
  function RoundUp8(x: nat): nat {
    (x + 7) / 8 * 8
  }

  /** What a request of three areas really needs, over the unbounded integers. */
  function TrueSize(data: Size, offsets: Size, extra: Size): nat {
    RoundUp8(data) + RoundUp8(offsets) + RoundUp8(extra)
  }

  /** The size computation of binder_alloc_buf with its two wrap checks. */
  function CheckedSize(data: Size, offsets: Size, extra: Size): Option<Size> {
    var dataOffsets := Plus(Align8(data), Align8(offsets));
    if dataOffsets < data || dataOffsets < offsets then None else
    var size := Plus(dataOffsets, Align8(extra));
    if size < dataOffsets || size < extra then None else Some(size)
  }

  /** The unchecked recomputation of binder_free_buf. */
  function UncheckedSize(data: Size, offsets: Size, extra: Size): Size {
    Plus(Plus(Align8(data), Align8(offsets)), Align8(extra))
  }

  lemma Align8Exact(x: Size)
    ensures Align8(x) == if RoundUp8(x) < SIZE_MOD then RoundUp8(x) else 0
    ensures x <= RoundUp8(x) < x + 8
    ensures RoundUp8(x) >= SIZE_MOD ==> x > SIZE_MOD - 8
    ensures RoundUp8(x) % 8 == 0
  {
  }

  /** The wrap checks accept exactly the triples whose aligned sum fits in 64 bits, and then
      compute that sum; the recomputation on free then yields the same number. */
  lemma CheckedSizeExact(data: Size, offsets: Size, extra: Size)
    ensures CheckedSize(data, offsets, extra)
         == if TrueSize(data, offsets, extra) < SIZE_MOD then Some(TrueSize(data, offsets, extra)) else None
    ensures CheckedSize(data, offsets, extra).Some?
        ==> UncheckedSize(data, offsets, extra) == TrueSize(data, offsets, extra)
  {
    Align8Exact(data);
    Align8Exact(offsets);
    Align8Exact(extra);
    var dataOffsets := Plus(Align8(data), Align8(offsets));
    assert dataOffsets % 8 == 0 && dataOffsets <= SIZE_MOD - 8;
  }
}
