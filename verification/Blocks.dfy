/** The address list of one process's buffer region, as a value: what the headers say, which
    pages they and the allocated data occupy, and what carving and releasing do to both. */
module Blocks {
  import opened SizeMath

  const PAGE: int := 4096
  // sizeof(struct binder_buffer) on a 64-bit machine
  const HEADER: int := 88

  /** A header in the region, at its offset from the region's start. The size fields of a free
      header are stale in the driver and never read, so they are not part of the value. */
  datatype Block =
    | Free(addr: nat)
    | Used(addr: nat, data: Size, offsets: Size, extra: Size, isAsync: bool)

  // ---------- the list and its invariants ----------

  function End(bs: seq<Block>, limit: nat, i: nat): nat
    requires i < |bs|
  {
    if i + 1 < |bs| then bs[i + 1].addr else limit
  }

  /** binder_buffer_size: derived from the successor in the list, not stored. */
  function Room(bs: seq<Block>, limit: nat, i: nat): int
    requires i < |bs|
  {
    End(bs, limit, i) - bs[i].addr - HEADER
  }

  /** Headers tile the region: the first one is at offset 0, and every header lies inside the
      region and ends before the next one starts. */
  ghost predicate Tiled(bs: seq<Block>, limit: nat) {
    && |bs| > 0 && bs[0].addr == 0 && limit % PAGE == 0
    && (forall i :: 0 <= i < |bs| ==> bs[i].addr + HEADER <= limit)
    && (forall i, j :: 0 <= i < j < |bs| ==> bs[i].addr + HEADER <= bs[j].addr)
  }

  ghost predicate Aligned(bs: seq<Block>) {
    forall i :: 0 <= i < |bs| ==> bs[i].addr % 8 == 0
  }

  ghost predicate NoFreePair(bs: seq<Block>) {
    forall i :: 0 <= i < |bs| - 1 ==> bs[i].Used? || bs[i + 1].Used?
  }

  /** The bytes an allocated block was asked for. */
  function Needed(b: Block): nat
    requires b.Used?
  {
    TrueSize(b.data, b.offsets, b.extra)
  }

  ghost predicate RequestsFit(bs: seq<Block>, limit: nat) {
    forall i :: 0 <= i < |bs| && bs[i].Used? ==> Needed(bs[i]) <= Room(bs, limit, i)
  }

  ghost predicate Sound(bs: seq<Block>, limit: nat) {
    Tiled(bs, limit) && Aligned(bs) && RequestsFit(bs, limit)
  }

  ghost predicate WellFormed(bs: seq<Block>, limit: nat) {
    Sound(bs, limit) && NoFreePair(bs)
  }

  // ---------- finding a block by its address ----------

  function IndexOf(bs: seq<Block>, a: nat): (i: nat)
    ensures i <= |bs|
    ensures i < |bs| ==> bs[i].addr == a
  {
    if bs == [] then 0 else if bs[0].addr == a then 0 else IndexOf(bs[1..], a) + 1
  }

  lemma {:induction false} IndexOfIsFirst(bs: seq<Block>, a: nat, j: nat)
    requires j < |bs| && bs[j].addr == a
    ensures IndexOf(bs, a) <= j
  {
    if j > 0 {
      IndexOfIsFirst(bs[1..], a, j - 1);
    }
  }

  predicate IsFree(bs: seq<Block>, a: nat) {
    var i := IndexOf(bs, a);
    i < |bs| && bs[i].Free?
  }

  predicate IsUsed(bs: seq<Block>, a: nat) {
    var i := IndexOf(bs, a);
    i < |bs| && bs[i].Used?
  }

  /** The size of the block at an address; zero where there is none. */
  function RoomAt(bs: seq<Block>, limit: nat, a: nat): int {
    var i := IndexOf(bs, a);
    if i < |bs| then Room(bs, limit, i) else 0
  }

  // ---------- pages ----------

  /** Block `i` holds a byte of page `p`: one of its header or, when allocated, of its data. */
  ghost predicate Pins(bs: seq<Block>, limit: nat, i: nat, p: nat)
    requires i < |bs|
  {
    var end := if bs[i].Used? then End(bs, limit, i) else bs[i].addr + HEADER;
    bs[i].addr < (p + 1) * PAGE && p * PAGE < end
  }

  ghost predicate Pinned(bs: seq<Block>, limit: nat, p: nat) {
    exists i :: 0 <= i < |bs| && Pins(bs, limit, i, p)
  }

  /** The exact page map: a page is present if and only if some block pins it. */
  ghost function PageMap(bs: seq<Block>, limit: nat): (pages: seq<bool>)
    ensures |pages| == limit / PAGE
    ensures forall p :: 0 <= p < |pages| ==> pages[p] == Pinned(bs, limit, p)
  {
    seq(limit / PAGE, p requires 0 <= p => Pinned(bs, limit, p))
  }

  function SetRange(pages: seq<bool>, lo: int, hi: int, v: bool): (r: seq<bool>)
    ensures |r| == |pages|
    ensures forall p :: 0 <= p < |r| ==> r[p] == if lo <= p < hi then v else pages[p]
  {
    seq(|pages|, p requires 0 <= p < |pages| => if lo <= p < hi then v else pages[p])
  }

  ghost predicate AllAre(pages: seq<bool>, lo: int, hi: int, v: bool) {
    forall p :: 0 <= p < |pages| && lo <= p < hi ==> pages[p] == v
  }

  function PageDown(a: nat): nat { a / PAGE }
  function PageUp(a: nat): nat { (a + PAGE - 1) / PAGE }

  // ---------- the asynchronous budget ----------

  function Charge(b: Block): nat {
    if b.Used? && b.isAsync then Needed(b) + HEADER else 0
  }

  function Charges(bs: seq<Block>): nat {
    if bs == [] then 0 else Charge(bs[0]) + Charges(bs[1..])
  }

  lemma {:induction false} ChargesConcat(a: seq<Block>, b: seq<Block>)
    ensures Charges(a + b) == Charges(a) + Charges(b)
  {
    if a == [] {
      assert a + b == b;
    } else {
      ChargesConcat(a[1..], b);
      assert (a + b)[1..] == a[1..] + b;
    }
  }

  lemma ChargesSplit(bs: seq<Block>, k: nat)
    requires k < |bs|
    ensures Charges(bs) == Charges(bs[..k]) + Charge(bs[k]) + Charges(bs[k + 1..])
  {
    assert bs == bs[..k] + bs[k..];
    ChargesConcat(bs[..k], bs[k..]);
    assert bs[k..][1..] == bs[k + 1..];
  }

  // ---------- the three list operations ----------

  /** What binder_alloc_buf leaves in place of free block `k`: the used header `b` with `size`
      bytes of data, followed by a new free header when more than HEADER + 4 bytes remain. */
  function Carve(bs: seq<Block>, limit: nat, k: nat, b: Block, size: nat): seq<Block>
    requires k < |bs|
  {
    if size + HEADER + 4 >= Room(bs, limit, k) then bs[k := b]
    else bs[..k] + [b, Free(bs[k].addr + HEADER + size)] + bs[k + 1..]
  }

  /** Deleting header `j` from the list: its predecessor absorbs the room. */
  function Unlink(bs: seq<Block>, j: nat): seq<Block>
    requires j < |bs|
  {
    bs[..j] + bs[j + 1..]
  }

  function MarkFree(bs: seq<Block>, k: nat): seq<Block>
    requires k < |bs|
  {
    bs[k := Free(bs[k].addr)]
  }

  function MergeNext(bs: seq<Block>, k: nat): seq<Block>
    requires k < |bs|
  {
    if k + 1 < |bs| && bs[k + 1].Free? then Unlink(bs, k + 1) else bs
  }

  function MergePrev(bs: seq<Block>, k: nat): seq<Block>
    requires k < |bs|
  {
    if k > 0 && bs[k - 1].Free? then Unlink(bs, k) else bs
  }

  /** What binder_free_buf leaves of the list: the block is free and joined with a free successor,
      then with a free predecessor. */
  function Release(bs: seq<Block>, k: nat): seq<Block>
    requires k < |bs|
  {
    MergePrev(MergeNext(MarkFree(bs, k), k), k)
  }

  // ---------- page lemmas ----------

  /** Where carving block `k` maps pages: from the first page boundary at or after its data up to
      the end of what is carved, but never into the page that holds the successor's header. */
  function CarveEndPage(bs: seq<Block>, limit: nat, k: nat, size: nat): nat
    requires k < |bs|
  {
    var room := Room(bs, limit, k);
    var data := bs[k].addr + HEADER;
    var taken := if size == room || size + HEADER + 4 >= room then size else size + HEADER;
    var top := PageUp(data + taken);
    var has := PageDown(End(bs, limit, k));
    if top > has then has else top
  }

  lemma NeededAligned(b: Block)
    requires b.Used?
    ensures Needed(b) % 8 == 0
  {
  }

  lemma CarveTiled(bs: seq<Block>, limit: nat, k: nat, b: Block, size: nat)
    requires Tiled(bs, limit) && k < |bs|
    requires b.addr == bs[k].addr && size <= Room(bs, limit, k)
    ensures Tiled(Carve(bs, limit, k, b, size), limit)
  {
  }

  lemma CarveAligned(bs: seq<Block>, limit: nat, k: nat, b: Block, size: nat)
    requires Aligned(bs) && k < |bs| && b.addr == bs[k].addr && size % 8 == 0
    ensures Aligned(Carve(bs, limit, k, b, size))
  {
    BehindAligned(bs[k].addr, size);
    var bs' := Carve(bs, limit, k, b, size);
    forall i | 0 <= i < |bs'|
      ensures bs'[i].addr % 8 == 0
    {
      hide Room;
      if i > k + 1 && |bs'| > |bs| {
        assert bs'[i] == bs[i - 1];
      }
    }
  }

  lemma BehindAligned(addr: nat, size: nat)
    requires addr % 8 == 0 && size % 8 == 0
    ensures (addr + HEADER + size) % 8 == 0
  {
  }

  lemma CarveNoFreePair(bs: seq<Block>, limit: nat, k: nat, b: Block, size: nat)
    requires NoFreePair(bs) && k < |bs| && bs[k].Free? && b.Used?
    ensures NoFreePair(Carve(bs, limit, k, b, size))
  {
  }

  /** The block of `Carve` that block `i` of the old list became. */
  function CarveIndex(bs: seq<Block>, limit: nat, k: nat, size: nat, i: nat): nat
    requires k < |bs|
  {
    if i <= k || size + HEADER + 4 >= Room(bs, limit, k) then i else i + 1
  }

  /** Carving keeps every other block and its room. */
  lemma CarveOthers(bs: seq<Block>, limit: nat, k: nat, b: Block, size: nat, i: nat)
    requires k < |bs| && i < |bs| && i != k && b.addr == bs[k].addr
    ensures var bs', j := Carve(bs, limit, k, b, size), CarveIndex(bs, limit, k, size, i);
            j < |bs'| && bs'[j] == bs[i] && Room(bs', limit, j) == Room(bs, limit, i)
  {
  }

  lemma CarveRequestsFit(bs: seq<Block>, limit: nat, k: nat, b: Block, size: nat)
    requires RequestsFit(bs, limit) && k < |bs|
    requires b.Used? && b.addr == bs[k].addr && size == Needed(b) <= Room(bs, limit, k)
    ensures RequestsFit(Carve(bs, limit, k, b, size), limit)
  {
    var bs' := Carve(bs, limit, k, b, size);
    forall j | 0 <= j < |bs'| && bs'[j].Used?
      ensures Needed(bs'[j]) <= Room(bs', limit, j)
    {
      if j != k {
        CarveOthers(bs, limit, k, b, size, if j < k || |bs'| == |bs| then j else j - 1);
      }
    }
  }

  /** The pages that lie wholly inside a free block's data are absent. */
  lemma InnerPagesAbsent(bs: seq<Block>, limit: nat, k: nat)
    requires Tiled(bs, limit) && k < |bs| && bs[k].Free?
    ensures AllAre(PageMap(bs, limit), PageUp(bs[k].addr + HEADER), PageDown(End(bs, limit, k)), false)
  {
    forall p, i | PageUp(bs[k].addr + HEADER) <= p < PageDown(End(bs, limit, k)) && 0 <= i < |bs|
      ensures !Pins(bs, limit, i, p)
    {
    }
  }

  /** Marking a block used or free changes exactly the pages wholly inside its data. */
  lemma TogglePages(bs: seq<Block>, limit: nat, k: nat, b: Block)
    requires Tiled(bs, limit) && k < |bs| && bs[k].Free?
    requires b.Used? && b.addr == bs[k].addr
    ensures PageMap(bs[k := b], limit)
         == SetRange(PageMap(bs, limit), PageUp(bs[k].addr + HEADER), PageDown(End(bs, limit, k)), true)
  {
    var bs' := bs[k := b];
    forall p | 0 <= p < limit / PAGE
      ensures Pinned(bs', limit, p)
          == if PageUp(bs[k].addr + HEADER) <= p < PageDown(End(bs, limit, k)) then true else Pinned(bs, limit, p)
    {
      assert forall i :: 0 <= i < |bs| && i != k ==> Pins(bs', limit, i, p) == Pins(bs, limit, i, p);
      if PageUp(bs[k].addr + HEADER) <= p < PageDown(End(bs, limit, k)) {
        assert Pins(bs', limit, k, p);
      } else if Pins(bs, limit, k, p) {
        assert Pins(bs', limit, k, p);
      } else if Pins(bs', limit, k, p) {
        assert k + 1 < |bs| && Pins(bs, limit, k + 1, p);
      }
    }
  }

  /** Carving maps exactly the pages of the driver's range, all of them absent before. */
  lemma CarvePages(bs: seq<Block>, limit: nat, k: nat, b: Block, size: nat)
    requires Tiled(bs, limit) && k < |bs| && bs[k].Free?
    requires b.Used? && b.addr == bs[k].addr && size <= Room(bs, limit, k)
    ensures var lo, hi := PageUp(bs[k].addr + HEADER), CarveEndPage(bs, limit, k, size);
            && hi <= limit / PAGE
            && AllAre(PageMap(bs, limit), lo, hi, false)
            && PageMap(Carve(bs, limit, k, b, size), limit) == SetRange(PageMap(bs, limit), lo, hi, true)
  {
    InnerPagesAbsent(bs, limit, k);
    if size + HEADER + 4 >= Room(bs, limit, k) {
      TogglePages(bs, limit, k, b);
      assert CarveEndPage(bs, limit, k, size) == PageDown(End(bs, limit, k));
    } else {
      var bs' := Carve(bs, limit, k, b, size);
      var lo, hi := PageUp(bs[k].addr + HEADER), CarveEndPage(bs, limit, k, size);
      forall p | 0 <= p < limit / PAGE
        ensures Pinned(bs', limit, p) == if lo <= p < hi then true else Pinned(bs, limit, p)
      {
        SplitPinned(bs, limit, k, b, size, p);
      }
    }
  }

  /** The two blocks a split leaves pin the pages of the old header, those of the driver's range
      and otherwise only pages the successor's header pins too. */
  lemma SplitHalves(bs: seq<Block>, limit: nat, k: nat, b: Block, size: nat, p: nat)
    requires Tiled(bs, limit) && k < |bs| && bs[k].Free? && p < limit / PAGE
    requires b.Used? && b.addr == bs[k].addr && size + HEADER + 4 < Room(bs, limit, k)
    ensures var bs' := Carve(bs, limit, k, b, size);
            var inRange := PageUp(bs[k].addr + HEADER) <= p < CarveEndPage(bs, limit, k, size);
            var halves := Pins(bs', limit, k, p) || Pins(bs', limit, k + 1, p);
            && (inRange || Pins(bs, limit, k, p) ==> halves)
            && (halves ==> inRange || Pins(bs, limit, k, p) || (k + 1 < |bs| && Pins(bs, limit, k + 1, p)))
  {
    var bs' := Carve(bs, limit, k, b, size);
    assert bs'[k] == b && bs'[k + 1] == Free(b.addr + HEADER + size);
  }

  lemma CarveOthersPin(bs: seq<Block>, limit: nat, k: nat, b: Block, size: nat, i: nat, p: nat)
    requires k < |bs| && i < |bs| && i != k && b.addr == bs[k].addr
    ensures var bs', j := Carve(bs, limit, k, b, size), CarveIndex(bs, limit, k, size, i);
            j < |bs'| && Pins(bs', limit, j, p) == Pins(bs, limit, i, p)
  {
    CarveOthers(bs, limit, k, b, size, i);
  }

  lemma SplitPinned(bs: seq<Block>, limit: nat, k: nat, b: Block, size: nat, p: nat)
    requires Tiled(bs, limit) && k < |bs| && bs[k].Free? && p < limit / PAGE
    requires b.Used? && b.addr == bs[k].addr && size + HEADER + 4 < Room(bs, limit, k)
    ensures Pinned(Carve(bs, limit, k, b, size), limit, p)
       <==> PageUp(bs[k].addr + HEADER) <= p < CarveEndPage(bs, limit, k, size) || Pinned(bs, limit, p)
  {
    hide Pins, Tiled, Room, PageUp, CarveEndPage;
    var bs' := Carve(bs, limit, k, b, size);
    SplitHalves(bs, limit, k, b, size, p);
    if i :| 0 <= i < |bs| && Pins(bs, limit, i, p) {
      if i != k {
        CarveOthersPin(bs, limit, k, b, size, i, p);
      }
    } else if j :| 0 <= j < |bs'| && Pins(bs', limit, j, p) {
      if j < k || j > k + 1 {
        CarveOthersPin(bs, limit, k, b, size, if j < k then j else j - 1, p);
      }
    }
  }

  function HeaderStartPage(b: Block): nat { PageDown(b.addr) }
  function HeaderEndPage(b: Block): nat { PageDown(b.addr + HEADER - 1) }

  /** The page range binder_delete_free_buffer gives back when it unlinks header `j`: the pages of
      that header, less those shared with the neighbouring headers. */
  function UnlinkPageRange(bs: seq<Block>, j: nat): (int, int)
    requires 0 < j < |bs|
  {
    var start, end := HeaderStartPage(bs[j]), HeaderEndPage(bs[j]);
    var prevEnd := HeaderEndPage(bs[j - 1]);
    var hasNext := j + 1 < |bs|;
    var nextStart := if hasNext then HeaderStartPage(bs[j + 1]) else 0;
    var freeStart := prevEnd != start && !(hasNext && nextStart == end && nextStart == start);
    var freeEnd := !(prevEnd == start && prevEnd == end) && !(hasNext && nextStart == end);
    if freeStart || freeEnd
    then (if freeStart then start else end, (if freeEnd then end else start) + 1)
    else (0, 0)
  }

  /** Unlinking a free header behind a free block gives back exactly the pages that only this
      header kept, and every one of them was present. */
  lemma UnlinkPages(bs: seq<Block>, limit: nat, j: nat)
    requires Tiled(bs, limit) && 0 < j < |bs| && bs[j].Free? && bs[j - 1].Free?
    ensures var (lo, hi) := UnlinkPageRange(bs, j);
            && 0 <= lo && hi <= limit / PAGE
            && AllAre(PageMap(bs, limit), lo, hi, true)
            && PageMap(Unlink(bs, j), limit) == SetRange(PageMap(bs, limit), lo, hi, false)
  {
    var (lo, hi) := UnlinkPageRange(bs, j);
    var bs' := Unlink(bs, j);
    forall p | lo <= p < hi
      ensures p < limit / PAGE && Pinned(bs, limit, p)
    {
      assert Pins(bs, limit, j, p);
    }
    forall p | 0 <= p < limit / PAGE
      ensures Pinned(bs', limit, p) == if lo <= p < hi then false else Pinned(bs, limit, p)
    {
      UnlinkPinned(bs, limit, j, p);
    }
  }

  /** Unlinking keeps every block but the deleted one and its predecessor as it is. */
  lemma UnlinkOthers(bs: seq<Block>, limit: nat, j: nat, i: nat)
    requires 0 < j < |bs| && i < |bs| && i != j
    ensures var bs', i' := Unlink(bs, j), if i < j then i else i - 1;
            && i' < |bs'| && bs'[i'] == bs[i]
            && (i != j - 1 ==> Room(bs', limit, i') == Room(bs, limit, i))
  {
  }

  /** No other block touches a page of the range. */
  lemma RangeIsOwn(bs: seq<Block>, limit: nat, j: nat, p: nat, i: nat)
    requires Tiled(bs, limit) && 0 < j < |bs| && bs[j - 1].Free? && bs[j].Free? && i < |bs| && i != j
    requires UnlinkPageRange(bs, j).0 <= p < UnlinkPageRange(bs, j).1
    ensures !Pins(bs, limit, i, p)
  {
  }

  /** A page of the header outside the range is shared with a neighbouring header. */
  lemma OutsideIsShared(bs: seq<Block>, limit: nat, j: nat, p: nat)
    requires Tiled(bs, limit) && 0 < j < |bs| && bs[j].Free? && Pins(bs, limit, j, p)
    requires !(UnlinkPageRange(bs, j).0 <= p < UnlinkPageRange(bs, j).1)
    ensures Pins(bs, limit, j - 1, p) || (j + 1 < |bs| && Pins(bs, limit, j + 1, p))
  {
  }

  lemma UnlinkOthersPin(bs: seq<Block>, limit: nat, j: nat, i: nat, p: nat)
    requires 0 < j < |bs| && bs[j - 1].Free? && i < |bs| && i != j
    ensures Pins(Unlink(bs, j), limit, if i < j then i else i - 1, p) == Pins(bs, limit, i, p)
  {
    UnlinkOthers(bs, limit, j, i);
  }

  lemma UnlinkPinned(bs: seq<Block>, limit: nat, j: nat, p: nat)
    requires Tiled(bs, limit) && 0 < j < |bs| && bs[j].Free? && bs[j - 1].Free? && p < limit / PAGE
    ensures Pinned(Unlink(bs, j), limit, p)
       <==> Pinned(bs, limit, p) && !(UnlinkPageRange(bs, j).0 <= p < UnlinkPageRange(bs, j).1)
  {
    hide Pins, UnlinkPageRange, Tiled;
    var bs' := Unlink(bs, j);
    forall i | 0 <= i < |bs| && i != j
      ensures Pins(bs', limit, if i < j then i else i - 1, p) == Pins(bs, limit, i, p)
    {
      UnlinkOthersPin(bs, limit, j, i, p);
    }
    if UnlinkPageRange(bs, j).0 <= p < UnlinkPageRange(bs, j).1 {
      forall i' | 0 <= i' < |bs'|
        ensures !Pins(bs', limit, i', p)
      {
        var i := if i' < j then i' else i' + 1;
        RangeIsOwn(bs, limit, j, p, i);
        assert Pins(bs', limit, if i < j then i else i - 1, p) == Pins(bs, limit, i, p);
      }
    } else if i' :| 0 <= i' < |bs'| && Pins(bs', limit, i', p) {
      var i := if i' < j then i' else i' + 1;
      assert Pins(bs', limit, if i < j then i else i - 1, p) == Pins(bs, limit, i, p);
    } else if Pins(bs, limit, j, p) {
      OutsideIsShared(bs, limit, j, p);
    }
  }

  // ---------- releasing ----------

  lemma UnlinkTiled(bs: seq<Block>, limit: nat, j: nat)
    requires Tiled(bs, limit) && Aligned(bs) && 0 < j < |bs|
    ensures Tiled(Unlink(bs, j), limit) && Aligned(Unlink(bs, j))
  {
  }

  lemma UnlinkRequestsFit(bs: seq<Block>, limit: nat, j: nat)
    requires RequestsFit(bs, limit) && 0 < j < |bs| && bs[j - 1].Free?
    ensures RequestsFit(Unlink(bs, j), limit)
  {
    var bs' := Unlink(bs, j);
    forall i' | 0 <= i' < |bs'| && bs'[i'].Used?
      ensures Needed(bs'[i']) <= Room(bs', limit, i')
    {
      UnlinkOthers(bs, limit, j, if i' < j then i' else i' + 1);
    }
  }

  lemma UnlinkCharges(bs: seq<Block>, j: nat)
    requires j < |bs| && bs[j].Free?
    ensures Charges(Unlink(bs, j)) == Charges(bs)
  {
    ChargesSplit(bs, j);
    ChargesConcat(bs[..j], bs[j + 1..]);
  }

  lemma UnlinkSound(bs: seq<Block>, limit: nat, j: nat)
    requires Sound(bs, limit) && 0 < j < |bs| && bs[j - 1].Free? && bs[j].Free?
    ensures Sound(Unlink(bs, j), limit) && Charges(Unlink(bs, j)) == Charges(bs)
  {
    UnlinkTiled(bs, limit, j);
    UnlinkRequestsFit(bs, limit, j);
    UnlinkCharges(bs, j);
  }

  /** Marking a used block free gives back exactly the pages wholly inside its data, all of them
      present before. */
  lemma MarkFreePages(bs: seq<Block>, limit: nat, k: nat)
    requires Tiled(bs, limit) && k < |bs| && bs[k].Used?
    ensures var lo, hi := PageUp(bs[k].addr + HEADER), PageDown(End(bs, limit, k));
            && hi <= limit / PAGE
            && AllAre(PageMap(bs, limit), lo, hi, true)
            && PageMap(MarkFree(bs, k), limit) == SetRange(PageMap(bs, limit), lo, hi, false)
  {
    var bs' := MarkFree(bs, k);
    TogglePages(bs', limit, k, bs[k]);
    InnerPagesAbsent(bs', limit, k);
    assert bs'[k := bs[k]] == bs;
    assert End(bs', limit, k) == End(bs, limit, k);
  }

  lemma MarkFreeCharges(bs: seq<Block>, k: nat)
    requires k < |bs| && bs[k].Used?
    ensures Charges(bs) == Charges(MarkFree(bs, k)) + Charge(bs[k])
  {
    var bs' := MarkFree(bs, k);
    ChargesSplit(bs, k);
    ChargesSplit(bs', k);
    assert bs'[..k] == bs[..k] && bs'[k + 1..] == bs[k + 1..];
  }

  lemma CarveCharges(bs: seq<Block>, limit: nat, k: nat, b: Block, size: nat)
    requires k < |bs| && bs[k].Free?
    ensures Charges(Carve(bs, limit, k, b, size)) == Charges(bs) + Charge(b)
  {
    var bs' := Carve(bs, limit, k, b, size);
    ChargesSplit(bs, k);
    ChargesSplit(bs', k);
    assert bs'[..k] == bs[..k];
    if |bs'| == |bs| {
      assert bs'[k + 1..] == bs[k + 1..];
    } else {
      assert bs'[k + 1..] == [bs'[k + 1]] + bs[k + 1..];
      ChargesConcat([bs'[k + 1]], bs[k + 1..]);
    }
  }

  lemma MarkFreeRequestsFit(bs: seq<Block>, limit: nat, k: nat)
    requires RequestsFit(bs, limit) && k < |bs|
    ensures RequestsFit(MarkFree(bs, k), limit)
  {
    var bs' := MarkFree(bs, k);
    forall i | 0 <= i < |bs'| && bs'[i].Used?
      ensures Needed(bs'[i]) <= Room(bs', limit, i)
    {
      assert bs'[i] == bs[i] && Room(bs', limit, i) == Room(bs, limit, i);
    }
  }

  lemma ReleaseNoFreePair(bs: seq<Block>, k: nat)
    requires NoFreePair(bs) && k < |bs| && bs[k].Used?
    ensures NoFreePair(Release(bs, k))
  {
    var joined := MergeNext(MarkFree(bs, k), k);
    assert forall i :: 0 <= i < |joined| - 1 && i != k - 1 ==> joined[i].Used? || joined[i + 1].Used?;
  }

  lemma MarkFreeSound(bs: seq<Block>, limit: nat, k: nat)
    requires Sound(bs, limit) && k < |bs| && bs[k].Used?
    ensures Sound(MarkFree(bs, k), limit) && Charges(bs) == Charges(MarkFree(bs, k)) + Charge(bs[k])
  {
    MarkFreeRequestsFit(bs, limit, k);
    MarkFreeCharges(bs, k);
  }

  lemma ReleaseWellFormed(bs: seq<Block>, limit: nat, k: nat)
    requires WellFormed(bs, limit) && k < |bs| && bs[k].Used?
    ensures WellFormed(Release(bs, k), limit)
    ensures Charges(bs) == Charges(Release(bs, k)) + Charge(bs[k])
  {
    var marked := MarkFree(bs, k);
    var joined := MergeNext(marked, k);
    MarkFreeSound(bs, limit, k);
    assert joined[k] == Free(bs[k].addr);
    if k + 1 < |marked| && marked[k + 1].Free? {
      UnlinkSound(marked, limit, k + 1);
    }
    if k > 0 && joined[k - 1].Free? {
      UnlinkSound(joined, limit, k);
    }
    ReleaseNoFreePair(bs, k);
  }

  /** Freeing what was just allocated restores the list. */
  lemma CarveThenRelease(bs: seq<Block>, limit: nat, k: nat, b: Block, size: nat)
    requires NoFreePair(bs) && k < |bs| && bs[k].Free? && b.Used? && b.addr == bs[k].addr
    ensures Release(Carve(bs, limit, k, b, size), k) == bs
  {
    var bs' := Carve(bs, limit, k, b, size);
    if |bs'| > |bs| {
      assert MergeNext(MarkFree(bs', k), k) == bs;
    }
  }

  ghost predicate NoneUsed(bs: seq<Block>) {
    forall i :: 0 <= i < |bs| ==> bs[i].Free?
  }

  lemma PairAt(bs: seq<Block>, i: nat)
    requires NoFreePair(bs) && i + 1 < |bs|
    ensures bs[i].Used? || bs[i + 1].Used?
  {
  }

  /** With nothing allocated there is one free block, one present page and the full budget. */
  lemma NoneUsedIsFresh(bs: seq<Block>, limit: nat)
    requires WellFormed(bs, limit) && NoneUsed(bs)
    ensures bs == [Free(0)] && Charges(bs) == 0
    ensures limit / PAGE > 0 && PageMap(bs, limit) == SetRange(seq(limit / PAGE, _ => false), 0, 1, true)
  {
    if |bs| > 1 {
      PairAt(bs, 0);
      assert false;
    }
    assert bs == [Free(0)];
    assert Charges(bs) == Charge(bs[0]) + Charges([]);
    forall p | 0 <= p < limit / PAGE
      ensures Pinned(bs, limit, p) == (p == 0)
    {
      assert Pins(bs, limit, 0, p) == (p == 0);
    }
  }
}
