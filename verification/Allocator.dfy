/** The buffer allocator of one process: best fit over a region whose headers live inside the
    region, two search trees, pages mapped on demand and a budget for one-way calls. */
module Allocator {
  import opened SizeMath
  import opened Blocks
  import opened BlockIndex

  const MAX_REGION: nat := 0x40_0000

  /** What the kernel does when asked for one page: allocate it, map it in the kernel, map it in
      the process. Any of the three may fail. */
  datatype MapStep = NoMemory | KernelMapFailed | UserMapFailed | Mapped
  type Kernel = nat -> MapStep

  ghost predicate AllMapped(kernel: Kernel, lo: int, hi: int) {
    forall p: nat :: lo <= p < hi ==> kernel(p) == Mapped
  }

  /** A smallest free block that fits. */
  ghost predicate BestFit(bs: seq<Block>, limit: nat, size: nat, a: nat) {
    && IsFree(bs, a) && RoomAt(bs, limit, a) >= size
    && (forall x: nat :: IsFree(bs, x) && RoomAt(bs, limit, x) >= size ==> RoomAt(bs, limit, a) <= RoomAt(bs, limit, x))
  }

  ghost predicate NoFit(bs: seq<Block>, limit: nat, size: nat) {
    forall x: nat :: IsFree(bs, x) ==> RoomAt(bs, limit, x) < size
  }

  /** What a block of `size` bytes taken at `a` leaves of the free block there: a free block behind it if more
      than a header and four bytes are over, otherwise nothing, so no more than that is ever wasted. */
  ghost predicate TakesOnly(bs: seq<Block>, bs': seq<Block>, limit: nat, a: nat, size: nat) {
    var room, rest := RoomAt(bs, limit, a), a + HEADER + size;
    && IsUsed(bs', a)
    && if room > size + HEADER + 4
       then RoomAt(bs', limit, a) == size && IsFree(bs', rest) && RoomAt(bs', limit, rest) == room - size - HEADER
       else RoomAt(bs', limit, a) == room <= size + HEADER + 4
  }

  /** The kernel refused a page that the new list needs and the old one did not. */
  ghost predicate Refused(kernel: Kernel, bs: seq<Block>, bs': seq<Block>, limit: nat) {
    exists p: nat :: p < limit / PAGE && kernel(p) != Mapped && Pinned(bs', limit, p) && !Pinned(bs, limit, p)
  }

  class Proc {
    var region: bool
    var vma: bool
    var limit: nat
    var userBase: nat
    var blocks: seq<Block>
    var freeTree: Tree
    var usedTree: Tree
    var pages: array<bool>
    var asyncSpace: Size

    /** Between calls: the list is well formed, the page array is the exact page map, both trees
        index the list, and the budget accounts for every live one-way buffer. Before the region is
        mapped there are no buffers. */
    ghost predicate Valid()
      reads this, pages
    {
      if !region then !vma && blocks == [] && freeTree == usedTree == Leaf
      else
        && limit <= MAX_REGION
        && WellFormed(blocks, limit)
        && pages[..] == PageMap(blocks, limit)
        && IndexesFree(InOrder(freeTree), blocks, limit)
        && IndexesUsed(InOrder(usedTree), blocks)
        && asyncSpace + Charges(blocks) == limit / 2
    }

    constructor ()
      ensures Valid() && !region && !vma && fresh(pages)
    {
      region, vma, limit, userBase := false, false, 0, 0;
      blocks, freeTree, usedTree, asyncSpace := [], Leaf, Leaf, 0;
      pages := new bool[0];
    }

    /** binder_update_page_range, on page numbers. Callers establish that no page to be mapped is
        present and that every page to be given back is; a failure part-way restores the array. */
    method UpdatePageRange(allocate: bool, start: nat, end: nat, hasVma: bool, kernel: Kernel) returns (ok: bool)
      requires end <= pages.Length
      requires AllAre(pages[..], start, end, !allocate)
      modifies pages
      ensures ok <==> end <= start || (allocate && hasVma && AllMapped(kernel, start, end))
      ensures pages[..] == if allocate && !ok then old(pages[..]) else SetRange(old(pages[..]), start, end, allocate)
    {
      if end <= start {
        return true;
      }
      if allocate && !hasVma {
        return false;
      }
      var p := end;
      if allocate {
        p := start;
        while p < end
          invariant start <= p <= end
          invariant AllMapped(kernel, start, p)
          invariant pages[..] == SetRange(old(pages[..]), start, p, true)
        {
          assert !pages[..][p];
          var step := kernel(p);
          if step == NoMemory {
            break;
          }
          pages[p] := true;
          if step != Mapped {
            pages[p] := false;
            break;
          }
          p := p + 1;
        }
        if p == end {
          return true;
        }
      }
      ghost var top, before := p, pages[..];
      while p > start
        invariant start <= p <= top
        invariant pages[..] == SetRange(before, p, top, false)
      {
        p := p - 1;
        assert pages[..][p];
        pages[p] := false;
      }
      return false;
    }

    /** binder_insert_free_buffer. */
    method InsertFree(a: nat)
      requires IsFree(blocks, a) && IndexesFreeBut(InOrder(freeTree), blocks, limit, a)
      modifies this`freeTree
      ensures IndexesFree(InOrder(freeTree), blocks, limit)
    {
      var order := InOrder(freeTree);
      var pos := PlaceBySize(freeTree, RoomKey(blocks, limit), RoomAt(blocks, limit, a));
      InsertAtSorted(order, pos, a, blocks, limit);
      InsertAtMembers(order, pos, a);
      freeTree := Rebalanced(InsertAt(order, pos, a));
    }

    /** binder_insert_allocated_buffer: the address is never there already. */
    method InsertUsed(a: nat)
      requires IsUsed(blocks, a) && a !in InOrder(usedTree) && Ascending(InOrder(usedTree))
      requires forall x: nat :: x != a ==> (x in InOrder(usedTree) <==> IsUsed(blocks, x))
      modifies this`usedTree
      ensures IndexesUsed(InOrder(usedTree), blocks)
    {
      var order := InOrder(usedTree);
      var pos, found := FindByAddress(usedTree, a);
      assert !found;
      InsertAtAscending(order, pos, a);
      InsertAtMembers(order, pos, a);
      usedTree := Rebalanced(InsertAt(order, pos, a));
    }

    /** binder_mmap: a region of `length` bytes, clipped to four megabytes, with its first page. */
    method Mmap(length: nat, start: nat, kernel: Kernel) returns (ok: bool)
      requires Valid() && length > 0 && length % PAGE == 0
      modifies this, pages
      ensures Valid()
      ensures ok == (!old(region) && kernel(0) == Mapped)
      ensures old(region) ==> region && unchanged(this) && pages[..] == old(pages[..])
      ensures !ok && !old(region) ==> !region
      ensures ok ==> region && vma && userBase == start
                     && limit == (if length > MAX_REGION then MAX_REGION else length)
                     && blocks == [Free(0)] && asyncSpace == limit / 2 && fresh(pages)
    {
      hide WellFormed, PageMap, IndexesFree, IndexesUsed, Charges, SetRange;
      if region {
        return false;
      }
      limit := if length > MAX_REGION then MAX_REGION else length;
      FreshRegion(limit);
      pages := new bool[limit / PAGE](_ => false);
      ghost var absent := pages[..];
      assert absent == seq(limit / PAGE, _ => false);
      ok := UpdatePageRange(true, 0, 1, true, kernel);
      if !ok {
        return;
      }
      Install(start);
    }

    /** The end of binder_mmap: the whole region is one free block. */
    method Install(start: nat)
      requires 0 < limit <= MAX_REGION && limit % PAGE == 0 && pages[..] == PageMap([Free(0)], limit)
      modifies this`region, this`vma, this`userBase, this`blocks, this`freeTree, this`usedTree, this`asyncSpace
      ensures Valid() && region && vma && userBase == start && blocks == [Free(0)] && asyncSpace == limit / 2
    {
      hide WellFormed, PageMap, IsFree, IndexesFree, IndexesFreeBut, IndexesUsed, Charges;
      FreshRegion(limit);
      region, vma, userBase := true, true, start;
      blocks, freeTree, usedTree := [Free(0)], Leaf, Leaf;
      InsertFree(0);
      asyncSpace := limit / 2;
    }

    /** binder_vma_close: the process unmaps the region; from then on allocation fails. */
    method CloseVma()
      requires Valid()
      modifies this`vma
      ensures Valid() && !vma
    {
      vma := false;
    }

    /** binder_buffer_lookup succeeds exactly on the data addresses of live buffers. */
    method Lookup(userPtr: nat) returns (r: Option<nat>)
      requires Valid()
      ensures r == var a := userPtr - userBase - HEADER; if a >= 0 && IsUsed(blocks, a) then Some(a) else None
    {
      var a := userPtr - userBase - HEADER;
      var _, found := FindByAddress(usedTree, a);
      r := if found then Some(a) else None;
    }

    /** The first half of binder_alloc_buf: size checks, budget check and choice of a block. */
    method Choose(data: Size, offsets: Size, extra: Size, isAsync: bool) returns (r: Option<nat>, size: Size,
            exact: bool)
      requires Valid()
      ensures r.Some? ==>
                && vma && size == TrueSize(data, offsets, extra)
                && BestFit(blocks, limit, size, r.value)
                && IsFree(blocks, r.value) && RoomAt(blocks, limit, r.value) >= size
                && exact == (RoomAt(blocks, limit, r.value) == size)
                && (isAsync ==> size + HEADER <= asyncSpace)
      ensures r.None? ==>
                var need := TrueSize(data, offsets, extra);
                !vma || NoFit(blocks, limit, need) || (isAsync && asyncSpace < need + HEADER)
    {
      r, size, exact := None, 0, false;
      if !vma {
        return;
      }
      CheckedSizeExact(data, offsets, extra);
      RoomsWithinRegion(blocks, limit);
      var checked := CheckedSize(data, offsets, extra);
      if checked.None? {
        return;
      }
      size := checked.value;
      if isAsync && asyncSpace < Plus(size, HEADER) {
        return;
      }
      r, exact := FindBestFit(freeTree, RoomKey(blocks, limit), size);
      if r.Some? {
        assert r.value in InOrder(freeTree);
      }
    }

    /** The page range of binder_alloc_buf: from the first boundary at or after the data up to the
        end of what is taken, but not into the page the successor's header already holds. */
    method MapBlock(a: nat, b: Block, size: nat, exact: bool, mm: bool, kernel: Kernel) returns (ok: bool)
      requires Tiled(blocks, limit) && pages[..] == PageMap(blocks, limit)
      requires IsFree(blocks, a) && b.Used? && b.addr == a
      requires size <= RoomAt(blocks, limit, a) && exact == (RoomAt(blocks, limit, a) == size)
      modifies pages
      ensures ok ==> pages[..] == PageMap(Carve(blocks, limit, IndexOf(blocks, a), b, size), limit)
      ensures !ok ==>
                && pages[..] == old(pages[..])
                && (!vma || !mm || Refused(kernel, blocks, Carve(blocks, limit, IndexOf(blocks, a), b, size), limit))
    {
      hide Tiled, PageMap, Carve, PageUp, PageDown;
      ghost var k := IndexOf(blocks, a);
      var room := RoomAt(blocks, limit, a);
      var hasPage := PageDown(a + HEADER + room);
      var taken := if exact then room else if size + HEADER + 4 >= room then size else size + HEADER;
      var endPage := PageUp(a + HEADER + taken);
      if endPage > hasPage {
        endPage := hasPage;
      }
      CarvePages(blocks, limit, k, b, size);
      ok := UpdatePageRange(true, PageUp(a + HEADER), endPage, vma && mm, kernel);
      if !ok && vma && mm {
        RefusedPage(kernel, blocks, limit, k, b, size);
      }
    }

    /** The second half: the chosen block leaves the free tree and is carved in the list. */
    method Commit(k: nat, b: Block, size: nat)
      requires k < |blocks| && blocks[k].Free? && WellFormed(blocks, limit)
      requires IndexesFree(InOrder(freeTree), blocks, limit) && IndexesUsed(InOrder(usedTree), blocks)
      requires b.Used? && b.addr == blocks[k].addr && size == Needed(b) <= Room(blocks, limit, k)
      modifies this`blocks, this`freeTree, this`usedTree
      ensures blocks == Carve(old(blocks), limit, k, b, size) && WellFormed(blocks, limit)
      ensures IndexesFree(InOrder(freeTree), blocks, limit) && IndexesUsed(InOrder(usedTree), blocks)
    {
      hide Tiled, RequestsFit, IsFree, IsUsed, RoomKey, Needed, NoDup, SortedByRoom, Ascending, InOrder, Without;
      CarveKeepsWellFormed(blocks, limit, k, b, size);
      CarveFreeIndex(InOrder(freeTree), blocks, limit, k, b, size);
      CarveUsedIndex(InOrder(usedTree), blocks, limit, k, b, size);
      var split := size + HEADER + 4 < Room(blocks, limit, k);
      blocks := Carve(blocks, limit, k, b, size);
      freeTree := Rebalanced(Without(InOrder(freeTree), b.addr));
      InsertUsed(b.addr);
      if split {
        InsertFree(b.addr + HEADER + size);
      }
    }

    /** binder_alloc_buf. `mm` says that the process's memory is there and is the one the region was mapped in. */
    method AllocBuf(data: Size, offsets: Size, extra: Size, isAsync: bool, mm: bool,
            kernel: Kernel) returns (r: Option<nat>)
      requires Valid()
      modifies this`blocks, this`freeTree, this`usedTree, this`asyncSpace, pages
      ensures Valid()
      ensures r.None? ==> blocks == old(blocks) && asyncSpace == old(asyncSpace) && pages[..] == old(pages[..])
                          && freeTree == old(freeTree) && usedTree == old(usedTree)
      ensures r.Some? ==>
                var a, size, k := r.value, TrueSize(data, offsets, extra), IndexOf(old(blocks), r.value);
                && vma && BestFit(old(blocks), limit, size, a)
                && blocks == Carve(old(blocks), limit, k, Used(a, data, offsets, extra, isAsync), size)
                && asyncSpace == old(asyncSpace) - (if isAsync then size + HEADER else 0)
                && TakesOnly(old(blocks), blocks, limit, a, size)
      ensures r.None? ==>
                var need := TrueSize(data, offsets, extra);
                || !vma || !mm || NoFit(old(blocks), limit, need) || (isAsync && old(asyncSpace) < need + HEADER)
                || exists a ::
                     && BestFit(old(blocks), limit, need, a)
                     && var b := Used(a, data, offsets, extra, isAsync);
                        Refused(kernel, old(blocks), Carve(old(blocks), limit, IndexOf(old(blocks), a), b, need), limit)
    {
      hide Tiled, RequestsFit, NoFreePair, Aligned, PageMap, IndexesFree, IndexesUsed, InOrder, Charges, Carve,
          TrueSize, BestFit, NoFit, Refused, TakesOnly;
      var best, size, exact := Choose(data, offsets, extra, isAsync);
      if best.None? {
        return None;
      }
      var a := best.value;
      var b := Used(a, data, offsets, extra, isAsync);
      var ok := MapBlock(a, b, size, exact, mm, kernel);
      if !ok {
        return None;
      }
      CarveCharges(blocks, limit, IndexOf(blocks, a), b, size);
      CarvedRooms(blocks, limit, IndexOf(blocks, a), b, size);
      Commit(IndexOf(blocks, a), b, size);
      if isAsync {
        asyncSpace := asyncSpace - Plus(size, HEADER);
      }
      return Some(a);
    }

    /** binder_delete_free_buffer: unlinks header `j` behind a free block and gives back the pages
        that only this header kept. */
    method DeleteFree(j: nat)
      requires Sound(blocks, limit) && pages[..] == PageMap(blocks, limit)
      requires 0 < j < |blocks| && blocks[j].Free? && blocks[j - 1].Free?
      modifies this`blocks, pages
      ensures blocks == Unlink(old(blocks), j) && Sound(blocks, limit) && pages[..] == PageMap(blocks, limit)
      ensures Charges(blocks) == Charges(old(blocks))
    {
      hide Tiled, Aligned, RequestsFit, PageMap, Charges, PageDown, Unlink;
      UnlinkPages(blocks, limit, j);
      UnlinkSound(blocks, limit, j);
      var prev, buffer := blocks[j - 1], blocks[j];
      var freeStart, freeEnd := true, true;
      if HeaderEndPage(prev) == HeaderStartPage(buffer) {
        freeStart := false;
        if HeaderEndPage(prev) == HeaderEndPage(buffer) {
          freeEnd := false;
        }
      }
      if j + 1 < |blocks| {
        var next := blocks[j + 1];
        if HeaderStartPage(next) == HeaderEndPage(buffer) {
          freeEnd := false;
          if HeaderStartPage(next) == HeaderStartPage(buffer) {
            freeStart := false;
          }
        }
      }
      blocks := Unlink(blocks, j);
      if freeStart || freeEnd {
        var _ := UpdatePageRange(false,
          if freeStart then HeaderStartPage(buffer) else HeaderEndPage(buffer),
          (if freeEnd then HeaderEndPage(buffer) else HeaderStartPage(buffer)) + 1, vma, _ => Mapped);
      }
    }

    /** The list part of binder_free_buf: joins the freed block `k` with its free neighbours.
        The predecessor is erased from the free tree only after its size has changed. */
    method Coalesce(k: nat)
      requires Sound(blocks, limit) && pages[..] == PageMap(blocks, limit)
      requires k < |blocks| && blocks[k].Free?
      requires IndexesFreeBut(InOrder(freeTree), blocks, limit, blocks[k].addr)
      requires IndexesUsed(InOrder(usedTree), blocks)
      modifies this`blocks, this`freeTree, pages
      ensures blocks == MergePrev(MergeNext(old(blocks), k), k)
      ensures Sound(blocks, limit) && pages[..] == PageMap(blocks, limit) && Charges(blocks) == Charges(old(blocks))
      ensures IndexesFree(InOrder(freeTree), blocks, limit) && IndexesUsed(InOrder(usedTree), blocks)
    {
      hide Sound, PageMap, Charges, IndexesFreeBut, IndexesFree, IndexesUsed, InOrder, Without, IsFree;
      var a := blocks[k].addr;
      if k + 1 < |blocks| && blocks[k + 1].Free? {
        UnlinkIndexes(InOrder(freeTree), InOrder(usedTree), blocks, limit, k + 1, a);
        freeTree := Rebalanced(Without(InOrder(freeTree), blocks[k + 1].addr));
        DeleteFree(k + 1);
      }
      if k > 0 && blocks[k - 1].Free? {
        var prev := blocks[k - 1].addr;
        UnlinkIndexes(InOrder(freeTree), InOrder(usedTree), blocks, limit, k, a);
        DeleteFree(k);
        freeTree := Rebalanced(Without(InOrder(freeTree), prev));
        a := prev;
      }
      FreeAt(blocks, limit, if k > 0 && blocks[k - 1].Free? then k - 1 else k);
      InsertFree(a);
    }

    /** binder_free_buf on a live buffer. */
    method FreeBuf(a: nat)
      requires Valid() && region && IsUsed(blocks, a)
      modifies this`blocks, this`freeTree, this`usedTree, this`asyncSpace, pages
      ensures Valid()
      ensures blocks == Release(old(blocks), IndexOf(old(blocks), a))
      ensures asyncSpace == old(asyncSpace) + Charge(old(blocks)[IndexOf(old(blocks), a)])
    {
      hide Tiled, Aligned, RequestsFit, PageMap, Charges, InOrder, Without, NoFreePair, IndexesFree, IndexesUsed,
          PageUp, PageDown;
      var k := IndexOf(blocks, a);
      var b := blocks[k];
      var size := UncheckedSize(b.data, b.offsets, b.extra);
      RecomputedSize(blocks, limit, k);
      assert size <= Room(blocks, limit, k);
      ReleaseWellFormed(blocks, limit, k);
      MarkFreeSound(blocks, limit, k);
      MarkFreePages(blocks, limit, k);
      MarkFreeIndexes(InOrder(freeTree), InOrder(usedTree), blocks, limit, k);
      if b.isAsync {
        asyncSpace := Plus(asyncSpace, Plus(size, HEADER));
      }
      var _ := UpdatePageRange(false, PageUp(a + HEADER), PageDown(End(blocks, limit, k)), vma, _ => Mapped);
      usedTree := Rebalanced(Without(InOrder(usedTree), a));
      blocks := MarkFree(blocks, k);
      Coalesce(k);
    }

    /** Allocating and freeing the same buffer is the identity on blocks, pages and budget. */
    method AllocThenFree(data: Size, offsets: Size, extra: Size, isAsync: bool, mm: bool, kernel: Kernel)
      requires Valid()
      modifies this`blocks, this`freeTree, this`usedTree, this`asyncSpace, pages
      ensures Valid() && blocks == old(blocks) && asyncSpace == old(asyncSpace) && pages[..] == old(pages[..])
    {
      hide Sound, PageMap, Charges, IndexesFree, IndexesUsed, TrueSize, Carve, Release;
      ghost var before := blocks;
      var r := AllocBuf(data, offsets, extra, isAsync, mm, kernel);
      if r.Some? {
        ghost var k, b := IndexOf(before, r.value), Used(r.value, data, offsets, extra, isAsync);
        CarvedAt(before, limit, k, b, TrueSize(data, offsets, extra));
        CarveThenRelease(before, limit, k, b, TrueSize(data, offsets, extra));
        FreeBuf(r.value);
      }
    }

    /** The buffer loop of binder_deferred_release: whatever was live, the region ends up freshly
        mapped, with one free block, one present page and the full budget. */
    method ReleaseAll()
      requires Valid() && region
      modifies this`blocks, this`freeTree, this`usedTree, this`asyncSpace, pages
      ensures Valid() && blocks == [Free(0)] && asyncSpace == limit / 2
      ensures pages[..] == SetRange(seq(limit / PAGE, _ => false), 0, 1, true)
    {
      while usedTree != Leaf
        invariant Valid()
        decreases |UsedAddrs(blocks)|
      {
        hide PageMap, Charges, IndexesFree, WellFormed, Release;
        var a := First(usedTree);
        ReleaseDropsOne(blocks, limit, a);
        FreeBuf(a);
      }
      NothingUsed(InOrder(usedTree), blocks, limit);
      NoneUsedIsFresh(blocks, limit);
    }
  }

  lemma FreshRegion(limit: nat)
    requires limit > 0 && limit % PAGE == 0
    ensures WellFormed([Free(0)], limit) && Charges([Free(0)]) == 0
    ensures PageMap([Free(0)], limit) == SetRange(seq(limit / PAGE, _ => false), 0, 1, true)
    ensures IsFree([Free(0)], 0) && IndexesFreeBut([], [Free(0)], limit, 0) && IndexesUsed([], [Free(0)])
  {
    NoneUsedIsFresh([Free(0)], limit);
  }

  lemma RoomsWithinRegion(bs: seq<Block>, limit: nat)
    requires Tiled(bs, limit)
    ensures forall a: nat :: RoomAt(bs, limit, a) <= limit
  {
  }

  lemma CarveKeepsWellFormed(bs: seq<Block>, limit: nat, k: nat, b: Block, size: nat)
    requires WellFormed(bs, limit) && k < |bs| && bs[k].Free?
    requires b.Used? && b.addr == bs[k].addr && size == Needed(b) <= Room(bs, limit, k)
    ensures WellFormed(Carve(bs, limit, k, b, size), limit)
  {
    NeededAligned(b);
    CarveTiled(bs, limit, k, b, size);
    CarveAligned(bs, limit, k, b, size);
    CarveNoFreePair(bs, limit, k, b, size);
    CarveRequestsFit(bs, limit, k, b, size);
  }

  lemma CarveLookups(bs: seq<Block>, limit: nat, k: nat, b: Block, size: nat)
    requires Tiled(bs, limit) && k < |bs| && bs[k].Free?
    requires b.Used? && b.addr == bs[k].addr && size <= Room(bs, limit, k)
    ensures var bs', rest := Carve(bs, limit, k, b, size), b.addr + HEADER + size;
            && IsFree(bs, b.addr) && IsUsed(bs', b.addr)
            && (size + HEADER + 4 < Room(bs, limit, k) ==> IsFree(bs', rest) && !IsFree(bs, rest) && !IsUsed(bs, rest))
  {
    var bs' := Carve(bs, limit, k, b, size);
    CarveTiled(bs, limit, k, b, size);
    IndexAt(bs, limit, k);
    IndexAt(bs', limit, k);
    if size + HEADER + 4 < Room(bs, limit, k) {
      IndexAt(bs', limit, k + 1);
      assert forall i :: 0 <= i < |bs| ==> i <= k || bs[i].addr >= End(bs, limit, k);
    }
  }

  /** The free tree's contents after carving, before the remainder is inserted. */
  lemma CarveFreeIndex(fs: seq<nat>, bs: seq<Block>, limit: nat, k: nat, b: Block, size: nat)
    requires Tiled(bs, limit) && k < |bs| && bs[k].Free? && IndexesFree(fs, bs, limit)
    requires b.Used? && b.addr == bs[k].addr && size <= Room(bs, limit, k)
    ensures var bs', fs', rest := Carve(bs, limit, k, b, size), Without(fs, b.addr), b.addr + HEADER + size;
            && b.addr in fs
            && (if size + HEADER + 4 < Room(bs, limit, k)
                then IsFree(bs', rest) && IndexesFreeBut(fs', bs', limit, rest)
                else IndexesFree(fs', bs', limit))
  {
    hide Tiled, NoDup, SortedByRoom, Without, RoomAt, Carve;
    var bs' := Carve(bs, limit, k, b, size);
    CarveLookups(bs, limit, k, b, size);
    CarveElsewhere(bs, limit, k, b, size);
    EraseAndChange(fs, b.addr, bs, bs', limit, CarveChanges(bs, limit, k, size));
  }

  lemma CarveUsedIndex(us: seq<nat>, bs: seq<Block>, limit: nat, k: nat, b: Block, size: nat)
    requires Tiled(bs, limit) && k < |bs| && bs[k].Free? && IndexesUsed(us, bs)
    requires b.Used? && b.addr == bs[k].addr && size <= Room(bs, limit, k)
    ensures var bs' := Carve(bs, limit, k, b, size);
            && IsUsed(bs', b.addr) && b.addr !in us
            && (forall x: nat :: x != b.addr ==> (x in us <==> IsUsed(bs', x)))
  {
    hide Tiled, RoomAt, Carve;
    CarveLookups(bs, limit, k, b, size);
    CarveElsewhere(bs, limit, k, b, size);
  }

  // ---------- the indexes while a block is freed ----------

  lemma FreeAt(bs: seq<Block>, limit: nat, i: nat)
    requires Sound(bs, limit) && i < |bs| && bs[i].Free?
    ensures IsFree(bs, bs[i].addr)
  {
    IndexAt(bs, limit, i);
  }

  lemma MarkFreeIndexes(fs: seq<nat>, us: seq<nat>, bs: seq<Block>, limit: nat, k: nat)
    requires Tiled(bs, limit) && k < |bs| && bs[k].Used? && IndexesFree(fs, bs, limit) && IndexesUsed(us, bs)
    ensures var a, bs' := bs[k].addr, MarkFree(bs, k);
            IndexesFreeBut(fs, bs', limit, a) && IndexesUsed(Without(us, a), bs')
  {
    hide NoDup, SortedByRoom, Without, RoomAt;
    var a, bs' := bs[k].addr, MarkFree(bs, k);
    MarkFreeElsewhere(bs, limit, k);
    IndexAt(bs, limit, k);
    IndexAt(bs', limit, k);
    SortedFrame(fs, bs, bs', limit, {a});
    WithoutUsed(us, a);
  }

  lemma WithoutUsed(us: seq<nat>, a: nat)
    requires Ascending(us) && a in us
    ensures Ascending(Without(us, a))
    ensures forall x :: x in Without(us, a) <==> x in us && x != a
  {
    WithoutAscending(us, a);
    WithoutMembers(us, a);
  }

  lemma UnlinkLookups(bs: seq<Block>, limit: nat, j: nat)
    requires Tiled(bs, limit) && Aligned(bs) && 0 < j < |bs| && bs[j].Free? && bs[j - 1].Free?
    ensures var bs' := Unlink(bs, j);
            && IsFree(bs, bs[j].addr) && IsFree(bs, bs[j - 1].addr) && IsFree(bs', bs[j - 1].addr)
            && !IsFree(bs', bs[j].addr) && !IsUsed(bs', bs[j].addr)
  {
    var bs' := Unlink(bs, j);
    UnlinkTiled(bs, limit, j);
    IndexAt(bs, limit, j);
    IndexAt(bs, limit, j - 1);
    assert bs'[j - 1] == bs[j - 1];
    IndexAt(bs', limit, j - 1);
    assert forall i :: 0 <= i < |bs'| ==> bs'[i].addr != bs[j].addr;
  }

  /** Unlinking header `j`, one of whose two free blocks is `a`, the block not yet in the tree: the
      other one leaves the tree, and the joined block is the one still to be inserted. */
  lemma UnlinkIndexes(fs: seq<nat>, us: seq<nat>, bs: seq<Block>, limit: nat, j: nat, a: nat)
    requires Sound(bs, limit) && 0 < j < |bs| && bs[j].Free? && bs[j - 1].Free?
    requires a == bs[j].addr || a == bs[j - 1].addr
    requires IndexesFreeBut(fs, bs, limit, a) && IndexesUsed(us, bs)
    ensures var other := if a == bs[j].addr then bs[j - 1].addr else bs[j].addr;
            && IndexesFreeBut(Without(fs, other), Unlink(bs, j), limit, bs[j - 1].addr)
            && IndexesUsed(us, Unlink(bs, j))
  {
    hide Tiled, Aligned, RequestsFit, Unlink, NoDup, SortedByRoom, Without, RoomAt;
    var bs' := Unlink(bs, j);
    var other := if a == bs[j].addr then bs[j - 1].addr else bs[j].addr;
    UnlinkLookups(bs, limit, j);
    UnlinkElsewhere(bs, limit, j);
    DistinctAddresses(bs, limit, j);
    EraseAndChange(fs, other, bs, bs', limit, {bs[j - 1].addr, bs[j].addr});
  }

  lemma DistinctAddresses(bs: seq<Block>, limit: nat, j: nat)
    requires Tiled(bs, limit) && 0 < j < |bs|
    ensures bs[j - 1].addr != bs[j].addr
  {
  }

  lemma RecomputedSize(bs: seq<Block>, limit: nat, k: nat)
    requires Sound(bs, limit) && limit <= MAX_REGION && k < |bs| && bs[k].Used?
    ensures var b := bs[k]; UncheckedSize(b.data, b.offsets, b.extra) == Needed(b) <= Room(bs, limit, k) <= MAX_REGION
  {
    var b := bs[k];
    CheckedSizeExact(b.data, b.offsets, b.extra);
  }

  // ---------- releasing everything ----------

  /** The buffer just carved is live, and is found where it was carved. */
  lemma CarvedRooms(bs: seq<Block>, limit: nat, k: nat, b: Block, size: nat)
    requires WellFormed(bs, limit) && k < |bs| && bs[k].Free? && b.Used? && b.addr == bs[k].addr
    requires IndexOf(bs, b.addr) == k && size <= Room(bs, limit, k)
    ensures TakesOnly(bs, Carve(bs, limit, k, b, size), limit, b.addr, size)
  {
    var bs' := Carve(bs, limit, k, b, size);
    CarveTiled(bs, limit, k, b, size);
    IndexAt(bs', limit, k);
    if Room(bs, limit, k) > size + HEADER + 4 {
      assert bs'[k + 1] == Free(b.addr + HEADER + size);
      IndexAt(bs', limit, k + 1);
    }
  }

  /** A page that was to be mapped and is refused is one that only the new list needs. */
  lemma RefusedPage(kernel: Kernel, bs: seq<Block>, limit: nat, k: nat, b: Block, size: nat)
    requires Tiled(bs, limit) && k < |bs| && bs[k].Free? && b.Used? && b.addr == bs[k].addr
    requires size <= Room(bs, limit, k)
    requires !AllMapped(kernel, PageUp(bs[k].addr + HEADER), CarveEndPage(bs, limit, k, size))
    ensures Refused(kernel, bs, Carve(bs, limit, k, b, size), limit)
  {
    hide Tiled, Carve, Pinned, PageUp;
    CarvePages(bs, limit, k, b, size);
    var lo, hi := PageUp(bs[k].addr + HEADER), CarveEndPage(bs, limit, k, size);
    var p: nat :| lo <= p < hi && kernel(p) != Mapped;
    assert !PageMap(bs, limit)[p] && PageMap(Carve(bs, limit, k, b, size), limit)[p];
  }

  lemma CarvedAt(bs: seq<Block>, limit: nat, k: nat, b: Block, size: nat)
    requires WellFormed(bs, limit) && k < |bs| && bs[k].Free? && b.Used? && b.addr == bs[k].addr
    requires size <= Room(bs, limit, k)
    ensures var bs' := Carve(bs, limit, k, b, size);
            k < |bs'| && bs'[k] == b && IsUsed(bs', b.addr) && IndexOf(bs', b.addr) == k
  {
    var bs' := Carve(bs, limit, k, b, size);
    CarveTiled(bs, limit, k, b, size);
    IndexAt(bs', limit, k);
  }

  lemma ReleaseLookups(bs: seq<Block>, limit: nat, k: nat, x: nat)
    requires WellFormed(bs, limit) && k < |bs| && bs[k].Used?
    ensures IsUsed(Release(bs, k), x) == (IsUsed(bs, x) && x != bs[k].addr)
  {
    hide Tiled, Aligned, RequestsFit, NoFreePair, RoomAt, Unlink;
    var marked := MarkFree(bs, k);
    MarkFreeSound(bs, limit, k);
    MarkFreeElsewhere(bs, limit, k);
    FreeAt(marked, limit, k);
    var joined := MergeNext(marked, k);
    if k + 1 < |marked| && marked[k + 1].Free? {
      UnlinkSound(marked, limit, k + 1);
      UnlinkElsewhere(marked, limit, k + 1);
      UnlinkLookups(marked, limit, k + 1);
      MergeKeeps(marked, k);
    }
    if k > 0 && joined[k - 1].Free? {
      UnlinkElsewhere(joined, limit, k);
      UnlinkLookups(joined, limit, k);
    }
  }

  lemma MergeKeeps(bs: seq<Block>, k: nat)
    requires k + 1 < |bs| && bs[k].Free?
    ensures k < |Unlink(bs, k + 1)| && Unlink(bs, k + 1)[k] == bs[k]
  {
  }

  function UsedAddrs(bs: seq<Block>): set<nat> {
    set i | 0 <= i < |bs| && bs[i].Used? :: bs[i].addr
  }

  lemma UsedAddrsLookup(bs: seq<Block>, limit: nat, x: nat)
    requires WellFormed(bs, limit)
    ensures x in UsedAddrs(bs) <==> IsUsed(bs, x)
  {
    if i :| 0 <= i < |bs| && bs[i].Used? && bs[i].addr == x {
      IndexAt(bs, limit, i);
    }
  }

  lemma ReleaseDropsOne(bs: seq<Block>, limit: nat, a: nat)
    requires WellFormed(bs, limit) && IsUsed(bs, a)
    ensures UsedAddrs(Release(bs, IndexOf(bs, a))) == UsedAddrs(bs) - {a}
    ensures a in UsedAddrs(bs)
  {
    var k := IndexOf(bs, a);
    ReleaseWellFormed(bs, limit, k);
    UsedAddrsLookup(bs, limit, a);
    forall x: nat
      ensures x in UsedAddrs(Release(bs, k)) <==> x in UsedAddrs(bs) - {a}
    {
      UsedAddrsLookup(bs, limit, x);
      UsedAddrsLookup(Release(bs, k), limit, x);
      ReleaseLookups(bs, limit, k, x);
    }
  }

  lemma NothingUsed(us: seq<nat>, bs: seq<Block>, limit: nat)
    requires WellFormed(bs, limit) && IndexesUsed(us, bs) && us == []
    ensures NoneUsed(bs)
  {
    forall i | 0 <= i < |bs|
      ensures bs[i].Free?
    {
      IndexAt(bs, limit, i);
      assert bs[i].addr !in us;
    }
  }

  function ReleaseMany(bs: seq<Block>, order: seq<nat>): seq<Block>
    decreases |order|
  {
    if order == [] then bs
    else if IndexOf(bs, order[0]) == |bs| then bs
    else ReleaseMany(Release(bs, IndexOf(bs, order[0])), order[1..])
  }

  /** Freeing all live buffers in any order leaves the freshly mapped list. */
  lemma {:induction false} ReleaseInAnyOrder(bs: seq<Block>, limit: nat, order: seq<nat>)
    requires WellFormed(bs, limit) && NoDup(order)
    requires forall a: nat :: a in order <==> IsUsed(bs, a)
    ensures ReleaseMany(bs, order) == [Free(0)]
    decreases |order|
  {
    hide Tiled, Aligned, RequestsFit, NoFreePair, Release;
    if order == [] {
      assert IndexesUsed([], bs);
      NothingUsed([], bs, limit);
      NoneUsedIsFresh(bs, limit);
    } else {
      var k, rest := IndexOf(bs, order[0]), order[1..];
      assert order == [order[0]] + rest;
      assert order[0] in order;
      ReleaseWellFormed(bs, limit, k);
      forall a: nat
        ensures a in rest <==> IsUsed(Release(bs, k), a)
      {
        ReleaseLookups(bs, limit, k, a);
      }
      ReleaseInAnyOrder(Release(bs, k), limit, rest);
    }
  }
}
