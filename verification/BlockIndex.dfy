/** The two search trees over the blocks. Only the in-order sequence of a tree is ever relied on:
    red-black rotations may give it any shape. */
module BlockIndex {
  import opened SizeMath
  import opened Blocks

  datatype Tree = Leaf | Node(left: Tree, addr: nat, right: Tree)

  function InOrder(t: Tree): seq<nat> {
    match t
    case Leaf => []
    case Node(l, a, r) => InOrder(l) + [a] + InOrder(r)
  }

  /** A tree of unspecified shape with the given in-order sequence: what rb_insert_color and
      rb_erase leave behind. */
  method Rebalanced(order: seq<nat>) returns (t: Tree)
    ensures InOrder(t) == order
  {
    if order == [] {
      t := Leaf;
    } else {
      var m := |order| / 2;
      var l := Rebalanced(order[..m]);
      var r := Rebalanced(order[m + 1..]);
      t := Node(l, order[m], r);
    }
  }

  function Without(s: seq<nat>, a: nat): seq<nat> {
    if s == [] then [] else if s[0] == a then s[1..] else [s[0]] + Without(s[1..], a)
  }

  lemma {:induction false} WithoutSplits(s: seq<nat>, a: nat) returns (i: nat)
    requires a in s
    ensures i < |s| && s[i] == a && Without(s, a) == s[..i] + s[i + 1..]
  {
    if s[0] == a {
      i := 0;
    } else {
      var j := WithoutSplits(s[1..], a);
      i := j + 1;
      assert s[..i] == [s[0]] + s[1..][..j];
    }
  }

  // ---------- what the trees index ----------

  ghost predicate NoDup(s: seq<nat>) {
    forall i, j :: 0 <= i < j < |s| ==> s[i] != s[j]
  }

  ghost predicate Ascending(s: seq<nat>) {
    forall i, j :: 0 <= i < j < |s| ==> s[i] < s[j]
  }

  /** The key of the free tree: recomputed from the list at every comparison. */
  function RoomKey(bs: seq<Block>, limit: nat): nat -> int {
    (a: nat) => RoomAt(bs, limit, a)
  }

  ghost predicate SortedBy(s: seq<nat>, key: nat -> int) {
    forall i, j :: 0 <= i < j < |s| ==> key(s[i]) <= key(s[j])
  }

  ghost predicate SortedByRoom(s: seq<nat>, bs: seq<Block>, limit: nat) {
    SortedBy(s, RoomKey(bs, limit))
  }

  /** The free tree holds exactly the free blocks, once each, ordered by their list-derived size. */
  ghost predicate IndexesFree(s: seq<nat>, bs: seq<Block>, limit: nat) {
    && NoDup(s)
    && SortedByRoom(s, bs, limit)
    && (forall a: nat :: a in s <==> IsFree(bs, a))
  }

  /** The same while block `a` is free but not yet, or no longer, in the tree. */
  ghost predicate IndexesFreeBut(s: seq<nat>, bs: seq<Block>, limit: nat, a: nat) {
    && NoDup(s)
    && SortedByRoom(s, bs, limit)
    && a !in s
    && (forall x: nat :: x != a ==> (x in s <==> IsFree(bs, x)))
  }

  /** The allocated tree holds exactly the allocated blocks, by address. */
  ghost predicate IndexesUsed(s: seq<nat>, bs: seq<Block>) {
    && Ascending(s)
    && (forall a: nat :: a in s <==> IsUsed(bs, a))
  }

  // ---------- lookups by address ----------

  lemma IndexAt(bs: seq<Block>, limit: nat, i: nat)
    requires Tiled(bs, limit) && i < |bs|
    ensures IndexOf(bs, bs[i].addr) == i
  {
    IndexOfIsFirst(bs, bs[i].addr, i);
  }

  /** Every address keeps its block and its room when the list changes elsewhere. */
  ghost predicate SameElsewhere(bs: seq<Block>, bs': seq<Block>, limit: nat, except: set<nat>) {
    forall a: nat :: a !in except ==>
      && IsFree(bs', a) == IsFree(bs, a)
      && IsUsed(bs', a) == IsUsed(bs, a)
      && RoomAt(bs', limit, a) == RoomAt(bs, limit, a)
  }

  /** Block `i` of one list sits unchanged, with the same room, at `j` of the other. */
  ghost predicate MovedTo(bs: seq<Block>, i: nat, bs': seq<Block>, j: nat, limit: nat) {
    i < |bs| && j < |bs'| && bs'[j] == bs[i] && Room(bs', limit, j) == Room(bs, limit, i)
  }

  lemma SameElsewhereBy(bs: seq<Block>, bs': seq<Block>, limit: nat, except: set<nat>, f: nat -> nat, g: nat -> nat)
    requires Tiled(bs, limit) && Tiled(bs', limit)
    requires forall i: nat :: i < |bs| && bs[i].addr !in except ==> MovedTo(bs, i, bs', f(i), limit)
    requires forall j: nat :: j < |bs'| && bs'[j].addr !in except ==> MovedTo(bs, g(j), bs', j, limit)
    ensures SameElsewhere(bs, bs', limit, except)
  {
    forall a: nat | a !in except
      ensures IsFree(bs', a) == IsFree(bs, a) && IsUsed(bs', a) == IsUsed(bs, a)
           && RoomAt(bs', limit, a) == RoomAt(bs, limit, a)
    {
      var i, j := IndexOf(bs, a), IndexOf(bs', a);
      if i < |bs| {
        IndexAt(bs', limit, f(i));
      } else if j < |bs'| {
        IndexAt(bs, limit, g(j));
      }
    }
  }

  function CarveOrigin(bs: seq<Block>, limit: nat, k: nat, size: nat, j: nat): nat
    requires k < |bs|
  {
    if j <= k || size + HEADER + 4 >= Room(bs, limit, k) then j else j - 1
  }

  /** The addresses carving changes: the block itself and, after a split, the new header. */
  function CarveChanges(bs: seq<Block>, limit: nat, k: nat, size: nat): set<nat>
    requires k < |bs|
  {
    if size + HEADER + 4 >= Room(bs, limit, k) then {bs[k].addr} else {bs[k].addr, bs[k].addr + HEADER + size}
  }

  lemma CarveMoved(bs: seq<Block>, limit: nat, k: nat, b: Block, size: nat, j: nat)
    requires k < |bs| && b.addr == bs[k].addr
    requires var bs' := Carve(bs, limit, k, b, size);
             j < |bs'| && bs'[j].addr !in CarveChanges(bs, limit, k, size)
    ensures MovedTo(bs, CarveOrigin(bs, limit, k, size, j), Carve(bs, limit, k, b, size), j, limit)
  {
    CarveOthers(bs, limit, k, b, size, CarveOrigin(bs, limit, k, size, j));
  }

  lemma CarveElsewhere(bs: seq<Block>, limit: nat, k: nat, b: Block, size: nat)
    requires Tiled(bs, limit) && k < |bs| && b.addr == bs[k].addr && size <= Room(bs, limit, k)
    ensures SameElsewhere(bs, Carve(bs, limit, k, b, size), limit, CarveChanges(bs, limit, k, size))
  {
    var bs' := Carve(bs, limit, k, b, size);
    var except := CarveChanges(bs, limit, k, size);
    CarveTiled(bs, limit, k, b, size);
    forall i: nat | i < |bs| && bs[i].addr !in except
      ensures MovedTo(bs, i, bs', CarveIndex(bs, limit, k, size, i), limit)
    {
      CarveOthers(bs, limit, k, b, size, i);
    }
    forall j: nat | j < |bs'| && bs'[j].addr !in except
      ensures MovedTo(bs, CarveOrigin(bs, limit, k, size, j), bs', j, limit)
    {
      CarveMoved(bs, limit, k, b, size, j);
    }
    SameElsewhereBy(bs, bs', limit, except,
      i => CarveIndex(bs, limit, k, size, i), j => CarveOrigin(bs, limit, k, size, j));
  }

  function UnlinkOrigin(j: nat, i: nat): nat { if i < j then i else i + 1 }
  function UnlinkIndex(j: nat, i: nat): nat { if i < j || i == 0 then i else i - 1 }

  lemma UnlinkMoved(bs: seq<Block>, limit: nat, j: nat, i: nat)
    requires 0 < j < |bs| && i < |bs| && i != j && i != j - 1
    ensures MovedTo(bs, i, Unlink(bs, j), UnlinkIndex(j, i), limit)
  {
    UnlinkOthers(bs, limit, j, i);
  }

  lemma UnlinkElsewhere(bs: seq<Block>, limit: nat, j: nat)
    requires Tiled(bs, limit) && Aligned(bs) && 0 < j < |bs|
    ensures SameElsewhere(bs, Unlink(bs, j), limit, {bs[j - 1].addr, bs[j].addr})
  {
    var bs' := Unlink(bs, j);
    var except := {bs[j - 1].addr, bs[j].addr};
    UnlinkTiled(bs, limit, j);
    forall i: nat | i < |bs| && bs[i].addr !in except
      ensures MovedTo(bs, i, bs', UnlinkIndex(j, i), limit)
    {
      UnlinkMoved(bs, limit, j, i);
    }
    forall i: nat | i < |bs'| && bs'[i].addr !in except
      ensures MovedTo(bs, UnlinkOrigin(j, i), bs', i, limit)
    {
      assert i != j - 1;
      UnlinkMoved(bs, limit, j, UnlinkOrigin(j, i));
    }
    SameElsewhereBy(bs, bs', limit, except, i => UnlinkIndex(j, i), i => UnlinkOrigin(j, i));
  }

  lemma MarkFreeElsewhere(bs: seq<Block>, limit: nat, k: nat)
    requires Tiled(bs, limit) && k < |bs|
    ensures SameElsewhere(bs, MarkFree(bs, k), limit, {bs[k].addr})
  {
    SameElsewhereBy(bs, MarkFree(bs, k), limit, {bs[k].addr}, i => i, i => i);
  }

  // ---------- how the trees follow the list ----------

  lemma WithoutMembers(s: seq<nat>, a: nat)
    requires a in s && NoDup(s)
    ensures NoDup(Without(s, a))
    ensures forall x :: x in Without(s, a) <==> x in s && x != a
  {
    var i := WithoutSplits(s, a);
    var t := Without(s, a);
    forall x | x in s && x != a
      ensures x in t
    {
      var j :| 0 <= j < |s| && s[j] == x;
      assert t[if j < i then j else j - 1] == x;
    }
  }

  lemma WithoutSorted(s: seq<nat>, a: nat, bs: seq<Block>, limit: nat)
    requires a in s && SortedByRoom(s, bs, limit)
    ensures SortedByRoom(Without(s, a), bs, limit)
  {
    var i := WithoutSplits(s, a);
  }

  lemma WithoutAscending(s: seq<nat>, a: nat)
    requires a in s && Ascending(s)
    ensures Ascending(Without(s, a))
  {
    var i := WithoutSplits(s, a);
  }

  /** An order by size survives any change of the list that leaves the rooms of its members alone. */
  lemma SortedFrame(s: seq<nat>, bs: seq<Block>, bs': seq<Block>, limit: nat, except: set<nat>)
    requires SortedByRoom(s, bs, limit) && SameElsewhere(bs, bs', limit, except)
    requires forall a :: a in s ==> a !in except
    ensures SortedByRoom(s, bs', limit)
  {
    forall i, j | 0 <= i < j < |s|
      ensures RoomAt(bs', limit, s[i]) <= RoomAt(bs', limit, s[j])
    {
      assert s[i] in s && s[j] in s;
    }
  }

  /** Erasing one member and changing its block: the rest is still sorted, even though the erased
      member's own key may have changed before it was erased. */
  lemma EraseAndChange(s: seq<nat>, a: nat, bs: seq<Block>, bs': seq<Block>, limit: nat, except: set<nat>)
    requires NoDup(s) && SortedByRoom(s, bs, limit) && a in s && SameElsewhere(bs, bs', limit, except)
    requires forall x :: x in s && x != a ==> x !in except
    ensures NoDup(Without(s, a)) && SortedByRoom(Without(s, a), bs', limit)
    ensures forall x :: x in Without(s, a) <==> x in s && x != a
  {
    WithoutMembers(s, a);
    WithoutSorted(s, a, bs, limit);
    SortedFrame(Without(s, a), bs, bs', limit, except);
  }

  function InsertAt(s: seq<nat>, pos: nat, a: nat): (t: seq<nat>)
    requires pos <= |s|
    ensures |t| == |s| + 1
    ensures forall i :: 0 <= i < |t| ==> t[i] == if i < pos then s[i] else if i == pos then a else s[i - 1]
  {
    s[..pos] + [a] + s[pos..]
  }

  lemma InsertAtMembers(s: seq<nat>, pos: nat, a: nat)
    requires pos <= |s|
    ensures forall x :: x in InsertAt(s, pos, a) <==> x in s || x == a
  {
    var t := InsertAt(s, pos, a);
    assert t == s[..pos] + [a] + s[pos..];
    assert s == s[..pos] + s[pos..];
  }

  lemma InsertAtSorted(s: seq<nat>, pos: nat, a: nat, bs: seq<Block>, limit: nat)
    requires SortedByRoom(s, bs, limit) && NoDup(s) && a !in s && pos <= |s|
    requires forall i :: 0 <= i < pos ==> RoomAt(bs, limit, s[i]) <= RoomAt(bs, limit, a)
    requires forall i :: pos <= i < |s| ==> RoomAt(bs, limit, a) <= RoomAt(bs, limit, s[i])
    ensures SortedByRoom(InsertAt(s, pos, a), bs, limit) && NoDup(InsertAt(s, pos, a))
  {
  }

  lemma InsertAtAscending(s: seq<nat>, pos: nat, a: nat)
    requires Ascending(s) && pos <= |s|
    requires forall i :: 0 <= i < pos ==> s[i] < a
    requires forall i :: pos <= i < |s| ==> a < s[i]
    ensures Ascending(InsertAt(s, pos, a))
  {
  }

  // ---------- descending a tree ----------

  /** Where the root of a subtree sits when the subtree occupies `s[lo..hi]`. */
  function RootAt(n: Tree, lo: nat): nat
    requires n.Node?
  {
    lo + |InOrder(n.left)|
  }

  lemma SubtreeSlices(s: seq<nat>, n: Tree, lo: nat, hi: nat)
    requires n.Node? && lo <= hi <= |s| && s[lo..hi] == InOrder(n)
    ensures var m := RootAt(n, lo);
            lo <= m < hi && s[m] == n.addr && s[lo..m] == InOrder(n.left) && s[m + 1..hi] == InOrder(n.right)
  {
    var m := RootAt(n, lo);
    var o := InOrder(n);
    assert o[..m - lo] == InOrder(n.left) && o[m - lo] == n.addr && o[m - lo + 1..] == InOrder(n.right);
    assert s[lo..m] == s[lo..hi][..m - lo];
    assert s[m + 1..hi] == s[lo..hi][m - lo + 1..];
    assert s[m] == s[lo..hi][m - lo];
  }

  /** The descent of binder_insert_free_buffer: the place of a block of room `r`, behind all blocks
      of at most that room. */
  method PlaceBySize(t: Tree, key: nat -> int, r: int) returns (pos: nat)
    requires SortedBy(InOrder(t), key)
    ensures pos <= |InOrder(t)|
    ensures forall i :: 0 <= i < pos ==> key(InOrder(t)[i]) <= r
    ensures forall i :: pos <= i < |InOrder(t)| ==> key(InOrder(t)[i]) > r
  {
    ghost var s := InOrder(t);
    var n := t;
    ghost var hi := |s|;
    pos := 0;
    while n.Node?
      invariant pos <= hi <= |s| && s[pos..hi] == InOrder(n)
      invariant forall i :: 0 <= i < pos ==> key(s[i]) <= r
      invariant forall i :: hi <= i < |s| ==> key(s[i]) > r
      decreases n
    {
      SubtreeSlices(s, n, pos, hi);
      if r < key(n.addr) {
        hi := RootAt(n, pos);
        n := n.left;
      } else {
        pos := RootAt(n, pos) + 1;
        n := n.right;
      }
    }
  }

  /** A member of `s` with the least key that is at least `size`. */
  ghost predicate IsBestFit(s: seq<nat>, key: nat -> int, size: int, a: nat) {
    && a in s && key(a) >= size
    && forall x :: x in s && key(x) >= size ==> key(a) <= key(x)
  }

  lemma BestFitAt(s: seq<nat>, key: nat -> int, size: int, i: nat)
    requires SortedBy(s, key) && i < |s| && key(s[i]) >= size
    requires key(s[i]) == size || forall j :: 0 <= j < i ==> key(s[j]) < size
    ensures IsBestFit(s, key, size, s[i])
  {
    forall x | x in s && key(x) >= size
      ensures key(s[i]) <= key(x)
    {
      var j :| 0 <= j < |s| && s[j] == x;
    }
  }

  /** The descent of binder_alloc_buf: stops at a block of exactly this room, otherwise remembers
      the last block that was large enough. */
  method FindBestFit(t: Tree, key: nat -> int, size: int) returns (best: Option<nat>, exact: bool)
    requires SortedBy(InOrder(t), key)
    ensures best.None? ==> !exact && forall x :: x in InOrder(t) ==> key(x) < size
    ensures best.Some? ==> IsBestFit(InOrder(t), key, size, best.value) && exact == (key(best.value) == size)
  {
    best, exact := None, false;
    ghost var s := InOrder(t);
    var n := t;
    ghost var lo: nat, hi: nat := 0, |s|;
    while n.Node?
      invariant lo <= hi <= |s| && s[lo..hi] == InOrder(n)
      invariant forall i :: 0 <= i < lo ==> key(s[i]) < size
      invariant hi < |s| ==> key(s[hi]) > size
      invariant best == if hi == |s| then None else Some(s[hi])
      decreases n
    {
      SubtreeSlices(s, n, lo, hi);
      if size < key(n.addr) {
        best := Some(n.addr);
        hi := RootAt(n, lo);
        n := n.left;
      } else if size > key(n.addr) {
        lo := RootAt(n, lo) + 1;
        n := n.right;
      } else {
        best, exact := Some(n.addr), true;
        BestFitAt(s, key, size, RootAt(n, lo));
        return;
      }
    }
    if hi < |s| {
      BestFitAt(s, key, size, hi);
    }
  }

  /** The descent by address, shared by insertion into the allocated tree and by lookup. */
  method FindByAddress(t: Tree, a: int) returns (pos: nat, found: bool)
    requires Ascending(InOrder(t))
    ensures pos <= |InOrder(t)|
    ensures found <==> a in InOrder(t)
    ensures forall i :: 0 <= i < pos ==> InOrder(t)[i] < a
    ensures !found ==> forall i :: pos <= i < |InOrder(t)| ==> a < InOrder(t)[i]
  {
    ghost var s := InOrder(t);
    var n := t;
    ghost var hi := |s|;
    pos, found := 0, false;
    while n.Node?
      invariant pos <= hi <= |s| && s[pos..hi] == InOrder(n)
      invariant forall i :: 0 <= i < pos ==> s[i] < a
      invariant forall i :: hi <= i < |s| ==> a < s[i]
      decreases n
    {
      SubtreeSlices(s, n, pos, hi);
      if a < n.addr {
        hi := RootAt(n, pos);
        n := n.left;
      } else if a > n.addr {
        pos := RootAt(n, pos) + 1;
        n := n.right;
      } else {
        found := true;
        return;
      }
    }
  }

  /** rb_first. */
  function First(t: Tree): (a: nat)
    requires t.Node?
    ensures a == InOrder(t)[0]
  {
    if t.left.Leaf? then t.addr else First(t.left)
  }
}
