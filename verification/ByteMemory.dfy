/** Words in memory, byte by byte, and arrays of 32-bit words. */
module ByteMemory {
  import opened SizeMath

  type Byte = b: int | 0 <= b < 256

  /** Little-endian. */
  function Bytes(v: nat, len: nat): (bs: seq<Byte>)
    ensures |bs| == len
  {
    if len == 0 then [] else [v % 256] + Bytes(v / 256, len - 1)
  }

  function Number(bs: seq<Byte>): nat {
    if bs == [] then 0 else bs[0] + 256 * Number(bs[1..])
  }

  function Limit(len: nat): nat {
    if len == 0 then 1 else 256 * Limit(len - 1)
  }

  lemma {:induction false} RoundTrip(v: nat, len: nat)
    requires v < Limit(len)
    ensures Number(Bytes(v, len)) == v
  {
    if len > 0 {
      RoundTrip(v / 256, len - 1);
      assert Bytes(v, len)[1..] == Bytes(v / 256, len - 1);
    }
  }

  function Get(mem: seq<Byte>, at: int, len: nat): nat {
    if 0 <= at && at + len <= |mem| then Number(mem[at..at + len]) else 0
  }

  function Put(mem: seq<Byte>, at: int, bs: seq<Byte>): (r: seq<Byte>)
    ensures |r| == |mem|
  {
    if 0 <= at && at + |bs| <= |mem| then mem[..at] + bs + mem[at + |bs|..] else mem
  }

  ghost predicate SameOutside(m: seq<Byte>, m': seq<Byte>, lo: int, hi: int) {
    |m'| == |m| && forall i :: 0 <= i < |m| && !(lo <= i < hi) ==> m'[i] == m[i]
  }

  lemma PutEffect(mem: seq<Byte>, at: int, bs: seq<Byte>)
    ensures SameOutside(mem, Put(mem, at, bs), at, at + |bs|)
    ensures 0 <= at && at + |bs| <= |mem| ==> Put(mem, at, bs)[at..at + |bs|] == bs
  {
  }

  lemma GetSame(m: seq<Byte>, m': seq<Byte>, at: int, len: nat)
    requires |m'| == |m| && forall i :: at <= i < at + len && 0 <= i < |m| ==> m'[i] == m[i]
    ensures Get(m', at, len) == Get(m, at, len)
  {
    if 0 <= at && at + len <= |m| {
      assert m'[at..at + len] == m[at..at + len];
    }
  }

  lemma GetPut(mem: seq<Byte>, at: nat, v: nat, len: nat)
    requires at + len <= |mem| && v < Limit(len)
    ensures Get(Put(mem, at, Bytes(v, len)), at, len) == v
    ensures SameOutside(mem, Put(mem, at, Bytes(v, len)), at, at + len)
  {
    PutEffect(mem, at, Bytes(v, len));
    RoundTrip(v, len);
  }

  lemma Limits()
    ensures Limit(4) == 0x1_0000_0000 && Limit(8) == SIZE_MOD
  {
    assert Limit(4) == 256 * Limit(3) && Limit(3) == 256 * Limit(2) && Limit(2) == 256 * Limit(1) && Limit(1) == 256;
    assert Limit(8) == 256 * Limit(7) && Limit(7) == 256 * Limit(6);
    assert Limit(6) == 256 * Limit(5) && Limit(5) == 256 * Limit(4);
  }

  /** The descriptors of an array, one after the other. */
  function PutAll(mem: seq<Byte>, at: int, fds: seq<nat>): (r: seq<Byte>)
    ensures |r| == |mem|
    decreases |fds|
  {
    if fds == [] then mem else PutAll(Put(mem, at, Bytes(fds[0], 4)), at + 4, fds[1..])
  }

  function GetAll(mem: seq<Byte>, at: int, num: nat): seq<nat> {
    seq(num, i requires 0 <= i < num => Get(mem, at + 4 * i, 4))
  }

  ghost predicate Words(fds: seq<nat>) {
    forall i :: 0 <= i < |fds| ==> fds[i] < Limit(4)
  }

  lemma GetAllSame(m: seq<Byte>, m': seq<Byte>, at: int, num: nat)
    requires |m'| == |m| && forall i :: at <= i < at + 4 * num && 0 <= i < |m| ==> m'[i] == m[i]
    ensures GetAll(m', at, num) == GetAll(m, at, num)
  {
    forall i | 0 <= i < num
      ensures Get(m', at + 4 * i, 4) == Get(m, at + 4 * i, 4)
    {
      GetSame(m, m', at + 4 * i, 4);
    }
  }

  lemma GetAllCons(mem: seq<Byte>, at: int, num: nat)
    requires num > 0
    ensures GetAll(mem, at, num) == [Get(mem, at, 4)] + GetAll(mem, at + 4, num - 1)
  {
    forall i | 1 <= i < num
      ensures GetAll(mem, at, num)[i] == GetAll(mem, at + 4, num - 1)[i - 1]
    {
      assert at + 4 * i == at + 4 + 4 * (i - 1);
    }
  }

  lemma {:induction false} PutAllEffect(mem: seq<Byte>, at: nat, fds: seq<nat>)
    requires at + 4 * |fds| <= |mem| && Words(fds)
    ensures SameOutside(mem, PutAll(mem, at, fds), at, at + 4 * |fds|)
    ensures GetAll(PutAll(mem, at, fds), at, |fds|) == fds
    decreases |fds|
  {
    hide Bytes, Get, Put, GetAll;
    if fds == [] {
      assert GetAll(mem, at, 0) == [] by { NoneRead(mem, at); }
    } else {
      var m1, r := Put(mem, at, Bytes(fds[0], 4)), PutAll(mem, at, fds);
      GetPut(mem, at, fds[0], 4);
      PutAllEffect(m1, at + 4, fds[1..]);
      GetSame(m1, r, at, 4);
      GetAllCons(r, at, |fds|);
    }
  }

  lemma NoneRead(mem: seq<Byte>, at: int)
    ensures GetAll(mem, at, 0) == []
  {
  }

  lemma {:induction false} PutAllAppend(mem: seq<Byte>, at: int, fds: seq<nat>, fd: nat)
    ensures PutAll(mem, at, fds + [fd]) == Put(PutAll(mem, at, fds), at + 4 * |fds|, Bytes(fd, 4))
    decreases |fds|
  {
    hide Put, Bytes;
    if fds == [] {
      assert [] + [fd] == [fd];
    } else {
      assert (fds + [fd])[1..] == fds[1..] + [fd];
      PutAllAppend(Put(mem, at, Bytes(fds[0], 4)), at + 4, fds[1..], fd);
    }
  }

  lemma NothingPut(mem: seq<Byte>, at: int)
    ensures PutAll(mem, at, []) == mem
  {
  }
}
