/** Byte-addressed sparse memory with 32-bit addresses, as the bus models of the
    harness keep it: a map from address to byte in which a missing key reads as zero. */
module Bytes {

  type Byte = b: int | 0 <= b < 256
  type Memory = map<int, Byte>

  const ADDRESS_SPACE := 0x1_0000_0000

  /** Addition on `uint32_t` wraps. */
  function Wrap32(a: int): (r: int)
    ensures 0 <= r < ADDRESS_SPACE
  {
    a % ADDRESS_SPACE
  }

  function LaneAddress(addr: int, lane: int): (r: int)
    ensures 0 <= r < ADDRESS_SPACE
  {
    Wrap32(addr + lane)
  }

  function Load(mem: Memory, a: int): Byte {
    if a in mem then mem[a] else 0
  }

  /** Writes lane i of `data` at `addr + i` wherever its strobe is set. */
  function WriteLanes(mem: Memory, addr: int, data: seq<Byte>, strb: seq<bool>): Memory
    requires |data| == |strb|
    decreases |data|
  {
    if |data| == 0 then mem
    else
      var n := |data| - 1;
      var m := WriteLanes(mem, addr, data[..n], strb[..n]);
      if strb[n] then m[LaneAddress(addr, n) := data[n]] else m
  }

  function ReadLanes(mem: Memory, addr: int, n: nat): (r: seq<Byte>)
    ensures |r| == n
  {
    seq<Byte>(n, i requires 0 <= i < n => Load(mem, LaneAddress(addr, i)))
  }

  function Zeros(n: nat): (r: seq<Byte>)
    ensures |r| == n
  {
    seq<Byte>(n, _ => 0)
  }

  function NoStrobes(n: nat): (r: seq<bool>)
    ensures |r| == n
  {
    seq(n, _ => false)
  }

  /** A wide beat is its low lanes followed by its high lanes. */
  lemma {:induction false} WriteConcat(mem: Memory, addr: int,
                                       d1: seq<Byte>, s1: seq<bool>, d2: seq<Byte>, s2: seq<bool>)
    requires |d1| == |s1| && |d2| == |s2|
    ensures WriteLanes(mem, addr, d1 + d2, s1 + s2)
         == WriteLanes(WriteLanes(mem, addr, d1, s1), addr + |d1|, d2, s2)
    decreases |d2|
  {
    if |d2| == 0 {
      assert d1 + d2 == d1 && s1 + s2 == s1;
    } else {
      var n := |d2| - 1;
      assert (d1 + d2)[..|d1| + n] == d1 + d2[..n];
      assert (s1 + s2)[..|d1| + n] == s1 + s2[..n];
      WriteConcat(mem, addr, d1, s1, d2[..n], s2[..n]);
    }
  }

  /** A beat whose strobes are all clear changes nothing. */
  lemma {:induction false} WriteWithoutStrobes(mem: Memory, addr: int, data: seq<Byte>, strb: seq<bool>)
    requires |data| == |strb|
    requires forall i :: 0 <= i < |strb| ==> !strb[i]
    ensures WriteLanes(mem, addr, data, strb) == mem
    decreases |data|
  {
    if |data| != 0 {
      var n := |data| - 1;
      WriteWithoutStrobes(mem, addr, data[..n], strb[..n]);
    }
  }

  /** Only the address modulo 2^32 matters. */
  lemma {:induction false} WriteWraps(mem: Memory, addr: int, data: seq<Byte>, strb: seq<bool>)
    requires |data| == |strb|
    ensures WriteLanes(mem, Wrap32(addr), data, strb) == WriteLanes(mem, addr, data, strb)
    decreases |data|
  {
    if |data| != 0 {
      WriteWraps(mem, addr, data[..|data| - 1], strb[..|data| - 1]);
    }
  }

  lemma SameAddress(addr: int, i: int, j: int)
    requires LaneAddress(addr, i) == LaneAddress(addr, j)
    requires -ADDRESS_SPACE < i - j < ADDRESS_SPACE
    ensures i == j
  {
  }

  /** What a write leaves in memory, lane by lane. */
  lemma {:induction false} LoadWrittenLane(mem: Memory, addr: int, data: seq<Byte>, strb: seq<bool>, i: nat)
    requires |data| == |strb| <= ADDRESS_SPACE
    requires i < |data|
    ensures Load(WriteLanes(mem, addr, data, strb), LaneAddress(addr, i))
         == if strb[i] then data[i] else Load(mem, LaneAddress(addr, i))
    decreases |data|
  {
    var n := |data| - 1;
    if i == n {
      forall j | 0 <= j < n
        ensures LaneAddress(addr, j) != LaneAddress(addr, i)
      {
        if LaneAddress(addr, j) == LaneAddress(addr, i) {
          SameAddress(addr, j, i);
        }
      }
      LoadOtherAddress(mem, addr, data[..n], strb[..n], LaneAddress(addr, i));
    } else {
      LoadWrittenLane(mem, addr, data[..n], strb[..n], i);
      if LaneAddress(addr, i) == LaneAddress(addr, n) {
        SameAddress(addr, i, n);
      }
    }
  }

  /** Addresses outside the written range keep their bytes. */
  lemma {:induction false} LoadOtherAddress(mem: Memory, addr: int, data: seq<Byte>, strb: seq<bool>, a: int)
    requires |data| == |strb|
    requires forall i :: 0 <= i < |data| ==> LaneAddress(addr, i) != a
    ensures Load(WriteLanes(mem, addr, data, strb), a) == Load(mem, a)
    decreases |data|
  {
    if |data| != 0 {
      LoadOtherAddress(mem, addr, data[..|data| - 1], strb[..|data| - 1], a);
    }
  }

  /** One bus beat: byte lanes and their write strobes. */
  datatype Lanes = Lanes(data: seq<Byte>, strb: seq<bool>)

  /** A beat of the 128-bit repository bus. */
  type Half = l: Lanes | |l.data| == 16 && |l.strb| == 16 witness Lanes(Zeros(16), NoStrobes(16))

  /** A beat of the 256-bit memory-controller bus. */
  type Beat = l: Lanes | |l.data| == 32 && |l.strb| == 32 witness Lanes(Zeros(32), NoStrobes(32))

  const EMPTY_HALF: Half := Lanes(Zeros(16), NoStrobes(16))
  const FILLER: Beat := Lanes(Zeros(32), NoStrobes(32))

  function Join(lo: Half, hi: Half): Beat {
    Lanes(lo.data + hi.data, lo.strb + hi.strb)
  }

  function WriteHalf(mem: Memory, addr: int, h: Half): Memory {
    WriteLanes(mem, addr, h.data, h.strb)
  }

  function WriteBeat(mem: Memory, addr: int, b: Beat): Memory {
    WriteLanes(mem, addr, b.data, b.strb)
  }

  lemma WriteJoined(mem: Memory, addr: int, lo: Half, hi: Half)
    ensures WriteBeat(mem, addr, Join(lo, hi)) == WriteHalf(WriteHalf(mem, addr, lo), addr + 16, hi)
  {
    WriteConcat(mem, addr, lo.data, lo.strb, hi.data, hi.strb);
  }

  lemma WriteEmptyHalf(mem: Memory, addr: int)
    ensures WriteHalf(mem, addr, EMPTY_HALF) == mem
  {
    WriteWithoutStrobes(mem, addr, EMPTY_HALF.data, EMPTY_HALF.strb);
  }

  lemma WriteFiller(mem: Memory, addr: int)
    ensures WriteBeat(mem, addr, FILLER) == mem
  {
    WriteWithoutStrobes(mem, addr, FILLER.data, FILLER.strb);
  }
}
