/** What the port-0 slave's memory reads back, byte by byte, after any run. */
module XbarSlaveReads {
  import opened Bytes
  import opened Pairing
  import opened XbarSlave
  import opened XbarSlaveTheorems

  /** Beat g writes byte b of the 16 bytes around x: its strobe is set and its address, a
      32-bit number, is one of theirs. */
  predicate Hits(bursts: seq<Burst>, beats: seq<Taken>, g: nat, x: int, b: nat)
    requires b < 16
  {
    g < |beats| && beats[g].half.strb[b]
    && 16 * (x / 16) <= Target(bursts, |bursts|, g, 16) % 0x1_0000_0000 < 16 * (x / 16) + 16
  }

  /** And none of the beats before n does so after it. */
  predicate HitsLast(bursts: seq<Burst>, beats: seq<Taken>, n: nat, g: nat, x: int, b: nat)
    requires b < 16
  {
    g < n && Hits(bursts, beats, g, x, b)
    && forall m :: g < m < n ==> !Hits(bursts, beats, m, x, b)
  }

  predicate NeverHit(bursts: seq<Burst>, beats: seq<Taken>, n: nat, x: int, b: nat)
    requires b < 16
  {
    forall m :: 0 <= m < n ==> !Hits(bursts, beats, m, x, b)
  }

  lemma SameLine(a: int, x: int)
    ensures Aligned(a) == Aligned(x) <==> 16 * (x / 16) <= a < 16 * (x / 16) + 16
  {
  }

  /** A masked write changes exactly the strobed bytes of the 16 around its address. */
  lemma MaskedByte(st: Store, a: int, h: Half, x: int, b: nat)
    requires b < 16
    ensures ReadWord(WriteMasked(st, a, h), x)[b]
         == if 16 * (x / 16) <= a < 16 * (x / 16) + 16 && h.strb[b] then h.data[b] else ReadWord(st, x)[b]
  {
    SameLine(a, x);
  }

  lemma {:induction false} HitByte(st: Store, bursts: seq<Burst>, beats: seq<Taken>, n: nat, g: nat, x: int, b: nat)
    requires n <= |beats| && b < 16 && HitsLast(bursts, beats, n, g, x, b)
    ensures ReadWord(StoreTaken(st, bursts, beats, n), x)[b] == beats[g].half.data[b]
  {
    var at := Wrap32(Target(bursts, |bursts|, n - 1, 16));
    MaskedByte(StoreTaken(st, bursts, beats, n - 1), at, beats[n - 1].half, x, b);
    if g < n - 1 {
      assert !Hits(bursts, beats, n - 1, x, b);
      HitByte(st, bursts, beats, n - 1, g, x, b);
    }
  }

  lemma {:induction false} UnhitByte(st: Store, bursts: seq<Burst>, beats: seq<Taken>, n: nat, x: int, b: nat)
    requires n <= |beats| && b < 16 && NeverHit(bursts, beats, n, x, b)
    ensures ReadWord(StoreTaken(st, bursts, beats, n), x)[b] == ReadWord(st, x)[b]
  {
    if n > 0 {
      var at := Wrap32(Target(bursts, |bursts|, n - 1, 16));
      MaskedByte(StoreTaken(st, bursts, beats, n - 1), at, beats[n - 1].half, x, b);
      assert !Hits(bursts, beats, n - 1, x, b);
      UnhitByte(st, bursts, beats, n - 1, x, b);
    }
  }

  const NOTHING := Account([], [], [], 0)

  /** After any orderly run from an empty slave, byte b of the word read at x is the data
      byte of the latest placed beat that hits it, and zero if there is none. */
  lemma {:induction false} ReadsLatest(pins: seq<Pins>, x: int, b: nat)
    requires Orderly(S0_IDLE, pins) && b < 16
    ensures var (s, h) := Play(S0_IDLE, NOTHING, pins);
            0 <= Placed(s, h) <= |h.beats|
            && (NeverHit(h.bursts, h.beats, Placed(s, h), x, b) ==> ReadWord(s.store, x)[b] == 0)
            && forall g: nat :: HitsLast(h.bursts, h.beats, Placed(s, h), g, x, b) ==>
                 ReadWord(s.store, x)[b] == h.beats[g].half.data[b]
  {
    SlaveRuns(S0_IDLE, NOTHING, pins, map[]);
    var (s, h) := Play(S0_IDLE, NOTHING, pins);
    var n: nat := Placed(s, h);
    if NeverHit(h.bursts, h.beats, n, x, b) {
      UnhitByte(map[], h.bursts, h.beats, n, x, b);
    }
    forall g: nat | HitsLast(h.bursts, h.beats, n, g, x, b)
      ensures ReadWord(s.store, x)[b] == h.beats[g].half.data[b]
    {
      HitByte(map[], h.bursts, h.beats, n, g, x, b);
    }
  }

  /** Two beats of a burst of at most 256 never share a word. */
  lemma BeatsApart(addr: int, i: nat, m: nat)
    requires i < m < 256
    ensures var x := (addr + 16 * i) % 0x1_0000_0000;
            !(16 * (x / 16) <= (addr + 16 * m) % 0x1_0000_0000 < 16 * (x / 16) + 16)
  {
    var d := 16 * (m - i);
    var x, y := (addr + 16 * i) % 0x1_0000_0000, (addr + 16 * m) % 0x1_0000_0000;
    assert y == x + d || y == x + d - 0x1_0000_0000;
  }

  /** A burst abandoned after k of its beats and padded: reading where a real beat went gives
      back its strobed bytes. */
  lemma PaddedReadsBack(s: S0, h: Account, st: Store, k: nat, i: nat, b: nat)
    requires Framed(s, h) && Stored(s, h, st) && !s.earlyHave && PaddedAfter(h, k)
    requires h.bursts[|h.bursts| - 1].len < 256 && i < k && b < 16
    requires h.beats[Owed(h.bursts, |h.bursts| - 1) + i].half.strb[b]
    ensures var j := |h.bursts| - 1;
            ReadWord(s.store, (h.bursts[j].addr + 16 * i) % 0x1_0000_0000)[b]
            == h.beats[Owed(h.bursts, j) + i].half.data[b]
  {
    var j := |h.bursts| - 1;
    var o := Owed(h.bursts, j);
    var x := (h.bursts[j].addr + 16 * i) % 0x1_0000_0000;
    TargetInBurst(h.bursts, j + 1, j, i, 16);
    assert Hits(h.bursts, h.beats, o + i, x, b);
    forall m | o + i < m < |h.beats|
      ensures !Hits(h.bursts, h.beats, m, x, b)
    {
      TargetInBurst(h.bursts, j + 1, j, m - o, 16);
      BeatsApart(h.bursts[j].addr, i, m - o);
    }
    HitByte(st, h.bursts, h.beats, |h.beats|, o + i, x, b);
  }
}
