/** A run of writes and then a run of reads: every byte read is the one written last. */
module MigReadBack {
  import opened Bytes
  import opened MigWriteQueue
  import opened MigRead
  import opened MigReadTheorems
  import Writes = MigWriteTheorems

  // ---------------------------------------------------------------- the last write of a byte

  /** Lane b of a beat at `at` is strobed and is the byte at a. */
  predicate Hits(h: Half, at: int, b: int, a: int) {
    0 <= b < 16 && h.strb[b] && LaneAddress(at, b) == a
  }

  ghost function AfterBeat(prior: Byte, h: Half, at: int, a: int): Byte {
    if exists b :: Hits(h, at, b, a) then
      var b :| Hits(h, at, b, a);
      h.data[b]
    else prior
  }

  /** The byte at a after a burst: that of the last beat that hits it, else the prior one. */
  ghost function LatestIn(prior: Byte, addr: int, beats: seq<WBeat>, a: int): Byte
    decreases |beats|
  {
    if |beats| == 0 then prior
    else
      var n := |beats| - 1;
      AfterBeat(LatestIn(prior, addr, beats[..n], a), beats[n].half, addr + 16 * n, a)
  }

  /** The byte at a after a list of accepted bursts, in the order of acceptance. */
  ghost function Latest(mem: Memory, descs: seq<Desc>, a: int): Byte
    decreases |descs|
  {
    if |descs| == 0 then Load(mem, a)
    else
      var d := descs[|descs| - 1];
      LatestIn(Latest(mem, descs[..|descs| - 1], a), Start(d.aw), d.beats[..Covered(d.aw, d.beats)], a)
  }

  lemma BeatHits(mem: Memory, at: int, h: Half, b: int, a: int)
    requires Hits(h, at, b, a)
    ensures Load(WriteHalf(mem, at, h), a) == h.data[b]
  {
    LoadWrittenLane(mem, at, h.data, h.strb, b);
  }

  lemma BeatMisses(mem: Memory, at: int, h: Half, a: int)
    requires forall b :: !Hits(h, at, b, a)
    ensures Load(WriteHalf(mem, at, h), a) == Load(mem, a)
  {
    if b :| 0 <= b < 16 && LaneAddress(at, b) == a {
      assert !Hits(h, at, b, a);
      LoadWrittenLane(mem, at, h.data, h.strb, b);
    } else {
      LoadOtherAddress(mem, at, h.data, h.strb, a);
    }
  }

  lemma BeatByte(mem: Memory, at: int, h: Half, a: int)
    ensures Load(WriteHalf(mem, at, h), a) == AfterBeat(Load(mem, a), h, at, a)
  {
    forall b | Hits(h, at, b, a)
      ensures Load(WriteHalf(mem, at, h), a) == h.data[b]
    {
      BeatHits(mem, at, h, b, a);
    }
    if forall b :: !Hits(h, at, b, a) {
      BeatMisses(mem, at, h, a);
    }
  }

  lemma {:induction false} BurstByte(mem: Memory, addr: int, beats: seq<WBeat>, a: int)
    ensures Load(StoreBeats(mem, addr, beats), a) == LatestIn(Load(mem, a), addr, beats, a)
    decreases |beats|
  {
    if |beats| > 0 {
      var n := |beats| - 1;
      BurstByte(mem, addr, beats[..n], a);
      BeatByte(StoreBeats(mem, addr, beats[..n]), addr + 16 * n, beats[n].half, a);
    }
  }

  lemma {:induction false} SpecByte(mem: Memory, descs: seq<Desc>, a: int)
    ensures Load(SpecMem(mem, descs), a) == Latest(mem, descs, a)
    decreases |descs|
  {
    if |descs| > 0 {
      var d := descs[|descs| - 1];
      SpecByte(mem, descs[..|descs| - 1], a);
      BurstByte(SpecMem(mem, descs[..|descs| - 1]), Start(d.aw), d.beats[..Covered(d.aw, d.beats)], a);
    }
  }

  // ---------------------------------------------------------------- where a read's answer is

  /** Beats of the answers to the first n reads. */
  function Offset(ars: seq<Aw>, n: nat): nat
    requires n <= |ars|
  {
    if n == 0 then 0 else Offset(ars, n - 1) + ars[n - 1].len + 1
  }

  lemma {:induction false} AnswersLength(mem: Memory, ars: seq<Aw>, n: nat)
    requires n <= |ars|
    ensures |Answers(mem, ars, n)| == Offset(ars, n)
  {
    if n > 0 {
      AnswersLength(mem, ars, n - 1);
    }
  }

  lemma {:induction false} OffsetGrows(ars: seq<Aw>, r: nat, n: nat)
    requires r < n <= |ars|
    ensures Offset(ars, r) + RepoBeats(ars[r]) <= Offset(ars, n)
    decreases n
  {
    if r < n - 1 {
      OffsetGrows(ars, r, n - 1);
    }
  }

  lemma {:induction false} AnswersAt(mem: Memory, ars: seq<Aw>, n: nat, r: nat, i: nat)
    requires r < n <= |ars| && i < RepoBeats(ars[r])
    ensures Offset(ars, r) + i < |Answers(mem, ars, n)|
    ensures Answers(mem, ars, n)[Offset(ars, r) + i] == Answer(mem, ars[r], i)
    decreases n
  {
    AnswersLength(mem, ars, n - 1);
    AnswersLength(mem, ars, n);
    if r < n - 1 {
      OffsetGrows(ars, r, n - 1);
      AnswersAt(mem, ars, n - 1, r, i);
    }
  }

  /** In every run of reads, beat i of the answer to the r-th accepted read, once received,
      is at the place the lengths call for. */
  lemma {:induction false} ReceivedAt(ins: seq<ReadStimulus>, mem: Memory, r: nat, i: nat)
    requires r < |Accepted(ins, mem)| && i < RepoBeats(Accepted(ins, mem)[r])
    requires Offset(Accepted(ins, mem), r) + i < |Received(ins, mem)|
    ensures Received(ins, mem)[Offset(Accepted(ins, mem), r) + i] == Answer(mem, Accepted(ins, mem)[r], i)
  {
    var p := ReadsReturnMemory(ins, mem);
    AnsweredAt(ReadRun(READ_RESET, ins, mem), mem, r, i);
  }

  lemma AnsweredAt(s: Reader, mem: Memory, r: nat, i: nat)
    requires s.drain <= |s.descs| && (s.drain == |s.descs| ==> s.repoIndex == 0)
    requires r < |s.descs| && i < RepoBeats(s.descs[r]) && Offset(s.descs, r) + i < |AnsweredSoFar(s, mem)|
    requires s.drain < |s.descs| ==> s.repoIndex < RepoBeats(s.descs[s.drain])
    ensures AnsweredSoFar(s, mem)[Offset(s.descs, r) + i] == Answer(mem, s.descs[r], i)
  {
    AnswersLength(mem, s.descs, s.drain);
    if r < s.drain {
      AnswersAt(mem, s.descs, s.drain, r, i);
      PartAt(Answers(mem, s.descs, s.drain), AnsweredSoFar(s, mem), Offset(s.descs, r) + i);
    } else if r > s.drain {
      OffsetGrows(s.descs, s.drain, r);
    } else {
      PartlyAnswered(s, mem, i);
    }
  }

  lemma PartAt(a: seq<RBeat>, b: seq<RBeat>, n: nat)
    requires n < |a| && a <= b
    ensures b[n] == a[n]
  {
  }

  lemma PartlyAnswered(s: Reader, mem: Memory, i: nat)
    requires s.drain < |s.descs| && |Answers(mem, s.descs, s.drain)| + i < |AnsweredSoFar(s, mem)|
    ensures AnsweredSoFar(s, mem)[|Answers(mem, s.descs, s.drain)| + i] == Answer(mem, s.descs[s.drain], i)
  {
    var whole, part := Answers(mem, s.descs, s.drain), AnswerUpTo(mem, s.descs[s.drain], s.repoIndex);
    assert AnsweredSoFar(s, mem) == whole + part;
  }

  // ---------------------------------------------------------------- writes, then reads

  /** The bursts accepted and the memory left by a run of writes that never laps and has
      emptied its skid. */
  predicate LeftBy(mem: Memory, writes: seq<Stimulus>, descs: seq<Desc>, m: Memory) {
    Writes.NeverLaps(mem, writes) && descs == Writes.History(mem, writes).descs
    && Writes.Run(Writes.Start0(mem), writes).r.skidCnt == 0 && m == Writes.Run(Writes.Start0(mem), writes).mem
  }

  lemma LeftIsSpec(mem: Memory, writes: seq<Stimulus>, descs: seq<Desc>, m: Memory)
    requires LeftBy(mem, writes, descs, m)
    ensures m == SpecMem(mem, descs)
  {
    Writes.WritesPreserveMeaning(mem, writes);
  }

  /** A beat received of the r-th read, and the byte it should hold. */
  ghost predicate SeesLatest(mem: Memory, descs: seq<Desc>, a: Aw, i: nat, b: nat, beat: RBeat)
    requires b < 16
  {
    beat.ok && beat.id == a.id && (beat.last <==> i == RepoBeats(a) - 1) && |beat.data| == 16
    && beat.data[b] == Latest(mem, descs, LaneAddress(Start(a) + 16 * i, b))
  }

  lemma AnswerSeesLatest(mem: Memory, descs: seq<Desc>, a: Aw, i: nat, b: nat)
    requires b < 16 && Legal(a)
    ensures SeesLatest(mem, descs, a, i, b, Answer(SpecMem(mem, descs), a, i))
  {
    SpecByte(mem, descs, LaneAddress(Start(a) + 16 * i, b));
  }

  /** After any run of writes that never laps, malformed and refused ones among them, and
      with the skid empty: every beat of a legal read that any run of reads receives is OKAY
      and each of its bytes is the one last written there with its strobe set, or the
      initial one. */
  lemma {:induction false} ReadsSeeLatestWrites(
    mem: Memory, writes: seq<Stimulus>, descs: seq<Desc>, m: Memory, ins: seq<ReadStimulus>, r: nat, i: nat, b: nat)
    requires LeftBy(mem, writes, descs, m)
    requires r < |Accepted(ins, m)| && Legal(Accepted(ins, m)[r]) && i < RepoBeats(Accepted(ins, m)[r]) && b < 16
    requires Offset(Accepted(ins, m), r) + i < |Received(ins, m)|
    ensures SeesLatest(mem, descs, Accepted(ins, m)[r], i, b, Received(ins, m)[Offset(Accepted(ins, m), r) + i])
  {
    LeftIsSpec(mem, writes, descs, m);
    ReceivedAt(ins, m, r, i);
    AnswerSeesLatest(mem, descs, Accepted(ins, m)[r], i, b);
  }

  /** In particular a burst written last, well formed and fully strobed, is read back. */
  lemma {:induction false} WriteThenRead(
    mem: Memory, writes: seq<Stimulus>, descs: seq<Desc>, m: Memory, d: Desc, ins: seq<ReadStimulus>, r: nat, i: nat)
    requires LeftBy(mem, writes, descs, m) && |descs| > 0 && d == descs[|descs| - 1] && WrittenWhole(d, i)
    requires r < |Accepted(ins, m)| && ReadsBack(Accepted(ins, m)[r], d.aw)
    requires Offset(Accepted(ins, m), r) + i < |Received(ins, m)|
    ensures Received(ins, m)[Offset(Accepted(ins, m), r) + i]
         == RBeat(Accepted(ins, m)[r].id, d.beats[i].half.data, true, i == |d.beats| - 1)
  {
    LeftIsSpec(mem, writes, descs, m);
    ReceivedAt(ins, m, r, i);
    LastReadsBack(mem, descs, d, Accepted(ins, m)[r], i);
  }

  lemma LastReadsBack(mem: Memory, descs: seq<Desc>, d: Desc, a: Aw, i: nat)
    requires |descs| > 0 && d == descs[|descs| - 1] && WrittenWhole(d, i) && ReadsBack(a, d.aw)
    ensures Answer(SpecMem(mem, descs), a, i) == RBeat(a.id, d.beats[i].half.data, true, i == |d.beats| - 1)
  {
    BurstReadsBack(SpecMem(mem, descs[..|descs| - 1]), d, a, i);
  }

  /** The burst has all its beats and beat i all its strobes. */
  predicate WrittenWhole(d: Desc, i: nat) {
    Legal(d.aw) && |d.beats| == RepoBeats(d.aw) && Covered(d.aw, d.beats) == |d.beats|
    && i < |d.beats| && forall k :: 0 <= k < 16 ==> d.beats[i].half.strb[k]
  }

  predicate ReadsBack(a: Aw, aw: Aw) {
    Legal(a) && a.addr == aw.addr && a.len == aw.len
  }
}
