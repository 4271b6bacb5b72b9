/** The DDR bridge as its masters see it: which writes and reads it serves, told from the
    fields of a request and from byte addresses alone, and what each of them does. */
module MigContract {
  import opened Bits
  import opened Bytes
  import opened MigWriteQueue
  import opened MigWriteInvariant
  import opened MigRead
  import opened MigReadBack
  import opened MigReadRing
  import Ring = MigWriteRing
  import Refinement = MigWriteRefinement
  import Runs = MigWriteTheorems
  import Bus = MigWriteBus
  import Lap = MigWriteLap

  const GIGABYTES_2 := 0x8000_0000
  const INCR := 1

  // ---------------------------------------------------------------- which requests are served

  /** One, two or four bytes anywhere in the memory. */
  predicate Narrow(a: Request) {
    a.len == 0 && (a.size == 0 || a.size == 1 || a.size == 2) && a.burst == INCR && 0 <= a.addr < GIGABYTES_2
  }

  /** Aligned 16-byte beats, the last byte of the last one still in the memory. */
  predicate Aligned(a: Request) {
    a.size == 4 && a.burst == INCR && a.addr % 16 == 0 && 0 <= a.addr && a.addr + 16 * (a.len + 1) <= GIGABYTES_2
  }

  predicate Served(a: Request) {
    Narrow(a) || Aligned(a)
  }

  lemma ServedIsLegal(a: Aw)
    ensures Served(a) <==> Legal(a)
  {
  }

  // ---------------------------------------------------------------- the writes on the bus

  /** An address and the data beats that came for it. */
  datatype Write = Write(aw: Aw, beats: seq<WBeat>)

  /** A burst takes beats up to its length or the first WLAST. */
  function BurstLength(len: int, beats: seq<WBeat>): (n: nat)
    ensures n <= |beats|
    decreases |beats|
  {
    if |beats| == 0 then 0
    else if beats[0].last || len == 0 then 1
    else 1 + BurstLength(len - 1, beats[1..])
  }

  /** The addresses and beats taken from the bus, cut into bursts in order. */
  function Cut(addresses: seq<Aw>, beats: seq<WBeat>): (ws: seq<Write>)
    ensures |ws| == |addresses|
  {
    if |addresses| == 0 then []
    else
      var n := BurstLength(addresses[0].len, beats);
      [Write(addresses[0], beats[..n])] + Cut(addresses[1..], beats[n..])
  }

  function WritesOn(mem: Memory, ins: seq<Stimulus>): seq<Write> {
    Cut(Runs.AddressesTaken(mem, ins), Runs.BeatsTaken(mem, ins))
  }

  /** All beats, and WLAST on the last of them only. */
  predicate WellFramed(w: Write) {
    |w.beats| == w.aw.len + 1 && forall k :: 0 <= k < |w.beats| ==> (w.beats[k].last <==> k == w.aw.len)
  }

  /** Beats of a write that reach memory: all of a whole burst; otherwise those of complete
      32-byte lines before the one that carries a misplaced WLAST or is still to come. */
  function Kept(w: Write): int {
    var m := |w.beats|;
    var n := if m > 0 && (w.beats[m - 1].last <==> m != w.aw.len + 1) then m - 1 else m;
    if n == w.aw.len + 1 then n else n - (w.aw.addr / 16 + n) % 2
  }

  /** Lane b of beat i of a served write goes to the byte at x. */
  predicate Stores(w: Write, i: int, b: int, x: int) {
    Served(w.aw) && 0 <= i < Kept(w) && i < |w.beats| && 0 <= b < 16 && w.beats[i].half.strb[b]
    && x == w.aw.addr / 16 * 16 + 16 * i + b
  }

  /** And no later write stores there. */
  ghost predicate StoresLast(ws: seq<Write>, j: int, i: int, b: int, x: int) {
    0 <= j < |ws| && Stores(ws[j], i, b, x)
    && forall k, i', b' :: j < k < |ws| ==> !Stores(ws[k], i', b', x)
  }

  ghost predicate NeverStored(ws: seq<Write>, x: int) {
    forall k, i, b :: 0 <= k < |ws| ==> !Stores(ws[k], i, b, x)
  }

  function ByteOf(m: Memory, x: int): int {
    if x in m then m[x] else 0
  }

  /** The byte v at x is the one last stored there, or the initial one. */
  ghost predicate IsLatest(mem: Memory, ws: seq<Write>, x: int, v: int) {
    (forall j, i, b :: StoresLast(ws, j, i, b, x) ==> v == ws[j].beats[i].half.data[b])
    && (NeverStored(ws, x) ==> v == ByteOf(mem, x))
  }

  // ---------------------------------------------------------------- the history is what the bus shows

  function WritesOf(descs: seq<Desc>): (ws: seq<Write>)
    ensures |ws| == |descs|
  {
    seq(|descs|, j requires 0 <= j < |descs| => Write(descs[j].aw, descs[j].beats))
  }

  /** Beat k is there and does not end the burst. */
  predicate GoesOn(len: int, beats: seq<WBeat>, k: int) {
    0 <= k < |beats| && !beats[k].last && k != len
  }

  lemma {:induction false} LengthEnded(len: int, beats: seq<WBeat>, n: nat)
    requires 0 < n <= |beats| && (beats[n - 1].last || n - 1 == len)
    requires forall k :: 0 <= k < n - 1 ==> GoesOn(len, beats, k)
    ensures BurstLength(len, beats) == n
    decreases n
  {
    if n > 1 {
      var less, rest := len - 1, beats[1..];
      assert GoesOn(len, beats, 0);
      forall k | 0 <= k < n - 2
        ensures GoesOn(less, rest, k)
      {
        assert GoesOn(len, beats, k + 1);
      }
      LengthEnded(less, rest, n - 1);
    }
  }

  lemma {:induction false} LengthOpen(len: int, beats: seq<WBeat>)
    requires forall k :: 0 <= k < |beats| ==> GoesOn(len, beats, k)
    ensures BurstLength(len, beats) == |beats|
    decreases |beats|
  {
    if |beats| > 0 {
      var less, rest := len - 1, beats[1..];
      assert GoesOn(len, beats, 0);
      forall k | 0 <= k < |rest|
        ensures GoesOn(less, rest, k)
      {
        assert GoesOn(len, beats, k + 1);
      }
      LengthOpen(less, rest);
    }
  }

  /** Ended bursts before dp, an open one at dp, and no beats after it. */
  predicate Chain(descs: seq<Desc>, dp: int) {
    forall j :: 0 <= j < |descs| ==> ChainAt(descs[j], j - dp)
  }

  predicate ChainAt(d: Desc, place: int) {
    if place < 0 then Runs.Ended(d.aw, d.beats)
    else if place == 0 then forall k :: 0 <= k < |d.beats| ==> !Terminates(d.aw, k, d.beats[k].last)
    else d.beats == []
  }

  lemma {:induction false} BeatsFromFirst(descs: seq<Desc>, n: nat)
    requires 0 < n <= |descs|
    ensures Runs.BeatsUpTo(descs, n) == descs[0].beats + Runs.BeatsUpTo(descs[1..], n - 1)
  {
    if n > 1 {
      BeatsFromFirst(descs, n - 1);
    } else {
      assert Runs.BeatsUpTo(descs, 0) == [] && Runs.BeatsUpTo(descs[1..], 0) == [];
    }
  }

  lemma {:induction false} NoBeats(descs: seq<Desc>, n: nat)
    requires n <= |descs| && forall j :: 0 <= j < n ==> descs[j].beats == []
    ensures Runs.BeatsUpTo(descs, n) == []
  {
    if n > 0 {
      NoBeats(descs, n - 1);
    }
  }

  lemma FirstLength(descs: seq<Desc>, dp: int, more: seq<WBeat>)
    requires |descs| > 0 && Chain(descs, dp) && (dp <= 0 ==> more == [])
    ensures BurstLength(descs[0].aw.len, descs[0].beats + more) == |descs[0].beats|
  {
    var d := descs[0];
    assert ChainAt(d, 0 - dp);
    if dp > 0 {
      var all := d.beats + more;
      forall k | 0 <= k < |d.beats| - 1
        ensures GoesOn(d.aw.len, all, k)
      {
        assert all[k] == d.beats[k];
        assert !Terminates(d.aw, k, d.beats[k].last);
      }
      LengthEnded(d.aw.len, all, |d.beats|);
    } else {
      assert d.beats + more == d.beats;
      forall k | 0 <= k < |d.beats|
        ensures GoesOn(d.aw.len, d.beats, k)
      {
        assert dp == 0 ==> !Terminates(d.aw, k, d.beats[k].last);
      }
      LengthOpen(d.aw.len, d.beats);
    }
  }

  lemma {:induction false} CutIsHistory(descs: seq<Desc>, dp: int)
    requires Chain(descs, dp)
    ensures Cut(Runs.Addresses(descs), Runs.AllBeats(descs)) == WritesOf(descs)
    decreases |descs|
  {
    if |descs| > 0 {
      ChainTail(descs, dp);
      CutIsHistory(descs[1..], dp - 1);
      FirstLength(descs, dp, Runs.AllBeats(descs[1..]));
      CutFirst(descs[0].aw, Runs.Addresses(descs[1..]), descs[0].beats, Runs.AllBeats(descs[1..]));
      FirstApart(descs);
    }
  }

  lemma FirstApart(descs: seq<Desc>)
    requires |descs| > 0
    ensures Runs.Addresses(descs) == [descs[0].aw] + Runs.Addresses(descs[1..])
    ensures Runs.AllBeats(descs) == descs[0].beats + Runs.AllBeats(descs[1..])
    ensures WritesOf(descs) == [Write(descs[0].aw, descs[0].beats)] + WritesOf(descs[1..])
  {
    BeatsFromFirst(descs, |descs|);
  }

  lemma CutFirst(a: Aw, others: seq<Aw>, beats: seq<WBeat>, more: seq<WBeat>)
    requires BurstLength(a.len, beats + more) == |beats|
    ensures Cut([a] + others, beats + more) == [Write(a, beats)] + Cut(others, more)
  {
    assert ([a] + others)[1..] == others;
    assert (beats + more)[..|beats|] == beats && (beats + more)[|beats|..] == more;
  }

  lemma ChainTail(descs: seq<Desc>, dp: int)
    requires |descs| > 0 && Chain(descs, dp)
    ensures Chain(descs[1..], dp - 1)
    ensures dp <= 0 ==> Runs.AllBeats(descs[1..]) == []
  {
    forall j | 0 <= j < |descs[1..]|
      ensures ChainAt(descs[1..][j], j - (dp - 1))
    {
      assert ChainAt(descs[j + 1], j + 1 - dp);
    }
    if dp <= 0 {
      forall j | 0 <= j < |descs[1..]|
        ensures descs[1..][j].beats == []
      {
        assert ChainAt(descs[j + 1], j + 1 - dp);
      }
      NoBeats(descs[1..], |descs[1..]|);
    }
  }

  lemma HistoryChains(mem: Memory, ins: seq<Stimulus>)
    ensures Chain(Runs.History(mem, ins).descs, Runs.History(mem, ins).dp)
  {
    var q := Runs.History(mem, ins);
    Runs.HistoryStreams(mem, ins);
    forall j | 0 <= j < |q.descs|
      ensures ChainAt(q.descs[j], j - q.dp)
    {
      assert Runs.StreamedAt(q.descs[j], j < q.dp);
      assert FlagsAt(q, j);
    }
  }

  /** The writes of a run, read off its bus, are its history. */
  lemma {:induction false} WritesOnAre(mem: Memory, ins: seq<Stimulus>)
    requires Runs.NeverLaps(mem, ins)
    ensures WritesOn(mem, ins) == WritesOf(Runs.History(mem, ins).descs)
  {
    Bus.TakenIsRecorded(mem, ins);
    HistoryChains(mem, ins);
    CutIsHistory(Runs.History(mem, ins).descs, Runs.History(mem, ins).dp);
  }

  // ---------------------------------------------------------------- bytes

  lemma KeptIsCovered(w: Write)
    requires Served(w.aw)
    ensures Covered(w.aw, w.beats) == if Kept(w) < 0 then 0 else Kept(w)
  {
    ServedIsLegal(w.aw);
  }

  /** No burst takes more beats than its length calls for. */
  predicate Within(w: Write) {
    |w.beats| <= w.aw.len + 1
  }

  lemma ChainedWithin(d: Desc, place: int)
    requires ChainAt(d, place)
    ensures Within(Write(d.aw, d.beats))
  {
    if |d.beats| > d.aw.len + 1 {
      assert Terminates(d.aw, d.aw.len, d.beats[d.aw.len].last);
    }
  }

  /** Strobed lane b of beat i is stored at x. */
  predicate Covers(d: Desc, i: int, b: int, x: int) {
    0 <= i < Covered(d.aw, d.beats) && Hits(d.beats[i].half, Start(d.aw) + 16 * i, b, x)
  }

  lemma StoresIff(d: Desc, i: int, b: int, x: int)
    requires Within(Write(d.aw, d.beats))
    ensures Covers(d, i, b, x) <==> Stores(Write(d.aw, d.beats), i, b, x)
  {
    ServedIsLegal(d.aw);
    if Served(d.aw) {
      KeptIsCovered(Write(d.aw, d.beats));
    }
  }

  lemma OneLane(h: Half, at: int, b: int, c: int, x: int)
    requires Hits(h, at, b, x) && Hits(h, at, c, x)
    ensures b == c
  {
    SameAddress(at, b, c);
  }

  /** Lane c of beat m of a burst at `addr` is the byte at x. */
  predicate BeatHits16(addr: int, beats: seq<WBeat>, m: int, c: int, x: int) {
    0 <= m < |beats| && Hits(beats[m].half, addr + 16 * m, c, x)
  }

  lemma HitBeat(prior: Byte, h: Half, at: int, b: int, x: int)
    requires Hits(h, at, b, x)
    ensures AfterBeat(prior, h, at, x) == h.data[b]
  {
    forall c | Hits(h, at, c, x)
      ensures c == b
    {
      OneLane(h, at, b, c, x);
    }
  }

  lemma MissedLast(prior: Byte, addr: int, beats: seq<WBeat>, n: nat, x: int)
    requires n + 1 == |beats| && forall c :: !BeatHits16(addr, beats, n, c, x)
    ensures LatestIn(prior, addr, beats, x) == LatestIn(prior, addr, beats[..n], x)
  {
    var h, at := beats[n].half, addr + 16 * n;
    forall c
      ensures !Hits(h, at, c, x)
    {
      assert !BeatHits16(addr, beats, n, c, x);
    }
  }

  lemma {:induction false} InBurst(prior: Byte, addr: int, beats: seq<WBeat>, i: nat, b: nat, x: int)
    requires BeatHits16(addr, beats, i, b, x)
    requires forall m, c :: i < m ==> !BeatHits16(addr, beats, m, c, x)
    ensures LatestIn(prior, addr, beats, x) == beats[i].half.data[b]
    decreases |beats|
  {
    var n := |beats| - 1;
    if i < n {
      MissedLast(prior, addr, beats, n, x);
      forall m, c | i < m
        ensures !BeatHits16(addr, beats[..n], m, c, x)
      {
        assert !BeatHits16(addr, beats, m, c, x);
      }
      InBurst(prior, addr, beats[..n], i, b, x);
    } else {
      HitBeat(LatestIn(prior, addr, beats[..n], x), beats[n].half, addr + 16 * n, b, x);
    }
  }

  lemma {:induction false} OutsideBurst(prior: Byte, addr: int, beats: seq<WBeat>, x: int)
    requires forall m, c :: !BeatHits16(addr, beats, m, c, x)
    ensures LatestIn(prior, addr, beats, x) == prior
    decreases |beats|
  {
    if |beats| > 0 {
      var n := |beats| - 1;
      MissedLast(prior, addr, beats, n, x);
      forall m, c
        ensures !BeatHits16(addr, beats[..n], m, c, x)
      {
        assert !BeatHits16(addr, beats, m, c, x);
      }
      OutsideBurst(prior, addr, beats[..n], x);
    }
  }

  /** The beats that reach memory, as the specification of the write path stores them. */
  function KeptBeats(d: Desc): seq<WBeat> {
    d.beats[..Covered(d.aw, d.beats)]
  }

  lemma KeptHits(d: Desc, m: int, c: int, x: int)
    requires Within(Write(d.aw, d.beats))
    ensures BeatHits16(Start(d.aw), KeptBeats(d), m, c, x) <==> Stores(Write(d.aw, d.beats), m, c, x)
  {
    StoresIff(d, m, c, x);
  }

  /** A write stores a byte at most once. */
  lemma StoresOnce(w: Write, i: int, b: int, m: int, c: int, x: int)
    requires Stores(w, i, b, x) && Stores(w, m, c, x)
    ensures i == m && b == c
  {
  }

  lemma StoringBurst(prior: Byte, d: Desc, i: nat, b: nat, x: int)
    requires Within(Write(d.aw, d.beats)) && Stores(Write(d.aw, d.beats), i, b, x)
    ensures LatestIn(prior, Start(d.aw), KeptBeats(d), x) == d.beats[i].half.data[b]
  {
    KeptHits(d, i, b, x);
    forall m, c | i < m
      ensures !BeatHits16(Start(d.aw), KeptBeats(d), m, c, x)
    {
      KeptHits(d, m, c, x);
      if Stores(Write(d.aw, d.beats), m, c, x) {
        StoresOnce(Write(d.aw, d.beats), i, b, m, c, x);
      }
    }
    InBurst(prior, Start(d.aw), KeptBeats(d), i, b, x);
  }

  lemma PassingBurst(prior: Byte, d: Desc, x: int)
    requires Within(Write(d.aw, d.beats)) && forall i, b :: !Stores(Write(d.aw, d.beats), i, b, x)
    ensures LatestIn(prior, Start(d.aw), KeptBeats(d), x) == prior
  {
    forall m, c
      ensures !BeatHits16(Start(d.aw), KeptBeats(d), m, c, x)
    {
      KeptHits(d, m, c, x);
    }
    OutsideBurst(prior, Start(d.aw), KeptBeats(d), x);
  }

  predicate AllWithin(descs: seq<Desc>) {
    forall j :: 0 <= j < |descs| ==> Within(Write(descs[j].aw, descs[j].beats))
  }

  lemma {:induction false} LastStored(mem: Memory, descs: seq<Desc>, j: nat, i: nat, b: nat, x: int)
    requires AllWithin(descs) && StoresLast(WritesOf(descs), j, i, b, x)
    ensures Latest(mem, descs, x) == descs[j].beats[i].half.data[b]
    decreases |descs|
  {
    var n := |descs| - 1;
    var front := descs[..n];
    if j == n {
      StoringBurst(Latest(mem, front, x), descs[n], i, b, x);
    } else {
      assert forall i', b' :: !Stores(WritesOf(descs)[n], i', b', x);
      PassingBurst(Latest(mem, front, x), descs[n], x);
      assert forall k :: 0 <= k < n ==> WritesOf(front)[k] == WritesOf(descs)[k];
      LastStored(mem, front, j, i, b, x);
    }
  }

  lemma {:induction false} NothingStored(mem: Memory, descs: seq<Desc>, x: int)
    requires AllWithin(descs) && NeverStored(WritesOf(descs), x)
    ensures Latest(mem, descs, x) == Load(mem, x)
    decreases |descs|
  {
    if |descs| > 0 {
      var n := |descs| - 1;
      assert forall i, b :: !Stores(WritesOf(descs)[n], i, b, x);
      PassingBurst(Latest(mem, descs[..n], x), descs[n], x);
      assert forall k :: 0 <= k < n ==> WritesOf(descs[..n])[k] == WritesOf(descs)[k];
      NothingStored(mem, descs[..n], x);
    }
  }

  lemma LatestIsLatest(mem: Memory, descs: seq<Desc>, x: int)
    requires AllWithin(descs)
    ensures IsLatest(mem, WritesOf(descs), x, Latest(mem, descs, x))
  {
    forall j, i, b | StoresLast(WritesOf(descs), j, i, b, x)
      ensures Latest(mem, descs, x) == WritesOf(descs)[j].beats[i].half.data[b]
    {
      LastStored(mem, descs, j, i, b, x);
    }
    if NeverStored(WritesOf(descs), x) {
      NothingStored(mem, descs, x);
    }
  }

  lemma HistoryWithin(mem: Memory, ins: seq<Stimulus>)
    ensures AllWithin(Runs.History(mem, ins).descs)
  {
    var q := Runs.History(mem, ins);
    HistoryChains(mem, ins);
    forall j | 0 <= j < |q.descs|
      ensures Within(Write(q.descs[j].aw, q.descs[j].beats))
    {
      ChainedWithin(q.descs[j], j - q.dp);
    }
  }

  // ---------------------------------------------------------------- writes

  /** After every run of writes that never laps and has emptied its skid: each byte of memory
      is the strobed lane that the latest served write put there, lane b of beat i of a write
      at `addr` going to addr / 16 * 16 + 16 * i + b, and the initial one if none did.  Writes
      of one to four bytes and aligned 16-byte bursts are served; all others store nothing. */
  lemma {:induction false} EveryByteStored(mem: Memory, ins: seq<Stimulus>, x: int)
    requires Runs.NeverLaps(mem, ins) && Runs.Run(Runs.Start0(mem), ins).r.skidCnt == 0
    ensures IsLatest(mem, WritesOn(mem, ins), x, ByteOf(Runs.Run(Runs.Start0(mem), ins).mem, x))
  {
    var descs := Runs.History(mem, ins).descs;
    Runs.WritesPreserveMeaning(mem, ins);
    WritesOnAre(mem, ins);
    HistoryWithin(mem, ins);
    SpecByte(mem, descs, x);
    LatestIsLatest(mem, descs, x);
  }

  // ---------------------------------------------------------------- responses

  datatype Response = Response(id: int, okay: bool)

  /** The responses handed over in a run. */
  function ResponsesOn(mem: Memory, ins: seq<Stimulus>): seq<Response>
    decreases |ins|
  {
    if |ins| == 0 then []
    else
      var x, i := Runs.Run(Runs.Start0(mem), ins[..|ins| - 1]), ins[|ins| - 1];
      var s := x.r.slots[x.r.commitPtr];
      ResponsesOn(mem, ins[..|ins| - 1])
      + if Ring.SBvalid(x.r) && i.bready then [Response(s.id, s.ok)] else []
  }

  function Expected(d: Desc): Response {
    Response(d.aw.id, Served(d.aw) && WellFramed(Write(d.aw, d.beats)))
  }

  lemma ExpectedStays(q: Queue, i: Stimulus, j: nat)
    requires Inv(q) && j < q.dp && j < |q.descs|
    ensures j < |Step(q, i).descs| && Expected(Step(q, i).descs[j]) == Expected(q.descs[j])
  {
    Refinement.StepCounts(q, i);
    Runs.StepDesc(q, i, j);
  }

  /** What a response says of the oldest unanswered write. */
  lemma ResponseExpected(r: Ring.Ring, q: Queue)
    requires Inv(q) && Refinement.Rep(r, q) && Runs.Streamed(q) && Ring.SBvalid(r)
    ensures q.cp < q.dp && q.cp < |q.descs|
    ensures Response(r.slots[r.commitPtr].id, r.slots[r.commitPtr].ok) == Expected(q.descs[q.cp])
  {
    Bus.AnsweredIsStored(r, q);
    ServedIsLegal(q.descs[q.cp].aw);
    assert Refinement.At(r, q.cp) == Refinement.SlotOf(q.descs[q.cp]);
    assert FlagsAt(q, q.cp);
  }

  predicate Responded(q: Queue, given: seq<Response>) {
    |given| == q.cp <= |q.descs| && forall j :: 0 <= j < q.cp ==> given[j] == Expected(q.descs[j])
  }

  /** One more response exactly if the registers hand one over. */
  lemma CommitCounts(r: Ring.Ring, q: Queue, i: Stimulus)
    requires Inv(q) && Refinement.Rep(r, q)
    ensures Step(q, i).cp == q.cp + Bit(Ring.SBvalid(r) && i.bready)
    ensures |q.descs| <= |Step(q, i).descs| && q.cp <= q.dp
  {
    Refinement.StepCounts(q, i);
    Refinement.CommitWires(r, q, i);
  }

  lemma NewResponse(r: Ring.Ring, q: Queue, i: Stimulus)
    requires Inv(q) && Refinement.Rep(r, q) && Runs.Streamed(q) && Ring.SBvalid(r)
    ensures q.cp < |Step(q, i).descs|
    ensures Response(r.slots[r.commitPtr].id, r.slots[r.commitPtr].ok) == Expected(Step(q, i).descs[q.cp])
  {
    ResponseExpected(r, q);
    ExpectedStays(q, i, q.cp);
  }

  lemma RespondedGrows(q: Queue, q': Queue, given: seq<Response>, more: seq<Response>)
    requires Responded(q, given) && q'.cp == q.cp + |more| <= |q'.descs| && |more| <= 1
    requires forall j :: 0 <= j < q.cp ==> Expected(q'.descs[j]) == Expected(q.descs[j])
    requires |more| == 1 ==> more[0] == Expected(q'.descs[q.cp])
    ensures Responded(q', given + more)
  {
  }

  lemma RespondStep(r: Ring.Ring, q: Queue, i: Stimulus, given: seq<Response>, more: seq<Response>)
    requires Inv(q) && Refinement.Rep(r, q) && Runs.Streamed(q) && Responded(q, given)
    requires var s := r.slots[r.commitPtr];
             more == if Ring.SBvalid(r) && i.bready then [Response(s.id, s.ok)] else []
    ensures Responded(Step(q, i), given + more)
  {
    CommitCounts(r, q, i);
    forall j | 0 <= j < q.cp
      ensures Expected(Step(q, i).descs[j]) == Expected(q.descs[j])
    {
      ExpectedStays(q, i, j);
    }
    if Ring.SBvalid(r) {
      NewResponse(r, q, i);
    }
    RespondedGrows(q, Step(q, i), given, more);
  }

  lemma {:induction false} HistoryResponds(mem: Memory, ins: seq<Stimulus>)
    requires Runs.NeverLaps(mem, ins)
    ensures Responded(Runs.History(mem, ins), ResponsesOn(mem, ins))
    decreases |ins|
  {
    if |ins| > 0 {
      var front := ins[..|ins| - 1];
      HistoryResponds(mem, front);
      Runs.RunTracks(mem, front);
      Runs.HistoryStreams(mem, front);
      var r, i := Runs.Run(Runs.Start0(mem), front).r, ins[|ins| - 1];
      var s := r.slots[r.commitPtr];
      RespondStep(r, Runs.History(mem, front), i, ResponsesOn(mem, front),
                  if Ring.SBvalid(r) && i.bready then [Response(s.id, s.ok)] else []);
    }
  }

  /** In every run that never laps the j-th response carries the id of the j-th write and is
      OKAY exactly if that write is served and came with all its beats and WLAST on the last
      only. */
  lemma {:induction false} EveryResponseTrue(mem: Memory, ins: seq<Stimulus>, j: nat)
    requires Runs.NeverLaps(mem, ins) && j < |ResponsesOn(mem, ins)|
    ensures j < |WritesOn(mem, ins)|
    ensures var w := WritesOn(mem, ins)[j];
            ResponsesOn(mem, ins)[j] == Response(w.aw.id, Served(w.aw) && WellFramed(w))
  {
    HistoryResponds(mem, ins);
    WritesOnAre(mem, ins);
  }

  // ---------------------------------------------------------------- reads

  /** Beat i of the answer to a read, after the writes `ws` to memory `mem`. */
  ghost predicate Answers16(mem: Memory, ws: seq<Write>, a: Aw, i: nat, beat: RBeat) {
    beat.id == a.id && (beat.last <==> i == a.len) && |beat.data| == 16 && (beat.ok <==> Served(a))
    && forall b :: 0 <= b < 16 ==>
         if Served(a) then IsLatest(mem, ws, a.addr / 16 * 16 + 16 * i + b, beat.data[b]) else beat.data[b] == 0
  }

  lemma AnswerByte(mem: Memory, descs: seq<Desc>, a: Aw, i: nat, b: nat, x: int)
    requires AllWithin(descs) && i <= a.len && b < 16 && Served(a) && x == a.addr / 16 * 16 + 16 * i + b
    ensures IsLatest(mem, WritesOf(descs), x, Answer(SpecMem(mem, descs), a, i).data[b])
  {
    AnswerLane(SpecMem(mem, descs), a, i, b, x);
    SpecByte(mem, descs, x);
    LatestIsLatest(mem, descs, x);
  }

  lemma AnswerLane(m: Memory, a: Aw, i: nat, b: nat, x: int)
    requires i <= a.len && b < 16 && Served(a) && x == a.addr / 16 * 16 + 16 * i + b
    ensures Answer(m, a, i).data[b] == Load(m, x)
  {
    ServedIsLegal(a);
    assert LaneAddress(Start(a) + 16 * i, b) == x;
  }

  lemma AnswerIs(mem: Memory, descs: seq<Desc>, a: Aw, i: nat)
    requires AllWithin(descs) && i <= a.len
    ensures Answers16(mem, WritesOf(descs), a, i, Answer(SpecMem(mem, descs), a, i))
  {
    ServedIsLegal(a);
    forall b | 0 <= b < 16 && Served(a)
      ensures IsLatest(mem, WritesOf(descs), a.addr / 16 * 16 + 16 * i + b, Answer(SpecMem(mem, descs), a, i).data[b])
    {
      AnswerByte(mem, descs, a, i, b, a.addr / 16 * 16 + 16 * i + b);
    }
  }

  /** The memory m that a run of writes leaves. */
  predicate LeftAs(mem: Memory, writes: seq<Stimulus>, m: Memory) {
    Runs.NeverLaps(mem, writes) && Runs.Run(Runs.Start0(mem), writes).r.skidCnt == 0
    && m == Runs.Run(Runs.Start0(mem), writes).mem
  }

  /** Every run of writes followed by every run of reads: beat i of the answer to the r-th
      read taken, once handed over, comes after the len + 1 beats of each read before it,
      with the read's id and RLAST on its last beat.  If the read is one of one to four bytes
      or an aligned 16-byte burst it is OKAY and byte b is the one last stored at
      addr / 16 * 16 + 16 * i + b; otherwise it is an error of zeros. */
  lemma {:induction false} EveryReadTrue(
    mem: Memory, writes: seq<Stimulus>, m: Memory, ins: seq<ReadStimulus>, r: nat, i: nat)
    requires LeftAs(mem, writes, m)
    requires r < |RingAccepted(ins, m)| && i <= RingAccepted(ins, m)[r].len
    requires Offset(RingAccepted(ins, m), r) + i < |RingReceived(ins, m)|
    ensures Answers16(mem, WritesOn(mem, writes), RingAccepted(ins, m)[r], i,
                      RingReceived(ins, m)[Offset(RingAccepted(ins, m), r) + i])
  {
    RingReceivedAt(ins, m, RingAccepted(ins, m), RingReceived(ins, m), r, i);
    ReadsAfter(mem, writes, m, RingAccepted(ins, m)[r], i);
  }

  lemma {:induction false} RingReceivedAt(
    ins: seq<ReadStimulus>, m: Memory, ars: seq<Aw>, got: seq<RBeat>, r: nat, i: nat)
    requires ars == RingAccepted(ins, m) && got == RingReceived(ins, m)
    requires r < |ars| && i <= ars[r].len && Offset(ars, r) + i < |got|
    ensures got[Offset(ars, r) + i] == Answer(m, ars[r], i)
  {
    RingSame(ins, m);
    ReceivedAt(ins, m, r, i);
  }

  lemma {:induction false} RingSame(ins: seq<ReadStimulus>, m: Memory)
    ensures RingAccepted(ins, m) == Accepted(ins, m) && RingReceived(ins, m) == Received(ins, m)
  {
    RingIsQueue(ins, m);
  }

  lemma {:induction false} ReadsAfter(mem: Memory, writes: seq<Stimulus>, m: Memory, a: Aw, i: nat)
    requires LeftAs(mem, writes, m) && i <= a.len
    ensures Answers16(mem, WritesOn(mem, writes), a, i, Answer(m, a, i))
  {
    WritesOnAre(mem, writes);
    HistoryWithin(mem, writes);
    LeftIsSpec(mem, writes, Runs.History(mem, writes).descs, m);
    AnswerIs(mem, Runs.History(mem, writes).descs, a, i);
  }

  /** Traffic of served, well-framed writes never laps, so for it all of the above holds. */
  lemma {:induction false} ServedTrafficIsSafe(mem: Memory, ins: seq<Stimulus>)
    requires forall j :: 0 <= j < |Runs.History(mem, ins).descs| ==> ServedSoFar(Runs.History(mem, ins), j)
    ensures Runs.NeverLaps(mem, ins)
  {
    var q := Runs.History(mem, ins);
    forall j | 0 <= j < |q.descs|
      ensures Lap.LegalAt(q, j)
    {
      assert ServedSoFar(q, j);
      ServedIsLegal(q.descs[j].aw);
    }
    Lap.LegalTrafficNeverLaps(mem, ins);
  }

  predicate ServedSoFar(q: Queue, j: nat)
    requires j < |q.descs|
  {
    Served(q.descs[j].aw) && (j < q.dp ==> WellFramed(Write(q.descs[j].aw, q.descs[j].beats)))
  }
}
