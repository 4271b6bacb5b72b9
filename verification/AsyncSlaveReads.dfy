/** The slave behind the asynchronous bridge over whole runs: which response answers which
    write, and what every read receives. */
module AsyncSlaveReads {
  import opened Bits
  import opened AsyncSlave

  /** A beat on the read channel. */
  datatype ReadBeat = ReadBeat(id: int, addr: int, last: bool)

  /** The ids of the writes taken and of the responses handed over, the reads taken and the
      beats handed over. */
  datatype Log = Log(ids: seq<int>, bids: seq<int>, read: seq<RdEntry>, beats: seq<ReadBeat>)

  const AT_REST := State([], [], [], map[], false, 0, false)
  const NOTHING := Log([], [], [], [])

  /** What the slave shows while a read is pending: the word at the beat's address. */
  function Shown(s: State): ReadBeat
    requires |s.r| > 0
  {
    var e := s.r[0];
    ReadBeat(e.id, e.addr + WORD * e.beat, e.beat == e.len)
  }

  /** Only what is offered is taken. */
  predicate Offered(s: State, e: Edge) {
    (e.b ==> s.bvalid) && (e.r ==> |s.r| > 0)
  }

  function LogNext(h: Log, s: State, e: Edge): Log {
    Log(if e.aw then h.ids + [e.awEntry.id] else h.ids,
        if e.b then h.bids + [s.bid] else h.bids,
        if e.ar then h.read + [e.arEntry] else h.read,
        if e.r && |s.r| > 0 then h.beats + [Shown(s)] else h.beats)
  }

  // ---------------------------------------------------------------- responses

  /** Writes committed: answered, or being answered. */
  function Committed(s: State, h: Log): nat {
    |h.bids| + Bit(s.bvalid)
  }

  predicate Answering(s: State, h: Log) {
    Committed(s, h) + |s.aw| == |h.ids|
    && (forall j :: 0 <= j < |h.bids| ==> h.bids[j] == h.ids[j])
    && (s.bvalid ==> s.bid == h.ids[|h.bids|])
    && forall k :: 0 <= k < |s.aw| ==> s.aw[k].id == h.ids[Committed(s, h) + k]
  }

  lemma ResponseTaken(s: State, h: Log, t: State)
    requires Answering(s, h) && s.bvalid && t.aw == s.aw && !t.bvalid
    ensures Answering(t, h.(bids := h.bids + [s.bid]))
  {
  }

  lemma AddressTaken(s: State, h: Log, a: AwEntry, t: State)
    requires Answering(s, h) && t.aw == s.aw + [a] && t.bvalid == s.bvalid && t.bid == s.bid
    ensures Answering(t, h.(ids := h.ids + [a.id]))
  {
  }

  lemma WriteCommitted(s: State, h: Log)
    requires Answering(s, h)
    ensures Answering(CommitOne(s), h)
  {
    if CanCommit(s) {
      assert s.aw[0].id == h.ids[Committed(s, h) + 0];
    }
  }

  lemma AnsweringFrame(s: State, t: State, h: Log, g: Log)
    requires Answering(s, h) && t.aw == s.aw && t.bvalid == s.bvalid && t.bid == s.bid
    requires g.ids == h.ids && g.bids == h.bids
    ensures Answering(t, g)
  {
  }

  lemma AnsweringStep(s: State, h: Log, e: Edge)
    requires Answering(s, h) && Offered(s, e)
    ensures Answering(Latch(s, e), LogNext(h, s, e))
  {
    var s1 := if e.b then s.(bvalid := false) else s;
    var h1 := if e.b then h.(bids := h.bids + [s.bid]) else h;
    if e.b {
      ResponseTaken(s, h, s1);
    }
    var s2 := if e.aw then s1.(aw := s1.aw + [e.awEntry]) else s1;
    var h2 := if e.aw then h1.(ids := h1.ids + [e.awEntry.id]) else h1;
    if e.aw {
      AddressTaken(s1, h1, e.awEntry, s2);
    }
    var s3 := Capture(TakeResponses(s, e), e);
    Captured(s, e);
    AnsweringFrame(s2, s3, h2, LogNext(h, s, e));
    WriteCommitted(s3, LogNext(h, s, e));
  }

  // ---------------------------------------------------------------- reads

  /** Beat k of a read. */
  function BeatOf(a: RdEntry, k: nat): ReadBeat {
    ReadBeat(a.id, a.addr + 8 * k, k == a.len)
  }

  function BeatsOf(a: RdEntry, n: nat): (r: seq<ReadBeat>)
    ensures |r| == n
  {
    seq(n, k requires 0 <= k < n => BeatOf(a, k))
  }

  /** All len + 1 beats of each of the first n reads, one after another. */
  function WholeReads(taken: seq<RdEntry>, n: nat): seq<ReadBeat>
    requires n <= |taken|
  {
    if n == 0 then [] else WholeReads(taken, n - 1) + BeatsOf(taken[n - 1], taken[n - 1].len + 1)
  }

  /** Reads answered in full. */
  function Done(s: State, h: Log): int {
    |h.read| - |s.r|
  }

  predicate Reading(s: State, h: Log) {
    0 <= Done(s, h)
    && (forall k :: 0 <= k < |s.r| ==>
          s.r[k] == h.read[Done(s, h) + k].(beat := s.r[k].beat) && (k > 0 ==> s.r[k].beat == 0))
    && (|s.r| > 0 ==> s.r[0].beat <= s.r[0].len)
    && h.beats == WholeReads(h.read, Done(s, h)) + (if |s.r| == 0 then [] else BeatsOf(s.r[0], s.r[0].beat))
  }

  lemma {:induction false} WholeOfPrefix(taken: seq<RdEntry>, a: RdEntry, n: nat)
    requires n <= |taken|
    ensures WholeReads(taken + [a], n) == WholeReads(taken, n)
  {
    if n > 0 {
      WholeOfPrefix(taken, a, n - 1);
    }
  }

  lemma BeatsGrow(a: RdEntry, n: nat)
    ensures BeatsOf(a, n + 1) == BeatsOf(a, n) + [BeatOf(a, n)]
  {
  }

  lemma BeatsSame(a: RdEntry, b: RdEntry, n: nat)
    requires a == b.(beat := a.beat)
    ensures BeatsOf(a, n) == BeatsOf(b, n)
  {
  }

  /** A beat in the middle of a read. */
  lemma MiddleTaken(s: State, h: Log, t: State)
    requires Reading(s, h) && |s.r| > 0 && s.r[0].beat < s.r[0].len
    requires t.r == [s.r[0].(beat := s.r[0].beat + 1)] + s.r[1..]
    ensures Reading(t, h.(beats := h.beats + [Shown(s)]))
  {
    var a := s.r[0];
    BeatsGrow(a, a.beat);
    BeatsSame(t.r[0], a, a.beat + 1);
    forall k | 0 <= k < |t.r|
      ensures t.r[k] == h.read[Done(t, h) + k].(beat := t.r[k].beat) && (k > 0 ==> t.r[k].beat == 0)
    {
      assert s.r[k] == h.read[Done(s, h) + k].(beat := s.r[k].beat);
    }
  }

  /** And the one that ends it. */
  lemma LastTaken(s: State, h: Log, t: State)
    requires Reading(s, h) && |s.r| > 0 && s.r[0].beat == s.r[0].len && t.r == s.r[1..]
    ensures Reading(t, h.(beats := h.beats + [Shown(s)]))
  {
    var d, a := Done(s, h), s.r[0];
    BeatsGrow(a, a.beat);
    assert a == h.read[d + 0].(beat := a.beat);
    BeatsSame(a, h.read[d], a.len + 1);
    assert WholeReads(h.read, d + 1) == WholeReads(h.read, d) + BeatsOf(h.read[d], a.len + 1);
    NextFresh(s, h, t);
  }

  /** The part of an edge in which a beat is taken. */
  lemma BeatTaken(s: State, h: Log, e: Edge)
    requires Reading(s, h) && e.r && |s.r| > 0
    ensures Reading(TakeResponses(s, e), h.(beats := h.beats + [Shown(s)]))
  {
    if s.r[0].beat < s.r[0].len {
      MiddleTaken(s, h, TakeResponses(s, e));
    } else {
      LastTaken(s, h, TakeResponses(s, e));
    }
  }

  lemma NextFresh(s: State, h: Log, t: State)
    requires Reading(s, h) && |s.r| > 0 && t.r == s.r[1..]
    ensures forall k :: 0 <= k < |t.r| ==> t.r[k] == h.read[Done(t, h) + k].(beat := t.r[k].beat) && t.r[k].beat == 0
    ensures |t.r| > 0 ==> BeatsOf(t.r[0], 0) == []
  {
    forall k | 0 <= k < |t.r|
      ensures t.r[k] == h.read[Done(t, h) + k].(beat := t.r[k].beat) && t.r[k].beat == 0
    {
      assert t.r[k] == s.r[k + 1];
    }
  }

  /** The part in which an address is taken. */
  lemma ReadTaken(s: State, h: Log, a: RdEntry)
    requires Reading(s, h)
    ensures Reading(s.(r := s.r + [a.(beat := 0)]), h.(read := h.read + [a]))
  {
    WholeOfPrefix(h.read, a, Done(s, h));
    assert BeatsOf(a.(beat := 0), 0) == [];
  }

  lemma ReadingFrame(s: State, t: State, h: Log, g: Log)
    requires Reading(s, h) && t.r == s.r && g.read == h.read && g.beats == h.beats
    ensures Reading(t, g)
  {
  }

  lemma ReadingStep(s: State, h: Log, e: Edge)
    requires Reading(s, h) && Offered(s, e)
    ensures Reading(Latch(s, e), LogNext(h, s, e))
  {
    var s1 := TakeResponses(s, e);
    var h1 := if e.r && |s.r| > 0 then h.(beats := h.beats + [Shown(s)]) else h;
    if e.r {
      BeatTaken(s, h, e);
    } else {
      ReadingFrame(s, s1, h, h1);
    }
    var s2 := if e.ar then s1.(r := s1.r + [e.arEntry.(beat := 0)]) else s1;
    var h2 := if e.ar then h1.(read := h1.read + [e.arEntry]) else h1;
    if e.ar {
      ReadTaken(s1, h1, e.arEntry);
    }
    ReadingFrame(s2, Latch(s, e), h2, LogNext(h, s, e));
  }

  // ---------------------------------------------------------------- runs

  function RunLog(edges: seq<Edge>): (State, Log)
    decreases |edges|
  {
    if |edges| == 0 then (AT_REST, NOTHING)
    else
      var (s, h) := RunLog(edges[..|edges| - 1]);
      (Latch(s, edges[|edges| - 1]), LogNext(h, s, edges[|edges| - 1]))
  }

  predicate AllOffered(edges: seq<Edge>)
    decreases |edges|
  {
    |edges| > 0 ==>
      AllOffered(edges[..|edges| - 1]) && Offered(RunLog(edges[..|edges| - 1]).0, edges[|edges| - 1])
  }

  /** In every run response j carries the id of write j, in the order the writes were taken,
      and the beats handed over are those of the reads in order, len + 1 of each at
      consecutive words with its id and RLAST on the last only, up to the one being
      answered. */
  lemma {:induction false} EveryRunAnswers(edges: seq<Edge>)
    requires AllOffered(edges)
    ensures var (s, h) := RunLog(edges); Answering(s, h) && Reading(s, h)
    decreases |edges|
  {
    if |edges| > 0 {
      var front := edges[..|edges| - 1];
      EveryRunAnswers(front);
      AnsweringStep(RunLog(front).0, RunLog(front).1, edges[|edges| - 1]);
      ReadingStep(RunLog(front).0, RunLog(front).1, edges[|edges| - 1]);
    }
  }
}
