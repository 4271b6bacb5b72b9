/** Whole-run theorems about the bridge's write path in front of the memory model. */
module MigWriteTheorems {
  import opened Bits
  import opened Bytes
  import opened MigModel
  import opened MigWriteQueue
  import opened MigWriteInvariant
  import opened MigWriteRing
  import opened MigWriteRefinement

  /** The bridge's registers and the memory model behind them. */
  datatype System = System(r: Ring, mem: Memory, w: WriteSide)

  function Start0(mem: Memory): System {
    System(RESET, mem, IDLE_WRITE)
  }

  function BusOf(r: Ring, p: Pins): MigModel.Inputs {
    var s := r.slots[r.awPtr];
    MigModel.Inputs(
      r.awPresenting, s.addr % TWO_31 / 32 * 32, (s.migBeats - 1) % 256,
      MWvalid(r, p), SkidHead(r).beat, true,
      false, 0, 0, false)
  }

  function Clock(x: System, i: Stimulus): System {
    var m := Mig(x.mem, x.w, IDLE_READ);
    var o := Drive(m, Stalls(i.awStall, i.wStall, false));
    var p := Pins(i, o.awready, o.wready, o.bvalid);
    var m' := AdvanceWrite(m, o, BusOf(x.r, p));
    System(Next(x.r, p), m'.mem, m'.w)
  }

  function Run(x: System, ins: seq<Stimulus>): System
    decreases |ins|
  {
    if |ins| == 0 then x else Clock(Run(x, ins[..|ins| - 1]), ins[|ins| - 1])
  }

  /** The same run on the unrolled queue. */
  function History(mem: Memory, ins: seq<Stimulus>): (q: Queue)
    ensures Inv(q) && Contents(q, mem)
    decreases |ins|
  {
    if |ins| == 0 then
      InitiallyKept(mem);
      Reset(mem)
    else
      var q := History(mem, ins[..|ins| - 1]);
      StepKeeps(q, ins[|ins| - 1]);
      StepContents(q, ins[|ins| - 1], mem);
      Step(q, ins[|ins| - 1])
  }

  lemma InitiallyKept(mem: Memory)
    ensures Inv(Reset(mem)) && Contents(Reset(mem), mem)
  {
  }

  /** The address pointer never laps the ring in the course of the run. */
  predicate NeverLaps(mem: Memory, ins: seq<Stimulus>)
    decreases |ins|
  {
    |ins| > 0 ==> NeverLaps(mem, ins[..|ins| - 1]) && !Laps(History(mem, ins[..|ins| - 1]))
  }

  // ---------------------------------------------------------------- the memory model follows

  function ShakenSide(q: Queue): WriteSide
    requires q.aw < |q.descs|
  {
    var a := q.descs[q.aw].aw;
    TakeAw(TakeB(q.w, q.w.bPending), true, Base(a), MigBeats(a) - 1)
  }

  lemma DrainedMemory(q: Queue, i: Stimulus)
    requires ControllerState(q)
    ensures var d := Drained(q, i);
            d.mem == (if CanPop(q, i) then WriteBeat(q.mem, q.w.wAddr, q.log[q.popped].beat) else q.mem)
            && d.w == (if CanPop(q, i) then TakeW(q.w, true) else TakeB(q.w, q.w.bPending))
  {
  }

  lemma StageMemory(q: Queue, shakes: bool, skips: bool, wants: bool)
    ensures var s := AwStage(q, shakes, skips, wants);
            s.mem == q.mem
            && s.w == if shakes && q.aw < |q.descs| then
                        TakeAw(q.w, true, Base(q.descs[q.aw].aw), MigBeats(q.descs[q.aw].aw) - 1)
                      else q.w
  {
  }

  lemma RestMemory(m: Queue, commits: bool, accepts: bool, i: Stimulus)
    ensures var t := Accept(Commit(m, commits), accepts, i.aw);
            t.mem == m.mem && t.w == m.w
            && (PadState(t) ==> Fill(t, i).mem == m.mem && Fill(t, i).w == m.w)
  {
  }

  lemma MemorySideMemory(q: Queue, i: Stimulus)
    requires ControllerState(q) && Presenting(q)
    ensures var m := MemorySide(q, i);
            m.mem == (if CanPop(q, i) then WriteBeat(q.mem, q.w.wAddr, q.log[q.popped].beat) else q.mem)
            && m.w == if CanPop(q, i) then TakeW(q.w, true)
                      else if AwShakes(q, i) then ShakenSide(q)
                      else TakeB(q.w, q.w.bPending)
  {
    DrainedMemory(q, i);
    DrainedShape(q, i);
    if q.aw < |q.descs| {
      DrainedDesc(q, i, q.aw);
    }
    StageMemory(Drained(q, i), AwShakes(q, i), AwSkips(q), AwWants(q));
  }

  lemma StepMemory(q: Queue, i: Stimulus)
    requires Inv(q)
    ensures Step(q, i).mem == (if CanPop(q, i) then WriteBeat(q.mem, q.w.wAddr, q.log[q.popped].beat) else q.mem)
    ensures Step(q, i).w ==
            if CanPop(q, i) then TakeW(q.w, true)
            else if AwShakes(q, i) then ShakenSide(q)
            else TakeB(q.w, q.w.bPending)
  {
    TurnoverKeeps(q, i);
    MemorySideMemory(q, i);
    RestMemory(MemorySide(q, i), CommitReady(q) && i.bready, i.awValid && AwReady(q), i);
  }

  lemma CyclePops(x: System, q: Queue, i: Stimulus)
    requires Inv(q) && Rep(x.r, q) && !Laps(q) && x.mem == q.mem && x.w == q.w && CanPop(q, i)
    ensures Clock(x, i).mem == WriteBeat(q.mem, q.w.wAddr, q.log[q.popped].beat)
    ensures Clock(x, i).w == TakeW(q.w, true)
  {
    DrainWires(x.r, q, i);
  }

  lemma CycleShakes(x: System, q: Queue, i: Stimulus)
    requires Inv(q) && Rep(x.r, q) && !Laps(q) && x.mem == q.mem && x.w == q.w && AwShakes(q, i)
    ensures Clock(x, i).mem == q.mem && Clock(x, i).w == ShakenSide(q)
  {
    assert At(x.r, q.aw) == SlotOf(q.descs[q.aw]);
  }

  lemma CycleRests(x: System, q: Queue, i: Stimulus)
    requires Inv(q) && Rep(x.r, q) && !Laps(q) && x.mem == q.mem && x.w == q.w
    requires !CanPop(q, i) && !AwShakes(q, i)
    ensures Clock(x, i).mem == q.mem && Clock(x, i).w == TakeB(q.w, q.w.bPending)
  {
    AddressWires(x.r, q, i);
    DrainWires(x.r, q, i);
  }

  /** The memory model follows the queue's account of it. */
  lemma ControllerFollows(x: System, q: Queue, i: Stimulus)
    requires Inv(q) && Rep(x.r, q) && !Laps(q) && x.mem == q.mem && x.w == q.w
    ensures Clock(x, i).mem == Step(q, i).mem && Clock(x, i).w == Step(q, i).w
  {
    StepMemory(q, i);
    if CanPop(q, i) {
      CyclePops(x, q, i);
    } else if AwShakes(q, i) {
      CycleShakes(x, q, i);
    } else {
      CycleRests(x, q, i);
    }
  }

  // ---------------------------------------------------------------- the run is tracked

  predicate Tracks(x: System, q: Queue) {
    Rep(x.r, q) && x.mem == q.mem && x.w == q.w
  }

  lemma CycleTracks(x: System, q: Queue, i: Stimulus)
    requires Inv(q) && Tracks(x, q) && !Laps(q)
    ensures Tracks(Clock(x, i), Step(q, i))
  {
    NextRep(x.r, q, i);
    ControllerFollows(x, q, i);
  }

  lemma {:induction false} RunUnfolds(x: System, ins: seq<Stimulus>, i: Stimulus)
    ensures Run(x, ins + [i]) == Clock(Run(x, ins), i)
  {
    assert (ins + [i])[..|ins|] == ins;
  }

  lemma {:induction false} TracksLast(mem: Memory, ins: seq<Stimulus>)
    requires |ins| > 0
    requires Tracks(Run(Start0(mem), ins[..|ins| - 1]), History(mem, ins[..|ins| - 1]))
    requires !Laps(History(mem, ins[..|ins| - 1]))
    ensures Tracks(Run(Start0(mem), ins), History(mem, ins))
  {
    CycleTracks(Run(Start0(mem), ins[..|ins| - 1]), History(mem, ins[..|ins| - 1]), ins[|ins| - 1]);
  }

  /** In a run that never laps, the registers are a faithful image of the unrolled queue:
      in particular the shadow registers equal what they shadow in every state. */
  lemma {:induction false} RunTracks(mem: Memory, ins: seq<Stimulus>)
    requires NeverLaps(mem, ins)
    ensures Tracks(Run(Start0(mem), ins), History(mem, ins))
    decreases |ins|
  {
    if |ins| == 0 {
      InitiallyTracks(mem);
    } else {
      RunTracks(mem, ins[..|ins| - 1]);
      TracksLast(mem, ins);
    }
  }

  lemma InitiallyTracks(mem: Memory)
    ensures Tracks(Start0(mem), Reset(mem))
  {
  }

  lemma {:induction false} LogMemAppend(mem: Memory, a: seq<LogBeat>, b: seq<LogBeat>)
    ensures LogMem(mem, a + b) == LogMem(LogMem(mem, a), b)
    decreases |b|
  {
    if |b| == 0 {
      assert a + b == a;
    } else {
      var n := |b| - 1;
      assert (a + b)[..|a| + n] == a + b[..n];
      LogMemAppend(mem, a, b[..n]);
    }
  }

  lemma {:induction false} SkidCompletes(q: Queue, mem: Memory)
    requires Contents(q, mem)
    ensures LogMem(q.mem, q.log[q.popped..]) == SpecMem(mem, q.descs)
    ensures |q.log| == q.popped ==> q.mem == SpecMem(mem, q.descs)
  {
    assert q.log[..q.popped] + q.log[q.popped..] == q.log;
    LogMemAppend(mem, q.log[..q.popped], q.log[q.popped..]);
    assert |q.log| == q.popped ==> q.log[..q.popped] == q.log;
  }

  /** The memory, once the at most two beats still in the skid have followed, holds exactly
      the accepted bursts stored one after another: packing, stalls, early answers and
      padding have no other effect.  With the skid empty it already does. */
  lemma {:induction false} WritesPreserveMeaning(mem: Memory, ins: seq<Stimulus>)
    requires NeverLaps(mem, ins)
    ensures var x := Run(Start0(mem), ins);
            var q := History(mem, ins);
            q.popped <= |q.log| && |q.log| - q.popped == x.r.skidCnt <= 2
            && LogMem(x.mem, q.log[q.popped..]) == SpecMem(mem, q.descs)
            && (x.r.skidCnt == 0 ==> x.mem == SpecMem(mem, q.descs))
  {
    RunTracks(mem, ins);
    SkidCompletes(History(mem, ins), mem);
  }

  // ---------------------------------------------------------------- whose beats are whose

  lemma StepDesc(q: Queue, i: Stimulus, j: nat)
    requires Inv(q) && j < |q.descs| + Bit(Accepts(q, i))
    ensures |Step(q, i).descs| == |q.descs| + Bit(Accepts(q, i))
    ensures var d := Step(q, i).descs[j];
            var b := BaseDesc(q, i, j);
            d.aw == b.aw
            && d.beats == (if Consumes(q, i) && j == q.dp then b.beats + [i.w] else b.beats)
            && d.ok == (b.ok && (Consumes(q, i) && j == q.dp ==> WlastOk(b.aw, q.recv, i.w.last)))
  {
    var t := Turnover(q, i);
    TurnoverKeeps(q, i);
    TurnedBase(q, i, j);
    TurnedRest(q, i);
    FillsAsFires(q, i);
    FilledDesc(t, i, j);
  }

  /** A burst ends at its promised length or at the first WLAST, whichever comes first. */
  predicate Ended(a: Aw, beats: seq<WBeat>) {
    |beats| > 0 && Terminates(a, |beats| - 1, beats[|beats| - 1].last)
    && (forall k :: 0 <= k < |beats| - 1 ==> !Terminates(a, k, beats[k].last))
  }

  predicate WellFormed(a: Aw, beats: seq<WBeat>) {
    |beats| == RepoBeats(a) && (forall k :: 0 <= k < |beats| ==> beats[k].last == (k == |beats| - 1))
  }

  predicate StreamedAt(d: Desc, done: bool) {
    if done then Ended(d.aw, d.beats) && (d.ok <==> Legal(d.aw) && WellFormed(d.aw, d.beats))
    else forall k :: 0 <= k < |d.beats| ==> !Terminates(d.aw, k, d.beats[k].last)
  }

  predicate Streamed(q: Queue) {
    forall j :: 0 <= j < |q.descs| ==> StreamedAt(q.descs[j], j < q.dp)
  }

  lemma StreamedDesc(d: Desc, e: Desc, w: WBeat)
    requires StreamedAt(d, false) && e.aw == d.aw && e.beats == d.beats + [w] && d.ok == Legal(d.aw)
    requires e.ok == (d.ok && WlastOk(d.aw, |d.beats|, w.last)) && |d.beats| < RepoBeats(d.aw)
    ensures StreamedAt(e, Terminates(d.aw, |d.beats|, w.last))
  {
    forall k | 0 <= k < |d.beats|
      ensures e.beats[k] == d.beats[k] && !d.beats[k].last
    {
      assert !Terminates(d.aw, k, d.beats[k].last);
    }
  }

  lemma StreamsAt(q: Queue, i: Stimulus, j: nat)
    requires Inv(q) && Streamed(q) && j < |Step(q, i).descs|
    ensures StreamedAt(Step(q, i).descs[j], j < Step(q, i).dp)
  {
    StepCounts(q, i);
    StepDesc(q, i, j);
    if j < |q.descs| {
      assert StreamedAt(q.descs[j], j < q.dp);
      assert FlagsAt(q, j);
    }
    if Consumes(q, i) && j == q.dp {
      StreamedDesc(BaseDesc(q, i, j), Step(q, i).descs[j], i.w);
    }
  }

  lemma StepStreams(q: Queue, i: Stimulus)
    requires Inv(q) && Streamed(q)
    ensures Streamed(Step(q, i))
  {
    forall j | 0 <= j < |Step(q, i).descs|
      ensures StreamedAt(Step(q, i).descs[j], j < Step(q, i).dp)
    {
      StreamsAt(q, i, j);
    }
  }

  lemma {:induction false} HistoryStreams(mem: Memory, ins: seq<Stimulus>)
    ensures Streamed(History(mem, ins))
    decreases |ins|
  {
    if |ins| != 0 {
      HistoryStreams(mem, ins[..|ins| - 1]);
      StepStreams(History(mem, ins[..|ins| - 1]), ins[|ins| - 1]);
    }
  }

  /** The addresses the bridge took off the bus, in order. */
  function AddressesTaken(mem: Memory, ins: seq<Stimulus>): seq<Aw>
    decreases |ins|
  {
    if |ins| == 0 then []
    else
      var x := Run(Start0(mem), ins[..|ins| - 1]);
      var i := ins[|ins| - 1];
      AddressesTaken(mem, ins[..|ins| - 1]) + if AwFire(x.r, PinsOf(x.w, i)) then [i.aw] else []
  }

  /** The data beats the bridge took off the bus, in order. */
  function BeatsTaken(mem: Memory, ins: seq<Stimulus>): seq<WBeat>
    decreases |ins|
  {
    if |ins| == 0 then []
    else
      var x := Run(Start0(mem), ins[..|ins| - 1]);
      var i := ins[|ins| - 1];
      BeatsTaken(mem, ins[..|ins| - 1]) + if WFire(x.r, PinsOf(x.w, i)) then [i.w] else []
  }

  function Addresses(descs: seq<Desc>): (r: seq<Aw>)
    ensures |r| == |descs|
  {
    seq<Aw>(|descs|, j requires 0 <= j < |descs| => descs[j].aw)
  }

  function BeatsUpTo(descs: seq<Desc>, n: nat): seq<WBeat>
    requires n <= |descs|
  {
    if n == 0 then [] else BeatsUpTo(descs, n - 1) + descs[n - 1].beats
  }

  function AllBeats(descs: seq<Desc>): seq<WBeat> {
    BeatsUpTo(descs, |descs|)
  }

  lemma {:induction false} BeatsOfStarted(descs: seq<Desc>, n: nat, m: nat)
    requires n <= m <= |descs| && forall j :: n <= j < m ==> descs[j].beats == []
    ensures BeatsUpTo(descs, m) == BeatsUpTo(descs, n)
    decreases m
  {
    if n < m {
      BeatsOfStarted(descs, n, m - 1);
    }
  }

  lemma {:induction false} SameBeatsUpTo(d: seq<Desc>, e: seq<Desc>, n: nat)
    requires n <= |d| && n <= |e| && forall j :: 0 <= j < n ==> d[j].beats == e[j].beats
    ensures BeatsUpTo(d, n) == BeatsUpTo(e, n)
  {
    if n != 0 {
      SameBeatsUpTo(d, e, n - 1);
    }
  }

  function BeatsAt(descs: seq<Desc>, j: nat): seq<WBeat> {
    if j < |descs| then descs[j].beats else []
  }

  lemma BeatsAfter(q: Queue, i: Stimulus, j: nat)
    requires Inv(q) && j < |Step(q, i).descs|
    ensures |q.descs| <= |Step(q, i).descs|
    ensures Step(q, i).descs[j].beats ==
            if Consumes(q, i) && j == q.dp then BeatsAt(q.descs, j) + [i.w] else BeatsAt(q.descs, j)
  {
    StepCounts(q, i);
    StepDesc(q, i, j);
  }

  /** Only the burst at position n gains a beat. */
  lemma GrownBeats(d: seq<Desc>, e: seq<Desc>, n: nat, w: WBeat)
    requires n <= |d| <= |e| && n < |e|
    requires forall j :: 0 <= j < n ==> e[j].beats == d[j].beats
    requires e[n].beats == BeatsAt(d, n) + [w]
    requires forall j :: n < j < |d| ==> d[j].beats == []
    requires forall j :: n < j < |e| ==> e[j].beats == []
    ensures AllBeats(e) == AllBeats(d) + [w]
  {
    SameBeatsUpTo(e, d, n);
    BeatsOfStarted(e, n + 1, |e|);
    if n < |d| {
      BeatsOfStarted(d, n + 1, |d|);
      assert BeatsUpTo(d, n + 1) == BeatsUpTo(d, n) + d[n].beats;
    }
    assert BeatsUpTo(e, n + 1) == BeatsUpTo(e, n) + e[n].beats;
  }

  lemma UnstartedBeats(q: Queue)
    requires Flags(q)
    ensures forall j :: q.dp < j < |q.descs| ==> q.descs[j].beats == []
  {
    forall j | q.dp < j < |q.descs|
      ensures q.descs[j].beats == []
    {
      assert FlagsAt(q, j);
    }
  }

  lemma {:induction false} GrownAt(q: Queue, i: Stimulus, d: seq<Desc>)
    requires Inv(q) && Consumes(q, i) && d == Step(q, i).descs
    ensures q.dp <= |q.descs| <= |d| && q.dp < |d|
    ensures forall j :: 0 <= j < |d| ==>
              d[j].beats == if j == q.dp then BeatsAt(q.descs, j) + [i.w] else BeatsAt(q.descs, j)
  {
    StepCounts(q, i);
    forall j | 0 <= j < |d|
      ensures d[j].beats == if j == q.dp then BeatsAt(q.descs, j) + [i.w] else BeatsAt(q.descs, j)
    {
      BeatsAfter(q, i, j);
    }
  }

  lemma {:induction false} ConsumedBeats(q: Queue, i: Stimulus, s: Queue)
    requires Inv(q) && Consumes(q, i) && s == Step(q, i)
    ensures AllBeats(s.descs) == AllBeats(q.descs) + [i.w]
  {
    GrownAt(q, i, s.descs);
    UnstartedBeats(q);
    GrownBeats(q.descs, s.descs, q.dp, i.w);
  }

  lemma KeptBeats(d: seq<Desc>, e: seq<Desc>)
    requires |d| <= |e|
    requires forall j :: 0 <= j < |e| ==> e[j].beats == BeatsAt(d, j)
    ensures AllBeats(e) == AllBeats(d)
  {
    BeatsOfStarted(e, |d|, |e|);
    SameBeatsUpTo(e, d, |d|);
  }

  lemma UnconsumedBeats(q: Queue, i: Stimulus, s: Queue)
    requires Inv(q) && !Consumes(q, i) && s == Step(q, i)
    ensures AllBeats(s.descs) == AllBeats(q.descs)
  {
    StepCounts(q, i);
    forall j | 0 <= j < |s.descs|
      ensures s.descs[j].beats == BeatsAt(q.descs, j)
    {
      BeatsAfter(q, i, j);
    }
    KeptBeats(q.descs, s.descs);
  }
}
