/** Reset recovery of the asynchronous bridge over whole runs: which burst each data beat
    that reaches the memory side is paired with, across any number of resets. */
module AsyncRecovery {
  import opened Pairing
  import opened AsyncWritePad

  /** A data beat accepted by the memory side: filler or real, and the epoch it came in. */
  datatype Fired = Fired(filler: bool, epoch: nat, data: int)

  /** All bursts forwarded, the epoch of each, and all beats accepted. */
  datatype Past = Past(bursts: seq<Burst>, born: seq<nat>, fired: seq<Fired>)

  datatype Input = Input(e: PadEvent, data: int)

  datatype Run = Run(t: Tracker, x: Expected, p: Past)

  const START := Run(TRACKER_RESET, Expected([], [], 0), Past([], [], []))

  function PastNext(p: Past, t: Tracker, epoch: nat, i: Input): Past {
    if i.e.memoryReset then Past([], [], [])
    else Past(if i.e.aw then p.bursts + [i.e.burst] else p.bursts,
              if i.e.aw then p.born + [epoch] else p.born,
              if i.e.w then p.fired + [Fired(t.padding, epoch, if t.padding then 0 else i.data)] else p.fired)
  }

  function RunNext(r: Run, i: Input): Run
    requires WellFormed(r.x) && (i.e.w ==> |r.x.beats| > 0)
  {
    Run(TrackerNext(r.t, i.e), ExpectedNext(r.x, i.e), PastNext(r.p, r.t, r.x.epoch, i))
  }

  // ---------------------------------------------------------------- the list is the pairing's remainder

  /** Position of the first burst still expecting data. */
  function First(x: Expected, p: Past): int {
    |p.bursts| - |x.beats|
  }

  predicate Remainder(x: Expected, p: Past) {
    |p.born| == |p.bursts| && |x.stamps| == |x.beats| <= |p.bursts|
    && (forall k :: 0 <= k < |x.beats| ==> x.stamps[k] == p.born[First(x, p) + k])
    && (forall k :: 0 < k < |x.beats| ==> x.beats[k] == p.bursts[First(x, p) + k].len + 1)
    && (if |x.beats| == 0 then |p.fired| == Owed(p.bursts, |p.bursts|)
        else 0 < x.beats[0] <= p.bursts[First(x, p)].len + 1
             && |p.fired| + x.beats[0] == Owed(p.bursts, First(x, p) + 1))
  }

  lemma RemainderTakes(x: Expected, p: Past, f: Fired)
    requires WellFormed(x) && Remainder(x, p) && |x.beats| > 0
    ensures Remainder(TakeBeat(x), p.(fired := p.fired + [f]))
  {
    if x.beats[0] == 1 && |x.beats| > 1 {
      assert x.beats[1] == p.bursts[First(x, p) + 1].len + 1;
    }
  }

  lemma RemainderForwards(x: Expected, p: Past, b: Burst)
    requires Remainder(x, p)
    ensures Remainder(Forward(x, b), p.(bursts := p.bursts + [b], born := p.born + [x.epoch]))
  {
    OwedOfPrefix(p.bursts, [b], |p.bursts|);
    if |x.beats| > 0 {
      OwedOfPrefix(p.bursts, [b], First(x, p) + 1);
    }
  }

  lemma RemainderFrame(x: Expected, y: Expected, p: Past)
    requires Remainder(x, p) && y.beats == x.beats && y.stamps == x.stamps
    ensures Remainder(y, p)
  {
  }

  function FiredNow(r: Run, i: Input): Fired {
    Fired(r.t.padding, r.x.epoch, if r.t.padding then 0 else i.data)
  }

  lemma RemainderTook(r: Run, i: Input, x1: Expected, p1: Past)
    requires WellFormed(r.x) && Remainder(r.x, r.p) && (i.e.w ==> |r.x.beats| > 0)
    requires x1 == (if i.e.w then TakeBeat(r.x) else r.x)
    requires p1 == (if i.e.w then r.p.(fired := r.p.fired + [FiredNow(r, i)]) else r.p)
    ensures Remainder(x1, p1) && x1.epoch == r.x.epoch
  {
    if i.e.w {
      RemainderTakes(r.x, r.p, FiredNow(r, i));
    }
  }

  lemma RemainderKept(r: Run, i: Input)
    requires WellFormed(r.x) && Remainder(r.x, r.p) && (i.e.w ==> |r.x.beats| > 0)
    ensures Remainder(RunNext(r, i).x, RunNext(r, i).p)
  {
    if !i.e.memoryReset {
      var x1 := if i.e.w then TakeBeat(r.x) else r.x;
      var p1 := if i.e.w then r.p.(fired := r.p.fired + [FiredNow(r, i)]) else r.p;
      RemainderTook(r, i, x1, p1);
      if i.e.aw {
        RemainderForwards(x1, p1, i.e.burst);
        RemainderFrame(Forward(x1, i.e.burst), RunNext(r, i).x, RunNext(r, i).p);
      } else {
        RemainderFrame(x1, RunNext(r, i).x, RunNext(r, i).p);
      }
    }
  }

  // ---------------------------------------------------------------- every beat has its own burst

  /** A real beat is paired with a burst of its own epoch, a filler beat with one of an
      earlier epoch. */
  predicate Honest(p: Past, g: nat, j: nat)
    requires g < |p.fired| && j < |p.born|
  {
    var f := p.fired[g];
    p.born[j] <= f.epoch && (f.filler <==> p.born[j] < f.epoch) && (f.filler ==> f.data == 0)
  }

  ghost predicate AllHonest(p: Past) {
    |p.born| == |p.bursts|
    && forall g: nat, j: nat :: g < |p.fired| && InBurst(p.bursts, g, j) ==> Honest(p, g, j)
  }

  lemma FirstIsCurrent(x: Expected, p: Past)
    requires WellFormed(x) && Remainder(x, p) && |x.beats| > 0
    ensures InBurst(p.bursts, |p.fired|, First(x, p))
  {
  }

  lemma HonestTakes(r: Run, i: Input, f: Fired)
    requires Rep(r.t, r.x) && Remainder(r.x, r.p) && AllHonest(r.p) && |r.x.beats| > 0
    requires f == FiredNow(r, i)
    ensures AllHonest(r.p.(fired := r.p.fired + [f]))
  {
    var p := r.p.(fired := r.p.fired + [f]);
    FirstIsCurrent(r.x, r.p);
    forall g: nat, j: nat | g < |p.fired| && InBurst(p.bursts, g, j)
      ensures Honest(p, g, j)
    {
      if g == |r.p.fired| {
        UniqueBurst(p.bursts, g, j, First(r.x, r.p));
        assert r.x.stamps[0] == r.p.born[First(r.x, r.p) + 0];
      } else {
        assert Honest(r.p, g, j);
      }
    }
  }

  /** A new burst comes after every beat already sent. */
  lemma HonestForwards(p: Past, b: Burst, epoch: nat)
    requires AllHonest(p) && |p.fired| <= Owed(p.bursts, |p.bursts|)
    ensures AllHonest(p.(bursts := p.bursts + [b], born := p.born + [epoch]))
  {
    var p' := p.(bursts := p.bursts + [b], born := p.born + [epoch]);
    forall g: nat, j: nat | g < |p'.fired| && InBurst(p'.bursts, g, j)
      ensures Honest(p', g, j)
    {
      OwedOfPrefix(p.bursts, [b], j);
      if j < |p.bursts| {
        OwedOfPrefix(p.bursts, [b], j + 1);
        assert InBurst(p.bursts, g, j);
        assert Honest(p, g, j);
      }
    }
  }

  lemma FiredWasOwed(x: Expected, p: Past)
    requires Remainder(x, p)
    ensures |p.fired| <= Owed(p.bursts, |p.bursts|)
  {
    if |x.beats| > 0 {
      OwedMonotone(p.bursts, First(x, p) + 1, |p.bursts|);
    }
  }

  predicate Dated(p: Past, epoch: nat) {
    (forall j :: 0 <= j < |p.born| ==> p.born[j] <= epoch)
    && (forall j, k :: 0 <= j < k < |p.born| ==> p.born[j] <= p.born[k])
    && (forall g :: 0 <= g < |p.fired| ==> p.fired[g].epoch <= epoch)
  }

  lemma DatedStep(r: Run, i: Input)
    requires WellFormed(r.x) && (i.e.w ==> |r.x.beats| > 0) && Dated(r.p, r.x.epoch)
    ensures Dated(RunNext(r, i).p, RunNext(r, i).x.epoch)
  {
  }

  ghost predicate Sound(r: Run) {
    Rep(r.t, r.x) && Remainder(r.x, r.p) && AllHonest(r.p) && Dated(r.p, r.x.epoch)
  }

  lemma SoundStep(r: Run, i: Input)
    requires Sound(r) && Gated(r.t, i.e)
    ensures Sound(RunNext(r, i))
  {
    NextRep(r.t, r.x, i.e);
    RemainderKept(r, i);
    DatedStep(r, i);
    if !i.e.memoryReset {
      HonestStep(r, i);
    }
  }

  lemma HonestStep(r: Run, i: Input)
    requires Sound(r) && Gated(r.t, i.e) && !i.e.memoryReset
    ensures AllHonest(RunNext(r, i).p)
  {
    var f := FiredNow(r, i);
    var x1 := if i.e.w then TakeBeat(r.x) else r.x;
    var p1 := if i.e.w then r.p.(fired := r.p.fired + [f]) else r.p;
    if i.e.w {
      HonestTakes(r, i, f);
      RemainderTakes(r.x, r.p, f);
    }
    FiredWasOwed(x1, p1);
    if i.e.aw {
      HonestForwards(p1, i.e.burst, r.x.epoch);
    }
  }

  ghost predicate Allowed(r: Run, ins: seq<Input>)
    requires Sound(r)
    decreases |ins|
  {
    |ins| > 0 ==> Gated(r.t, ins[0].e) && (SoundStep(r, ins[0]); Allowed(RunNext(r, ins[0]), ins[1..]))
  }

  ghost function After(r: Run, ins: seq<Input>): (r': Run)
    requires Sound(r) && Allowed(r, ins)
    ensures Sound(r')
    decreases |ins|
  {
    if |ins| == 0 then r else SoundStep(r, ins[0]); After(RunNext(r, ins[0]), ins[1..])
  }

  lemma StartIsSound()
    ensures Sound(START)
  {
  }

  /** A run from power-up in which the bridge's own gating is respected. */
  ghost predicate Possible(ins: seq<Input>) {
    StartIsSound();
    Allowed(START, ins)
  }

  ghost function Recovered(ins: seq<Input>): (r: Run)
    requires Possible(ins)
    ensures Sound(r)
  {
    StartIsSound();
    After(START, ins)
  }

  /** Over every interleaving of forwarded addresses, data beats and any number of resets:
      no real beat is ever paired with a burst abandoned by a reset, no filler with a live
      one, and filler goes on exactly while an abandoned burst is still short of beats. */
  lemma {:induction false} RecoveryIsSound(ins: seq<Input>, g: nat, j: nat)
    requires Possible(ins)
    requires g < |Recovered(ins).p.fired| && InBurst(Recovered(ins).p.bursts, g, j)
    ensures var r := Recovered(ins);
            |r.p.born| == |r.p.bursts| && Honest(r.p, g, j)
            && (r.t.padding <==> |r.x.beats| > 0 && r.p.born[First(r.x, r.p)] < r.x.epoch)
  {
    var r := Recovered(ins);
    assert Honest(r.p, g, j);
    if |r.x.beats| > 0 {
      assert r.x.stamps[0] == r.p.born[First(r.x, r.p) + 0];
    }
  }

  lemma {:induction false} Locate(bursts: seq<Burst>, n: nat, g: nat) returns (j: nat)
    requires n <= |bursts| && g < Owed(bursts, n)
    ensures j < n && InBurst(bursts, g, j)
  {
    if g >= Owed(bursts, n - 1) {
      j := n - 1;
    } else {
      j := Locate(bursts, n - 1, g);
    }
  }

  /** Position s is where the bursts of the current epoch begin. */
  predicate EpochBegins(r: Run, s: nat) {
    |r.p.born| == |r.p.bursts| && s < |r.p.bursts|
    && (forall j :: 0 <= j < s ==> r.p.born[j] < r.x.epoch) && r.p.born[s] == r.x.epoch
  }

  /** Once padding is over, every burst of an earlier epoch has all its beats. */
  lemma AbandonedAreComplete(r: Run, s: nat)
    requires Sound(r) && !r.t.padding && EpochBegins(r, s)
    ensures Owed(r.p.bursts, s) <= |r.p.fired|
  {
    if |r.x.beats| > 0 {
      assert r.x.stamps[0] == r.p.born[First(r.x, r.p) + 0];
      FirstIsCurrent(r.x, r.p);
      OwedMonotone(r.p.bursts, s, First(r.x, r.p));
    } else {
      OwedMonotone(r.p.bursts, s, |r.p.bursts|);
    }
  }

  /** The beats that follow are the real beats of this epoch, in order, and they are stored
      as if nothing had come before. */
  lemma FreshStart(r: Run, s: nat, m: nat, stride: int)
    requires Sound(r) && EpochBegins(r, s) && Owed(r.p.bursts, s) + m < |r.p.fired|
    ensures var g := Owed(r.p.bursts, s) + m;
            var n := |r.p.bursts|;
            !r.p.fired[g].filler && r.p.fired[g].epoch == r.x.epoch
            && Target(r.p.bursts, n, g, stride) == Target(r.p.bursts[s..], n - s, m, stride)
  {
    var g := Owed(r.p.bursts, s) + m;
    FiredWasOwed(r.x, r.p);
    var j := Locate(r.p.bursts, |r.p.bursts|, g);
    if j < s {
      OwedMonotone(r.p.bursts, j + 1, s);
    }
    assert Honest(r.p, g, j);
    TargetOfSuffix(r.p.bursts, s, |r.p.bursts| - s, m, stride);
  }

  /** No real beat of this epoch went anywhere else. */
  lemma NothingFreshIsLost(r: Run, s: nat, g: nat)
    requires Sound(r) && EpochBegins(r, s) && g < |r.p.fired| && g < Owed(r.p.bursts, s)
    ensures r.p.fired[g].filler || r.p.fired[g].epoch < r.x.epoch
  {
    var j := Locate(r.p.bursts, s, g);
    assert Honest(r.p, g, j);
  }

  // ---------------------------------------------------------------- the data

  /** The data of the real beats among those accepted by the memory side. */
  function RealData(fired: seq<Fired>): seq<int>
    decreases |fired|
  {
    if |fired| == 0 then []
    else RealData(fired[..|fired| - 1]) + if fired[|fired| - 1].filler then [] else [fired[|fired| - 1].data]
  }

  /** What the master sent, beat by beat, while no abandoned burst was short of beats: the
      bursts expected and their epochs alone say when that is. */
  ghost function Passed(x: Expected, sent: seq<int>, ins: seq<Input>): seq<int>
    requires WellFormed(x)
    decreases |ins|
  {
    if |ins| == 0 || (ins[0].e.w && |x.beats| == 0) then sent
    else
      ExpectedKeeps(x, ins[0].e);
      Passed(ExpectedNext(x, ins[0].e),
             if ins[0].e.memoryReset then []
             else sent + if ins[0].e.w && x.stamps[0] == x.epoch then [ins[0].data] else [],
             ins[1..])
  }

  lemma PaddingIs(t: Tracker, x: Expected)
    requires Rep(t, x) && |x.beats| > 0
    ensures t.padding <==> x.stamps[0] != x.epoch
  {
  }

  lemma DataStep(r: Run, i: Input)
    requires Sound(r) && Gated(r.t, i.e)
    ensures i.e.w ==> |r.x.beats| > 0
    ensures RealData(RunNext(r, i).p.fired)
         == if i.e.memoryReset then []
            else RealData(r.p.fired) + if i.e.w && r.x.stamps[0] == r.x.epoch then [i.data] else []
  {
    if i.e.w {
      PaddingIs(r.t, r.x);
      var f := RunNext(r, i).p.fired;
      assert !i.e.memoryReset ==> f[..|f| - 1] == r.p.fired;
    }
  }

  lemma {:induction false} DataAfter(r: Run, ins: seq<Input>)
    requires Sound(r) && Allowed(r, ins)
    ensures RealData(After(r, ins).p.fired) == Passed(r.x, RealData(r.p.fired), ins)
    decreases |ins|
  {
    if |ins| > 0 {
      DataStep(r, ins[0]);
      SoundStep(r, ins[0]);
      DataAfter(RunNext(r, ins[0]), ins[1..]);
    }
  }

  /** Over every run the real beats that reach the memory side carry, in order, exactly the
      data the master sent while no abandoned burst was short of beats. */
  lemma {:induction false} RealDataPasses(ins: seq<Input>)
    requires Possible(ins)
    ensures RealData(Recovered(ins).p.fired) == Passed(Expected([], [], 0), [], ins)
  {
    StartIsSound();
    DataAfter(START, ins);
  }
}
