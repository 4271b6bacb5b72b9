/** The write-data tracker that completes abandoned bursts with filler beats after a
    one-sided reset: a head register and a ring of lengths against the list of bursts the
    memory side still expects data for. */
module AsyncWritePad {
  import opened Bits
  import opened Pairing
  import opened AsyncStaleSink

  const TAIL_DEPTH := 8

  type TailRam = s: seq<int> | |s| == 8 witness [0, 0, 0, 0, 0, 0, 0, 0]

  type TailPtr = i: int | 0 <= i < 8

  datatype Tracker = Tracker(
    headBeats: int, headValid: bool, headIsLast: bool,
    tail: TailRam, wp: TailPtr, rp: TailPtr, cnt: int,
    padLeft: int, padding: bool)

  const TRACKER_RESET := Tracker(0, false, false, [0, 0, 0, 0, 0, 0, 0, 0], 0, 0, 0, 0, false)

  /** One clock edge: resets as for the sink, an address forwarded, a data beat accepted. */
  datatype PadEvent = PadEvent(memoryReset: bool, reset: bool, aw: bool, burst: Burst, w: bool)

  predicate BurstDone(t: Tracker, e: PadEvent) {
    e.w && t.headValid && t.headIsLast
  }

  predicate AwToHead(t: Tracker, e: PadEvent) {
    e.aw && if BurstDone(t, e) then t.cnt == 0 else !t.headValid
  }

  predicate TailPush(t: Tracker, e: PadEvent) {
    e.aw && !AwToHead(t, e)
  }

  predicate TailPop(t: Tracker, e: PadEvent) {
    BurstDone(t, e) && t.cnt != 0
  }

  predicate HeadValidNext(t: Tracker, e: PadEvent) {
    if BurstDone(t, e) then t.cnt != 0 || e.aw else t.headValid || e.aw
  }

  function CntNext(t: Tracker, e: PadEvent): int {
    t.cnt + Bit(TailPush(t, e)) - Bit(TailPop(t, e))
  }

  function PadLeftNext(t: Tracker, e: PadEvent): int {
    if e.reset then CntNext(t, e) + Bit(HeadValidNext(t, e))
    else if t.padding && BurstDone(t, e) then t.padLeft - 1
    else t.padLeft
  }

  function HeadNext(t: Tracker, e: PadEvent): Tracker {
    var beats := e.burst.len + 1;
    if BurstDone(t, e) then
      if t.cnt != 0 then t.(headBeats := t.tail[t.rp], headIsLast := t.tail[t.rp] == 1, headValid := true)
      else if e.aw then t.(headBeats := beats, headIsLast := beats == 1, headValid := true)
      else t.(headBeats := 0, headIsLast := false, headValid := false)
    else if e.w && t.headValid then t.(headBeats := t.headBeats - 1, headIsLast := t.headBeats == 2)
    else if AwToHead(t, e) then t.(headBeats := beats, headIsLast := beats == 1, headValid := true)
    else t
  }

  function TrackerNext(t: Tracker, e: PadEvent): Tracker {
    if e.memoryReset then TRACKER_RESET.(tail := t.tail)
    else
      HeadNext(t, e).(
        tail := if TailPush(t, e) then t.tail[t.wp := e.burst.len + 1] else t.tail,
        wp := if TailPush(t, e) then (t.wp + 1) % TAIL_DEPTH else t.wp,
        rp := if TailPop(t, e) then (t.rp + 1) % TAIL_DEPTH else t.rp,
        cnt := CntNext(t, e),
        padLeft := PadLeftNext(t, e),
        padding := PadLeftNext(t, e) != 0)
  }

  /** What the surrounding bridge guarantees: no address while the tail is full, no data
      without a burst to take it. */
  predicate Gated(t: Tracker, e: PadEvent) {
    (e.aw ==> t.cnt != TAIL_DEPTH) && (e.w ==> t.headValid)
  }

  // ---------------------------------------------------------------- what the memory side expects

  /** Beats still expected for each burst in order, and the epoch each was forwarded in. */
  datatype Expected = Expected(beats: seq<nat>, stamps: seq<nat>, epoch: nat)

  predicate WellFormed(x: Expected) {
    |x.beats| == |x.stamps| && (forall k :: 0 <= k < |x.beats| ==> x.beats[k] > 0)
    && (forall k :: 0 <= k < |x.stamps| ==> x.stamps[k] <= x.epoch)
    && (forall j, k :: 0 <= j < k < |x.stamps| ==> x.stamps[j] <= x.stamps[k])
  }

  function TakeBeat(x: Expected): Expected
    requires |x.beats| == |x.stamps| > 0 && x.beats[0] > 0
  {
    if x.beats[0] == 1 then x.(beats := x.beats[1..], stamps := x.stamps[1..])
    else x.(beats := [x.beats[0] - 1] + x.beats[1..])
  }

  function Forward(x: Expected, b: Burst): Expected {
    x.(beats := x.beats + [b.len + 1], stamps := x.stamps + [x.epoch])
  }

  function ExpectedNext(x: Expected, e: PadEvent): Expected
    requires WellFormed(x) && (e.w ==> |x.beats| > 0)
  {
    if e.memoryReset then Expected([], [], x.epoch)
    else
      var x1 := if e.w then TakeBeat(x) else x;
      var x2 := if e.aw then Forward(x1, e.burst) else x1;
      x2.(epoch := if e.reset then x.epoch + 1 else x.epoch)
  }

  lemma TakeBeatKeeps(x: Expected)
    requires WellFormed(x) && |x.beats| > 0
    ensures WellFormed(TakeBeat(x))
    ensures StaleCount(TakeBeat(x).stamps, x.epoch)
         == StaleCount(x.stamps, x.epoch) - Bit(x.beats[0] == 1 && StaleCount(x.stamps, x.epoch) != 0)
  {
    assert x.beats[0] == 1 && |x.stamps| > 1 ==> x.stamps[1..][0] >= x.stamps[0];
  }

  lemma ForwardKeeps(x: Expected, b: Burst)
    requires WellFormed(x)
    ensures WellFormed(Forward(x, b))
    ensures StaleCount(Forward(x, b).stamps, x.epoch) == StaleCount(x.stamps, x.epoch)
  {
    StaleAppend(x.stamps, x.epoch);
  }

  lemma ExpectedKeeps(x: Expected, e: PadEvent)
    requires WellFormed(x) && (e.w ==> |x.beats| > 0)
    ensures WellFormed(ExpectedNext(x, e))
    ensures !e.memoryReset ==>
              StaleCount(ExpectedNext(x, e).stamps, ExpectedNext(x, e).epoch)
              == if e.reset then |ExpectedNext(x, e).stamps|
                 else StaleCount(x.stamps, x.epoch) - Bit(e.w && x.beats[0] == 1 && StaleCount(x.stamps, x.epoch) != 0)
  {
    if !e.memoryReset {
      if e.w {
        TakeBeatKeeps(x);
      }
      var x1 := if e.w then TakeBeat(x) else x;
      if e.aw {
        ForwardKeeps(x1, e.burst);
      }
      if e.reset {
        AllStale(ExpectedNext(x, e).stamps, x.epoch + 1);
      }
    }
  }

  // ---------------------------------------------------------------- the tracker against it

  predicate RepHead(t: Tracker, x: Expected) {
    t.headValid == (|x.beats| > 0)
    && (t.headValid ==> t.headBeats == x.beats[0] && t.headIsLast == (x.beats[0] == 1))
  }

  function TailAt(t: Tracker, k: int): int {
    t.tail[(t.rp + k) % TAIL_DEPTH]
  }

  predicate RepTail(t: Tracker, x: Expected) {
    t.cnt == (if |x.beats| == 0 then 0 else |x.beats| - 1) && t.cnt <= TAIL_DEPTH
    && t.wp == (t.rp + t.cnt) % TAIL_DEPTH
    && (forall k :: 0 <= k < t.cnt ==> TailAt(t, k) == x.beats[k + 1])
  }

  predicate RepPad(t: Tracker, x: Expected) {
    t.padLeft == StaleCount(x.stamps, x.epoch) && t.padding == (t.padLeft != 0)
  }

  predicate Rep(t: Tracker, x: Expected) {
    WellFormed(x) && RepHead(t, x) && RepTail(t, x) && RepPad(t, x)
  }

  lemma NextHead(t: Tracker, x: Expected, e: PadEvent)
    requires Rep(t, x) && Gated(t, e)
    ensures RepHead(TrackerNext(t, e), ExpectedNext(x, e))
  {
    assert t.cnt > 0 ==> TailAt(t, 0) == x.beats[0 + 1];
  }

  lemma RingIndex(rp: TailPtr, k: int, n: int)
    requires 0 <= k < 8 && 0 <= n < 8
    ensures (rp + k) % TAIL_DEPTH == (rp + n) % TAIL_DEPTH <==> k == n
    ensures ((rp + 1) % TAIL_DEPTH + k) % TAIL_DEPTH == (rp + (k + 1)) % TAIL_DEPTH
  {
  }

  predicate Retires(x: Expected, e: PadEvent) {
    e.w && |x.beats| > 0 && x.beats[0] == 1
  }

  lemma BeatsNext(x: Expected, e: PadEvent)
    requires WellFormed(x) && (e.w ==> |x.beats| > 0) && !e.memoryReset
    ensures var y := ExpectedNext(x, e);
            var r := Bit(Retires(x, e));
            |y.beats| == |x.beats| - r + Bit(e.aw)
            && (forall k :: 1 <= k < |x.beats| - r ==> y.beats[k] == x.beats[k + r])
            && (e.aw ==> y.beats[|x.beats| - r] == e.burst.len + 1)
  {
  }

  lemma TailAddress(t: Tracker, e: PadEvent, k: int)
    requires !e.memoryReset && 0 <= k < 8
    ensures (TrackerNext(t, e).rp + k) % TAIL_DEPTH == (t.rp + (k + Bit(TailPop(t, e)))) % TAIL_DEPTH
  {
    RingIndex(t.rp, k, 0);
  }

  lemma TailNext(t: Tracker, e: PadEvent, k: int)
    requires 0 <= t.cnt <= TAIL_DEPTH && t.wp == (t.rp + t.cnt) % TAIL_DEPTH && (e.aw ==> t.cnt < TAIL_DEPTH)
    requires !e.memoryReset && 0 <= k < CntNext(t, e)
    ensures var p := Bit(TailPop(t, e));
            TailAt(TrackerNext(t, e), k)
            == if TailPush(t, e) && k + p == t.cnt then e.burst.len + 1 else TailAt(t, k + p)
  {
    var p := Bit(TailPop(t, e));
    TailAddress(t, e, k);
    if TailPush(t, e) && k + p < 8 {
      RingIndex(t.rp, k + p, t.cnt);
    }
  }

  lemma NextTail(t: Tracker, x: Expected, e: PadEvent)
    requires Rep(t, x) && Gated(t, e) && !e.memoryReset
    ensures RepTail(TrackerNext(t, e), ExpectedNext(x, e))
  {
    BeatsNext(x, e);
    TailPointers(t, e);
    CountNext(t, x, e);
    forall k | 0 <= k < CntNext(t, e)
      ensures TailAt(TrackerNext(t, e), k) == ExpectedNext(x, e).beats[k + 1]
    {
      NextTailAt(t, x, e, k);
    }
  }

  lemma CountNext(t: Tracker, x: Expected, e: PadEvent)
    requires Rep(t, x) && Gated(t, e) && !e.memoryReset
    ensures var n := |ExpectedNext(x, e).beats|;
            TrackerNext(t, e).cnt == CntNext(t, e) == (if n == 0 then 0 else n - 1) && CntNext(t, e) <= TAIL_DEPTH
  {
    BeatsNext(x, e);
  }

  lemma NextTailAt(t: Tracker, x: Expected, e: PadEvent, k: int)
    requires Rep(t, x) && Gated(t, e) && !e.memoryReset && 0 <= k < CntNext(t, e)
    ensures k + 1 < |ExpectedNext(x, e).beats| && TailAt(TrackerNext(t, e), k) == ExpectedNext(x, e).beats[k + 1]
  {
    BeatsNext(x, e);
    PopAgrees(t, x, e);
    TailNext(t, e, k);
    var p := Bit(TailPop(t, e));
    assert 0 <= k + p < t.cnt ==> TailAt(t, k + p) == x.beats[k + p + 1];
  }

  lemma PopAgrees(t: Tracker, x: Expected, e: PadEvent)
    requires Rep(t, x) && Gated(t, e) && !e.memoryReset
    ensures TailPop(t, e) <==> Retires(x, e) && |x.beats| > 1
    ensures TailPush(t, e) <==> e.aw && |x.beats| > Bit(Retires(x, e))
  {
  }

  lemma TailPointers(t: Tracker, e: PadEvent)
    requires 0 <= t.cnt <= TAIL_DEPTH && t.wp == (t.rp + t.cnt) % TAIL_DEPTH
    ensures !e.memoryReset ==> var u := TrackerNext(t, e); u.wp == (u.rp + u.cnt) % TAIL_DEPTH
  {
    if !e.memoryReset {
      Wraps(t.rp + t.cnt, Bit(TailPush(t, e)));
      Wraps(t.rp + Bit(TailPop(t, e)), CntNext(t, e));
    }
  }

  lemma Wraps(a: int, b: int)
    ensures (a % TAIL_DEPTH + b) % TAIL_DEPTH == (a + b) % TAIL_DEPTH
  {
    var k := a / TAIL_DEPTH;
    assert a == TAIL_DEPTH * k + a % TAIL_DEPTH;
  }

  lemma NextPad(t: Tracker, x: Expected, e: PadEvent)
    requires Rep(t, x) && Gated(t, e)
    ensures RepPad(TrackerNext(t, e), ExpectedNext(x, e))
  {
    ExpectedKeeps(x, e);
  }

  /** The registers always describe exactly what the memory side still expects, and while
      filler is being sent it goes to the bursts abandoned by a reset and no others. */
  lemma NextRep(t: Tracker, x: Expected, e: PadEvent)
    requires Rep(t, x) && Gated(t, e)
    ensures Rep(TrackerNext(t, e), ExpectedNext(x, e))
  {
    ExpectedKeeps(x, e);
    NextHead(t, x, e);
    if !e.memoryReset {
      NextTail(t, x, e);
    }
    NextPad(t, x, e);
  }
}
