/** The harness's model of the VIA shift register and its bus logger: bytes go out on
    alternate CB1 edges, come in on rising edges with resynchronisation after a long gap,
    and every level change of the bus closes a logged pulse. */
module ViaShift {
  import opened Bits

  const GAP := 1000

  datatype Pulse = Pulse(level: int, start: nat, len: int)

  datatype Via = Via(
    outActive: bool, outByte: nat, outEdges: nat, cb2Out: bool,
    inShift: nat, inBits: nat, inLast: nat, rx: seq<nat>,
    prevCb1: bool,
    log: seq<Pulse>, prevLevel: int, levelStart: nat, logging: bool)

  /** The pins at a tick: CB1, CB2 as the shift register sees it, and the host's bus drive. */
  datatype Pins = Pins(cb1: bool, cb2: bool, level: int)

  function ShiftOut(v: Via): Via {
    var w := if v.outEdges % 2 == 0 then v.(cb2Out := v.outByte / 128 % 2 == 1, outByte := v.outByte * 2 % 256) else v;
    w.(outEdges := w.outEdges + 1)
  }

  function ShiftIn(v: Via, bit: bool, now: nat): Via {
    var stale := v.inBits != 0 && now - v.inLast > GAP;
    var bits := if stale then 0 else v.inBits;
    var shift := ((if stale then 0 else v.inShift) * 2 + Bit(bit)) % 256;
    if bits + 1 == 8 then v.(rx := v.rx + [shift], inBits := 0, inShift := 0, inLast := now)
    else v.(inShift := shift, inBits := bits + 1, inLast := now)
  }

  function MonitorShift(v: Via, p: Pins, now: nat): Via {
    if p.cb1 == v.prevCb1 then v
    else
      (if v.outActive then ShiftOut(v) else if p.cb1 then ShiftIn(v, p.cb2, now) else v).(prevCb1 := p.cb1)
  }

  function MonitorBus(v: Via, p: Pins, now: nat): Via {
    if v.logging && p.level != v.prevLevel then
      v.(log := v.log + [Pulse(v.prevLevel, v.levelStart, now - v.levelStart)], prevLevel := p.level, levelStart := now)
    else v
  }

  function Monitor(v: Via, p: Pins, now: nat): Via {
    MonitorBus(MonitorShift(v, p, now), p, now)
  }

  class ViaModel {
    var outActive: bool
    var outByte: nat
    var outEdges: nat
    var cb2Out: bool
    var inShift: nat
    var inBits: nat
    var inLast: nat
    var rx: seq<nat>
    var prevCb1: bool
    var log: seq<Pulse>
    var prevLevel: int
    var levelStart: nat
    var logging: bool

    ghost function Value(): Via
      reads this
    {
      Via(outActive, outByte, outEdges, cb2Out, inShift, inBits, inLast, rx, prevCb1,
          log, prevLevel, levelStart, logging)
    }

    constructor (cb1: bool)
      ensures Value() == Via(false, 0, 0, true, 0, 0, 0, [], cb1, [], 1, 0, false)
    {
      outActive, outByte, outEdges, cb2Out := false, 0, 0, true;
      inShift, inBits, inLast, rx, prevCb1 := 0, 0, 0, [], cb1;
      log, prevLevel, levelStart, logging := [], 1, 0, false;
    }

    method TakeBit(bit: bool, now: nat)
      modifies `inShift, `inBits, `inLast, `rx
      ensures Value() == ShiftIn(old(Value()), bit, now)
    {
      if inBits != 0 && now - inLast > GAP {
        inBits, inShift := 0, 0;
      }
      inShift, inBits, inLast := (inShift * 2 + Bit(bit)) % 256, inBits + 1, now;
      if inBits == 8 {
        rx, inBits, inShift := rx + [inShift], 0, 0;
      }
    }

    method GiveBit()
      modifies `cb2Out, `outByte, `outEdges
      ensures Value() == ShiftOut(old(Value()))
    {
      if outEdges % 2 == 0 {
        cb2Out, outByte := outByte / 128 % 2 == 1, outByte * 2 % 256;
      }
      outEdges := outEdges + 1;
    }

    method MonitorTick(p: Pins, now: nat)
      modifies this
      ensures Value() == Monitor(old(Value()), p, now)
    {
      if p.cb1 != prevCb1 {
        if outActive {
          GiveBit();
        } else if p.cb1 {
          TakeBit(p.cb2, now);
        }
        prevCb1 := p.cb1;
      }
      if logging && p.level != prevLevel {
        log := log + [Pulse(prevLevel, levelStart, now - levelStart)];
        prevLevel, levelStart := p.level, now;
      }
    }
  }

  // ---------------------------------------------------------------- received bytes

  datatype Sampled = Sampled(bit: bool, at: nat)

  /** Rising edges sampled so far, where in that list each received byte ends, and where
      the byte in progress begins. */
  datatype Heard = Heard(samples: seq<Sampled>, ends: seq<nat>, from: nat)

  predicate Samples(v: Via, p: Pins) {
    p.cb1 && !v.prevCb1 && !v.outActive
  }

  /** The byte in progress begins anew if its latest edge is too long ago. */
  function Start(h: Heard, now: nat): nat {
    if h.from < |h.samples| && now - h.samples[|h.samples| - 1].at > GAP then |h.samples| else h.from
  }

  /** The reference grouping: every eighth edge of a byte in progress completes it. */
  function HeardAfter(h: Heard, bit: bool, now: nat): Heard {
    var s, start := h.samples + [Sampled(bit, now)], Start(h, now);
    if |s| - start == 8 then Heard(s, h.ends + [|s|], |s|) else Heard(s, h.ends, start)
  }

  function HeardNext(h: Heard, v: Via, p: Pins, now: nat): Heard {
    if Samples(v, p) then HeardAfter(h, p.cb2, now) else h
  }

  function BitsOf(samples: seq<Sampled>): (r: seq<bool>)
    ensures |r| == |samples|
  {
    seq(|samples|, k requires 0 <= k < |samples| => samples[k].bit)
  }

  /** No gap inside a run of samples is longer than the resynchronisation limit. */
  predicate Close(samples: seq<Sampled>) {
    forall k :: 0 < k < |samples| ==> samples[k].at - samples[k - 1].at <= GAP
  }

  predicate ByteAt(h: Heard, end: nat, byte: nat) {
    8 <= end <= |h.samples| && Close(h.samples[end - 8..end]) && byte == FromBits(BitsOf(h.samples[end - 8..end]))
  }

  predicate Partial(v: Via, h: Heard) {
    h.from <= |h.samples| && v.inBits == |h.samples| - h.from < 8
    && (var tail := h.samples[h.from..];
        Close(tail) && v.inShift == FromBits(BitsOf(tail)) && (|tail| > 0 ==> v.inLast == tail[|tail| - 1].at))
  }

  /** The bytes received are those of the reference grouping: eight successive edges each,
      none used twice. */
  predicate Whole(v: Via, h: Heard) {
    |h.ends| == |v.rx|
    && (forall i :: 0 <= i < |v.rx| ==> ByteAt(h, h.ends[i], v.rx[i]))
    && (forall i, j :: 0 <= i < j < |h.ends| ==> h.ends[i] + 8 <= h.ends[j])
    && (forall i :: 0 <= i < |h.ends| ==> h.ends[i] <= h.from)
  }

  lemma {:induction false} ShiftFits(x: nat, b: bool, n: nat)
    requires x < Pow2(n) && n < 8
    ensures (x * 2 + Bit(b)) % 256 == 2 * x + Bit(b)
  {
    Pow2Eight();
    Pow2Grows(n, 7);
    assert Pow2(8) == 2 * Pow2(7);
  }

  lemma TailGrows(tail: seq<Sampled>, s: Sampled)
    requires Close(tail) && (|tail| > 0 ==> s.at - tail[|tail| - 1].at <= GAP)
    ensures Close(tail + [s]) && FromBits(BitsOf(tail + [s])) == 2 * FromBits(BitsOf(tail)) + Bit(s.bit)
  {
    assert BitsOf(tail + [s]) == BitsOf(tail) + [s.bit];
    FromBitsAppend(BitsOf(tail), s.bit);
  }

  /** The samples of the byte in progress, once the new one is taken. */
  function NextTail(h: Heard, bit: bool, now: nat): seq<Sampled>
    requires h.from <= |h.samples|
  {
    h.samples[Start(h, now)..] + [Sampled(bit, now)]
  }

  lemma BaseIs(v: Via, h: Heard, now: nat)
    requires Partial(v, h)
    ensures var base := h.samples[Start(h, now)..];
            var stale := v.inBits != 0 && now - v.inLast > GAP;
            |base| == (if stale then 0 else v.inBits) && FromBits(BitsOf(base)) == (if stale then 0 else v.inShift)
            && Close(base) && (|base| > 0 ==> now - base[|base| - 1].at <= GAP)
  {
    var tail := h.samples[h.from..];
    if |tail| > 0 {
      assert tail[|tail| - 1] == h.samples[|h.samples| - 1];
    }
    assert BitsOf([]) == [];
  }

  lemma ShiftedIn(v: Via, h: Heard, bit: bool, now: nat)
    requires Partial(v, h)
    ensures var t := NextTail(h, bit, now);
            var w := ShiftIn(v, bit, now);
            Close(t) && 1 <= |t| <= 8
            && (if |t| == 8 then w.rx == v.rx + [FromBits(BitsOf(t))] && w.inBits == 0 && w.inShift == 0
                else w.rx == v.rx && w.inBits == |t| && w.inShift == FromBits(BitsOf(t)) && w.inLast == now)
  {
    BaseIs(v, h, now);
    ShiftedOnto(v, h.samples[Start(h, now)..], bit, now);
  }

  lemma ShiftedOnto(v: Via, base: seq<Sampled>, bit: bool, now: nat)
    requires var stale := v.inBits != 0 && now - v.inLast > GAP;
             |base| == (if stale then 0 else v.inBits) && FromBits(BitsOf(base)) == (if stale then 0 else v.inShift)
    requires |base| < 8 && Close(base) && (|base| > 0 ==> now - base[|base| - 1].at <= GAP)
    ensures var t := base + [Sampled(bit, now)];
            var w := ShiftIn(v, bit, now);
            Close(t) && 1 <= |t| <= 8
            && (if |t| == 8 then w.rx == v.rx + [FromBits(BitsOf(t))] && w.inBits == 0 && w.inShift == 0
                else w.rx == v.rx && w.inBits == |t| && w.inShift == FromBits(BitsOf(t)) && w.inLast == now)
  {
    TailGrows(base, Sampled(bit, now));
    FromBitsBound(BitsOf(base));
    ShiftFits(FromBits(BitsOf(base)), bit, |base|);
  }

  lemma SuffixIs(h: Heard, bit: bool, now: nat)
    requires h.from <= |h.samples|
    ensures var t := NextTail(h, bit, now);
            var s := h.samples + [Sampled(bit, now)];
            |t| <= |s| && s[|s| - |t|..] == t && |s| - |t| == Start(h, now)
  {
  }

  lemma OldBytesStand(h: Heard, s: Sampled, end: nat, byte: nat, g: Heard)
    requires ByteAt(h, end, byte) && g.samples == h.samples + [s]
    ensures ByteAt(g, end, byte)
  {
    SliceStands(h.samples, s, end - 8, end);
  }

  lemma SliceStands(a: seq<Sampled>, s: Sampled, lo: nat, hi: nat)
    requires lo <= hi <= |a|
    ensures (a + [s])[lo..hi] == a[lo..hi]
  {
  }

  lemma NewByteStands(t: seq<Sampled>, g: Heard)
    requires |t| == 8 <= |g.samples| && g.samples[|g.samples| - 8..] == t && Close(t)
    ensures ByteAt(g, |g.samples|, FromBits(BitsOf(t)))
  {
    assert g.samples[|g.samples| - 8..|g.samples|] == t;
  }

  lemma SampleBytes(v: Via, h: Heard, bit: bool, now: nat, g: Heard, i: nat)
    requires Partial(v, h) && Whole(v, h) && g == HeardAfter(h, bit, now) && i < |ShiftIn(v, bit, now).rx|
    ensures i < |g.ends| && ByteAt(g, g.ends[i], ShiftIn(v, bit, now).rx[i])
  {
    ShiftedIn(v, h, bit, now);
    SuffixIs(h, bit, now);
    if i < |v.rx| {
      OldBytesStand(h, Sampled(bit, now), h.ends[i], v.rx[i], g);
    } else {
      NewByteStands(NextTail(h, bit, now), g);
    }
  }

  lemma SampleEnds(v: Via, h: Heard, bit: bool, now: nat, g: Heard)
    requires Partial(v, h) && Whole(v, h) && g == HeardAfter(h, bit, now)
    ensures |g.ends| == |ShiftIn(v, bit, now).rx|
    ensures forall i, j :: 0 <= i < j < |g.ends| ==> g.ends[i] + 8 <= g.ends[j]
    ensures forall i :: 0 <= i < |g.ends| ==> g.ends[i] <= g.from
  {
    ShiftedIn(v, h, bit, now);
    EndsGrow(h.ends, h.from, |h.samples| + 1, Start(h, now));
  }

  lemma EndsGrow(ends: seq<nat>, from: nat, n: nat, start: nat)
    requires from <= start && (forall i :: 0 <= i < |ends| ==> ends[i] <= from)
    requires forall i, j :: 0 <= i < j < |ends| ==> ends[i] + 8 <= ends[j]
    ensures n - start == 8 ==> forall i, j :: 0 <= i < j < |ends + [n]| ==> (ends + [n])[i] + 8 <= (ends + [n])[j]
    ensures n - start == 8 ==> forall i :: 0 <= i < |ends + [n]| ==> (ends + [n])[i] <= n
    ensures forall i :: 0 <= i < |ends| ==> ends[i] <= start
  {
  }

  lemma SampleWhole(v: Via, h: Heard, bit: bool, now: nat, g: Heard)
    requires Partial(v, h) && Whole(v, h) && g == HeardAfter(h, bit, now)
    ensures Whole(ShiftIn(v, bit, now), g)
  {
    SampleEnds(v, h, bit, now, g);
    forall i | 0 <= i < |ShiftIn(v, bit, now).rx|
      ensures ByteAt(g, g.ends[i], ShiftIn(v, bit, now).rx[i])
    {
      SampleBytes(v, h, bit, now, g, i);
    }
  }

  lemma SamplePartial(v: Via, h: Heard, bit: bool, now: nat, g: Heard)
    requires Partial(v, h) && g == HeardAfter(h, bit, now)
    ensures Partial(ShiftIn(v, bit, now), g)
  {
    ShiftedIn(v, h, bit, now);
    SuffixIs(h, bit, now);
    if |NextTail(h, bit, now)| == 8 {
      assert g.samples[|g.samples|..] == [];
      assert BitsOf([]) == [];
    }
  }

  /** The receiving side of two states agrees. */
  predicate SameInput(v: Via, w: Via) {
    w.inShift == v.inShift && w.inBits == v.inBits && w.inLast == v.inLast && w.rx == v.rx
  }

  lemma InputFrame(v: Via, w: Via, h: Heard)
    requires Partial(v, h) && Whole(v, h) && SameInput(v, w)
    ensures Partial(w, h) && Whole(w, h)
  {
  }

  lemma MonitorInput(v: Via, p: Pins, now: nat)
    ensures SameInput(if Samples(v, p) then ShiftIn(v, p.cb2, now) else v, Monitor(v, p, now))
  {
  }

  lemma MonitorKeepsBytes(v: Via, h: Heard, p: Pins, now: nat)
    requires Partial(v, h) && Whole(v, h)
    ensures Partial(Monitor(v, p, now), HeardNext(h, v, p, now)) && Whole(Monitor(v, p, now), HeardNext(h, v, p, now))
  {
    MonitorInput(v, p, now);
    if Samples(v, p) {
      var g := HeardAfter(h, p.cb2, now);
      SamplePartial(v, h, p.cb2, now, g);
      SampleWhole(v, h, p.cb2, now, g);
      InputFrame(ShiftIn(v, p.cb2, now), Monitor(v, p, now), g);
    } else {
      InputFrame(v, Monitor(v, p, now), h);
    }
  }

  // ---------------------------------------------------------------- the pulse log

  /** Pulses follow one another without gap from time zero and alternate in level. */
  predicate Tiled(v: Via) {
    (if |v.log| == 0 then v.levelStart == 0
     else v.log[0].start == 0
          && v.log[|v.log| - 1].start + v.log[|v.log| - 1].len == v.levelStart
          && v.log[|v.log| - 1].level != v.prevLevel)
    && (forall k, m :: 0 <= k < |v.log| && m == k + 1 < |v.log| ==>
          v.log[k].start + v.log[k].len == v.log[m].start && v.log[k].level != v.log[m].level)
    && (forall k :: 0 <= k < |v.log| ==> v.log[k].len > 0)
  }

  lemma MonitorLog(v: Via, p: Pins, now: nat)
    ensures var w := Monitor(v, p, now);
            if v.logging && p.level != v.prevLevel then
              w.log == v.log + [Pulse(v.prevLevel, v.levelStart, now - v.levelStart)]
              && w.prevLevel == p.level && w.levelStart == now
            else w.log == v.log && w.prevLevel == v.prevLevel && w.levelStart == v.levelStart
  {
  }

  lemma MonitorKeepsTiling(v: Via, p: Pins, now: nat)
    requires Tiled(v) && v.levelStart < now
    ensures Tiled(Monitor(v, p, now)) && Monitor(v, p, now).levelStart <= now
  {
    MonitorLog(v, p, now);
  }

  // ---------------------------------------------------------------- whole runs

  /** Ticks numbered from 1.  Before a tick the driver may arm the shift register with a
      byte or release it, drop a partly received byte because it expects a new one, forget
      the bytes received, and switch the logger. */
  datatype Step = Step(p: Pins, arm: bool, byte: nat, expects: bool, clears: bool, logging: bool)

  predicate Arms(v: Via, s: Step) {
    s.arm && !v.outActive
  }

  function Driven(v: Via, s: Step): Via {
    v.(outActive := s.arm,
       outByte := if Arms(v, s) then s.byte % 256 else v.outByte,
       outEdges := if Arms(v, s) then 0 else v.outEdges,
       cb2Out := Arms(v, s) || v.cb2Out,
       inBits := if s.expects then 0 else v.inBits,
       inShift := if s.expects then 0 else v.inShift,
       rx := if s.clears then [] else v.rx,
       logging := s.logging)
  }

  function Dropped(h: Heard, s: Step): Heard {
    Heard(h.samples, if s.clears then [] else h.ends, if s.expects then |h.samples| else h.from)
  }

  lemma DrivenKeeps(v: Via, h: Heard, s: Step)
    requires Partial(v, h) && Whole(v, h)
    ensures Partial(Driven(v, s), Dropped(h, s)) && Whole(Driven(v, s), Dropped(h, s))
  {
    if s.expects {
      assert h.samples[|h.samples|..] == [];
      assert BitsOf([]) == [];
    }
    forall i | 0 <= i < |Driven(v, s).rx|
      ensures ByteAt(Dropped(h, s), Dropped(h, s).ends[i], Driven(v, s).rx[i])
    {
      assert ByteAt(h, h.ends[i], v.rx[i]);
    }
  }

  const POWER_UP := Via(false, 0, 0, true, 0, 0, 0, [], true, [], 1, 0, false)

  function ViaRun(steps: seq<Step>): (Via, Heard)
    decreases |steps|
  {
    if |steps| == 0 then (POWER_UP, Heard([], [], 0))
    else
      var n := |steps|;
      var (v, h) := ViaRun(steps[..n - 1]);
      var d, e := Driven(v, steps[n - 1]), Dropped(h, steps[n - 1]);
      (Monitor(d, steps[n - 1].p, n), HeardNext(e, d, steps[n - 1].p, n))
  }

  lemma TilingFrame(v: Via, w: Via)
    requires Tiled(v) && w.log == v.log && w.prevLevel == v.prevLevel && w.levelStart == v.levelStart
    ensures Tiled(w)
  {
  }

  lemma PowerUpIsSound()
    ensures Partial(POWER_UP, Heard([], [], 0)) && Whole(POWER_UP, Heard([], [], 0)) && Tiled(POWER_UP)
  {
    var none: seq<Sampled> := [];
    assert none[0..] == none && BitsOf(none) == [];
  }

  /** In every run the bytes received are exactly those of the reference grouping, each of
      eight successive sampled rising edges no two of which are further apart than the
      limit, no edge used twice, and the partial byte is what it has in progress; and the
      logged pulses tile time from zero, none empty, with alternating levels. */
  lemma {:induction false} EveryRun(steps: seq<Step>)
    ensures var (v, h) := ViaRun(steps);
            Partial(v, h) && Whole(v, h) && Tiled(v) && v.levelStart <= |steps|
    decreases |steps|
  {
    if |steps| == 0 {
      PowerUpIsSound();
    } else {
      var n := |steps|;
      EveryRun(steps[..n - 1]);
      var (v, h) := ViaRun(steps[..n - 1]);
      var d := Driven(v, steps[n - 1]);
      DrivenKeeps(v, h, steps[n - 1]);
      MonitorKeepsBytes(d, Dropped(h, steps[n - 1]), steps[n - 1].p, n);
      TilingFrame(v, d);
      MonitorKeepsTiling(d, steps[n - 1].p, n);
    }
  }

  // ---------------------------------------------------------------- out of one, into another

  /** One bit: the sender presents it on a falling edge, the receiver samples it on the
      rising edge that follows, both at times of their own. */
  function Exchange(s: Via, r: Via, fall: nat, rise: nat): (Via, Via) {
    var s1 := MonitorShift(s, Pins(false, true, 1), fall);
    var r1 := MonitorShift(r, Pins(false, s1.cb2Out, 1), fall);
    (MonitorShift(s1, Pins(true, true, 1), rise), MonitorShift(r1, Pins(true, s1.cb2Out, 1), rise))
  }

  function Exchanges(s: Via, r: Via, falls: seq<nat>, rises: seq<nat>, n: nat): (Via, Via)
    requires n <= |falls| && n <= |rises|
  {
    if n == 0 then (s, r)
    else
      var (s1, r1) := Exchanges(s, r, falls, rises, n - 1);
      Exchange(s1, r1, falls[n - 1], rises[n - 1])
  }

  lemma QuotientIs(x: int, d: int, k: int, r: int)
    requires d > 0 && x == d * k + r && 0 <= r < d
    ensures x / d == k
  {
    assert x == d * (x / d) + x % d;
    assert d * (x / d - k) == r - x % d;
    if x / d != k {
      SmallMultiple(x / d - k, d);
    }
  }

  lemma SmallMultiple(k: int, d: int)
    requires d > 0 && k != 0
    ensures d * k >= d || d * k <= -d
  {
  }

  lemma TopBit(h: nat, m: nat)
    requires m < 128
    ensures (128 * h + m) % 256 / 128 % 2 == h % 2
  {
    var g, e := h / 2, h % 2;
    assert 128 * h + m == 256 * g + (128 * e + m);
  }

  lemma ProductSplits(h: nat, l: nat, p: nat, q: nat)
    requires p * q == 128 && l < q
    ensures (q * h + l) * p == 128 * h + l * p && l * p < 128
  {
    assert (q * h + l) * p == p * q * h + l * p;
    assert l * p <= (q - 1) * p;
    assert (q - 1) * p == p * q - p;
    assert p > 0;
  }

  /** The bit presented next, with p the weight already shifted out and q that of the bit. */
  lemma PresentedBit(byte: nat, p: nat, q: nat)
    requires p > 0 && q > 0 && p * q == 128
    ensures byte * p % 256 / 128 % 2 == byte / q % 2
  {
    PresentedSplit(byte / q, byte % q, p, q);
    assert byte == q * (byte / q) + byte % q;
  }

  lemma PresentedSplit(h: nat, l: nat, p: nat, q: nat)
    requires p * q == 128 && l < q
    ensures (q * h + l) * p % 256 / 128 % 2 == h % 2
  {
    ProductSplits(h, l, p, q);
    TopBit(h, l * p);
  }

  lemma LeadingBits(byte: nat, q: nat)
    requires q > 0
    ensures byte / (2 * q) * 2 + byte / q % 2 == byte / q
  {
    var h, l := byte / q, byte % q;
    var g, e := h / 2, h % 2;
    assert byte == q * h + l && h == 2 * g + e;
    assert q * (2 * g + e) == (2 * q) * g + q * e;
    assert q * e <= q;
    QuotientIs(byte, 2 * q, g, q * e + l);
  }

  lemma DoubledWraps(x: nat)
    ensures x % 256 * 2 % 256 == x * 2 % 256
  {
    var k := x / 256;
    assert x * 2 == 512 * k + x % 256 * 2;
  }

  lemma PowPair(n: nat)
    requires n < 8
    ensures Pow2(n) * Pow2(7 - n) == 128 && Pow2(8 - n) == 2 * Pow2(7 - n) && Pow2(n + 1) == 2 * Pow2(n)
  {
    assert Pow2(0) == 1 && Pow2(1) == 2 && Pow2(2) == 4 && Pow2(3) == 8;
    assert Pow2(4) == 16 && Pow2(5) == 32 && Pow2(6) == 64 && Pow2(7) == 128;
  }

  /** The sender's side of one bit. */
  lemma SenderStep(s: Via, byte: nat, n: nat, fall: nat, rise: nat)
    requires s.outActive && s.outEdges == 2 * n && s.prevCb1 && byte < 256 && n < 8 && s.outByte == byte * Pow2(n) % 256
    ensures var s1 := MonitorShift(s, Pins(false, true, 1), fall);
            var s2 := MonitorShift(s1, Pins(true, true, 1), rise);
            s1.cb2Out == (byte / Pow2(7 - n) % 2 == 1)
            && s2.outActive && s2.outEdges == 2 * (n + 1) && s2.prevCb1 && s2.outByte == byte * Pow2(n + 1) % 256
  {
    PowPair(n);
    PresentedBit(byte, Pow2(n), Pow2(7 - n));
    DoubledWraps(byte * Pow2(n));
    assert byte * Pow2(n) * 2 == byte * Pow2(n + 1);
  }

  predicate Holds(r: Via, r0: Via, byte: nat, n: nat, last: nat) {
    !r.outActive && r.prevCb1 && n <= 8
    && (if n == 0 then r == r0
        else if n < 8 then r.rx == r0.rx && r.inBits == n && r.inShift == byte / Pow2(8 - n) && r.inLast == last
        else r.rx == r0.rx + [byte] && r.inBits == 0)
  }

  /** The receiver can start a byte: nothing pending, or what is pending has gone stale. */
  predicate Receptive(r: Via, rise: nat) {
    !r.outActive && r.prevCb1 && (if r.inBits == 0 then r.inShift == 0 else rise - r.inLast > GAP)
  }

  lemma LeadingFits(byte: nat, n: nat)
    requires byte < 256 && n < 8
    ensures (byte / Pow2(8 - n) * 2 + byte / Pow2(7 - n) % 2) % 256 == byte / Pow2(7 - n)
    ensures n == 0 ==> byte / Pow2(8 - n) == 0
    ensures byte / Pow2(0) == byte
  {
    PowPair(n);
    LeadingBits(byte, Pow2(7 - n));
    Pow2Eight();
    assert Pow2(0) == 1;
    assert byte / Pow2(7 - n) <= byte;
  }

  lemma ReceiverStep(r: Via, r0: Via, byte: nat, n: nat, last: nat, cb2: bool, fall: nat, rise: nat)
    requires byte < 256 && n < 8 && Holds(r, r0, byte, n, last) && cb2 == (byte / Pow2(7 - n) % 2 == 1)
    requires if n == 0 then Receptive(r0, rise) else rise - last <= GAP
    ensures var low := MonitorShift(r, Pins(false, cb2, 1), fall);
            Holds(MonitorShift(low, Pins(true, cb2, 1), rise), r0, byte, n + 1, rise)
  {
    LeadingFits(byte, n);
  }

  /** Any byte armed for shifting out is received, eight falling and eight rising edges
      later, as long as no gap between rising edges exceeds the limit. */
  lemma {:induction false} ByteTravels(s: Via, r: Via, byte: nat, falls: seq<nat>, rises: seq<nat>, n: nat)
    requires |falls| == 8 && |rises| == 8 && n <= 8
    requires s.outActive && s.outByte == byte < 256 && s.outEdges == 0 && s.prevCb1 && Receptive(r, rises[0])
    requires forall k, m :: 0 <= k < 8 && m == k + 1 < 8 ==> rises[m] - rises[k] <= GAP
    ensures var (s1, r1) := Exchanges(s, r, falls, rises, n);
            s1.outActive && s1.outEdges == 2 * n && s1.prevCb1 && s1.outByte == byte * Pow2(n) % 256
            && Holds(r1, r, byte, n, if n == 0 then 0 else rises[n - 1])
            && (n == 8 ==> s1.outEdges == 16 && r1.rx == r.rx + [byte])
  {
    if n == 0 {
      assert Pow2(0) == 1;
    } else {
      ByteTravels(s, r, byte, falls, rises, n - 1);
      var (s1, r1) := Exchanges(s, r, falls, rises, n - 1);
      BitTravels(s1, r1, r, byte, n - 1, if n == 1 then 0 else rises[n - 2], falls[n - 1], rises[n - 1]);
    }
  }

  lemma BitTravels(s: Via, r: Via, r0: Via, byte: nat, n: nat, last: nat, fall: nat, rise: nat)
    requires s.outActive && s.outEdges == 2 * n && s.prevCb1 && byte < 256 && n < 8 && s.outByte == byte * Pow2(n) % 256
    requires Holds(r, r0, byte, n, last) && if n == 0 then Receptive(r0, rise) else rise - last <= GAP
    ensures var (s1, r1) := Exchange(s, r, fall, rise);
            s1.outActive && s1.outEdges == 2 * (n + 1) && s1.prevCb1 && s1.outByte == byte * Pow2(n + 1) % 256
            && Holds(r1, r0, byte, n + 1, rise)
  {
    SenderStep(s, byte, n, fall, rise);
    ReceiverStep(r, r0, byte, n, last, MonitorShift(s, Pins(false, true, 1), fall).cb2Out, fall, rise);
  }

  /** From arming to reception: a byte armed on an idle shift register, the clock line high,
      is received over the next sixteen edges, and until the first of them the data line is
      released high. */
  lemma {:induction false} ArmedByteTravels(v: Via, step: Step, r: Via, falls: seq<nat>, rises: seq<nat>)
    requires !v.outActive && v.prevCb1 && step.arm && step.byte < 256
    requires |falls| == 8 && |rises| == 8 && Receptive(r, rises[0])
    requires forall k, m :: 0 <= k < 8 && m == k + 1 < 8 ==> rises[m] - rises[k] <= GAP
    ensures Driven(v, step).cb2Out && Driven(v, step).outEdges == 0
    ensures Exchanges(Driven(v, step), r, falls, rises, 8).0.outEdges == 16
    ensures Exchanges(Driven(v, step), r, falls, rises, 8).1.rx == r.rx + [step.byte]
  {
    ByteTravels(Driven(v, step), r, step.byte, falls, rises, 8);
  }
}
