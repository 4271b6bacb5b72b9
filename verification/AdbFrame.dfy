/** The mid-cell decoder of the ADB harness: the first low sample fixes the frame, and each
    bit cell is read at its middle. */
module AdbFrame {
  import opened Bits

  const CELL := 50
  const WINDOW := 1400

  /** Whether the bus was low, for each tick of the scan. */
  type Scan = s: seq<bool> | |s| == 1400 witness seq(1400, _ => false)

  datatype Outcome = Silence | BadStart | BadStop | Answer(b0: nat, b1: nat)

  predicate FirstLow(s: seq<bool>, start: int) {
    0 <= start < |s| && s[start] && forall k :: 0 <= k < start ==> !s[k]
  }

  /** Past the end of the scan a cell reads as low. */
  predicate CellLow(s: Scan, start: int, cell: nat) {
    var idx := start + cell * CELL + CELL / 2;
    idx < 0 || idx >= WINDOW || s[idx]
  }

  /** The sixteen data cells, a high middle being a one. */
  function DataBits(s: Scan, start: int): (r: seq<bool>)
    ensures |r| == 16
  {
    seq(16, k requires 0 <= k < 16 => !CellLow(s, start, k + 1))
  }

  /** What the cells from `start` on say. */
  function Reading(s: Scan, start: int): Outcome {
    if !CellLow(s, start, 0) then BadStart
    else if CellLow(s, start, 17) then BadStop
    else Answer(FromBits(DataBits(s, start)) / 256, FromBits(DataBits(s, start)) % 256)
  }

  /** The reading from the first low sample, if there is one. */
  ghost function Decoded(s: Scan): Outcome {
    if exists start :: FirstLow(s, start) then
      var start :| FirstLow(s, start);
      Reading(s, start)
    else Silence
  }

  lemma OneFirst(s: seq<bool>, a: int, b: int)
    requires FirstLow(s, a) && FirstLow(s, b)
    ensures a == b
  {
    assert s[a] && s[b];
  }

  lemma DecodedFrom(s: Scan, start: int)
    ensures FirstLow(s, start) ==> Decoded(s) == Reading(s, start)
    ensures (forall k :: 0 <= k < WINDOW ==> !s[k]) ==> Decoded(s) == Silence
  {
    forall first | FirstLow(s, start) && FirstLow(s, first)
      ensures first == start
    {
      OneFirst(s, first, start);
    }
  }

  method DecodeResponse(s: Scan) returns (r: Outcome)
    ensures r == Decoded(s)
    ensures r == Silence <==> forall k :: 0 <= k < WINDOW ==> !s[k]
  {
    var start := -1;
    for i := 0 to WINDOW
      invariant if start < 0 then start == -1 && forall k :: 0 <= k < i ==> !s[k] else FirstLow(s, start) && start < i
    {
      if start < 0 && s[i] {
        start := i;
      }
    }
    DecodedFrom(s, start);
    if start < 0 {
      return Silence;
    }
    if !CellLow(s, start, 0) {
      return BadStart;
    }
    var word := 0;
    for k := 0 to 16
      invariant word == FromBits(DataBits(s, start)[..k]) && 0 <= word < Pow2(k)
    {
      var bits := DataBits(s, start);
      FromBitsAppend(bits[..k], bits[k]);
      FromBitsBound(bits[..k + 1]);
      assert bits[..k + 1] == bits[..k] + [bits[k]];
      WordFits(2 * word + (if bits[k] then 1 else 0), k + 1);
      word := (2 * word + if !CellLow(s, start, k + 1) then 1 else 0) % 65536;
    }
    assert DataBits(s, start)[..16] == DataBits(s, start);
    if CellLow(s, start, 17) {
      return BadStop;
    }
    Pow2Eight();
    r := Answer(word / 256, word % 256);
  }

  lemma WordFits(x: int, n: nat)
    requires 0 <= x < Pow2(n) && n <= 16
    ensures x % 65536 == x
  {
    Pow2Eight();
    Pow2Grows(n, 16);
  }

  // ---------------------------------------------------------------- frames

  /** Cell c of the frame for two bytes: a zero start bit, the bytes, a one stop bit. */
  function FrameBits(b0: nat, b1: nat): (r: seq<bool>)
    ensures |r| == 18
  {
    [false] + (ToBits(b0, 8) + ToBits(b1, 8)) + [true]
  }

  /** A zero keeps the bus low past the middle of its cell, a one releases it before. */
  predicate Widths(bits: seq<bool>, widths: seq<int>) {
    |widths| == |bits|
    && forall c :: 0 <= c < |bits| ==> if bits[c] then 1 <= widths[c] <= 25 else 26 <= widths[c] <= 49
  }

  /** Idle for `idle` ticks, then the cells; what comes after the frame is free. */
  predicate Carries(s: Scan, idle: nat, widths: seq<int>) {
    (forall k :: 0 <= k < idle && k < WINDOW ==> !s[k])
    && forall c, i :: 0 <= c < |widths| && 0 <= i < CELL && idle + c * CELL + i < WINDOW ==>
         s[At(idle, c, i)] == (i < widths[c])
  }

  function At(idle: nat, c: int, i: int): int {
    idle + c * CELL + i
  }

  lemma FrameStart(s: Scan, idle: nat, widths: seq<int>)
    requires idle < WINDOW && |widths| == 18 && widths[0] > 0 && Carries(s, idle, widths)
    ensures FirstLow(s, idle)
  {
    assert s[At(idle, 0, 0)];
  }

  lemma FrameCell(s: Scan, idle: nat, bits: seq<bool>, widths: seq<int>, c: nat)
    requires |bits| == 18 && c < 18 && Widths(bits, widths) && Carries(s, idle, widths)
    ensures CellLow(s, idle, c) <==> !bits[c] || At(idle, c, 25) >= WINDOW
  {
    if At(idle, c, 25) < WINDOW {
      assert s[At(idle, c, 25)] == (25 < widths[c]);
    }
  }

  lemma FrameWord(s: Scan, idle: nat, b0: nat, b1: nat, widths: seq<int>)
    requires idle <= 524 && b0 < 256 && b1 < 256
    requires Widths(FrameBits(b0, b1), widths) && Carries(s, idle, widths)
    ensures FromBits(DataBits(s, idle)) == 256 * b0 + b1
  {
    var bits := FrameBits(b0, b1);
    forall c | 0 <= c < 18
      ensures CellLow(s, idle, c) == !bits[c]
    {
      FrameCell(s, idle, bits, widths, c);
    }
    assert DataBits(s, idle) == ToBits(b0, 8) + ToBits(b1, 8);
    FromBitsConcat(ToBits(b0, 8), ToBits(b1, 8));
    Pow2Eight();
    BitsRoundTrip(b0, 8);
    BitsRoundTrip(b1, 8);
  }

  /** Every frame of two bytes, whatever the pulse widths within their classes, decodes to
      those bytes if and only if it starts by tick 524; a later one is a bad stop bit, and
      one beyond the scan is silence. */
  lemma FrameDecodesIff(s: Scan, idle: nat, b0: nat, b1: nat, widths: seq<int>)
    requires b0 < 256 && b1 < 256 && Widths(FrameBits(b0, b1), widths) && Carries(s, idle, widths)
    ensures Decoded(s) == if idle <= 524 then Answer(b0, b1) else if idle < WINDOW then BadStop else Silence
  {
    DecodedFrom(s, idle);
    if idle < WINDOW {
      FrameStart(s, idle, widths);
      FrameCell(s, idle, FrameBits(b0, b1), widths, 0);
      FrameCell(s, idle, FrameBits(b0, b1), widths, 17);
      if idle <= 524 {
        FrameWord(s, idle, b0, b1, widths);
      }
    }
  }

  // ---------------------------------------------------------------- longest low run

  predicate LowRun(s: seq<bool>, i: int, j: int) {
    0 <= i <= j <= |s| && forall k :: i <= k < j ==> s[k]
  }

  method MaxLowRun(s: seq<bool>) returns (best: nat)
    ensures exists i, j :: LowRun(s, i, j) && j - i == best
    ensures forall i, j :: LowRun(s, i, j) ==> j - i <= best
  {
    best := 0;
    var cur := 0;
    ghost var at := 0;
    assert LowRun(s, 0, 0);
    for n := 0 to |s|
      invariant 0 <= cur <= n && cur <= best && LowRun(s, n - cur, n) && (n - cur > 0 ==> !s[n - cur - 1])
      invariant LowRun(s, at, at + best)
      invariant forall i, j :: LowRun(s, i, j) && j <= n ==> j - i <= best
    {
      if s[n] {
        cur := cur + 1;
        if cur > best {
          best := cur;
          at := n + 1 - cur;
        }
      } else {
        cur := 0;
      }
      forall i, j | LowRun(s, i, j) && j <= n + 1
        ensures j - i <= best
      {
        if j == n + 1 && i <= n {
          assert s[n];
          assert LowRun(s, i, n);
        }
      }
    }
  }
}
