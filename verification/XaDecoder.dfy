/** The reference decoder for CD-XA compressed audio: blocks of a parameter byte and
    fourteen data bytes give 28 samples through a two-tap predictor. */
module XaDecoder {
  import opened Bits
  import opened Bytes

  type Sample = s: int | -32768 <= s < 32768
  type Tap = c: int | -128 <= c < 128
  type Taps = s: seq<Tap> | |s| == 8 witness [0, 0, 0, 0, 0, 0, 0, 0]

  datatype State = State(s0: int, s1: int, pos: nat, subpos: nat, at: nat, param: Byte, byte: Byte)

  datatype Result = End | Out(sample: int)

  const FRESH := State(0, 0, 0, 0, 0, 0, 0)

  /** Arithmetic shift right. */
  function Shr(x: int, n: nat): int {
    x / Pow2(n)
  }

  /** Conversion to a signed 16-bit integer. */
  function Int16(x: int): (r: Sample) {
    var m := x % 65536;
    if m < 32768 then m else m - 65536
  }

  function Clamp(x: int): (r: Sample)
    ensures -32768 <= x < 32768 ==> r == x
    ensures x < -32768 ==> r == -32768
    ensures x >= 32768 ==> r == 32767
  {
    if x < -32768 then -32768 else if x > 32767 then 32767 else x
  }

  function Filter(param: Byte): (f: nat)
    ensures f < 4
  {
    param / 16 % 4
  }

  function Shift(param: Byte): (n: nat)
    ensures n <= 12
  {
    if param % 16 < 12 then param % 16 else 12
  }

  function Prediction(coeff: Taps, param: Byte, s0: int, s1: int): int {
    Shr(coeff[Filter(param) * 2 + 1] * s0 + coeff[Filter(param) * 2] * s1 + 32, 6)
  }

  datatype Fetched = Short | Nibble(n: int)

  /** The parameter byte at the start of a block, then a data byte for every two nibbles;
      at the end of the stream the position has moved all the same. */
  function FetchNibble(s: State, stream: seq<Byte>): (State, Fetched) {
    if s.pos == 0 && s.at >= |stream| then (s.(at := s.at + 1), Short)
    else
      var t := if s.pos == 0 then s.(param := stream[s.at], at := s.at + 1, subpos := 0) else s;
      if t.subpos != 0 then (t.(subpos := 0), Nibble(t.byte / 16))
      else if t.at >= |stream| then (t.(at := t.at + 1), Short)
      else (t.(byte := stream[t.at], at := t.at + 1, subpos := 1), Nibble(stream[t.at] % 16))
  }

  function Filtered(coeff: Taps, param: Byte, nibble: int, s0: int, s1: int): Sample {
    Clamp(Shr(Int16(nibble * 4096), Shift(param)) + Prediction(coeff, param, s0, s1))
  }

  /** One call; the end of the stream is an error. */
  function Advance(s: State, coeff: Taps, stream: seq<Byte>): (State, Result) {
    var (u, f) := FetchNibble(s, stream);
    if f.Short? then (u, End)
    else
      var sample := Filtered(coeff, u.param, f.n, u.s0, u.s1);
      (u.(s1 := u.s0, s0 := sample, pos := (u.pos + 1) % 28), Out(sample))
  }

  class Decoder {
    var s0: int
    var s1: int
    var pos: nat
    var subpos: nat
    var at: nat
    var param: Byte
    var byte: Byte
    const coeff: Taps

    ghost function Value(): State
      reads this
    {
      State(s0, s1, pos, subpos, at, param, byte)
    }

    constructor (taps: Taps)
      ensures Value() == FRESH && coeff == taps
    {
      s0, s1, pos, subpos, at, param, byte := 0, 0, 0, 0, 0, 0, 0;
      coeff := taps;
    }

    method Next(stream: seq<Byte>) returns (r: Result)
      modifies this
      ensures (Value(), r) == Advance(old(Value()), coeff, stream)
    {
      if pos == 0 {
        at := at + 1;
        if at > |stream| {
          return End;
        }
        param, subpos := stream[at - 1], 0;
      }
      var raw;
      if subpos == 0 {
        at := at + 1;
        if at > |stream| {
          return End;
        }
        byte := stream[at - 1];
        raw, subpos := Int16(byte % 16 * 4096), 1;
      } else {
        raw, subpos := Int16(byte / 16 * 4096), 0;
      }
      var sample := Clamp(Shr(raw, Shift(param)) + Prediction(coeff, param, s0, s1));
      s1, s0 := s0, sample;
      pos := (pos + 1) % 28;
      r := Out(sample);
    }
  }

  // ---------------------------------------------------------------- reference

  /** Bytes read after k samples: fifteen for each whole block, then the parameter and one
      for every second sample. */
  function BytesUsed(k: nat): nat {
    15 * (k / 28) + if k % 28 == 0 then 0 else 1 + (k % 28 + 1) / 2
  }

  /** A four-bit two's complement number. */
  function SignedNibble(n: int): int {
    if n < 8 then n else n - 16
  }

  function ByteAt(stream: seq<Byte>, i: nat): Byte {
    if i < |stream| then stream[i] else 0
  }

  /** Sample k uses the parameter of block k / 28 and nibble k % 28 of its data, low first. */
  function ParamOf(stream: seq<Byte>, k: nat): Byte {
    ByteAt(stream, 15 * (k / 28))
  }

  function DataOf(stream: seq<Byte>, k: nat): Byte {
    ByteAt(stream, 15 * (k / 28) + 1 + k % 28 / 2)
  }

  function NibbleOf(stream: seq<Byte>, k: nat): (n: int)
    ensures 0 <= n < 16
  {
    if k % 2 == 0 then DataOf(stream, k) % 16 else DataOf(stream, k) / 16
  }

  /** The samples, from the format's own definition: a nibble scaled by the low half of the
      parameter plus a prediction from the two samples before it, by the two taps that the
      high half selects, in 64ths and rounded. */
  function Decoded(coeff: Taps, stream: seq<Byte>, k: int): (r: Sample)
    decreases if k < 0 then 0 else k + 1
  {
    if k < 0 then 0
    else
      var p := ParamOf(stream, k);
      var f, n := p / 16 % 4, if p % 16 < 12 then p % 16 else 12;
      var x1, x2 := Decoded(coeff, stream, k - 1), Decoded(coeff, stream, k - 2);
      Clamp(SignedNibble(NibbleOf(stream, k)) * Pow2(12 - n) + (coeff[2 * f + 1] * x1 + coeff[2 * f] * x2 + 32) / 64)
  }

  lemma BytesGrow(k: nat)
    ensures BytesUsed(k) <= BytesUsed(k + 1) <= BytesUsed(k) + 2
  {
  }

  // ---------------------------------------------------------------- arithmetic

  lemma {:induction false} Pow2Sum(a: nat, b: nat)
    ensures Pow2(a + b) == Pow2(a) * Pow2(b)
  {
    if a > 0 {
      Pow2Sum(a - 1, b);
    }
  }

  lemma Pow2Twelve()
    ensures Pow2(12) == 4096
  {
    Pow2Sum(6, 6);
    Pow2Six();
  }

  lemma Pow2Six()
    ensures Pow2(6) == 64
  {
    Pow2Sum(3, 3);
    assert Pow2(3) == 8;
  }

  lemma MultipleBelow(d: int, b: int)
    requires b > 0 && 0 <= b * d < b
    ensures d == 0
  {
  }

  lemma ExactDivision(a: int, b: int)
    requires b > 0
    ensures a * b / b == a
  {
    var x := a * b;
    assert x == b * (x / b) + x % b;
    assert b * (a - x / b) == x - b * (x / b);
    MultipleBelow(a - x / b, b);
  }

  /** Shifting the sign-extended nibble right loses nothing. */
  lemma ShiftIsExact(n: int, shift: nat)
    requires 0 <= n < 16 && shift <= 12
    ensures Shr(Int16(n * 4096), shift) == SignedNibble(n) * Pow2(12 - shift)
  {
    Pow2Twelve();
    Pow2Sum(12 - shift, shift);
    var v := SignedNibble(n);
    assert Int16(n * 4096) == v * 4096;
    assert v * 4096 == v * Pow2(12 - shift) * Pow2(shift) by {
      assert v * (Pow2(12 - shift) * Pow2(shift)) == v * Pow2(12 - shift) * Pow2(shift);
    }
    ExactDivision(v * Pow2(12 - shift), Pow2(shift));
  }

  lemma ProductBound(c: Tap, s: Sample)
    ensures -4194304 <= c * s <= 4194304
  {
    assert -128 * 32768 <= c * s <= 128 * 32768;
  }

  lemma {:induction false} Pow2Bound(n: nat)
    requires n <= 12
    ensures 1 <= Pow2(n) <= 4096
  {
    Pow2Twelve();
    Pow2Sum(n, 12 - n);
    assert Pow2(n) <= Pow2(n) * Pow2(12 - n);
  }

  /** No intermediate value overflows a 32-bit integer, for any coefficients. */
  lemma NoOverflow(coeff: Taps, param: Byte, s0: Sample, s1: Sample, n: int)
    requires 0 <= n < 16
    ensures var sum := coeff[Filter(param) * 2 + 1] * s0 + coeff[Filter(param) * 2] * s1 + 32;
            -0x8000_0000 <= sum < 0x8000_0000
            && -0x8000_0000 <= Shr(Int16(n * 4096), Shift(param)) + Prediction(coeff, param, s0, s1) < 0x8000_0000
  {
    ProductBound(coeff[Filter(param) * 2 + 1], s0);
    ProductBound(coeff[Filter(param) * 2], s1);
    ShiftIsExact(n, Shift(param));
    NibbleBound(n, Shift(param));
    Pow2Six();
  }

  lemma NibbleBound(n: int, shift: nat)
    requires 0 <= n < 16 && shift <= 12
    ensures -32768 <= SignedNibble(n) * Pow2(12 - shift) <= 32768
  {
    Pow2Bound(12 - shift);
    ScaledBound(SignedNibble(n), Pow2(12 - shift));
  }

  lemma ScaledBound(v: int, p: int)
    requires -8 <= v <= 8 && 0 <= p <= 4096
    ensures -32768 <= v * p <= 32768
  {
    assert -8 * p <= v * p <= 8 * p;
  }

  // ---------------------------------------------------------------- the decoder is the reference

  /** Where the decoder stands in the stream after k successful calls. */
  predicate Located(s: State, stream: seq<Byte>, k: nat) {
    s.at == BytesUsed(k) && s.pos == k % 28 && (s.pos != 0 ==> s.subpos == k % 2)
    && (s.pos != 0 ==> s.param == ParamOf(stream, k - 1))
    && (s.pos != 0 && s.subpos == 1 ==> s.byte == DataOf(stream, k - 1))
  }

  /** The last two samples. */
  predicate Remembers(s: State, coeff: Taps, stream: seq<Byte>, k: nat) {
    s.s0 == Decoded(coeff, stream, k - 1) && s.s1 == Decoded(coeff, stream, k - 2)
  }

  predicate After(s: State, coeff: Taps, stream: seq<Byte>, k: nat) {
    Located(s, stream, k) && Remembers(s, coeff, stream, k)
  }

  /** Division by a block of 28, written with quotient and remainder. */
  lemma BlockOf(q: nat, r: nat)
    requires r < 28
    ensures (28 * q + r) / 28 == q && (28 * q + r) % 28 == r && (28 * q + r) % 2 == r % 2
  {
    BlockQuotient(q, r);
    BlockParity(14 * q, r);
  }

  lemma BlockQuotient(q: nat, r: nat)
    requires r < 28
    ensures (28 * q + r) / 28 == q && (28 * q + r) % 28 == r
  {
    var x := 28 * q + r;
    assert x == 28 * (x / 28) + x % 28;
    assert 28 * (x / 28 - q) == r - x % 28;
  }

  lemma BlockParity(m: nat, r: nat)
    ensures (2 * m + r) % 2 == r % 2
  {
  }

  /** Where the next block begins. */
  lemma BlockStart(k: nat)
    requires k % 28 == 0
    ensures BytesUsed(k) == 15 * (k / 28) && BytesUsed(k + 1) == BytesUsed(k) + 2 && k % 2 == 0 && (k + 1) % 28 == 1
  {
    var q := k / 28;
    BlockOf(q, 0);
    BlockOf(q, 1);
    assert k == 28 * q + 0 && k + 1 == 28 * q + 1;
  }

  /** Where the next byte of a block is. */
  lemma EvenNibble(k: nat)
    requires k % 28 != 0 && k % 2 == 0
    ensures 15 * (k / 28) + 1 + k % 28 / 2 == BytesUsed(k) && BytesUsed(k + 1) == BytesUsed(k) + 1
    ensures (k - 1) / 28 == k / 28 && (k + 1) % 28 == k % 28 + 1
  {
    var q, r := k / 28, k % 28;
    assert k == 28 * q + r;
    BlockOf(q, r);
    BlockOf(q, r + 1);
    BlockOf(q, r - 1);
    assert k + 1 == 28 * q + (r + 1) && k - 1 == 28 * q + (r - 1);
  }

  /** The second nibble of a byte needs nothing more. */
  lemma OddNibble(k: nat)
    requires k % 2 == 1
    ensures k % 28 != 0 && BytesUsed(k + 1) == BytesUsed(k)
    ensures (k - 1) / 28 == k / 28 && (k - 1) % 28 / 2 == k % 28 / 2
    ensures (k + 1) % 28 == if k % 28 == 27 then 0 else k % 28 + 1
  {
    var q, r := k / 28, k % 28;
    assert k == 28 * q + r;
    BlockOf(q, r);
    BlockOf(q, r - 1);
    assert k - 1 == 28 * q + (r - 1);
    if r == 27 {
      BlockOf(q + 1, 0);
      assert k + 1 == 28 * (q + 1) + 0;
    } else {
      BlockOf(q, r + 1);
      assert k + 1 == 28 * q + (r + 1);
    }
  }

  lemma NextPosition(k: nat)
    ensures (k % 28 + 1) % 28 == (k + 1) % 28
  {
    if k % 28 == 0 {
      BlockStart(k);
    } else if k % 2 == 0 {
      EvenNibble(k);
    } else {
      OddNibble(k);
    }
  }

  /** A call brings in the parameter and the nibble sample k needs. */
  predicate Fetching(s: State, u: State, f: Fetched, stream: seq<Byte>, k: nat) {
    f == Nibble(NibbleOf(stream, k)) && u.at == BytesUsed(k + 1) && u.subpos == (k + 1) % 2
    && u.param == ParamOf(stream, k) && u.byte == DataOf(stream, k)
    && u.s0 == s.s0 && u.s1 == s.s1 && u.pos == s.pos
  }

  lemma OpensBlock(s: State, stream: seq<Byte>)
    requires s.pos == 0 && s.at + 2 <= |stream|
    ensures FetchNibble(s, stream)
         == (s.(param := stream[s.at], byte := stream[s.at + 1], at := s.at + 2, subpos := 1),
             Nibble(stream[s.at + 1] % 16))
  {
  }

  lemma ReadsByte(s: State, stream: seq<Byte>)
    requires s.pos != 0 && s.subpos == 0 && s.at + 1 <= |stream|
    ensures FetchNibble(s, stream) == (s.(byte := stream[s.at], at := s.at + 1, subpos := 1), Nibble(stream[s.at] % 16))
  {
  }

  lemma UsesHeldByte(s: State, stream: seq<Byte>)
    requires s.pos != 0 && s.subpos == 1
    ensures FetchNibble(s, stream) == (s.(subpos := 0), Nibble(s.byte / 16))
  {
  }

  /** Which bytes of the stream sample k takes, as seen from the read position. */
  lemma StartBytes(stream: seq<Byte>, k: nat, at: nat)
    requires k % 28 == 0 && BytesUsed(k + 1) <= |stream| && at == BytesUsed(k)
    ensures BytesUsed(k + 1) == at + 2 && ParamOf(stream, k) == stream[at] && DataOf(stream, k) == stream[at + 1]
  {
    BlockStart(k);
  }

  lemma EvenBytes(stream: seq<Byte>, k: nat, at: nat)
    requires k % 28 != 0 && k % 2 == 0 && BytesUsed(k + 1) <= |stream| && at == BytesUsed(k)
    ensures BytesUsed(k + 1) == at + 1 && DataOf(stream, k) == stream[at]
  {
    EvenNibble(k);
  }

  lemma NibbleIs(stream: seq<Byte>, k: nat)
    ensures NibbleOf(stream, k) == if k % 2 == 0 then DataOf(stream, k) % 16 else DataOf(stream, k) / 16
    ensures (k + 1) % 2 == 1 - k % 2
  {
  }

  lemma SameBlock(stream: seq<Byte>, k: nat)
    requires k % 28 != 0
    ensures ParamOf(stream, k - 1) == ParamOf(stream, k)
    ensures k % 2 == 1 ==> DataOf(stream, k - 1) == DataOf(stream, k)
  {
    if k % 2 == 0 {
      EvenNibble(k);
    } else {
      OddNibble(k);
    }
  }

  lemma Fetches(s: State, stream: seq<Byte>, k: nat)
    requires BytesUsed(k + 1) <= |stream| && Located(s, stream, k)
    ensures Fetching(s, FetchNibble(s, stream).0, FetchNibble(s, stream).1, stream, k)
  {
    NibbleIs(stream, k);
    if k % 28 == 0 {
      BlockStart(k);
      StartBytes(stream, k, s.at);
      OpensBlock(s, stream);
    } else {
      SameBlock(stream, k);
      if k % 2 == 0 {
        EvenBytes(stream, k, s.at);
        ReadsByte(s, stream);
      } else {
        OddNibble(k);
        UsesHeldByte(s, stream);
      }
    }
  }

  lemma FilteredIsDecoded(coeff: Taps, stream: seq<Byte>, k: nat)
    ensures Filtered(coeff, ParamOf(stream, k), NibbleOf(stream, k),
                     Decoded(coeff, stream, k - 1), Decoded(coeff, stream, k - 2))
         == Decoded(coeff, stream, k)
  {
    ShiftIsExact(NibbleOf(stream, k), Shift(ParamOf(stream, k)));
    Pow2Six();
  }

  lemma AdvanceLocates(s: State, coeff: Taps, stream: seq<Byte>, k: nat)
    requires BytesUsed(k + 1) <= |stream| && Located(s, stream, k)
    ensures Located(Advance(s, coeff, stream).0, stream, k + 1)
  {
    Fetches(s, stream, k);
    NextPosition(k);
  }

  lemma AdvanceRemembers(s: State, coeff: Taps, stream: seq<Byte>, k: nat)
    requires BytesUsed(k + 1) <= |stream| && After(s, coeff, stream, k)
    ensures Advance(s, coeff, stream).1 == Out(Decoded(coeff, stream, k))
    ensures Remembers(Advance(s, coeff, stream).0, coeff, stream, k + 1)
  {
    Fetches(s, stream, k);
    FilteredIsDecoded(coeff, stream, k);
  }

  lemma AdvanceDecodes(s: State, coeff: Taps, stream: seq<Byte>, k: nat)
    requires After(s, coeff, stream, k) && BytesUsed(k + 1) <= |stream|
    ensures var (t, r) := Advance(s, coeff, stream);
            r == Out(Decoded(coeff, stream, k)) && After(t, coeff, stream, k + 1)
  {
    AdvanceLocates(s, coeff, stream, k);
    AdvanceRemembers(s, coeff, stream, k);
  }

  /** A call fails exactly when the stream is too short for the next sample. */
  lemma EndIff(s: State, coeff: Taps, stream: seq<Byte>, k: nat)
    requires After(s, coeff, stream, k) && BytesUsed(k) <= |stream|
    ensures Advance(s, coeff, stream).1.End? <==> BytesUsed(k + 1) > |stream|
  {
    if BytesUsed(k + 1) <= |stream| {
      Fetches(s, stream, k);
    } else if k % 28 == 0 {
      BlockStart(k);
    } else if k % 2 == 0 {
      EvenNibble(k);
    } else {
      OddNibble(k);
    }
  }

  function Calls(coeff: Taps, stream: seq<Byte>, k: nat): State {
    if k == 0 then FRESH else Advance(Calls(coeff, stream, k - 1), coeff, stream).0
  }

  lemma {:induction false} CallsAfter(coeff: Taps, stream: seq<Byte>, k: nat)
    requires BytesUsed(k) <= |stream|
    ensures After(Calls(coeff, stream, k), coeff, stream, k)
  {
    if k > 0 {
      var j := k - 1;
      BytesGrow(j);
      CallsAfter(coeff, stream, j);
      AdvanceDecodes(Calls(coeff, stream, j), coeff, stream, j);
    }
  }

  /** For any coefficients and stream, as long as the stream lasts: after k calls the
      decoder has read BytesUsed(k) bytes, its history holds the last two samples, which
      are 16-bit values, and its next output is the reference's. */
  lemma {:induction false} DecoderIsReference(coeff: Taps, stream: seq<Byte>, k: nat)
    requires BytesUsed(k + 1) <= |stream|
    ensures BytesUsed(k) <= |stream| && After(Calls(coeff, stream, k), coeff, stream, k)
    ensures Advance(Calls(coeff, stream, k), coeff, stream).1 == Out(Decoded(coeff, stream, k))
  {
    BytesGrow(k);
    CallsAfter(coeff, stream, k);
    AdvanceDecodes(Calls(coeff, stream, k), coeff, stream, k);
  }

  // ---------------------------------------------------------------- the format as a relation

  /** y is the prediction from x1 and x2: their weighted sum in 64ths, rounded to nearest. */
  predicate Predicts(coeff: Taps, p: Byte, x1: int, x2: int, y: int) {
    var f := p / 16 % 4;
    64 * y <= coeff[2 * f + 1] * x1 + coeff[2 * f] * x2 + 32 < 64 * y + 64
  }

  /** x is the scaled nibble plus the prediction, held to sixteen bits. */
  predicate Saturates(v: int, x: int) {
    if v < -32768 then x == -32768 else if v > 32767 then x == 32767 else x == v
  }

  ghost predicate SampleFollows(coeff: Taps, p: Byte, nibble: int, x1: int, x2: int, x: int) {
    var n := if p % 16 < 12 then p % 16 else 12;
    exists y :: Predicts(coeff, p, x1, x2, y) && Saturates(nibble * Pow2(12 - n) + y, x)
  }

  function Before(x: seq<int>, k: int): int
    requires k <= |x|
  {
    if k < 1 then 0 else x[k - 1]
  }

  /** The stream decodes to x: block k / 28 starts with the parameter of sample k, and the
      samples take the nibbles of its fourteen data bytes, the low half of a byte first. */
  ghost predicate DecodesTo(coeff: Taps, stream: seq<Byte>, x: seq<int>) {
    forall k :: 0 <= k < |x| ==> FollowsAt(coeff, stream, x, k)
  }

  ghost predicate FollowsAt(coeff: Taps, stream: seq<Byte>, x: seq<int>, k: int)
    requires 0 <= k < |x|
  {
    var start := 15 * (k / 28);
    var at := start + 1 + k % 28 / 2;
    at < |stream|
    && (var nibble: int := if k % 2 == 0 then stream[at] % 16 else stream[at] / 16;
        SampleFollows(coeff, stream[start], if nibble < 8 then nibble else nibble - 16,
                      Before(x, k), Before(x, k - 1), x[k]))
  }

  /** What n calls give. */
  function Outputs(coeff: Taps, stream: seq<Byte>, n: nat): (x: seq<int>)
    requires BytesUsed(n) <= |stream|
    ensures |x| == n
  {
    if n == 0 then []
    else
      BytesGrow(n - 1);
      DecoderIsReference(coeff, stream, n - 1);
      Outputs(coeff, stream, n - 1) + [Advance(Calls(coeff, stream, n - 1), coeff, stream).1.sample]
  }

  lemma {:induction false} OutputsAreDecoded(coeff: Taps, stream: seq<Byte>, n: nat, k: nat)
    requires BytesUsed(n) <= |stream| && k < n
    ensures Outputs(coeff, stream, n)[k] == Decoded(coeff, stream, k)
  {
    BytesGrow(n - 1);
    DecoderIsReference(coeff, stream, n - 1);
    if k < n - 1 {
      OutputsAreDecoded(coeff, stream, n - 1, k);
    }
  }

  lemma {:induction false} BytesInOrder(k: nat, n: nat)
    requires k <= n
    ensures BytesUsed(k) <= BytesUsed(n)
    decreases n
  {
    if k < n {
      BytesInOrder(k, n - 1);
      BytesGrow(n - 1);
    }
  }

  /** The bytes sample k takes are among the first BytesUsed(k + 1). */
  lemma TakesWithin(k: nat)
    ensures 15 * (k / 28) + 1 + k % 28 / 2 < BytesUsed(k + 1)
  {
    if k % 28 == 0 {
      BlockStart(k);
    } else if k % 2 == 0 {
      EvenNibble(k);
    } else {
      var q, r := k / 28, k % 28;
      OddNibble(k);
      BlockOf(q, r);
      assert k == 28 * q + r;
    }
  }

  lemma DecodedFollows(coeff: Taps, stream: seq<Byte>, k: nat)
    ensures SampleFollows(coeff, ParamOf(stream, k), SignedNibble(NibbleOf(stream, k)),
                          Decoded(coeff, stream, k - 1), Decoded(coeff, stream, k - 2), Decoded(coeff, stream, k))
  {
    var p := ParamOf(stream, k);
    var f := p / 16 % 4;
    var x1, x2 := Decoded(coeff, stream, k - 1), Decoded(coeff, stream, k - 2);
    var y := (coeff[2 * f + 1] * x1 + coeff[2 * f] * x2 + 32) / 64;
    assert Predicts(coeff, p, x1, x2, y);
  }

  /** For any coefficients and stream, what any number of calls give is a decoding of the
      stream by the format. */
  lemma {:induction false} OutputsDecode(coeff: Taps, stream: seq<Byte>, n: nat)
    requires BytesUsed(n) <= |stream|
    ensures DecodesTo(coeff, stream, Outputs(coeff, stream, n))
  {
    var x := Outputs(coeff, stream, n);
    forall k | 0 <= k < n
      ensures FollowsAt(coeff, stream, x, k)
    {
      OutputsAreDecoded(coeff, stream, n, k);
      if k > 0 {
        OutputsAreDecoded(coeff, stream, n, k - 1);
      }
      if k > 1 {
        OutputsAreDecoded(coeff, stream, n, k - 2);
      }
      TakesWithin(k);
      BytesInOrder(k + 1, n);
      DecodedFollows(coeff, stream, k);
    }
  }

  lemma SampleUnique(coeff: Taps, p: Byte, nibble: int, x1: int, x2: int, x: int, z: int)
    requires SampleFollows(coeff, p, nibble, x1, x2, x) && SampleFollows(coeff, p, nibble, x1, x2, z)
    ensures x == z
  {
    var n := if p % 16 < 12 then p % 16 else 12;
    var y :| Predicts(coeff, p, x1, x2, y) && Saturates(nibble * Pow2(12 - n) + y, x);
    var w :| Predicts(coeff, p, x1, x2, w) && Saturates(nibble * Pow2(12 - n) + w, z);
    assert y == w;
  }

  /** And it is the only one. */
  lemma {:induction false} DecodingIsUnique(coeff: Taps, stream: seq<Byte>, x: seq<int>, z: seq<int>)
    requires |x| == |z| && DecodesTo(coeff, stream, x) && DecodesTo(coeff, stream, z)
    ensures x == z
    decreases |x|
  {
    if |x| > 0 {
      var n := |x| - 1;
      DecodingPrefix(coeff, stream, x);
      DecodingPrefix(coeff, stream, z);
      DecodingIsUnique(coeff, stream, x[..n], z[..n]);
      assert forall k :: 0 <= k < n ==> x[k] == x[..n][k] && z[k] == z[..n][k];
      assert FollowsAt(coeff, stream, x, n) && FollowsAt(coeff, stream, z, n);
      var start, at := 15 * (n / 28), 15 * (n / 28) + 1 + n % 28 / 2;
      var nibble: int := if n % 2 == 0 then stream[at] % 16 else stream[at] / 16;
      SampleUnique(coeff, stream[start], if nibble < 8 then nibble else nibble - 16,
                   Before(x, n), Before(x, n - 1), x[n], z[n]);
    }
  }

  lemma DecodingPrefix(coeff: Taps, stream: seq<Byte>, x: seq<int>)
    requires |x| > 0 && DecodesTo(coeff, stream, x)
    ensures DecodesTo(coeff, stream, x[..|x| - 1])
  {
    var y := x[..|x| - 1];
    forall k | 0 <= k < |y|
      ensures FollowsAt(coeff, stream, y, k)
    {
      assert FollowsAt(coeff, stream, x, k);
    }
  }

  /** Whole blocks always suffice. */
  lemma WholeBlocksSuffice(k: nat)
    ensures BytesUsed(k) <= 15 * ((k + 27) / 28)
    ensures k % 28 == 0 ==> BytesUsed(k) == 15 * (k / 28)
  {
    var q, r := k / 28, k % 28;
    BlockOf(q, r);
    if r == 0 {
      BlockOf(q, 27);
      assert k + 27 == 28 * q + 27;
    } else {
      BlockOf(q + 1, r - 1);
      assert k + 27 == 28 * (q + 1) + (r - 1);
    }
  }
}
