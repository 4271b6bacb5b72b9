/** The port-0 slave over whole runs: framing, responses, memory and the audit counters. */
module XbarSlaveTheorems {
  import opened Bits
  import opened Bytes
  import opened Pairing
  import opened XbarSlave

  datatype Taken = Taken(half: Half, last: bool)

  /** Every address and data beat the slave has taken, and the responses delivered. */
  datatype Account = Account(bursts: seq<Burst>, ids: seq<int>, beats: seq<Taken>, delivered: nat)

  predicate Width(p: Pins) {
    0 <= p.burst.addr < ADDRESS_SPACE
  }

  predicate BTaken(s: S0, p: Pins) {
    AfterW(AfterAw(s, p), p).bPending && p.bready
  }

  function AccountNext(h: Account, s: S0, p: Pins): Account {
    var s1 := AfterAw(s, p);
    Account(
      if AwTaken(s, p) then h.bursts + [p.burst] else h.bursts,
      if AwTaken(s, p) then h.ids + [p.awid] else h.ids,
      if WTaken(s1, p) || EarlyTaken(s1, p) then h.beats + [Taken(p.half, p.wlast)] else h.beats,
      if BTaken(s, p) then h.delivered + 1 else h.delivered)
  }

  // ---------------------------------------------------------------- reference memory and audit

  function StoreTaken(st: Store, bursts: seq<Burst>, beats: seq<Taken>, n: nat): Store
    requires n <= |beats|
  {
    if n == 0 then st
    else
      var at := Wrap32(Target(bursts, |bursts|, n - 1, 16));
      WriteMasked(StoreTaken(st, bursts, beats, n - 1), at, beats[n - 1].half)
  }

  /** Beat g is the last of its burst. */
  predicate Closes(bursts: seq<Burst>, n: nat, g: int)
    requires n <= |bursts|
  {
    n > 0 && (g + 1 == Owed(bursts, n) || Closes(bursts, n - 1, g))
  }

  // ---------------------------------------------------------------- invariant

  /** Beats that have a burst; an early beat has none yet. */
  function Placed(s: S0, h: Account): int {
    |h.beats| - Bit(s.earlyHave)
  }

  predicate Framed(s: S0, h: Account) {
    |h.ids| == |h.bursts| && s.beatsLeft >= 0 && (s.beatsLeft > 0 <==> s.awBusy)
    && (s.earlyHave ==> !s.awBusy && !s.bPending && |h.beats| > 0 && h.beats[|h.beats| - 1].half == s.early)
    && Placed(s, h) == Owed(h.bursts, |h.bursts|) - s.beatsLeft
    && (s.awBusy ==>
          |h.bursts| > 0
          && (var b := h.bursts[|h.bursts| - 1];
              s.beatsLeft <= b.len + 1 && s.awAddr == b.addr && s.awId == h.ids[|h.bursts| - 1]
              && s.curAddr == Wrap32(b.addr + 16 * (b.len + 1 - s.beatsLeft))))
  }

  /** Completed bursts are the responses delivered and the one owed, which carries the id
      of the latest completed burst. */
  predicate Answered(s: S0, h: Account) {
    |h.ids| == |h.bursts|
    && |h.bursts| - Bit(s.awBusy) == h.delivered + Bit(s.bPending)
    && (s.bPending ==> |h.ids| - Bit(s.awBusy) > 0 && s.bId == h.ids[|h.ids| - Bit(s.awBusy) - 1])
  }

  predicate Stored(s: S0, h: Account, st: Store) {
    0 <= Placed(s, h) && s.store == StoreTaken(st, h.bursts, h.beats, Placed(s, h))
  }

  /** Early mode is meant for bursts of one beat. */
  predicate EarlyIsSingle(s: S0, p: Pins) {
    AwTaken(s, p) && s.earlyHave ==> p.burst.len == 0
  }

  // ---------------------------------------------------------------- one cycle

  function AccountAw(h: Account, s: S0, p: Pins): Account {
    if AwTaken(s, p) then h.(bursts := h.bursts + [p.burst], ids := h.ids + [p.awid]) else h
  }

  function AccountW(h: Account, s: S0, p: Pins): Account {
    if WTaken(s, p) || EarlyTaken(s, p) then h.(beats := h.beats + [Taken(p.half, p.wlast)]) else h
  }

  function AccountB(h: Account, s: S0, p: Pins): Account {
    if s.bPending && p.bready then h.(delivered := h.delivered + 1) else h
  }

  lemma AccountsAgree(h: Account, s: S0, p: Pins)
    ensures AccountNext(h, s, p)
         == AccountB(AccountW(AccountAw(h, s, p), AfterAw(s, p), p), AfterW(AfterAw(s, p), p), p)
  {
  }

  lemma AwFrames(s: S0, h: Account, p: Pins)
    requires Framed(s, h) && Width(p)
    ensures Framed(AfterAw(s, p), AccountAw(h, s, p)) <==> EarlyIsSingle(s, p)
  {
    OwedOfPrefix(h.bursts, [p.burst], |h.bursts|);
  }

  lemma WFrames(s: S0, h: Account, p: Pins)
    requires Framed(s, h)
    ensures Framed(AfterW(s, p), AccountW(h, s, p))
  {
  }

  lemma BFrames(s: S0, h: Account, p: Pins)
    requires Framed(s, h)
    ensures Framed(AfterB(s, p), AccountB(h, s, p))
  {
  }

  /** An early beat is paired as AXI pairs it if and only if its burst has one beat. */
  lemma StepFramesIff(s: S0, h: Account, p: Pins)
    requires Framed(s, h) && Width(p)
    ensures EarlyIsSingle(s, p) ==> Framed(StepS0(s, p), AccountNext(h, s, p))
    ensures !EarlyIsSingle(s, p) ==> !Framed(AfterAw(s, p), AccountAw(h, s, p))
  {
    AccountsAgree(h, s, p);
    AwFrames(s, h, p);
    if EarlyIsSingle(s, p) {
      var s1, h1 := AfterAw(s, p), AccountAw(h, s, p);
      WFrames(s1, h1, p);
      BFrames(AfterW(s1, p), AccountW(h1, s1, p), p);
    }
  }

  lemma StepAnswers(s: S0, h: Account, p: Pins)
    requires Framed(s, h) && Answered(s, h)
    ensures Answered(StepS0(s, p), AccountNext(h, s, p))
  {
    AccountsAgree(h, s, p);
    var s1, h1 := AfterAw(s, p), AccountAw(h, s, p);
    assert Answered(s1, h1);
    assert Answered(AfterW(s1, p), AccountW(h1, s1, p));
  }

  // ---------------------------------------------------------------- memory

  lemma {:induction false} StoreTakenGrows(st: Store, bursts: seq<Burst>, b: Burst, beats: seq<Taken>, n: nat)
    requires n <= |beats| && n <= Owed(bursts, |bursts|)
    ensures StoreTaken(st, bursts + [b], beats, n) == StoreTaken(st, bursts, beats, n)
  {
    if n > 0 {
      StoreTakenGrows(st, bursts, b, beats, n - 1);
      LaterBurstsKeepTargets(bursts, b, n - 1, 16);
      assert |bursts + [b]| == |bursts| + 1;
    }
  }

  lemma {:induction false} StoreTakenPrefix(st: Store, bursts: seq<Burst>, beats: seq<Taken>, t: Taken, n: nat)
    requires n <= |beats|
    ensures StoreTaken(st, bursts, beats + [t], n) == StoreTaken(st, bursts, beats, n)
  {
    if n > 0 {
      StoreTakenPrefix(st, bursts, beats, t, n - 1);
    }
  }

  lemma EarlyTarget(s: S0, h: Account, p: Pins)
    requires Framed(s, h) && s.earlyHave
    ensures Target(h.bursts + [p.burst], |h.bursts| + 1, Placed(s, h), 16) == p.burst.addr
  {
    TargetInBurst(h.bursts + [p.burst], |h.bursts| + 1, |h.bursts|, 0, 16);
    OwedOfPrefix(h.bursts, [p.burst], |h.bursts|);
  }

  lemma EarlyStores(s: S0, h: Account, p: Pins, st: Store)
    requires Framed(s, h) && Stored(s, h, st) && Width(p) && s.earlyHave
    ensures WriteMasked(s.store, p.burst.addr, s.early) == StoreTaken(st, h.bursts + [p.burst], h.beats, |h.beats|)
  {
    StoreTakenGrows(st, h.bursts, p.burst, h.beats, Placed(s, h));
    EarlyTarget(s, h, p);
    assert Wrap32(p.burst.addr) == p.burst.addr;
  }

  lemma AwStores(s: S0, h: Account, p: Pins, st: Store)
    requires Framed(s, h) && Stored(s, h, st) && Width(p)
    ensures Stored(AfterAw(s, p), AccountAw(h, s, p), st)
  {
    if AwTaken(s, p) {
      if s.earlyHave {
        EarlyStores(s, h, p, st);
      } else {
        StoreTakenGrows(st, h.bursts, p.burst, h.beats, Placed(s, h));
      }
    }
  }

  /** The slave's current address is where the pairing puts the beat. */
  lemma CurrentTarget(s: S0, h: Account)
    requires Framed(s, h) && s.awBusy
    ensures s.curAddr == Wrap32(Target(h.bursts, |h.bursts|, |h.beats|, 16)) && !s.earlyHave
  {
    var j := |h.bursts| - 1;
    TargetInBurst(h.bursts, j + 1, j, h.bursts[j].len + 1 - s.beatsLeft, 16);
    assert Owed(h.bursts, j) + (h.bursts[j].len + 1 - s.beatsLeft) == |h.beats|;
  }

  lemma BeatStores(s: S0, h: Account, p: Pins, st: Store)
    requires Framed(s, h) && Stored(s, h, st) && s.awBusy
    ensures WriteMasked(s.store, s.curAddr, p.half)
         == StoreTaken(st, h.bursts, h.beats + [Taken(p.half, p.wlast)], |h.beats| + 1)
  {
    CurrentTarget(s, h);
    StoreTakenPrefix(st, h.bursts, h.beats, Taken(p.half, p.wlast), |h.beats|);
  }

  lemma WStores(s: S0, h: Account, p: Pins, st: Store)
    requires Framed(s, h) && Stored(s, h, st)
    ensures Stored(AfterW(s, p), AccountW(h, s, p), st)
  {
    if WTaken(s, p) {
      BeatStores(s, h, p, st);
    } else if EarlyTaken(s, p) {
      StoreTakenPrefix(st, h.bursts, h.beats, Taken(p.half, p.wlast), |h.beats|);
    }
  }

  lemma StepStores(s: S0, h: Account, p: Pins, st: Store)
    requires Framed(s, h) && Stored(s, h, st) && Width(p) && EarlyIsSingle(s, p)
    ensures Stored(StepS0(s, p), AccountNext(h, s, p), st)
  {
    AccountsAgree(h, s, p);
    AwStores(s, h, p, st);
    AwFrames(s, h, p);
    WStores(AfterAw(s, p), AccountAw(h, s, p), p, st);
  }

  // ---------------------------------------------------------------- audit

  function Misplaced(bursts: seq<Burst>, beats: seq<Taken>, n: nat): nat
    requires n <= |beats|
  {
    if n == 0 then 0
    else Misplaced(bursts, beats, n - 1) + Bit(beats[n - 1].last != Closes(bursts, |bursts|, n - 1))
  }

  function Pads(beats: seq<Taken>, n: nat): (r: nat)
    requires n <= |beats|
    ensures r <= n
  {
    if n == 0 then 0 else Pads(beats, n - 1) + Bit(NoStrobe(beats[n - 1].half))
  }

  predicate Audited(s: S0, h: Account) {
    !s.earlyHave && s.beatsSeen == |h.beats|
    && s.padBeats == Pads(h.beats, |h.beats|) && s.wlastErrors == Misplaced(h.bursts, h.beats, |h.beats|)
  }

  lemma {:induction false} ClosesWithin(bursts: seq<Burst>, n: nat, g: int)
    requires n <= |bursts| && g >= Owed(bursts, n)
    ensures !Closes(bursts, n, g)
  {
    if n > 0 {
      ClosesWithin(bursts, n - 1, g);
    }
  }

  lemma {:induction false} ClosesOfPrefix(bursts: seq<Burst>, b: Burst, n: nat, g: int)
    requires n <= |bursts|
    ensures Closes(bursts + [b], n, g) == Closes(bursts, n, g)
  {
    if n > 0 {
      OwedOfPrefix(bursts, [b], n);
      ClosesOfPrefix(bursts, b, n - 1, g);
    }
  }

  /** Beat k of burst j closes it exactly when k is its length. */
  lemma {:induction false} ClosesInBurst(bursts: seq<Burst>, n: nat, j: nat, k: nat)
    requires j < n <= |bursts| && k <= bursts[j].len
    ensures Closes(bursts, n, Owed(bursts, j) + k) <==> k == bursts[j].len
    decreases n
  {
    if j < n - 1 {
      OwedMonotone(bursts, j + 1, n - 1);
      ClosesInBurst(bursts, n - 1, j, k);
    } else {
      ClosesWithin(bursts, j, Owed(bursts, j) + k);
    }
  }

  lemma {:induction false} MisplacedGrows(bursts: seq<Burst>, b: Burst, beats: seq<Taken>, n: nat)
    requires n <= |beats| && n <= Owed(bursts, |bursts|)
    ensures Misplaced(bursts + [b], beats, n) == Misplaced(bursts, beats, n)
  {
    if n > 0 {
      MisplacedGrows(bursts, b, beats, n - 1);
      ClosesOfPrefix(bursts, b, |bursts|, n - 1);
      OwedOfPrefix(bursts, [b], |bursts|);
    }
  }

  lemma {:induction false} CountsPrefix(bursts: seq<Burst>, beats: seq<Taken>, t: Taken, n: nat)
    requires n <= |beats|
    ensures Misplaced(bursts, beats + [t], n) == Misplaced(bursts, beats, n)
    ensures Pads(beats + [t], n) == Pads(beats, n)
  {
    if n > 0 {
      CountsPrefix(bursts, beats, t, n - 1);
    }
  }

  lemma AwAudits(s: S0, h: Account, p: Pins)
    requires Framed(s, h) && Audited(s, h)
    ensures Audited(AfterAw(s, p), AccountAw(h, s, p))
  {
    MisplacedGrows(h.bursts, p.burst, h.beats, |h.beats|);
  }

  lemma WAudits(s: S0, h: Account, p: Pins)
    requires Framed(s, h) && Audited(s, h) && !p.earlyMode
    ensures Audited(AfterW(s, p), AccountW(h, s, p))
  {
    if WTaken(s, p) {
      var j := |h.bursts| - 1;
      CountsPrefix(h.bursts, h.beats, Taken(p.half, p.wlast), |h.beats|);
      ClosesInBurst(h.bursts, j + 1, j, h.bursts[j].len + 1 - s.beatsLeft);
    }
  }

  lemma StepAudits(s: S0, h: Account, p: Pins)
    requires Framed(s, h) && Audited(s, h) && !p.earlyMode && Width(p)
    ensures Audited(StepS0(s, p), AccountNext(h, s, p))
  {
    AccountsAgree(h, s, p);
    AwFrames(s, h, p);
    AwAudits(s, h, p);
    WAudits(AfterAw(s, p), AccountAw(h, s, p), p);
  }

  // ---------------------------------------------------------------- whole runs

  function Play(s: S0, h: Account, pins: seq<Pins>): (S0, Account)
    decreases |pins|
  {
    if |pins| == 0 then (s, h) else Play(StepS0(s, pins[0]), AccountNext(h, s, pins[0]), pins[1..])
  }

  /** Addresses are 32 bits wide and no early beat meets a burst of several beats. */
  predicate Orderly(s: S0, pins: seq<Pins>)
    decreases |pins|
  {
    |pins| > 0 ==>
      Width(pins[0]) && EarlyIsSingle(s, pins[0]) && Orderly(StepS0(s, pins[0]), pins[1..])
  }

  /** In every run, early mode included, the slave's counters frame the bursts it took,
      responses balance, and the store is the fold of masked writes in address order. */
  lemma {:induction false} SlaveRuns(s: S0, h: Account, pins: seq<Pins>, st: Store)
    requires Framed(s, h) && Answered(s, h) && Stored(s, h, st) && Orderly(s, pins)
    ensures var (s', h') := Play(s, h, pins); Framed(s', h') && Answered(s', h') && Stored(s', h', st)
    decreases |pins|
  {
    if |pins| > 0 {
      StepFramesIff(s, h, pins[0]);
      StepAnswers(s, h, pins[0]);
      StepStores(s, h, pins[0], st);
      SlaveRuns(StepS0(s, pins[0]), AccountNext(h, s, pins[0]), pins[1..], st);
    }
  }

  lemma {:induction false} AuditedRuns(s: S0, h: Account, pins: seq<Pins>)
    requires Framed(s, h) && Audited(s, h)
    requires forall k :: 0 <= k < |pins| ==> Width(pins[k]) && !pins[k].earlyMode
    ensures var (s', h') := Play(s, h, pins); Framed(s', h') && Audited(s', h')
    decreases |pins|
  {
    if |pins| > 0 {
      StepFramesIff(s, h, pins[0]);
      StepAudits(s, h, pins[0]);
      AuditedRuns(StepS0(s, pins[0]), AccountNext(h, s, pins[0]), pins[1..]);
    }
  }

  // ---------------------------------------------------------------- an abandoned burst, padded

  /** Two stores that read alike. */
  ghost predicate SameWords(a: Store, b: Store) {
    forall x: int :: ReadWord(a, x) == ReadWord(b, x)
  }

  /** The last burst took k real beats, then filler to its full length with WLAST on the
      final beat only. */
  predicate PaddedAfter(h: Account, k: nat) {
    |h.bursts| > 0
    && (var j := |h.bursts| - 1;
        var o := Owed(h.bursts, j);
        k <= h.bursts[j].len && |h.beats| == o + h.bursts[j].len + 1
        && (forall g :: o <= g < |h.beats| ==> h.beats[g].last == (g == |h.beats| - 1))
        && (forall g :: o <= g < o + k ==> !NoStrobe(h.beats[g].half))
        && (forall g :: o + k <= g < |h.beats| ==> NoStrobe(h.beats[g].half)))
  }

  lemma {:induction false} PadsCounted(beats: seq<Taken>, m: nat, n: nat, filler: bool)
    requires m <= n <= |beats| && forall g :: m <= g < n ==> NoStrobe(beats[g].half) == filler
    ensures Pads(beats, n) == Pads(beats, m) + if filler then n - m else 0
    decreases n
  {
    if m < n {
      PadsCounted(beats, m, n - 1, filler);
    }
  }

  lemma {:induction false} LastsPlaced(bursts: seq<Burst>, beats: seq<Taken>, j: nat, k: nat)
    requires j < |bursts| && k <= bursts[j].len + 1 && Owed(bursts, j) + k <= |beats|
    requires forall g :: Owed(bursts, j) <= g < Owed(bursts, j) + k ==>
               beats[g].last == (g == Owed(bursts, j) + bursts[j].len)
    ensures Misplaced(bursts, beats, Owed(bursts, j) + k) == Misplaced(bursts, beats, Owed(bursts, j))
    decreases k
  {
    if k > 0 {
      LastsPlaced(bursts, beats, j, k - 1);
      ClosesInBurst(bursts, |bursts|, j, k - 1);
    }
  }

  lemma FillerWritesNothing(st: Store, a: int, h: Half)
    requires NoStrobe(h)
    ensures SameWords(WriteMasked(st, a, h), st)
  {
    assert Merge(ReadWord(st, a), h) == ReadWord(st, a);
  }

  lemma {:induction false} FillersWriteNothing(st: Store, bursts: seq<Burst>, beats: seq<Taken>, m: nat, n: nat)
    requires m <= n <= |beats| && forall g :: m <= g < n ==> NoStrobe(beats[g].half)
    ensures SameWords(StoreTaken(st, bursts, beats, n), StoreTaken(st, bursts, beats, m))
    decreases n
  {
    if m < n {
      FillersWriteNothing(st, bursts, beats, m, n - 1);
      var at := Wrap32(Target(bursts, |bursts|, n - 1, 16));
      FillerWritesNothing(StoreTaken(st, bursts, beats, n - 1), at, beats[n - 1].half);
    }
  }

  /** A burst abandoned after k of its beats and padded leaves the slave idle with one more
      response, n more beats seen of which n - k filler, no new WLAST error, the store as
      the real beats alone would leave it, and the next burst at its own address. */
  lemma AbandonedBurstIsPadded(s: S0, h: Account, st: Store, k: nat, next: Burst, i: nat)
    requires Framed(s, h) && Answered(s, h) && Stored(s, h, st) && Audited(s, h) && PaddedAfter(h, k) && i <= next.len
    ensures var j := |h.bursts| - 1;
            var o := Owed(h.bursts, j);
            !s.awBusy && s.beatsLeft == 0 && h.delivered + Bit(s.bPending) == |h.bursts|
            && s.beatsSeen == o + h.bursts[j].len + 1
            && s.padBeats == Pads(h.beats, o) + h.bursts[j].len + 1 - k
            && s.wlastErrors == Misplaced(h.bursts, h.beats, o)
            && SameWords(s.store, StoreTaken(st, h.bursts, h.beats, o + k))
            && Target(h.bursts + [next], |h.bursts| + 1, |h.beats| + i, 16) == next.addr + 16 * i
  {
    PaddedCounts(h, k);
    PaddedIsIdle(s, h, k);
    PaddedStores(s, h, st, k);
    NextOwnAddress(h, k, next, i);
  }

  lemma PaddedStores(s: S0, h: Account, st: Store, k: nat)
    requires Stored(s, h, st) && !s.earlyHave && PaddedAfter(h, k)
    ensures SameWords(s.store, StoreTaken(st, h.bursts, h.beats, Owed(h.bursts, |h.bursts| - 1) + k))
  {
    FillersWriteNothing(st, h.bursts, h.beats, Owed(h.bursts, |h.bursts| - 1) + k, |h.beats|);
  }

  lemma PaddedCounts(h: Account, k: nat)
    requires PaddedAfter(h, k)
    ensures var j := |h.bursts| - 1;
            var o := Owed(h.bursts, j);
            Pads(h.beats, |h.beats|) == Pads(h.beats, o) + h.bursts[j].len + 1 - k
            && Misplaced(h.bursts, h.beats, |h.beats|) == Misplaced(h.bursts, h.beats, o)
  {
    var j := |h.bursts| - 1;
    var o := Owed(h.bursts, j);
    PadsCounted(h.beats, o, o + k, false);
    PadsCounted(h.beats, o + k, |h.beats|, true);
    LastsPlaced(h.bursts, h.beats, j, h.bursts[j].len + 1);
  }

  lemma PaddedIsIdle(s: S0, h: Account, k: nat)
    requires Framed(s, h) && Answered(s, h) && !s.earlyHave && PaddedAfter(h, k)
    ensures !s.awBusy && s.beatsLeft == 0 && h.delivered + Bit(s.bPending) == |h.bursts|
  {
  }

  lemma NextOwnAddress(h: Account, k: nat, next: Burst, i: nat)
    requires PaddedAfter(h, k) && i <= next.len
    ensures Target(h.bursts + [next], |h.bursts| + 1, |h.beats| + i, 16) == next.addr + 16 * i
  {
    OwedOfPrefix(h.bursts, [next], |h.bursts|);
    TargetInBurst(h.bursts + [next], |h.bursts| + 1, |h.bursts|, i, 16);
    assert Owed(h.bursts, |h.bursts|) == |h.beats|;
  }
}
