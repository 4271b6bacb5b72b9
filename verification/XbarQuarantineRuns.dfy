/** Runs from reset that unsettle the port-3 quarantine: a flush that races the last beat of
    a draining burst, and a time-out with a burst still owed. */
module XbarQuarantineRuns {
  import opened XbarReads
  import opened XbarQuarantine

  /** Only slot 1 is in use. */
  predicate Lone(f: Fabric) {
    Shaped(f) && (f.arValid ==> f.arTag == 1)
    && forall k :: 0 <= k < SLOTS && k != 1 ==> Resting(f, k)
  }

  predicate Resting(f: Fabric, k: int)
    requires Shaped(f) && 0 <= k < SLOTS
  {
    f.slots[k] == RESET_SLOT && !f.quarantined[k] && f.owed[k] == []
  }

  /** One cycle of slot 1: the slave takes addresses at once and offers slot 1's beat if
      `beat`. */
  function Feed(flush: bool, r: Request, ready: bool, beat: bool): Inputs {
    Inputs(flush, false, [true, ready, true, true], [Quiet, r, Quiet, Quiet], 1, 1, [Stay, Stay, Stay, Stay], true,
           if beat then 1 else -1)
  }

  const ASK := Feed(false, Port3(0), true, false)
  const IDLE := Feed(false, Quiet, true, false)
  const STALL := Feed(false, Quiet, false, true)
  const FLUSH := Feed(true, Quiet, true, false)
  const FLUSH_ON_LAST := Feed(true, Quiet, true, true)

  lemma LoneNext(f: Fabric, flush: bool, r: Request, ready: bool, beat: bool)
    requires Lone(f) && Fed(Feed(flush, r, ready, beat))
    ensures Lone(FabricNext(f, Feed(flush, r, ready, beat)))
  {
    var i := Feed(flush, r, ready, beat);
    forall k | 0 <= k < SLOTS && k != 1
      ensures Resting(FabricNext(f, i), k)
    {
      assert Resting(f, k);
    }
  }

  /** Slot 1 is idle and the port open; `stale` is what the slave still owes it. */
  predicate Open1(f: Fabric, stale: seq<int>) {
    Lone(f) && f.slots[1].phase == Idle && !f.poisoned && !f.quarantined[1] && !f.arValid && f.owed[1] == stale
  }

  predicate Waiting1(f: Fabric, stale: seq<int>, hold: int) {
    Lone(f) && f.slots[1].phase == WaitR && f.slots[1].len == 0 && f.slots[1].beatsDone == 0
    && f.slots[1].slaveHold == hold && !f.poisoned && !f.quarantined[1] && !f.arValid && f.owed[1] == stale + [1]
  }

  /** A one-beat read is admitted and its address taken. */
  lemma AskTakes(f: Fabric, stale: seq<int>)
    requires Open1(f, stale)
    ensures Fed(ASK) && Fed(IDLE)
    ensures Admits(f, ASK, 1)
    ensures Waiting1(FabricNext(FabricNext(f, ASK), IDLE), stale, 0)
  {
    assert Fed(ASK) && Fed(IDLE);
    LoneNext(f, false, Port3(0), true, false);
    LoneNext(FabricNext(f, ASK), false, Quiet, true, false);
    assert Resting(f, 0) && Resting(f, 2) && Resting(f, 3);
    var g := FabricNext(f, ASK);
    assert g.slots[1].phase == WaitAr && g.arValid && g.arTag == 1 && g.arLen == 0 && !g.quarantined[1];
    assert g.owed[1] == stale;
  }

  function Repeat(i: Inputs, n: nat): (r: seq<Inputs>)
    ensures |r| == n && forall k :: 0 <= k < n ==> r[k] == i
  {
    seq(n, _ => i)
  }

  lemma RunsOneMore(f: Fabric, i: Inputs, n: nat)
    requires Shaped(f) && Fed(i) && n > 0
    ensures FabricRun(f, Repeat(i, n)) == FabricNext(FabricRun(f, Repeat(i, n - 1)), i)
  {
    assert Repeat(i, n)[..n - 1] == Repeat(i, n - 1);
  }

  lemma StallStep(f: Fabric, hold: int)
    requires Waiting1(f, [], hold) && 0 <= hold <= HOLD_MAX
    ensures Fed(STALL)
    ensures hold < HOLD_MAX ==> Waiting1(FabricNext(f, STALL), [], hold + 1)
    ensures hold == HOLD_MAX ==> Draining1(FabricNext(f, STALL))
  {
    assert Fed(STALL);
    LoneNext(f, false, Quiet, false, true);
    assert Resting(f, 0) && Resting(f, 2) && Resting(f, 3);
    assert f.owed[1] == [1] && [] + [1] == [1];
  }

  lemma {:induction false} Stalls(f: Fabric, n: nat)
    requires Waiting1(f, [], 0) && n <= HOLD_MAX
    ensures Fed(STALL) && Waiting1(FabricRun(f, Repeat(STALL, n)), [], n)
  {
    assert Fed(STALL);
    if n > 0 {
      Stalls(f, n - 1);
      RunsOneMore(f, STALL, n);
      StallStep(FabricRun(f, Repeat(STALL, n - 1)), n - 1);
    }
  }

  /** Without a flush nothing is unsettled. */
  lemma {:induction false} CalmRun(f: Fabric, ins: seq<Inputs>)
    requires Settled(f) && !AnyQuarantined(f)
    requires forall n :: 0 <= n < |ins| ==> Fed(ins[n]) && !ins[n].flush
    ensures Settled(FabricRun(f, ins)) && !AnyQuarantined(FabricRun(f, ins))
    decreases |ins|
  {
    if |ins| > 0 {
      CalmRun(f, ins[..|ins| - 1]);
      StepIff(FabricRun(f, ins[..|ins| - 1]), ins[|ins| - 1]);
    }
  }

  lemma ResetIsSettled(limit: nat)
    ensures Settled(FabricReset(limit)) && Open1(FabricReset(limit), [])
  {
    var f := FabricReset(limit);
    assert forall k :: 0 <= k < SLOTS ==> ServedOk(f, k) && KeptAt(f, k) && Resting(f, k);
  }

  /** A one-beat read from reset, its address taken. */
  function Asked(limit: nat): (f: Fabric)
    ensures Shaped(f)
  {
    assert Fed(ASK) && Fed(IDLE);
    FabricNext(FabricNext(FabricReset(limit), ASK), IDLE)
  }

  lemma AskedWaits(limit: nat)
    ensures Waiting1(Asked(limit), [], 0) && Settled(Asked(limit)) && !AnyQuarantined(Asked(limit))
    ensures Asked(limit).limit == limit
  {
    var z := FabricReset(limit);
    ResetIsSettled(limit);
    AskTakes(z, []);
    StepIff(z, ASK);
    StepIff(FabricNext(z, ASK), IDLE);
  }

  /** Its master takes no beat for n + 1 cycles. */
  function Unread(limit: nat, n: nat): (f: Fabric)
    ensures Shaped(f)
  {
    assert Fed(STALL);
    FabricRun(Asked(limit), Repeat(STALL, n + 1))
  }

  /** After the longest hold the slot drains, and a flush on its last beat is the race. */
  lemma RaceIsReachable(limit: nat, n: nat)
    requires n == HOLD_MAX
    ensures Fed(FLUSH_ON_LAST)
    ensures Draining1(Unread(limit, n)) && Settled(Unread(limit, n)) && Race(Unread(limit, n), FLUSH_ON_LAST, 1)
    ensures Unread(limit, n).limit == limit
  {
    AskedWaits(limit);
    var f := Asked(limit);
    StallDrains(f, n);
    CalmRun(f, Repeat(STALL, n + 1));
    LimitStays(f, Repeat(STALL, n + 1));
    DrainingRaces(Unread(limit, n));
  }

  lemma DrainingRaces(f: Fabric)
    requires Draining1(f)
    ensures Fed(FLUSH_ON_LAST) && Race(f, FLUSH_ON_LAST, 1)
  {
  }

  /** Slot 1 drains a burst of one beat. */
  predicate Draining1(f: Fabric) {
    Lone(f) && f.slots[1].phase == Drain && f.slots[1].bcnt == 1 && f.owed[1] == [1] && !f.poisoned
  }

  lemma StallDrains(f: Fabric, n: nat)
    requires Waiting1(f, [], 0) && n == HOLD_MAX
    ensures Fed(STALL) && Draining1(FabricRun(f, Repeat(STALL, n + 1)))
  {
    Stalls(f, n);
    StallStep(FabricRun(f, Repeat(STALL, n)), n);
    RunsOneMore(f, STALL, n + 1);
  }

  // ---------------------------------------------------------------- after the flush

  /** Slot 1 is quarantined with `stale` to come, n cycles of the timer gone; its own tail
      is over after the first. */
  predicate Parked1(f: Fabric, stale: seq<int>, n: int) {
    Lone(f) && f.quarantined[1] && f.owed[1] == stale && f.timer == n && !f.arValid && !f.poisoned
    && (if n == 0 then f.slots[1].phase == Local && f.slots[1].bcnt == 1 else f.slots[1].phase == Idle)
  }

  /** The timer has given up and closed the port. */
  predicate Shut1(f: Fabric, stale: seq<int>) {
    Lone(f) && f.slots[1].phase == Idle && f.poisoned && !f.flushed && !AnyQuarantined(f) && !f.arValid
    && f.owed[1] == stale
  }

  lemma ParkedStep(f: Fabric, stale: seq<int>, n: int)
    requires Parked1(f, stale, n) && 0 <= n <= f.limit
    ensures Fed(IDLE)
    ensures n < f.limit ==> Parked1(FabricNext(f, IDLE), stale, n + 1)
    ensures n == f.limit ==> Shut1(FabricNext(f, IDLE), stale)
  {
    assert Fed(IDLE);
    LoneNext(f, false, Quiet, true, false);
    assert Resting(f, 0) && Resting(f, 2) && Resting(f, 3);
  }

  lemma {:induction false} Parks(f: Fabric, stale: seq<int>, n: nat)
    requires Parked1(f, stale, 0) && n <= f.limit
    ensures Fed(IDLE)
    ensures Parked1(FabricRun(f, Repeat(IDLE, n)), stale, n) && FabricRun(f, Repeat(IDLE, n)).limit == f.limit
  {
    assert Fed(IDLE);
    if n > 0 {
      Parks(f, stale, n - 1);
      RunsOneMore(f, IDLE, n);
      ParkedStep(FabricRun(f, Repeat(IDLE, n - 1)), stale, n - 1);
    }
  }

  /** One more than the limit, and the port is closed; the next flush opens it, with the
      stale burst forgotten. */
  lemma Reopens(f: Fabric, stale: seq<int>)
    requires Parked1(f, stale, 0) && f.limit >= 0
    ensures Fed(IDLE) && Fed(FLUSH)
    ensures Shut1(FabricRun(f, Repeat(IDLE, f.limit + 1)), stale)
    ensures Open1(FabricNext(FabricRun(f, Repeat(IDLE, f.limit + 1)), FLUSH), stale)
  {
    assert Fed(FLUSH);
    Parks(f, stale, f.limit);
    RunsOneMore(f, IDLE, f.limit + 1);
    var g := FabricRun(f, Repeat(IDLE, f.limit));
    ParkedStep(g, stale, f.limit);
    ShutOpens(FabricNext(g, IDLE), stale);
  }

  lemma ShutOpens(f: Fabric, stale: seq<int>)
    requires Shut1(f, stale)
    ensures Fed(FLUSH) && Open1(FabricNext(f, FLUSH), stale)
  {
    LoneNext(f, true, Quiet, true, false);
  }

  /** A race blocks the port until the timer, which closes it; the next flush opens it and
      reads are admitted again. */
  lemma RaceRecovers(limit: nat, n: nat)
    requires n == HOLD_MAX
    ensures Fed(FLUSH_ON_LAST) && Fed(IDLE) && Fed(FLUSH) && Fed(ASK)
    ensures var f := FabricNext(Unread(limit, n), FLUSH_ON_LAST);
            var g := FabricRun(f, Repeat(IDLE, limit + 1));
            Hollow(f, 1) && g.poisoned && !AnyQuarantined(g) && Admits(FabricNext(g, FLUSH), ASK, 1)
  {
    RaceIsReachable(limit, n);
    RaceParks(Unread(limit, n));
    var f := FabricNext(Unread(limit, n), FLUSH_ON_LAST);
    Reopens(f, []);
    AskTakes(FabricNext(FabricRun(f, Repeat(IDLE, limit + 1)), FLUSH), []);
  }

  lemma RaceParks(f: Fabric)
    requires Draining1(f) && Settled(f) && Fed(FLUSH_ON_LAST) && Race(f, FLUSH_ON_LAST, 1)
    ensures Hollow(FabricNext(f, FLUSH_ON_LAST), 1) && Parked1(FabricNext(f, FLUSH_ON_LAST), [], 0)
  {
    RaceSticks(f, FLUSH_ON_LAST, 1);
    LoneNext(f, true, Quiet, true, true);
    assert Resting(f, 0) && Resting(f, 2) && Resting(f, 3);
    assert ServedOk(f, 1);
  }

  lemma {:induction false} LimitStays(f: Fabric, ins: seq<Inputs>)
    requires Shaped(f) && forall n :: 0 <= n < |ins| ==> Fed(ins[n])
    ensures FabricRun(f, ins).limit == f.limit
    decreases |ins|
  {
    if |ins| > 0 {
      LimitStays(f, ins[..|ins| - 1]);
    }
  }

  // ---------------------------------------------------------------- a time-out with a burst owed

  lemma FlushParks(f: Fabric)
    requires Waiting1(f, [], 0)
    ensures Fed(FLUSH) && Parked1(FabricNext(f, FLUSH), [1], 0)
  {
    assert Fed(FLUSH);
    LoneNext(f, true, Quiet, true, false);
    assert Resting(f, 0) && Resting(f, 2) && Resting(f, 3);
    assert f.owed[1] == [1];
  }

  /** A read cut off by a flush, a slave that answers later than the timer waits, another
      flush, another read: the slave owes both, and the first beat to come, the old read's,
      is handed over as the new one's answer. */
  lemma LateBurstMeetsNewRead(limit: nat)
    ensures Fed(ASK) && Fed(IDLE) && Fed(FLUSH)
    ensures var f := FabricNext(Asked(limit), FLUSH);
            var g := FabricNext(FabricNext(FabricRun(f, Repeat(IDLE, limit + 1)), FLUSH), ASK);
            var h := FabricNext(g, IDLE);
            Clashes(g, IDLE) && h.owed[1] == [1, 1] && !MastersServed(h)
            && (forall i :: Fed(i) && i.presents == 1 && i.ready[1] ==>
                  LastFor(h, i, 1) && Delivered(h, i, 1) && FabricNext(h, i).owed[1] == [1])
  {
    AskedWaits(limit);
    FlushParks(Asked(limit));
    var f := FabricNext(Asked(limit), FLUSH);
    Reopens(f, [1]);
    StaleIsDelivered(FabricNext(FabricRun(f, Repeat(IDLE, limit + 1)), FLUSH));
  }

  lemma StaleIsDelivered(e: Fabric)
    requires Open1(e, [1])
    ensures Fed(ASK) && Fed(IDLE)
    ensures var g := FabricNext(e, ASK);
            var h := FabricNext(g, IDLE);
            Clashes(g, IDLE) && h.owed[1] == [1, 1] && !MastersServed(h)
            && (forall i :: Fed(i) && i.presents == 1 && i.ready[1] ==>
                  LastFor(h, i, 1) && Delivered(h, i, 1) && FabricNext(h, i).owed[1] == [1])
  {
    AskTakes(e, [1]);
    var g := FabricNext(e, ASK);
    assert Resting(e, 0) && Resting(e, 2) && Resting(e, 3);
    assert g.owed[1] == [1];
    var h := FabricNext(g, IDLE);
    assert h.owed[1] == [1, 1];
    assert !ServedOk(h, 1);
    forall i | Fed(i) && i.presents == 1 && i.ready[1]
      ensures LastFor(h, i, 1) && Delivered(h, i, 1) && FabricNext(h, i).owed[1] == [1]
    {
      assert NextOwed(h, i, 1) == [1];
    }
  }
}
