/** Every run of the crossbar's port-3 reads: what each master receives, which beats the
    quarantine consumes, and the two cycles that unsettle it: a flush on the last beat of
    a draining burst, and a time-out with a burst still owed. */
module XbarQuarantine {
  import opened Bits
  import opened XbarReads

  /** Beats a local tail still has to send. */
  function Tail(bcnt: int): int {
    if bcnt == 0 then 256 else bcnt
  }

  predicate InFlight(p: Phase) {
    p == WaitR || p == Drain
  }

  // ---------------------------------------------------------------- what the masters see

  predicate BookOk(s: Slot, b: Book) {
    match s.phase
    case WaitAr => b == Book(Port3(s.len), Open, 0, 0, 0, 0, 0)
    case WaitR => b == Book(Port3(s.len), Open, b.beats, 0, b.beats, 0, 0) && b.beats == s.beatsDone <= s.len
    case Drain => TailOk(s, b) && b.asked.Port3? && b.bad == 0 && b.stalls == 0
    case Local => TailOk(s, b) && s.localHold == if b.stalls < HOLD_MAX then b.stalls else HOLD_MAX
    case Idle => EndedOk(s, b)
    case Elsewhere => EndedOk(s, b)
  }

  predicate TailOk(s: Slot, b: Book) {
    b.status == Open && b.lasts == 0 && 0 <= s.bcnt < 256 && b.beats + Tail(s.bcnt) == s.len + 1
    && Honest(s, b) && (s.localErr <==> (b.asked.LocalRead? ==> b.asked.err))
  }

  /** Exactly the beats asked for and one RLAST, unless the master itself gave up by leaving
      a beat untaken for more than HOLD_MAX cycles. */
  predicate EndedOk(s: Slot, b: Book) {
    (b.status == Answered && b.beats == s.len + 1 && b.lasts == 1 && Honest(s, b))
    || (b.status == GaveUp && b.beats <= s.len && b.lasts == 0 && b.stalls > HOLD_MAX && Honest(s, b))
    || b.status == Unused
  }

  /** Every beat of a read of this port is the slave's own or an error; a read answered
      locally carries the response its request calls for; what another port hands over ends
      in errors. */
  predicate Honest(s: Slot, b: Book) {
    match b.asked
    case Quiet => false
    case Port3(len) => len == s.len && b.beats == b.given + b.bad
    case LocalRead(len, err) => len == s.len && b.given == 0 && b.bad == if err then b.beats else 0
    case OtherPort => b.given == 0 && b.bad == b.beats
  }

  predicate ServedOk(f: Fabric, k: int)
    requires Shaped(f) && 0 <= k < SLOTS
  {
    var s := f.slots[k];
    0 <= s.len < 256
    && (InFlight(s.phase) ==> |f.owed[k]| == 1)
    && (forall n :: 0 <= n < |f.owed[k]| ==> 1 <= f.owed[k][n])
    && (s.phase == WaitAr ==> s.beatsDone == 0)
    && (s.phase == WaitR ==> f.owed[k][0] == s.len + 1 - s.beatsDone)
    && (s.phase == WaitAr <==> f.arValid && f.arTag == k)
    && (s.phase == WaitAr ==> f.arLen == s.len)
    && BookOk(s, f.books[k])
  }

  /** While a stale burst is owed, no slot is busy with this port. */
  predicate Exclusive(f: Fabric)
    requires Shaped(f)
  {
    AnyQuarantined(f) ==>
      forall k :: 0 <= k < SLOTS ==> !InFlight(f.slots[k].phase) && f.slots[k].phase != WaitAr
  }

  predicate MastersServed(f: Fabric) {
    Shaped(f) && Exclusive(f) && (f.arValid ==> 0 <= f.arTag < SLOTS)
    && forall k :: 0 <= k < SLOTS ==> ServedOk(f, k)
  }

  /** An address reaches the slave while a burst of the same slot is still owed. */
  predicate Clashes(f: Fabric, i: Inputs)
    requires Shaped(f)
  {
    ArShakes(f, i) && !i.flush && 0 <= f.arTag < SLOTS && |f.owed[f.arTag]| > 0
  }

  lemma NextTailOk(f: Fabric, i: Inputs, k: int)
    requires Shaped(f) && Fed(i) && 0 <= k < SLOTS && ServedOk(f, k)
    requires f.slots[k].phase == WaitAr || f.slots[k].phase == WaitR
    requires !(Delivered(f, i, k) && LastFor(f, i, k))
    ensures 0 <= TailCount(f, i, k) < 256
    ensures NextBook(f, i, k).beats + Tail(TailCount(f, i, k)) == f.slots[k].len + 1
  {
  }

  lemma NextBookOk(f: Fabric, i: Inputs, k: int)
    requires Shaped(f) && Fed(i) && 0 <= k < SLOTS && ServedOk(f, k)
    ensures BookOk(NextSlot(f, i, k), NextBook(f, i, k))
  {
    assert FedAt(i.requests[k], i.others[k]);
    match f.slots[k].phase
    case Idle =>
    case WaitAr => OpenBookOk(f, i, k);
    case WaitR => OpenBookOk(f, i, k);
    case Drain =>
    case Local => LocalBookOk(f, i, k);
    case Elsewhere =>
  }

  lemma OpenBookOk(f: Fabric, i: Inputs, k: int)
    requires Shaped(f) && Fed(i) && 0 <= k < SLOTS && ServedOk(f, k)
    requires f.slots[k].phase == WaitAr || f.slots[k].phase == WaitR
    ensures BookOk(NextSlot(f, i, k), NextBook(f, i, k))
  {
    if !(Delivered(f, i, k) && LastFor(f, i, k)) {
      NextTailOk(f, i, k);
    }
  }

  lemma LocalBookOk(f: Fabric, i: Inputs, k: int)
    requires Shaped(f) && Fed(i) && 0 <= k < SLOTS && ServedOk(f, k) && f.slots[k].phase == Local
    ensures BookOk(NextSlot(f, i, k), NextBook(f, i, k))
  {
  }

  lemma OwedPositive(f: Fabric, i: Inputs, k: int)
    requires Shaped(f) && Fed(i) && 0 <= k < SLOTS && (f.arValid && f.arTag == k ==> f.arLen >= 0)
    requires forall n :: 0 <= n < |f.owed[k]| ==> 1 <= f.owed[k][n]
    ensures forall n :: 0 <= n < |NextOwed(f, i, k)| ==> 1 <= NextOwed(f, i, k)[n]
  {
  }

  lemma AnyOf(f: Fabric, k: int)
    requires Shaped(f) && 0 <= k < SLOTS
    ensures f.quarantined[k] ==> AnyQuarantined(f)
  {
  }

  /** A slot whose address is just being taken. */
  lemma BurstsOpen(f: Fabric, i: Inputs, k: int)
    requires Shaped(f) && Exclusive(f) && Fed(i) && 0 <= k < SLOTS && ServedOk(f, k) && f.slots[k].phase == WaitAr
    ensures NextOwed(f, i, k) == f.owed[k] + if ArShakesFor(f, i, k) then [f.slots[k].len + 1] else []
  {
    AnyOf(f, k);
  }

  /** A slot whose burst is under way. */
  lemma BurstsUnderWay(f: Fabric, i: Inputs, k: int)
    requires Shaped(f) && Exclusive(f) && Fed(i) && 0 <= k < SLOTS && ServedOk(f, k) && InFlight(f.slots[k].phase)
    ensures NextOwed(f, i, k)
         == if !SlaveReady(f, i, k) then f.owed[k] else if LastFor(f, i, k) then [] else [f.owed[k][0] - 1]
    ensures f.slots[k].phase == WaitR ==> (SlaveReady(f, i, k) <==> Delivered(f, i, k))
    ensures f.slots[k].phase == Drain ==> (SlaveReady(f, i, k) <==> BeatFor(f, i, k))
  {
    AnyOf(f, k);
  }

  lemma NextCount(f: Fabric, i: Inputs, k: int)
    requires Shaped(f) && Exclusive(f) && Fed(i) && 0 <= k < SLOTS && ServedOk(f, k)
    ensures (InFlight(NextPhase(f, i, k)) ==> |NextOwed(f, i, k)| == 1) <==> !(Clashes(f, i) && f.arTag == k)
  {
    if f.slots[k].phase == WaitAr {
      BurstsOpen(f, i, k);
    } else if InFlight(f.slots[k].phase) {
      BurstsUnderWay(f, i, k);
    }
  }

  lemma NextLeft(f: Fabric, i: Inputs, k: int)
    requires Shaped(f) && Exclusive(f) && Fed(i) && 0 <= k < SLOTS && ServedOk(f, k)
    requires NextPhase(f, i, k) == WaitR && !(Clashes(f, i) && f.arTag == k)
    ensures |NextOwed(f, i, k)| == 1
    ensures NextOwed(f, i, k)[0] == NextSlot(f, i, k).len + 1 - NextSlot(f, i, k).beatsDone
  {
    NextCount(f, i, k);
    if f.slots[k].phase == WaitAr {
      BurstsOpen(f, i, k);
    } else {
      BurstsUnderWay(f, i, k);
    }
  }

  lemma NextBursts(f: Fabric, i: Inputs, k: int)
    requires MastersServed(f) && Fed(i) && 0 <= k < SLOTS
    ensures forall n :: 0 <= n < |NextOwed(f, i, k)| ==> 1 <= NextOwed(f, i, k)[n]
    ensures (InFlight(NextPhase(f, i, k)) ==> |NextOwed(f, i, k)| == 1) <==> !(Clashes(f, i) && f.arTag == k)
    ensures NextPhase(f, i, k) == WaitR && !(Clashes(f, i) && f.arTag == k) ==>
              NextOwed(f, i, k)[0] == NextSlot(f, i, k).len + 1 - NextSlot(f, i, k).beatsDone
  {
    assert ServedOk(f, k);
    OwedPositive(f, i, k);
    NextCount(f, i, k);
    if NextPhase(f, i, k) == WaitR && !(Clashes(f, i) && f.arTag == k) {
      NextLeft(f, i, k);
    }
  }

  lemma NextAddress(f: Fabric, i: Inputs, k: int)
    requires MastersServed(f) && Fed(i) && 0 <= k < SLOTS
    ensures var r := FabricNext(f, i);
            (NextPhase(f, i, k) == WaitAr <==> r.arValid && r.arTag == k)
            && (NextPhase(f, i, k) == WaitAr ==>
                  r.arLen == NextSlot(f, i, k).len && NextSlot(f, i, k).beatsDone == 0)
            && (r.arValid ==> 0 <= r.arTag < SLOTS)
  {
    assert ServedOk(f, k);
    if f.arValid {
      assert ServedOk(f, f.arTag);
    }
  }

  /** A flush leaves no slot busy with the port, and without one nothing is quarantined. */
  lemma FlushClears(f: Fabric, i: Inputs, k: int)
    requires Shaped(f) && Fed(i) && 0 <= k < SLOTS
    ensures i.flush ==> !InFlight(NextPhase(f, i, k)) && NextPhase(f, i, k) != WaitAr
    ensures NextQuarantined(f, i, k) ==> i.flush || f.quarantined[k]
  {
  }

  lemma QuietStays(f: Fabric, i: Inputs, k: int)
    requires Shaped(f) && Fed(i) && 0 <= k < SLOTS && AnyQuarantined(f)
    requires !InFlight(f.slots[k].phase) && f.slots[k].phase != WaitAr
    ensures !InFlight(NextPhase(f, i, k)) && NextPhase(f, i, k) != WaitAr
  {
  }

  lemma NextExclusive(f: Fabric, i: Inputs)
    requires Shaped(f) && Exclusive(f) && Fed(i)
    ensures Exclusive(FabricNext(f, i))
  {
    var r := FabricNext(f, i);
    if AnyQuarantined(r) {
      FlushClears(f, i, 0);
      FlushClears(f, i, 1);
      FlushClears(f, i, 2);
      FlushClears(f, i, 3);
      forall k | 0 <= k < SLOTS
        ensures !InFlight(r.slots[k].phase) && r.slots[k].phase != WaitAr
      {
        FlushClears(f, i, k);
        if !i.flush {
          QuietStays(f, i, k);
        }
      }
    }
  }

  /** A cycle leaves every master served if and only if no address clashes in it. */
  lemma ServedIff(f: Fabric, i: Inputs)
    requires MastersServed(f) && Fed(i)
    ensures MastersServed(FabricNext(f, i)) <==> !Clashes(f, i)
  {
    var r := FabricNext(f, i);
    NextExclusive(f, i);
    forall k | 0 <= k < SLOTS
      ensures ServedOk(r, k) <==> !(Clashes(f, i) && f.arTag == k)
      ensures r.arValid ==> 0 <= r.arTag < SLOTS
    {
      assert ServedOk(f, k);
      assert FedAt(i.requests[k], i.others[k]);
      NextBookOk(f, i, k);
      NextBursts(f, i, k);
      NextAddress(f, i, k);
    }
    assert Clashes(f, i) ==> !ServedOk(r, f.arTag);
  }

  // ---------------------------------------------------------------- what the slave owes

  /** Every burst the slave owes has its slot waiting for it, draining it or holding it in
      quarantine. */
  predicate KeptAt(f: Fabric, k: int)
    requires Shaped(f) && 0 <= k < SLOTS
  {
    |f.owed[k]| <= 1 && (|f.owed[k]| > 0 ==> InFlight(f.slots[k].phase) || f.quarantined[k])
  }

  predicate NoneForgotten(f: Fabric)
    requires Shaped(f)
  {
    forall k :: 0 <= k < SLOTS ==> KeptAt(f, k)
  }

  /** And nothing is quarantined that is not owed. */
  predicate Settled(f: Fabric) {
    MastersServed(f) && NoneForgotten(f)
    && forall k :: 0 <= k < SLOTS ==> (f.quarantined[k] ==> |f.owed[k]| > 0)
  }

  /** The flush lands in the very cycle in which a draining slot consumes its last beat. */
  predicate Race(f: Fabric, i: Inputs, k: int)
    requires Shaped(f) && 0 <= k < SLOTS
  {
    f.slots[k].phase == Drain && i.flush && LastFor(f, i, k)
  }

  predicate Races(f: Fabric, i: Inputs)
    requires Shaped(f)
  {
    exists k :: 0 <= k < SLOTS && Race(f, i, k)
  }

  /** The timer gives up on a burst that is still owed. */
  predicate Loses(f: Fabric, i: Inputs)
    requires Shaped(f)
  {
    Expires(f, i) && exists k :: 0 <= k < SLOTS && f.quarantined[k] && |f.owed[k]| > 0
  }

  lemma NoClash(f: Fabric, i: Inputs)
    requires MastersServed(f) && NoneForgotten(f)
    ensures !Clashes(f, i)
  {
    if f.arValid {
      assert ServedOk(f, f.arTag) && KeptAt(f, f.arTag);
    }
  }

  lemma NextKept(f: Fabric, i: Inputs, k: int)
    requires MastersServed(f) && NoneForgotten(f) && Fed(i) && 0 <= k < SLOTS
    ensures KeptAt(FabricNext(f, i), k) <==> !(Expires(f, i) && f.quarantined[k] && |f.owed[k]| > 0)
    ensures (NextQuarantined(f, i, k) ==> |NextOwed(f, i, k)| > 0)
            <==> !Race(f, i, k) && (f.quarantined[k] && !Expires(f, i) ==> |f.owed[k]| > 0)
  {
    assert ServedOk(f, k) && KeptAt(f, k);
    NoClash(f, i);
  }

  /** Nothing owed is forgotten in a cycle if and only if the timer does not give up on a
      burst in it. */
  lemma KeptIff(f: Fabric, i: Inputs)
    requires MastersServed(f) && NoneForgotten(f) && Fed(i)
    ensures MastersServed(FabricNext(f, i))
    ensures NoneForgotten(FabricNext(f, i)) <==> !Loses(f, i)
  {
    NoClash(f, i);
    ServedIff(f, i);
    forall k | 0 <= k < SLOTS
      ensures KeptAt(FabricNext(f, i), k) <==> !(Expires(f, i) && f.quarantined[k] && |f.owed[k]| > 0)
    {
      NextKept(f, i, k);
    }
  }

  /** One cycle keeps the whole invariant if and only if it is neither a race nor a time-out. */
  lemma StepIff(f: Fabric, i: Inputs)
    requires Settled(f) && Fed(i)
    ensures Settled(FabricNext(f, i)) <==> !Races(f, i) && !Expires(f, i)
  {
    var r := FabricNext(f, i);
    KeptIff(f, i);
    forall k | 0 <= k < SLOTS
      ensures (r.quarantined[k] ==> |r.owed[k]| > 0) <==> !Race(f, i, k)
    {
      NextKept(f, i, k);
    }
  }

  // ---------------------------------------------------------------- runs

  function FabricRun(f: Fabric, ins: seq<Inputs>): (r: Fabric)
    requires Shaped(f) && forall n :: 0 <= n < |ins| ==> Fed(ins[n])
    ensures Shaped(r)
    decreases |ins|
  {
    if |ins| == 0 then f else FabricNext(FabricRun(f, ins[..|ins| - 1]), ins[|ins| - 1])
  }

  /** The timer never gives up on a burst in the course of the run. */
  predicate NeverLoses(limit: nat, ins: seq<Inputs>)
    requires forall n :: 0 <= n < |ins| ==> Fed(ins[n])
    decreases |ins|
  {
    |ins| > 0 ==>
      NeverLoses(limit, ins[..|ins| - 1]) && !Loses(FabricRun(FabricReset(limit), ins[..|ins| - 1]), ins[|ins| - 1])
  }

  /** In every run in which the timer never gives up on a burst, races or not and whatever
      the order in which the slave answers: each read that has ended, and was not given up
      by its own master, was answered with exactly len + 1 beats and one RLAST (MastersServed
      holds this in BookOk, for lengths up to 255), and nothing the slave owes is forgotten. */
  lemma {:induction false} ReadsAreAnswered(limit: nat, ins: seq<Inputs>)
    requires forall n :: 0 <= n < |ins| ==> Fed(ins[n])
    requires NeverLoses(limit, ins)
    ensures var f := FabricRun(FabricReset(limit), ins); MastersServed(f) && NoneForgotten(f)
    decreases |ins|
  {
    if |ins| > 0 {
      ReadsAreAnswered(limit, ins[..|ins| - 1]);
      KeptIff(FabricRun(FabricReset(limit), ins[..|ins| - 1]), ins[|ins| - 1]);
    }
  }

  /** Stale beats are always taken and never delivered; a live beat is taken only by its own
      master; nothing is admitted while a stale burst is owed; and a quarantine is lifted
      only by its own last beat or by the timer. */
  lemma QuarantineIsExact(f: Fabric, i: Inputs, k: int)
    requires MastersServed(f) && NoneForgotten(f) && Fed(i) && 0 <= k < SLOTS
    ensures f.quarantined[k] && BeatFor(f, i, k) ==> SlaveReady(f, i, k) && !Offered(f, i, k)
    ensures f.slots[k].phase == WaitR && SlaveReady(f, i, k) ==> Delivered(f, i, k)
    ensures Admits(f, i, k) ==> forall j :: 0 <= j < SLOTS && |f.owed[j]| > 0 ==> InFlight(f.slots[j].phase)
    ensures f.quarantined[k] && !FabricNext(f, i).quarantined[k] ==>
              Expires(f, i) || (LastFor(f, i, k) && FabricNext(f, i).owed[k] == [])
  {
    assert ServedOk(f, k) && KeptAt(f, k);
    forall j | 0 <= j < SLOTS && |f.owed[j]| > 0 && Admits(f, i, k)
      ensures InFlight(f.slots[j].phase)
    {
      assert KeptAt(f, j);
    }
  }

  /** What every ended read received, in every run whose addresses meet no stale burst: a read
      of this port all its beats, each of them the slave's own or an error, so that whatever
      the slave did not give ends in an error; a read answered locally the response it calls
      for; and a master that was given up had left a beat untaken for more than HOLD_MAX
      cycles. */
  lemma {:induction false} EveryAnswerIsTrue(limit: nat, ins: seq<Inputs>, k: int)
    requires (forall n :: 0 <= n < |ins| ==> Fed(ins[n])) && NeverClashes(limit, ins) && 0 <= k < SLOTS
    ensures var b := FabricRun(FabricReset(limit), ins).books[k];
            (b.status == Answered && b.asked.Port3? ==>
               b.lasts == 1 && b.beats == b.asked.len + 1 && b.bad == b.asked.len + 1 - b.given)
            && (b.status == Answered && b.asked.LocalRead? ==>
                  b.lasts == 1 && b.beats == b.asked.len + 1 && b.bad == if b.asked.err then b.beats else 0)
            && (b.status == GaveUp ==> b.stalls > HOLD_MAX)
  {
    AlwaysServedIff(limit, ins);
    assert ServedOk(FabricRun(FabricReset(limit), ins), k);
  }

  /** A read of this port is admitted exactly if it wins, the port is open and no flush is on,
      no address waits for the slave, and every burst the slave owes has a slot that waits
      for it. */
  lemma AdmittedIff(f: Fabric, i: Inputs, k: int)
    requires Settled(f) && Fed(i) && 0 <= k < SLOTS && f.slots[k].phase == Idle && i.requests[k].Port3?
    ensures Admits(f, i, k)
            <==> i.winner == k && !i.flush && !f.poisoned && !i.writePoisoned
                 && (forall j :: 0 <= j < SLOTS ==> f.slots[j].phase != WaitAr)
                 && (forall j :: 0 <= j < SLOTS && |f.owed[j]| > 0 ==> InFlight(f.slots[j].phase))
  {
    forall j | 0 <= j < SLOTS
      ensures f.slots[j].phase == WaitAr <==> f.arValid && f.arTag == j
      ensures |f.owed[j]| > 0 && !InFlight(f.slots[j].phase) ==> f.quarantined[j]
      ensures f.quarantined[j] ==> |f.owed[j]| > 0 && !InFlight(f.slots[j].phase)
    {
      assert ServedOk(f, j) && KeptAt(f, j);
      AnyOf(f, j);
    }
  }

  /** A read cut off by a flush or by its own master's silence ends in an error. */
  lemma AbortedEndsInError(f: Fabric, i: Inputs, k: int)
    requires MastersServed(f) && Fed(i) && 0 <= k < SLOTS
    requires f.slots[k].phase == WaitAr || InFlight(f.slots[k].phase)
    requires NextPhase(f, i, k) == Local
    ensures NextSlot(f, i, k).localErr
  {
    assert ServedOk(f, k);
  }

  // ---------------------------------------------------------------- when reads go wrong

  predicate NeverClashes(limit: nat, ins: seq<Inputs>)
    requires forall n :: 0 <= n < |ins| ==> Fed(ins[n])
    decreases |ins|
  {
    |ins| > 0 ==>
      NeverClashes(limit, ins[..|ins| - 1]) && !Clashes(FabricRun(FabricReset(limit), ins[..|ins| - 1]), ins[|ins| - 1])
  }

  predicate AlwaysServed(limit: nat, ins: seq<Inputs>)
    requires forall n :: 0 <= n < |ins| ==> Fed(ins[n])
    decreases |ins|
  {
    MastersServed(FabricRun(FabricReset(limit), ins)) && (|ins| > 0 ==> AlwaysServed(limit, ins[..|ins| - 1]))
  }

  /** The masters are served throughout a run if and only if no address of it meets a burst
      of its own slot that the slave still owes. */
  lemma {:induction false} AlwaysServedIff(limit: nat, ins: seq<Inputs>)
    requires forall n :: 0 <= n < |ins| ==> Fed(ins[n])
    ensures AlwaysServed(limit, ins) <==> NeverClashes(limit, ins)
    decreases |ins|
  {
    if |ins| > 0 {
      AlwaysServedIff(limit, ins[..|ins| - 1]);
      if AlwaysServed(limit, ins[..|ins| - 1]) {
        ServedIff(FabricRun(FabricReset(limit), ins[..|ins| - 1]), ins[|ins| - 1]);
      }
    }
  }

  /** And that takes a time-out with a burst owed. */
  lemma {:induction false} ClashNeedsTimeOut(limit: nat, ins: seq<Inputs>)
    requires forall n :: 0 <= n < |ins| ==> Fed(ins[n])
    requires NeverLoses(limit, ins)
    ensures NeverClashes(limit, ins)
    decreases |ins|
  {
    if |ins| > 0 {
      ClashNeedsTimeOut(limit, ins[..|ins| - 1]);
      ReadsAreAnswered(limit, ins[..|ins| - 1]);
      NoClash(FabricRun(FabricReset(limit), ins[..|ins| - 1]), ins[|ins| - 1]);
    }
  }

  // ---------------------------------------------------------------- after the race

  /** Quarantined, but nothing is left to arrive. */
  predicate Hollow(f: Fabric, k: int)
    requires Shaped(f) && 0 <= k < SLOTS
  {
    f.quarantined[k] && f.owed[k] == []
  }

  lemma RaceSticks(f: Fabric, i: Inputs, k: int)
    requires Settled(f) && Fed(i) && 0 <= k < SLOTS && Race(f, i, k)
    ensures MastersServed(FabricNext(f, i)) && Hollow(FabricNext(f, i), k) && FabricNext(f, i).timer == 0
  {
    KeptIff(f, i);
    NextKept(f, i, k);
  }

  /** While anything is quarantined the port is idle and nothing is admitted. */
  lemma QuarantineBlocks(f: Fabric, i: Inputs, k: int)
    requires MastersServed(f) && Fed(i) && AnyQuarantined(f) && 0 <= k < SLOTS
    ensures !f.arValid && !Admits(f, i, k) && !Quarantines(f, i, k)
  {
    assert f.arValid ==> ServedOk(f, f.arTag);
  }

  lemma NoneQuarantines(f: Fabric, i: Inputs)
    requires MastersServed(f) && Fed(i) && AnyQuarantined(f)
    ensures !AnyQuarantines(f, i) && !Clashes(f, i)
  {
    QuarantineBlocks(f, i, 0);
    QuarantineBlocks(f, i, 1);
    QuarantineBlocks(f, i, 2);
    QuarantineBlocks(f, i, 3);
  }

  /** An empty quarantine outlasts every cycle but the timer's last, which lifts all of them
      and closes the port unless a flush begins in it. */
  lemma HollowStep(f: Fabric, i: Inputs, k: int)
    requires MastersServed(f) && Fed(i) && 0 <= k < SLOTS && Hollow(f, k)
    ensures MastersServed(FabricNext(f, i))
    ensures !Expires(f, i) ==> Hollow(FabricNext(f, i), k)
    ensures Expires(f, i) ==>
              !AnyQuarantined(FabricNext(f, i)) && (FabricNext(f, i).poisoned <==> !(i.flush && !f.flushed))
  {
    AnyOf(f, k);
    NoneQuarantines(f, i);
    ServedIff(f, i);
    QuarantineBlocks(f, i, k);
  }

  /** Quarantined slots whose burst is still to come. */
  function Stale(f: Fabric): nat
    requires Shaped(f)
  {
    Bit(f.quarantined[0] && f.owed[0] != []) + Bit(f.quarantined[1] && f.owed[1] != [])
    + Bit(f.quarantined[2] && f.owed[2] != []) + Bit(f.quarantined[3] && f.owed[3] != [])
  }

  predicate Timed(f: Fabric) {
    0 <= f.timer <= f.limit
  }

  lemma TimedStep(f: Fabric, i: Inputs)
    requires Shaped(f) && Fed(i) && Timed(f)
    ensures Timed(FabricNext(f, i))
  {
  }

  /** Cycles the quarantine can last at most: one window for each stale burst and one more. */
  function Window(f: Fabric): int
    requires Shaped(f)
  {
    Stale(f) * (f.limit + 1) + f.limit - f.timer
  }

  lemma StaleAt(f: Fabric, i: Inputs, k: int)
    requires MastersServed(f) && Fed(i) && AnyQuarantined(f) && 0 <= k < SLOTS
    requires !Expires(f, i)
    ensures var r := FabricNext(f, i);
            Bit(r.quarantined[k] && r.owed[k] != [])
            == Bit(f.quarantined[k] && f.owed[k] != []) - Bit(f.quarantined[k] && LastFor(f, i, k))
  {
    QuarantineBlocks(f, i, k);
    assert ServedOk(f, k);
  }

  lemma RetiresOne(f: Fabric, i: Inputs)
    requires Shaped(f)
    ensures Bit(Retires(f, i))
         == Bit(f.quarantined[0] && LastFor(f, i, 0)) + Bit(f.quarantined[1] && LastFor(f, i, 1))
            + Bit(f.quarantined[2] && LastFor(f, i, 2)) + Bit(f.quarantined[3] && LastFor(f, i, 3))
  {
  }

  lemma StaleStep(f: Fabric, i: Inputs)
    requires MastersServed(f) && Fed(i) && AnyQuarantined(f) && !Expires(f, i)
    ensures Stale(FabricNext(f, i)) == Stale(f) - Bit(Retires(f, i))
  {
    StaleAt(f, i, 0);
    StaleAt(f, i, 1);
    StaleAt(f, i, 2);
    StaleAt(f, i, 3);
    RetiresOne(f, i);
  }

  lemma WindowFalls(f: Fabric, i: Inputs)
    requires MastersServed(f) && Fed(i) && AnyQuarantined(f) && Timed(f) && !Expires(f, i)
    ensures Window(FabricNext(f, i)) < Window(f)
    ensures Stale(f) == 0 ==> Window(FabricNext(f, i)) == Window(f) - 1
  {
    NoneQuarantines(f, i);
    StaleStep(f, i);
    var r := FabricNext(f, i);
    if Retires(f, i) {
      assert Stale(f) * (f.limit + 1) == Stale(r) * (f.limit + 1) + (f.limit + 1);
    }
  }

  /** The fabric has been quarantining ever since f. */
  predicate Quarantining(f: Fabric, ins: seq<Inputs>)
    requires Shaped(f) && forall n :: 0 <= n < |ins| ==> Fed(ins[n])
    decreases |ins|
  {
    AnyQuarantined(FabricRun(f, ins)) && (|ins| > 0 ==> Quarantining(f, ins[..|ins| - 1]))
  }

  lemma QuarantiningStep(f: Fabric, i: Inputs)
    requires MastersServed(f) && Timed(f) && Fed(i) && AnyQuarantined(f) && AnyQuarantined(FabricNext(f, i))
    ensures MastersServed(FabricNext(f, i)) && Timed(FabricNext(f, i))
    ensures 0 <= Window(FabricNext(f, i)) < Window(f)
    ensures Stale(f) == 0 ==> Stale(FabricNext(f, i)) == 0 && Window(FabricNext(f, i)) == Window(f) - 1
  {
    NoneQuarantines(f, i);
    ServedIff(f, i);
    TimedStep(f, i);
    ExpiryLifts(f, i);
    WindowFalls(f, i);
    StaleStep(f, i);
    WindowPositive(FabricNext(f, i));
  }

  lemma WindowPositive(f: Fabric)
    requires Shaped(f) && Timed(f)
    ensures Window(f) >= 0
  {
    assert Stale(f) * (f.limit + 1) >= 0;
  }

  lemma {:induction false} QuarantiningUsesWindow(f: Fabric, ins: seq<Inputs>)
    requires MastersServed(f) && Timed(f) && forall n :: 0 <= n < |ins| ==> Fed(ins[n])
    requires Quarantining(f, ins)
    ensures MastersServed(FabricRun(f, ins)) && Timed(FabricRun(f, ins))
    ensures FabricRun(f, ins).limit == f.limit
    ensures 0 <= Window(FabricRun(f, ins)) <= Window(f) - |ins|
    ensures Stale(f) == 0 ==> Stale(FabricRun(f, ins)) == 0 && Window(FabricRun(f, ins)) == Window(f) - |ins|
    decreases |ins|
  {
    WindowPositive(f);
    if |ins| > 0 {
      QuarantiningUsesWindow(f, ins[..|ins| - 1]);
      QuarantiningStep(FabricRun(f, ins[..|ins| - 1]), ins[|ins| - 1]);
    }
  }

  lemma ExpiryLifts(f: Fabric, i: Inputs)
    requires MastersServed(f) && Fed(i) && AnyQuarantined(f)
    ensures Expires(f, i) ==> !AnyQuarantined(FabricNext(f, i))
  {
    NoneQuarantines(f, i);
  }

  /** Whatever the inputs, a quarantine is over within its window: every burst has come or
      the timer has given up. */
  lemma {:induction false} QuarantineEnds(f: Fabric, ins: seq<Inputs>)
    requires MastersServed(f) && Timed(f) && forall n :: 0 <= n < |ins| ==> Fed(ins[n])
    requires |ins| > Window(f)
    ensures !Quarantining(f, ins)
  {
    if Quarantining(f, ins) {
      QuarantiningUsesWindow(f, ins);
    }
  }

  /** If nothing is left to arrive, as after a race, the block lasts exactly until the timer:
      nothing is admitted for limit - timer cycles, and the next cycle lifts it. */
  lemma {:induction false} HollowUntilTimer(f: Fabric, ins: seq<Inputs>)
    requires MastersServed(f) && Timed(f) && AnyQuarantined(f) && Stale(f) == 0
    requires forall n :: 0 <= n < |ins| ==> Fed(ins[n])
    ensures |ins| <= f.limit - f.timer <==> Quarantining(f, ins)
    decreases |ins|
  {
    if |ins| > f.limit - f.timer {
      QuarantineEnds(f, ins);
    } else if |ins| > 0 {
      HollowUntilTimer(f, ins[..|ins| - 1]);
      QuarantiningUsesWindow(f, ins[..|ins| - 1]);
      HollowRemains(FabricRun(f, ins[..|ins| - 1]), ins[|ins| - 1]);
    }
  }

  /** It is the timer that lifts it, closing the port unless a flush begins in that cycle. */
  lemma {:induction false} HollowExpires(f: Fabric, ins: seq<Inputs>, i: Inputs)
    requires MastersServed(f) && Timed(f) && AnyQuarantined(f) && Stale(f) == 0
    requires (forall n :: 0 <= n < |ins| ==> Fed(ins[n])) && Fed(i) && |ins| == f.limit - f.timer
    ensures var g := FabricRun(f, ins);
            Expires(g, i) && (FabricNext(g, i).poisoned <==> !(i.flush && !g.flushed))
  {
    HollowUntilTimer(f, ins);
    QuarantiningUsesWindow(f, ins);
    NothingRetires(FabricRun(f, ins));
  }

  lemma NothingRetires(f: Fabric)
    requires Shaped(f) && Stale(f) == 0
    ensures forall i: Inputs {:trigger Retires(f, i)} :: !Retires(f, i)
  {
  }

  lemma HollowRemains(f: Fabric, i: Inputs)
    requires MastersServed(f) && Fed(i) && AnyQuarantined(f) && Stale(f) == 0 && f.timer != f.limit
    ensures !Expires(f, i) && AnyQuarantined(FabricNext(f, i))
  {
    var k :| 0 <= k < SLOTS && f.quarantined[k];
    HollowStep(f, i, k);
    AnyOf(FabricNext(f, i), k);
  }

  // ---------------------------------------------------------------- the closed port

  predicate FlushRises(f: Fabric, i: Inputs) {
    i.flush && !f.flushed
  }

  predicate NoFlushRises(f: Fabric, ins: seq<Inputs>)
    requires Shaped(f) && forall n :: 0 <= n < |ins| ==> Fed(ins[n])
    decreases |ins|
  {
    |ins| > 0 ==> NoFlushRises(f, ins[..|ins| - 1]) && !FlushRises(FabricRun(f, ins[..|ins| - 1]), ins[|ins| - 1])
  }

  /** A closed port stays closed until a flush begins. */
  lemma {:induction false} ClosedUntilFlush(f: Fabric, ins: seq<Inputs>)
    requires Shaped(f) && forall n :: 0 <= n < |ins| ==> Fed(ins[n])
    requires f.poisoned && NoFlushRises(f, ins)
    ensures FabricRun(f, ins).poisoned
    decreases |ins|
  {
    if |ins| > 0 {
      ClosedUntilFlush(f, ins[..|ins| - 1]);
    }
  }

  /** A read to be answered locally is taken when it wins, with the length and the response it
      calls for. */
  lemma LocalReadsAreTaken(f: Fabric, i: Inputs, k: int)
    requires MastersServed(f) && Fed(i) && 0 <= k < SLOTS
    requires f.slots[k].phase == Idle && i.requests[k].LocalRead?
    ensures var s := FabricNext(f, i).slots[k];
            if i.localWinner == k then
              s.phase == Local && s.localErr == i.requests[k].err && Tail(s.bcnt) == i.requests[k].len + 1
            else s.phase == Idle
  {
    assert FedAt(i.requests[k], i.others[k]);
  }

  /** A read that comes while the port is closed or being flushed is not admitted, and
      answered in full with errors. */
  lemma ClosedAnswersErrors(f: Fabric, i: Inputs, k: int)
    requires MastersServed(f) && Fed(i) && 0 <= k < SLOTS && (f.poisoned || i.writePoisoned || i.flush)
    requires f.slots[k].phase == Idle && i.requests[k].Port3?
    ensures var s := FabricNext(f, i).slots[k];
            if i.localWinner == k then
              s.phase == Local && s.localErr && Tail(s.bcnt) == i.requests[k].len + 1
            else s.phase == Idle
  {
    assert FedAt(i.requests[k], i.others[k]);
  }
}
