/** The crossbar's read side towards slave port 3, whose backend survives a flush: four
    read slots, the address register of the port, the per-slot quarantine of stale bursts
    with its clean-up timer, and a slave that returns the beats of its accepted bursts in
    any order. */
module XbarReads {
  import opened Bits

  const SLOTS := 4
  const HOLD_MAX := 1023

  /** `Elsewhere` stands for a read served by another port. */
  datatype Phase = Idle | WaitAr | WaitR | Drain | Local | Elsewhere

  /** `localErr` is set when the local tail answers with an error. */
  datatype Slot = Slot(
    phase: Phase, len: int, bcnt: int, beatsDone: int, localErr: bool, localHold: int, slaveHold: int)

  /** `shown` are the registered address-ready pulses towards the masters, `timer` counts
      the cycles a quarantine has lasted without a burst retiring, up to `limit`, `poisoned`
      closes the port after a time-out, and `flushed` is the flush of the cycle before.
      `owed` is the slave's side: for each slot the bursts it has accepted and not finished,
      oldest first, each as the number of beats still to come. */
  datatype Fabric = Fabric(
    slots: seq<Slot>, shown: seq<bool>, quarantined: seq<bool>,
    timer: int, limit: int, poisoned: bool, flushed: bool,
    arValid: bool, arTag: int, arLen: int,
    owed: seq<seq<int>>,
    books: seq<Book>)

  /** What a slot's master does in a cycle: nothing, a read of this port, a read answered
      locally, or a read of another port. */
  datatype Request = Quiet | Port3(len: int) | LocalRead(len: int, err: bool) | OtherPort

  /** What the master of a slot has received since its latest address was accepted: beats in
      all, RLASTs, beats that came from the slave, beats with an error response; and for how
      many cycles it has left a local beat untaken, flushes not counted. */
  datatype Status = Unused | Open | Answered | GaveUp
  datatype Book = Book(
    asked: Request, status: Status, beats: nat, lasts: nat, given: nat, bad: nat, stalls: nat)

  /** What another port does for a slot: nothing, take its address or hand over its RLAST,
      or give the rest of a read up to a local tail. */
  datatype OtherStep = Stay | Move | HandOver(tail: int)

  /** `winner` and `localWinner` are the arbiters' picks, `presents` the slot whose beat the
      slave offers, `writePoisoned` the write side's share in closing the port. */
  datatype Inputs = Inputs(
    flush: bool, writePoisoned: bool, ready: seq<bool>, requests: seq<Request>,
    winner: int, localWinner: int, others: seq<OtherStep>,
    arReady: bool, presents: int)

  predicate Shaped(f: Fabric) {
    |f.slots| == SLOTS && |f.shown| == SLOTS && |f.quarantined| == SLOTS && |f.owed| == SLOTS
    && |f.books| == SLOTS
  }

  predicate Fed(i: Inputs) {
    |i.ready| == SLOTS && |i.requests| == SLOTS && |i.others| == SLOTS
    && (forall k :: 0 <= k < SLOTS ==> FedAt(i.requests[k], i.others[k]))
  }

  predicate FedAt(r: Request, o: OtherStep) {
    (r.Port3? || r.LocalRead? ==> 0 <= r.len < 256) && (o.HandOver? ==> 1 <= o.tail <= 256)
  }

  const RESET_SLOT := Slot(Idle, 0, 0, 0, false, 0, 0)
  const NOBODY := [false, false, false, false]
  const UNUSED := Book(Quiet, Unused, 0, 0, 0, 0, 0)

  function FabricReset(limit: nat): Fabric {
    Fabric(
      [RESET_SLOT, RESET_SLOT, RESET_SLOT, RESET_SLOT], NOBODY, NOBODY, 0, limit, false, false,
      false, 0, 0, [[], [], [], []], [UNUSED, UNUSED, UNUSED, UNUSED])
  }

  // ---------------------------------------------------------------- wires

  /** The slave presents a beat tagged for slot k. */
  predicate BeatFor(f: Fabric, i: Inputs, k: int)
    requires Shaped(f) && 0 <= k < SLOTS
  {
    i.presents == k && |f.owed[k]| > 0
  }

  predicate LastFor(f: Fabric, i: Inputs, k: int)
    requires Shaped(f) && 0 <= k < SLOTS
  {
    BeatFor(f, i, k) && f.owed[k][0] == 1
  }

  /** The beat is offered to the slot's master. */
  predicate Offered(f: Fabric, i: Inputs, k: int)
    requires Shaped(f) && 0 <= k < SLOTS
  {
    f.slots[k].phase == WaitR && BeatFor(f, i, k)
  }

  predicate Delivered(f: Fabric, i: Inputs, k: int)
    requires Shaped(f) && Fed(i) && 0 <= k < SLOTS
  {
    Offered(f, i, k) && i.ready[k]
  }

  predicate SlaveReady(f: Fabric, i: Inputs, k: int)
    requires Shaped(f) && Fed(i) && 0 <= k < SLOTS
  {
    BeatFor(f, i, k)
    && (f.quarantined[k] || (f.slots[k].phase == WaitR && i.ready[k]) || f.slots[k].phase == Drain)
  }

  predicate AnyQuarantined(f: Fabric)
    requires Shaped(f)
  {
    f.quarantined[0] || f.quarantined[1] || f.quarantined[2] || f.quarantined[3]
  }

  predicate ArShakes(f: Fabric, i: Inputs) {
    f.arValid && i.arReady
  }

  predicate ArShakesFor(f: Fabric, i: Inputs, k: int) {
    ArShakes(f, i) && f.arTag == k
  }

  predicate Closed(f: Fabric, i: Inputs) {
    f.poisoned || i.writePoisoned
  }

  /** Slot k's read of this port is admitted to the address register. */
  predicate Admits(f: Fabric, i: Inputs, k: int)
    requires Shaped(f) && Fed(i) && 0 <= k < SLOTS
  {
    i.winner == k && f.slots[k].phase == Idle && i.requests[k].Port3? && !i.flush && !Closed(f, i)
    && !AnyQuarantined(f) && !f.arValid
  }

  /** Slot k's read is answered locally: refused, or rejected because the port is being
      flushed or is closed. */
  predicate AnswersLocally(f: Fabric, i: Inputs, k: int)
    requires Shaped(f) && Fed(i) && 0 <= k < SLOTS
  {
    i.localWinner == k && f.slots[k].phase == Idle
    && (i.requests[k].LocalRead? || (i.requests[k].Port3? && (i.flush || Closed(f, i))))
  }

  /** Another port takes slot k's address. */
  predicate GoesElsewhere(f: Fabric, i: Inputs, k: int)
    requires Shaped(f) && Fed(i) && 0 <= k < SLOTS
  {
    f.slots[k].phase == Idle && i.requests[k].OtherPort? && i.others[k] == Move
  }

  /** Beats still owed to the master, in nine bits. */
  function Remaining(f: Fabric, i: Inputs, k: int): int
    requires Shaped(f) && Fed(i) && 0 <= k < SLOTS
  {
    (f.slots[k].len + 1 - f.slots[k].beatsDone - (if Delivered(f, i, k) then 1 else 0)) % 512
  }

  /** The eight-bit length of the local tail; zero stands for 256. */
  function TailCount(f: Fabric, i: Inputs, k: int): int
    requires Shaped(f) && Fed(i) && 0 <= k < SLOTS
  {
    if Remaining(f, i, k) == 0 then 1 else Remaining(f, i, k) % 256
  }

  predicate SlaveAbandoned(f: Fabric, i: Inputs, k: int)
    requires Shaped(f) && 0 <= k < SLOTS
  {
    f.slots[k].phase == WaitR && f.slots[k].slaveHold == HOLD_MAX && !i.flush
  }

  predicate LocalAbandoned(f: Fabric, i: Inputs, k: int)
    requires Shaped(f) && 0 <= k < SLOTS
  {
    f.slots[k].phase == Local && f.slots[k].localHold == HOLD_MAX && !i.flush
  }

  // ---------------------------------------------------------------- next state

  function NextPhase(f: Fabric, i: Inputs, k: int): Phase
    requires Shaped(f) && Fed(i) && 0 <= k < SLOTS
  {
    match f.slots[k].phase
    case Idle =>
      if Admits(f, i, k) then WaitAr
      else if AnswersLocally(f, i, k) then Local
      else if GoesElsewhere(f, i, k) then Elsewhere
      else Idle
    case WaitAr =>
      if ArShakesFor(f, i, k) then (if i.flush then Local else WaitR)
      else if i.flush then Local
      else WaitAr
    case WaitR =>
      if Delivered(f, i, k) && LastFor(f, i, k) then Idle
      else if i.flush then Local
      else if SlaveAbandoned(f, i, k) then Drain
      else WaitR
    case Drain => if i.flush || LastFor(f, i, k) then Local else Drain
    case Local =>
      if i.ready[k] then (if f.slots[k].bcnt == 1 then Idle else Local)
      else if LocalAbandoned(f, i, k) then Idle
      else Local
    case Elsewhere =>
      (match i.others[k]
       case Stay => Elsewhere
       case Move => Idle
       case HandOver(_) => Local)
  }

  function NextBcnt(f: Fabric, i: Inputs, k: int): int
    requires Shaped(f) && Fed(i) && 0 <= k < SLOTS
  {
    var s := f.slots[k];
    match s.phase
    case Idle => if AnswersLocally(f, i, k) then (i.requests[k].len + 1) % 256 else s.bcnt
    case WaitAr => if i.flush then TailCount(f, i, k) else s.bcnt
    case WaitR =>
      if Delivered(f, i, k) && LastFor(f, i, k) then s.bcnt
      else if i.flush || SlaveAbandoned(f, i, k) then TailCount(f, i, k)
      else s.bcnt
    case Drain => s.bcnt
    case Local => if i.ready[k] && s.bcnt != 1 then (s.bcnt - 1) % 256 else s.bcnt
    case Elsewhere => if i.others[k].HandOver? then i.others[k].tail % 256 else s.bcnt
  }

  function NextErr(f: Fabric, i: Inputs, k: int): bool
    requires Shaped(f) && Fed(i) && 0 <= k < SLOTS
  {
    var s := f.slots[k];
    match s.phase
    case Idle => if AnswersLocally(f, i, k) then i.requests[k].Port3? || i.requests[k].err else s.localErr
    case WaitAr => i.flush || s.localErr
    case WaitR => ((i.flush || SlaveAbandoned(f, i, k)) && !(Delivered(f, i, k) && LastFor(f, i, k))) || s.localErr
    case Drain => s.localErr
    case Local => s.localErr
    case Elsewhere => i.others[k].HandOver? || s.localErr
  }

  function NextHold(hold: int, waiting: bool, flush: bool): int {
    if !waiting then 0 else if !flush && hold != HOLD_MAX then hold + 1 else hold
  }

  function NextSlot(f: Fabric, i: Inputs, k: int): Slot
    requires Shaped(f) && Fed(i) && 0 <= k < SLOTS
  {
    var s := f.slots[k];
    Slot(NextPhase(f, i, k),
         if Admits(f, i, k) || AnswersLocally(f, i, k) then i.requests[k].len
         else if s.phase == Elsewhere && i.others[k].HandOver? then i.others[k].tail - 1
         else s.len,
         NextBcnt(f, i, k),
         if s.phase != WaitR then 0 else if Delivered(f, i, k) then (s.beatsDone + 1) % 256 else s.beatsDone,
         NextErr(f, i, k),
         NextHold(s.localHold, s.phase == Local && !i.ready[k], i.flush),
         NextHold(s.slaveHold, Offered(f, i, k) && !i.ready[k], i.flush))
  }

  /** A flush quarantines every burst the slave has accepted and still owes. */
  predicate Quarantines(f: Fabric, i: Inputs, k: int)
    requires Shaped(f) && Fed(i) && 0 <= k < SLOTS
  {
    i.flush
    && ((f.slots[k].phase == WaitAr && ArShakesFor(f, i, k))
        || (f.slots[k].phase == WaitR && !(Delivered(f, i, k) && LastFor(f, i, k)))
        || f.slots[k].phase == Drain)
  }

  /** The last beat of a quarantined burst is taken; the timer starts again. */
  predicate Retires(f: Fabric, i: Inputs)
    requires Shaped(f)
  {
    0 <= i.presents < SLOTS && f.quarantined[i.presents] && LastFor(f, i, i.presents)
  }

  /** The timer gives up on whatever is still quarantined. */
  predicate Expires(f: Fabric, i: Inputs)
    requires Shaped(f)
  {
    AnyQuarantined(f) && f.timer == f.limit && !Retires(f, i)
  }

  predicate NextQuarantined(f: Fabric, i: Inputs, k: int)
    requires Shaped(f) && Fed(i) && 0 <= k < SLOTS
  {
    Quarantines(f, i, k) || (f.quarantined[k] && !LastFor(f, i, k) && !Expires(f, i))
  }

  predicate AnyQuarantines(f: Fabric, i: Inputs)
    requires Shaped(f) && Fed(i)
  {
    Quarantines(f, i, 0) || Quarantines(f, i, 1) || Quarantines(f, i, 2) || Quarantines(f, i, 3)
  }

  function NextTimer(f: Fabric, i: Inputs): int
    requires Shaped(f) && Fed(i)
  {
    if AnyQuarantines(f, i) || !AnyQuarantined(f) || Retires(f, i) || Expires(f, i) then 0 else f.timer + 1
  }

  /** The rising edge of the flush reopens the port, even in the cycle of a time-out. */
  predicate NextPoisoned(f: Fabric, i: Inputs)
    requires Shaped(f)
  {
    !(i.flush && !f.flushed) && (f.poisoned || Expires(f, i))
  }

  /** Bursts of one slot come back in order; a new one queues behind those still owed. */
  function NextOwed(f: Fabric, i: Inputs, k: int): seq<int>
    requires Shaped(f) && Fed(i) && 0 <= k < SLOTS
  {
    (if !SlaveReady(f, i, k) then f.owed[k]
     else if LastFor(f, i, k) then f.owed[k][1..]
     else [f.owed[k][0] - 1] + f.owed[k][1..])
    + (if ArShakesFor(f, i, k) then [f.arLen + 1] else [])
  }

  /** Slot k's address is accepted; its master sees that in the next cycle. */
  predicate Takes(f: Fabric, i: Inputs, k: int)
    requires Shaped(f) && Fed(i) && 0 <= k < SLOTS
  {
    Admits(f, i, k) || AnswersLocally(f, i, k) || GoesElsewhere(f, i, k)
  }

  function NextBook(f: Fabric, i: Inputs, k: int): Book
    requires Shaped(f) && Fed(i) && 0 <= k < SLOTS
  {
    var b, s := f.books[k], f.slots[k];
    if Admits(f, i, k) || AnswersLocally(f, i, k) then Book(i.requests[k], Open, 0, 0, 0, 0, 0)
    else if Delivered(f, i, k) then
      var last := LastFor(f, i, k);
      b.(status := if last then Answered else Open, beats := b.beats + 1, lasts := b.lasts + Bit(last),
         given := b.given + 1)
    else if s.phase == Local && i.ready[k] then
      var last := s.bcnt == 1;
      b.(status := if last then Answered else Open, beats := b.beats + 1, lasts := b.lasts + Bit(last),
         bad := b.bad + Bit(s.localErr), stalls := 0)
    else if s.phase == Local then
      b.(status := if LocalAbandoned(f, i, k) then GaveUp else Open, stalls := b.stalls + Bit(!i.flush))
    else if s.phase == Elsewhere && i.others[k].HandOver? then Book(OtherPort, Open, 0, 0, 0, 0, 0)
    else b
  }

  predicate AnyAdmits(f: Fabric, i: Inputs)
    requires Shaped(f) && Fed(i)
  {
    0 <= i.winner < SLOTS && Admits(f, i, i.winner)
  }

  /** An address still waiting is withdrawn when its slot is aborted. */
  predicate Withdrawn(f: Fabric, i: Inputs)
    requires Shaped(f)
  {
    i.flush
    && (f.slots[0].phase == WaitAr || f.slots[1].phase == WaitAr
        || f.slots[2].phase == WaitAr || f.slots[3].phase == WaitAr)
  }

  function FabricNext(f: Fabric, i: Inputs): (r: Fabric)
    requires Shaped(f) && Fed(i)
    ensures Shaped(r)
  {
    Fabric(
      seq(SLOTS, k requires 0 <= k < SLOTS => NextSlot(f, i, k)),
      seq(SLOTS, k requires 0 <= k < SLOTS => Takes(f, i, k)),
      seq(SLOTS, k requires 0 <= k < SLOTS => NextQuarantined(f, i, k)),
      NextTimer(f, i), f.limit, NextPoisoned(f, i), i.flush,
      AnyAdmits(f, i) || (f.arValid && !i.arReady && !Withdrawn(f, i)),
      if AnyAdmits(f, i) then i.winner else f.arTag,
      if AnyAdmits(f, i) then i.requests[i.winner].len else f.arLen,
      seq(SLOTS, k requires 0 <= k < SLOTS => NextOwed(f, i, k)),
      seq(SLOTS, k requires 0 <= k < SLOTS => NextBook(f, i, k)))
  }
}
