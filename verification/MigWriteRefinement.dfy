/** The ring of registers against the unrolled queue. */
module MigWriteRefinement {
  import opened Bits
  import opened Bytes
  import opened MigModel
  import opened MigWriteQueue
  import opened MigWriteInvariant
  import opened MigWriteRing

  function SlotOf(d: Desc): Slot {
    Slot(d.aw.id, d.aw.addr, RepoBeats(d.aw), MigBeats(d.aw),
         d.ok, d.touched, true, d.awIssued, d.dataDone, d.migDone)
  }

  function At(r: Ring, j: int): Slot {
    r.slots[j % 4]
  }

  predicate RepSlots(r: Ring, q: Queue) {
    (forall j :: q.cp <= j < |q.descs| ==> At(r, j) == SlotOf(q.descs[j]))
    && (forall j :: |q.descs| <= j < q.cp + 4 ==> !At(r, j).valid)
  }

  predicate RepPointers(r: Ring, q: Queue) {
    r.wptr == |q.descs| % 4 && r.awPtr == q.aw % 4 && r.dataPtr == q.dp % 4 && r.dataPtrP1 == (q.dp + 1) % 4
    && r.commitPtr == q.cp % 4 && r.count == |q.descs| - q.cp
  }

  predicate RepPacker(r: Ring, q: Queue) {
    r.awPresenting == q.presenting && r.bqCount == q.inFlight
    && r.recvCount == q.recv && r.migPushed == q.pushed && r.packValid == q.packValid && r.packHalf == q.packHalf
    && r.padActive == q.padActive && r.padRemaining == q.padRemaining
    && (q.padActive ==> r.padIdx == q.padIdx % 4)
  }

  function SkidOf(e: LogBeat): SkidBeat {
    SkidBeat(e.beat, e.last, e.idx % 4)
  }

  predicate RepSkid(r: Ring, q: Queue) {
    q.popped <= |q.log| && r.skidCnt == |q.log| - q.popped <= 2
    && r.skidW == (r.skidR + r.skidCnt) % 2
    && (r.skidCnt > 0 ==> r.skid[r.skidR] == SkidOf(q.log[q.popped]))
    && (r.skidCnt > 1 ==> r.skid[1 - r.skidR] == SkidOf(q.log[q.popped + 1]))
  }

  /** The registered shadow always equals a live read of the slot it shadows. */
  predicate ShadowCoherent(r: Ring) {
    var s := r.slots[r.dataPtr];
    r.cwd.active == (s.valid && !s.dataDone)
    && r.cwd.dpEqWp == (r.dataPtr == r.wptr)
    && (s.valid ==> r.cwd.ok == s.ok && r.cwd.addr4 == s.addr / 16 % 2
                    && r.cwd.repoBeats == s.repoBeats && r.cwd.migBeats == s.migBeats)
  }

  predicate Rep(r: Ring, q: Queue) {
    RepPointers(r, q) && RepSlots(r, q) && RepPacker(r, q) && RepSkid(r, q) && ShadowCoherent(r)
  }

  function PinsOf(w: WriteSide, i: Stimulus): Pins {
    Pins(i, !w.awHave && !w.wActive && !i.awStall, w.wActive && !i.wStall, w.bPending)
  }

  /** Four writes are outstanding, the address pointer has passed all of them, and it
      passed the oldest without issuing it. */
  predicate Laps(q: Queue) {
    q.aw == |q.descs| == q.cp + 4 && !q.descs[q.cp].awIssued
  }

  /** Within a window of four positions, the same slot is the same position. */
  lemma Mod4(j: int, k: int)
    requires -4 < j - k < 4
    ensures j % 4 == k % 4 <==> j == k
  {
  }

  // ---------------------------------------------------------------- wires

  lemma AddressWires(r: Ring, q: Queue, i: Stimulus)
    requires Pointers(q) && Flags(q) && Presenting(q) && !Laps(q)
    requires RepPointers(r, q) && RepSlots(r, q) && RepPacker(r, q)
    ensures var p := PinsOf(q.w, i);
            AwFire(r, p) == (i.awValid && AwReady(q))
            && MAwShakes(r, p) == AwShakes(q, i)
            && AwIsPending(r) == AwPending(q)
            && AwSkip(r) == AwSkips(q) && AwWant(r) == AwWants(q)
  {
    if q.aw < |q.descs| {
      assert At(r, q.aw) == SlotOf(q.descs[q.aw]);
    } else if |q.descs| < q.cp + 4 {
      assert !At(r, q.aw).valid;
    } else {
      assert At(r, q.cp) == SlotOf(q.descs[q.cp]);
    }
  }

  lemma DrainWires(r: Ring, q: Queue, i: Stimulus)
    requires Inv(q) && Rep(r, q)
    ensures var p := PinsOf(q.w, i);
            SkidPop(r, p) == CanPop(q, i)
            && OutRoom(r, p) == Room(if CanPop(q, i) then Pop(q) else q)
  {
    if q.popped < |q.log| {
      var e := q.log[q.popped];
      assert EntryOk(q, e) && WaitingAt(q, e) && FlagsAt(q, e.idx);
      assert At(r, e.idx) == SlotOf(q.descs[e.idx]);
    }
  }

  lemma CommitWires(r: Ring, q: Queue, i: Stimulus)
    requires Pointers(q) && RepPointers(r, q) && RepSlots(r, q)
    ensures CommitPop(r, PinsOf(q.w, i)) == (CommitReady(q) && i.bready)
  {
    if q.cp < |q.descs| {
      assert At(r, q.cp) == SlotOf(q.descs[q.cp]);
    } else {
      assert !At(r, q.cp).valid;
    }
  }

  // ---------------------------------------------------------------- the queue before the packer runs

  predicate Accepts(q: Queue, i: Stimulus) {
    i.awValid && AwReady(q)
  }

  function TurnedDesc(q: Queue, i: Stimulus, j: nat): Desc
    requires j < |q.descs|
  {
    var d := q.descs[j];
    d.(awIssued := d.awIssued || (AwShakes(q, i) && j == q.aw),
       migDone := d.migDone || (CanPop(q, i) && q.log[q.popped].last && q.log[q.popped].idx == j))
  }

  function FreshDesc(a: Aw): Desc {
    Desc(a, [], Legal(a), false, false, false, false)
  }

  predicate SamePacker(q: Queue, t: Queue) {
    t.dp == q.dp && t.recv == q.recv && t.pushed == q.pushed && t.packValid == q.packValid
    && t.packHalf == q.packHalf && t.padActive == q.padActive && t.padRemaining == q.padRemaining
    && t.padIdx == q.padIdx && t.log == q.log
  }

  lemma DrainedShape(q: Queue, i: Stimulus)
    ensures var t := Drained(q, i);
            SamePacker(q, t) && t.popped == q.popped + Bit(CanPop(q, i)) && t.cp == q.cp && t.aw == q.aw
            && t.presenting == q.presenting && t.inFlight == q.inFlight - Bit(q.w.bPending)
            && |t.descs| == |q.descs|
  {
  }

  lemma DrainedDesc(q: Queue, i: Stimulus, j: nat)
    requires j < |q.descs|
    ensures var d := q.descs[j];
            Drained(q, i).descs[j]
            == d.(migDone := d.migDone || (CanPop(q, i) && q.log[q.popped].last && q.log[q.popped].idx == j))
  {
  }

  lemma StageShape(q: Queue, shakes: bool, skips: bool, wants: bool)
    requires shakes ==> q.aw < |q.descs|
    ensures var t := AwStage(q, shakes, skips, wants);
            SamePacker(q, t) && t.popped == q.popped && t.cp == q.cp && |t.descs| == |q.descs|
            && t.aw == q.aw + Bit(shakes || skips)
            && t.presenting == (if shakes then false else q.presenting || (wants && !skips))
            && t.inFlight == q.inFlight + Bit(shakes)
            && (forall j :: 0 <= j < |q.descs| ==>
                  t.descs[j] == q.descs[j].(awIssued := q.descs[j].awIssued || (shakes && j == q.aw)))
  {
  }

  lemma MemorySideShape(q: Queue, i: Stimulus)
    requires Presenting(q)
    ensures var t := MemorySide(q, i);
            SamePacker(q, t) && t.popped == q.popped + Bit(CanPop(q, i)) && t.cp == q.cp
            && t.aw == q.aw + Bit(AwShakes(q, i) || AwSkips(q))
            && t.presenting == (if AwShakes(q, i) then false else q.presenting || AwWants(q))
            && t.inFlight == q.inFlight - Bit(q.w.bPending) + Bit(AwShakes(q, i))
            && |t.descs| == |q.descs|
  {
    DrainedShape(q, i);
    StageShape(Drained(q, i), AwShakes(q, i), AwSkips(q), AwWants(q));
  }

  lemma TurnoverShape(m: Queue, commits: bool, accepts: bool, a: Aw)
    ensures var t := Accept(Commit(m, commits), accepts, a);
            SamePacker(m, t) && t.popped == m.popped && t.cp == m.cp + Bit(commits) && t.aw == m.aw
            && t.presenting == m.presenting && t.inFlight == m.inFlight
            && |t.descs| == |m.descs| + Bit(accepts)
            && (accepts ==> t.descs[|m.descs|] == FreshDesc(a))
            && (forall j :: 0 <= j < |m.descs| ==> t.descs[j] == m.descs[j])
  {
  }

  lemma TurnedRest(q: Queue, i: Stimulus)
    requires Presenting(q)
    ensures var t := Turnover(q, i);
            SamePacker(q, t) && t.popped == q.popped + Bit(CanPop(q, i))
            && t.cp == q.cp + Bit(CommitReady(q) && i.bready)
            && t.aw == q.aw + Bit(AwShakes(q, i) || AwSkips(q))
            && t.presenting == (if AwShakes(q, i) then false else q.presenting || AwWants(q))
            && t.inFlight == q.inFlight - Bit(q.w.bPending) + Bit(AwShakes(q, i))
            && |t.descs| == |q.descs| + Bit(Accepts(q, i))
            && (Accepts(q, i) ==> t.descs[|q.descs|] == FreshDesc(i.aw))
  {
    MemorySideShape(q, i);
    TurnoverShape(MemorySide(q, i), CommitReady(q) && i.bready, Accepts(q, i), i.aw);
  }

  lemma MemorySideDesc(q: Queue, i: Stimulus, j: nat)
    requires Presenting(q) && j < |q.descs|
    ensures |MemorySide(q, i).descs| == |q.descs|
    ensures MemorySide(q, i).descs[j] == TurnedDesc(q, i, j)
  {
    DrainedShape(q, i);
    DrainedDesc(q, i, j);
    StageShape(Drained(q, i), AwShakes(q, i), AwSkips(q), AwWants(q));
  }

  lemma Turned(q: Queue, i: Stimulus, j: nat)
    requires Presenting(q) && j < |q.descs|
    ensures |Turnover(q, i).descs| >= |q.descs|
    ensures Turnover(q, i).descs[j] == TurnedDesc(q, i, j)
  {
    MemorySideDesc(q, i, j);
    TurnoverShape(MemorySide(q, i), CommitReady(q) && i.bready, Accepts(q, i), i.aw);
  }

  /** The current descriptor after turnover: the one under the data pointer, or the one
      being accepted in this very cycle. */
  function Current(q: Queue, i: Stimulus): Desc
    requires q.dp < |q.descs| || Accepts(q, i)
  {
    if q.dp < |q.descs| then TurnedDesc(q, i, q.dp) else FreshDesc(i.aw)
  }

  predicate HasCurrent(q: Queue, i: Stimulus) {
    !q.padActive && (q.dp < |q.descs| || Accepts(q, i))
  }

  lemma ShadowActive(r: Ring, q: Queue)
    requires Pointers(q) && Flags(q) && RepPointers(r, q) && RepSlots(r, q) && ShadowCoherent(r)
    ensures r.cwd.active == (q.dp < |q.descs|)
    ensures q.dp < |q.descs| ==>
              var d := q.descs[q.dp];
              r.cwd == Shadow(d.ok, Addr4(d.aw), RepoBeats(d.aw), MigBeats(d.aw), true, r.cwd.dpEqWp)
  {
    if q.dp < |q.descs| {
      assert At(r, q.dp) == SlotOf(q.descs[q.dp]);
      assert FlagsAt(q, q.dp);
    } else if |q.descs| < q.cp + 4 {
      assert !At(r, q.dp).valid;
    } else {
      SlotAhead(q.cp);
      assert At(r, q.cp) == SlotOf(q.descs[q.cp]);
      assert FlagsAt(q, q.cp);
    }
  }

  lemma ShadowWires(r: Ring, q: Queue)
    requires Pointers(q) && Flags(q) && RepPointers(r, q) && RepSlots(r, q) && ShadowCoherent(r)
    ensures r.cwd.active == (q.dp < |q.descs|)
    ensures AwReady(q) ==> r.cwd.dpEqWp == (q.dp == |q.descs|)
    ensures q.dp < |q.descs| ==>
              var d := q.descs[q.dp];
              r.cwd == Shadow(d.ok, Addr4(d.aw), RepoBeats(d.aw), MigBeats(d.aw), true, r.cwd.dpEqWp)
  {
    ShadowActive(r, q);
    if AwReady(q) {
      Mod4(q.dp, |q.descs|);
    }
  }

  lemma CurrentWires(r: Ring, q: Queue, i: Stimulus)
    requires Inv(q) && Rep(r, q) && !Laps(q)
    ensures var p := PinsOf(q.w, i);
            DataActive(r, p) == HasCurrent(q, i)
            && (HasCurrent(q, i) ==>
                  var d := Current(q, i);
                  CurOk(r, p) == d.ok && CurAddr4(r, p) == Addr4(d.aw)
                  && CurRepoBeats(r, p) == RepoBeats(d.aw) && CurMigBeats(r, p) == MigBeats(d.aw)
                  && Bypass(r, p) == (q.dp == |q.descs|))
  {
    AddressWires(r, q, i);
    ShadowWires(r, q);
  }

  lemma PackingWires(r: Ring, q: Queue, i: Stimulus)
    requires Inv(q) && Rep(r, q) && !Laps(q) && HasCurrent(q, i)
    ensures var p := PinsOf(q.w, i);
            var a := Current(q, i).aw;
            IsUpper(r, p) == Upper(a, q.recv)
            && WlastMatches(r, p) == WlastOk(a, q.recv, i.w.last)
            && TerminateNow(r, p) == Terminates(a, q.recv, i.w.last)
            && CompletesNow(r, p) == Completes(a, q.recv, i.w.last)
            && RealNeedPush(r, p) == NeedPush(a, Current(q, i).ok, q.recv, i.w.last)
            && PushBeat(r, p) == Packed(a, q.recv, q.packValid, q.packHalf, i.w.half)
  {
    CurrentWires(r, q, i);
  }

  lemma CurrentIs(q: Queue, i: Stimulus)
    requires Inv(q) && HasCurrent(q, i)
    ensures q.dp < |Turnover(q, i).descs| && Turnover(q, i).descs[q.dp] == Current(q, i)
  {
    TurnedRest(q, i);
    if q.dp < |q.descs| {
      Turned(q, i, q.dp);
    }
  }

  predicate Consumes(q: Queue, i: Stimulus) {
    i.wValid && HasCurrent(q, i)
    && (!NeedPush(Current(q, i).aw, Current(q, i).ok, q.recv, i.w.last) || |q.log| - q.popped - Bit(CanPop(q, i)) < 2)
  }

  lemma FireWires(r: Ring, q: Queue, i: Stimulus)
    requires Inv(q) && Rep(r, q) && !Laps(q)
    ensures var p := PinsOf(q.w, i);
            WFire(r, p) == Consumes(q, i)
            && PushPad(r, p) == (q.padActive && q.padRemaining != 0 && |q.log| - q.popped - Bit(CanPop(q, i)) < 2)
  {
    CurrentWires(r, q, i);
    DrainWires(r, q, i);
    if HasCurrent(q, i) {
      PackingWires(r, q, i);
    }
  }

  lemma FillsAsFires(q: Queue, i: Stimulus)
    requires Inv(q)
    ensures var t := Turnover(q, i);
            CanConsume(t, i) == Consumes(q, i)
            && CanPad(t) == (q.padActive && q.padRemaining != 0 && |q.log| - q.popped - Bit(CanPop(q, i)) < 2)
  {
    TurnedRest(q, i);
    if HasCurrent(q, i) {
      CurrentIs(q, i);
    }
  }

  predicate CommittedNow(q: Queue) {
    q.dp < |q.descs| && (q.descs[q.dp].awIssued || (q.aw == q.dp && (q.presenting || AwWants(q))))
  }

  predicate Pads(q: Queue, i: Stimulus)
    requires HasCurrent(q, i)
  {
    var d := Current(q, i);
    Terminates(d.aw, q.recv, i.w.last) && !WlastOk(d.aw, q.recv, i.w.last)
    && (q.pushed != 0 || (d.ok && CommittedNow(q)))
    && q.pushed < MigBeats(d.aw)
  }

  lemma SameSlotSamePosition(r: Ring, q: Queue)
    requires Pointers(q) && Presenting(q) && RepPointers(r, q) && RepPacker(r, q) && RepSlots(r, q)
    requires AwWant(r) == AwWants(q) && q.dp < |q.descs|
    ensures r.slots[r.dataPtr].awIssued == q.descs[q.dp].awIssued
    ensures (r.awPtr == r.dataPtr && (r.awPresenting || AwWant(r)))
        <==> (q.aw == q.dp && (q.presenting || AwWants(q)))
  {
    assert At(r, q.dp) == SlotOf(q.descs[q.dp]);
    if q.aw < |q.descs| {
      Mod4(q.aw, q.dp);
    }
  }

  lemma CommittedWires(r: Ring, q: Queue, i: Stimulus)
    requires Inv(q) && Rep(r, q) && !Laps(q) && HasCurrent(q, i)
    ensures AwCommitted(r, PinsOf(q.w, i)) == (Current(q, i).ok && CommittedNow(q))
  {
    AddressWires(r, q, i);
    CurrentWires(r, q, i);
    if q.dp < |q.descs| {
      SameSlotSamePosition(r, q);
    }
  }

  lemma PadWires(r: Ring, q: Queue, i: Stimulus)
    requires Inv(q) && Rep(r, q) && !Laps(q)
    ensures PadTrigger(r, PinsOf(q.w, i)) == (Consumes(q, i) && Pads(q, i))
  {
    FireWires(r, q, i);
    if HasCurrent(q, i) {
      CommittedWires(r, q, i);
      PackingWires(r, q, i);
      CurrentWires(r, q, i);
    }
  }

  lemma PadsAsTriggered(q: Queue, i: Stimulus)
    requires Inv(q) && HasCurrent(q, i)
    ensures q.dp < |Turnover(q, i).descs|
    ensures PadTriggers(Turnover(q, i), i.w) == Pads(q, i)
  {
    TurnedRest(q, i);
    CurrentIs(q, i);
    if q.dp < |q.descs| {
      assert FlagsAt(q, q.dp);
    }
  }

  function BaseDesc(q: Queue, i: Stimulus, j: nat): Desc {
    if j < |q.descs| then TurnedDesc(q, i, j) else FreshDesc(i.aw)
  }

  /** What the slot of descriptor j holds after the cycle. */
  function FinalSlot(q: Queue, i: Stimulus, j: nat): Slot {
    var d := BaseDesc(q, i, j);
    if Consumes(q, i) && j == q.dp then
      SlotOf(d).(ok := d.ok && WlastOk(d.aw, q.recv, i.w.last),
                 touched := d.touched || NeedPush(d.aw, d.ok, q.recv, i.w.last) || Pads(q, i),
                 dataDone := d.dataDone || Terminates(d.aw, q.recv, i.w.last))
    else SlotOf(d)
  }

  lemma TurnedBase(q: Queue, i: Stimulus, j: nat)
    requires Inv(q) && j < |q.descs| + Bit(Accepts(q, i))
    ensures |Turnover(q, i).descs| == |q.descs| + Bit(Accepts(q, i))
    ensures Turnover(q, i).descs[j] == BaseDesc(q, i, j)
  {
    TurnedRest(q, i);
    if j < |q.descs| {
      Turned(q, i, j);
    }
  }

  lemma FilledDesc(t: Queue, i: Stimulus, j: nat)
    requires PadState(t) && j < |t.descs|
    ensures |Fill(t, i).descs| == |t.descs|
    ensures Fill(t, i).descs[j] == if CanConsume(t, i) && j == t.dp then ConsumedDesc(t, i.w) else t.descs[j]
  {
  }

  lemma StepSlot(q: Queue, i: Stimulus, j: nat)
    requires Inv(q) && j < |q.descs| + Bit(Accepts(q, i))
    ensures |Step(q, i).descs| == |q.descs| + Bit(Accepts(q, i))
    ensures SlotOf(Step(q, i).descs[j]) == FinalSlot(q, i, j)
  {
    var t := Turnover(q, i);
    TurnoverKeeps(q, i);
    TurnedBase(q, i, j);
    TurnedRest(q, i);
    FillsAsFires(q, i);
    FilledDesc(t, i, j);
    if HasCurrent(q, i) {
      PadsAsTriggered(q, i);
      CurrentIs(q, i);
    }
  }

  // ---------------------------------------------------------------- slots

  /** The decisions of a cycle as the queue takes them, and the positions they concern. */
  predicate SameDecisions(r: Ring, q: Queue, i: Stimulus) {
    var p := PinsOf(q.w, i);
    AwFire(r, p) == Accepts(q, i)
    && MAwShakes(r, p) == AwShakes(q, i)
    && SkidPop(r, p) == CanPop(q, i)
    && CommitPop(r, p) == (CommitReady(q) && i.bready)
    && WFire(r, p) == Consumes(q, i)
    && PadTrigger(r, p) == (Consumes(q, i) && Pads(q, i))
    && (Consumes(q, i) ==>
          var d := Current(q, i);
          WlastMatches(r, p) == WlastOk(d.aw, q.recv, i.w.last)
          && TerminateNow(r, p) == Terminates(d.aw, q.recv, i.w.last)
          && CompletesNow(r, p) == Completes(d.aw, q.recv, i.w.last)
          && RealNeedPush(r, p) == NeedPush(d.aw, d.ok, q.recv, i.w.last)
          && CurMigBeats(r, p) == MigBeats(d.aw)
          && PushBeat(r, p) == Packed(d.aw, q.recv, q.packValid, q.packHalf, i.w.half)
          && Bypass(r, p) == (q.dp == |q.descs|))
  }

  lemma DecisionsAgree(r: Ring, q: Queue, i: Stimulus)
    requires Inv(q) && Rep(r, q) && !Laps(q)
    ensures SameDecisions(r, q, i)
  {
    AddressWires(r, q, i);
    DrainWires(r, q, i);
    CommitWires(r, q, i);
    FireWires(r, q, i);
    PadWires(r, q, i);
    if HasCurrent(q, i) {
      PackingWires(r, q, i);
      CurrentWires(r, q, i);
    }
  }

  /** Two writers may target the slot being accepted; they always agree. */
  lemma WritersAgree(r: Ring, q: Queue, i: Stimulus)
    requires Inv(q) && Rep(r, q) && !Laps(q)
    ensures var p := PinsOf(q.w, i);
            AwFire(r, p) && WFire(r, p) && r.dataPtr == r.wptr ==>
              PushReal(r, p) == (RealNeedPush(r, p) || PadTrigger(r, p))
  {
    DecisionsAgree(r, q, i);
    if Accepts(q, i) && Consumes(q, i) {
      Mod4(q.dp, |q.descs|);
    }
  }

  lemma AcceptStage(r: Ring, q: Queue, i: Stimulus, j: nat)
    requires Pointers(q) && RepPointers(r, q) && RepSlots(r, q) && SameDecisions(r, q, i)
    requires q.cp <= j < |q.descs| + Bit(Accepts(q, i))
    ensures var p := PinsOf(q.w, i);
            SlotsAfterAccept(r, p)[j % 4]
            == if j < |q.descs| then SlotOf(q.descs[j]) else AcceptedSlot(r, p)
  {
    if j < |q.descs| {
      assert At(r, j) == SlotOf(q.descs[j]);
      if Accepts(q, i) {
        Mod4(j, |q.descs|);
      }
    }
  }

  lemma IssueStage(r: Ring, q: Queue, i: Stimulus, j: nat)
    requires Pointers(q) && Presenting(q) && RepPointers(r, q) && RepSlots(r, q) && SameDecisions(r, q, i)
    requires q.cp <= j < |q.descs| + Bit(Accepts(q, i))
    ensures var p := PinsOf(q.w, i);
            SlotsAfterIssue(r, p)[j % 4]
            == if j < |q.descs| then
                 SlotOf(q.descs[j]).(awIssued := q.descs[j].awIssued || (AwShakes(q, i) && j == q.aw))
               else AcceptedSlot(r, p)
  {
    AcceptStage(r, q, i, j);
    if AwShakes(q, i) {
      Mod4(j, q.aw);
    }
  }

  /** The slot of position j once the packer has written to it. */
  function PackedSlot(r: Ring, q: Queue, i: Stimulus, j: nat): Slot {
    var s := if j < |q.descs| then SlotOf(q.descs[j]).(awIssued := q.descs[j].awIssued || (AwShakes(q, i) && j == q.aw))
             else SlotOf(FreshDesc(i.aw));
    if Consumes(q, i) && j == q.dp then
      var a := Current(q, i).aw;
      s.(ok := s.ok && WlastOk(a, q.recv, i.w.last),
         touched := s.touched || NeedPush(a, Current(q, i).ok, q.recv, i.w.last) || Pads(q, i),
         dataDone := s.dataDone || Terminates(a, q.recv, i.w.last))
    else s
  }

  lemma DataStage(r: Ring, q: Queue, i: Stimulus, j: nat)
    requires Inv(q) && Rep(r, q) && !Laps(q)
    requires q.cp <= j < |q.descs| + Bit(Accepts(q, i))
    ensures SlotsAfterData(r, PinsOf(q.w, i))[j % 4] == PackedSlot(r, q, i, j)
  {
    DecisionsAgree(r, q, i);
    IssueStage(r, q, i, j);
    if Consumes(q, i) {
      Mod4(j, q.dp);
    }
    if Accepts(q, i) {
      Mod4(q.dp, |q.descs|);
    }
    WritersAgree(r, q, i);
  }

  predicate Finishes(q: Queue, i: Stimulus, j: nat) {
    CanPop(q, i) && q.log[q.popped].last && q.log[q.popped].idx == j
  }

  lemma FinalOfPacked(r: Ring, q: Queue, i: Stimulus, j: nat)
    ensures FinalSlot(q, i, j)
         == PackedSlot(r, q, i, j).(migDone := PackedSlot(r, q, i, j).migDone || (j < |q.descs| && Finishes(q, i, j)))
  {
  }

  lemma FinishedSlot(r: Ring, q: Queue, i: Stimulus, j: nat)
    requires Inv(q) && RepSkid(r, q) && CanPop(q, i)
    requires q.cp <= j <= |q.descs| && j < q.cp + 4
    ensures (SkidHead(r).last && SkidHead(r).idx == j % 4) <==> Finishes(q, i, j)
  {
    var e := q.log[q.popped];
    assert EntryOk(q, e) && WaitingAt(q, e) && FlagsAt(q, e.idx);
    Mod4(j, e.idx);
  }

  lemma DrainStage(r: Ring, q: Queue, i: Stimulus, j: nat)
    requires Inv(q) && Rep(r, q) && !Laps(q)
    requires q.cp <= j < |q.descs| + Bit(Accepts(q, i))
    ensures SlotsAfterDrain(r, PinsOf(q.w, i))[j % 4] == FinalSlot(q, i, j)
  {
    DrainWires(r, q, i);
    DataStage(r, q, i, j);
    FinalOfPacked(r, q, i, j);
    if CanPop(q, i) {
      FinishedSlot(r, q, i, j);
    }
  }

  lemma RingSlot(r: Ring, q: Queue, i: Stimulus, j: nat)
    requires Inv(q) && Rep(r, q) && !Laps(q)
    requires q.cp + Bit(CommitReady(q) && i.bready) <= j < |q.descs| + Bit(Accepts(q, i))
    ensures NextSlots(r, PinsOf(q.w, i))[j % 4] == FinalSlot(q, i, j)
  {
    CommitWires(r, q, i);
    DrainStage(r, q, i, j);
    Mod4(j, q.cp);
  }

  lemma ValidBits(r: Ring, p: Pins, x: int)
    requires 0 <= x < 4
    ensures NextSlots(r, p)[x].valid
        == ((r.slots[x].valid || (AwFire(r, p) && x == r.wptr)) && !(CommitPop(r, p) && x == r.commitPtr))
  {
    assert SlotsAfterDrain(r, p)[x].valid == SlotsAfterData(r, p)[x].valid;
    assert SlotsAfterData(r, p)[x].valid == SlotsAfterIssue(r, p)[x].valid;
    assert SlotsAfterIssue(r, p)[x].valid == SlotsAfterAccept(r, p)[x].valid;
  }

  lemma FreeSlot(r: Ring, q: Queue, i: Stimulus, j: nat)
    requires Pointers(q) && RepPointers(r, q) && RepSlots(r, q) && SameDecisions(r, q, i)
    requires |q.descs| + Bit(Accepts(q, i)) <= j < q.cp + Bit(CommitReady(q) && i.bready) + 4
    ensures !NextSlots(r, PinsOf(q.w, i))[j % 4].valid
  {
    var p := PinsOf(q.w, i);
    ValidBits(r, p, j % 4);
    if j < q.cp + 4 {
      assert !At(r, j).valid;
      Mod4(j, |q.descs|);
      assert AwFire(r, p) ==> j % 4 != r.wptr;
    } else {
      SlotAhead(q.cp);
      assert CommitPop(r, p) && j % 4 == r.commitPtr;
    }
  }

  lemma SlotAhead(n: nat)
    ensures (n + 4) % 4 == n % 4
  {
  }

  lemma StepCounts(q: Queue, i: Stimulus)
    requires Inv(q)
    ensures var s := Step(q, i);
            |s.descs| == |q.descs| + Bit(Accepts(q, i))
            && s.cp == q.cp + Bit(CommitReady(q) && i.bready)
            && s.aw == q.aw + Bit(AwShakes(q, i) || AwSkips(q))
            && s.presenting == (if AwShakes(q, i) then false else q.presenting || AwWants(q))
            && s.inFlight == q.inFlight - Bit(q.w.bPending) + Bit(AwShakes(q, i))
            && s.popped == q.popped + Bit(CanPop(q, i))
            && s.dp == q.dp + Bit(Consumes(q, i) && Terminates(Current(q, i).aw, q.recv, i.w.last))
  {
    TurnedRest(q, i);
    TurnoverKeeps(q, i);
    FillsAsFires(q, i);
    if HasCurrent(q, i) {
      CurrentIs(q, i);
    }
  }

  lemma IncMod(n: nat)
    ensures Inc(n % 4) == (n + 1) % 4
  {
  }

  lemma NextPointers(r: Ring, q: Queue, i: Stimulus)
    requires Inv(q) && Rep(r, q) && !Laps(q)
    ensures RepPointers(Next(r, PinsOf(q.w, i)), Step(q, i))
  {
    DecisionsAgree(r, q, i);
    AddressWires(r, q, i);
    StepCounts(q, i);
    PointersStep(r, q, Step(q, i), i);
  }

  lemma PointerFields(r: Ring, p: Pins)
    ensures var n := Next(r, p);
            n.wptr == (if AwFire(r, p) then Inc(r.wptr) else r.wptr)
            && n.awPtr == (if AwAdvance(r, p) then Inc(r.awPtr) else r.awPtr)
            && n.dataPtr == (if DataAdvance(r, p) then Inc(r.dataPtr) else r.dataPtr)
            && n.dataPtrP1 == Inc(n.dataPtr)
            && n.commitPtr == (if CommitPop(r, p) then Inc(r.commitPtr) else r.commitPtr)
            && n.count == r.count + Bit(AwFire(r, p)) - Bit(CommitPop(r, p))
  {
  }

  lemma PointersStep(r: Ring, q: Queue, s: Queue, i: Stimulus)
    requires RepPointers(r, q) && SameDecisions(r, q, i)
    requires AwAdvance(r, PinsOf(q.w, i)) == (AwShakes(q, i) || AwSkips(q))
    requires |s.descs| == |q.descs| + Bit(Accepts(q, i))
    requires s.cp == q.cp + Bit(CommitReady(q) && i.bready)
    requires s.aw == q.aw + Bit(AwShakes(q, i) || AwSkips(q))
    requires s.dp == q.dp + Bit(Consumes(q, i) && Terminates(Current(q, i).aw, q.recv, i.w.last))
    ensures RepPointers(Next(r, PinsOf(q.w, i)), s)
  {
    PointerFields(r, PinsOf(q.w, i));
    IncMod(|q.descs|);
    IncMod(q.aw);
    IncMod(q.dp);
    IncMod(q.dp + 1);
    IncMod(q.cp);
  }

  lemma NextRepSlots(r: Ring, q: Queue, i: Stimulus)
    requires Inv(q) && Rep(r, q) && !Laps(q)
    ensures RepSlots(Next(r, PinsOf(q.w, i)), Step(q, i))
  {
    var r' := Next(r, PinsOf(q.w, i));
    var s := Step(q, i);
    StepCounts(q, i);
    DecisionsAgree(r, q, i);
    forall j | s.cp <= j < |s.descs|
      ensures At(r', j) == SlotOf(s.descs[j])
    {
      RingSlot(r, q, i, j);
      StepSlot(q, i, j);
    }
    forall j | |s.descs| <= j < s.cp + 4
      ensures !At(r', j).valid
    {
      FreeSlot(r, q, i, j);
    }
  }

  // ---------------------------------------------------------------- packer, skid and shadow

  predicate PadsNow(q: Queue, i: Stimulus) {
    q.padActive && q.padRemaining != 0 && |q.log| - q.popped - Bit(CanPop(q, i)) < 2
  }

  function CurrentEntry(q: Queue, i: Stimulus): LogBeat
    requires HasCurrent(q, i)
  {
    var a := Current(q, i).aw;
    LogBeat(q.dp, q.pushed, q.pushed + 1 == MigBeats(a), Base(a) + 32 * q.pushed,
            Packed(a, q.recv, q.packValid, q.packHalf, i.w.half))
  }

  lemma ConsumePacker(t: Queue, w: WBeat)
    requires t.dp < |t.descs|
    ensures var s := Consume(t, w);
            var a := t.descs[t.dp].aw;
            var ends := Terminates(a, t.recv, w.last);
            s.recv == (if ends then 0 else t.recv + 1)
            && s.pushed == (if ends then 0 else t.pushed + Bit(NeedPush(a, t.descs[t.dp].ok, t.recv, w.last)))
            && s.packValid == !Completes(a, t.recv, w.last)
            && s.packHalf == (if Completes(a, t.recv, w.last) then t.packHalf else w.half)
  {
  }

  lemma ConsumePads(t: Queue, w: WBeat)
    requires t.dp < |t.descs|
    ensures var s := Consume(t, w);
            var a := t.descs[t.dp].aw;
            s.padActive == PadTriggers(t, w)
            && s.padRemaining == (if PadTriggers(t, w) then MigBeats(a) - t.pushed else t.padRemaining)
            && s.padIdx == (if PadTriggers(t, w) then t.dp else t.padIdx)
  {
  }

  lemma StepIsConsume(q: Queue, i: Stimulus)
    requires Inv(q) && Consumes(q, i)
    ensures Inv(Turnover(q, i)) && CanConsume(Turnover(q, i), i) && Step(q, i) == Consume(Turnover(q, i), i.w)
  {
    TurnoverKeeps(q, i);
    FillsAsFires(q, i);
  }

  lemma StepConsumesPacker(q: Queue, i: Stimulus)
    requires Inv(q) && Consumes(q, i)
    ensures var s := Step(q, i);
            var d := Current(q, i);
            var ends := Terminates(d.aw, q.recv, i.w.last);
            s.recv == (if ends then 0 else q.recv + 1)
            && s.pushed == (if ends then 0 else q.pushed + Bit(NeedPush(d.aw, d.ok, q.recv, i.w.last)))
            && s.packValid == !Completes(d.aw, q.recv, i.w.last)
            && s.packHalf == (if Completes(d.aw, q.recv, i.w.last) then q.packHalf else i.w.half)
  {
    StepIsConsume(q, i);
    TurnedRest(q, i);
    CurrentIs(q, i);
    ConsumePacker(Turnover(q, i), i.w);
  }

  lemma StepConsumesPads(q: Queue, i: Stimulus)
    requires Inv(q) && Consumes(q, i)
    ensures var s := Step(q, i);
            var d := Current(q, i);
            s.padActive == Pads(q, i)
            && s.padRemaining == (if Pads(q, i) then MigBeats(d.aw) - q.pushed else q.padRemaining)
            && s.padIdx == (if Pads(q, i) then q.dp else q.padIdx)
  {
    StepIsConsume(q, i);
    TurnedRest(q, i);
    CurrentIs(q, i);
    PadsAsTriggered(q, i);
    ConsumePads(Turnover(q, i), i.w);
  }

  lemma SameEntry(q: Queue, t: Queue, i: Stimulus)
    requires HasCurrent(q, i) && SamePacker(q, t) && q.dp < |t.descs| && t.descs[q.dp] == Current(q, i)
    ensures RealEntry(t, i.w) == CurrentEntry(q, i)
  {
  }

  lemma StepConsumesLog(q: Queue, i: Stimulus)
    requires Inv(q) && Consumes(q, i)
    ensures var d := Current(q, i);
            Step(q, i).log == if NeedPush(d.aw, d.ok, q.recv, i.w.last) then q.log + [CurrentEntry(q, i)] else q.log
  {
    StepIsConsume(q, i);
    TurnedRest(q, i);
    CurrentIs(q, i);
    SameEntry(q, Turnover(q, i), i);
  }

  lemma StepIdles(q: Queue, i: Stimulus)
    requires Inv(q) && !Consumes(q, i)
    ensures var s := Step(q, i);
            s.recv == q.recv && s.pushed == q.pushed && s.packValid == q.packValid && s.packHalf == q.packHalf
            && s.padIdx == q.padIdx
            && s.padRemaining == q.padRemaining - Bit(PadsNow(q, i))
            && s.padActive == (q.padActive && !(PadsNow(q, i) && q.padRemaining == 1))
            && (if PadsNow(q, i) then
                  |s.log| == |q.log| + 1 && s.log[..|q.log|] == q.log
                  && SkidOf(s.log[|q.log|]) == SkidBeat(FILLER, q.padRemaining == 1, q.padIdx % 4)
                else s.log == q.log)
  {
    TurnedRest(q, i);
    TurnoverKeeps(q, i);
    FillsAsFires(q, i);
  }

  lemma NextPresenting(r: Ring, q: Queue, i: Stimulus)
    requires Inv(q) && Rep(r, q) && !Laps(q)
    ensures var r' := Next(r, PinsOf(q.w, i));
            r'.awPresenting == Step(q, i).presenting && r'.bqCount == Step(q, i).inFlight
  {
    AddressWires(r, q, i);
    StepCounts(q, i);
  }

  lemma NextConsumed(r: Ring, q: Queue, i: Stimulus)
    requires Inv(q) && Rep(r, q) && !Laps(q) && Consumes(q, i)
    ensures var r' := Next(r, PinsOf(q.w, i));
            var s := Step(q, i);
            r'.recvCount == s.recv && r'.migPushed == s.pushed && r'.packValid == s.packValid
            && r'.packHalf == s.packHalf && r'.padActive == s.padActive && r'.padRemaining == s.padRemaining
            && (s.padActive ==> r'.padIdx == s.padIdx % 4)
  {
    DecisionsAgree(r, q, i);
    FireWires(r, q, i);
    StepConsumesPacker(q, i);
    StepConsumesPads(q, i);
  }

  lemma NextIdled(r: Ring, q: Queue, i: Stimulus)
    requires Inv(q) && Rep(r, q) && !Laps(q) && !Consumes(q, i)
    ensures var r' := Next(r, PinsOf(q.w, i));
            var s := Step(q, i);
            r'.recvCount == s.recv && r'.migPushed == s.pushed && r'.packValid == s.packValid
            && r'.packHalf == s.packHalf && r'.padActive == s.padActive && r'.padRemaining == s.padRemaining
            && (s.padActive ==> r'.padIdx == s.padIdx % 4)
  {
    DecisionsAgree(r, q, i);
    FireWires(r, q, i);
    StepIdles(q, i);
  }

  lemma NextPacker(r: Ring, q: Queue, i: Stimulus)
    requires Inv(q) && Rep(r, q) && !Laps(q)
    ensures RepPacker(Next(r, PinsOf(q.w, i)), Step(q, i))
  {
    NextPresenting(r, q, i);
    if Consumes(q, i) {
      NextConsumed(r, q, i);
    } else {
      NextIdled(r, q, i);
    }
  }

  lemma PushedSlot(r: Ring, q: Queue, i: Stimulus)
    requires Inv(q) && Rep(r, q) && !Laps(q)
    ensures var p := PinsOf(q.w, i);
            var s := Step(q, i);
            (SkidPush(r, p) <==> |s.log| == |q.log| + 1)
            && |s.log| == |q.log| + Bit(SkidPush(r, p)) && s.log[..|q.log|] == q.log
            && (SkidPush(r, p) ==> PushedSkid(r, p) == SkidOf(s.log[|q.log|]))
            && (SkidPush(r, p) ==> |q.log| - q.popped - Bit(CanPop(q, i)) < 2)
  {
    DecisionsAgree(r, q, i);
    FireWires(r, q, i);
    if Consumes(q, i) {
      StepConsumesLog(q, i);
    } else {
      StepIdles(q, i);
    }
  }

  lemma NextSkid(r: Ring, q: Queue, i: Stimulus)
    requires Inv(q) && Rep(r, q) && !Laps(q)
    ensures RepSkid(Next(r, PinsOf(q.w, i)), Step(q, i))
  {
    DrainWires(r, q, i);
    PushedSlot(r, q, i);
    StepCounts(q, i);
    SkidStep(r, q, Step(q, i), PinsOf(q.w, i), CanPop(q, i));
  }

  lemma SkidFields(r: Ring, p: Pins)
    ensures var n := Next(r, p);
            n.skid == (if SkidPush(r, p) then r.skid[r.skidW := PushedSkid(r, p)] else r.skid)
            && n.skidW == (if SkidPush(r, p) then 1 - r.skidW else r.skidW)
            && n.skidR == (if SkidPop(r, p) then 1 - r.skidR else r.skidR)
            && n.skidCnt == r.skidCnt + Bit(SkidPush(r, p)) - Bit(SkidPop(r, p))
  {
  }

  /** The entry written is never one still waiting. */
  lemma SkidSlots(r: Ring)
    requires 0 <= r.skidCnt <= 2 && r.skidW == (r.skidR + r.skidCnt) % 2
    ensures r.skidCnt == 1 ==> r.skidW == 1 - r.skidR
    ensures r.skidCnt != 1 ==> r.skidW == r.skidR
  {
  }

  lemma SkidStep(r: Ring, q: Queue, s: Queue, p: Pins, pops: bool)
    requires RepSkid(r, q) && SkidPop(r, p) == pops && (pops ==> q.popped < |q.log|)
    requires s.popped == q.popped + Bit(pops)
    requires |s.log| == |q.log| + Bit(SkidPush(r, p)) && s.log[..|q.log|] == q.log
    requires SkidPush(r, p) ==> PushedSkid(r, p) == SkidOf(s.log[|q.log|]) && |q.log| - q.popped - Bit(pops) < 2
    ensures RepSkid(Next(r, p), s)
  {
    SkidFields(r, p);
    SkidSlots(r);
    assert forall k :: 0 <= k < |q.log| ==> s.log[k] == s.log[..|q.log|][k];
  }

  predicate Advances(q: Queue, i: Stimulus) {
    Consumes(q, i) && Terminates(Current(q, i).aw, q.recv, i.w.last)
  }

  /** The slot the shadow is loaded from is the one the data pointer will stand on. */
  lemma ShadowIndex(r: Ring, q: Queue, i: Stimulus)
    requires Inv(q) && Rep(r, q) && !Laps(q)
    ensures var p := PinsOf(q.w, i);
            var n := q.dp + Bit(Advances(q, i));
            (if DataAdvance(r, p) then r.dataPtrP1 else r.dataPtr) == n % 4
            && Next(r, p).dataPtr == n % 4
            && AwFire(r, p) == Accepts(q, i)
            && n <= |q.descs| + Bit(Accepts(q, i))
  {
    DecisionsAgree(r, q, i);
    IncMod(q.dp);
  }

  predicate ShadowOf(c: Shadow, s: Slot) {
    c.active == !s.dataDone && c.ok == s.ok && c.addr4 == s.addr / 16 % 2
    && c.repoBeats == s.repoBeats && c.migBeats == s.migBeats
  }

  lemma LoadedExisting(r: Ring, q: Queue, p: Pins, n: nat)
    requires RepSlots(r, q) && Flags(q) && q.cp <= n < |q.descs| && q.dp <= n
    requires (if DataAdvance(r, p) then r.dataPtrP1 else r.dataPtr) == n % 4
    requires AwFire(r, p) ==> r.wptr != n % 4
    ensures ShadowOf(NextShadow(r, p), SlotOf(q.descs[n]))
  {
    assert At(r, n) == SlotOf(q.descs[n]);
    assert FlagsAt(q, n);
  }

  lemma LoadedFresh(r: Ring, p: Pins)
    requires AwFire(r, p) && r.wptr == if DataAdvance(r, p) then r.dataPtrP1 else r.dataPtr
    ensures ShadowOf(NextShadow(r, p), SlotOf(FreshDesc(p.s.aw)))
  {
  }

  lemma LoadedAt(r: Ring, q: Queue, p: Pins, n: nat, accepts: bool)
    requires Pointers(q) && Flags(q) && RepPointers(r, q) && RepSlots(r, q)
    requires q.dp <= n < |q.descs| + Bit(accepts) && AwFire(r, p) == accepts && (accepts ==> |q.descs| < q.cp + 4)
    requires (if DataAdvance(r, p) then r.dataPtrP1 else r.dataPtr) == n % 4
    ensures ShadowOf(NextShadow(r, p), SlotOf(if n < |q.descs| then q.descs[n] else FreshDesc(p.s.aw)))
  {
    if n < |q.descs| {
      if accepts {
        Mod4(n, |q.descs|);
      }
      LoadedExisting(r, q, p, n);
    } else {
      LoadedFresh(r, p);
    }
  }

  /** Nothing the shadow copies changes in the slot it is loaded from. */
  lemma ShadowOfFinal(q: Queue, i: Stimulus, n: nat, c: Shadow)
    requires n == q.dp + Bit(Advances(q, i)) && n < |q.descs| + Bit(Accepts(q, i))
    requires ShadowOf(c, SlotOf(if n < |q.descs| then q.descs[n] else FreshDesc(i.aw)))
    ensures ShadowOf(c, FinalSlot(q, i, n))
  {
  }

  lemma RoomToAccept(q: Queue, i: Stimulus)
    requires Pointers(q) && Accepts(q, i)
    ensures |q.descs| < q.cp + 4
  {
  }

  lemma NextShadowLive(r: Ring, q: Queue, i: Stimulus, n: nat)
    requires Inv(q) && Rep(r, q) && !Laps(q)
    requires n == q.dp + Bit(Advances(q, i)) && n < |q.descs| + Bit(Accepts(q, i))
    ensures ShadowOf(NextShadow(r, PinsOf(q.w, i)), FinalSlot(q, i, n))
  {
    ShadowIndex(r, q, i);
    if Accepts(q, i) {
      RoomToAccept(q, i);
    }
    LoadedAt(r, q, PinsOf(q.w, i), n, Accepts(q, i));
    ShadowOfFinal(q, i, n, NextShadow(r, PinsOf(q.w, i)));
  }

  predicate PayloadOf(c: Shadow, s: Slot) {
    c.ok == s.ok && c.addr4 == s.addr / 16 % 2 && c.repoBeats == s.repoBeats && c.migBeats == s.migBeats
  }

  lemma IdleAt(r: Ring, q: Queue, p: Pins, n: nat, accepts: bool)
    requires Pointers(q) && Flags(q) && RepPointers(r, q) && RepSlots(r, q)
    requires n == |q.descs| + Bit(accepts) && n <= q.dp + 1
    requires AwFire(r, p) == accepts && (accepts ==> |q.descs| < q.cp + 4)
    requires (if DataAdvance(r, p) then r.dataPtrP1 else r.dataPtr) == n % 4
    ensures !accepts || n == |q.descs| + 1
    ensures n < q.cp + 4 ==> !NextShadow(r, p).active
    ensures q.cp + 4 <= n && n - 4 < q.dp ==>
              !NextShadow(r, p).active && PayloadOf(NextShadow(r, p), SlotOf(q.descs[n - 4]))
  {
    if accepts {
      Mod4(n, |q.descs|);
    }
    if n < q.cp + 4 {
      assert !At(r, n).valid;
    } else if n - 4 < q.dp {
      SlotAhead(n - 4);
      assert At(r, n - 4) == SlotOf(q.descs[n - 4]);
      assert FlagsAt(q, n - 4);
    }
  }

  lemma NextShadowIdle(r: Ring, q: Queue, i: Stimulus)
    requires Inv(q) && Rep(r, q) && !Laps(q)
    requires q.dp + Bit(Advances(q, i)) == |q.descs| + Bit(Accepts(q, i))
    ensures var n := q.dp + Bit(Advances(q, i));
            var c := NextShadow(r, PinsOf(q.w, i));
            !c.active
            && (n == q.cp + Bit(CommitReady(q) && i.bready) + 4 && 4 <= n && n - 4 < |q.descs| ==>
                  PayloadOf(c, SlotOf(q.descs[n - 4])))
  {
    ShadowIndex(r, q, i);
    IdleAt(r, q, PinsOf(q.w, i), q.dp + Bit(Advances(q, i)), Accepts(q, i));
  }

  /** Once the whole queue has been streamed, the slot ahead is free or long done. */
  lemma IdleSlot(r: Ring, s: Queue)
    requires Pointers(s) && Flags(s) && RepPointers(r, s) && RepSlots(r, s) && s.dp == |s.descs|
    ensures !(r.slots[r.dataPtr].valid && !r.slots[r.dataPtr].dataDone)
    ensures r.slots[r.dataPtr].valid ==> s.dp == s.cp + 4
  {
    if s.dp < s.cp + 4 {
      assert !At(r, s.dp).valid;
    } else {
      assert At(r, s.cp) == SlotOf(s.descs[s.cp]);
      assert FlagsAt(s, s.cp);
    }
  }

  lemma NextEqual(r: Ring, q: Queue, i: Stimulus)
    requires Inv(q) && Rep(r, q) && !Laps(q)
    ensures var r' := Next(r, PinsOf(q.w, i)); r'.cwd.dpEqWp == (r'.dataPtr == r'.wptr)
  {
    ShadowIndex(r, q, i);
  }

  lemma LiveSlot(r: Ring, q: Queue, i: Stimulus, n: nat)
    requires Inv(q) && Rep(r, q) && !Laps(q)
    requires q.dp <= n < |q.descs| + Bit(Accepts(q, i))
    ensures NextSlots(r, PinsOf(q.w, i))[n % 4] == FinalSlot(q, i, n) && FinalSlot(q, i, n).valid
  {
    CommitsBehindData(q, i);
    RingSlot(r, q, i, n);
  }

  lemma ShadowFields(r: Ring, p: Pins)
    ensures Next(r, p).slots == NextSlots(r, p) && Next(r, p).cwd == NextShadow(r, p)
  {
  }

  lemma NextCoherentLive(r: Ring, q: Queue, i: Stimulus)
    requires Inv(q) && Rep(r, q) && !Laps(q)
    requires q.dp + Bit(Advances(q, i)) < |q.descs| + Bit(Accepts(q, i))
    ensures ShadowCoherent(Next(r, PinsOf(q.w, i)))
  {
    var n := q.dp + Bit(Advances(q, i));
    ShadowIndex(r, q, i);
    NextEqual(r, q, i);
    NextShadowLive(r, q, i, n);
    LiveSlot(r, q, i, n);
    ShadowFields(r, PinsOf(q.w, i));
    CoherentAt(Next(r, PinsOf(q.w, i)), n % 4, FinalSlot(q, i, n));
  }

  lemma CoherentAt(r: Ring, x: Index, s: Slot)
    requires r.dataPtr == x && r.slots[x] == s && s.valid && ShadowOf(r.cwd, s)
    requires r.cwd.dpEqWp == (r.dataPtr == r.wptr)
    ensures ShadowCoherent(r)
  {
  }

  /** The answered descriptor is never the one being streamed. */
  lemma CommitsBehindData(q: Queue, i: Stimulus)
    requires Pointers(q) && Flags(q)
    ensures q.cp + Bit(CommitReady(q) && i.bready) <= q.dp
  {
    if CommitReady(q) {
      assert FlagsAt(q, q.cp);
    }
  }

  lemma NextIdleSlot(r: Ring, q: Queue, i: Stimulus)
    requires Inv(q) && Rep(r, q) && !Laps(q)
    requires q.dp + Bit(Advances(q, i)) == |q.descs| + Bit(Accepts(q, i))
    ensures var r' := Next(r, PinsOf(q.w, i));
            var c := r'.slots[r'.dataPtr];
            !(c.valid && !c.dataDone)
            && (c.valid ==> q.dp + Bit(Advances(q, i)) == q.cp + Bit(CommitReady(q) && i.bready) + 4)
  {
    StepKeeps(q, i);
    StepCounts(q, i);
    NextPointers(r, q, i);
    NextRepSlots(r, q, i);
    IdleSlot(Next(r, PinsOf(q.w, i)), Step(q, i));
  }

  /** Behind the data pointer a slot's payload no longer changes. */
  lemma FinalPayload(q: Queue, i: Stimulus, j: nat, c: Shadow)
    requires j < q.dp && j < |q.descs| && PayloadOf(c, SlotOf(q.descs[j]))
    ensures PayloadOf(c, FinalSlot(q, i, j))
  {
  }

  lemma IdlePayload(r: Ring, q: Queue, i: Stimulus)
    requires Inv(q) && Rep(r, q) && !Laps(q)
    requires q.dp + Bit(Advances(q, i)) == |q.descs| + Bit(Accepts(q, i))
    requires q.dp + Bit(Advances(q, i)) == q.cp + Bit(CommitReady(q) && i.bready) + 4
    ensures PayloadOf(NextShadow(r, PinsOf(q.w, i)), NextSlots(r, PinsOf(q.w, i))[(q.dp + Bit(Advances(q, i))) % 4])
  {
    var n := q.dp + Bit(Advances(q, i));
    NextShadowIdle(r, q, i);
    RingSlot(r, q, i, n - 4);
    FinalPayload(q, i, n - 4, NextShadow(r, PinsOf(q.w, i)));
    SlotAhead(n - 4);
  }

  lemma NextCoherentIdle(r: Ring, q: Queue, i: Stimulus)
    requires Inv(q) && Rep(r, q) && !Laps(q)
    requires q.dp + Bit(Advances(q, i)) == |q.descs| + Bit(Accepts(q, i))
    ensures ShadowCoherent(Next(r, PinsOf(q.w, i)))
  {
    var r' := Next(r, PinsOf(q.w, i));
    ShadowIndex(r, q, i);
    NextEqual(r, q, i);
    NextShadowIdle(r, q, i);
    NextIdleSlot(r, q, i);
    if r'.slots[r'.dataPtr].valid {
      IdlePayload(r, q, i);
    }
  }

  lemma NextRep(r: Ring, q: Queue, i: Stimulus)
    requires Inv(q) && Rep(r, q) && !Laps(q)
    ensures Rep(Next(r, PinsOf(q.w, i)), Step(q, i))
  {
    NextPointers(r, q, i);
    NextRepSlots(r, q, i);
    NextPacker(r, q, i);
    NextSkid(r, q, i);
    ShadowIndex(r, q, i);
    if q.dp + Bit(Advances(q, i)) < |q.descs| + Bit(Accepts(q, i)) {
      NextCoherentLive(r, q, i);
    } else {
      NextCoherentIdle(r, q, i);
    }
  }
}
