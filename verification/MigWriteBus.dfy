/** The write path as its two buses see it: what was taken, what was answered, what was
    stored, and the handshake rules of section A3.2.1 of the AMBA AXI4 specification. */
module MigWriteBus {
  import opened Bits
  import opened Bytes
  import opened MigWriteQueue
  import opened MigWriteInvariant
  import opened MigWriteRing
  import opened MigWriteRefinement
  import opened MigWriteTheorems

  // ---------------------------------------------------------------- nothing is lost or invented

  lemma AddressesAfter(q: Queue, i: Stimulus)
    requires Inv(q)
    ensures Addresses(Step(q, i).descs) == Addresses(q.descs) + if Accepts(q, i) then [i.aw] else []
  {
    StepCounts(q, i);
    forall j | 0 <= j < |Step(q, i).descs|
      ensures Step(q, i).descs[j].aw == if j < |q.descs| then q.descs[j].aw else i.aw
    {
      StepDesc(q, i, j);
    }
  }

  lemma {:induction false} TakenLast(mem: Memory, ins: seq<Stimulus>, q: Queue)
    requires |ins| > 0 && q == History(mem, ins[..|ins| - 1])
    requires Tracks(Run(Start0(mem), ins[..|ins| - 1]), q) && !Laps(q)
    requires AddressesTaken(mem, ins[..|ins| - 1]) == Addresses(q.descs)
    requires BeatsTaken(mem, ins[..|ins| - 1]) == AllBeats(q.descs)
    ensures AddressesTaken(mem, ins) == Addresses(Step(q, ins[|ins| - 1]).descs)
    ensures BeatsTaken(mem, ins) == AllBeats(Step(q, ins[|ins| - 1]).descs)
  {
    var x, i := Run(Start0(mem), ins[..|ins| - 1]), ins[|ins| - 1];
    AddressWires(x.r, q, i);
    FireWires(x.r, q, i);
    AddressesAfter(q, i);
    if Consumes(q, i) {
      ConsumedBeats(q, i, Step(q, i));
    } else {
      UnconsumedBeats(q, i, Step(q, i));
    }
  }

  /** The descriptors are exactly the addresses taken from the bus, in order, and their
      beats, end to end, exactly the data beats taken from it. */
  lemma {:induction false} TakenIsRecorded(mem: Memory, ins: seq<Stimulus>)
    requires NeverLaps(mem, ins)
    ensures AddressesTaken(mem, ins) == Addresses(History(mem, ins).descs)
    ensures BeatsTaken(mem, ins) == AllBeats(History(mem, ins).descs)
    decreases |ins|
  {
    if |ins| != 0 {
      TakenIsRecorded(mem, ins[..|ins| - 1]);
      RunTracks(mem, ins[..|ins| - 1]);
      TakenLast(mem, ins, History(mem, ins[..|ins| - 1]));
    }
  }

  // ---------------------------------------------------------------- what each burst stores

  /** A legal, well-formed burst is stored whole, beat i at the 16-byte line of its start plus i. */
  lemma WellFormedStored(mem: Memory, d: Desc)
    requires Legal(d.aw) && WellFormed(d.aw, d.beats)
    ensures StoreBurst(mem, d) == StoreBeats(mem, Start(d.aw), d.beats)
  {
    assert d.beats[..|d.beats|] == d.beats;
  }

  /** A refused burst stores nothing. */
  lemma RefusedStoresNothing(mem: Memory, d: Desc)
    requires !Legal(d.aw)
    ensures StoreBurst(mem, d) == mem
  {
  }

  /** A burst cut short by an early WLAST keeps the complete 32-byte beats before the fault
      and loses the beat that carried it; one that runs past its length without WLAST loses
      its final 32-byte beat. */
  lemma MalformedStored(mem: Memory, d: Desc)
    requires Legal(d.aw) && Ended(d.aw, d.beats) && !WellFormed(d.aw, d.beats)
    ensures var n := |d.beats| - 1;
            var kept := n - (Addr4(d.aw) + n) % 2;
            StoreBurst(mem, d) == StoreBeats(mem, Start(d.aw), d.beats[..if kept < 0 then 0 else kept])
  {
    var n := |d.beats| - 1;
    forall k | 0 <= k < n
      ensures !d.beats[k].last && !LastExpected(d.aw, k)
    {
      assert !Terminates(d.aw, k, d.beats[k].last);
    }
    assert !WlastOk(d.aw, n, d.beats[n].last);
  }

  // ---------------------------------------------------------------- responses

  /** A response answers the oldest unanswered write with its own id, says OKAY exactly for
      a legal and well-formed burst, and comes only when no beat of that burst or an older
      one is still on its way to memory. */
  lemma ResponseMeansStored(mem: Memory, ins: seq<Stimulus>)
    requires NeverLaps(mem, ins) && SBvalid(Run(Start0(mem), ins).r)
    ensures var x := Run(Start0(mem), ins);
            var q := History(mem, ins);
            var s := x.r.slots[x.r.commitPtr];
            q.cp < |q.descs| && s.id == q.descs[q.cp].aw.id
            && (s.ok <==> Legal(q.descs[q.cp].aw) && WellFormed(q.descs[q.cp].aw, q.descs[q.cp].beats))
            && Ended(q.descs[q.cp].aw, q.descs[q.cp].beats)
            && (forall p :: q.popped <= p < |q.log| ==> q.log[p].idx > q.cp)
  {
    RunTracks(mem, ins);
    HistoryStreams(mem, ins);
    AnsweredIsStored(Run(Start0(mem), ins).r, History(mem, ins));
  }

  lemma AnsweredIsStored(r: Ring, q: Queue)
    requires Inv(q) && Rep(r, q) && Streamed(q) && SBvalid(r)
    ensures q.cp < |q.descs| && r.slots[r.commitPtr].id == q.descs[q.cp].aw.id
    ensures r.slots[r.commitPtr].ok <==> Legal(q.descs[q.cp].aw) && WellFormed(q.descs[q.cp].aw, q.descs[q.cp].beats)
    ensures Ended(q.descs[q.cp].aw, q.descs[q.cp].beats)
    ensures forall p :: q.popped <= p < |q.log| ==> q.log[p].idx > q.cp
  {
    assert q.cp == |q.descs| ==> !At(r, q.cp).valid;
    assert At(r, q.cp) == SlotOf(q.descs[q.cp]);
    assert FlagsAt(q, q.cp);
    assert StreamedAt(q.descs[q.cp], q.cp < q.dp);
    forall p | q.popped <= p < |q.log|
      ensures q.log[p].idx > q.cp
    {
      InSkidIsLater(q, p);
    }
  }

  lemma InSkidIsLater(q: Queue, p: nat)
    requires Inv(q) && CommitReady(q) && q.popped <= p < |q.log|
    ensures q.log[p].idx > q.cp
  {
    assert WaitingAt(q, q.log[p]);
    assert EntryOk(q, q.log[p]);
    assert FlagsAt(q, q.log[p].idx);
  }

  // ---------------------------------------------------------------- framing towards the memory

  /** Whenever a data beat is taken by the memory it is the next one of the burst whose
      address was taken last, at that burst's next address, and WLAST is set exactly on
      the beat the memory counts as the last. */
  lemma BurstsStayFramed(mem: Memory, ins: seq<Stimulus>, i: Stimulus)
    requires NeverLaps(mem, ins) && !Laps(History(mem, ins))
    requires SkidPop(Run(Start0(mem), ins).r, PinsOf(Run(Start0(mem), ins).w, i))
    ensures var x := Run(Start0(mem), ins);
            var q := History(mem, ins);
            x.w.wActive && q.cur < |q.descs| && q.descs[q.cur].awIssued
            && (SkidHead(x.r).last <==> x.w.wBeatsLeft == 0)
            && x.w.wBeatsLeft == MigBeats(q.descs[q.cur].aw) - 1 - q.taken
            && x.w.wAddr == Base(q.descs[q.cur].aw) + 32 * q.taken
  {
    RunTracks(mem, ins);
    var x, q := Run(Start0(mem), ins), History(mem, ins);
    DrainWires(x.r, q, i);
    HeadIsExpected(q, i);
  }

  // ---------------------------------------------------------------- stability of the outputs

  /** Once raised, the address channel holds its valid, address and length until taken. */
  lemma AddressHeld(r: Ring, q: Queue, i: Stimulus)
    requires Inv(q) && Rep(r, q) && !Laps(q)
    requires r.awPresenting && !MAwShakes(r, PinsOf(q.w, i))
    ensures var r' := Next(r, PinsOf(q.w, i));
            r'.awPresenting && r'.awPtr == r.awPtr
            && r'.slots[r'.awPtr].addr == r.slots[r.awPtr].addr
            && r'.slots[r'.awPtr].migBeats == r.slots[r.awPtr].migBeats
  {
    AddressWires(r, q, i);
    NextPresenting(r, q, i);
    NextPointers(r, q, i);
    NextRepSlots(r, q, i);
    HeldPosition(q, i);
    HeldAddress(r, Next(r, PinsOf(q.w, i)), q, Step(q, i));
  }

  lemma HeldPosition(q: Queue, i: Stimulus)
    requires Inv(q) && q.presenting && !AwShakes(q, i)
    ensures var s := Step(q, i);
            s.presenting && s.aw == q.aw && q.cp <= q.aw < |q.descs| && s.cp <= q.aw < |s.descs|
            && s.descs[q.aw].aw == q.descs[q.aw].aw
  {
    StepCounts(q, i);
    StepDesc(q, i, q.aw);
    if CommitReady(q) {
      CommitBehindPointer(q);
    }
  }

  lemma HeldAddress(r: Ring, r': Ring, q: Queue, s: Queue)
    requires RepPointers(r, q) && RepSlots(r, q) && RepPointers(r', s) && RepSlots(r', s) && s.aw == q.aw
    requires q.cp <= q.aw < |q.descs| && s.cp <= q.aw < |s.descs| && s.descs[q.aw].aw == q.descs[q.aw].aw
    ensures r'.awPtr == r.awPtr
    ensures r'.slots[r'.awPtr].addr == r.slots[r.awPtr].addr
    ensures r'.slots[r'.awPtr].migBeats == r.slots[r.awPtr].migBeats
  {
    assert At(r, q.aw) == SlotOf(q.descs[q.aw]);
    assert At(r', q.aw) == SlotOf(s.descs[q.aw]);
  }

  /** Once raised, the data channel holds its valid, data, strobes and last until taken. */
  lemma DataHeld(r: Ring, q: Queue, i: Stimulus, j: Stimulus)
    requires Inv(q) && Rep(r, q) && !Laps(q)
    requires MWvalid(r, PinsOf(q.w, i)) && !SkidPop(r, PinsOf(q.w, i))
    ensures var r' := Next(r, PinsOf(q.w, i));
            MWvalid(r', PinsOf(Step(q, i).w, j)) && SkidHead(r') == SkidHead(r)
  {
    DrainWires(r, q, i);
    StepCounts(q, i);
    var e := q.log[q.popped];
    HeldHead(r, q, i);
    HeldSkid(r, q, i);
    StepSlot(q, i, e.idx);
    NextRepSlots(r, q, i);
    assert At(Next(r, PinsOf(q.w, i)), e.idx) == SlotOf(Step(q, i).descs[e.idx]);
  }

  lemma HeldSkid(r: Ring, q: Queue, i: Stimulus)
    requires RepSkid(r, q) && r.skidCnt != 0 && !SkidPop(r, PinsOf(q.w, i))
    ensures SkidHead(Next(r, PinsOf(q.w, i))) == SkidHead(r) && Next(r, PinsOf(q.w, i)).skidCnt != 0
  {
    assert r.skidCnt == 2 ==> !SkidPush(r, PinsOf(q.w, i));
  }

  /** A beat on offer belongs to a burst whose address has been, or is being, taken. */
  lemma HeldHead(r: Ring, q: Queue, i: Stimulus)
    requires Inv(q) && Rep(r, q) && !Laps(q)
    requires MWvalid(r, PinsOf(q.w, i))
    ensures q.popped < |q.log| && SkidHead(r) == SkidOf(q.log[q.popped])
    ensures q.cp + Bit(CommitReady(q)) <= q.log[q.popped].idx < |q.descs|
    ensures TurnedDesc(q, i, q.log[q.popped].idx).awIssued
  {
    var e := q.log[q.popped];
    assert WaitingAt(q, e) && EntryOk(q, e) && FlagsAt(q, e.idx);
    if CommitReady(q) {
      InSkidIsLater(q, q.popped);
    }
    AddressWires(r, q, i);
    assert At(r, e.idx) == SlotOf(q.descs[e.idx]);
    if q.aw < |q.descs| {
      Mod4(e.idx, q.aw);
    }
  }
}
