/** The read engine's eight descriptor slots as registers with wrapping pointers, and the
    proof that they behave as the unrolled queue of reads. */
module MigReadRing {
  import opened Bytes
  import opened Bits
  import opened MigModel
  import opened MigWriteQueue
  import opened MigRead
  import opened MigReadTheorems

  datatype Slot = Slot(
    valid: bool, issued: bool, id: int, addr: int, repoBeats: int, migBeats: int, ok: bool)

  /** `rest` holds the registers that are not slots: the address register, the skid, the
      beat on show, its counters and the memory's side. */
  datatype ReadRing = ReadRing(slots: seq<Slot>, wptr: int, iptr: int, dptr: int, count: int, rest: Rest)

  datatype Rest = Rest(
    presenting: bool, arAddr: int, arLen: int, skid: seq<Wide>,
    curValid: bool, curData: Wide, curOk: bool, repoIndex: nat, migIndex: nat, r: ReadSide)

  const EMPTY_SLOT := Slot(false, false, 0, 0, 0, 0, false)

  const RING_RESET := ReadRing(
    [EMPTY_SLOT, EMPTY_SLOT, EMPTY_SLOT, EMPTY_SLOT, EMPTY_SLOT, EMPTY_SLOT, EMPTY_SLOT, EMPTY_SLOT], 0, 0, 0, 0,
    Rest(false, 0, 0, [], false, MBeat(Zeros(32), false), true, 0, 0, IDLE_READ))

  predicate Shaped(g: ReadRing) {
    |g.slots| == MAX_READS && 0 <= g.wptr < MAX_READS && 0 <= g.iptr < MAX_READS && 0 <= g.dptr < MAX_READS
  }

  function Recorded(a: Aw, valid: bool, issued: bool): Slot {
    Slot(valid, issued, a.id, a.addr, RepoBeats(a), MigBeats(a), Legal(a))
  }

  // ---------------------------------------------------------------- wires

  predicate Fires(g: ReadRing, i: ReadStimulus) {
    i.arValid && g.count != MAX_READS
  }

  predicate MemReady(g: ReadRing, i: ReadStimulus) {
    !g.rest.r.arHave && !g.rest.r.rActive && !i.arStall
  }

  predicate Pending(g: ReadRing)
    requires Shaped(g)
  {
    g.slots[g.iptr].valid && !g.slots[g.iptr].issued
  }

  predicate Wants(g: ReadRing, i: ReadStimulus)
    requires Shaped(g)
  {
    (!g.rest.presenting || MemReady(g, i)) && Pending(g) && g.slots[g.iptr].ok && !i.hazard
  }

  predicate Advances(g: ReadRing, i: ReadStimulus)
    requires Shaped(g)
  {
    Pending(g) && (!g.slots[g.iptr].ok || Wants(g, i))
  }

  predicate DrainsOk(g: ReadRing)
    requires Shaped(g)
  {
    g.slots[g.dptr].valid && g.slots[g.dptr].ok
  }

  predicate DrainsErr(g: ReadRing)
    requires Shaped(g)
  {
    g.slots[g.dptr].valid && !g.slots[g.dptr].ok
  }

  function FromMemory(g: ReadRing, mem: Memory): Wide {
    MBeat(ReadLanes(mem, g.rest.r.rAddr, 32), g.rest.r.rBeatsLeft == 0)
  }

  predicate FillsFromSkid(g: ReadRing)
    requires Shaped(g)
  {
    DrainsOk(g) && !g.rest.curValid && |g.rest.skid| != 0
  }

  predicate FillsFromMemory(g: ReadRing)
    requires Shaped(g)
  {
    DrainsOk(g) && !g.rest.curValid && |g.rest.skid| == 0 && g.rest.r.rActive
  }

  predicate TakesBeat(g: ReadRing)
    requires Shaped(g)
  {
    DrainsOk(g) && (|g.rest.skid| != 2 || FillsFromSkid(g))
  }

  predicate OnLastRepo(g: ReadRing)
    requires Shaped(g)
  {
    g.rest.repoIndex == g.slots[g.dptr].repoBeats - 1
  }

  predicate OnUpper(g: ReadRing)
    requires Shaped(g)
  {
    (g.slots[g.dptr].addr / 16 % 2 + g.rest.repoIndex) % 2 == 1
  }

  function Shown(g: ReadRing, mem: Memory): Wide
    requires Shaped(g)
  {
    if g.rest.curValid then g.rest.curData else if FillsFromSkid(g) then g.rest.skid[0] else FromMemory(g, mem)
  }

  predicate ShownOk(g: ReadRing, mem: Memory)
    requires Shaped(g)
  {
    if g.rest.curValid then g.rest.curOk
    else Shown(g, mem).last == (g.rest.migIndex == g.slots[g.dptr].migBeats - 1)
  }

  predicate Hands(g: ReadRing, i: ReadStimulus)
    requires Shaped(g)
  {
    (DrainsErr(g) || (DrainsOk(g) && (g.rest.curValid || FillsFromSkid(g) || FillsFromMemory(g)))) && i.rready
  }

  /** The beat on the bus. */
  function Beat(g: ReadRing, mem: Memory): RBeat
    requires Shaped(g)
  {
    var s := g.slots[g.dptr];
    if DrainsErr(g) then RBeat(s.id, Zeros(16), false, OnLastRepo(g))
    else
      var d := Shown(g, mem).data;
      RBeat(s.id, if OnUpper(g) then d[16..] else d[..16], ShownOk(g, mem), OnLastRepo(g))
  }

  predicate Pops(g: ReadRing, i: ReadStimulus)
    requires Shaped(g)
  {
    Hands(g, i) && OnLastRepo(g)
  }

  // ---------------------------------------------------------------- next state

  /** Accept, issue and drain may all touch a slot; the later one wins. */
  function NextSlot(g: ReadRing, i: ReadStimulus, j: int): Slot
    requires Shaped(g) && 0 <= j < MAX_READS
  {
    var s := if Fires(g, i) && j == g.wptr then Recorded(i.ar, true, false) else g.slots[j];
    s.(issued := s.issued || (Advances(g, i) && j == g.iptr), valid := s.valid && !(Pops(g, i) && j == g.dptr))
  }

  function NextRest(g: ReadRing, i: ReadStimulus, mem: Memory): Rest
    requires Shaped(g)
  {
    var r, fires, ends := g.rest, Hands(g, i), Pops(g, i);
    var fills := FillsFromSkid(g) || FillsFromMemory(g);
    Rest(
      Wants(g, i) || (r.presenting && !MemReady(g, i)),
      if Wants(g, i) then g.slots[g.iptr].addr % TWO_31 / 32 * 32 else r.arAddr,
      if Wants(g, i) then g.slots[g.iptr].migBeats - 1 else r.arLen,
      (if FillsFromSkid(g) then r.skid[1..] else r.skid)
      + (if r.r.rActive && TakesBeat(g) && !FillsFromMemory(g) then [FromMemory(g, mem)] else []),
      if fires && DrainsOk(g) && (OnUpper(g) || OnLastRepo(g)) then false
      else r.curValid || FillsFromSkid(g) || FillsFromMemory(g),
      if fills then Shown(g, mem) else r.curData,
      if fills then ShownOk(g, mem) else r.curOk,
      if !fires then r.repoIndex else if ends then 0 else r.repoIndex + 1,
      if !fires then r.migIndex
      else if ends then 0
      else if DrainsOk(g) && OnUpper(g) then r.migIndex + 1
      else r.migIndex,
      TakeR(TakeAr(r.r, r.presenting && MemReady(g, i), r.arAddr, r.arLen), r.r.rActive && TakesBeat(g)))
  }

  function Bumped(p: int, moves: bool): int {
    if !moves then p else if p == MAX_READS - 1 then 0 else p + 1
  }

  function RingNext(g: ReadRing, i: ReadStimulus, mem: Memory): (h: ReadRing)
    requires Shaped(g)
    ensures Shaped(h)
  {
    ReadRing(
      seq(MAX_READS, j requires 0 <= j < MAX_READS => NextSlot(g, i, j)),
      Bumped(g.wptr, Fires(g, i)), Bumped(g.iptr, Advances(g, i)), Bumped(g.dptr, Pops(g, i)),
      g.count + Bit(Fires(g, i)) - Bit(Pops(g, i)), NextRest(g, i, mem))
  }

  // ---------------------------------------------------------------- the ring against the queue

  function RestOf(s: Reader): Rest {
    Rest(s.presenting, s.arAddr, s.arLen, s.skid, s.curValid, s.curData, s.curOk, s.repoIndex, s.migIndex, s.r)
  }

  predicate Pointers(s: Reader) {
    s.drain <= s.issue <= |s.descs| <= s.drain + MAX_READS
  }

  predicate LiveAt(g: ReadRing, s: Reader, k: int)
    requires Shaped(g) && 0 <= k < |s.descs|
  {
    g.slots[k % MAX_READS] == Recorded(s.descs[k], true, k < s.issue)
  }

  predicate FreeAt(g: ReadRing, k: int)
    requires Shaped(g)
  {
    !g.slots[k % MAX_READS].valid
  }

  predicate Places8(g: ReadRing, s: Reader) {
    g.count == |s.descs| - s.drain && g.wptr == |s.descs| % MAX_READS
    && g.iptr == s.issue % MAX_READS && g.dptr == s.drain % MAX_READS
  }

  predicate Rep(g: ReadRing, s: Reader) {
    Shaped(g) && Pointers(s) && Places8(g, s) && g.rest == RestOf(s)
    && (forall k :: s.drain <= k < |s.descs| ==> LiveAt(g, s, k))
    && (forall k :: |s.descs| <= k < s.drain + MAX_READS ==> FreeAt(g, k))
  }

  lemma SameSlot(a: nat, b: nat)
    requires a <= b <= a + MAX_READS
    ensures a % MAX_READS == b % MAX_READS <==> a == b || b == a + MAX_READS
  {
  }

  lemma BumpedWraps(n: nat, moves: bool)
    ensures Bumped(n % MAX_READS, moves) == (n + Bit(moves)) % MAX_READS
  {
  }

  lemma PendingAgrees(g: ReadRing, s: Reader)
    requires Rep(g, s)
    ensures Pending(g) <==> s.issue < |s.descs|
    ensures Pending(g) ==> g.slots[g.iptr] == Recorded(s.descs[s.issue], true, false)
  {
    if s.issue < |s.descs| {
      assert LiveAt(g, s, s.issue);
    } else if |s.descs| < s.drain + MAX_READS {
      assert FreeAt(g, |s.descs|);
    } else {
      SameSlot(s.drain, |s.descs|);
      assert LiveAt(g, s, s.drain);
    }
  }

  lemma EntryAgrees(g: ReadRing, s: Reader)
    requires Rep(g, s)
    ensures g.slots[g.dptr].valid <==> s.drain < |s.descs|
    ensures s.drain < |s.descs| ==> g.slots[g.dptr] == Recorded(s.descs[s.drain], true, s.drain < s.issue)
  {
    if s.drain < |s.descs| {
      assert LiveAt(g, s, s.drain);
    } else {
      assert FreeAt(g, s.drain);
    }
  }

  lemma AddressAgrees(g: ReadRing, s: Reader, i: ReadStimulus)
    requires Rep(g, s)
    ensures Fires(g, i) <==> ArFire(s, i)
    ensures MemReady(g, i) <==> ArReady(s, i)
    ensures Wants(g, i) <==> ArWant(s, i)
    ensures Advances(g, i) <==> IssueAdvance(s, i)
  {
    PendingAgrees(g, s);
  }

  lemma DataAgrees(g: ReadRing, s: Reader, i: ReadStimulus, mem: Memory)
    requires Rep(g, s)
    ensures DrainsOk(g) <==> DrainOk(s)
    ensures DrainsErr(g) <==> DrainErr(s)
    ensures FillsFromSkid(g) <==> FillFromSkid(s)
    ensures FillsFromMemory(g) <==> FillFromMig(s)
    ensures TakesBeat(g) <==> MRready(s)
    ensures Shown(g, mem) == EffBeat(s, mem)
    ensures Hands(g, i) <==> RFire(s, i)
  {
    EntryAgrees(g, s);
  }

  lemma EndsAgree(g: ReadRing, s: Reader, i: ReadStimulus, mem: Memory)
    requires Rep(g, s)
    ensures s.drain < |s.descs| ==>
              (OnLastRepo(g) <==> LastRepo(s)) && (OnUpper(g) <==> ReadUpper(s)) && (ShownOk(g, mem) <==> EffOk(s, mem))
    ensures Pops(g, i) <==> RFire(s, i) && LastRepo(s)
    ensures SRvalid(s) ==> Beat(g, mem) == Output(s, mem)
  {
    EntryAgrees(g, s);
    DataAgrees(g, s, i, mem);
  }

  lemma RestAgrees(g: ReadRing, s: Reader, i: ReadStimulus, mem: Memory)
    requires Rep(g, s)
    ensures NextRest(g, i, mem) == RestOf(ReadNext(s, i, mem))
  {
    PendingAgrees(g, s);
    AddressAgrees(g, s, i);
    DataAgrees(g, s, i, mem);
    EndsAgree(g, s, i, mem);
  }

  lemma NextCounts(g: ReadRing, s: Reader, i: ReadStimulus, mem: Memory)
    requires Rep(g, s)
    ensures var t := ReadNext(s, i, mem);
            t.descs == (if Fires(g, i) then s.descs + [i.ar] else s.descs)
            && t.issue == s.issue + Bit(Advances(g, i)) && t.drain == s.drain + Bit(Pops(g, i))
    ensures Advances(g, i) ==> s.issue < |s.descs|
    ensures Pops(g, i) ==> s.drain < |s.descs|
  {
    AddressAgrees(g, s, i);
    EndsAgree(g, s, i, mem);
  }

  /** A read that was there keeps its slot. */
  lemma KeptLive(g: ReadRing, s: Reader, i: ReadStimulus, k: nat)
    requires Rep(g, s) && s.drain <= k < |s.descs| && !(Pops(g, i) && k == s.drain)
    ensures NextSlot(g, i, k % MAX_READS) == Recorded(s.descs[k], true, k < s.issue + Bit(Advances(g, i)))
  {
    assert LiveAt(g, s, k);
    SameSlot(s.drain, k);
    SameSlot(k, |s.descs|);
    if k <= s.issue {
      SameSlot(k, s.issue);
    } else {
      SameSlot(s.issue, k);
    }
  }

  /** A new read has a slot of its own. */
  lemma NewLive(g: ReadRing, s: Reader, i: ReadStimulus)
    requires Rep(g, s) && Fires(g, i)
    requires (Advances(g, i) ==> s.issue < |s.descs|) && (Pops(g, i) ==> s.drain < |s.descs|)
    ensures NextSlot(g, i, |s.descs| % MAX_READS) == Recorded(i.ar, true, false)
  {
    SameSlot(s.drain, |s.descs|);
    SameSlot(s.issue, |s.descs|);
  }

  lemma NextLive(g: ReadRing, s: Reader, i: ReadStimulus, mem: Memory, k: nat)
    requires Rep(g, s) && ReadNext(s, i, mem).drain <= k < |ReadNext(s, i, mem).descs|
    ensures LiveAt(RingNext(g, i, mem), ReadNext(s, i, mem), k)
  {
    NextCounts(g, s, i, mem);
    if k < |s.descs| {
      KeptLive(g, s, i, k);
    } else {
      NewLive(g, s, i);
    }
  }

  lemma NextFree(g: ReadRing, s: Reader, i: ReadStimulus, mem: Memory, k: nat)
    requires Rep(g, s) && |ReadNext(s, i, mem).descs| <= k < ReadNext(s, i, mem).drain + MAX_READS
    ensures FreeAt(RingNext(g, i, mem), k)
  {
    NextCounts(g, s, i, mem);
    SameSlot(|s.descs|, k);
    if k == s.drain + MAX_READS {
      SameSlot(s.drain, k);
    } else {
      assert FreeAt(g, k);
    }
  }

  lemma NextPlaces(g: ReadRing, s: Reader, i: ReadStimulus, mem: Memory)
    requires Rep(g, s)
    ensures Places8(RingNext(g, i, mem), ReadNext(s, i, mem))
  {
    NextCounts(g, s, i, mem);
    BumpedWraps(|s.descs|, Fires(g, i));
    BumpedWraps(s.issue, Advances(g, i));
    BumpedWraps(s.drain, Pops(g, i));
  }

  lemma NextPointers(g: ReadRing, s: Reader, i: ReadStimulus, mem: Memory)
    requires Rep(g, s) && ReadNext(s, i, mem).drain <= ReadNext(s, i, mem).issue
    ensures Pointers(ReadNext(s, i, mem))
  {
    EntryAgrees(g, s);
  }

  /** One clock edge of the eight slots is one step of the queue, as long as the engine does
      not drain a read it has not issued. */
  lemma NextRep(g: ReadRing, s: Reader, i: ReadStimulus, mem: Memory)
    requires Rep(g, s) && ReadNext(s, i, mem).drain <= ReadNext(s, i, mem).issue
    ensures Rep(RingNext(g, i, mem), ReadNext(s, i, mem))
  {
    RestAgrees(g, s, i, mem);
    NextPlaces(g, s, i, mem);
    NextPointers(g, s, i, mem);
    var h, t := RingNext(g, i, mem), ReadNext(s, i, mem);
    forall k | t.drain <= k < |t.descs|
      ensures LiveAt(h, t, k)
    {
      NextLive(g, s, i, mem, k);
    }
    forall k | |t.descs| <= k < t.drain + MAX_READS
      ensures FreeAt(h, k)
    {
      NextFree(g, s, i, mem, k);
    }
  }

  // ---------------------------------------------------------------- runs

  function RingRun(ins: seq<ReadStimulus>, mem: Memory): (g: ReadRing)
    ensures Shaped(g)
    decreases |ins|
  {
    if |ins| == 0 then RING_RESET else RingNext(RingRun(ins[..|ins| - 1], mem), ins[|ins| - 1], mem)
  }

  /** The addresses the registers accept and the beats they hand over. */
  function RingAccepted(ins: seq<ReadStimulus>, mem: Memory): seq<Aw>
    decreases |ins|
  {
    if |ins| == 0 then []
    else
      var n := |ins| - 1;
      RingAccepted(ins[..n], mem) + if Fires(RingRun(ins[..n], mem), ins[n]) then [ins[n].ar] else []
  }

  function RingReceived(ins: seq<ReadStimulus>, mem: Memory): seq<RBeat>
    decreases |ins|
  {
    if |ins| == 0 then []
    else
      var n := |ins| - 1;
      var g := RingRun(ins[..n], mem);
      RingReceived(ins[..n], mem) + if Hands(g, ins[n]) then [Beat(g, mem)] else []
  }

  lemma ResetRep()
    ensures Rep(RING_RESET, READ_RESET)
  {
  }

  /** In every run the registers accept and hand over exactly what the queue does; unlike
      the write ring, whose address pointer can lap, no traffic makes them part. */
  lemma {:induction false} RingIsQueue(ins: seq<ReadStimulus>, mem: Memory)
    ensures Rep(RingRun(ins, mem), ReadRun(READ_RESET, ins, mem))
    ensures RingAccepted(ins, mem) == Accepted(ins, mem) && RingReceived(ins, mem) == Received(ins, mem)
    decreases |ins|
  {
    if |ins| == 0 {
      ResetRep();
    } else {
      var n := |ins| - 1;
      RingIsQueue(ins[..n], mem);
      var g, s := RingRun(ins[..n], mem), ReadRun(READ_RESET, ins[..n], mem);
      var p := ReadsReturnMemory(ins, mem);
      assert ReadRun(READ_RESET, ins, mem) == ReadNext(s, ins[n], mem);
      NextRep(g, s, ins[n], mem);
      AddressAgrees(g, s, ins[n]);
      DataAgrees(g, s, ins[n], mem);
      EndsAgree(g, s, ins[n], mem);
    }
  }

  /** So the registers return the memory's contents. */
  lemma {:induction false} RingReturnsMemory(ins: seq<ReadStimulus>, mem: Memory) returns (p: Places)
    ensures var s := ReadRun(READ_RESET, ins, mem);
            ReadInv(s, p, mem) && s.descs == RingAccepted(ins, mem) && RingReceived(ins, mem) == AnsweredSoFar(s, mem)
  {
    RingIsQueue(ins, mem);
    p := ReadsReturnMemory(ins, mem);
  }
}
