/** The address pointer can lap the ring: an execution in which it does, what follows from
    it, and the exact condition under which it cannot. */
module MigWriteLap {
  import opened Bits
  import opened Bytes
  import opened MigModel
  import opened MigWriteQueue
  import opened MigWriteInvariant
  import opened MigWriteRing
  import opened MigWriteRefinement
  import opened MigWriteTheorems

  // ---------------------------------------------------------------- one execution

  /** An address outside the memory's two gigabytes, answered locally. */
  function Refused(id: int): Aw {
    Request(id, TWO_31, 0, 4, 1)
  }

  function Served(id: int, addr: int): Aw
    requires 0 <= addr < ADDRESS_SPACE
  {
    Request(id, addr, 0, 4, 1)
  }

  const BEAT := WBeat(EMPTY_HALF, true)

  function Address(a: Aw, bready: bool): Stimulus {
    Stimulus(true, a, false, BEAT, bready, false, false)
  }

  function Data(): Stimulus {
    Stimulus(false, Refused(0), true, BEAT, false, false, false)
  }

  function Quiet(bready: bool): Stimulus {
    Stimulus(false, Refused(0), false, BEAT, bready, false, false)
  }

  /** Two served writes among refused ones, each of one beat with WLAST set; the master
      sends its addresses ahead of its data. */
  const SCHEDULE := [
    Address(Refused(0), false),
    Address(Served(1, 0x100), false),
    Address(Refused(2), false),
    Address(Refused(3), false),
    Data(),
    Data(),
    Quiet(true),
    Address(Served(4, 0x200), true),
    Address(Served(5, 0x300), false),
    Quiet(false),
    Quiet(false),
    Data(),
    Data(),
    Data()]

  const BLANK: Beat := Join(EMPTY_HALF, EMPTY_HALF)

  datatype Registers = Registers(r: Ring, w: WriteSide)

  /** The registers before each of those cycles and after the last. */
  const TRACE: seq<Registers> := [
    Registers(RESET, IDLE_WRITE),
    Registers(Ring([Slot(0, 0x80000000, 1, 1, false, false, true, false, false, false),
                    EMPTY_SLOT, EMPTY_SLOT, EMPTY_SLOT],
        1, 0, 0, 1, 0, 1, false, 0, 0, 0, false, EMPTY_HALF, false, 0, 0,
        [EMPTY_SKID, EMPTY_SKID], 0, 0, 0,
        Shadow(false, 0, 1, 1, true, false)),
      WriteSide(false, 0x0, 0, false, 0x0, 0, false)),
    Registers(Ring([Slot(0, 0x80000000, 1, 1, false, false, true, false, false, false),
        Slot(1, 0x100, 1, 1, true, false, true, false, false, false), EMPTY_SLOT, EMPTY_SLOT],
        2, 1, 0, 1, 0, 2, false, 0, 0, 0, false, EMPTY_HALF, false, 0, 0,
        [EMPTY_SKID, EMPTY_SKID], 0, 0, 0,
        Shadow(false, 0, 1, 1, true, false)),
      WriteSide(false, 0x0, 0, false, 0x0, 0, false)),
    Registers(Ring([Slot(0, 0x80000000, 1, 1, false, false, true, false, false, false),
        Slot(1, 0x100, 1, 1, true, false, true, false, false, false),
        Slot(2, 0x80000000, 1, 1, false, false, true, false, false, false), EMPTY_SLOT],
        3, 1, 0, 1, 0, 3, true, 0, 0, 0, false, EMPTY_HALF, false, 0, 0,
        [EMPTY_SKID, EMPTY_SKID], 0, 0, 0,
        Shadow(false, 0, 1, 1, true, false)),
      WriteSide(false, 0x0, 0, false, 0x0, 0, false)),
    Registers(Ring([Slot(0, 0x80000000, 1, 1, false, false, true, false, false, false),
        Slot(1, 0x100, 1, 1, true, false, true, true, false, false),
        Slot(2, 0x80000000, 1, 1, false, false, true, false, false, false),
        Slot(3, 0x80000000, 1, 1, false, false, true, false, false, false)],
        0, 2, 0, 1, 0, 4, false, 1, 0, 0, false, EMPTY_HALF, false, 0, 0,
        [EMPTY_SKID, EMPTY_SKID], 0, 0, 0,
        Shadow(false, 0, 1, 1, true, true)),
      WriteSide(false, 0x100, 0, true, 0x100, 0, false)),
    Registers(Ring([Slot(0, 0x80000000, 1, 1, false, false, true, false, true, false),
        Slot(1, 0x100, 1, 1, true, false, true, true, false, false),
        Slot(2, 0x80000000, 1, 1, false, false, true, false, false, false),
        Slot(3, 0x80000000, 1, 1, false, false, true, false, false, false)],
        0, 3, 1, 2, 0, 4, false, 1, 0, 0, false, EMPTY_HALF, false, 0, 0,
        [EMPTY_SKID, EMPTY_SKID], 0, 0, 0,
        Shadow(true, 0, 1, 1, true, false)),
      WriteSide(false, 0x100, 0, true, 0x100, 0, false)),
    Registers(Ring([Slot(0, 0x80000000, 1, 1, false, false, true, false, true, false),
        Slot(1, 0x100, 1, 1, true, true, true, true, true, false),
        Slot(2, 0x80000000, 1, 1, false, false, true, false, false, false),
        Slot(3, 0x80000000, 1, 1, false, false, true, false, false, false)],
        0, 0, 2, 3, 0, 4, false, 1, 0, 0, false, EMPTY_HALF, false, 0, 0,
        [SkidBeat(BLANK, true, 1), EMPTY_SKID], 1, 0, 1,
        Shadow(false, 0, 1, 1, true, false)),
      WriteSide(false, 0x100, 0, true, 0x100, 0, false)),
    Registers(Ring([Slot(0, 0x80000000, 1, 1, false, false, false, false, true, false),
        Slot(1, 0x100, 1, 1, true, true, true, true, true, true),
        Slot(2, 0x80000000, 1, 1, false, false, true, false, false, false),
        Slot(3, 0x80000000, 1, 1, false, false, true, false, false, false)],
        0, 1, 2, 3, 1, 3, false, 1, 0, 0, false, EMPTY_HALF, false, 0, 0,
        [SkidBeat(BLANK, true, 1), EMPTY_SKID], 1, 1, 0,
        Shadow(false, 0, 1, 1, true, false)),
      WriteSide(false, 0x100, 0, false, 0x100, 0, true)),
    Registers(Ring([Slot(4, 0x200, 1, 1, true, false, true, false, false, false),
        Slot(1, 0x100, 1, 1, true, true, false, true, true, true),
        Slot(2, 0x80000000, 1, 1, false, false, true, false, false, false),
        Slot(3, 0x80000000, 1, 1, false, false, true, false, false, false)],
        1, 1, 2, 3, 2, 3, false, 0, 0, 0, false, EMPTY_HALF, false, 0, 0,
        [SkidBeat(BLANK, true, 1), EMPTY_SKID], 1, 1, 0,
        Shadow(false, 0, 1, 1, true, false)),
      WriteSide(false, 0x100, 0, false, 0x100, 0, false)),
    Registers(Ring([Slot(4, 0x200, 1, 1, true, false, true, false, false, false),
        Slot(5, 0x300, 1, 1, true, false, true, false, false, false),
        Slot(2, 0x80000000, 1, 1, false, false, true, false, false, false),
        Slot(3, 0x80000000, 1, 1, false, false, true, false, false, false)],
        2, 1, 2, 3, 2, 4, false, 0, 0, 0, false, EMPTY_HALF, false, 0, 0,
        [SkidBeat(BLANK, true, 1), EMPTY_SKID], 1, 1, 0,
        Shadow(false, 0, 1, 1, true, true)),
      WriteSide(false, 0x100, 0, false, 0x100, 0, false)),
    Registers(Ring([Slot(4, 0x200, 1, 1, true, false, true, false, false, false),
        Slot(5, 0x300, 1, 1, true, false, true, false, false, false),
        Slot(2, 0x80000000, 1, 1, false, false, true, false, false, false),
        Slot(3, 0x80000000, 1, 1, false, false, true, false, false, false)],
        2, 1, 2, 3, 2, 4, true, 0, 0, 0, false, EMPTY_HALF, false, 0, 0,
        [SkidBeat(BLANK, true, 1), EMPTY_SKID], 1, 1, 0,
        Shadow(false, 0, 1, 1, true, true)),
      WriteSide(false, 0x100, 0, false, 0x100, 0, false)),
    Registers(Ring([Slot(4, 0x200, 1, 1, true, false, true, false, false, false),
        Slot(5, 0x300, 1, 1, true, false, true, true, false, false),
        Slot(2, 0x80000000, 1, 1, false, false, true, false, false, false),
        Slot(3, 0x80000000, 1, 1, false, false, true, false, false, false)],
        2, 2, 2, 3, 2, 4, false, 1, 0, 0, false, EMPTY_HALF, false, 0, 0,
        [SkidBeat(BLANK, true, 1), EMPTY_SKID], 1, 1, 0,
        Shadow(false, 0, 1, 1, true, true)),
      WriteSide(false, 0x300, 0, true, 0x300, 0, false)),
    Registers(Ring([Slot(4, 0x200, 1, 1, true, false, true, false, false, false),
        Slot(5, 0x300, 1, 1, true, false, true, true, false, false),
        Slot(2, 0x80000000, 1, 1, false, false, true, false, true, false),
        Slot(3, 0x80000000, 1, 1, false, false, true, false, false, false)],
        2, 3, 3, 0, 2, 4, false, 1, 0, 0, false, EMPTY_HALF, false, 0, 0,
        [SkidBeat(BLANK, true, 1), EMPTY_SKID], 1, 1, 0,
        Shadow(false, 0, 1, 1, true, false)),
      WriteSide(false, 0x300, 0, true, 0x300, 0, false)),
    Registers(Ring([Slot(4, 0x200, 1, 1, true, false, true, false, false, false),
        Slot(5, 0x300, 1, 1, true, false, true, true, false, false),
        Slot(2, 0x80000000, 1, 1, false, false, true, false, true, false),
        Slot(3, 0x80000000, 1, 1, false, false, true, false, true, false)],
        2, 0, 0, 1, 2, 4, false, 1, 0, 0, false, EMPTY_HALF, false, 0, 0,
        [SkidBeat(BLANK, true, 1), EMPTY_SKID], 1, 1, 0,
        Shadow(true, 0, 1, 1, true, false)),
      WriteSide(false, 0x300, 0, true, 0x300, 0, false)),
    Registers(Ring([Slot(4, 0x200, 1, 1, true, true, true, false, true, false),
        Slot(5, 0x300, 1, 1, true, false, true, true, false, false),
        Slot(2, 0x80000000, 1, 1, false, false, true, false, true, false),
        Slot(3, 0x80000000, 1, 1, false, false, true, false, true, false)],
        2, 0, 1, 2, 2, 4, true, 1, 0, 0, false, EMPTY_HALF, false, 0, 0,
        [SkidBeat(BLANK, true, 1), SkidBeat(BLANK, true, 0)], 0, 1, 1,
        Shadow(true, 0, 1, 1, true, false)),
      WriteSide(false, 0x300, 0, true, 0x300, 0, false))]

  lemma RunPrefix(x: System, ins: seq<Stimulus>, k: nat)
    requires k < |ins|
    ensures Run(x, ins[..k + 1]) == Clock(Run(x, ins[..k]), ins[k])
  {
    assert ins[..k + 1] == ins[..k] + [ins[k]];
    RunUnfolds(x, ins[..k], ins[k]);
  }

  /** One clock edge of the registers; what the memory holds plays no part. */
  function Edge(g: Registers, i: Stimulus): Registers {
    var p := PinsOf(g.w, i);
    var b := BusOf(g.r, p);
    var w := TakeAw(g.w, b.awvalid && p.mAwready, b.awaddr, b.awlen);
    Registers(Next(g.r, p), TakeB(TakeW(w, w.wActive && b.wvalid && p.mWready), p.mBvalid))
  }

  lemma EdgeIsClock(x: System, i: Stimulus)
    ensures Registers(Clock(x, i).r, Clock(x, i).w) == Edge(Registers(x.r, x.w), i)
  {
  }

  predicate GoesAt(k: nat) {
    k < |SCHEDULE| && |TRACE| == |SCHEDULE| + 1 && Edge(TRACE[k], SCHEDULE[k]) == TRACE[k + 1]
  }

  lemma Cycle1()
    ensures GoesAt(0)
  {
  }

  lemma Cycle2()
    ensures GoesAt(1)
  {
  }

  lemma Cycle3()
    ensures GoesAt(2)
  {
  }

  lemma Cycle4()
    ensures GoesAt(3)
  {
    assert SCHEDULE[3] == Address(Refused(3), false);
    assert MAwShakes(TRACE[3].r, PinsOf(TRACE[3].w, SCHEDULE[3]));
  }

  lemma Cycle5()
    ensures GoesAt(4)
  {
  }

  lemma Cycle6()
    ensures GoesAt(5)
  {
  }

  lemma Cycle7()
    ensures GoesAt(6)
  {
  }

  lemma Cycle8()
    ensures GoesAt(7)
  {
  }

  lemma Cycle9()
    ensures GoesAt(8)
  {
  }

  lemma Cycle10()
    ensures GoesAt(9)
  {
  }

  lemma Cycle11()
    ensures GoesAt(10)
  {
  }

  lemma Cycle12()
    ensures GoesAt(11)
  {
  }

  lemma Cycle13()
    ensures GoesAt(12)
  {
  }

  lemma Cycle14()
    ensures GoesAt(13)
  {
  }

  lemma EachCycle(k: nat)
    requires k < 14
    ensures GoesAt(k)
  {
    match k {
      case 0 => Cycle1();
      case 1 => Cycle2();
      case 2 => Cycle3();
      case 3 => Cycle4();
      case 4 => Cycle5();
      case 5 => Cycle6();
      case 6 => Cycle7();
      case 7 => Cycle8();
      case 8 => Cycle9();
      case 9 => Cycle10();
      case 10 => Cycle11();
      case 11 => Cycle12();
      case 12 => Cycle13();
      case 13 => Cycle14();
    }
  }

  lemma {:induction false} Reaches(mem: Memory, k: nat)
    requires k <= 14
    ensures |SCHEDULE| == 14 && |TRACE| == 15
    ensures Run(Start0(mem), SCHEDULE[..k]).r == TRACE[k].r && Run(Start0(mem), SCHEDULE[..k]).w == TRACE[k].w
  {
    if k > 0 {
      Reaches(mem, k - 1);
      EachCycle(k - 1);
      ReachesNext(mem, k - 1);
    }
  }

  lemma ReachesNext(mem: Memory, k: nat)
    requires GoesAt(k)
    requires Run(Start0(mem), SCHEDULE[..k]).r == TRACE[k].r && Run(Start0(mem), SCHEDULE[..k]).w == TRACE[k].w
    ensures Run(Start0(mem), SCHEDULE[..k + 1]).r == TRACE[k + 1].r
    ensures Run(Start0(mem), SCHEDULE[..k + 1]).w == TRACE[k + 1].w
  {
    EdgeIsClock(Run(Start0(mem), SCHEDULE[..k]), SCHEDULE[k]);
    RunPrefix(Start0(mem), SCHEDULE, k);
  }

  /** Write 5 is accepted after write 4, both are legal, and the memory is given the
      address of write 5 while that of write 4 is still unissued. */
  lemma LaterAddressIssuedFirst(mem: Memory)
    ensures var x := Run(Start0(mem), SCHEDULE[..11]);
            x.w.wActive && x.w.wAddr == 0x300 && x.r.slots[1].id == 5 && x.r.slots[1].addr == 0x300
            && x.r.slots[0].id == 4 && x.r.slots[0].valid && x.r.slots[0].ok && !x.r.slots[0].awIssued
            && x.r.slots[0].addr == 0x200
  {
    Reaches(mem, 11);
  }

  // ---------------------------------------------------------------- it never recovers

  /** The skid's head belongs to a slot whose address waits behind a burst that waits
      for a beat behind the skid's head. */
  predicate Wedged(x: System, k: Index) {
    var s := x.r.slots[k];
    x.w.wActive && !x.w.awHave
    && s.valid && !s.awIssued && s.touched && !s.migDone
    && 0 < x.r.skidCnt <= 2 && x.r.skidW == (x.r.skidR + x.r.skidCnt) % 2 && SkidHead(x.r).idx == k
    && 0 <= x.r.count <= 4 && (k - x.r.commitPtr) % 4 < x.r.count
    && x.r.wptr == (x.r.commitPtr + x.r.count) % 4
  }

  lemma WedgedWires(x: System, k: Index, i: Stimulus)
    requires Wedged(x, k)
    ensures var p := PinsOf(x.w, i);
            !MAwShakes(x.r, p) && !MWvalid(x.r, p) && !SkidPop(x.r, p)
            && (AwFire(x.r, p) ==> x.r.wptr != k)
            && (CommitPop(x.r, p) ==> x.r.commitPtr != k)
  {
  }

  lemma WedgedSlot(r: Ring, k: Index, p: Pins)
    requires !MAwShakes(r, p) && !SkidPop(r, p)
    requires AwFire(r, p) ==> r.wptr != k
    requires CommitPop(r, p) ==> r.commitPtr != k
    ensures var s := NextSlots(r, p)[k];
            s.valid == r.slots[k].valid && s.awIssued == r.slots[k].awIssued && s.migDone == r.slots[k].migDone
            && (r.slots[k].touched ==> s.touched) && s.id == r.slots[k].id && s.addr == r.slots[k].addr
  {
    assert SlotsAfterIssue(r, p)[k] == r.slots[k];
  }

  lemma WedgedSkid(r: Ring, p: Pins)
    requires !SkidPop(r, p) && 0 < r.skidCnt <= 2 && r.skidW == (r.skidR + r.skidCnt) % 2
    ensures var s := Next(r, p);
            0 < s.skidCnt <= 2 && s.skidW == (s.skidR + s.skidCnt) % 2 && SkidHead(s) == SkidHead(r)
  {
    assert r.skidCnt == 2 ==> !SkidPush(r, p);
  }

  lemma WindowMoves(c: Index, n: int, w: Index, k: Index, fires: bool, pops: bool)
    requires 0 <= n <= 4 && (k - c) % 4 < n && w == (c + n) % 4
    requires (pops ==> c != k) && (fires ==> n != 4)
    ensures var c' := if pops then Inc(c) else c;
            var w' := if fires then Inc(w) else w;
            var n' := n + Bit(fires) - Bit(pops);
            0 <= n' <= 4 && (k - c') % 4 < n' && w' == (c' + n') % 4
  {
  }

  lemma WedgedPointers(r: Ring, k: Index, p: Pins)
    requires 0 <= r.count <= 4 && (k - r.commitPtr) % 4 < r.count && r.wptr == (r.commitPtr + r.count) % 4
    requires CommitPop(r, p) ==> r.commitPtr != k
    ensures var s := Next(r, p);
            0 <= s.count <= 4 && (k - s.commitPtr) % 4 < s.count && s.wptr == (s.commitPtr + s.count) % 4
  {
    WindowMoves(r.commitPtr, r.count, r.wptr, k, AwFire(r, p), CommitPop(r, p));
  }

  lemma WedgedController(x: System, k: Index, i: Stimulus)
    requires Wedged(x, k) && !MAwShakes(x.r, PinsOf(x.w, i)) && !SkidPop(x.r, PinsOf(x.w, i))
    ensures var y := Clock(x, i); y.mem == x.mem && y.w.wActive && !y.w.awHave && y.r == Next(x.r, PinsOf(x.w, i))
  {
  }

  lemma WedgeParts(x: System, k: Index, p: Pins)
    requires Wedged(x, k) && p == PinsOf(x.w, p.s)
    ensures var y := Next(x.r, p);
            y.slots[k].valid && !y.slots[k].awIssued && y.slots[k].touched && !y.slots[k].migDone
            && 0 < y.skidCnt <= 2 && y.skidW == (y.skidR + y.skidCnt) % 2 && SkidHead(y).idx == k
            && y.slots[k].id == x.r.slots[k].id
  {
    WedgedWires(x, k, p.s);
    WedgedSlot(x.r, k, p);
    WedgedSkid(x.r, p);
  }

  lemma WedgeHolds(x: System, k: Index, i: Stimulus)
    requires Wedged(x, k)
    ensures Wedged(Clock(x, i), k) && Clock(x, i).mem == x.mem
    ensures Clock(x, i).r.slots[k].id == x.r.slots[k].id
  {
    WedgedWires(x, k, i);
    WedgedController(x, k, i);
    WedgeParts(x, k, PinsOf(x.w, i));
    WedgedPointers(x.r, k, PinsOf(x.w, i));
  }

  lemma {:induction false} WedgeLasts(x: System, k: Index, more: seq<Stimulus>)
    requires Wedged(x, k)
    ensures Wedged(Run(x, more), k) && Run(x, more).mem == x.mem
    ensures Run(x, more).r.slots[k].id == x.r.slots[k].id
    decreases |more|
  {
    if |more| != 0 {
      WedgeLasts(x, k, more[..|more| - 1]);
      WedgeHolds(Run(x, more[..|more| - 1]), k, more[|more| - 1]);
    }
  }

  lemma ScheduleWedges(mem: Memory)
    ensures Wedged(Run(Start0(mem), SCHEDULE), 0) && Run(Start0(mem), SCHEDULE).r.slots[0].id == 4
  {
    Reaches(mem, 14);
    assert SCHEDULE[..14] == SCHEDULE;
    EndIsWedged(Run(Start0(mem), SCHEDULE).mem);
  }

  lemma EndIsWedged(m: Memory)
    ensures |TRACE| == 15 && Wedged(System(TRACE[14].r, m, TRACE[14].w), 0) && TRACE[14].r.slots[0].id == 4
  {
  }

  /** After that execution, whatever the master and the stalls do, no byte of memory
      changes again, no data beat is offered, and write 4 is never answered. */
  lemma LapWedges(mem: Memory, more: seq<Stimulus>, i: Stimulus)
    ensures var x := Run(Start0(mem), SCHEDULE);
            var y := Run(x, more);
            y.mem == x.mem && !MWvalid(y.r, PinsOf(y.w, i))
            && y.r.slots[0].id == 4 && (CommitPop(y.r, PinsOf(y.w, i)) ==> y.r.commitPtr != 0)
  {
    var x := Run(Start0(mem), SCHEDULE);
    ScheduleWedges(mem);
    WedgeLasts(x, 0, more);
    WedgedWires(Run(x, more), 0, i);
  }

  // ---------------------------------------------------------------- exactly when it happens

  lemma LapSkipsAgain(r: Ring, q: Queue)
    requires Inv(q) && Rep(r, q) && Laps(q)
    ensures AwSkip(r) && !AwSkips(q) && !q.presenting
  {
    LappedSlot(r, q);
  }

  lemma LappedSlot(r: Ring, q: Queue)
    requires Pointers(q) && Flags(q) && Presenting(q) && RepPointers(r, q) && RepSlots(r, q) && Laps(q)
    ensures r.slots[r.awPtr] == SlotOf(q.descs[q.cp]) && !q.descs[q.cp].ok && !q.descs[q.cp].touched && !q.presenting
  {
    assert FlagsAt(q, q.cp);
    SlotAhead(q.cp);
    assert At(r, q.cp) == SlotOf(q.descs[q.cp]);
  }

  /** A lapped pointer skips a second time; it is the only way to leave the queue's order. */
  lemma LapIff(r: Ring, q: Queue, i: Stimulus)
    requires Inv(q) && Rep(r, q)
    ensures Rep(Next(r, PinsOf(q.w, i)), Step(q, i)) <==> !Laps(q)
  {
    if Laps(q) {
      LapSkipsAgain(r, q);
      StepCounts(q, i);
      PointerFields(r, PinsOf(q.w, i));
      IncMod(q.aw);
    } else {
      NextRep(r, q, i);
    }
  }

  /** It takes four outstanding writes of which the oldest will be answered with an error. */
  lemma LapNeedsRefusal(mem: Memory, ins: seq<Stimulus>)
    ensures var q := History(mem, ins);
            Laps(q) ==> |q.descs| == q.cp + 4
                        && !(Legal(q.descs[q.cp].aw)
                             && (q.cp < q.dp ==> WellFormed(q.descs[q.cp].aw, q.descs[q.cp].beats)))
  {
    var q := History(mem, ins);
    HistoryStreams(mem, ins);
    if Laps(q) {
      assert FlagsAt(q, q.cp);
      assert StreamedAt(q.descs[q.cp], q.cp < q.dp);
    }
  }

  /** The registers are a faithful image of the queue before and after every cycle. */
  predicate AlwaysTracks(mem: Memory, ins: seq<Stimulus>)
    decreases |ins|
  {
    Tracks(Run(Start0(mem), ins), History(mem, ins)) && (|ins| > 0 ==> AlwaysTracks(mem, ins[..|ins| - 1]))
  }

  /** The registers stay a faithful image of the queue throughout a run exactly when the
      pointer never laps in it. */
  lemma {:induction false} FaithfulIffNeverLaps(mem: Memory, ins: seq<Stimulus>)
    ensures AlwaysTracks(mem, ins) <==> NeverLaps(mem, ins)
    decreases |ins|
  {
    if |ins| == 0 {
      InitiallyTracks(mem);
    } else {
      FaithfulIffNeverLaps(mem, ins[..|ins| - 1]);
      if AlwaysTracks(mem, ins[..|ins| - 1]) {
        TracksIff(mem, ins);
      }
    }
  }

  lemma {:induction false} TracksIff(mem: Memory, ins: seq<Stimulus>)
    requires |ins| > 0
    requires Tracks(Run(Start0(mem), ins[..|ins| - 1]), History(mem, ins[..|ins| - 1]))
    ensures Tracks(Run(Start0(mem), ins), History(mem, ins)) <==> !Laps(History(mem, ins[..|ins| - 1]))
  {
    if Laps(History(mem, ins[..|ins| - 1])) {
      LapIff(Run(Start0(mem), ins[..|ins| - 1]).r, History(mem, ins[..|ins| - 1]), ins[|ins| - 1]);
    } else {
      TracksLast(mem, ins);
    }
  }

  // ---------------------------------------------------------------- traffic that cannot lap

  /** Every address is legal and every finished burst well formed. */
  predicate LegalTraffic(q: Queue) {
    forall j :: 0 <= j < |q.descs| ==> LegalAt(q, j)
  }

  predicate LegalAt(q: Queue, j: nat)
    requires j < |q.descs|
  {
    Legal(q.descs[j].aw) && (j < q.dp ==> WellFormed(q.descs[j].aw, q.descs[j].beats))
  }

  lemma LegalBefore(q: Queue, i: Stimulus)
    requires Inv(q) && LegalTraffic(Step(q, i))
    ensures LegalTraffic(q)
  {
    StepCounts(q, i);
    forall j | 0 <= j < |q.descs|
      ensures LegalAt(q, j)
    {
      assert LegalAt(Step(q, i), j);
      StepDesc(q, i, j);
    }
  }

  lemma LegalIsOk(q: Queue, j: nat)
    requires Flags(q) && Streamed(q) && LegalTraffic(q) && j < |q.descs|
    ensures q.descs[j].ok
  {
    assert LegalAt(q, j);
    assert FlagsAt(q, j);
    assert StreamedAt(q.descs[j], j < q.dp);
  }

  lemma LegalCannotLap(q: Queue)
    requires Inv(q) && Streamed(q) && LegalTraffic(q)
    ensures !Laps(q)
  {
    if q.cp < |q.descs| {
      LegalIsOk(q, q.cp);
      assert FlagsAt(q, q.cp);
    }
  }

  /** The traffic the bridge is made for never laps, whatever the stalls and interleaving. */
  lemma {:induction false} LegalTrafficNeverLaps(mem: Memory, ins: seq<Stimulus>)
    requires LegalTraffic(History(mem, ins))
    ensures NeverLaps(mem, ins)
    decreases |ins|
  {
    if |ins| > 0 {
      var q := History(mem, ins[..|ins| - 1]);
      LegalBefore(q, ins[|ins| - 1]);
      LegalTrafficNeverLaps(mem, ins[..|ins| - 1]);
      HistoryStreams(mem, ins[..|ins| - 1]);
      LegalCannotLap(q);
    }
  }

  /** The master never has more than three writes outstanding. */
  predicate AtMostThree(mem: Memory, ins: seq<Stimulus>)
    decreases |ins|
  {
    |History(mem, ins).descs| < History(mem, ins).cp + 4 && (|ins| > 0 ==> AtMostThree(mem, ins[..|ins| - 1]))
  }

  /** Nor does any traffic of a master that keeps to three outstanding writes. */
  lemma {:induction false} ThreeOutstandingNeverLap(mem: Memory, ins: seq<Stimulus>)
    requires AtMostThree(mem, ins)
    ensures NeverLaps(mem, ins)
    decreases |ins|
  {
    if |ins| > 0 {
      ThreeOutstandingNeverLap(mem, ins[..|ins| - 1]);
    }
  }

  /** Every burst stored whole, beat i at the 16-byte line of its start plus i, in order. */
  function WholeMem(mem: Memory, descs: seq<Desc>): Memory
    decreases |descs|
  {
    if |descs| == 0 then mem
    else
      var d := descs[|descs| - 1];
      StoreBeats(WholeMem(mem, descs[..|descs| - 1]), Start(d.aw), d.beats)
  }

  lemma {:induction false} WholeIsSpec(mem: Memory, descs: seq<Desc>)
    requires forall j :: 0 <= j < |descs| ==> Legal(descs[j].aw) && WellFormed(descs[j].aw, descs[j].beats)
    ensures WholeMem(mem, descs) == SpecMem(mem, descs)
    decreases |descs|
  {
    if |descs| > 0 {
      var d := descs[|descs| - 1];
      WholeIsSpec(mem, descs[..|descs| - 1]);
      assert d.beats[..|d.beats|] == d.beats;
    }
  }

  /** For legal traffic, once every burst has its data and the skid is empty, the memory
      holds exactly the bursts stored whole in the order they were accepted. */
  lemma {:induction false} LegalTrafficIsStored(mem: Memory, ins: seq<Stimulus>)
    requires LegalTraffic(History(mem, ins)) && History(mem, ins).dp == |History(mem, ins).descs|
    requires Run(Start0(mem), ins).r.skidCnt == 0
    ensures Run(Start0(mem), ins).mem == WholeMem(mem, History(mem, ins).descs)
  {
    LegalTrafficNeverLaps(mem, ins);
    WritesPreserveMeaning(mem, ins);
    LegalIsWhole(History(mem, ins));
    WholeIsSpec(mem, History(mem, ins).descs);
  }

  lemma LegalIsWhole(q: Queue)
    requires LegalTraffic(q) && q.dp == |q.descs|
    ensures forall j :: 0 <= j < |q.descs| ==> Legal(q.descs[j].aw) && WellFormed(q.descs[j].aw, q.descs[j].beats)
  {
    forall j | 0 <= j < |q.descs|
      ensures Legal(q.descs[j].aw) && WellFormed(q.descs[j].aw, q.descs[j].beats)
    {
      assert LegalAt(q, j);
    }
  }
}
