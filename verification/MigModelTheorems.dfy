/** The memory model against an atomic memory, for every sequence of stalls and inputs. */
module MigModelTheorems {
  import opened Bytes
  import opened MigModel
  import opened Pairing

  /** What a bystander records from the handshakes of the write channels. */
  datatype Record = Record(bursts: seq<Burst>, beats: seq<Beat>, completed: nat, taken: nat, lost: nat)

  datatype Tick = Tick(st: Stalls, i: Inputs)

  predicate Width32(t: Tick) {
    0 <= t.i.awaddr < ADDRESS_SPACE && 0 <= t.i.awlen && 0 <= t.i.araddr < ADDRESS_SPACE && 0 <= t.i.arlen
  }

  predicate AwTaken(m: Mig, t: Tick) {
    t.i.awvalid && Drive(m, t.st).awready
  }

  predicate WTaken(m: Mig, t: Tick) {
    t.i.wvalid && Drive(m, t.st).wready
  }

  predicate BTaken(m: Mig, t: Tick) {
    t.i.bready && Drive(m, t.st).bvalid
  }

  predicate Completes(m: Mig, t: Tick) {
    WTaken(m, t) && m.w.wBeatsLeft == 0
  }

  function Observe(h: Record, m: Mig, t: Tick): Record
    requires Width32(t)
  {
    Record(
      h.bursts + (if AwTaken(m, t) then [Burst(t.i.awaddr, t.i.awlen)] else []),
      h.beats + (if WTaken(m, t) then [t.i.wbeat] else []),
      h.completed + (if Completes(m, t) then 1 else 0),
      h.taken + (if BTaken(m, t) then 1 else 0),
      h.lost + (if Completes(m, t) && m.w.bPending then 1 else 0))
  }

  /** Beats stored one after another, each where the pairing puts it. */
  function Paired(mem: Memory, bursts: seq<Burst>, beats: seq<Beat>, n: nat): Memory
    requires n <= |beats|
  {
    if n == 0 then mem
    else WriteBeat(Paired(mem, bursts, beats, n - 1), Target(bursts, |bursts|, n - 1, 32), beats[n - 1])
  }

  /** The state of a run and its record. */
  function Watched(mem: Memory, ticks: seq<Tick>): (Mig, Record)
    requires forall n :: 0 <= n < |ticks| ==> Width32(ticks[n])
    decreases |ticks|
  {
    if |ticks| == 0 then (Mig(mem, IDLE_WRITE, IDLE_READ), Record([], [], 0, 0, 0))
    else
      var (m, h) := Watched(mem, ticks[..|ticks| - 1]);
      var t := ticks[|ticks| - 1];
      (Cycle(m, t.st, t.i), Observe(h, m, t))
  }

  // ---------------------------------------------------------------- invariant

  predicate Framed(m: Mig, h: Record) {
    !m.w.awHave && !m.r.arHave
    && (if m.w.wActive then
          |h.bursts| > 0
          && (var j := |h.bursts| - 1;
              var k := |h.beats| - Owed(h.bursts, j);
              0 <= k <= h.bursts[j].len && m.w.wBeatsLeft == h.bursts[j].len - k
              && m.w.wAddr == Wrap32(h.bursts[j].addr + 32 * k))
        else |h.beats| == Owed(h.bursts, |h.bursts|))
  }

  predicate Accounted(m: Mig, h: Record) {
    h.completed == |h.bursts| - (if m.w.wActive then 1 else 0)
    && h.completed == h.taken + h.lost + (if m.w.bPending then 1 else 0)
  }

  lemma {:induction false} PairedGrows(
    mem: Memory, bursts: seq<Burst>, b: Burst, beats: seq<Beat>, more: seq<Beat>, n: nat)
    requires n <= |beats| && n <= Owed(bursts, |bursts|)
    ensures Paired(mem, bursts + [b], beats + more, n) == Paired(mem, bursts, beats, n)
  {
    if n > 0 {
      PairedGrows(mem, bursts, b, beats, more, n - 1);
      LaterBurstsKeepTargets(bursts, b, n - 1, 32);
    }
  }

  lemma {:induction false} PairedSame(mem: Memory, bursts: seq<Burst>, beats: seq<Beat>, more: seq<Beat>, n: nat)
    requires n <= |beats|
    ensures Paired(mem, bursts, beats + more, n) == Paired(mem, bursts, beats, n)
  {
    if n > 0 {
      PairedSame(mem, bursts, beats, more, n - 1);
    }
  }

  lemma AcceptFrames(m: Mig, h: Record, t: Tick)
    requires Framed(m, h) && Width32(t) && AwTaken(m, t)
    ensures Framed(Cycle(m, t.st, t.i), Observe(h, m, t))
  {
    OwedOfPrefix(h.bursts, [Burst(t.i.awaddr, t.i.awlen)], |h.bursts|);
    assert Observe(h, m, t).bursts[|h.bursts|] == Burst(t.i.awaddr, t.i.awlen);
    assert Observe(h, m, t).beats == h.beats;
  }

  lemma DataFrames(m: Mig, h: Record, t: Tick)
    requires Framed(m, h) && Width32(t) && !AwTaken(m, t) && WTaken(m, t)
    ensures Framed(Cycle(m, t.st, t.i), Observe(h, m, t))
  {
    assert Observe(h, m, t).bursts == h.bursts;
  }

  lemma StepFramed(m: Mig, h: Record, t: Tick)
    requires Framed(m, h) && Width32(t)
    ensures Framed(Cycle(m, t.st, t.i), Observe(h, m, t))
  {
    if AwTaken(m, t) {
      AcceptFrames(m, h, t);
    } else if WTaken(m, t) {
      DataFrames(m, h, t);
    } else {
      assert Observe(h, m, t).bursts == h.bursts && Observe(h, m, t).beats == h.beats;
    }
  }

  lemma StepAccounted(m: Mig, h: Record, t: Tick)
    requires Framed(m, h) && Accounted(m, h) && Width32(t)
    ensures Accounted(Cycle(m, t.st, t.i), Observe(h, m, t))
  {
  }

  lemma StepStored(m: Mig, h: Record, t: Tick, mem: Memory)
    requires Framed(m, h) && Width32(t) && m.mem == Paired(mem, h.bursts, h.beats, |h.beats|)
    ensures var h' := Observe(h, m, t);
            Cycle(m, t.st, t.i).mem == Paired(mem, h'.bursts, h'.beats, |h'.beats|)
  {
    var h' := Observe(h, m, t);
    if AwTaken(m, t) {
      PairedGrows(mem, h.bursts, Burst(t.i.awaddr, t.i.awlen), h.beats, [], |h.beats|);
      assert h.beats + [] == h.beats == h'.beats;
    } else {
      assert h'.bursts == h.bursts;
      if WTaken(m, t) {
        PairedSame(mem, h.bursts, h.beats, [t.i.wbeat], |h.beats|);
        var j := |h.bursts| - 1;
        TargetInBurst(h.bursts, j + 1, j, |h.beats| - Owed(h.bursts, j), 32);
        WriteWraps(m.mem, Target(h.bursts, j + 1, |h.beats|, 32), t.i.wbeat.data, t.i.wbeat.strb);
      } else {
        assert h'.beats == h.beats;
      }
    }
  }

  /** Whatever the stalls, the memory holds the accepted bursts' beats stored at
      addr + 32 * i in order; no address is held over a step; every burst has its whole
      data before the next is accepted; and completed bursts are the responses taken, the
      one owed, and those lost because a burst completed with a response still pending. */
  lemma {:induction false} ModelRefinesAtomicMemory(mem: Memory, ticks: seq<Tick>)
    requires forall n :: 0 <= n < |ticks| ==> Width32(ticks[n])
    ensures var (m, h) := Watched(mem, ticks);
            Framed(m, h) && Accounted(m, h) && m.mem == Paired(mem, h.bursts, h.beats, |h.beats|)
    decreases |ticks|
  {
    if |ticks| != 0 {
      ModelRefinesAtomicMemory(mem, ticks[..|ticks| - 1]);
      var (m, h) := Watched(mem, ticks[..|ticks| - 1]);
      var t := ticks[|ticks| - 1];
      StepFramed(m, h, t);
      StepAccounted(m, h, t);
      StepStored(m, h, t, mem);
    }
  }

  // ---------------------------------------------------------------- when responses are lost

  /** The environment takes every response in the cycle it is offered. */
  ghost predicate Prompt(ticks: seq<Tick>) {
    forall n :: 0 <= n < |ticks| ==> ticks[n].i.bready
  }

  lemma {:induction false} PromptLosesNothing(mem: Memory, ticks: seq<Tick>)
    requires forall n :: 0 <= n < |ticks| ==> Width32(ticks[n])
    requires Prompt(ticks)
    ensures var (m, h) := Watched(mem, ticks);
            h.lost == 0 && !(m.w.wActive && m.w.bPending)
    decreases |ticks|
  {
    if |ticks| != 0 {
      var front := ticks[..|ticks| - 1];
      PromptLosesNothing(mem, front);
      ModelRefinesAtomicMemory(mem, front);
    }
  }

  /** A response is lost in a cycle exactly when the last beat of a burst is taken while an
      earlier response is still pending. */
  lemma LostIff(m: Mig, h: Record, t: Tick)
    requires Framed(m, h) && Accounted(m, h) && Width32(t)
    ensures var m' := Cycle(m, t.st, t.i);
            var h' := Observe(h, m, t);
            h'.completed - h'.taken - (if m'.w.bPending then 1 else 0)
            != h.completed - h.taken - (if m.w.bPending then 1 else 0)
            <==> WTaken(m, t) && m.w.wBeatsLeft == 0 && m.w.bPending
  {
  }

  function Offer(addr: int, data: bool): Tick {
    Tick(Stalls(false, false, true), Inputs(!data, addr, 0, data, FILLER, false, false, 0, 0, false))
  }

  /** Two single-beat bursts back to back without taking a response: one response is gone. */
  lemma LostResponse(mem: Memory)
    ensures var ticks := [Offer(0, false), Offer(0, true), Offer(32, false), Offer(32, true)];
            (forall n :: 0 <= n < |ticks| ==> Width32(ticks[n]))
            && var (m, h) := Watched(mem, ticks);
               h.completed == 2 && h.taken == 0 && h.lost == 1
  {
    var ticks := [Offer(0, false), Offer(0, true), Offer(32, false), Offer(32, true)];
    var three, two, one := ticks[..3], ticks[..2], ticks[..1];
    assert three[..2] == two && two[..1] == one && one[..0] == [];
    assert Watched(mem, one).0.w == WriteSide(false, 0, 0, true, 0, 0, false);
    assert Watched(mem, two).0.w == WriteSide(false, 0, 0, false, 0, 0, true);
    assert Watched(mem, three).0.w == WriteSide(false, 32, 0, true, 32, 0, true);
  }
}
