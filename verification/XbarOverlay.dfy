/** The deferred disarm of the boot-ROM overlay: it waits for every read of the two CPU
    slots.  The slots' states are compared with a ledger of what the CPU's bus shows. */
module XbarOverlay {
  import opened Bits
  import opened XbarReads

  predicate Busy(f: Fabric, k: int)
    requires Shaped(f) && 0 <= k < SLOTS
  {
    f.slots[k].phase != Idle
  }

  /** Data reads use slot 0 and instruction fetches slot 2. */
  predicate CpuBusy(f: Fabric)
    requires Shaped(f)
  {
    Busy(f, 0) || Busy(f, 2)
  }

  datatype Overlay = Overlay(pending: bool, disabled: bool)

  /** `seen`: a CPU fetch addresses the ROM proper; `rearm`: the overlay's own reset. */
  datatype Tick = Tick(i: Inputs, seen: bool, rearm: bool)

  function OverlayNext(o: Overlay, f: Fabric, t: Tick): Overlay
    requires Shaped(f)
  {
    if t.rearm then Overlay(false, false)
    else Overlay(o.pending || t.seen, o.disabled || (o.pending && !CpuBusy(f)))
  }

  // ---------------------------------------------------------------- the bus

  /** The master sees its address taken: the ready pulse is registered, so this is the
      cycle after the crossbar's decision. */
  predicate ArFires(f: Fabric, k: int)
    requires Shaped(f) && 0 <= k < SLOTS
  {
    f.shown[k]
  }

  /** A beat with RLAST is handed over: the slave's own, the last of a local tail, or
      another port's. */
  predicate RlastFires(f: Fabric, i: Inputs, k: int)
    requires Shaped(f) && Fed(i) && 0 <= k < SLOTS
  {
    (Delivered(f, i, k) && LastFor(f, i, k))
    || (f.slots[k].phase == Local && f.slots[k].bcnt == 1 && i.ready[k])
    || (f.slots[k].phase == Elsewhere && i.others[k] == Move)
  }

  /** A local tail is withdrawn because its master has stopped taking beats. */
  predicate Withdraws(f: Fabric, i: Inputs, k: int)
    requires Shaped(f) && Fed(i) && 0 <= k < SLOTS
  {
    LocalAbandoned(f, i, k) && !i.ready[k]
  }

  /** Address handshakes, RLAST handshakes and withdrawals of one master. */
  datatype Ledger = Ledger(fired: nat, answered: nat, withdrawn: nat)

  function LedgerNext(l: Ledger, f: Fabric, i: Inputs, k: int): Ledger
    requires Shaped(f) && Fed(i) && 0 <= k < SLOTS
  {
    Ledger(
      l.fired + Bit(ArFires(f, k)),
      l.answered + Bit(RlastFires(f, i, k)),
      l.withdrawn + Bit(Withdraws(f, i, k)))
  }

  // ---------------------------------------------------------------- one master

  /** The slot is busy exactly with the reads that were or are now being accepted and have
      not ended; a read is busy in the cycle in which its master sees the handshake. */
  predicate Balanced(f: Fabric, l: Ledger, k: int)
    requires Shaped(f) && 0 <= k < SLOTS
  {
    l.fired + Bit(ArFires(f, k)) == l.answered + l.withdrawn + Bit(Busy(f, k))
    && (ArFires(f, k) ==> Busy(f, k))
  }

  /** A slot becomes busy by taking an address and idle by an RLAST or a withdrawal, never
      by both and never otherwise. */
  lemma BusyStep(f: Fabric, i: Inputs, k: int)
    requires Shaped(f) && Fed(i) && 0 <= k < SLOTS
    ensures Takes(f, i, k) <==> !Busy(f, k) && Busy(FabricNext(f, i), k)
    ensures RlastFires(f, i, k) || Withdraws(f, i, k) <==> Busy(f, k) && !Busy(FabricNext(f, i), k)
    ensures !(RlastFires(f, i, k) && Withdraws(f, i, k))
  {
  }

  lemma StepBalances(f: Fabric, l: Ledger, i: Inputs, k: int)
    requires Shaped(f) && Fed(i) && 0 <= k < SLOTS && Balanced(f, l, k)
    ensures Balanced(FabricNext(f, i), LedgerNext(l, f, i, k), k)
  {
    BusyStep(f, i, k);
  }

  // ---------------------------------------------------------------- runs

  datatype World = World(f: Fabric, o: Overlay, data: Ledger, code: Ledger)

  function WorldReset(limit: nat): World {
    World(FabricReset(limit), Overlay(false, false), Ledger(0, 0, 0), Ledger(0, 0, 0))
  }

  function WorldNext(w: World, t: Tick): (r: World)
    requires Shaped(w.f) && Fed(t.i)
    ensures Shaped(r.f)
  {
    World(
      FabricNext(w.f, t.i), OverlayNext(w.o, w.f, t),
      LedgerNext(w.data, w.f, t.i, 0), LedgerNext(w.code, w.f, t.i, 2))
  }

  function WorldRun(w: World, ticks: seq<Tick>): (r: World)
    requires Shaped(w.f) && forall n :: 0 <= n < |ticks| ==> Fed(ticks[n].i)
    ensures Shaped(r.f)
    decreases |ticks|
  {
    if |ticks| == 0 then w else WorldNext(WorldRun(w, ticks[..|ticks| - 1]), ticks[|ticks| - 1])
  }

  predicate BothBalanced(w: World) {
    Shaped(w.f) && Balanced(w.f, w.data, 0) && Balanced(w.f, w.code, 2)
  }

  lemma {:induction false} StaysBalanced(w: World, ticks: seq<Tick>)
    requires BothBalanced(w) && forall n :: 0 <= n < |ticks| ==> Fed(ticks[n].i)
    ensures BothBalanced(WorldRun(w, ticks))
    decreases |ticks|
  {
    if |ticks| > 0 {
      StaysBalanced(w, ticks[..|ticks| - 1]);
      var u, t := WorldRun(w, ticks[..|ticks| - 1]), ticks[|ticks| - 1];
      StepBalances(u.f, u.data, t.i, 0);
      StepBalances(u.f, u.code, t.i, 2);
    }
  }

  /** In every run the slots are the record of the CPU's bus. */
  lemma {:induction false} SlotsAreTheLedger(limit: nat, ticks: seq<Tick>)
    requires forall n :: 0 <= n < |ticks| ==> Fed(ticks[n].i)
    ensures BothBalanced(WorldRun(WorldReset(limit), ticks))
  {
    StaysBalanced(WorldReset(limit), ticks);
  }

  /** Reads the CPU has seen accepted, up to and including this cycle, that have neither
      been answered nor withdrawn. */
  function Outstanding(w: World): int
    requires Shaped(w.f)
  {
    (w.data.fired + Bit(ArFires(w.f, 0)) - w.data.answered - w.data.withdrawn)
    + (w.code.fired + Bit(ArFires(w.f, 2)) - w.code.answered - w.code.withdrawn)
  }

  /** The overlay is disarmed in a cycle exactly if that was requested before and every
      address the CPU has seen accepted, this cycle's included, has had its RLAST or been
      withdrawn: never over a read under way, and at once when there is none. */
  lemma {:induction false} DisarmIff(limit: nat, ticks: seq<Tick>, t: Tick)
    requires forall n :: 0 <= n < |ticks| ==> Fed(ticks[n].i)
    requires !WorldRun(WorldReset(limit), ticks).o.disabled && !t.rearm
    ensures var w := WorldRun(WorldReset(limit), ticks);
            0 <= Outstanding(w) <= 2
            && (OverlayNext(w.o, w.f, t).disabled <==> w.o.pending && Outstanding(w) == 0)
  {
    SlotsAreTheLedger(limit, ticks);
  }

  // ---------------------------------------------------------------- disarmed, and for how long

  /** A fetch of the ROM was seen at tick a, and no rearm has come since. */
  predicate Stands(ticks: seq<Tick>, a: int) {
    0 <= a < |ticks| && ticks[a].seen && forall n :: a <= n < |ticks| ==> !ticks[n].rearm
  }

  ghost predicate Requested(ticks: seq<Tick>) {
    exists a :: Stands(ticks, a)
  }

  lemma RequestedGrows(ticks: seq<Tick>, t: Tick)
    ensures Requested(ticks + [t]) <==> !t.rearm && (t.seen || Requested(ticks))
  {
    var all := ticks + [t];
    assert all[|ticks|] == t && forall n :: 0 <= n < |ticks| ==> all[n] == ticks[n];
    if !t.rearm && t.seen {
      assert Stands(all, |ticks|);
    } else if !t.rearm && Requested(ticks) {
      var a :| Stands(ticks, a);
      assert Stands(all, a);
    }
    if a :| Stands(all, a) && a < |ticks| {
      assert Stands(ticks, a);
    }
  }

  /** The CPU had no read under way at tick b. */
  predicate QuietAt(limit: nat, ticks: seq<Tick>, b: int)
    requires (forall n :: 0 <= n < |ticks| ==> Fed(ticks[n].i)) && 0 <= b <= |ticks|
  {
    Outstanding(WorldRun(WorldReset(limit), ticks[..b])) == 0
  }

  /** A fetch of the ROM at tick a, a later tick b without a CPU read under way, and no rearm
      from a on. */
  predicate Settles(limit: nat, ticks: seq<Tick>, a: int, b: int)
    requires forall n :: 0 <= n < |ticks| ==> Fed(ticks[n].i)
  {
    Stands(ticks, a) && a < b < |ticks| && QuietAt(limit, ticks, b)
  }

  ghost predicate Settled(limit: nat, ticks: seq<Tick>)
    requires forall n :: 0 <= n < |ticks| ==> Fed(ticks[n].i)
  {
    exists a, b :: Settles(limit, ticks, a, b)
  }

  lemma QuietKept(limit: nat, ticks: seq<Tick>, t: Tick, b: int)
    requires (forall n :: 0 <= n < |ticks| ==> Fed(ticks[n].i)) && Fed(t.i) && 0 <= b <= |ticks|
    ensures forall n :: 0 <= n < |ticks + [t]| ==> Fed((ticks + [t])[n].i)
    ensures QuietAt(limit, ticks + [t], b) <==> QuietAt(limit, ticks, b)
  {
    assert (ticks + [t])[..b] == ticks[..b];
  }

  lemma SettledLater(limit: nat, ticks: seq<Tick>, t: Tick)
    requires (forall n :: 0 <= n < |ticks| ==> Fed(ticks[n].i)) && Fed(t.i) && !t.rearm
    ensures forall n :: 0 <= n < |ticks + [t]| ==> Fed((ticks + [t])[n].i)
    ensures Settled(limit, ticks) || (Requested(ticks) && QuietAt(limit, ticks, |ticks|)) ==>
              Settled(limit, ticks + [t])
  {
    var all := ticks + [t];
    assert all[|ticks|] == t && forall n :: 0 <= n < |ticks| ==> all[n] == ticks[n];
    if Settled(limit, ticks) {
      var a, b :| Settles(limit, ticks, a, b);
      QuietKept(limit, ticks, t, b);
      assert Settles(limit, all, a, b);
    } else if Requested(ticks) && QuietAt(limit, ticks, |ticks|) {
      var a :| Stands(ticks, a);
      QuietKept(limit, ticks, t, |ticks|);
      assert Settles(limit, all, a, |ticks|);
    }
  }

  lemma SettledBefore(limit: nat, ticks: seq<Tick>, t: Tick)
    requires (forall n :: 0 <= n < |ticks| ==> Fed(ticks[n].i)) && Fed(t.i)
    ensures forall n :: 0 <= n < |ticks + [t]| ==> Fed((ticks + [t])[n].i)
    ensures Settled(limit, ticks + [t]) ==>
              !t.rearm && (Settled(limit, ticks) || (Requested(ticks) && QuietAt(limit, ticks, |ticks|)))
  {
    var all := ticks + [t];
    assert all[|ticks|] == t && forall n :: 0 <= n < |ticks| ==> all[n] == ticks[n];
    if a, b :| Settles(limit, all, a, b) {
      assert Stands(ticks, a);
      QuietKept(limit, ticks, t, b);
      if b < |ticks| {
        assert Settles(limit, ticks, a, b);
      }
    }
  }

  lemma SettledGrows(limit: nat, ticks: seq<Tick>, t: Tick)
    requires (forall n :: 0 <= n < |ticks| ==> Fed(ticks[n].i)) && Fed(t.i)
    ensures forall n :: 0 <= n < |ticks + [t]| ==> Fed((ticks + [t])[n].i)
    ensures Settled(limit, ticks + [t])
            <==> !t.rearm && (Settled(limit, ticks) || (Requested(ticks) && QuietAt(limit, ticks, |ticks|)))
  {
    SettledBefore(limit, ticks, t);
    if !t.rearm {
      SettledLater(limit, ticks, t);
    }
  }

  lemma {:induction false} PendingIff(limit: nat, ticks: seq<Tick>)
    requires forall n :: 0 <= n < |ticks| ==> Fed(ticks[n].i)
    ensures WorldRun(WorldReset(limit), ticks).o.pending <==> Requested(ticks)
    decreases |ticks|
  {
    if |ticks| > 0 {
      var front, t := ticks[..|ticks| - 1], ticks[|ticks| - 1];
      PendingIff(limit, front);
      assert ticks == front + [t];
      RequestedGrows(front, t);
    }
  }

  lemma {:induction false} QuietIff(limit: nat, ticks: seq<Tick>)
    requires forall n :: 0 <= n < |ticks| ==> Fed(ticks[n].i)
    ensures QuietAt(limit, ticks, |ticks|) <==> !CpuBusy(WorldRun(WorldReset(limit), ticks).f)
  {
    assert ticks[..|ticks|] == ticks;
    SlotsAreTheLedger(limit, ticks);
  }

  /** In every run from reset: the overlay is disabled if and only if, with no rearm since, a
      fetch of the ROM was seen and at some later tick every address the CPU had seen
      accepted had had its RLAST or been withdrawn.  A request is never forgotten and a
      disarm lasts. */
  lemma {:induction false} DisabledIff(limit: nat, ticks: seq<Tick>)
    requires forall n :: 0 <= n < |ticks| ==> Fed(ticks[n].i)
    ensures WorldRun(WorldReset(limit), ticks).o.disabled <==> Settled(limit, ticks)
    decreases |ticks|
  {
    if |ticks| > 0 {
      var front, t := ticks[..|ticks| - 1], ticks[|ticks| - 1];
      DisabledIff(limit, front);
      PendingIff(limit, front);
      QuietIff(limit, front);
      assert ticks == front + [t];
      SettledGrows(limit, front, t);
    }
  }

  // ---------------------------------------------------------------- the ledger it replaced

  /** Address handshakes less RLAST handshakes, as known before this cycle. */
  function Count(w: World): int {
    (w.data.fired - w.data.answered) + (w.code.fired - w.code.answered)
  }

  /** That count is zero over a read under way exactly if nothing was ever withdrawn and
      every read under way shows its address handshake in this very cycle. */
  lemma {:induction false} EarlyCommitIff(limit: nat, ticks: seq<Tick>)
    requires forall n :: 0 <= n < |ticks| ==> Fed(ticks[n].i)
    ensures var w := WorldRun(WorldReset(limit), ticks);
            (Count(w) == 0 && CpuBusy(w.f)
             <==> w.data.withdrawn + w.code.withdrawn == 0 && (ArFires(w.f, 0) || ArFires(w.f, 2))
                  && (Busy(w.f, 0) ==> ArFires(w.f, 0)) && (Busy(w.f, 2) ==> ArFires(w.f, 2)))
  {
    SlotsAreTheLedger(limit, ticks);
  }

  /** The fetch that requests the disarm is such a read: it is taken in the first cycle and
      the count is still zero in the second, while the slots hold the disarm back. */
  lemma EarlyCommitIsReachable(limit: nat, i: Inputs, t: Tick)
    requires Fed(i) && i.requests[2] == OtherPort && i.others[2] == Move && !t.rearm
    ensures var w := WorldNext(WorldReset(limit), Tick(i, true, false));
            w.o.pending && Count(w) == 0 && CpuBusy(w.f) && !OverlayNext(w.o, w.f, t).disabled
  {
    var z := FabricReset(limit);
    assert Takes(z, i, 2);
    BusyStep(z, i, 2);
  }

  /** A withdrawal leaks: the count is the reads under way, less those just shown, plus all
      withdrawals so far, so that after one it is positive in every continuation and a
      disarm that waits for zero never commits again. */
  lemma {:induction false} RlastCountLeaks(limit: nat, ticks: seq<Tick>, more: seq<Tick>)
    requires forall n :: 0 <= n < |ticks| ==> Fed(ticks[n].i)
    requires forall n :: 0 <= n < |more| ==> Fed(more[n].i)
    ensures var w := WorldRun(WorldReset(limit), ticks);
            var u := WorldRun(w, more);
            Count(u) >= u.data.withdrawn + u.code.withdrawn >= w.data.withdrawn + w.code.withdrawn
  {
    SlotsAreTheLedger(limit, ticks);
    var w := WorldRun(WorldReset(limit), ticks);
    StaysBalanced(w, more);
    WithdrawnGrows(w, more);
  }

  lemma {:induction false} WithdrawnGrows(w: World, ticks: seq<Tick>)
    requires Shaped(w.f) && forall n :: 0 <= n < |ticks| ==> Fed(ticks[n].i)
    ensures WorldRun(w, ticks).data.withdrawn >= w.data.withdrawn
    ensures WorldRun(w, ticks).code.withdrawn >= w.code.withdrawn
    decreases |ticks|
  {
    if |ticks| > 0 {
      WithdrawnGrows(w, ticks[..|ticks| - 1]);
    }
  }
}
