/** The response sink behind a one-sided reset: two four-bit counters against a ledger
    that remembers, for every request still unanswered, the reset epoch it was sent in. */
module AsyncStaleSink {
  import opened Bits

  const COUNT_LIMIT := 16

  datatype Sink = Sink(outstanding: int, debt: int)

  /** One clock edge: a reset of the memory side, a completed reset of the master side, a
      request forwarded, a response accepted. */
  datatype Event = Event(memoryReset: bool, reset: bool, fwd: bool, complete: bool)

  predicate Sinking(s: Sink) {
    s.debt != 0
  }

  function OutstandingNext(s: Sink, e: Event): int {
    (s.outstanding + Bit(e.fwd) - Bit(e.complete)) % COUNT_LIMIT
  }

  function SinkNext(s: Sink, e: Event): Sink {
    if e.memoryReset then Sink(0, 0)
    else Sink(OutstandingNext(s, e),
              if e.reset then OutstandingNext(s, e) else (s.debt - Bit(e.complete && Sinking(s))) % COUNT_LIMIT)
  }

  // ---------------------------------------------------------------- ledger

  /** Requests are answered in order; a request is stale once a reset has come after it. */
  datatype Ledger = Ledger(queue: seq<nat>, epoch: nat)

  predicate Possible(l: Ledger, e: Event) {
    e.complete && !e.memoryReset ==> |l.queue| > 0
  }

  function LedgerNext(l: Ledger, e: Event): Ledger
    requires Possible(l, e)
  {
    if e.memoryReset then Ledger([], l.epoch)
    else Ledger((if e.complete then l.queue[1..] else l.queue) + (if e.fwd then [l.epoch] else []),
                if e.reset then l.epoch + 1 else l.epoch)
  }

  /** The response due next belongs to a request sent before the latest reset. */
  predicate NextIsStale(l: Ledger) {
    |l.queue| > 0 && l.queue[0] < l.epoch
  }

  function StaleCount(queue: seq<nat>, epoch: nat): (n: nat)
    ensures n <= |queue|
  {
    if |queue| == 0 || queue[0] >= epoch then 0 else 1 + StaleCount(queue[1..], epoch)
  }

  lemma {:induction false} StaleAppend(queue: seq<nat>, epoch: nat)
    ensures StaleCount(queue + [epoch], epoch) == StaleCount(queue, epoch)
    decreases |queue|
  {
    if |queue| > 0 && queue[0] < epoch {
      assert (queue + [epoch])[1..] == queue[1..] + [epoch];
      StaleAppend(queue[1..], epoch);
    }
  }

  lemma {:induction false} AllStale(queue: seq<nat>, epoch: nat)
    requires forall k :: 0 <= k < |queue| ==> queue[k] < epoch
    ensures StaleCount(queue, epoch) == |queue|
    decreases |queue|
  {
    if |queue| > 0 {
      AllStale(queue[1..], epoch);
    }
  }

  // ---------------------------------------------------------------- the counters against the ledger

  predicate Ordered(l: Ledger) {
    (forall k :: 0 <= k < |l.queue| ==> l.queue[k] <= l.epoch)
    && (forall j, k :: 0 <= j < k < |l.queue| ==> l.queue[j] <= l.queue[k])
  }

  predicate Tracks(s: Sink, l: Ledger) {
    s.outstanding == |l.queue| % COUNT_LIMIT
    && Ordered(l)
    && s.debt == StaleCount(l.queue, l.epoch)
    && s.debt < COUNT_LIMIT
  }

  /** The counters' design bound: at most fifteen requests are unanswered when a reset lands. */
  predicate Fits(l: Ledger, e: Event)
    requires Possible(l, e)
  {
    e.reset && !e.memoryReset ==> |LedgerNext(l, e).queue| < COUNT_LIMIT
  }

  lemma StepOrdered(l: Ledger, e: Event)
    requires Ordered(l) && Possible(l, e)
    ensures Ordered(LedgerNext(l, e))
    ensures e.reset && !e.memoryReset ==> StaleCount(LedgerNext(l, e).queue, l.epoch + 1) == |LedgerNext(l, e).queue|
  {
    if e.reset && !e.memoryReset {
      AllStale(LedgerNext(l, e).queue, l.epoch + 1);
    }
  }

  lemma StepStale(l: Ledger, e: Event)
    requires Ordered(l) && Possible(l, e) && !e.reset && !e.memoryReset
    ensures StaleCount(LedgerNext(l, e).queue, l.epoch)
         == StaleCount(l.queue, l.epoch) - Bit(e.complete && StaleCount(l.queue, l.epoch) != 0)
  {
    var kept := if e.complete then l.queue[1..] else l.queue;
    StaleAppend(kept, l.epoch);
    assert LedgerNext(l, e).queue == if e.fwd then kept + [l.epoch] else kept;
  }

  lemma StepCounts(s: Sink, l: Ledger, e: Event)
    requires s.outstanding == |l.queue| % COUNT_LIMIT && Possible(l, e) && !e.memoryReset
    ensures OutstandingNext(s, e) == |LedgerNext(l, e).queue| % COUNT_LIMIT
  {
    CountWraps(|l.queue|, Bit(e.fwd), Bit(e.complete));
    assert |LedgerNext(l, e).queue| == |l.queue| + Bit(e.fwd) - Bit(e.complete);
  }

  lemma StepTracks(s: Sink, l: Ledger, e: Event)
    requires Tracks(s, l) && Possible(l, e) && Fits(l, e)
    ensures Tracks(SinkNext(s, e), LedgerNext(l, e))
  {
    StepOrdered(l, e);
    if !e.memoryReset {
      StepCounts(s, l, e);
      DebtTracks(s, l, e);
    }
  }

  lemma DebtTracks(s: Sink, l: Ledger, e: Event)
    requires Tracks(s, l) && Possible(l, e) && Fits(l, e) && !e.memoryReset
    ensures SinkNext(s, e).debt == StaleCount(LedgerNext(l, e).queue, LedgerNext(l, e).epoch) < COUNT_LIMIT
  {
    StepCounts(s, l, e);
    StepOrdered(l, e);
    if e.reset {
      Small(|LedgerNext(l, e).queue|);
    } else {
      StepStale(l, e);
      DebtFalls(s, e);
    }
  }

  lemma Small(n: int)
    requires 0 <= n < COUNT_LIMIT
    ensures n % COUNT_LIMIT == n
  {
  }

  lemma DebtFalls(s: Sink, e: Event)
    requires 0 <= s.debt < COUNT_LIMIT && !e.reset && !e.memoryReset
    ensures SinkNext(s, e).debt == s.debt - Bit(e.complete && s.debt != 0)
  {
    Small(s.debt - Bit(e.complete && Sinking(s)));
  }

  lemma CountWraps(n: int, a: int, b: int)
    ensures (n % COUNT_LIMIT + a - b) % COUNT_LIMIT == (n + a - b) % COUNT_LIMIT
  {
    var k := n / COUNT_LIMIT;
    assert n == COUNT_LIMIT * k + n % COUNT_LIMIT;
  }

  ghost predicate Legal(events: seq<Event>, l: Ledger)
    decreases |events|
  {
    |events| > 0 ==>
      Possible(l, events[0]) && Fits(l, events[0]) && Legal(events[1..], LedgerNext(l, events[0]))
  }

  /** Along the whole run the sink discards a response exactly when its request was
      forwarded before the latest reset, and never owes more than is outstanding. */
  ghost predicate Exact(events: seq<Event>, s: Sink, l: Ledger)
    requires Legal(events, l)
    decreases |events|
  {
    (Sinking(s) <==> NextIsStale(l)) && s.debt <= |l.queue|
    && (|events| > 0 ==> Exact(events[1..], SinkNext(s, events[0]), LedgerNext(l, events[0])))
  }

  lemma {:induction false} TrackedIsExact(events: seq<Event>, s: Sink, l: Ledger)
    requires Legal(events, l) && Tracks(s, l)
    ensures Exact(events, s, l)
    decreases |events|
  {
    if |events| > 0 {
      StepTracks(s, l, events[0]);
      TrackedIsExact(events[1..], SinkNext(s, events[0]), LedgerNext(l, events[0]));
    }
  }

  lemma SinkIsExact(events: seq<Event>)
    requires Legal(events, Ledger([], 0))
    ensures Exact(events, Sink(0, 0), Ledger([], 0))
  {
    TrackedIsExact(events, Sink(0, 0), Ledger([], 0));
  }

  // ---------------------------------------------------------------- the bound is the right one

  const COMPLETION := Event(false, false, false, true)

  function AfterCompletions(s: Sink, n: nat): Sink {
    if n == 0 then s else SinkNext(AfterCompletions(s, n - 1), COMPLETION)
  }

  lemma {:induction false} DebtAfterCompletions(s: Sink, n: nat)
    requires 0 <= s.debt < COUNT_LIMIT
    ensures AfterCompletions(s, n).debt == if n <= s.debt then s.debt - n else 0
  {
    if n > 0 {
      DebtAfterCompletions(s, n - 1);
    }
  }

  /** The sink discards precisely the next `stale` responses. */
  ghost predicate DiscardsNext(s: Sink, stale: nat) {
    forall n: nat :: Sinking(AfterCompletions(s, n)) <==> n < stale
  }

  lemma DiscardsItsDebt(s: Sink)
    requires 0 <= s.debt < COUNT_LIMIT
    ensures DiscardsNext(s, s.debt)
  {
    forall n: nat
      ensures Sinking(AfterCompletions(s, n)) <==> n < s.debt
    {
      DebtAfterCompletions(s, n);
    }
  }

  /** Just after a reset with `stale` requests unanswered, it does so for those if and only
      if there were at most fifteen of them. */
  lemma ExactIffFits(outstanding: int, stale: nat)
    ensures DiscardsNext(Sink(outstanding, stale % COUNT_LIMIT), stale) <==> stale < COUNT_LIMIT
  {
    var s := Sink(outstanding, stale % COUNT_LIMIT);
    DiscardsItsDebt(s);
    if stale < COUNT_LIMIT {
      Small(stale);
    } else {
      var n: nat := s.debt;
      assert !(Sinking(AfterCompletions(s, n)) <==> n < stale);
    }
  }

  // ---------------------------------------------------------------- snapshot, not accumulation

  /** The earlier form, which added to a debt still being drained. */
  function AccumulatingNext(s: Sink, e: Event): Sink {
    SinkNext(s, e).(debt :=
      if e.memoryReset then 0
      else (s.debt + (if e.reset then OutstandingNext(s, e) else 0) - Bit(e.complete && Sinking(s))) % COUNT_LIMIT)
  }

  /** A reset of the master side lands while debt is still undrained. */
  predicate OnDebt(s: Sink, e: Event) {
    !e.memoryReset && e.reset && s.debt - Bit(e.complete && Sinking(s)) > 0
  }

  /** The two forms part exactly then. */
  lemma AccumulationIff(s: Sink, e: Event)
    requires 0 <= s.debt < COUNT_LIMIT
    ensures AccumulatingNext(s, e) == SinkNext(s, e) <==> !OnDebt(s, e)
  {
    var d, o := s.debt - Bit(e.complete && Sinking(s)), OutstandingNext(s, e);
    assert 0 <= d < COUNT_LIMIT && 0 <= o < COUNT_LIMIT;
    assert (s.debt + o - Bit(e.complete && Sinking(s))) == d + o;
    assert (d + o) % COUNT_LIMIT == o <==> d == 0;
  }

  predicate NoResets(events: seq<Event>) {
    forall k :: 0 <= k < |events| ==> !events[k].reset && !events[k].memoryReset
  }

  /** The accumulating form discards a response exactly when it should, all along a run. */
  ghost predicate AccumulatesExactly(events: seq<Event>, s: Sink, l: Ledger)
    requires Legal(events, l)
    decreases |events|
  {
    (Sinking(s) <==> NextIsStale(l))
    && (|events| > 0 ==> AccumulatesExactly(events[1..], AccumulatingNext(s, events[0]), LedgerNext(l, events[0])))
  }

  /** And will as long as no further reset comes, whatever else does. */
  ghost predicate Safe(s: Sink, l: Ledger) {
    forall more :: NoResets(more) && Legal(more, l) ==> AccumulatesExactly(more, s, l)
  }

  lemma {:induction false} TrackedAccumulates(events: seq<Event>, s: Sink, l: Ledger)
    requires Tracks(s, l) && NoResets(events) && Legal(events, l)
    ensures AccumulatesExactly(events, s, l)
    decreases |events|
  {
    if |events| > 0 {
      AccumulationIff(s, events[0]);
      StepTracks(s, l, events[0]);
      TrackedAccumulates(events[1..], SinkNext(s, events[0]), LedgerNext(l, events[0]));
    }
  }

  lemma TrackedIsSafe(s: Sink, l: Ledger)
    requires Tracks(s, l)
    ensures Safe(s, l)
  {
    forall more | NoResets(more) && Legal(more, l)
      ensures AccumulatesExactly(more, s, l)
    {
      TrackedAccumulates(more, s, l);
    }
  }

  const REQUEST := Event(false, false, true, false)

  /** All responses due, and then one fresh request. */
  function Drain(n: nat): seq<Event> {
    if n == 0 then [REQUEST] else [COMPLETION] + Drain(n - 1)
  }

  /** Only stale requests wait and the debt is not their number. */
  predicate WrongDebt(s: Sink, l: Ledger) {
    0 <= s.debt < COUNT_LIMIT && s.debt != |l.queue|
    && forall k :: 0 <= k < |l.queue| ==> l.queue[k] < l.epoch
  }

  lemma {:induction false} DrainIsLegal(l: Ledger, n: nat)
    requires |l.queue| == n
    ensures NoResets(Drain(n)) && Legal(Drain(n), l)
    decreases n
  {
    if n > 0 {
      DrainIsLegal(LedgerNext(l, COMPLETION), n - 1);
      assert Drain(n)[1..] == Drain(n - 1);
    } else {
      assert Legal(Drain(0)[1..], LedgerNext(l, REQUEST));
    }
  }

  lemma {:induction false} WrongDebtShows(s: Sink, l: Ledger, n: nat)
    requires WrongDebt(s, l) && |l.queue| == n && Legal(Drain(n), l)
    ensures !AccumulatesExactly(Drain(n), s, l)
    decreases n
  {
    if n == 0 {
      var t, m := AccumulatingNext(s, REQUEST), LedgerNext(l, REQUEST);
      assert t.debt == s.debt && !NextIsStale(m);
      assert !AccumulatesExactly(Drain(0)[1..], t, m);
    } else if Sinking(s) {
      assert Drain(n)[1..] == Drain(n - 1);
      WrongDebtShows(AccumulatingNext(s, COMPLETION), LedgerNext(l, COMPLETION), n - 1);
    }
  }

  lemma OnDebtIsWrong(s: Sink, l: Ledger, e: Event)
    requires Tracks(s, l) && Possible(l, e) && Fits(l, e) && OnDebt(s, e)
    ensures WrongDebt(AccumulatingNext(s, e), LedgerNext(l, e))
  {
    AccumulationIff(s, e);
    StepTracks(s, l, e);
    StepOrdered(l, e);
  }

  ghost predicate AlwaysSafe(events: seq<Event>, s: Sink, l: Ledger)
    requires Legal(events, l)
    decreases |events|
  {
    Safe(s, l)
    && (|events| > 0 ==> AlwaysSafe(events[1..], AccumulatingNext(s, events[0]), LedgerNext(l, events[0])))
  }

  predicate NeverOnDebt(events: seq<Event>, s: Sink)
    decreases |events|
  {
    |events| > 0 ==> !OnDebt(s, events[0]) && NeverOnDebt(events[1..], SinkNext(s, events[0]))
  }

  lemma {:induction false} TrackedSafeIff(events: seq<Event>, s: Sink, l: Ledger)
    requires Legal(events, l) && Tracks(s, l)
    ensures AlwaysSafe(events, s, l) <==> NeverOnDebt(events, s)
    decreases |events|
  {
    TrackedIsSafe(s, l);
    if |events| > 0 {
      var e := events[0];
      if OnDebt(s, e) {
        OnDebtIsWrong(s, l, e);
        var t, m := AccumulatingNext(s, e), LedgerNext(l, e);
        DrainIsLegal(m, |m.queue|);
        WrongDebtShows(t, m, |m.queue|);
        assert !Safe(t, m);
      } else {
        AccumulationIff(s, e);
        StepTracks(s, l, e);
        TrackedSafeIff(events[1..], SinkNext(s, e), LedgerNext(l, e));
      }
    }
  }

  /** Over every run: at each point, whatever responses and requests follow, the accumulating
      form discards exactly what it should, if and only if no reset of the run lands on debt
      still undrained. */
  lemma AccumulationSafeIff(events: seq<Event>)
    requires Legal(events, Ledger([], 0))
    ensures AlwaysSafe(events, Sink(0, 0), Ledger([], 0)) <==> NeverOnDebt(events, Sink(0, 0))
  {
    TrackedSafeIff(events, Sink(0, 0), Ledger([], 0));
  }

  const RESET := Event(false, true, false, false)
  const EXCHANGE := Event(false, false, true, true)

  /** One request, two resets: the accumulating form goes on to discard a fresh response. */
  lemma AccumulationEatsFresh()
    ensures var s := AccumulatingNext(AccumulatingNext(AccumulatingNext(Sink(0, 0), REQUEST), RESET), RESET);
            var l := LedgerNext(LedgerNext(LedgerNext(Ledger([], 0), REQUEST), RESET), RESET);
            var t := SinkNext(SinkNext(SinkNext(Sink(0, 0), REQUEST), RESET), RESET);
            Possible(l, EXCHANGE) && |LedgerNext(l, EXCHANGE).queue| == 1 && !NextIsStale(LedgerNext(l, EXCHANGE))
            && Sinking(AccumulatingNext(s, EXCHANGE)) && !Sinking(SinkNext(t, EXCHANGE))
  {
    assert AccumulatingNext(Sink(0, 0), REQUEST) == SinkNext(Sink(0, 0), REQUEST) == Sink(1, 0);
    assert AccumulatingNext(Sink(1, 0), RESET) == SinkNext(Sink(1, 0), RESET) == Sink(1, 1);
    assert AccumulatingNext(Sink(1, 1), RESET) == Sink(1, 2) && SinkNext(Sink(1, 1), RESET) == Sink(1, 1);
    assert LedgerNext(Ledger([], 0), REQUEST) == Ledger([0], 0);
    assert LedgerNext(Ledger([0], 0), RESET) == Ledger([0], 1) && LedgerNext(Ledger([0], 1), RESET) == Ledger([0], 2);
  }
}
