/** The harness's queued read model behind port 3: up to four reads outstanding, served
    whole, first or last come first as a switch says, with delivery frozen at will. */
module XbarS3Reads {
  import opened Bits
  import opened Bytes

  datatype Ar = Ar(id: int, addr: int, len: nat)

  datatype S3 = S3(queue: seq<Ar>, busy: bool, cur: Ar, left: int, addr: int, done: nat)

  datatype Pins = Pins(arvalid: bool, ar: Ar, rready: bool, hold: bool, lifo: bool)

  const DEPTH := 4
  const S3_IDLE := S3([], false, Ar(0, 0, 0), 0, 0, 0)

  predicate Room(s: S3) {
    |s.queue| + Bit(s.busy) < DEPTH
  }

  predicate Starts(s: S3, p: Pins) {
    !s.busy && !p.hold && |s.queue| > 0
  }

  function Chosen(s: S3, p: Pins): nat
    requires |s.queue| > 0
  {
    if p.lifo then |s.queue| - 1 else 0
  }

  function Without<T>(q: seq<T>, n: nat): seq<T>
    requires n < |q|
  {
    q[..n] + q[n + 1..]
  }

  function Start(s: S3, p: Pins): S3 {
    if !Starts(s, p) then s
    else
      var e := s.queue[Chosen(s, p)];
      s.(queue := Without(s.queue, Chosen(s, p)), busy := true, cur := e, left := e.len + 1, addr := e.addr)
  }

  predicate Drives(s: S3, p: Pins) {
    s.busy && !p.hold
  }

  function Accept(s: S3, takes: bool, a: Ar): S3 {
    if takes then s.(queue := s.queue + [a]) else s
  }

  function Serve(s: S3, fires: bool): S3 {
    if !fires then s
    else
      var t := s.(addr := Wrap32(s.addr + 16), left := s.left - 1);
      if t.left == 0 then t.(busy := false, done := t.done + 1) else t
  }

  function StepS3(s: S3, p: Pins): S3 {
    var s1 := Start(s, p);
    Serve(Accept(s1, p.arvalid && Room(s), p.ar), Drives(s1, p) && p.rready)
  }

  class QueuedSlave {
    var queue: seq<Ar>
    var busy: bool
    var cur: Ar
    var left: int
    var addr: int
    var done: nat

    ghost function Value(): S3
      reads this
    {
      S3(queue, busy, cur, left, addr, done)
    }

    constructor ()
      ensures Value() == S3_IDLE
    {
      queue, busy, cur, left, addr, done := [], false, Ar(0, 0, 0), 0, 0, 0;
    }

    method Step(p: Pins)
      modifies this
      ensures Value() == StepS3(old(Value()), p)
    {
      var room := |queue| + Bit(busy) < DEPTH;
      if !busy && !p.hold && |queue| > 0 {
        if p.lifo {
          cur, queue := queue[|queue| - 1], queue[..|queue| - 1];
        } else {
          cur, queue := queue[0], queue[1..];
        }
        busy, left, addr := true, cur.len + 1, cur.addr;
        assert Value() == Start(old(Value()), p);
      }
      var driving := busy && !p.hold;
      if p.arvalid && room {
        queue := queue + [p.ar];
      }
      if driving && p.rready {
        addr, left := Wrap32(addr + 16), left - 1;
        if left == 0 {
          busy, done := false, done + 1;
        }
      }
    }
  }

  // ---------------------------------------------------------------- history

  /** A delivered beat. */
  datatype Beat = Beat(id: int, addr: int, last: bool)

  /** Reads are numbered as they are accepted: which ones wait, which have been served, in
      order, and which one is being served; and every beat delivered. */
  datatype Log = Log(accepted: seq<Ar>, waiting: seq<nat>, served: seq<nat>, current: nat, beats: seq<Beat>)

  function LogStart(h: Log, s: S3, p: Pins): Log {
    if !Starts(s, p) || |h.waiting| != |s.queue| then h
    else h.(current := h.waiting[Chosen(s, p)], waiting := Without(h.waiting, Chosen(s, p)))
  }

  function LogAccept(h: Log, takes: bool, a: Ar): Log {
    if takes then h.(accepted := h.accepted + [a], waiting := h.waiting + [|h.accepted|]) else h
  }

  function LogServe(h: Log, s: S3, fires: bool): Log {
    if !fires then h
    else h.(beats := h.beats + [Beat(s.cur.id, s.addr, s.left == 1)],
            served := if s.left == 1 then h.served + [h.current] else h.served)
  }

  function LogStep(h: Log, s: S3, p: Pins): Log {
    var s1 := Start(s, p);
    var takes := p.arvalid && Room(s);
    LogServe(LogAccept(LogStart(h, s, p), takes, p.ar), Accept(s1, takes, p.ar), Drives(s1, p) && p.rready)
  }

  /** Beat k of a read. */
  function BeatOf(a: Ar, k: nat): Beat {
    Beat(a.id, Wrap32(a.addr + 16 * k), k == a.len)
  }

  function Burst(a: Ar, n: nat): (r: seq<Beat>)
    ensures |r| == n
  {
    seq(n, k requires 0 <= k < n => BeatOf(a, k))
  }

  /** The whole bursts of the reads served so far, one after another. */
  function Bursts(accepted: seq<Ar>, served: seq<nat>): seq<Beat>
    requires forall j :: 0 <= j < |served| ==> served[j] < |accepted|
    decreases |served|
  {
    if |served| == 0 then []
    else
      var n := |served| - 1;
      var a := accepted[served[n]];
      Bursts(accepted, served[..n]) + Burst(a, a.len + 1)
  }

  // ---------------------------------------------------------------- invariant

  predicate Numbered(s: S3, h: Log) {
    |h.waiting| == |s.queue|
    && (forall k :: 0 <= k < |h.waiting| ==> h.waiting[k] < |h.accepted| && h.accepted[h.waiting[k]] == s.queue[k])
    && (forall j :: 0 <= j < |h.served| ==> h.served[j] < |h.accepted|)
    && (s.busy ==> h.current < |h.accepted| && h.accepted[h.current] == s.cur)
    && (forall j :: 0 <= j < |h.accepted| ==> 0 <= h.accepted[j].addr < ADDRESS_SPACE)
  }

  /** Beats of the current read already delivered. */
  function Given(s: S3): nat {
    if 0 <= s.left <= s.cur.len + 1 then s.cur.len + 1 - s.left else 0
  }

  predicate Serving(s: S3) {
    |s.queue| + Bit(s.busy) <= DEPTH
    && (s.busy ==> 0 < s.left <= s.cur.len + 1 && s.addr == Wrap32(s.cur.addr + 16 * Given(s)))
  }

  function Range(n: nat): (r: seq<nat>)
    ensures |r| == n
  {
    seq<nat>(n, k => k)
  }

  /** Every accepted read is waiting, current or served, exactly once. */
  ghost predicate Conserved(s: S3, h: Log) {
    multiset(h.waiting) + multiset(h.served) + (if s.busy then multiset{h.current} else multiset{})
    == multiset(Range(|h.accepted|))
    && s.done == |h.served|
  }

  ghost predicate Delivered(s: S3, h: Log)
    requires Numbered(s, h)
  {
    h.beats == Bursts(h.accepted, h.served)
               + (if s.busy then Burst(s.cur, Given(s)) else [])
  }

  lemma RemovedMultiset<T>(q: seq<T>, n: nat)
    requires n < |q|
    ensures multiset(q) == multiset(Without(q, n)) + multiset{q[n]}
  {
    assert q == q[..n] + [q[n]] + q[n + 1..];
  }

  lemma StartNumbered(s: S3, h: Log, p: Pins)
    requires Numbered(s, h) && Starts(s, p)
    ensures Numbered(Start(s, p), LogStart(h, s, p))
  {
    var n := Chosen(s, p);
    forall k | 0 <= k < |s.queue| - 1
      ensures Without(h.waiting, n)[k] < |h.accepted|
      ensures h.accepted[Without(h.waiting, n)[k]] == Without(s.queue, n)[k]
    {
      assert Without(h.waiting, n)[k] == h.waiting[if k < n then k else k + 1];
      assert Without(s.queue, n)[k] == s.queue[if k < n then k else k + 1];
    }
  }

  lemma StartKeeps(s: S3, h: Log, p: Pins)
    requires Sound(s, h)
    ensures Sound(Start(s, p), LogStart(h, s, p))
  {
    if Starts(s, p) {
      StartNumbered(s, h, p);
      RemovedMultiset(h.waiting, Chosen(s, p));
      assert Given(Start(s, p)) == 0;
    }
  }

  lemma {:induction false} BurstsOfPrefix(accepted: seq<Ar>, a: Ar, served: seq<nat>)
    requires forall j :: 0 <= j < |served| ==> served[j] < |accepted|
    ensures Bursts(accepted + [a], served) == Bursts(accepted, served)
    decreases |served|
  {
    if |served| > 0 {
      BurstsOfPrefix(accepted, a, served[..|served| - 1]);
    }
  }

  lemma AcceptNumbered(s: S3, h: Log, a: Ar)
    requires Numbered(s, h) && 0 <= a.addr < ADDRESS_SPACE
    ensures Numbered(Accept(s, true, a), LogAccept(h, true, a))
  {
  }

  lemma AcceptConserves(s: S3, h: Log, a: Ar)
    requires Conserved(s, h)
    ensures Conserved(Accept(s, true, a), LogAccept(h, true, a))
  {
    assert Range(|h.accepted| + 1) == Range(|h.accepted|) + [|h.accepted|];
  }

  lemma AcceptKeeps(s: S3, h: Log, a: Ar)
    requires Sound(s, h) && |s.queue| + Bit(s.busy) < DEPTH && 0 <= a.addr < ADDRESS_SPACE
    ensures Sound(Accept(s, true, a), LogAccept(h, true, a))
  {
    AcceptNumbered(s, h, a);
    AcceptConserves(s, h, a);
    BurstsOfPrefix(h.accepted, a, h.served);
  }

  lemma BurstGrows(a: Ar, n: nat)
    ensures Burst(a, n + 1) == Burst(a, n) + [BeatOf(a, n)]
  {
  }

  lemma ServedGrows(accepted: seq<Ar>, served: seq<nat>, n: nat)
    requires n < |accepted| && forall j :: 0 <= j < |served| ==> served[j] < |accepted|
    ensures Bursts(accepted, served + [n]) == Bursts(accepted, served) + Burst(accepted[n], accepted[n].len + 1)
  {
    assert (served + [n])[..|served|] == served;
  }

  lemma ServeServing(s: S3)
    requires Serving(s) && s.busy
    ensures Serving(Serve(s, true))
    ensures s.left > 1 ==> Serve(s, true).busy && Given(Serve(s, true)) == Given(s) + 1
    ensures s.left == 1 ==> !Serve(s, true).busy && Given(s) == s.cur.len
  {
  }

  lemma ServeNumbers(s: S3, h: Log)
    requires Numbered(s, h) && Serving(s) && s.busy
    ensures Numbered(Serve(s, true), LogServe(h, s, true))
  {
  }

  /** A beat in the middle of a burst, and the one that ends it. */
  lemma ServeBeat(s: S3, h: Log)
    requires Numbered(s, h) && Serving(s) && Delivered(s, h) && s.busy
    requires Numbered(Serve(s, true), LogServe(h, s, true))
    ensures Delivered(Serve(s, true), LogServe(h, s, true))
  {
    ServeServing(s);
    BurstGrows(s.cur, Given(s));
    var now := Beat(s.cur.id, s.addr, s.left == 1);
    assert now == BeatOf(s.cur, Given(s));
    if s.left == 1 {
      ServedGrows(h.accepted, h.served, h.current);
    }
  }

  lemma ServeKeeps(s: S3, h: Log)
    requires Sound(s, h) && s.busy
    ensures Sound(Serve(s, true), LogServe(h, s, true))
  {
    ServeServing(s);
    ServeNumbers(s, h);
    ServeBeat(s, h);
  }

  ghost predicate Sound(s: S3, h: Log) {
    Numbered(s, h) && Serving(s) && Conserved(s, h) && Delivered(s, h)
  }

  lemma StepKeeps(s: S3, h: Log, p: Pins)
    requires Sound(s, h) && 0 <= p.ar.addr < ADDRESS_SPACE
    ensures Sound(StepS3(s, p), LogStep(h, s, p))
  {
    StartKeeps(s, h, p);
    var s1, h1 := Start(s, p), LogStart(h, s, p);
    var takes := p.arvalid && Room(s);
    if takes {
      AcceptKeeps(s1, h1, p.ar);
    }
    if Drives(s1, p) && p.rready {
      ServeKeeps(Accept(s1, takes, p.ar), LogAccept(h1, takes, p.ar));
    }
  }

  function PlayS3(pins: seq<Pins>): (S3, Log)
    decreases |pins|
  {
    if |pins| == 0 then (S3_IDLE, Log([], [], [], 0, []))
    else
      var (s, h) := PlayS3(pins[..|pins| - 1]);
      (StepS3(s, pins[|pins| - 1]), LogStep(h, s, pins[|pins| - 1]))
  }

  /** However hold and service order are switched, the beats delivered are the whole bursts
      of the reads served, uninterleaved, each with its own id, consecutive addresses and
      RLAST on the last beat; every accepted read is waiting, current or served exactly
      once; and at most four are outstanding. */
  lemma {:induction false} QueuedReadsAreServed(pins: seq<Pins>)
    requires forall n :: 0 <= n < |pins| ==> 0 <= pins[n].ar.addr < ADDRESS_SPACE
    ensures var (s, h) := PlayS3(pins);
            Sound(s, h) && |h.accepted| == s.done + |s.queue| + Bit(s.busy) && |s.queue| + Bit(s.busy) <= DEPTH
    decreases |pins|
  {
    if |pins| > 0 {
      QueuedReadsAreServed(pins[..|pins| - 1]);
      var (s, h) := PlayS3(pins[..|pins| - 1]);
      StepKeeps(s, h, pins[|pins| - 1]);
    }
    CountsConserved(PlayS3(pins).0, PlayS3(pins).1);
  }

  lemma CountsConserved(s: S3, h: Log)
    requires Sound(s, h)
    ensures |h.accepted| == s.done + |s.queue| + Bit(s.busy)
  {
    assert |multiset(Range(|h.accepted|))| == |h.accepted|;
  }

  // ---------------------------------------------------------------- order, hold and room

  predicate Ascending(q: seq<nat>) {
    forall i, j :: 0 <= i < j < |q| ==> q[i] < q[j]
  }

  lemma WithoutAscends(q: seq<nat>, n: nat)
    requires Ascending(q) && n < |q|
    ensures Ascending(Without(q, n))
  {
    forall i, j | 0 <= i < j < |q| - 1
      ensures Without(q, n)[i] < Without(q, n)[j]
    {
      assert Without(q, n)[i] == q[if i < n then i else i + 1];
      assert Without(q, n)[j] == q[if j < n then j else j + 1];
    }
  }

  lemma AcceptAscends(s: S3, h: Log, takes: bool, a: Ar)
    requires Numbered(s, h) && Ascending(h.waiting)
    ensures Ascending(LogAccept(h, takes, a).waiting)
  {
  }

  lemma WaitingAscends(s: S3, h: Log, p: Pins)
    requires Sound(s, h) && Ascending(h.waiting)
    ensures Ascending(LogStep(h, s, p).waiting)
  {
    if Starts(s, p) {
      StartNumbered(s, h, p);
      WithoutAscends(h.waiting, Chosen(s, p));
    }
    AcceptAscends(Start(s, p), LogStart(h, s, p), p.arvalid && Room(s), p.ar);
  }

  /** Reads wait in the order of acceptance. */
  lemma {:induction false} RunAscends(pins: seq<Pins>)
    requires forall n :: 0 <= n < |pins| ==> 0 <= pins[n].ar.addr < ADDRESS_SPACE
    ensures Ascending(PlayS3(pins).1.waiting)
    decreases |pins|
  {
    if |pins| > 0 {
      var front := pins[..|pins| - 1];
      RunAscends(front);
      QueuedReadsAreServed(front);
      WaitingAscends(PlayS3(front).0, PlayS3(front).1, pins[|pins| - 1]);
    }
  }

  /** What a cycle does after the log h: with hold nothing is delivered; without it an idle
      slave takes up the oldest waiting read, or the youngest if `lifo`, and a busy one or one
      that has just taken up a read delivers a beat of it if the master is ready; and an
      address is taken exactly if fewer than four reads are outstanding. */
  predicate Follows(s: S3, h: Log, p: Pins, h': Log) {
    (p.hold ==> h'.beats == h.beats && h'.served == h.served)
    && (s.busy ==> h'.current == h.current)
    && (!s.busy && !p.hold && |h.waiting| > 0 ==>
          h'.current in h.waiting
          && forall n :: n in h.waiting ==> if p.lifo then n <= h'.current else h'.current <= n)
    && (!p.hold && (s.busy || |h.waiting| > 0) ==> |h'.beats| == |h.beats| + Bit(p.rready))
    && h'.accepted == h.accepted + if p.arvalid && |h.accepted| - |h.served| < 4 then [p.ar] else []
  }

  lemma {:induction false} ServiceOrder(pins: seq<Pins>, p: Pins)
    requires forall n :: 0 <= n < |pins| ==> 0 <= pins[n].ar.addr < ADDRESS_SPACE
    ensures var (s, h) := PlayS3(pins); Follows(s, h, p, LogStep(h, s, p))
  {
    RunAscends(pins);
    QueuedReadsAreServed(pins);
    StepFollows(PlayS3(pins).0, PlayS3(pins).1, p);
  }

  lemma StepFollows(s: S3, h: Log, p: Pins)
    requires Sound(s, h) && Ascending(h.waiting) && |h.accepted| == s.done + |s.queue| + Bit(s.busy)
    ensures Follows(s, h, p, LogStep(h, s, p))
  {
    if Starts(s, p) {
      var c := Chosen(s, p);
      assert h.waiting[c] in h.waiting;
      forall n | n in h.waiting
        ensures if p.lifo then n <= h.waiting[c] else h.waiting[c] <= n
      {
        var k :| 0 <= k < |h.waiting| && h.waiting[k] == n;
      }
    }
  }
}
