/** The harness's memory behind the asynchronous bridge: addresses and data are queued
    separately, a burst is committed when all its beats have arrived and no response is
    outstanding, and write strobes are ignored. */
module AsyncSlave {
  import opened Pairing

  type Words = map<int, int>

  datatype AwEntry = AwEntry(id: int, burst: Burst)
  datatype RdEntry = RdEntry(id: int, addr: int, len: nat, beat: nat)

  datatype State = State(
    aw: seq<AwEntry>, w: seq<int>, r: seq<RdEntry>, mem: Words,
    bvalid: bool, bid: int, rvalid: bool)

  /** The handshakes seen just before the clock edge. */
  datatype Edge = Edge(b: bool, r: bool, aw: bool, awEntry: AwEntry, w: bool, data: int, ar: bool, arEntry: RdEntry)

  const WORD := 8

  function StoreWords(mem: Words, addr: int, data: seq<int>): Words
    decreases |data|
  {
    if |data| == 0 then mem
    else
      var n := |data| - 1;
      StoreWords(mem, addr, data[..n])[addr + WORD * n := data[n]]
  }

  function TakeResponses(s: State, e: Edge): State {
    var s1 := if e.b then s.(bvalid := false) else s;
    if !e.r then s1
    else if |s1.r| == 0 then s1.(rvalid := false)
    else if s1.r[0].beat >= s1.r[0].len then s1.(r := s1.r[1..], rvalid := false)
    else s1.(r := [s1.r[0].(beat := s1.r[0].beat + 1)] + s1.r[1..])
  }

  function Capture(s: State, e: Edge): State {
    s.(aw := if e.aw then s.aw + [e.awEntry] else s.aw,
       w := if e.w then s.w + [e.data] else s.w,
       r := if e.ar then s.r + [e.arEntry.(beat := 0)] else s.r)
  }

  predicate CanCommit(s: State) {
    |s.aw| > 0 && !s.bvalid && |s.w| >= s.aw[0].burst.len + 1
  }

  function CommitOne(s: State): State {
    if !CanCommit(s) then s
    else
      var n := s.aw[0].burst.len + 1;
      s.(mem := StoreWords(s.mem, s.aw[0].burst.addr, s.w[..n]),
         w := s.w[n..], aw := s.aw[1..], bvalid := true, bid := s.aw[0].id)
  }

  function Latch(s: State, e: Edge): State {
    CommitOne(Capture(TakeResponses(s, e), e))
  }

  class Slave {
    var aw: seq<AwEntry>
    var w: seq<int>
    var r: seq<RdEntry>
    var mem: Words
    var bvalid: bool
    var bid: int
    var rvalid: bool

    ghost function Value(): State
      reads this
    {
      State(aw, w, r, mem, bvalid, bid, rvalid)
    }

    constructor ()
      ensures Value() == State([], [], [], map[], false, 0, false)
    {
      aw, w, r, mem, bvalid, bid, rvalid := [], [], [], map[], false, 0, false;
    }

    method Responses(e: Edge)
      modifies `bvalid, `r, `rvalid
      ensures Value() == TakeResponses(old(Value()), e)
    {
      if e.b {
        bvalid := false;
      }
      if e.r {
        if |r| > 0 {
          if r[0].beat >= r[0].len {
            r, rvalid := r[1..], false;
          } else {
            r := [r[0].(beat := r[0].beat + 1)] + r[1..];
          }
        } else {
          rvalid := false;
        }
      }
    }

    method Commit()
      modifies `aw, `w, `mem, `bvalid, `bid
      ensures Value() == CommitOne(old(Value()))
    {
      if |aw| > 0 && !bvalid && |w| >= aw[0].burst.len + 1 {
        var n := aw[0].burst.len + 1;
        ghost var all := w;
        for i := 0 to n
          invariant |all| >= n && w == all[i..] && aw == old(aw)
          invariant mem == StoreWords(old(mem), aw[0].burst.addr, all[..i])
        {
          assert all[..i + 1][..i] == all[..i];
          mem := mem[aw[0].burst.addr + i * WORD := w[0]];
          w := w[1..];
        }
        bid, bvalid := aw[0].id, true;
        aw := aw[1..];
      }
    }

    method LatchEdge(e: Edge)
      modifies this
      ensures Value() == Latch(old(Value()), e)
    {
      Responses(e);
      if e.aw {
        aw := aw + [e.awEntry];
      }
      if e.w {
        w := w + [e.data];
      }
      if e.ar {
        r := r + [e.arEntry.(beat := 0)];
      }
      Commit();
    }
  }

  // ---------------------------------------------------------------- pairing over whole runs

  /** Everything ever accepted, and how many bursts were committed and answered. */
  datatype Seen = Seen(bursts: seq<Burst>, words: seq<int>, committed: nat, answered: nat)

  predicate Sensible(s: State, e: Edge) {
    e.b ==> s.bvalid
  }

  function SeenNext(h: Seen, s: State, e: Edge): Seen {
    Seen(if e.aw then h.bursts + [e.awEntry.burst] else h.bursts,
         if e.w then h.words + [e.data] else h.words,
         h.committed + (if CanCommit(Capture(TakeResponses(s, e), e)) then 1 else 0),
         h.answered + (if e.b then 1 else 0))
  }

  /** Words stored one after another, each where the pairing puts it. */
  function PairedWords(mem: Words, bursts: seq<Burst>, words: seq<int>, n: nat): Words
    requires n <= |words|
  {
    if n == 0 then mem
    else PairedWords(mem, bursts, words, n - 1)[Target(bursts, |bursts|, n - 1, WORD) := words[n - 1]]
  }

  predicate QueuedBursts(aw: seq<AwEntry>, bursts: seq<Burst>, c: nat) {
    c <= |bursts| && |aw| == |bursts| - c && (forall k :: 0 <= k < |aw| ==> aw[k].burst == bursts[c + k])
  }

  predicate Waiting(s: State, h: Seen) {
    QueuedBursts(s.aw, h.bursts, h.committed)
    && Owed(h.bursts, h.committed) <= |h.words| && s.w == h.words[Owed(h.bursts, h.committed)..]
    && h.committed == h.answered + (if s.bvalid then 1 else 0)
  }

  predicate Stored(s: State, h: Seen, mem: Words) {
    h.committed <= |h.bursts| && Owed(h.bursts, h.committed) <= |h.words|
    && s.mem == PairedWords(mem, h.bursts, h.words, Owed(h.bursts, h.committed))
  }

  lemma {:induction false} PairedGrows(
    mem: Words, bursts: seq<Burst>, more: seq<Burst>, words: seq<int>, data: seq<int>, n: nat)
    requires n <= |words| && n <= Owed(bursts, |bursts|) && |more| <= 1
    ensures PairedWords(mem, bursts + more, words + data, n) == PairedWords(mem, bursts, words, n)
  {
    if n > 0 {
      PairedGrows(mem, bursts, more, words, data, n - 1);
      if |more| == 1 {
        assert bursts + more == bursts + [more[0]];
        LaterBurstsKeepTargets(bursts, more[0], n - 1, WORD);
      } else {
        assert bursts + more == bursts;
      }
    }
  }

  /** Committing burst j stores words Owed(j) .. Owed(j + 1) at its own consecutive addresses. */
  lemma {:induction false} CommitPaired(mem: Words, bursts: seq<Burst>, words: seq<int>, j: nat, i: nat)
    requires j < |bursts| && i <= bursts[j].len + 1 && Owed(bursts, j) + i <= |words|
    ensures StoreWords(PairedWords(mem, bursts, words, Owed(bursts, j)), bursts[j].addr, words[Owed(bursts, j)..][..i])
         == PairedWords(mem, bursts, words, Owed(bursts, j) + i)
    decreases i
  {
    if i > 0 {
      var o := Owed(bursts, j);
      CommitPaired(mem, bursts, words, j, i - 1);
      assert words[o..][..i][..i - 1] == words[o..][..i - 1];
      TargetInBurst(bursts, |bursts|, j, i - 1, WORD);
    }
  }

  lemma Captured(s: State, e: Edge)
    ensures var c := Capture(TakeResponses(s, e), e);
            c.aw == s.aw + (if e.aw then [e.awEntry] else []) && c.w == s.w + (if e.w then [e.data] else [])
            && c.mem == s.mem && c.bvalid == (s.bvalid && !e.b) && c.bid == s.bid
  {
  }

  lemma CaptureWaits(s: State, h: Seen, e: Edge)
    requires Waiting(s, h) && Sensible(s, e)
    ensures Waiting(Capture(TakeResponses(s, e), e), SeenNext(h, s, e).(committed := h.committed))
  {
    var g, c := SeenNext(h, s, e), Capture(TakeResponses(s, e), e);
    Captured(s, e);
    if e.aw {
      OwedOfPrefix(h.bursts, [e.awEntry.burst], h.committed);
    }
    assert Owed(g.bursts, h.committed) == Owed(h.bursts, h.committed);
    assert QueuedBursts(c.aw, g.bursts, h.committed);
    assert c.w == g.words[Owed(h.bursts, h.committed)..];
  }

  lemma CaptureStores(s: State, h: Seen, e: Edge, mem: Words)
    requires Stored(s, h, mem)
    ensures Stored(Capture(TakeResponses(s, e), e), SeenNext(h, s, e).(committed := h.committed), mem)
  {
    var more := if e.aw then [e.awEntry.burst] else [];
    var data := if e.w then [e.data] else [];
    OwedMonotone(h.bursts, h.committed, |h.bursts|);
    OwedOfPrefix(h.bursts, more, h.committed);
    PairedGrows(mem, h.bursts, more, h.words, data, Owed(h.bursts, h.committed));
    assert SeenNext(h, s, e).bursts == h.bursts + more && SeenNext(h, s, e).words == h.words + data;
    Captured(s, e);
  }

  lemma CommitWaits(s: State, h: Seen, mem: Words)
    requires Waiting(s, h) && Stored(s, h, mem) && CanCommit(s)
    ensures var g := h.(committed := h.committed + 1);
            Waiting(CommitOne(s), g) && Stored(CommitOne(s), g, mem)
  {
    var n := s.aw[0].burst.len + 1;
    assert s.aw[0].burst == h.bursts[h.committed + 0];
    assert QueuedBursts(s.aw[1..], h.bursts, h.committed + 1);
    CommitPaired(mem, h.bursts, h.words, h.committed, n);
    assert h.words[Owed(h.bursts, h.committed)..][n..] == h.words[Owed(h.bursts, h.committed) + n..];
  }

  /** In every run the memory is that of the first `committed` bursts, burst i holding the
      words that start at the sum of the earlier lengths; what waits is exactly the rest;
      commits are the responses delivered and the one owed. */
  lemma LatchKeepsPairing(s: State, h: Seen, e: Edge, mem: Words)
    requires Waiting(s, h) && Stored(s, h, mem) && Sensible(s, e)
    ensures Waiting(Latch(s, e), SeenNext(h, s, e)) && Stored(Latch(s, e), SeenNext(h, s, e), mem)
  {
    CaptureWaits(s, h, e);
    CaptureStores(s, h, e, mem);
    var c := Capture(TakeResponses(s, e), e);
    if CanCommit(c) {
      CommitWaits(c, SeenNext(h, s, e).(committed := h.committed), mem);
    }
  }

  predicate AllSensible(s: State, edges: seq<Edge>)
    decreases |edges|
  {
    |edges| > 0 ==> Sensible(s, edges[0]) && AllSensible(Latch(s, edges[0]), edges[1..])
  }

  function LatchAll(s: State, h: Seen, edges: seq<Edge>): (State, Seen)
    decreases |edges|
  {
    if |edges| == 0 then (s, h) else LatchAll(Latch(s, edges[0]), SeenNext(h, s, edges[0]), edges[1..])
  }

  lemma {:induction false} RunsPair(s: State, h: Seen, edges: seq<Edge>, mem: Words)
    requires Waiting(s, h) && Stored(s, h, mem) && AllSensible(s, edges)
    ensures var (s', h') := LatchAll(s, h, edges); Waiting(s', h') && Stored(s', h', mem)
    decreases |edges|
  {
    if |edges| > 0 {
      LatchKeepsPairing(s, h, edges[0], mem);
      RunsPair(Latch(s, edges[0]), SeenNext(h, s, edges[0]), edges[1..], mem);
    }
  }

  lemma EveryRunPairs(edges: seq<Edge>)
    requires AllSensible(State([], [], [], map[], false, 0, false), edges)
    ensures var (s, h) := LatchAll(State([], [], [], map[], false, 0, false), Seen([], [], 0, 0), edges);
            Waiting(s, h) && Stored(s, h, map[])
  {
    RunsPair(State([], [], [], map[], false, 0, false), Seen([], [], 0, 0), edges, map[]);
  }
}
