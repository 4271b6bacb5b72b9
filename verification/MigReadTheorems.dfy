/** Every run of the read engine returns exactly the answers the reads call for. */
module MigReadTheorems {
  import opened Bytes
  import opened MigModel
  import opened MigWriteQueue
  import opened MigRead

  /** 32-byte beats a read takes from the memory. */
  function Need(a: Aw): nat {
    if Legal(a) then MigBeats(a) else 0
  }

  /** Beats the reads before position j take; a beat's place in the return stream. */
  function Total(descs: seq<Aw>, j: nat): nat
    requires j <= |descs|
  {
    if j == 0 then 0 else Total(descs, j - 1) + Need(descs[j - 1])
  }

  lemma {:induction false} TotalMonotone(descs: seq<Aw>, j: nat, k: nat)
    requires j <= k <= |descs|
    ensures Total(descs, j) <= Total(descs, k)
    decreases k
  {
    if j < k {
      TotalMonotone(descs, j, k - 1);
    }
  }

  lemma {:induction false} TotalOfPrefix(descs: seq<Aw>, e: seq<Aw>, j: nat)
    requires j <= |descs|
    ensures Total(descs + e, j) == Total(descs, j)
  {
    if j > 0 {
      TotalOfPrefix(descs, e, j - 1);
    }
  }

  function BeatOf(mem: Memory, a: Aw, k: nat): Wide {
    MBeat(ReadLanes(mem, Base(a) + 32 * k, 32), k == MigBeats(a) - 1)
  }

  /** Beat number g of the return stream, looking at the first n reads only. */
  function StreamBeat(mem: Memory, descs: seq<Aw>, n: nat, g: int): Wide
    requires n <= |descs|
  {
    if n == 0 then MBeat(Zeros(32), false)
    else if g >= Total(descs, n - 1) then BeatOf(mem, descs[n - 1], g - Total(descs, n - 1))
    else StreamBeat(mem, descs, n - 1, g)
  }

  function Stream(mem: Memory, descs: seq<Aw>, g: int): Wide {
    StreamBeat(mem, descs, |descs|, g)
  }

  lemma {:induction false} StreamHere(mem: Memory, descs: seq<Aw>, n: nat, j: nat, k: nat)
    requires j < n <= |descs| && k < Need(descs[j])
    ensures StreamBeat(mem, descs, n, Total(descs, j) + k) == BeatOf(mem, descs[j], k)
    decreases n
  {
    if j < n - 1 {
      TotalMonotone(descs, j + 1, n - 1);
      StreamHere(mem, descs, n - 1, j, k);
    }
  }

  lemma {:induction false} StreamOfPrefix(mem: Memory, descs: seq<Aw>, a: Aw, n: nat, g: int)
    requires n <= |descs|
    ensures StreamBeat(mem, descs + [a], n, g) == StreamBeat(mem, descs, n, g)
  {
    if n > 0 {
      TotalOfPrefix(descs, [a], n - 1);
      StreamOfPrefix(mem, descs, a, n - 1, g);
    }
  }

  /** A read accepted later does not move the beats of earlier ones. */
  lemma StreamGrows(mem: Memory, descs: seq<Aw>, a: Aw, g: int)
    requires g < Total(descs, |descs|)
    ensures Stream(mem, descs + [a], g) == Stream(mem, descs, g)
  {
    TotalOfPrefix(descs, [a], |descs|);
    StreamOfPrefix(mem, descs, a, |descs|, g);
  }

  // ---------------------------------------------------------------- invariant

  predicate ReadPointers(s: Reader) {
    s.drain <= s.issue <= |s.descs| && |s.descs| <= s.drain + MAX_READS
    && !s.r.arHave
  }

  predicate Draining(s: Reader) {
    (s.drain == |s.descs| ==> s.repoIndex == 0)
    && (s.drain < |s.descs| ==> s.repoIndex < RepoBeats(s.descs[s.drain]))
    && s.migIndex == (if DrainOk(s) then (Addr4(s.descs[s.drain]) + s.repoIndex) / 2 else 0)
    && (s.curValid ==> DrainOk(s) && s.curOk)
    && (DrainOk(s) && s.repoIndex > 0 && ReadUpper(s) ==> s.curValid)
  }

  /** Place in the return stream of the first beat not yet held. */
  function Consumed(s: Reader): nat
    requires s.drain <= |s.descs|
  {
    Total(s.descs, s.drain) + s.migIndex + if s.curValid then 1 else 0
  }

  /** Which read the memory is serving (`active`) and which waits in the register (`waiting`). */
  datatype Places = Places(active: nat, waiting: nat)

  predicate Returning(s: Reader, p: Places)
    requires ReadPointers(s)
  {
    var got := Consumed(s) + |s.skid|;
    (s.presenting ==>
       p.waiting < s.issue && Legal(s.descs[p.waiting])
       && s.arAddr == Base(s.descs[p.waiting]) && s.arLen == MigBeats(s.descs[p.waiting]) - 1
       && Total(s.descs, p.waiting + 1) == Total(s.descs, s.issue))
    && (var ahead := if s.presenting then Total(s.descs, p.waiting) else Total(s.descs, s.issue);
        if s.r.rActive then
          p.active < |s.descs| && Legal(s.descs[p.active]) && Total(s.descs, p.active + 1) == ahead
          && 0 <= s.r.rBeatsLeft < MigBeats(s.descs[p.active])
          && got == ahead - 1 - s.r.rBeatsLeft
          && s.r.rAddr == Base(s.descs[p.active]) + 32 * (got - Total(s.descs, p.active))
        else got == ahead)
  }

  /** The skid holds the stream from beat number g on. */
  predicate Queued(mem: Memory, descs: seq<Aw>, g: int, skid: seq<Wide>) {
    forall n :: 0 <= n < |skid| ==> skid[n] == Stream(mem, descs, g + n)
  }

  predicate Holding(s: Reader, mem: Memory)
    requires s.drain <= |s.descs|
  {
    (s.curValid ==> s.curData == Stream(mem, s.descs, Consumed(s) - 1)) && Queued(mem, s.descs, Consumed(s), s.skid)
  }

  predicate ReadInv(s: Reader, p: Places, mem: Memory) {
    ReadPointers(s) && Draining(s) && Returning(s, p) && Holding(s, mem)
  }

  // ---------------------------------------------------------------- a cycle as a sequence of small moves

  /** The address side: the register is emptied into the memory model and refilled. */
  function Issue(s: Reader, shakes: bool, wants: bool, advances: bool): Reader
    requires wants ==> s.issue < |s.descs|
  {
    s.(issue := if advances then s.issue + 1 else s.issue,
       presenting := wants || (s.presenting && !shakes),
       arAddr := if wants then Base(s.descs[s.issue]) else s.arAddr,
       arLen := if wants then MigBeats(s.descs[s.issue]) - 1 else s.arLen,
       r := TakeAr(s.r, shakes, s.arAddr, s.arLen))
  }

  function Fetch(s: Reader, mem: Memory, fetches: bool): Reader {
    if fetches then s.(skid := s.skid + [MigData(s, mem)], r := TakeR(s.r, true)) else s
  }

  /** The simple form of the data path: everything passes through the skid. */
  function Hold(s: Reader): Reader {
    if DrainOk(s) && !s.curValid && |s.skid| > 0 then
      s.(skid := s.skid[1..], curValid := true, curData := s.skid[0], curOk := s.skid[0].last == LastMig(s))
    else s
  }

  predicate HasOutput(s: Reader) {
    DrainErr(s) || (DrainOk(s) && s.curValid)
  }

  function HeldOutput(s: Reader): RBeat
    requires s.drain < |s.descs|
  {
    if DrainErr(s) then RBeat(s.descs[s.drain].id, Zeros(16), false, LastRepo(s))
    else
      var d := s.curData.data;
      RBeat(s.descs[s.drain].id, if ReadUpper(s) then d[16..] else d[..16], s.curOk, LastRepo(s))
  }

  function Emit(s: Reader, ready: bool): Reader {
    if !(HasOutput(s) && ready) then s
    else if LastRepo(s) then
      s.(drain := s.drain + 1, repoIndex := 0, migIndex := 0, curValid := if DrainOk(s) then false else s.curValid)
    else if DrainOk(s) && ReadUpper(s) then
      s.(repoIndex := s.repoIndex + 1, migIndex := s.migIndex + 1, curValid := false)
    else s.(repoIndex := s.repoIndex + 1)
  }

  function AcceptRead(s: Reader, fires: bool, a: Aw): Reader {
    if fires then s.(descs := s.descs + [a]) else s
  }

  function Issued(s: Reader, i: ReadStimulus): Reader {
    Issue(s, s.presenting && ArReady(s, i), ArWant(s, i), IssueAdvance(s, i))
  }

  function Filled(s: Reader, i: ReadStimulus, mem: Memory): Reader {
    Hold(Fetch(Issued(s, i), mem, s.r.rActive && MRready(s)))
  }

  lemma FetchedSkid(skid: seq<Wide>, b: Wide)
    ensures |skid| == 0 ==> (skid + [b])[1..] == [] && (skid + [b])[0] == b
    ensures |skid| > 0 ==> (skid + [b])[1..] == skid[1..] + [b] && (skid + [b])[0] == skid[0]
  {
  }

  lemma FilledShape(s: Reader, i: ReadStimulus, mem: Memory)
    requires !s.r.arHave
    ensures var f := Filled(s, i, mem);
            var fills := FillFromSkid(s) || FillFromMig(s);
            f.descs == s.descs && f.drain == s.drain && f.repoIndex == s.repoIndex && f.migIndex == s.migIndex
            && f.skid == NextSkid(s, mem)
            && f.curValid == (s.curValid || fills)
            && f.curData == (if fills then EffBeat(s, mem) else s.curData)
            && f.curOk == (if fills then EffOk(s, mem) else s.curOk)
            && f.r == ReadNext(s, i, mem).r
  {
    FetchedSkid(s.skid, MigData(s, mem));
  }

  lemma FilledAddress(s: Reader, i: ReadStimulus, mem: Memory)
    ensures var f := Filled(s, i, mem);
            f.issue == (if IssueAdvance(s, i) then s.issue + 1 else s.issue)
            && f.presenting == (ArWant(s, i) || (s.presenting && !ArReady(s, i)))
            && f.arAddr == (if ArWant(s, i) then Base(s.descs[s.issue]) else s.arAddr)
            && f.arLen == (if ArWant(s, i) then MigBeats(s.descs[s.issue]) - 1 else s.arLen)
  {
  }

  lemma SameOutput(s: Reader, i: ReadStimulus, mem: Memory)
    requires !s.r.arHave
    ensures SRvalid(s) <==> HasOutput(Filled(s, i, mem))
    ensures SRvalid(s) ==> Output(s, mem) == HeldOutput(Filled(s, i, mem))
  {
    FilledShape(s, i, mem);
  }

  lemma SameDrained(s: Reader, f: Reader, i: ReadStimulus, mem: Memory)
    requires f.descs == s.descs && f.drain == s.drain && f.repoIndex == s.repoIndex && f.migIndex == s.migIndex
    requires f.curValid == (s.curValid || FillFromSkid(s) || FillFromMig(s))
    requires SRvalid(s) <==> HasOutput(f)
    ensures var n := ReadNext(s, i, mem);
            var e := Emit(f, i.rready);
            n.drain == e.drain && n.repoIndex == e.repoIndex && n.migIndex == e.migIndex && n.curValid == e.curValid
  {
    assert DrainOk(f) == DrainOk(s);
    assert s.drain < |s.descs| ==> LastRepo(f) == LastRepo(s) && ReadUpper(f) == ReadUpper(s);
  }

  lemma EmitRest(s: Reader, ready: bool)
    ensures var e := Emit(s, ready);
            e == s.(drain := e.drain, repoIndex := e.repoIndex, migIndex := e.migIndex, curValid := e.curValid)
  {
  }

  /** Serving a beat in the cycle it arrives, from the skid or straight from the memory,
      is the same as passing it through the skid and the holding register first. */
  lemma BypassRefinesFifo(s: Reader, i: ReadStimulus, mem: Memory)
    requires !s.r.arHave
    ensures ReadNext(s, i, mem) == AcceptRead(Emit(Filled(s, i, mem), i.rready), ArFire(s, i), i.ar)
    ensures RFire(s, i) <==> HasOutput(Filled(s, i, mem)) && i.rready
    ensures SRvalid(s) ==> Output(s, mem) == HeldOutput(Filled(s, i, mem))
  {
    SameOutput(s, i, mem);
    FilledShape(s, i, mem);
    SameDrained(s, Filled(s, i, mem), i, mem);
    FilledAddress(s, i, mem);
    EmitRest(Filled(s, i, mem), i.rready);
  }

  // ---------------------------------------------------------------- what each move keeps

  predicate SameDrain(s: Reader, t: Reader) {
    t.descs == s.descs && t.drain == s.drain && t.repoIndex == s.repoIndex && t.migIndex == s.migIndex
    && t.curValid == s.curValid && t.curData == s.curData && t.curOk == s.curOk
  }

  lemma DrainFrame(s: Reader, t: Reader)
    requires s.drain <= |s.descs| && SameDrain(s, t)
    ensures Consumed(t) == Consumed(s)
    ensures Draining(s) ==> Draining(t)
  {
  }

  lemma HoldingFrame(s: Reader, t: Reader, mem: Memory)
    requires s.drain <= |s.descs| && SameDrain(s, t) && t.skid == s.skid && Holding(s, mem)
    ensures Holding(t, mem)
  {
    DrainFrame(s, t);
  }

  function PlacesAfter(s: Reader, p: Places, shakes: bool, wants: bool): Places {
    Places(if shakes then p.waiting else p.active, if wants then s.issue else p.waiting)
  }

  lemma IssueReturning(s: Reader, p: Places, i: ReadStimulus)
    requires ReadPointers(s) && Returning(s, p)
    ensures ReadPointers(Issued(s, i))
    ensures Returning(Issued(s, i), PlacesAfter(s, p, s.presenting && ArReady(s, i), ArWant(s, i)))
    ensures DrainErr(s) ==> s.drain < Issued(s, i).issue
  {
    assert Consumed(Issued(s, i)) == Consumed(s);
  }

  lemma IssueKeeps(s: Reader, p: Places, mem: Memory, i: ReadStimulus)
    requires ReadInv(s, p, mem)
    ensures ReadInv(Issued(s, i), PlacesAfter(s, p, s.presenting && ArReady(s, i), ArWant(s, i)), mem)
  {
    IssueReturning(s, p, i);
    DrainFrame(s, Issued(s, i));
    HoldingFrame(s, Issued(s, i), mem);
  }

  lemma NextAddress(a: Aw, k: nat)
    requires Legal(a) && k + 1 < MigBeats(a)
    ensures Wrap32(Base(a) + 32 * k + 32) == Base(a) + 32 * (k + 1)
  {
  }

  lemma FetchReturning(s: Reader, p: Places, mem: Memory)
    requires ReadPointers(s) && Returning(s, p) && s.r.rActive
    ensures ReadPointers(Fetch(s, mem, true)) && Returning(Fetch(s, mem, true), p)
  {
    var t := Fetch(s, mem, true);
    assert Consumed(t) == Consumed(s) && |t.skid| == |s.skid| + 1;
    if s.r.rBeatsLeft != 0 {
      NextAddress(s.descs[p.active], Consumed(s) + |s.skid| - Total(s.descs, p.active));
    }
  }

  lemma QueuedMore(mem: Memory, descs: seq<Aw>, g: int, skid: seq<Wide>, b: Wide)
    requires Queued(mem, descs, g, skid) && b == Stream(mem, descs, g + |skid|)
    ensures Queued(mem, descs, g, skid + [b])
  {
  }

  lemma ActiveBeat(s: Reader, p: Places, mem: Memory, k: int)
    requires ReadPointers(s) && Returning(s, p) && s.r.rActive && k == Consumed(s) + |s.skid| - Total(s.descs, p.active)
    ensures 0 <= k < Need(s.descs[p.active]) && MigData(s, mem) == BeatOf(mem, s.descs[p.active], k)
  {
    assert Total(s.descs, p.active + 1) == Total(s.descs, p.active) + MigBeats(s.descs[p.active]);
  }

  lemma FetchedBeat(s: Reader, p: Places, mem: Memory)
    requires ReadPointers(s) && Returning(s, p) && s.r.rActive
    ensures MigData(s, mem) == Stream(mem, s.descs, Consumed(s) + |s.skid|)
  {
    var k := Consumed(s) + |s.skid| - Total(s.descs, p.active);
    ActiveBeat(s, p, mem, k);
    StreamHere(mem, s.descs, |s.descs|, p.active, k);
  }

  lemma FetchKeeps(s: Reader, p: Places, mem: Memory)
    requires ReadInv(s, p, mem) && s.r.rActive
    ensures ReadInv(Fetch(s, mem, true), p, mem)
  {
    FetchReturning(s, p, mem);
    DrainFrame(s, Fetch(s, mem, true));
    FetchedBeat(s, p, mem);
    QueuedMore(mem, s.descs, Consumed(s), s.skid, MigData(s, mem));
  }

  /** The beat the drain takes next belongs to the read it is draining, in order. */
  lemma HeadBeat(s: Reader, mem: Memory)
    requires s.drain <= |s.descs| && Draining(s) && Holding(s, mem) && DrainOk(s) && !s.curValid && |s.skid| > 0
    ensures s.migIndex < MigBeats(s.descs[s.drain])
    ensures s.skid[0] == BeatOf(mem, s.descs[s.drain], s.migIndex)
  {
    DrainIndex(s);
    StreamHere(mem, s.descs, |s.descs|, s.drain, s.migIndex);
  }

  lemma DrainIndex(s: Reader)
    requires s.drain <= |s.descs| && Draining(s) && DrainOk(s)
    ensures var a := s.descs[s.drain];
            s.migIndex < MigBeats(a)
            && (LastRepo(s) ==> s.migIndex + 1 == MigBeats(a))
            && (!LastRepo(s) && ReadUpper(s) ==> s.migIndex + 1 < MigBeats(a))
  {
  }

  lemma QueuedLess(mem: Memory, descs: seq<Aw>, g: int, skid: seq<Wide>)
    requires Queued(mem, descs, g, skid) && |skid| > 0
    ensures skid[0] == Stream(mem, descs, g) && Queued(mem, descs, g + 1, skid[1..])
  {
    assert skid[0] == Stream(mem, descs, g + 0);
    forall n | 0 <= n < |skid| - 1
      ensures skid[1..][n] == Stream(mem, descs, g + 1 + n)
    {
      assert skid[n + 1] == Stream(mem, descs, g + (n + 1));
    }
  }

  lemma HoldKeeps(s: Reader, p: Places, mem: Memory)
    requires ReadInv(s, p, mem)
    ensures ReadInv(Hold(s), p, mem)
    ensures !(DrainOk(s) && !s.curValid) || |s.skid| == 0 || Hold(s).curValid
  {
    if DrainOk(s) && !s.curValid && |s.skid| > 0 {
      QueuedLess(mem, s.descs, Consumed(s), s.skid);
      HeadBeat(s, mem);
      assert Consumed(Hold(s)) == Consumed(s) + 1;
    }
  }

  // ---------------------------------------------------------------- output

  lemma Sliced(mem: Memory, a: Aw, i: nat)
    requires Legal(a) && i < RepoBeats(a)
    ensures var d := BeatOf(mem, a, (Addr4(a) + i) / 2).data;
            (if (Addr4(a) + i) % 2 == 1 then d[16..] else d[..16]) == ReadLanes(mem, Start(a) + 16 * i, 16)
  {
    var k := (Addr4(a) + i) / 2;
    SlicedAddress(a, i);
    HalvesOf(mem, Base(a) + 32 * k);
  }

  lemma SlicedAddress(a: Aw, i: nat)
    requires Legal(a)
    ensures Base(a) + 32 * ((Addr4(a) + i) / 2) + (if (Addr4(a) + i) % 2 == 1 then 16 else 0) == Start(a) + 16 * i
  {
  }

  lemma HalvesOf(mem: Memory, addr: int)
    ensures ReadLanes(mem, addr, 32)[..16] == ReadLanes(mem, addr, 16)
    ensures ReadLanes(mem, addr, 32)[16..] == ReadLanes(mem, addr + 16, 16)
  {
  }

  lemma HeldBeat(s: Reader, mem: Memory)
    requires Draining(s) && DrainOk(s) && s.curValid && Holding(s, mem)
    ensures s.curData == BeatOf(mem, s.descs[s.drain], s.migIndex)
  {
    DrainIndex(s);
    StreamHere(mem, s.descs, |s.descs|, s.drain, s.migIndex);
  }

  /** A held beat is the right half of the right 32-byte beat, and answers OKAY. */
  lemma OutputIsAnswer(s: Reader, mem: Memory)
    requires s.drain <= |s.descs| && Draining(s) && Holding(s, mem) && HasOutput(s)
    ensures HeldOutput(s) == Answer(mem, s.descs[s.drain], s.repoIndex)
  {
    if DrainOk(s) {
      HeldBeat(s, mem);
      Sliced(mem, s.descs[s.drain], s.repoIndex);
    }
  }

  // ---------------------------------------------------------------- emit

  /** The memory has not returned more than was asked for. */
  lemma ReturnedWasIssued(s: Reader, p: Places)
    requires ReadPointers(s) && Returning(s, p)
    ensures Consumed(s) + |s.skid| <= Total(s.descs, s.issue) <= Total(s.descs, |s.descs|)
  {
    TotalMonotone(s.descs, s.issue, |s.descs|);
  }

  lemma FinishedWasIssued(s: Reader, p: Places)
    requires ReadPointers(s) && Draining(s) && Returning(s, p) && DrainOk(s) && s.curValid && LastRepo(s)
    ensures s.drain < s.issue
  {
    ReturnedWasIssued(s, p);
    DrainIndex(s);
  }

  lemma EmitCounts(s: Reader, ready: bool)
    requires s.drain <= |s.descs| && Draining(s)
    ensures Emit(s, ready).drain <= |s.descs| && Consumed(Emit(s, ready)) == Consumed(s)
  {
    if DrainOk(s) {
      DrainIndex(s);
    }
  }

  lemma EmitDraining(s: Reader, ready: bool)
    requires s.drain <= |s.descs| && Draining(s)
    ensures Draining(Emit(s, ready))
  {
    if DrainOk(s) {
      DrainIndex(s);
    }
  }

  lemma EmitHolding(s: Reader, ready: bool, mem: Memory)
    requires s.drain <= |s.descs| && Draining(s) && Holding(s, mem)
    ensures Emit(s, ready).drain <= |s.descs| && Holding(Emit(s, ready), mem)
  {
    EmitCounts(s, ready);
    EmitRest(s, ready);
    HoldingLess(s, Emit(s, ready), mem);
  }

  lemma HoldingLess(s: Reader, t: Reader, mem: Memory)
    requires s.drain <= |s.descs| && t.drain <= |t.descs| && Consumed(t) == Consumed(s) && Holding(s, mem)
    requires t.descs == s.descs && t.skid == s.skid && (t.curValid ==> s.curValid && t.curData == s.curData)
    ensures Holding(t, mem)
  {
  }

  lemma EmitKeeps(s: Reader, p: Places, ready: bool, mem: Memory)
    requires ReadInv(s, p, mem) && (DrainErr(s) ==> s.drain < s.issue)
    ensures ReadInv(Emit(s, ready), p, mem)
  {
    EmitCounts(s, ready);
    EmitDraining(s, ready);
    EmitHolding(s, ready, mem);
    EmitRest(s, ready);
    if DrainOk(s) && s.curValid && LastRepo(s) {
      FinishedWasIssued(s, p);
    }
  }

  // ---------------------------------------------------------------- accept

  lemma AcceptedTotals(s: Reader, a: Aw, p: Places)
    requires ReadPointers(s)
    ensures var t := AcceptRead(s, true, a);
            Consumed(t) == Consumed(s) && Total(t.descs, s.issue) == Total(s.descs, s.issue)
            && (p.waiting < |s.descs| ==> Total(t.descs, p.waiting) == Total(s.descs, p.waiting)
                                          && Total(t.descs, p.waiting + 1) == Total(s.descs, p.waiting + 1))
            && (p.active < |s.descs| ==> Total(t.descs, p.active) == Total(s.descs, p.active)
                                         && Total(t.descs, p.active + 1) == Total(s.descs, p.active + 1))
  {
    TotalOfPrefix(s.descs, [a], s.drain);
    TotalOfPrefix(s.descs, [a], s.issue);
    if p.waiting < |s.descs| {
      TotalOfPrefix(s.descs, [a], p.waiting);
      TotalOfPrefix(s.descs, [a], p.waiting + 1);
    }
    if p.active < |s.descs| {
      TotalOfPrefix(s.descs, [a], p.active);
      TotalOfPrefix(s.descs, [a], p.active + 1);
    }
  }

  lemma {:induction false} QueuedGrows(mem: Memory, descs: seq<Aw>, a: Aw, g: int, skid: seq<Wide>)
    requires Queued(mem, descs, g, skid) && g + |skid| <= Total(descs, |descs|)
    ensures Queued(mem, descs + [a], g, skid)
    decreases |skid|
  {
    if |skid| > 0 {
      var n := |skid| - 1;
      QueuedGrows(mem, descs, a, g, skid[..n]);
      StreamGrows(mem, descs, a, g + n);
      QueuedMore(mem, descs + [a], g, skid[..n], skid[n]);
      assert skid[..n] + [skid[n]] == skid;
    }
  }

  lemma AcceptHolding(s: Reader, a: Aw, p: Places, mem: Memory)
    requires ReadPointers(s) && Returning(s, p) && Holding(s, mem)
    ensures Holding(AcceptRead(s, true, a), mem)
  {
    AcceptedTotals(s, a, p);
    ReturnedWasIssued(s, p);
    QueuedGrows(mem, s.descs, a, Consumed(s), s.skid);
    if s.curValid {
      StreamGrows(mem, s.descs, a, Consumed(s) - 1);
    }
  }

  lemma AcceptReturning(s: Reader, a: Aw, p: Places)
    requires ReadPointers(s) && Returning(s, p) && |s.descs| - s.drain != MAX_READS
    ensures ReadPointers(AcceptRead(s, true, a)) && Returning(AcceptRead(s, true, a), p)
  {
    AcceptedTotals(s, a, p);
  }

  lemma AcceptKeeps(s: Reader, a: Aw, p: Places, mem: Memory)
    requires ReadInv(s, p, mem) && |s.descs| - s.drain != MAX_READS
    ensures ReadInv(AcceptRead(s, true, a), p, mem)
  {
    AcceptHolding(s, a, p, mem);
    AcceptReturning(s, a, p);
  }

  // ---------------------------------------------------------------- whole runs

  lemma FilledKeeps(s: Reader, p: Places, i: ReadStimulus, mem: Memory) returns (p': Places)
    requires ReadInv(s, p, mem)
    ensures ReadInv(Filled(s, i, mem), p', mem)
    ensures DrainErr(s) ==> s.drain < Filled(s, i, mem).issue
  {
    p' := PlacesAfter(s, p, s.presenting && ArReady(s, i), ArWant(s, i));
    IssueKeeps(s, p, mem, i);
    IssueReturning(s, p, i);
    var t := Issued(s, i);
    if s.r.rActive && MRready(s) {
      FetchKeeps(t, p', mem);
    }
    HoldKeeps(Fetch(t, mem, s.r.rActive && MRready(s)), p', mem);
  }

  lemma ReadStep(s: Reader, p: Places, i: ReadStimulus, mem: Memory) returns (p': Places)
    requires ReadInv(s, p, mem)
    ensures ReadInv(ReadNext(s, i, mem), p', mem)
  {
    p' := FilledKeeps(s, p, i, mem);
    BypassRefinesFifo(s, i, mem);
    var f := Filled(s, i, mem);
    FilledShape(s, i, mem);
    EmitKeeps(f, p', i.rready, mem);
    if ArFire(s, i) {
      EmitRest(f, i.rready);
      AcceptKeeps(Emit(f, i.rready), i.ar, p', mem);
    }
  }

  /** The answers given so far, the last one perhaps unfinished. */
  function AnsweredSoFar(s: Reader, mem: Memory): seq<RBeat>
    requires s.drain <= |s.descs| && (s.drain == |s.descs| ==> s.repoIndex == 0)
  {
    Answers(mem, s.descs, s.drain)
    + (if s.repoIndex == 0 then [] else AnswerUpTo(mem, s.descs[s.drain], s.repoIndex))
  }

  lemma AnswerGrows(mem: Memory, a: Aw, n: nat)
    ensures AnswerUpTo(mem, a, n + 1) == AnswerUpTo(mem, a, n) + [Answer(mem, a, n)]
  {
  }

  lemma AnsweredGrows(s: Reader, t: Reader, mem: Memory)
    requires s.drain < |s.descs| && t.descs == s.descs
    requires if s.repoIndex + 1 == RepoBeats(s.descs[s.drain]) then t.drain == s.drain + 1 && t.repoIndex == 0
             else t.drain == s.drain && t.repoIndex == s.repoIndex + 1
    ensures AnsweredSoFar(t, mem) == AnsweredSoFar(s, mem) + [Answer(mem, s.descs[s.drain], s.repoIndex)]
  {
    var a := s.descs[s.drain];
    AnswerGrows(mem, a, s.repoIndex);
    assert Answers(mem, s.descs, s.drain + 1) == Answers(mem, s.descs, s.drain) + AnswerUpTo(mem, a, RepoBeats(a));
  }

  lemma EmitAnswers(s: Reader, ready: bool, mem: Memory)
    requires s.drain <= |s.descs| && Draining(s) && Holding(s, mem)
    ensures var e := Emit(s, ready);
            e.drain <= |e.descs| && Draining(e)
            && AnsweredSoFar(e, mem) == AnsweredSoFar(s, mem) + if HasOutput(s) && ready then [HeldOutput(s)] else []
  {
    EmitDraining(s, ready);
    if HasOutput(s) && ready {
      OutputIsAnswer(s, mem);
      AnsweredGrows(s, Emit(s, ready), mem);
    }
  }

  lemma {:induction false} AnswersOfPrefix(mem: Memory, descs: seq<Aw>, a: Aw, n: nat)
    requires n <= |descs|
    ensures Answers(mem, descs + [a], n) == Answers(mem, descs, n)
  {
    if n > 0 {
      AnswersOfPrefix(mem, descs, a, n - 1);
    }
  }

  lemma StepAnswers(s: Reader, p: Places, i: ReadStimulus, mem: Memory)
    requires ReadInv(s, p, mem) && ReadPointers(ReadNext(s, i, mem)) && Draining(ReadNext(s, i, mem))
    ensures AnsweredSoFar(ReadNext(s, i, mem), mem)
         == AnsweredSoFar(s, mem) + if RFire(s, i) then [Output(s, mem)] else []
    ensures ReadNext(s, i, mem).descs == s.descs + if ArFire(s, i) then [i.ar] else []
  {
    var _ := FilledKeeps(s, p, i, mem);
    BypassRefinesFifo(s, i, mem);
    FilledShape(s, i, mem);
    var f := Filled(s, i, mem);
    EmitAnswers(f, i.rready, mem);
    EmitRest(f, i.rready);
    if ArFire(s, i) {
      AnswersOfPrefix(mem, s.descs, i.ar, Emit(f, i.rready).drain);
    }
  }

  lemma ReadStarts(mem: Memory)
    ensures ReadInv(READ_RESET, Places(0, 0), mem)
  {
  }

  /** Under any stalls, hazards, back-pressure and mix of legal and refused reads, over
      unchanging memory, the master receives exactly the answers to the reads it had
      accepted, in order, whole and uninterleaved: the bytes at start + 16 * i of a legal
      read with its id, OKAY and RLAST on the final beat only; as many zero SLVERR beats of
      a refused one.  At most two beats wait in the skid. */
  lemma {:induction false} ReadsReturnMemory(ins: seq<ReadStimulus>, mem: Memory) returns (p: Places)
    ensures var s := ReadRun(READ_RESET, ins, mem);
            ReadInv(s, p, mem) && |s.skid| <= 2
            && s.descs == Accepted(ins, mem) && Received(ins, mem) == AnsweredSoFar(s, mem)
    decreases |ins|
  {
    if |ins| == 0 {
      p := Places(0, 0);
      ReadStarts(mem);
    } else {
      var n := |ins| - 1;
      var p0 := ReadsReturnMemory(ins[..n], mem);
      var s := ReadRun(READ_RESET, ins[..n], mem);
      p := ReadStep(s, p0, ins[n], mem);
      StepAnswers(s, p0, ins[n], mem);
    }
  }

  // ---------------------------------------------------------------- write, then read

  /** Byte b of beat i, after the first n beats of a burst have been stored. */
  lemma {:induction false} StoredByte(mem: Memory, addr: int, beats: seq<WBeat>, i: nat, b: nat)
    requires i < |beats| <= 256 && b < 16 && (forall k :: 0 <= k < 16 ==> beats[i].half.strb[k])
    ensures Load(StoreBeats(mem, addr, beats), LaneAddress(addr + 16 * i, b)) == beats[i].half.data[b]
    decreases |beats|
  {
    var n := |beats| - 1;
    var before := StoreBeats(mem, addr, beats[..n]);
    var h := beats[n].half;
    var at := addr + 16 * n;
    if i == n {
      LoadWrittenLane(before, at, h.data, h.strb, b);
    } else {
      StoredByte(mem, addr, beats[..n], i, b);
      forall k | 0 <= k < 16
        ensures LaneAddress(at, k) != LaneAddress(addr + 16 * i, b)
      {
        if LaneAddress(addr, 16 * n + k) == LaneAddress(addr, 16 * i + b) {
          SameAddress(addr, 16 * n + k, 16 * i + b);
        }
      }
      LoadOtherAddress(before, at, h.data, h.strb, LaneAddress(addr + 16 * i, b));
    }
  }

  /** Reading a burst back where it was just written, with all strobes set, returns it. */
  lemma BurstReadsBack(mem: Memory, d: Desc, a: Aw, i: nat)
    requires Legal(d.aw) && |d.beats| == RepoBeats(d.aw) && Covered(d.aw, d.beats) == |d.beats|
    requires Legal(a) && a.addr == d.aw.addr && a.len == d.aw.len && i < |d.beats|
    requires forall k :: 0 <= k < 16 ==> d.beats[i].half.strb[k]
    ensures Answer(StoreBurst(mem, d), a, i) == RBeat(a.id, d.beats[i].half.data, true, i == |d.beats| - 1)
  {
    assert d.beats[..|d.beats|] == d.beats;
    forall b | 0 <= b < 16
      ensures ReadLanes(StoreBurst(mem, d), Start(a) + 16 * i, 16)[b] == d.beats[i].half.data[b]
    {
      StoredByte(mem, Start(a), d.beats, i, b);
    }
  }
}
