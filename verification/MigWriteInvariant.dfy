/** What every part of a cycle keeps, on the unrolled queue. */
module MigWriteInvariant {
  import opened Bytes
  import opened MigWriteQueue

  predicate Pointers(q: Queue) {
    q.cp <= q.aw <= |q.descs| && q.cp <= q.dp <= |q.descs| && |q.descs| <= q.cp + 4
    && q.popped <= |q.log| <= q.popped + 2
  }

  /** The descriptor whose burst the packer is filling. */
  function OpenIdx(q: Queue): nat {
    if q.padActive then q.padIdx else q.dp
  }

  predicate FlagsAt(q: Queue, j: nat)
    requires j < |q.descs|
  {
    var d := q.descs[j];
    (d.dataDone <==> j < q.dp)
    && (d.awIssued ==> j < q.aw)
    && (j < q.aw && !d.awIssued ==> !d.ok && !d.touched)
    && (j > q.dp ==> !d.touched && d.beats == [])
    && (j >= q.dp ==> d.ok == Legal(d.aw))
    && (j < q.dp && d.ok ==> d.touched)
    && (d.ok || d.touched ==> Legal(d.aw))
    && (d.migDone ==> d.touched && d.awIssued && j < OpenIdx(q))
    && (d.awIssued && !d.migDone ==> q.w.wActive && q.cur == j)
    && (j < q.cp && d.touched ==> d.migDone)
  }

  predicate Flags(q: Queue) {
    forall j :: 0 <= j < |q.descs| ==> FlagsAt(q, j)
  }

  predicate Presenting(q: Queue) {
    q.presenting ==> AwPending(q) && (q.descs[q.aw].ok || q.descs[q.aw].touched)
  }

  /** The index of the next 32-byte beat of that burst. */
  function NextK(q: Queue): int {
    if q.padActive && q.padIdx < |q.descs| then MigBeats(q.descs[q.padIdx].aw) - q.padRemaining else q.pushed
  }

  predicate PadState(q: Queue) {
    if q.padActive then
      q.padIdx + 1 == q.dp && q.padIdx < |q.descs| && q.descs[q.padIdx].touched
      && 1 <= q.padRemaining <= MigBeats(q.descs[q.padIdx].aw)
      && q.recv == 0
    else q.padRemaining == 0
  }

  predicate Packing(q: Queue) {
    (q.dp == |q.descs| ==> q.recv == 0)
    && (q.recv == 0 ==> q.pushed == 0 && !q.packValid)
    && (q.dp < |q.descs| ==>
          var d := q.descs[q.dp];
          |d.beats| == q.recv < RepoBeats(d.aw)
          && (forall i :: 0 <= i < q.recv ==> !d.beats[i].last)
          && q.pushed == (if d.ok then (Addr4(d.aw) + q.recv) / 2 else 0)
          && (d.touched <==> q.pushed > 0)
          && q.packValid == (Upper(d.aw, q.recv) && q.recv > 0)
          && (q.packValid ==> q.packHalf == d.beats[q.recv - 1].half))
  }

  predicate EntryOk(q: Queue, e: LogBeat) {
    e.idx < |q.descs| && q.descs[e.idx].touched && e.idx <= OpenIdx(q)
    && e.k < MigBeats(q.descs[e.idx].aw)
    && e.last == (e.k + 1 == MigBeats(q.descs[e.idx].aw))
    && e.addr == Base(q.descs[e.idx].aw) + 32 * e.k
    && (e.idx == OpenIdx(q) ==> e.k < NextK(q))
  }

  predicate Entries(q: Queue) {
    forall p :: 0 <= p < |q.log| ==> EntryOk(q, q.log[p])
  }

  predicate Follows(e: LogBeat, f: LogBeat) {
    if e.last then e.idx < f.idx && f.k == 0 else f.idx == e.idx && f.k == e.k + 1
  }

  predicate Before(e: LogBeat, f: LogBeat) {
    e.idx <= f.idx && (e.last ==> e.idx < f.idx)
  }

  predicate Chain(log: seq<LogBeat>) {
    (|log| > 0 ==> log[0].k == 0)
    && (forall p, r :: 0 <= p < |log| && r == p + 1 < |log| ==> Follows(log[p], log[r]))
    && (forall p, r :: 0 <= p < r < |log| ==> Before(log[p], log[r]))
  }

  /** The last beat pushed is the one just before the next one due. */
  predicate Tail(q: Queue) {
    if NextK(q) > 0 then
      |q.log| > 0 && q.log[|q.log| - 1].idx == OpenIdx(q) && q.log[|q.log| - 1].k == NextK(q) - 1
    else |q.log| > 0 ==> q.log[|q.log| - 1].last
  }

  predicate Log(q: Queue) {
    Entries(q) && Chain(q.log) && Tail(q)
  }

  /** The memory controller is working on descriptor `cur`, `taken` beats into it. */
  predicate ControllerState(q: Queue) {
    !q.w.awHave
    && (q.w.wActive ==>
          q.cur < |q.descs| && q.descs[q.cur].awIssued
          && q.taken < MigBeats(q.descs[q.cur].aw)
          && q.w.wBeatsLeft == MigBeats(q.descs[q.cur].aw) - 1 - q.taken
          && q.w.wAddr == Base(q.descs[q.cur].aw) + 32 * q.taken
          && !q.w.bPending)
    && (if q.w.wActive && q.taken > 0 then
          q.popped > 0 && q.popped <= |q.log|
          && q.log[q.popped - 1].idx == q.cur && q.log[q.popped - 1].k == q.taken - 1
        else 0 < q.popped <= |q.log| ==> q.log[q.popped - 1].last)
  }

  predicate WaitingAt(q: Queue, e: LogBeat) {
    e.idx < |q.descs| && (q.descs[e.idx].awIssued ==> q.w.wActive && e.idx == q.cur)
    && !q.descs[e.idx].migDone
  }

  /** A beat still in the skid belongs to a burst the controller has not finished. */
  predicate Waiting(q: Queue) {
    forall p :: q.popped <= p < |q.log| ==> WaitingAt(q, q.log[p])
  }

  predicate Inv(q: Queue) {
    Pointers(q) && Flags(q) && Presenting(q) && PadState(q) && Packing(q) && Log(q) && ControllerState(q) && Waiting(q)
  }

  predicate Contents(q: Queue, mem0: Memory) {
    q.popped <= |q.log|
    && q.mem == LogMem(mem0, q.log[..q.popped])
    && LogMem(mem0, q.log) == SpecMem(mem0, q.descs)
  }

  // ---------------------------------------------------------------- frames

  predicate SameBeats(d: Desc, e: Desc) {
    d.aw == e.aw && (d.touched ==> e.touched)
  }

  /** The log stays in shape as long as its descriptors keep their addresses. */
  lemma LogFrame(q: Queue, q': Queue)
    requires Log(q) && q'.log == q.log && |q.descs| <= |q'.descs|
    requires forall j :: 0 <= j < |q.descs| ==> SameBeats(q.descs[j], q'.descs[j])
    requires OpenIdx(q') == OpenIdx(q) && NextK(q') == NextK(q)
    ensures Log(q')
  {
    forall p | 0 <= p < |q'.log|
      ensures EntryOk(q', q'.log[p])
    {
      assert EntryOk(q, q.log[p]);
      assert SameBeats(q.descs[q.log[p].idx], q'.descs[q.log[p].idx]);
    }
  }

  lemma WaitingFrame(q: Queue, q': Queue)
    requires Waiting(q) && q'.log == q.log && q'.popped == q.popped && |q.descs| <= |q'.descs|
    requires q'.w.wActive == q.w.wActive && q'.cur == q.cur
    requires forall j :: 0 <= j < |q.descs| ==>
               q'.descs[j].awIssued == q.descs[j].awIssued && q'.descs[j].migDone == q.descs[j].migDone
    ensures Waiting(q')
  {
    forall p | q'.popped <= p < |q'.log|
      ensures WaitingAt(q', q'.log[p])
    {
      assert WaitingAt(q, q.log[p]);
    }
  }

  // ---------------------------------------------------------------- pop

  /** The head of the skid is the beat the controller expects next, and the two sides
      agree on which beat is the last of the burst. */
  lemma HeadIsExpected(q: Queue, i: Stimulus)
    requires Inv(q) && CanPop(q, i)
    ensures q.log[q.popped].idx == q.cur && q.log[q.popped].k == q.taken
    ensures q.log[q.popped].addr == q.w.wAddr
    ensures q.log[q.popped].last <==> q.w.wBeatsLeft == 0
  {
    var e := q.log[q.popped];
    assert WaitingAt(q, e) && EntryOk(q, e);
    if q.popped > 0 {
      assert Follows(q.log[q.popped - 1], e);
    }
  }

  lemma PopFlags(q: Queue, i: Stimulus)
    requires Inv(q) && CanPop(q, i)
    ensures var q' := Pop(q); Pointers(q') && Flags(q') && Presenting(q') && PadState(q') && Packing(q')
  {
    HeadIsExpected(q, i);
    assert EntryOk(q, q.log[q.popped]);
    PoppedFlags(q, i);
  }

  lemma PoppedFlags(q: Queue, i: Stimulus)
    requires Inv(q) && CanPop(q, i)
    ensures q.log[q.popped].idx < |q.descs| && Flags(Pop(q))
  {
    HeadIsExpected(q, i);
    var q' := Pop(q);
    var e := q.log[q.popped];
    assert EntryOk(q, e);
    assert FlagsAt(q, e.idx);
    if e.last && e.idx >= q.dp {
      assert false;
    }
    forall j | 0 <= j < |q'.descs|
      ensures FlagsAt(q', j)
    {
      assert FlagsAt(q, j);
    }
  }

  lemma PopLog(q: Queue, i: Stimulus)
    requires Inv(q) && CanPop(q, i)
    ensures var q' := Pop(q); Log(q') && Waiting(q')
  {
    HeadIsExpected(q, i);
    var q' := Pop(q);
    var e := q.log[q.popped];
    LogFrame(q, q');
    forall p | q'.popped <= p < |q'.log|
      ensures WaitingAt(q', q'.log[p])
    {
      assert WaitingAt(q, q.log[p]);
      assert Before(e, q.log[p]);
    }
  }

  lemma PopController(q: Queue, i: Stimulus)
    requires Inv(q) && CanPop(q, i)
    ensures ControllerState(Pop(q))
  {
    HeadIsExpected(q, i);
  }

  lemma PopKeeps(q: Queue, i: Stimulus)
    requires Inv(q) && CanPop(q, i)
    ensures Inv(Pop(q))
  {
    PopFlags(q, i);
    PopLog(q, i);
    PopController(q, i);
  }

  lemma PopContents(q: Queue, i: Stimulus, mem0: Memory)
    requires Inv(q) && CanPop(q, i) && Contents(q, mem0)
    ensures Contents(Pop(q), mem0)
  {
    HeadIsExpected(q, i);
    assert q.log[..q.popped + 1][..q.popped] == q.log[..q.popped];
    SameBursts(mem0, q.descs, Pop(q).descs);
  }

  /** The specification looks only at the addresses and beats of the descriptors. */
  lemma {:induction false} SameBursts(mem: Memory, d: seq<Desc>, e: seq<Desc>)
    requires |d| == |e|
    requires forall j :: 0 <= j < |d| ==> d[j].aw == e[j].aw && d[j].beats == e[j].beats
    ensures SpecMem(mem, d) == SpecMem(mem, e)
    decreases |d|
  {
    if |d| != 0 {
      SameBursts(mem, d[..|d| - 1], e[..|e| - 1]);
    }
  }

  // ---------------------------------------------------------------- address issue

  lemma ShakeFlags(q: Queue, i: Stimulus)
    requires Inv(q) && AwShakes(q, i)
    ensures var q' := AwShake(q); Pointers(q') && Flags(q') && Presenting(q') && PadState(q') && Packing(q')
  {
    var q' := AwShake(q);
    forall j | 0 <= j < |q'.descs|
      ensures FlagsAt(q', j)
    {
      assert FlagsAt(q, j);
    }
  }

  lemma ShakeLog(q: Queue, i: Stimulus)
    requires Inv(q) && AwShakes(q, i)
    ensures var q' := AwShake(q); Log(q') && Waiting(q')
  {
    var q' := AwShake(q);
    LogFrame(q, q');
    forall p | q'.popped <= p < |q'.log|
      ensures WaitingAt(q', q'.log[p])
    {
      assert WaitingAt(q, q.log[p]);
      assert EntryOk(q, q.log[p]);
      assert FlagsAt(q, q.log[p].idx);
    }
  }

  lemma ShakeController(q: Queue, i: Stimulus)
    requires Inv(q) && AwShakes(q, i) && !q.w.bPending
    ensures ControllerState(AwShake(q))
  {
  }

  /** The decisions are taken on the state the cycle started in. */
  lemma AwStageKeeps(q: Queue, i: Stimulus, shakes: bool, skips: bool, wants: bool)
    requires Inv(q)
    requires shakes ==> AwShakes(q, i) && !q.w.bPending
    requires skips ==> AwSkips(q)
    requires wants ==> AwEligible(q)
    ensures Inv(AwStage(q, shakes, skips, wants))
  {
    if shakes {
      ShakeFlags(q, i);
      ShakeLog(q, i);
      ShakeController(q, i);
    } else {
      MovedPointer(q, AwStage(q, false, skips, wants));
    }
  }

  /** Moving the address pointer or raising AWVALID disturbs nothing else. */
  lemma MovedPointer(q: Queue, q': Queue)
    requires Inv(q)
    requires q' == q.(aw := q'.aw, presenting := q'.presenting)
    requires (q'.aw == q.aw && (q'.presenting == q.presenting || AwEligible(q)))
             || (q'.aw == q.aw + 1 && AwSkips(q) && !q'.presenting)
    ensures Inv(q')
  {
    MovedFlags(q, q');
    LogFrame(q, q');
    WaitingFrame(q, q');
  }

  lemma MovedFlags(q: Queue, q': Queue)
    requires Flags(q) && q' == q.(aw := q'.aw, presenting := q'.presenting)
    requires q'.aw == q.aw || (q'.aw == q.aw + 1 && AwSkips(q))
    ensures Flags(q')
  {
    forall j | 0 <= j < |q'.descs|
      ensures FlagsAt(q', j)
    {
      assert FlagsAt(q, j);
    }
  }

  // ---------------------------------------------------------------- responses and commit

  lemma ResponseKeeps(q: Queue, fire: bool)
    requires Inv(q) && (fire ==> !q.w.wActive)
    ensures Inv(TakeResponse(q, fire))
  {
    var q' := TakeResponse(q, fire);
    ResponseFlags(q, fire);
    LogFrame(q, q');
    WaitingFrame(q, q');
  }

  lemma ResponseFlags(q: Queue, fire: bool)
    requires Flags(q)
    ensures Flags(TakeResponse(q, fire))
  {
    forall j | 0 <= j < |q.descs|
      ensures FlagsAt(TakeResponse(q, fire), j)
    {
      assert FlagsAt(q, j);
    }
  }

  lemma CommitFlags(q: Queue)
    requires Pointers(q) && Flags(q) && CommitReady(q)
    ensures Flags(Commit(q, true)) && q.cp < q.dp
  {
    var q' := Commit(q, true);
    assert FlagsAt(q, q.cp);
    forall j | 0 <= j < |q'.descs|
      ensures FlagsAt(q', j)
    {
      assert FlagsAt(q, j);
    }
  }

  lemma CommitKeeps(q: Queue)
    requires Inv(q) && CommitReady(q) && q.cp < q.aw
    ensures Inv(Commit(q, true))
  {
    CommitFlags(q);
    LogFrame(q, Commit(q, true));
    WaitingFrame(q, Commit(q, true));
  }

  /** A descriptor answered in a cycle that starts with the address pointer still on it
      is one the pointer skips in that same cycle. */
  lemma CommitBehindPointer(q: Queue)
    requires Inv(q) && CommitReady(q)
    ensures q.cp < q.aw || AwSkips(q)
  {
    assert FlagsAt(q, q.cp);
  }

  // ---------------------------------------------------------------- accept

  lemma AcceptFlags(q: Queue, a: Aw)
    requires Inv(q) && |q.descs| < q.cp + 4
    ensures var q' := Accept(q, true, a); Pointers(q') && Flags(q') && Presenting(q')
  {
    var q' := Accept(q, true, a);
    forall j | 0 <= j < |q'.descs|
      ensures FlagsAt(q', j)
    {
      if j < |q.descs| {
        assert FlagsAt(q, j);
      }
    }
  }

  lemma AcceptKeeps(q: Queue, a: Aw)
    requires Inv(q) && |q.descs| < q.cp + 4
    ensures Inv(Accept(q, true, a))
  {
    var q' := Accept(q, true, a);
    AcceptFlags(q, a);
    LogFrame(q, q');
    WaitingFrame(q, q');
  }

  lemma AcceptContents(q: Queue, a: Aw, mem0: Memory)
    requires Contents(q, mem0)
    ensures Contents(Accept(q, true, a), mem0)
  {
    var q' := Accept(q, true, a);
    assert q'.descs[..|q.descs|] == q.descs;
  }

  // ---------------------------------------------------------------- consume

  /** The 32-byte beat an incoming 16-byte beat falls in, against the promised count. */
  lemma HalfIndex(a: Aw, recv: nat)
    requires recv < RepoBeats(a) && Legal(a)
    ensures (Addr4(a) + recv) / 2 < MigBeats(a)
    ensures LastExpected(a, recv) ==> (Addr4(a) + recv) / 2 + 1 == MigBeats(a)
    ensures !LastExpected(a, recv) && Upper(a, recv) ==> (Addr4(a) + recv) / 2 + 1 < MigBeats(a)
    ensures (Addr4(a) + recv + 1) / 2 == (Addr4(a) + recv) / 2 + (if Upper(a, recv) then 1 else 0)
  {
  }

  lemma ConsumeFlags(q: Queue, i: Stimulus)
    requires Inv(q) && CanConsume(q, i)
    ensures var q' := Consume(q, i.w); Pointers(q') && Flags(q') && Presenting(q')
  {
    var q' := Consume(q, i.w);
    var d := q.descs[q.dp];
    assert FlagsAt(q, q.dp);
    if Legal(d.aw) {
      HalfIndex(d.aw, q.recv);
    }
    forall j | 0 <= j < |q'.descs|
      ensures FlagsAt(q', j)
    {
      assert FlagsAt(q, j);
    }
  }

  lemma ConsumePacking(q: Queue, i: Stimulus)
    requires Inv(q) && CanConsume(q, i)
    ensures var q' := Consume(q, i.w); PadState(q') && Packing(q')
  {
    var q' := Consume(q, i.w);
    var d := q.descs[q.dp];
    assert FlagsAt(q, q.dp);
    if Legal(d.aw) {
      HalfIndex(d.aw, q.recv);
    }
    if q'.dp == q.dp + 1 && q'.dp < |q'.descs| {
      assert FlagsAt(q, q.dp + 1);
    }
  }

  lemma ConsumeEntries(q: Queue, i: Stimulus)
    requires Inv(q) && CanConsume(q, i)
    ensures var q' := Consume(q, i.w); Entries(q') && Tail(q')
  {
    var q' := Consume(q, i.w);
    var d := q.descs[q.dp];
    assert FlagsAt(q, q.dp);
    if Legal(d.aw) {
      HalfIndex(d.aw, q.recv);
    }
    forall p | 0 <= p < |q'.log|
      ensures EntryOk(q', q'.log[p])
    {
      if p < |q.log| {
        assert EntryOk(q, q.log[p]);
      }
    }
  }

  lemma ExtendedChain(q: Queue, e: LogBeat)
    requires Log(q) && e.idx == OpenIdx(q) && e.k == NextK(q)
    requires e.idx < |q.descs| && e.k < MigBeats(q.descs[e.idx].aw)
    ensures Chain(q.log + [e])
  {
    var log := q.log + [e];
    forall p, r | 0 <= p < r < |log|
      ensures Before(log[p], log[r])
    {
      assert EntryOk(q, q.log[p]);
      if r < |q.log| {
        assert Before(q.log[p], q.log[r]);
      } else if q.log[p].last && p < |q.log| - 1 {
        assert Before(q.log[p], q.log[|q.log| - 1]);
        assert EntryOk(q, q.log[|q.log| - 1]);
      }
    }
  }

  lemma ConsumeWaiting(q: Queue, i: Stimulus)
    requires Inv(q) && CanConsume(q, i)
    ensures var q' := Consume(q, i.w); Chain(q'.log) && Waiting(q') && ControllerState(q')
  {
    var q' := Consume(q, i.w);
    var d := q.descs[q.dp];
    assert FlagsAt(q, q.dp);
    if |q'.log| > |q.log| {
      HalfIndex(d.aw, q.recv);
      ExtendedChain(q, RealEntry(q, i.w));
    }
    forall p | q'.popped <= p < |q'.log|
      ensures WaitingAt(q', q'.log[p])
    {
      if p < |q.log| {
        assert WaitingAt(q, q.log[p]);
      }
    }
  }

  lemma ConsumeKeeps(q: Queue, i: Stimulus)
    requires Inv(q) && CanConsume(q, i)
    ensures Inv(Consume(q, i.w))
  {
    ConsumeFlags(q, i);
    ConsumePacking(q, i);
    ConsumeEntries(q, i);
    ConsumeWaiting(q, i);
  }

  // ---------------------------------------------------------------- padding

  lemma PadFlags(q: Queue)
    requires Inv(q) && CanPad(q)
    ensures var q' := Pad(q);
            Pointers(q') && Flags(q') && Presenting(q') && PadState(q') && Packing(q') && ControllerState(q')
  {
    var q' := Pad(q);
    forall j | 0 <= j < |q'.descs|
      ensures FlagsAt(q', j)
    {
      assert FlagsAt(q, j);
    }
  }

  lemma PadLog(q: Queue)
    requires Pointers(q) && PadState(q) && Packing(q) && Log(q) && CanPad(q)
    ensures Log(Pad(q))
  {
    var q' := Pad(q);
    ExtendedChain(q, PadEntry(q));
    forall p | 0 <= p < |q'.log|
      ensures EntryOk(q', q'.log[p])
    {
      if p < |q.log| {
        assert EntryOk(q, q.log[p]);
      }
    }
  }

  lemma PadKeeps(q: Queue)
    requires Inv(q) && CanPad(q)
    ensures Inv(Pad(q))
  {
    var q' := Pad(q);
    PadFlags(q);
    PadLog(q);
    forall p | q'.popped <= p < |q'.log|
      ensures WaitingAt(q', q'.log[p])
    {
      if p < |q.log| {
        assert WaitingAt(q, q.log[p]);
      } else {
        assert FlagsAt(q, q.padIdx);
      }
    }
  }

  lemma PadContents(q: Queue, mem0: Memory)
    requires Inv(q) && CanPad(q) && Contents(q, mem0)
    ensures Contents(Pad(q), mem0)
  {
    var q' := Pad(q);
    assert q'.log[..|q.log|] == q.log;
    assert q'.log[..q.popped] == q.log[..q.popped];
    WriteFiller(LogMem(mem0, q.log), PadEntry(q).addr);
  }

  // ---------------------------------------------------------------- contents

  /** Descriptors that have received nothing store nothing. */
  lemma {:induction false} SpecOfStarted(mem: Memory, descs: seq<Desc>, n: nat)
    requires n <= |descs|
    requires forall j :: n <= j < |descs| ==> descs[j].beats == []
    ensures SpecMem(mem, descs) == SpecMem(mem, descs[..n])
    decreases |descs|
  {
    if |descs| == n {
      assert descs[..n] == descs;
    } else {
      var front := descs[..|descs| - 1];
      assert front[..n] == descs[..n];
      SpecOfStarted(mem, front, n);
    }
  }

  /** Where the packed beat goes, in 16-byte steps from the start of the burst. */
  lemma PackedAddress(a: Aw, recv: nat)
    requires Legal(a)
    ensures Start(a) == Base(a) + 16 * Addr4(a)
    ensures Upper(a, recv) ==> Base(a) + 32 * ((Addr4(a) + recv) / 2) + 16 == Start(a) + 16 * recv
    ensures !Upper(a, recv) ==> Base(a) + 32 * ((Addr4(a) + recv) / 2) == Start(a) + 16 * recv
  {
    assert a.addr % TWO_31 == a.addr;
  }

  /** What each kind of completed 32-byte beat stores: two 16-byte beats, a lone upper one,
      a lone lower one. */
  lemma PairStores(m: Memory, at: int, lo: Half, hi: Half)
    ensures WriteBeat(m, at, Join(lo, hi)) == WriteHalf(WriteHalf(m, at, lo), at + 16, hi)
    ensures WriteBeat(m, at, Join(EMPTY_HALF, hi)) == WriteHalf(m, at + 16, hi)
    ensures WriteBeat(m, at, Join(lo, EMPTY_HALF)) == WriteHalf(m, at, lo)
  {
    WriteJoined(m, at, lo, hi);
    WriteJoined(m, at, EMPTY_HALF, hi);
    WriteEmptyHalf(m, at);
    WriteJoined(m, at, lo, EMPTY_HALF);
    WriteEmptyHalf(WriteHalf(m, at, lo), at + 16);
  }

  lemma StoreOneMore(m: Memory, addr: int, beats: seq<WBeat>, w: WBeat)
    ensures StoreBeats(m, addr, beats + [w]) == WriteHalf(StoreBeats(m, addr, beats), addr + 16 * |beats|, w.half)
  {
    assert (beats + [w])[..|beats|] == beats;
  }

  lemma StoreSplits(m: Memory, addr: int, beats: seq<WBeat>)
    requires |beats| > 0
    ensures StoreBeats(m, addr, beats)
         == WriteHalf(StoreBeats(m, addr, beats[..|beats| - 1]), addr + 16 * (|beats| - 1), beats[|beats| - 1].half)
  {
  }

  lemma CoveredBefore(a: Aw, beats: seq<WBeat>, w: WBeat)
    requires Legal(a) && |beats| < RepoBeats(a)
    requires |beats| > 0 ==> !beats[|beats| - 1].last
    requires Completes(a, |beats|, w.last) && WlastOk(a, |beats|, w.last)
    ensures Covered(a, beats + [w]) == |beats| + 1
    ensures Covered(a, beats) == if Upper(a, |beats|) && |beats| > 0 then |beats| - 1 else |beats|
  {
    assert (beats + [w])[|beats|] == w;
  }

  /** Storing a completed 32-byte beat is storing the one or two 16-byte beats in it. */
  lemma {:induction false} PackedStores(m: Memory, a: Aw, beats: seq<WBeat>, w: WBeat, held: Half)
    requires Legal(a) && |beats| < RepoBeats(a)
    requires |beats| > 0 ==> !beats[|beats| - 1].last
    requires Upper(a, |beats|) && |beats| > 0 ==> held == beats[|beats| - 1].half
    requires Completes(a, |beats|, w.last) && WlastOk(a, |beats|, w.last)
    ensures StoreBeats(m, Start(a), (beats + [w])[..Covered(a, beats + [w])])
         == WriteBeat(StoreBeats(m, Start(a), beats[..Covered(a, beats)]),
                      Base(a) + 32 * ((Addr4(a) + |beats|) / 2),
                      Packed(a, |beats|, Upper(a, |beats|) && |beats| > 0, held, w.half))
  {
    var r := |beats|;
    CoveredBefore(a, beats, w);
    assert (beats + [w])[..r + 1] == beats + [w];
    if Upper(a, r) && r > 0 {
      PairPacked(m, a, beats, w, held);
    } else {
      assert beats[..r] == beats;
      OnePacked(m, a, beats, w, held);
    }
  }

  lemma PairPacked(m: Memory, a: Aw, beats: seq<WBeat>, w: WBeat, held: Half)
    requires Legal(a) && 0 < |beats| < RepoBeats(a) && Upper(a, |beats|) && held == beats[|beats| - 1].half
    ensures StoreBeats(m, Start(a), beats + [w])
         == WriteBeat(StoreBeats(m, Start(a), beats[..|beats| - 1]),
                      Base(a) + 32 * ((Addr4(a) + |beats|) / 2), Packed(a, |beats|, true, held, w.half))
  {
    var r := |beats|;
    PackedAddress(a, r);
    StoreOneMore(m, Start(a), beats, w);
    PairStores(StoreBeats(m, Start(a), beats[..r - 1]), Base(a) + 32 * ((Addr4(a) + r) / 2), held, w.half);
    StoreSplits(m, Start(a), beats);
  }

  lemma OnePacked(m: Memory, a: Aw, beats: seq<WBeat>, w: WBeat, held: Half)
    requires Legal(a) && |beats| < RepoBeats(a) && !(Upper(a, |beats|) && |beats| > 0)
    ensures StoreBeats(m, Start(a), beats + [w])
         == WriteBeat(StoreBeats(m, Start(a), beats),
                      Base(a) + 32 * ((Addr4(a) + |beats|) / 2), Packed(a, |beats|, false, held, w.half))
  {
    var r := |beats|;
    PackedAddress(a, r);
    StoreOneMore(m, Start(a), beats, w);
    PairStores(StoreBeats(m, Start(a), beats), Base(a) + 32 * ((Addr4(a) + r) / 2), w.half, w.half);
  }

  lemma UnpackedStores(a: Aw, beats: seq<WBeat>, w: WBeat)
    requires |beats| < RepoBeats(a)
    requires |beats| > 0 ==> !beats[|beats| - 1].last
    requires !(Legal(a) && Completes(a, |beats|, w.last) && WlastOk(a, |beats|, w.last))
    ensures (beats + [w])[..Covered(a, beats + [w])] == beats[..Covered(a, beats)]
  {
  }

  lemma SpecAtCurrent(mem: Memory, descs: seq<Desc>, n: nat)
    requires n < |descs|
    requires forall j :: n < j < |descs| ==> descs[j].beats == []
    ensures SpecMem(mem, descs) == StoreBurst(SpecMem(mem, descs[..n]), descs[n])
  {
    SpecOfStarted(mem, descs, n + 1);
    assert descs[..n + 1][..n] == descs[..n];
  }

  lemma ConsumeSpec(q: Queue, w: WBeat, mem0: Memory)
    requires Flags(q) && q.dp < |q.descs|
    ensures var q' := Consume(q, w);
            var before := SpecMem(mem0, q.descs[..q.dp]);
            SpecMem(mem0, q.descs) == StoreBurst(before, q.descs[q.dp])
            && SpecMem(mem0, q'.descs) == StoreBurst(before, q'.descs[q.dp])
  {
    var q' := Consume(q, w);
    forall j | q.dp < j < |q.descs|
      ensures q.descs[j].beats == [] && q'.descs[j].beats == []
    {
      assert FlagsAt(q, j);
    }
    SpecAtCurrent(mem0, q.descs, q.dp);
    SpecAtCurrent(mem0, q'.descs, q.dp);
    assert q'.descs[..q.dp] == q.descs[..q.dp];
  }

  lemma PushedBurst(q: Queue, w: WBeat, m: Memory)
    requires Flags(q) && Packing(q) && q.dp < |q.descs|
    requires NeedPush(q.descs[q.dp].aw, q.descs[q.dp].ok, q.recv, w.last)
    ensures StoreBurst(m, ConsumedDesc(q, w))
         == WriteBeat(StoreBurst(m, q.descs[q.dp]), RealEntry(q, w).addr, RealEntry(q, w).beat)
  {
    var d := q.descs[q.dp];
    assert FlagsAt(q, q.dp);
    assert ConsumedDesc(q, w).aw == d.aw && ConsumedDesc(q, w).beats == d.beats + [w];
    PackedStores(m, d.aw, d.beats, w, q.packHalf);
  }

  lemma PushedContents(q: Queue, w: WBeat, mem0: Memory)
    requires Flags(q) && Packing(q) && q.dp < |q.descs|
    requires NeedPush(q.descs[q.dp].aw, q.descs[q.dp].ok, q.recv, w.last)
    requires LogMem(mem0, q.log) == SpecMem(mem0, q.descs)
    ensures LogMem(mem0, q.log + [RealEntry(q, w)]) == SpecMem(mem0, Consume(q, w).descs)
  {
    var log' := q.log + [RealEntry(q, w)];
    ConsumeSpec(q, w, mem0);
    assert log'[..|q.log|] == q.log;
    PushedBurst(q, w, SpecMem(mem0, q.descs[..q.dp]));
  }

  lemma HeldContents(q: Queue, w: WBeat, mem0: Memory)
    requires Flags(q) && Packing(q) && q.dp < |q.descs|
    requires !NeedPush(q.descs[q.dp].aw, q.descs[q.dp].ok, q.recv, w.last)
    ensures SpecMem(mem0, q.descs) == SpecMem(mem0, Consume(q, w).descs)
  {
    var d := q.descs[q.dp];
    assert FlagsAt(q, q.dp);
    ConsumeSpec(q, w, mem0);
    UnpackedStores(d.aw, d.beats, w);
  }

  lemma ConsumeContents(q: Queue, i: Stimulus, mem0: Memory)
    requires Inv(q) && CanConsume(q, i) && Contents(q, mem0)
    ensures Contents(Consume(q, i.w), mem0)
  {
    var q' := Consume(q, i.w);
    assert q'.log[..q.popped] == q.log[..q.popped];
    if NeedPush(q.descs[q.dp].aw, q.descs[q.dp].ok, q.recv, i.w.last) {
      PushedContents(q, i.w, mem0);
    } else {
      HeldContents(q, i.w, mem0);
    }
  }

  // ---------------------------------------------------------------- the whole cycle

  /** Memory side first: the skid drains, the response is taken, the address is issued. */
  function MemorySide(q: Queue, i: Stimulus): Queue {
    AwStage(Drained(q, i), AwShakes(q, i), AwSkips(q), AwWants(q))
  }

  /** Then the oldest write is answered and a new one accepted. */
  function Turnover(q: Queue, i: Stimulus): Queue {
    Accept(Commit(MemorySide(q, i), CommitReady(q) && i.bready), i.awValid && AwReady(q), i.aw)
  }

  /** Last the packer takes one incoming beat, or emits one filler beat. */
  function Fill(q: Queue, i: Stimulus): Queue
    requires PadState(q)
  {
    if CanConsume(q, i) then Consume(q, i.w) else if CanPad(q) then Pad(q) else q
  }

  function Drained(q: Queue, i: Stimulus): Queue {
    TakeResponse(if CanPop(q, i) then Pop(q) else q, q.w.bPending)
  }

  lemma DrainKeeps(q: Queue, i: Stimulus)
    requires Inv(q)
    ensures Inv(Drained(q, i))
  {
    if CanPop(q, i) {
      PopKeeps(q, i);
      ResponseKeeps(Pop(q), q.w.bPending);
    } else {
      ResponseKeeps(q, q.w.bPending);
    }
  }

  /** Draining the skid takes no address decision back. */
  lemma DecisionsHold(q: Queue, i: Stimulus)
    requires Inv(q)
    ensures AwShakes(q, i) ==> AwShakes(Drained(q, i), i) && !Drained(q, i).w.bPending
    ensures AwSkips(q) ==> AwSkips(Drained(q, i))
    ensures AwWants(q) ==> AwEligible(Drained(q, i))
  {
    if CanPop(q, i) {
      assert EntryOk(q, q.log[q.popped]);
    }
  }

  lemma MemorySideKeeps(q: Queue, i: Stimulus)
    requires Inv(q)
    ensures Inv(MemorySide(q, i))
  {
    DrainKeeps(q, i);
    DecisionsHold(q, i);
    AwStageKeeps(Drained(q, i), i, AwShakes(q, i), AwSkips(q), AwWants(q));
  }

  lemma DrainedCommits(q: Queue, i: Stimulus)
    ensures Drained(q, i).cp == q.cp && |Drained(q, i).descs| == |q.descs| && Drained(q, i).aw == q.aw
    ensures CommitReady(q) ==> CommitReady(Drained(q, i))
  {
  }

  lemma MemorySideCommits(q: Queue, i: Stimulus)
    requires Inv(q)
    ensures MemorySide(q, i).cp == q.cp && |MemorySide(q, i).descs| == |q.descs|
    ensures CommitReady(q) ==> CommitReady(MemorySide(q, i)) && q.cp < MemorySide(q, i).aw
  {
    DrainedCommits(q, i);
    if CommitReady(q) {
      CommitBehindPointer(q);
    }
  }

  lemma TurnoverKeeps(q: Queue, i: Stimulus)
    requires Inv(q)
    ensures Inv(Turnover(q, i))
  {
    MemorySideKeeps(q, i);
    MemorySideCommits(q, i);
    var q1 := MemorySide(q, i);
    var q2 := Commit(q1, CommitReady(q) && i.bready);
    if CommitReady(q) && i.bready {
      CommitKeeps(q1);
    }
    if i.awValid && AwReady(q) {
      AcceptKeeps(q2, i.aw);
    }
  }

  function Step(q: Queue, i: Stimulus): Queue
    requires Inv(q)
  {
    TurnoverKeeps(q, i);
    Fill(Turnover(q, i), i)
  }

  lemma StepKeeps(q: Queue, i: Stimulus)
    requires Inv(q)
    ensures Inv(Step(q, i))
  {
    TurnoverKeeps(q, i);
    var q1 := Turnover(q, i);
    if CanConsume(q1, i) {
      ConsumeKeeps(q1, i);
    } else if CanPad(q1) {
      PadKeeps(q1);
    }
  }

  lemma DrainContents(q: Queue, i: Stimulus, mem0: Memory)
    requires Inv(q) && Contents(q, mem0)
    ensures Contents(Drained(q, i), mem0)
  {
    if CanPop(q, i) {
      PopContents(q, i, mem0);
    }
  }

  lemma AwStageContents(q: Queue, shakes: bool, skips: bool, wants: bool, mem0: Memory)
    requires Contents(q, mem0)
    ensures Contents(AwStage(q, shakes, skips, wants), mem0)
  {
    SameBursts(mem0, q.descs, AwStage(q, shakes, skips, wants).descs);
  }

  lemma MemorySideContents(q: Queue, i: Stimulus, mem0: Memory)
    requires Inv(q) && Contents(q, mem0)
    ensures Contents(MemorySide(q, i), mem0)
  {
    DrainContents(q, i, mem0);
    AwStageContents(Drained(q, i), AwShakes(q, i), AwSkips(q), AwWants(q), mem0);
  }

  lemma StepContents(q: Queue, i: Stimulus, mem0: Memory)
    requires Inv(q) && Contents(q, mem0)
    ensures Contents(Step(q, i), mem0)
  {
    MemorySideContents(q, i, mem0);
    TurnoverKeeps(q, i);
    var q1 := Commit(MemorySide(q, i), CommitReady(q) && i.bready);
    if i.awValid && AwReady(q) {
      AcceptContents(q1, i.aw, mem0);
    }
    var q2 := Turnover(q, i);
    if CanConsume(q2, i) {
      ConsumeContents(q2, i, mem0);
    } else if CanPad(q2) {
      PadContents(q2, mem0);
    }
  }
}
