/** The bridge's read engine in front of the memory model: accepted addresses wait in a
    queue, legal ones go out one at a time through a register, and the 32-byte beats that
    come back are cut into 16-byte beats.  Refused reads are answered locally. */
module MigRead {
  import opened Bytes
  import opened MigModel
  import opened MigWriteQueue

  const MAX_READS := 8

  /** A 32-byte beat as the memory returns it. */
  datatype MBeat = MBeat(data: seq<Byte>, last: bool)

  type Wide = b: MBeat | |b.data| == 32 witness MBeat(Zeros(32), false)

  /** A 16-byte beat as the master receives it. */
  datatype RBeat = RBeat(id: int, data: seq<Byte>, ok: bool, last: bool)

  datatype Reader = Reader(
    descs: seq<Aw>, issue: nat, drain: nat,
    presenting: bool, arAddr: int, arLen: int,
    skid: seq<Wide>,
    curValid: bool, curData: Wide, curOk: bool, repoIndex: nat, migIndex: nat,
    r: ReadSide)

  datatype ReadStimulus = ReadStimulus(arValid: bool, ar: Aw, rready: bool, hazard: bool, arStall: bool)

  const READ_RESET := Reader([], 0, 0, false, 0, 0, [], false, MBeat(Zeros(32), false), true, 0, 0, IDLE_READ)

  // ---------------------------------------------------------------- wires

  predicate ArFire(s: Reader, i: ReadStimulus) {
    i.arValid && |s.descs| - s.drain != MAX_READS
  }

  predicate ArReady(s: Reader, i: ReadStimulus) {
    !s.r.arHave && !s.r.rActive && !i.arStall
  }

  predicate ArWant(s: Reader, i: ReadStimulus) {
    (!s.presenting || ArReady(s, i)) && s.issue < |s.descs| && Legal(s.descs[s.issue]) && !i.hazard
  }

  predicate IssueAdvance(s: Reader, i: ReadStimulus) {
    s.issue < |s.descs| && (!Legal(s.descs[s.issue]) || ArWant(s, i))
  }

  predicate DrainOk(s: Reader) {
    s.drain < |s.descs| && Legal(s.descs[s.drain])
  }

  predicate DrainErr(s: Reader) {
    s.drain < |s.descs| && !Legal(s.descs[s.drain])
  }

  function MigData(s: Reader, mem: Memory): Wide {
    MBeat(ReadLanes(mem, s.r.rAddr, 32), s.r.rBeatsLeft == 0)
  }

  predicate FillFromSkid(s: Reader) {
    DrainOk(s) && !s.curValid && |s.skid| != 0
  }

  predicate FillFromMig(s: Reader) {
    DrainOk(s) && !s.curValid && |s.skid| == 0 && s.r.rActive
  }

  predicate MRready(s: Reader) {
    DrainOk(s) && (|s.skid| != 2 || FillFromSkid(s))
  }

  predicate SkidPushes(s: Reader) {
    s.r.rActive && MRready(s) && !FillFromMig(s)
  }

  predicate LastRepo(s: Reader)
    requires s.drain < |s.descs|
  {
    s.repoIndex == RepoBeats(s.descs[s.drain]) - 1
  }

  predicate LastMig(s: Reader)
    requires s.drain < |s.descs|
  {
    s.migIndex == MigBeats(s.descs[s.drain]) - 1
  }

  predicate ReadUpper(s: Reader)
    requires s.drain < |s.descs|
  {
    (Addr4(s.descs[s.drain]) + s.repoIndex) % 2 == 1
  }

  /** The beat on show: held, at the head of the skid, or arriving in this cycle. */
  function EffBeat(s: Reader, mem: Memory): Wide {
    if s.curValid then s.curData else if FillFromSkid(s) then s.skid[0] else MigData(s, mem)
  }

  predicate EffOk(s: Reader, mem: Memory)
    requires s.drain < |s.descs|
  {
    if s.curValid then s.curOk else EffBeat(s, mem).last == LastMig(s)
  }

  predicate SRvalid(s: Reader) {
    DrainErr(s) || (DrainOk(s) && (s.curValid || FillFromSkid(s) || FillFromMig(s)))
  }

  function Output(s: Reader, mem: Memory): RBeat
    requires s.drain < |s.descs|
  {
    if DrainErr(s) then RBeat(s.descs[s.drain].id, Zeros(16), false, LastRepo(s))
    else
      var d := EffBeat(s, mem).data;
      RBeat(s.descs[s.drain].id, if ReadUpper(s) then d[16..] else d[..16], EffOk(s, mem), LastRepo(s))
  }

  predicate RFire(s: Reader, i: ReadStimulus) {
    SRvalid(s) && i.rready
  }

  // ---------------------------------------------------------------- next state

  function NextSkid(s: Reader, mem: Memory): seq<Wide> {
    (if FillFromSkid(s) then s.skid[1..] else s.skid) + (if SkidPushes(s) then [MigData(s, mem)] else [])
  }

  function NextCurValid(s: Reader, i: ReadStimulus): bool {
    if RFire(s, i) && DrainOk(s) && (ReadUpper(s) || LastRepo(s)) then false
    else s.curValid || FillFromSkid(s) || FillFromMig(s)
  }

  function ReadNext(s: Reader, i: ReadStimulus, mem: Memory): Reader {
    var fires := RFire(s, i);
    var fills := FillFromSkid(s) || FillFromMig(s);
    var ends := fires && LastRepo(s);
    Reader(
      if ArFire(s, i) then s.descs + [i.ar] else s.descs,
      if IssueAdvance(s, i) then s.issue + 1 else s.issue,
      if ends then s.drain + 1 else s.drain,
      ArWant(s, i) || (s.presenting && !ArReady(s, i)),
      if ArWant(s, i) then Base(s.descs[s.issue]) else s.arAddr,
      if ArWant(s, i) then MigBeats(s.descs[s.issue]) - 1 else s.arLen,
      NextSkid(s, mem),
      NextCurValid(s, i),
      if fills then EffBeat(s, mem) else s.curData,
      if fills then EffOk(s, mem) else s.curOk,
      if !fires then s.repoIndex else if ends then 0 else s.repoIndex + 1,
      if !fires then s.migIndex
      else if ends then 0
      else if DrainOk(s) && ReadUpper(s) then s.migIndex + 1
      else s.migIndex,
      TakeR(TakeAr(s.r, s.presenting && ArReady(s, i), s.arAddr, s.arLen), s.r.rActive && MRready(s)))
  }

  function ReadRun(s: Reader, ins: seq<ReadStimulus>, mem: Memory): Reader
    decreases |ins|
  {
    if |ins| == 0 then s else ReadNext(ReadRun(s, ins[..|ins| - 1], mem), ins[|ins| - 1], mem)
  }

  /** The beats the master has taken in a run, in order. */
  function Received(ins: seq<ReadStimulus>, mem: Memory): seq<RBeat>
    decreases |ins|
  {
    if |ins| == 0 then []
    else
      var n := |ins| - 1;
      var s := ReadRun(READ_RESET, ins[..n], mem);
      Received(ins[..n], mem) + if RFire(s, ins[n]) then [Output(s, mem)] else []
  }

  /** The addresses the engine has accepted in a run, in order. */
  function Accepted(ins: seq<ReadStimulus>, mem: Memory): seq<Aw>
    decreases |ins|
  {
    if |ins| == 0 then []
    else
      var n := |ins| - 1;
      var s := ReadRun(READ_RESET, ins[..n], mem);
      Accepted(ins[..n], mem) + if ArFire(s, ins[n]) then [ins[n].ar] else []
  }

  // ---------------------------------------------------------------- specification

  /** Beat i of the answer to a read. */
  function Answer(mem: Memory, a: Aw, i: nat): RBeat {
    RBeat(a.id, if Legal(a) then ReadLanes(mem, Start(a) + 16 * i, 16) else Zeros(16), Legal(a), i == a.len)
  }

  function AnswerUpTo(mem: Memory, a: Aw, n: nat): (r: seq<RBeat>)
    ensures |r| == n
  {
    seq(n, i requires 0 <= i < n => Answer(mem, a, i))
  }

  /** The whole answers to the first n reads, one after another. */
  function Answers(mem: Memory, descs: seq<Aw>, n: nat): seq<RBeat>
    requires n <= |descs|
  {
    if n == 0 then [] else Answers(mem, descs, n - 1) + AnswerUpTo(mem, descs[n - 1], RepoBeats(descs[n - 1]))
  }
}
