/** The bridge's write engine as its registers: a four-slot descriptor ring walked by
    four pointers, a two-entry output skid, a pad pusher and the registered shadow of
    the descriptor under the data pointer.  `Next` is one clock edge. */
module MigWriteRing {
  import opened Bits
  import opened Bytes
  import opened MigWriteQueue

  datatype Slot = Slot(
    id: int, addr: int, repoBeats: int, migBeats: int,
    ok: bool, touched: bool, valid: bool, awIssued: bool, dataDone: bool, migDone: bool)

  /** A two-bit ring pointer. */
  type Index = i: int | 0 <= i < 4

  type Slots = s: seq<Slot> | |s| == 4 witness [EMPTY_SLOT, EMPTY_SLOT, EMPTY_SLOT, EMPTY_SLOT]

  datatype SkidBeat = SkidBeat(beat: Beat, last: bool, idx: Index)

  type SkidRam = s: seq<SkidBeat> | |s| == 2 witness [EMPTY_SKID, EMPTY_SKID]

  type Side = i: int | 0 <= i < 2

  /** The shadow of the slot under the data pointer, and of "data pointer == accept pointer". */
  datatype Shadow = Shadow(ok: bool, addr4: int, repoBeats: int, migBeats: int, active: bool, dpEqWp: bool)

  datatype Ring = Ring(
    slots: Slots,
    wptr: Index, awPtr: Index, dataPtr: Index, dataPtrP1: Index, commitPtr: Index, count: int,
    awPresenting: bool, bqCount: int,
    recvCount: nat, migPushed: nat, packValid: bool, packHalf: Half,
    padActive: bool, padRemaining: int, padIdx: Index,
    skid: SkidRam, skidW: Side, skidR: Side, skidCnt: int,
    cwd: Shadow)

  const EMPTY_SLOT := Slot(0, 0, 0, 0, false, false, false, false, false, false)
  const EMPTY_SKID := SkidBeat(FILLER, false, 0)

  const RESET := Ring(
    [EMPTY_SLOT, EMPTY_SLOT, EMPTY_SLOT, EMPTY_SLOT],
    0, 0, 0, 1, 0, 0, false, 0, 0, 0, false, EMPTY_HALF, false, 0, 0,
    [EMPTY_SKID, EMPTY_SKID], 0, 0, 0,
    Shadow(false, 0, 0, 0, false, true))

  /** Ready, valid and data as the two neighbours drive them in this cycle. */
  datatype Pins = Pins(s: Stimulus, mAwready: bool, mWready: bool, mBvalid: bool)

  function Inc(p: Index): Index {
    if p == 3 then 0 else p + 1
  }

  function Latch(a: Aw): Slot {
    Slot(a.id, a.addr, RepoBeats(a), MigBeats(a), Legal(a), false, true, false, false, false)
  }

  // ---------------------------------------------------------------- wires

  predicate AwFire(r: Ring, p: Pins) {
    p.s.awValid && r.count != 4
  }

  /** The address being accepted is for the very slot the data pointer stands on. */
  predicate Bypass(r: Ring, p: Pins) {
    AwFire(r, p) && r.cwd.dpEqWp
  }

  predicate DataActive(r: Ring, p: Pins) {
    !r.padActive && (Bypass(r, p) || r.cwd.active)
  }

  predicate CurOk(r: Ring, p: Pins) {
    if Bypass(r, p) then Legal(p.s.aw) else r.cwd.ok
  }

  function CurAddr4(r: Ring, p: Pins): int {
    if Bypass(r, p) then Addr4(p.s.aw) else r.cwd.addr4
  }

  function CurRepoBeats(r: Ring, p: Pins): int {
    if Bypass(r, p) then RepoBeats(p.s.aw) else r.cwd.repoBeats
  }

  function CurMigBeats(r: Ring, p: Pins): int {
    if Bypass(r, p) then MigBeats(p.s.aw) else r.cwd.migBeats
  }

  predicate IsUpper(r: Ring, p: Pins) {
    (CurAddr4(r, p) + r.recvCount) % 2 == 1
  }

  predicate IsLastExpected(r: Ring, p: Pins) {
    r.recvCount == CurRepoBeats(r, p) - 1
  }

  predicate WlastMatches(r: Ring, p: Pins) {
    p.s.w.last == IsLastExpected(r, p)
  }

  predicate TerminateNow(r: Ring, p: Pins) {
    IsLastExpected(r, p) || p.s.w.last
  }

  predicate CompletesNow(r: Ring, p: Pins) {
    IsUpper(r, p) || TerminateNow(r, p)
  }

  predicate RealNeedPush(r: Ring, p: Pins) {
    CompletesNow(r, p) && CurOk(r, p) && WlastMatches(r, p) && !r.padActive
  }

  function PushBeat(r: Ring, p: Pins): Beat {
    var held: Half := if r.packValid then r.packHalf else EMPTY_HALF;
    if IsUpper(r, p) then Join(held, p.s.w.half) else Join(p.s.w.half, held)
  }

  predicate MAwShakes(r: Ring, p: Pins) {
    r.awPresenting && p.mAwready
  }

  function SkidHead(r: Ring): SkidBeat {
    r.skid[r.skidR]
  }

  predicate MWvalid(r: Ring, p: Pins) {
    r.skidCnt != 0
    && (r.slots[SkidHead(r).idx].awIssued || (r.awPtr == SkidHead(r).idx && MAwShakes(r, p)))
  }

  predicate SkidPop(r: Ring, p: Pins) {
    MWvalid(r, p) && p.mWready
  }

  predicate OutRoom(r: Ring, p: Pins) {
    r.skidCnt != 2 || SkidPop(r, p)
  }

  predicate SWready(r: Ring, p: Pins) {
    DataActive(r, p) && (!RealNeedPush(r, p) || OutRoom(r, p))
  }

  predicate WFire(r: Ring, p: Pins) {
    p.s.wValid && SWready(r, p)
  }

  predicate PushReal(r: Ring, p: Pins) {
    WFire(r, p) && RealNeedPush(r, p)
  }

  predicate AwIsPending(r: Ring) {
    r.slots[r.awPtr].valid && !r.slots[r.awPtr].awIssued
  }

  predicate AwWant(r: Ring) {
    !r.awPresenting && AwIsPending(r) && (r.slots[r.awPtr].ok || r.slots[r.awPtr].touched) && r.bqCount != 4
  }

  predicate AwSkip(r: Ring) {
    AwIsPending(r) && !r.slots[r.awPtr].ok && !r.slots[r.awPtr].touched && !r.awPresenting
  }

  predicate AwAdvance(r: Ring, p: Pins) {
    AwSkip(r) || (AwIsPending(r) && MAwShakes(r, p))
  }

  predicate AwCommitted(r: Ring, p: Pins) {
    !Bypass(r, p) && CurOk(r, p)
    && (r.slots[r.dataPtr].awIssued || (r.awPtr == r.dataPtr && (r.awPresenting || AwWant(r))))
  }

  predicate PadTrigger(r: Ring, p: Pins) {
    WFire(r, p) && TerminateNow(r, p) && !WlastMatches(r, p)
    && (r.migPushed != 0 || AwCommitted(r, p))
    && r.migPushed < CurMigBeats(r, p)
  }

  predicate PushPad(r: Ring, p: Pins) {
    r.padActive && OutRoom(r, p) && r.padRemaining != 0
  }

  predicate DataAdvance(r: Ring, p: Pins) {
    WFire(r, p) && TerminateNow(r, p)
  }

  predicate SBvalid(r: Ring) {
    var c := r.slots[r.commitPtr];
    c.valid && c.dataDone && (!c.touched || c.migDone)
  }

  predicate CommitPop(r: Ring, p: Pins) {
    SBvalid(r) && p.s.bready
  }

  // ---------------------------------------------------------------- next state

  function AcceptedSlot(r: Ring, p: Pins): Slot {
    var same := r.dataPtr == r.wptr;
    Latch(p.s.aw).(
      ok := if WFire(r, p) && !WlastMatches(r, p) && same then false else Legal(p.s.aw),
      dataDone := WFire(r, p) && TerminateNow(r, p) && same,
      touched := same && PushReal(r, p))
  }

  function SlotsAfterAccept(r: Ring, p: Pins): Slots {
    if AwFire(r, p) then r.slots[r.wptr := AcceptedSlot(r, p)] else r.slots
  }

  function SlotsAfterIssue(r: Ring, p: Pins): Slots {
    var s := SlotsAfterAccept(r, p);
    if MAwShakes(r, p) then s[r.awPtr := s[r.awPtr].(awIssued := true)] else s
  }

  function SlotsAfterData(r: Ring, p: Pins): Slots {
    var s := SlotsAfterIssue(r, p);
    if !WFire(r, p) then s
    else
      var d := s[r.dataPtr];
      s[r.dataPtr := d.(ok := d.ok && WlastMatches(r, p),
                        touched := d.touched || RealNeedPush(r, p) || PadTrigger(r, p),
                        dataDone := d.dataDone || TerminateNow(r, p))]
  }

  function SlotsAfterDrain(r: Ring, p: Pins): Slots {
    var s := SlotsAfterData(r, p);
    var k := SkidHead(r).idx;
    if SkidPop(r, p) && SkidHead(r).last then s[k := s[k].(migDone := true)] else s
  }

  function NextSlots(r: Ring, p: Pins): Slots {
    var s := SlotsAfterDrain(r, p);
    if CommitPop(r, p) then s[r.commitPtr := s[r.commitPtr].(valid := false)] else s
  }

  function NextWptr(r: Ring, p: Pins): Index {
    if AwFire(r, p) then Inc(r.wptr) else r.wptr
  }

  function NextDataPtr(r: Ring, p: Pins): Index {
    if DataAdvance(r, p) then Inc(r.dataPtr) else r.dataPtr
  }

  /** Both candidate slots are read at registered addresses; one late select picks. */
  function NextShadow(r: Ring, p: Pins): Shadow {
    var x := if DataAdvance(r, p) then r.dataPtrP1 else r.dataPtr;
    var eq := x == NextWptr(r, p);
    if AwFire(r, p) && r.wptr == x then
      Shadow(Legal(p.s.aw), Addr4(p.s.aw), RepoBeats(p.s.aw), MigBeats(p.s.aw), true, eq)
    else
      var s := r.slots[x];
      Shadow(s.ok, s.addr / 16 % 2, s.repoBeats, s.migBeats, s.valid && !s.dataDone, eq)
  }

  function PushedSkid(r: Ring, p: Pins): SkidBeat {
    if PushPad(r, p) then SkidBeat(FILLER, r.padRemaining == 1, r.padIdx)
    else SkidBeat(PushBeat(r, p), r.migPushed + 1 == CurMigBeats(r, p), r.dataPtr)
  }

  predicate SkidPush(r: Ring, p: Pins) {
    PushReal(r, p) || PushPad(r, p)
  }

  function NextPadRemaining(r: Ring, p: Pins): int {
    if PadTrigger(r, p) then CurMigBeats(r, p) - r.migPushed
    else if PushPad(r, p) then r.padRemaining - 1
    else r.padRemaining
  }

  function Next(r: Ring, p: Pins): Ring {
    var fire := WFire(r, p);
    var ends := TerminateNow(r, p);
    Ring(
      NextSlots(r, p),
      NextWptr(r, p),
      if AwAdvance(r, p) then Inc(r.awPtr) else r.awPtr,
      NextDataPtr(r, p),
      Inc(NextDataPtr(r, p)),
      if CommitPop(r, p) then Inc(r.commitPtr) else r.commitPtr,
      r.count + Bit(AwFire(r, p)) - Bit(CommitPop(r, p)),
      if MAwShakes(r, p) then false else r.awPresenting || AwWant(r),
      r.bqCount + Bit(MAwShakes(r, p)) - Bit(p.mBvalid),
      if !fire then r.recvCount else if ends then 0 else r.recvCount + 1,
      if !fire then r.migPushed else if ends then 0 else r.migPushed + Bit(RealNeedPush(r, p)),
      if fire then !CompletesNow(r, p) else r.packValid,
      if fire && !CompletesNow(r, p) then p.s.w.half else r.packHalf,
      PadTrigger(r, p) || (r.padActive && !(PushPad(r, p) && r.padRemaining == 1)),
      NextPadRemaining(r, p),
      if PadTrigger(r, p) then r.dataPtr else r.padIdx,
      if SkidPush(r, p) then r.skid[r.skidW := PushedSkid(r, p)] else r.skid,
      if SkidPush(r, p) then 1 - r.skidW else r.skidW,
      if SkidPop(r, p) then 1 - r.skidR else r.skidR,
      r.skidCnt + Bit(SkidPush(r, p)) - Bit(SkidPop(r, p)),
      NextShadow(r, p))
  }
}
