/** The bridge's write engine with its descriptor ring unrolled: descriptors keep the
    position at which they were accepted, and the three ring pointers are positions.
    The state also carries the history the theorems speak about. */
module MigWriteQueue {
  import opened Bytes
  import opened MigModel

  const TWO_31 := 0x8000_0000

  /** A write address as a repository master presents it. */
  datatype Request = Request(id: int, addr: int, len: int, size: int, burst: int)

  type Aw = a: Request |
    0 <= a.addr < ADDRESS_SPACE && 0 <= a.len < 256 && 0 <= a.size < 8 && 0 <= a.burst < 4
    witness Request(0, 0, 0, 0, 0)

  datatype WBeat = WBeat(half: Half, last: bool)

  predicate WordOk(a: Aw) {
    a.addr < TWO_31 && a.len == 0 && a.size <= 2 && a.burst == 1
  }

  predicate BeatOk(a: Aw) {
    a.addr < TWO_31 && a.addr + 16 * a.len < TWO_31 && a.addr % 16 == 0 && a.size == 4 && a.burst == 1
  }

  /** Traffic outside this contract is answered locally and never reaches the memory. */
  predicate Legal(a: Aw) {
    WordOk(a) || BeatOk(a)
  }

  function RepoBeats(a: Aw): (n: nat)
    ensures 1 <= n <= 256
  {
    a.len + 1
  }

  function Addr4(a: Aw): (b: nat)
    ensures b < 2
  {
    a.addr / 16 % 2
  }

  function MigBeats(a: Aw): (n: nat)
    ensures 1 <= n <= 129
  {
    if WordOk(a) then 1 else (Addr4(a) + RepoBeats(a) + 1) / 2
  }

  function Base(a: Aw): (r: int)
    ensures 0 <= r < TWO_31
  {
    a.addr % TWO_31 / 32 * 32
  }

  /** Where the first 16-byte beat of the burst goes. */
  function Start(a: Aw): int {
    a.addr / 16 * 16
  }

  datatype Desc = Desc(
    aw: Aw, beats: seq<WBeat>,
    ok: bool, touched: bool, awIssued: bool, dataDone: bool, migDone: bool)

  /** A 32-byte beat handed to the output skid: which descriptor it serves, its index in
      that descriptor's burst, and the address at which the memory will store it. */
  datatype LogBeat = LogBeat(idx: nat, k: nat, last: bool, addr: int, beat: Beat)

  datatype Queue = Queue(
    descs: seq<Desc>,
    aw: nat, dp: nat, cp: nat,
    presenting: bool, inFlight: int,
    recv: nat, pushed: nat, packValid: bool, packHalf: Half,
    padActive: bool, padRemaining: int, padIdx: nat,
    log: seq<LogBeat>, popped: nat,
    mem: Memory, w: WriteSide, cur: nat, taken: nat)

  /** One clock cycle of stimulus. */
  datatype Stimulus = Stimulus(
    awValid: bool, aw: Aw, wValid: bool, w: WBeat, bready: bool, awStall: bool, wStall: bool)

  function Reset(mem: Memory): Queue {
    Queue([], 0, 0, 0, false, 0, 0, 0, false, EMPTY_HALF, false, 0, 0, [], 0, mem, IDLE_WRITE, 0, 0)
  }

  // ---------------------------------------------------------------- packing decisions

  predicate Upper(a: Aw, recv: nat) {
    (Addr4(a) + recv) % 2 == 1
  }

  predicate LastExpected(a: Aw, recv: nat) {
    recv == RepoBeats(a) - 1
  }

  predicate WlastOk(a: Aw, recv: nat, last: bool) {
    last == LastExpected(a, recv)
  }

  predicate Terminates(a: Aw, recv: nat, last: bool) {
    LastExpected(a, recv) || last
  }

  predicate Completes(a: Aw, recv: nat, last: bool) {
    Upper(a, recv) || Terminates(a, recv, last)
  }

  predicate NeedPush(a: Aw, ok: bool, recv: nat, last: bool) {
    Completes(a, recv, last) && ok && WlastOk(a, recv, last)
  }

  function Packed(a: Aw, recv: nat, packValid: bool, packHalf: Half, h: Half): Beat {
    var held: Half := if packValid then packHalf else EMPTY_HALF;
    if Upper(a, recv) then Join(held, h) else Join(h, held)
  }

  // ---------------------------------------------------------------- the parts of a cycle

  predicate CanPop(q: Queue, i: Stimulus) {
    q.popped < |q.log| && q.log[q.popped].idx < |q.descs| && q.descs[q.log[q.popped].idx].awIssued
    && q.w.wActive && !i.wStall
  }

  function Pop(q: Queue): Queue
    requires q.popped < |q.log| && q.log[q.popped].idx < |q.descs|
  {
    var e := q.log[q.popped];
    q.(popped := q.popped + 1,
       descs := if e.last then q.descs[e.idx := q.descs[e.idx].(migDone := true)] else q.descs,
       mem := WriteBeat(q.mem, q.w.wAddr, e.beat),
       w := TakeW(q.w, true),
       taken := q.taken + 1)
  }

  predicate AwPending(q: Queue) {
    q.aw < |q.descs| && !q.descs[q.aw].awIssued
  }

  predicate AwShakes(q: Queue, i: Stimulus) {
    q.presenting && !q.w.awHave && !q.w.wActive && !i.awStall
  }

  predicate AwSkips(q: Queue) {
    AwPending(q) && !q.descs[q.aw].ok && !q.descs[q.aw].touched && !q.presenting
  }

  predicate AwEligible(q: Queue) {
    !q.presenting && AwPending(q) && (q.descs[q.aw].ok || q.descs[q.aw].touched)
  }

  predicate AwWants(q: Queue) {
    AwEligible(q) && q.inFlight != 4
  }

  function AwShake(q: Queue): Queue
    requires q.aw < |q.descs|
  {
    var d := q.descs[q.aw];
    q.(descs := q.descs[q.aw := d.(awIssued := true)], aw := q.aw + 1, presenting := false,
       inFlight := q.inFlight + 1,
       w := TakeAw(q.w, true, Base(d.aw), MigBeats(d.aw) - 1),
       cur := q.aw, taken := 0)
  }

  function AwStage(q: Queue, shakes: bool, skips: bool, wants: bool): Queue {
    if shakes && q.aw < |q.descs| then AwShake(q)
    else if skips then q.(aw := q.aw + 1)
    else if wants then q.(presenting := true)
    else q
  }

  function TakeResponse(q: Queue, fire: bool): Queue {
    if fire then q.(w := TakeB(q.w, true), inFlight := q.inFlight - 1) else q
  }

  predicate CommitReady(q: Queue) {
    q.cp < |q.descs| && q.descs[q.cp].dataDone && (!q.descs[q.cp].touched || q.descs[q.cp].migDone)
  }

  function Commit(q: Queue, fire: bool): Queue {
    if fire then q.(cp := q.cp + 1) else q
  }

  predicate AwReady(q: Queue) {
    |q.descs| - q.cp != 4
  }

  function Accept(q: Queue, fire: bool, a: Aw): Queue {
    if fire then q.(descs := q.descs + [Desc(a, [], Legal(a), false, false, false, false)]) else q
  }

  /** The address of the current descriptor is at the memory or can no longer be withheld. */
  predicate Committed(q: Queue, j: nat)
    requires j < |q.descs|
  {
    q.descs[j].awIssued || (q.aw == j && q.presenting)
  }

  predicate PadTriggers(q: Queue, w: WBeat)
    requires q.dp < |q.descs|
  {
    var d := q.descs[q.dp];
    Terminates(d.aw, q.recv, w.last) && !WlastOk(d.aw, q.recv, w.last)
    && (q.pushed != 0 || (d.ok && Committed(q, q.dp)))
    && q.pushed < MigBeats(d.aw)
  }

  predicate Room(q: Queue) {
    |q.log| - q.popped < 2
  }

  predicate CanConsume(q: Queue, i: Stimulus) {
    i.wValid && !q.padActive && q.dp < |q.descs|
    && (!NeedPush(q.descs[q.dp].aw, q.descs[q.dp].ok, q.recv, i.w.last) || Room(q))
  }

  function RealEntry(q: Queue, w: WBeat): LogBeat
    requires q.dp < |q.descs|
  {
    var a := q.descs[q.dp].aw;
    LogBeat(q.dp, q.pushed, q.pushed + 1 == MigBeats(a), Base(a) + 32 * q.pushed,
            Packed(a, q.recv, q.packValid, q.packHalf, w.half))
  }

  function ConsumedDesc(q: Queue, w: WBeat): Desc
    requires q.dp < |q.descs|
  {
    var d := q.descs[q.dp];
    d.(beats := d.beats + [w],
       ok := d.ok && WlastOk(d.aw, q.recv, w.last),
       touched := d.touched || NeedPush(d.aw, d.ok, q.recv, w.last) || PadTriggers(q, w),
       dataDone := d.dataDone || Terminates(d.aw, q.recv, w.last))
  }

  function Consume(q: Queue, w: WBeat): Queue
    requires q.dp < |q.descs|
  {
    var d := q.descs[q.dp];
    var a := d.aw;
    var need := NeedPush(a, d.ok, q.recv, w.last);
    var ends := Terminates(a, q.recv, w.last);
    var pads := PadTriggers(q, w);
    q.(descs := q.descs[q.dp := ConsumedDesc(q, w)],
       log := if need then q.log + [RealEntry(q, w)] else q.log,
       packValid := !Completes(a, q.recv, w.last),
       packHalf := if Completes(a, q.recv, w.last) then q.packHalf else w.half,
       padActive := pads,
       padRemaining := if pads then MigBeats(a) - q.pushed else q.padRemaining,
       padIdx := if pads then q.dp else q.padIdx,
       recv := if ends then 0 else q.recv + 1,
       pushed := if ends then 0 else if need then q.pushed + 1 else q.pushed,
       dp := if ends then q.dp + 1 else q.dp)
  }

  predicate CanPad(q: Queue) {
    q.padActive && Room(q) && q.padRemaining != 0
  }

  function PadEntry(q: Queue): LogBeat
    requires q.padIdx < |q.descs| && 0 <= q.padRemaining <= MigBeats(q.descs[q.padIdx].aw)
  {
    var a := q.descs[q.padIdx].aw;
    var k := MigBeats(a) - q.padRemaining;
    LogBeat(q.padIdx, k, q.padRemaining == 1, Base(a) + 32 * k, FILLER)
  }

  function Pad(q: Queue): Queue
    requires q.padIdx < |q.descs| && 0 <= q.padRemaining <= MigBeats(q.descs[q.padIdx].aw)
  {
    q.(log := q.log + [PadEntry(q)],
       padActive := q.padRemaining != 1,
       padRemaining := q.padRemaining - 1)
  }

  // ---------------------------------------------------------------- what the memory should hold

  /** Beats received before the one whose WLAST is out of place, if any. */
  function GoodBeats(a: Aw, beats: seq<WBeat>): (n: nat)
    ensures n <= |beats|
  {
    if |beats| > 0 && !WlastOk(a, |beats| - 1, beats[|beats| - 1].last) then |beats| - 1 else |beats|
  }

  /** How many leading 16-byte beats of a burst reach memory: all of a well-formed one;
      of a malformed one, those that filled a 32-byte beat before the fault showed. */
  function Covered(a: Aw, beats: seq<WBeat>): (n: nat)
    ensures n <= |beats|
  {
    var n := GoodBeats(a, beats);
    if !Legal(a) then 0
    else if n == RepoBeats(a) || (Addr4(a) + n) % 2 == 0 then n
    else if n == 0 then 0 else n - 1
  }

  function StoreBeats(mem: Memory, addr: int, beats: seq<WBeat>): Memory
    decreases |beats|
  {
    if |beats| == 0 then mem
    else
      var n := |beats| - 1;
      WriteHalf(StoreBeats(mem, addr, beats[..n]), addr + 16 * n, beats[n].half)
  }

  function StoreBurst(mem: Memory, d: Desc): Memory {
    StoreBeats(mem, Start(d.aw), d.beats[..Covered(d.aw, d.beats)])
  }

  /** The accepted bursts, stored one after another in the order of acceptance. */
  function SpecMem(mem: Memory, descs: seq<Desc>): Memory
    decreases |descs|
  {
    if |descs| == 0 then mem
    else StoreBurst(SpecMem(mem, descs[..|descs| - 1]), descs[|descs| - 1])
  }

  /** The 32-byte beats in the order they entered the skid. */
  function LogMem(mem: Memory, log: seq<LogBeat>): Memory
    decreases |log|
  {
    if |log| == 0 then mem
    else
      var e := log[|log| - 1];
      WriteBeat(LogMem(mem, log[..|log| - 1]), e.addr, e.beat)
  }
}
