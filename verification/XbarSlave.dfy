/** The harness's memory slave behind port 0 of the crossbar: one write burst at a time,
    masked 16-byte words, an audit of WLAST and filler beats, and an optional mode that
    takes a data beat before its address. */
module XbarSlave {
  import opened Bits
  import opened Bytes
  import opened Pairing

  type Word = d: seq<Byte> | |d| == 16 witness Zeros(16)

  /** Words keyed by 16-byte-aligned address; a missing word reads as zero. */
  type Store = map<int, Word>

  function Aligned(a: int): int {
    a / 16 * 16
  }

  function ReadWord(st: Store, a: int): Word {
    if Aligned(a) in st then st[Aligned(a)] else Zeros(16)
  }

  function Merge(was: Word, h: Half): (r: Word)
    ensures forall i :: 0 <= i < 16 ==> r[i] == if h.strb[i] then h.data[i] else was[i]
  {
    seq<Byte>(16, i requires 0 <= i < 16 => if h.strb[i] then h.data[i] else was[i])
  }

  function WriteMasked(st: Store, a: int, h: Half): Store {
    st[Aligned(a) := Merge(ReadWord(st, a), h)]
  }

  datatype S0 = S0(
    store: Store,
    awBusy: bool, awId: int, awAddr: int, awLen: int,
    beatsLeft: int, curAddr: int,
    beatsSeen: int, wlastErrors: int, padBeats: int,
    bPending: bool, bId: int,
    earlyHave: bool, early: Half)

  /** The pins and stall draws of one cycle. */
  datatype Pins = Pins(
    awvalid: bool, awid: int, burst: Burst, awStall: bool,
    wvalid: bool, half: Half, wlast: bool, wStall: bool,
    bready: bool, earlyMode: bool)

  predicate NoStrobe(h: Half) {
    forall i :: 0 <= i < 16 ==> !h.strb[i]
  }

  predicate AwTaken(s: S0, p: Pins) {
    !s.awBusy && !p.awStall && p.awvalid
  }

  function TakeAddress(s: S0, p: Pins): S0 {
    var t := s.(awId := p.awid, awAddr := p.burst.addr, awLen := p.burst.len, awBusy := true,
                beatsLeft := p.burst.len + 1, curAddr := p.burst.addr);
    if s.earlyHave then
      t.(store := WriteMasked(s.store, p.burst.addr, s.early), earlyHave := false,
         beatsLeft := 0, bPending := true, bId := p.awid, awBusy := false)
    else t
  }

  predicate WTaken(s: S0, p: Pins) {
    s.awBusy && s.beatsLeft > 0 && !s.bPending && !p.wStall && p.wvalid
  }

  predicate EarlyTaken(s: S0, p: Pins) {
    !(s.awBusy && s.beatsLeft > 0 && !s.bPending && !p.wStall)
    && p.earlyMode && !s.awBusy && !s.earlyHave && !s.bPending && !p.wStall && p.wvalid
  }

  function TakeData(s: S0, p: Pins): S0 {
    var t := s.(
      wlastErrors := s.wlastErrors + Bit(p.wlast != (s.beatsLeft == 1)),
      padBeats := s.padBeats + Bit(NoStrobe(p.half)),
      beatsSeen := s.beatsSeen + 1,
      store := WriteMasked(s.store, s.curAddr, p.half),
      curAddr := Wrap32(s.curAddr + 16),
      beatsLeft := s.beatsLeft - 1);
    if t.beatsLeft == 0 then t.(bPending := true, bId := t.awId, awBusy := false) else t
  }

  function AfterAw(s: S0, p: Pins): S0 {
    if AwTaken(s, p) then TakeAddress(s, p) else s
  }

  function AfterW(s: S0, p: Pins): S0 {
    if WTaken(s, p) then TakeData(s, p)
    else if EarlyTaken(s, p) then s.(early := p.half, earlyHave := true)
    else s
  }

  function AfterB(s: S0, p: Pins): S0 {
    if s.bPending && p.bready then s.(bPending := false) else s
  }

  function StepS0(s: S0, p: Pins): S0 {
    AfterB(AfterW(AfterAw(s, p), p), p)
  }

  const S0_IDLE := S0(map[], false, 0, 0, 0, 0, 0, 0, 0, 0, false, 0, false, EMPTY_HALF)

  class SlaveBfm {
    var store: Store
    var awBusy: bool
    var awId: int
    var awAddr: int
    var awLen: int
    var beatsLeft: int
    var curAddr: int
    var beatsSeen: int
    var wlastErrors: int
    var padBeats: int
    var bPending: bool
    var bId: int
    var earlyHave: bool
    var early: Half

    ghost function Value(): S0
      reads this
    {
      S0(store, awBusy, awId, awAddr, awLen, beatsLeft, curAddr, beatsSeen, wlastErrors, padBeats,
         bPending, bId, earlyHave, early)
    }

    constructor ()
      ensures Value() == S0_IDLE
    {
      store, awBusy, awId, awAddr, awLen := map[], false, 0, 0, 0;
      beatsLeft, curAddr, beatsSeen, wlastErrors, padBeats := 0, 0, 0, 0, 0;
      bPending, bId, earlyHave, early := false, 0, false, EMPTY_HALF;
    }

    /** The stored word is merged byte by byte. */
    method Write(a: int, h: Half)
      modifies `store
      ensures store == WriteMasked(old(store), a, h)
    {
      var was := ReadWord(store, a);
      var word := was;
      for i := 0 to 16
        invariant |word| == 16
        invariant forall k :: 0 <= k < i ==> word[k] == if h.strb[k] then h.data[k] else was[k]
        invariant forall k :: i <= k < 16 ==> word[k] == was[k]
      {
        if h.strb[i] {
          word := word[i := h.data[i]];
        }
      }
      assert word == Merge(was, h);
      store := store[Aligned(a) := word];
    }

    method ApplyEarly()
      modifies `store, `earlyHave, `beatsLeft, `bPending, `bId, `awBusy
      ensures Value() == old(Value()).(store := WriteMasked(old(store), awAddr, early), earlyHave := false,
                                       beatsLeft := 0, bPending := true, bId := awId, awBusy := false)
    {
      Write(awAddr, early);
      earlyHave, beatsLeft, bPending, bId, awBusy := false, 0, true, awId, false;
    }

    method StepAw(p: Pins)
      modifies this
      ensures Value() == AfterAw(old(Value()), p)
    {
      if !awBusy && !p.awStall && p.awvalid {
        awId, awAddr, awLen, awBusy := p.awid, p.burst.addr, p.burst.len, true;
        beatsLeft, curAddr := p.burst.len + 1, p.burst.addr;
        if earlyHave {
          ApplyEarly();
        }
      }
    }

    method Audit(p: Pins)
      modifies `wlastErrors, `padBeats, `beatsSeen
      ensures wlastErrors == old(wlastErrors) + Bit(p.wlast != (beatsLeft == 1))
      ensures padBeats == old(padBeats) + Bit(NoStrobe(p.half))
      ensures beatsSeen == old(beatsSeen) + 1
    {
      if p.wlast != (beatsLeft == 1) {
        wlastErrors := wlastErrors + 1;
      }
      if NoStrobe(p.half) {
        padBeats := padBeats + 1;
      }
      beatsSeen := beatsSeen + 1;
    }

    method TakeBeat(p: Pins)
      modifies `wlastErrors, `padBeats, `beatsSeen, `store, `curAddr, `beatsLeft, `bPending, `bId, `awBusy
      ensures Value() == TakeData(old(Value()), p)
    {
      Audit(p);
      Write(curAddr, p.half);
      MoveOn();
    }

    method MoveOn()
      modifies `curAddr, `beatsLeft, `bPending, `bId, `awBusy
      ensures curAddr == Wrap32(old(curAddr) + 16) && beatsLeft == old(beatsLeft) - 1
      ensures if beatsLeft == 0 then bPending && bId == awId && !awBusy
              else bPending == old(bPending) && bId == old(bId) && awBusy == old(awBusy)
    {
      curAddr, beatsLeft := Wrap32(curAddr + 16), beatsLeft - 1;
      if beatsLeft == 0 {
        bPending, bId, awBusy := true, awId, false;
      }
    }

    method StepW(p: Pins)
      modifies this
      ensures Value() == AfterW(old(Value()), p)
    {
      if awBusy && beatsLeft > 0 && !bPending && !p.wStall {
        if p.wvalid {
          TakeBeat(p);
        }
      } else if p.earlyMode && !awBusy && !earlyHave && !bPending && !p.wStall && p.wvalid {
        early, earlyHave := p.half, true;
      }
    }

    method Step(p: Pins)
      modifies this
      ensures Value() == StepS0(old(Value()), p)
    {
      StepAw(p);
      StepW(p);
      if bPending && p.bready {
        bPending := false;
      }
    }
  }
}
