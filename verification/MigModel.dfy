/** The harness's behavioural memory controller: one outstanding burst per direction,
    32 bytes per beat, arbitrary stalls on AW, W and AR, byte-addressed sparse storage. */
module MigModel {
  import opened Bytes

  /** Registers of the write direction. */
  datatype WriteSide = WriteSide(
    awHave: bool, awAddr: int, awLen: int,
    wActive: bool, wAddr: int, wBeatsLeft: int,
    bPending: bool)

  /** Registers of the read direction. */
  datatype ReadSide = ReadSide(
    arHave: bool, arAddr: int, arLen: int,
    rActive: bool, rAddr: int, rBeatsLeft: int)

  datatype Mig = Mig(mem: Memory, w: WriteSide, r: ReadSide)

  /** One draw of the stall generator per ready signal. */
  datatype Stalls = Stalls(aw: bool, w: bool, ar: bool)

  /** What the controller drives in a cycle. */
  datatype Outputs = Outputs(
    awready: bool, wready: bool, bvalid: bool,
    arready: bool, rvalid: bool, rdata: seq<Byte>, rlast: bool)

  /** What the device under test drives in a cycle. */
  datatype Inputs = Inputs(
    awvalid: bool, awaddr: int, awlen: int,
    wvalid: bool, wbeat: Beat, bready: bool,
    arvalid: bool, araddr: int, arlen: int, rready: bool)

  const IDLE_WRITE := WriteSide(false, 0, 0, false, 0, 0, false)
  const IDLE_READ := ReadSide(false, 0, 0, false, 0, 0)

  function Drive(m: Mig, st: Stalls): Outputs {
    Outputs(
      !m.w.awHave && !m.w.wActive && !st.aw,
      m.w.wActive && !st.w,
      m.w.bPending,
      !m.r.arHave && !m.r.rActive && !st.ar,
      m.r.rActive,
      ReadLanes(m.mem, m.r.rAddr, 32),
      m.r.rActive && m.r.rBeatsLeft == 0)
  }

  function TakeAw(w: WriteSide, fire: bool, addr: int, len: int): WriteSide {
    var w1 := if fire then w.(awHave := true, awAddr := addr, awLen := len) else w;
    if w1.awHave && !w1.wActive then
      w1.(wActive := true, wAddr := w1.awAddr, wBeatsLeft := w1.awLen, awHave := false)
    else w1
  }

  function TakeW(w: WriteSide, fire: bool): WriteSide {
    if !fire then w
    else if w.wBeatsLeft == 0 then w.(wActive := false, bPending := true)
    else w.(wAddr := Wrap32(w.wAddr + 32), wBeatsLeft := w.wBeatsLeft - 1)
  }

  function TakeB(w: WriteSide, fire: bool): WriteSide {
    if w.bPending && fire then w.(bPending := false) else w
  }

  function TakeAr(r: ReadSide, fire: bool, addr: int, len: int): ReadSide {
    var r1 := if fire then r.(arHave := true, arAddr := addr, arLen := len) else r;
    if r1.arHave && !r1.rActive then
      r1.(rActive := true, rAddr := r1.arAddr, rBeatsLeft := r1.arLen, arHave := false)
    else r1
  }

  function TakeR(r: ReadSide, fire: bool): ReadSide {
    if !(r.rActive && fire) then r
    else if r.rBeatsLeft == 0 then r.(rActive := false)
    else r.(rAddr := Wrap32(r.rAddr + 32), rBeatsLeft := r.rBeatsLeft - 1)
  }

  function AdvanceWrite(m: Mig, o: Outputs, i: Inputs): Mig {
    var w1 := TakeAw(m.w, i.awvalid && o.awready, i.awaddr, i.awlen);
    var fire := w1.wActive && i.wvalid && o.wready;
    var mem := if fire then WriteBeat(m.mem, w1.wAddr, i.wbeat) else m.mem;
    m.(mem := mem, w := TakeB(TakeW(w1, fire), o.bvalid && i.bready))
  }

  function AdvanceRead(m: Mig, o: Outputs, i: Inputs): Mig {
    m.(r := TakeR(TakeAr(m.r, i.arvalid && o.arready, i.araddr, i.arlen), o.rvalid && i.rready))
  }

  /** One whole cycle: the write direction is observed before the read direction. */
  function Advance(m: Mig, o: Outputs, i: Inputs): Mig {
    AdvanceRead(AdvanceWrite(m, o, i), o, i)
  }

  function Cycle(m: Mig, st: Stalls, i: Inputs): Mig {
    Advance(m, Drive(m, st), i)
  }

  class Controller {
    var mem: Memory
    var awHave: bool
    var awAddr: int
    var awLen: int
    var wActive: bool
    var wAddr: int
    var wBeatsLeft: int
    var bPending: bool
    var arHave: bool
    var arAddr: int
    var arLen: int
    var rActive: bool
    var rAddr: int
    var rBeatsLeft: int

    ghost function State(): Mig
      reads this
    {
      Mig(mem, Writes(),
          ReadSide(arHave, arAddr, arLen, rActive, rAddr, rBeatsLeft))
    }

    constructor ()
      ensures State() == Mig(map[], IDLE_WRITE, IDLE_READ)
    {
      mem := map[];
      awHave, awAddr, awLen := false, 0, 0;
      wActive, wAddr, wBeatsLeft, bPending := false, 0, 0, false;
      arHave, arAddr, arLen := false, 0, 0;
      rActive, rAddr, rBeatsLeft := false, 0, 0;
    }

    /** Missing bytes read as zero. */
    method ReadBeat(addr: int) returns (v: seq<Byte>)
      ensures v == ReadLanes(mem, addr, 32)
    {
      v := [];
      for lane := 0 to 32
        invariant |v| == lane
        invariant forall i :: 0 <= i < lane ==> v[i] == Load(mem, LaneAddress(addr, i))
      {
        v := v + [Load(mem, LaneAddress(addr, lane))];
      }
    }

    method StoreBeat(addr: int, b: Beat)
      modifies `mem
      ensures mem == WriteBeat(old(mem), addr, b)
    {
      for lane := 0 to 32
        invariant mem == WriteLanes(old(mem), addr, b.data[..lane], b.strb[..lane])
      {
        assert b.data[..lane + 1][..lane] == b.data[..lane];
        assert b.strb[..lane + 1][..lane] == b.strb[..lane];
        if b.strb[lane] {
          mem := mem[LaneAddress(addr, lane) := b.data[lane]];
        }
      }
      assert b.data[..32] == b.data && b.strb[..32] == b.strb;
    }

    method DriveOutputs(st: Stalls) returns (o: Outputs)
      ensures o == Drive(State(), st)
    {
      var v := ReadBeat(rAddr);
      o := Outputs(!awHave && !wActive && !st.aw, wActive && !st.w, bPending,
                   !arHave && !rActive && !st.ar, rActive, v, rActive && rBeatsLeft == 0);
    }

    ghost function Writes(): WriteSide
      reads this
    {
      WriteSide(awHave, awAddr, awLen, wActive, wAddr, wBeatsLeft, bPending)
    }

    method ObserveAw(fire: bool, addr: int, len: int)
      modifies `awHave, `awAddr, `awLen, `wActive, `wAddr, `wBeatsLeft
      ensures Writes() == TakeAw(old(Writes()), fire, addr, len)
    {
      if fire {
        awHave, awAddr, awLen := true, addr, len;
      }
      if awHave && !wActive {
        wActive, wAddr, wBeatsLeft, awHave := true, awAddr, awLen, false;
      }
    }

    method ObserveW(fire: bool, b: Beat)
      modifies `mem, `wActive, `wAddr, `wBeatsLeft, `bPending
      ensures mem == if fire then WriteBeat(old(mem), old(wAddr), b) else old(mem)
      ensures Writes() == TakeW(old(Writes()), fire)
    {
      if fire {
        StoreBeat(wAddr, b);
        if wBeatsLeft == 0 {
          wActive, bPending := false, true;
        } else {
          wAddr, wBeatsLeft := Wrap32(wAddr + 32), wBeatsLeft - 1;
        }
      }
    }

    method ObserveWrite(o: Outputs, i: Inputs)
      modifies `mem, `awHave, `awAddr, `awLen, `wActive, `wAddr, `wBeatsLeft, `bPending
      ensures State() == AdvanceWrite(old(State()), o, i)
    {
      ObserveAw(i.awvalid && o.awready, i.awaddr, i.awlen);
      ObserveW(wActive && i.wvalid && o.wready, i.wbeat);
      if bPending && o.bvalid && i.bready {
        bPending := false;
      }
    }

    method ObserveRead(o: Outputs, i: Inputs)
      modifies `arHave, `arAddr, `arLen, `rActive, `rAddr, `rBeatsLeft
      ensures State() == AdvanceRead(old(State()), o, i)
    {
      if i.arvalid && o.arready {
        arHave, arAddr, arLen := true, i.araddr, i.arlen;
      }
      if arHave && !rActive {
        rActive, rAddr, rBeatsLeft, arHave := true, arAddr, arLen, false;
      }
      if rActive && o.rvalid && i.rready {
        if rBeatsLeft == 0 {
          rActive := false;
        } else {
          rAddr, rBeatsLeft := Wrap32(rAddr + 32), rBeatsLeft - 1;
        }
      }
    }

    method ObserveAndAdvance(o: Outputs, i: Inputs)
      modifies this
      ensures State() == Advance(old(State()), o, i)
    {
      ObserveWrite(o, i);
      ObserveRead(o, i);
    }
  }
}
