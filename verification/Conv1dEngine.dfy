/** The 1D convolution engine in the RTL's form: registers updated at each clock edge. */
module Conv1dEngine {
  import opened Words
  import opened Conv1d

  /** conv1d_shift_reg: sixteen stages, shifted in place, cleared by SOFT_RESET. */
  class ShiftReg {
    const reg: array<Int8>

    ghost predicate Valid() {
      reg.Length == 16
    }

    ghost function Contents(): Taps
      requires Valid()
      reads reg
    {
      reg[..]
    }

    constructor ()
      ensures Valid() && fresh(reg)
      ensures Contents() == seq(16, _ => 0)
    {
      reg := new Int8[16](_ => 0);
    }

    method Edge(clr: bool, load: bool, data: Int8)
      requires Valid()
      modifies reg
      ensures Contents() ==
        if clr then seq(16, _ => 0) else if load then Shifted(old(Contents()), data) else old(Contents())
    {
      if clr {
        for i := 0 to 16
          invariant forall j :: 0 <= j < i ==> reg[j] == 0
        {
          reg[i] := 0;
        }
      } else if load {
        for i := 16 downto 1
          invariant forall j :: 0 <= j < i ==> reg[j] == old(reg[j])
          invariant forall j :: i <= j < 16 ==> reg[j] == old(reg[j - 1])
        {
          reg[i] := reg[i - 1];
        }
        reg[0] := data;
      }
    }
  }

  class Engine {
    const shiftReg: ShiftReg
    var cfg: Config
    var phase: Phase
    var busy: bool
    var done: bool
    var curSrc: Word
    var curDst: Word
    var fill: Word
    var remaining: Word
    var peResult: Word

    ghost predicate Valid()
      reads this
    {
      shiftReg.Valid()
    }

    ghost function Snapshot(): Regs
      requires Valid()
      reads this, shiftReg.reg
    {
      Regs(phase, busy, done, curSrc, curDst, fill, remaining, peResult, shiftReg.Contents())
    }

    constructor ()
      ensures Valid() && fresh(shiftReg.reg)
      ensures Snapshot() == Regs(Idle, false, false, 0, 0, 0, 0, 0, seq(16, _ => 0))
    {
      shiftReg := new ShiftReg();
      cfg := Config(0, 0, 0, 1, false, false, seq(16, _ => 0));
      phase, busy, done := Idle, false, false;
      curSrc, curDst, fill, remaining, peResult := 0, 0, 0, 0, 0;
    }

    /** A write of CTRL.GO that finds the engine idle. */
    method WriteGo()
      requires Valid() && phase.Idle? && !busy
      modifies this
      ensures Valid() && cfg == old(cfg) && Snapshot() == Go(cfg, old(Snapshot()))
    {
      if cfg.length != 0 {
        phase, busy, done := RdReq, true, false;
        curSrc, curDst := cfg.src, cfg.dst;
        fill := if cfg.same then Sub32(cfg.kernelSize, 1) else 0;
        remaining := if cfg.same then cfg.length else Add32(Sub32(cfg.length, cfg.kernelSize), 1);
      } else {
        done := true;
      }
    }

    /** A write of CTRL.SOFT_RESET that finds the engine idle: flags, counters and the shift register are cleared. */
    method WriteSoftReset()
      requires Valid() && phase.Idle?
      modifies this, shiftReg.reg
      ensures Valid() && cfg == old(cfg)
      ensures Snapshot() == old(Snapshot()).(busy := false, done := false, fill := 0, remaining := 0,
                                             shift := seq(16, _ => 0))
    {
      busy, done, fill, remaining := false, false, 0, 0;
      shiftReg.Edge(true, false, 0);
    }

    /** One rising edge: the combinational next state, then every register. */
    method Clock(gnt: bool, rvalid: bool, rdata: Word, tready: bool)
      requires Valid()
      modifies this, shiftReg.reg
      ensures Valid() && cfg == old(cfg)
      ensures Snapshot() == Conv1d.Clock(cfg, old(Snapshot()), gnt, rvalid, rdata, tready)
    {
      var next := phase;
      match phase {
        case Idle =>
        case RdReq => if gnt { next := RdWait; }
        case RdWait =>
          if rvalid {
            next := if Filled() then (if cfg.stream then StreamOut else WrReq) else RdReq;
          }
        case WrReq => if gnt { next := WrWait; }
        case WrWait => if rvalid { next := if remaining == 1 then Idle else RdReq; }
        case StreamOut => if tready { next := if remaining == 1 then Idle else RdReq; }
      }
      match phase {
        case RdWait =>
          if rvalid {
            var vregs := Bypass(shiftReg.reg[..], rdata);
            var sum := PeLoop(vregs, cfg.weights, cfg.kernelSize);
            peResult := U32(sum);
            fill := Add32(fill, 1);
            curSrc := Add32(curSrc, 4);
            shiftReg.Edge(false, true, S8(rdata));
          }
        case WrWait =>
          if rvalid {
            curDst := Add32(curDst, 4);
            if remaining == 1 {
              busy, done := false, true;
            }
            remaining := Sub32(remaining, 1);
          }
        case StreamOut =>
          if tready {
            if remaining == 1 {
              busy, done := false, true;
            }
            remaining := Sub32(remaining, 1);
          }
        case _ =>
      }
      phase := next;
    }

    predicate Filled()
      reads this
    {
      cfg.kernelSize <= Add32(fill, 1)
    }
  }
}
