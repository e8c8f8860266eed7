/** The 2D convolution engine in the RTL's form: registers and a line buffer updated at each clock edge. */
module Conv2dEngine {
  import opened Words
  import opened Conv2d

  /** line_buffer: three rows of 64 pixels, one written per cycle, cleared by SOFT_RESET. */
  class LineBuffer {
    const lb: array<Int8>

    ghost predicate Valid() {
      lb.Length == 192
    }

    ghost function Contents(): Lines
      requires Valid()
      reads lb
    {
      lb[..]
    }

    constructor ()
      ensures Valid() && fresh(lb)
      ensures Contents() == seq(192, _ => 0)
    {
      lb := new Int8[192](_ => 0);
    }

    method Edge(clr: bool, wr: Option<Pixel>)
      requires Valid() && (wr.Some? ==> Fits(wr.value))
      modifies lb
      ensures Contents() ==
        if clr then seq(192, _ => 0) else if wr.Some? then Written(old(Contents()), wr.value) else old(Contents())
    {
      if clr {
        for p := 0 to 192
          invariant forall q :: 0 <= q < p ==> lb[q] == 0
        {
          lb[p] := 0;
        }
      } else if wr.Some? {
        lb[64 * wr.value.slot + wr.value.col] := wr.value.value;
      }
    }
  }

  class Engine {
    const lineBuffer: LineBuffer
    var cfg: Config
    var phase: Phase
    var busy: bool
    var done: bool
    var fillRow: Word
    var fillCol: Word
    var curRow: Word
    var curCol: Word
    var lag: Word
    var colEnd: Word
    var rowEnd: Word
    var remaining: Word
    var curDst: Word
    var peResult: Word
    var skip: bool

    ghost predicate Valid()
      reads this
    {
      lineBuffer.Valid()
    }

    ghost function Snapshot(): Regs
      requires Valid()
      reads this, lineBuffer.lb
    {
      Regs(phase, busy, done, fillRow, fillCol, curRow, curCol, lag, colEnd, rowEnd, remaining, curDst, peResult,
           skip, lineBuffer.Contents())
    }

    constructor ()
      ensures Valid() && fresh(lineBuffer.lb)
      ensures Snapshot() == Regs(Idle, false, false, 0, 0, 0, 0, 2, 0, 0, 0, 0, 0, false, seq(192, _ => 0))
    {
      lineBuffer := new LineBuffer();
      cfg := Config(0, 0, 8, 8, 3, false, false, seq(9, _ => 0));
      phase, busy, done := Idle, false, false;
      fillRow, fillCol, curRow, curCol := 0, 0, 0, 0;
      lag, colEnd, rowEnd, remaining, curDst, peResult, skip := 2, 0, 0, 0, 0, 0, false;
    }

    /** A write of CTRL.GO that finds the engine idle. */
    method WriteGo()
      requires Valid() && phase.Idle? && !busy
      modifies this
      ensures Valid() && cfg == old(cfg) && Snapshot() == Go(cfg, old(Snapshot()))
    {
      hide LagNext, ColEndNext, RowEndNext, TotalNext;
      LatchCounts();
      phase, busy, done := FillReq, true, false;
      fillRow, fillCol := 0, 0;
      skip := false;
    }

    method LatchCounts()
      modifies this`lag, this`colEnd, this`rowEnd, this`remaining, this`curDst
      ensures lag == LagNext(cfg) && colEnd == ColEndNext(cfg) && rowEnd == RowEndNext(cfg)
      ensures remaining == TotalNext(cfg) && curDst == cfg.dst
    {
      hide LagNext, ColEndNext, RowEndNext, TotalNext;
      lag, colEnd, rowEnd := LagNext(cfg), ColEndNext(cfg), RowEndNext(cfg);
      remaining := TotalNext(cfg);
      curDst := cfg.dst;
    }

    /** A write of CTRL.SOFT_RESET that finds the engine idle. */
    method WriteSoftReset()
      requires Valid() && phase.Idle?
      modifies this, lineBuffer.lb
      ensures Valid() && cfg == old(cfg)
      ensures Snapshot() == old(Snapshot()).(busy := false, done := false, remaining := 0, lines := seq(192, _ => 0))
    {
      busy, done, remaining := false, false, 0;
      lineBuffer.Edge(true, None);
    }

    /** The state after the current position, when more outputs are due or none was produced here. */
    function AfterPosition(): Phase
      reads this
    {
      if curCol < colEnd then SlideReq else if curRow < rowEnd then SlideReq else Idle
    }

    method NextPosition()
      modifies this`curRow, this`curCol, this`skip
      ensures curCol == if old(curCol) < colEnd then Add32(old(curCol), 1) else 0
      ensures curRow == if old(curCol) < colEnd then old(curRow) else Add32(old(curRow), 1)
      ensures skip == (old(curCol) < colEnd && cfg.zeroPad && cfg.width <= Add32(old(curCol), 1))
    {
      if curCol < colEnd {
        skip := cfg.zeroPad && cfg.width <= Add32(curCol, 1);
        curCol := Add32(curCol, 1);
      } else {
        curCol := 0;
        curRow := Add32(curRow, 1);
        skip := false;
      }
    }

    method OutputDelivered()
      requires Valid()
      modifies this
      ensures Valid() && cfg == old(cfg) && Snapshot() == Retire(cfg, old(Snapshot()))
    {
      hide Sub32, Add32;
      phase := if remaining == 1 then Idle else AfterPosition();
      if remaining != 1 {
        NextPosition();
      } else {
        busy, done := false, true;
      }
      remaining := Sub32(remaining, 1);
    }

    /** One rising edge. */
    method Clock(gnt: bool, rvalid: bool, rdata: Word, tready: bool)
      requires Valid()
      modifies this, lineBuffer.lb
      ensures Valid() && cfg == old(cfg)
      ensures Snapshot() == Conv2d.Clock(cfg, old(Snapshot()), gnt, rvalid, rdata, tready)
    {
      hide Pe, Window, Written, U32, S8, Slid, Filled, Retire, Add32;
      match phase {
        case Idle =>
        case FillReq => if gnt { phase := FillWait; }
        case FillWait =>
          if rvalid {
            var pixel := Pixel(fillRow % 3, fillCol % 64, S8(rdata));
            FillAdvance();
            lineBuffer.Edge(false, Some(pixel));
          }
        case SlideReq => if skip || gnt { phase := SlideWait; }
        case SlideWait =>
          if skip || rvalid {
            SlideAdvance(if skip then None else Some(Pixel(curRow % 3, curCol % 64, S8(rdata))));
          }
        case WrReq => if cfg.stream { phase := StreamOut; } else if gnt { phase := WrWait; }
        case WrWait =>
          if rvalid {
            var nextDst := Add32(curDst, 4);
            OutputDelivered();
            curDst := nextDst;
          }
        case StreamOut =>
          if tready {
            OutputDelivered();
          }
      }
    }

    method FillAdvance()
      requires Valid() && phase.FillWait?
      modifies this
      ensures Valid() && cfg == old(cfg) && Snapshot() == Filled(cfg, old(Snapshot()))
    {
      hide Add32, Sub32;
      if fillCol < Sub32(cfg.width, 1) {
        fillCol := Add32(fillCol, 1);
        phase := FillReq;
      } else {
        phase := if Add32(fillRow, 1) < lag then FillReq else SlideReq;
        fillCol := 0;
        if lag <= Add32(fillRow, 1) {
          curRow, curCol, skip := lag, 0, false;
        }
        fillRow := Add32(fillRow, 1);
      }
    }

    /** The pixel wr (none at a virtual position) enters the line buffer; the PE sees it already. */
    method SlideAdvance(wr: Option<Pixel>)
      requires Valid() && phase.SlideWait? && (wr.Some? ==> Fits(wr.value))
      modifies this, lineBuffer.lb
      ensures Valid() && cfg == old(cfg) && Snapshot() == Slid(cfg, old(Snapshot()), wr)
    {
      hide Pe, WindowTap, Written, U32;
      if lag <= curCol {
        var window := Window(cfg, Snap(), wr);
        var sum := PeLoop(window, cfg.kernel);
        peResult := U32(sum);
        phase := WrReq;
      } else {
        phase := AfterPosition();
        NextPosition();
      }
      lineBuffer.Edge(false, wr);
    }

    /** The registers as a value. */
    function Snap(): (r: Regs)
      requires lineBuffer.lb.Length == 192
      reads this, lineBuffer.lb
      ensures r == Snapshot()
    {
      Regs(phase, busy, done, fillRow, fillCol, curRow, curCol, lag, colEnd, rowEnd, remaining, curDst, peResult,
           skip, lineBuffer.lb[..])
    }
  }
}
