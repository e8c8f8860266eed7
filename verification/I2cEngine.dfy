/** The I2C master as the registers its clock edge updates. */
module I2cEngine {
  import opened Pio
  import opened I2c

  class Controller {
    var state: State
    var clkCnt: Int16
    var bitCnt: Int3
    var shift: Bits8
    var sclOe: bool
    var sdaOe: bool
    var ackRecv: bool
    var arbLost: bool
    var rxData: Bits8
    var xferDone: bool
    var xfer: Ctrl
    var pendingClr: bool
    var ctrl: Ctrl
    var pending: bool
    var txData: Bits8
    var prescale: Int16

    function Snapshot(): Regs
      reads this
    {
      Regs(state, clkCnt, bitCnt, shift, sclOe, sdaOe, ackRecv, arbLost, rxData, xferDone, xfer, pendingClr,
           ctrl, pending, txData, prescale)
    }

    constructor ()
      ensures Snapshot() == Regs(Idle, 0, 0, NO_FLAGS, false, false, false, false, NO_FLAGS, false,
                                 Ctrl(false, false, false, false), false,
                                 Ctrl(false, false, false, false), false, NO_FLAGS, 0)
    {
      state, clkCnt, bitCnt, shift, sclOe, sdaOe := Idle, 0, 0, NO_FLAGS, false, false;
      ackRecv, arbLost, rxData, xferDone := false, false, NO_FLAGS, false;
      xfer, pendingClr := Ctrl(false, false, false, false), false;
      ctrl, pending, txData, prescale := Ctrl(false, false, false, false), false, NO_FLAGS, 0;
    }

    /** The counter runs down, or is reloaded for the next state. */
    method Count(next: State) returns (tick: bool)
      modifies this`clkCnt, this`state
      ensures tick == ClkTick(old(Snapshot()))
      ensures Snapshot() == if tick then Enter(old(Snapshot()), next) else I2c.Wait(old(Snapshot()))
    {
      tick := clkCnt == 0 && prescale != 0;
      if tick {
        clkCnt := Dec16(prescale);
        state := next;
      } else {
        clkCnt := Dec16(clkCnt);
      }
    }

    method Reload(next: State)
      modifies this`clkCnt, this`state
      ensures Snapshot() == Enter(old(Snapshot()), next)
    {
      clkCnt := Dec16(prescale);
      state := next;
    }

    /** A byte and its control bits are taken up. */
    method Latch()
      modifies this`xfer, this`shift, this`bitCnt
      ensures Snapshot() == old(Snapshot()).(xfer := ctrl, shift := txData, bitCnt := 7)
    {
      xfer := ctrl;
      shift := txData;
      bitCnt := 7;
    }

    method DoIdle()
      modifies this`sclOe, this`sdaOe, this`xfer, this`shift, this`bitCnt, this`clkCnt, this`state
      ensures Snapshot() == InIdle(old(Snapshot()))
    {
      sclOe := false;
      sdaOe := false;
      if ctrl.start {
        Latch();
        Reload(StartA);
        sdaOe := true;
      }
    }

    method DoStartA()
      modifies this`sclOe, this`clkCnt, this`state
      ensures Snapshot() == InStartA(old(Snapshot()))
    {
      var tick := Count(StartB);
      if tick {
        sclOe := true;
      }
    }

    method DoStartB()
      modifies this`sdaOe, this`clkCnt, this`state
      ensures Snapshot() == InStartB(old(Snapshot()))
    {
      var tick := Count(DataLo);
      if tick {
        sdaOe := !xfer.read && !shift[7];
      }
    }

    method DoDataLo()
      modifies this`sclOe, this`clkCnt, this`state
      ensures Snapshot() == InDataLo(old(Snapshot()))
    {
      var tick := Count(DataHi);
      sclOe := !tick;
    }

    method DoAckLo()
      modifies this`sclOe, this`clkCnt, this`state
      ensures Snapshot() == InAckLo(old(Snapshot()))
    {
      var tick := Count(AckHi);
      sclOe := !tick;
    }

    method DoStopA()
      modifies this`sclOe, this`sdaOe, this`clkCnt, this`state
      ensures Snapshot() == InStopA(old(Snapshot()))
    {
      var tick := Count(StopB);
      sclOe := !tick;
      sdaOe := true;
    }

    method DoStopB()
      modifies this`sdaOe, this`clkCnt, this`state
      ensures Snapshot() == InStopB(old(Snapshot()))
    {
      if clkCnt == 0 && prescale != 0 {
        sdaOe := false;
        state := Done;
      } else {
        clkCnt := Dec16(clkCnt);
      }
    }

    method NextDataBit()
      requires bitCnt > 0
      modifies this`sdaOe, this`bitCnt
      ensures bitCnt == old(bitCnt) - 1 && sdaOe == (!xfer.read && !shift[bitCnt])
    {
      sdaOe := !xfer.read && !shift[bitCnt - 1];
      bitCnt := bitCnt - 1;
    }

    method Slot()
      modifies this`sclOe, this`sdaOe, this`bitCnt, this`clkCnt, this`state
      ensures Snapshot() == NextSlot(old(Snapshot()))
    {
      sclOe := true;
      if bitCnt == 0 {
        Reload(AckLo);
        sdaOe := xfer.read && xfer.ackEn;
      } else {
        Reload(DataLo);
        NextDataBit();
      }
    }

    method DoDataHi(sdaIn: bool)
      modifies this`sclOe, this`sdaOe, this`bitCnt, this`clkCnt, this`state, this`shift, this`arbLost
      ensures Snapshot() == InDataHi(old(Snapshot()), sdaIn)
    {
      hide NextSlot, ShiftBit;
      if clkCnt == 0 && prescale != 0 {
        var released, s := !sdaOe, shift;
        Slot();
        if xfer.read {
          shift := ShiftBit(s, sdaIn);
        } else if released && !sdaIn {
          arbLost := true;
        }
      } else {
        clkCnt := Dec16(clkCnt);
      }
    }

    method Acknowledged()
      modifies this`sclOe, this`sdaOe, this`clkCnt, this`state, this`pendingClr
      ensures Snapshot() == AfterAck(old(Snapshot()))
    {
      sclOe := true;
      if xfer.stop {
        sdaOe := true;
        Reload(StopA);
      } else {
        pendingClr := true;
        Reload(WaitNext);
      }
    }

    method DoAckHi(sdaIn: bool)
      modifies this`sclOe, this`sdaOe, this`clkCnt, this`state, this`pendingClr, this`ackRecv, this`rxData
      ensures Snapshot() == InAckHi(old(Snapshot()), sdaIn)
    {
      hide AfterAck;
      if clkCnt == 0 && prescale != 0 {
        if xfer.read {
          rxData := shift;
        } else {
          ackRecv := !sdaIn;
        }
        Acknowledged();
      } else {
        clkCnt := Dec16(clkCnt);
      }
    }

    method NextByte()
      modifies this`sclOe, this`sdaOe, this`clkCnt, this`state
      ensures Snapshot() ==
              Enter(old(Snapshot()), if ctrl.start then StartA else DataLo)
              .(sclOe := !ctrl.start, sdaOe := !ctrl.start && !ctrl.read && !txData[7])
    {
      sclOe := !ctrl.start;
      sdaOe := !ctrl.start && !ctrl.read && !txData[7];
      Reload(if ctrl.start then StartA else DataLo);
    }

    method DoWaitNext()
      modifies this`sclOe, this`sdaOe, this`xfer, this`shift, this`bitCnt, this`clkCnt, this`state, this`pendingClr
      ensures Snapshot() == InWaitNext(old(Snapshot()))
    {
      if pending {
        pendingClr := true;
        Latch();
        NextByte();
      } else {
        sclOe := true;
      }
    }

    method FsmEdge(sdaIn: bool)
      modifies this`sclOe, this`sdaOe, this`xfer, this`shift, this`bitCnt, this`clkCnt, this`state, this`pendingClr
      modifies this`ackRecv, this`rxData, this`arbLost, this`xferDone
      ensures Snapshot() == Fsm(old(Snapshot()), sdaIn)
    {
      hide InIdle, InStartA, InStartB, InDataLo, InDataHi, InAckLo, InAckHi, InStopA, InStopB, InWaitNext;
      match state {
        case Idle => DoIdle();
        case StartA => DoStartA();
        case StartB => DoStartB();
        case DataLo => DoDataLo();
        case DataHi => DoDataHi(sdaIn);
        case AckLo => DoAckLo();
        case AckHi => DoAckHi(sdaIn);
        case StopA => DoStopA();
        case StopB => DoStopB();
        case StopC => state := Done;
        case Done =>
          xferDone := true;
          state := Idle;
        case WaitNext => DoWaitNext();
      }
    }

    /** `q` is the registers before the edge. */
    method CtrlEdge(q: Regs, w: BusWrite)
      requires ctrl == q.ctrl && pending == q.pending
      modifies this`ctrl, this`pending
      ensures ctrl == CtrlNext(q, w) && pending == PendingNext(q, w)
    {
      if q.pendingClr {
        pending := false;
      }
      if Busy(q) {
        ctrl := q.ctrl.(start := false, stop := false);
      }
      if w.WriteCtrl? {
        ctrl := w.ctrl;
        pending := true;
      }
    }

    method BusEdge(q: Regs, w: BusWrite)
      requires ctrl == q.ctrl && pending == q.pending && txData == q.txData && prescale == q.prescale
      modifies this`ctrl, this`pending, this`txData, this`prescale
      ensures Snapshot() == Bus(old(Snapshot()), q, w)
    {
      hide CtrlNext, PendingNext;
      CtrlEdge(q, w);
      if w.WriteTxData? {
        txData := w.data;
      } else if w.WritePrescale? {
        prescale := w.value;
      }
    }

    /** One clock edge: the registers become what I2c.Clock says. */
    method Clock(sdaIn: bool, w: BusWrite)
      modifies this
      ensures Snapshot() == I2c.Clock(old(Snapshot()), sdaIn, w)
    {
      hide Fsm, Bus;
      var q := Snapshot();
      xferDone := false;
      pendingClr := false;
      FsmEdge(sdaIn);
      BusEdge(q, w);
    }
  }
}
