/** The PIO state machine as the registers its clock edge updates. */
module PioSmEngine {
  import opened Words
  import opened Pio
  import opened PioSm

  /** `q` in the methods below is the registers before the edge: what the right-hand sides of the edge read. */
  class Sm {
    var pc: Int5
    var isr: Bits32
    var osr: Bits32
    var x: Bits32
    var y: Bits32
    var isrCnt: Int6
    var osrCnt: Int6
    var pinsOut: Bits32
    var pinsOe: Bits32
    var div: Int16
    var delay: Int5
    var useForced: bool
    var pending: Int16
    var pendingValid: bool
    var irqWait: bool
    var irqSet: Bits8
    var irqClr: Bits8
    var txPull: bool
    var rxPush: bool
    var rxData: Bits32

    function Snapshot(): Regs
      reads this
    {
      Regs(pc, isr, osr, x, y, isrCnt, osrCnt, pinsOut, pinsOe, div, delay, useForced, pending, pendingValid, irqWait,
           irqSet, irqClr, txPull, rxPush, rxData)
    }

    constructor ()
      ensures Snapshot() == RESET
    {
      pc, isr, osr, x, y, isrCnt, osrCnt := 0, ZERO, ZERO, ZERO, ZERO, 0, 0;
      pinsOut, pinsOe, div, delay, useForced := ZERO, ZERO, 0, 0, false;
      pending, pendingValid, irqWait := 0, false, false;
      irqSet, irqClr, txPull, rxPush, rxData := NO_FLAGS, NO_FLAGS, false, false, ZERO;
    }

    method ApplySideSet(c: Config, q: Regs, side: Int5)
      requires pinsOut == q.pinsOut && pinsOe == q.pinsOe
      modifies this`pinsOut, this`pinsOe
      ensures Snapshot() == SideSet(c, old(Snapshot()), side)
    {
      hide WritePins, ToBits32, SideValue, SideWidth, SideApplies;
      if SideApplies(c, side) {
        if c.sidePindir {
          pinsOe := WritePins(q.pinsOe, ToBits32(SideValue(c, side)), c.sideBase, SideWidth(c));
        } else {
          pinsOut := WritePins(q.pinsOut, ToBits32(SideValue(c, side)), c.sideBase, SideWidth(c));
        }
      }
    }

    method Jmp(c: Config, v: Inputs, q: Regs, i: Instr) returns (target: Option<Int5>)
      requires x == q.x && y == q.y
      modifies this`x, this`y
      ensures Effect(Snapshot(), false, target) == DoJmp(c, v, q, old(Snapshot()), i)
    {
      hide TakesJump, Dec;
      target := if TakesJump(c, v, q, i.hi) then Some(i.lo) else None;
      if i.hi == 2 {
        x := Dec(q.x);
      } else if i.hi == 4 {
        y := Dec(q.y);
      }
    }

    method Wait(c: Config, v: Inputs, i: Instr) returns (stall: bool)
      modifies this`irqClr
      ensures Effect(Snapshot(), stall, None) == DoWait(c, v, old(Snapshot()), i)
    {
      hide WaitMet, RelativeFlag, Flag;
      stall := !WaitMet(c, v, i);
      if i.hi == 6 && !stall {
        irqClr := Flag(irqClr, RelativeFlag(i.lo, c.index), true);
      }
    }

    method PushWord(data: Bits32)
      modifies this`isr, this`isrCnt, this`rxPush, this`rxData
      ensures Snapshot() == Push(old(Snapshot()), data)
    {

      rxPush := true;
      rxData := data;
      isr := ZERO;
      isrCnt := 0;
    }

    method PullWord(data: Bits32)
      modifies this`osr, this`osrCnt, this`txPull
      ensures Snapshot() == Pull(old(Snapshot()), data)
    {
      txPull := true;
      osr := data;
      osrCnt := 0;
    }

    method In(c: Config, v: Inputs, q: Regs, i: Instr) returns (stall: bool)
      modifies this`isr, this`isrCnt, this`rxPush, this`rxData
      ensures Effect(Snapshot(), stall, None) == DoIn(c, v, q, old(Snapshot()), i)
    {
      hide InSource, ShiftIn, Low, Count, Threshold, Push;
      stall := false;
      var shifted := ShiftIn(q.isr, Low(InSource(c, v, q, i.hi), Count(i.lo)), i.lo, c.inRight);
      isr := shifted;
      isrCnt := (q.isrCnt + Count(i.lo)) % 64;
      if c.autopush && (q.isrCnt + Count(i.lo)) % 64 >= Threshold(c.pushThresh) {
        if !v.rxFull {
          PushWord(shifted);
        } else {
          stall := true;
        }
      }
    }

    method OutPinsOrScratch(c: Config, q: Regs, data: Bits32, dst: Int3)
      requires dst <= 4
      modifies this`pinsOut, this`pinsOe, this`x, this`y
      ensures Snapshot() == OutTo(c, q, old(Snapshot()), data, dst)
    {
      hide WritePins, Low16;
      match dst {
        case 0 => pinsOut := WritePins(q.pinsOut, data, c.outBase, c.outCount);
        case 1 => x := data;
        case 2 => y := data;
        case 4 => pinsOe := WritePins(q.pinsOe, data, c.outBase, c.outCount);
        case _ =>
      }
    }

    method OutIsrOrExec(c: Config, q: Regs, data: Bits32, dst: Int3)
      requires dst > 4
      modifies this`isr, this`isrCnt, this`pending, this`pendingValid
      ensures Snapshot() == OutTo(c, q, old(Snapshot()), data, dst)
    {
      hide WritePins, Low16;
      if dst == 6 {
        isr := data;
        isrCnt := 0;
      } else if dst == 7 {
        pending := Low16(data);
        pendingValid := true;
      }
    }

    method Out(c: Config, v: Inputs, q: Regs, i: Instr) returns (stall: bool, target: Option<Int5>)
      modifies this`osr, this`osrCnt, this`txPull
      modifies this`pinsOut, this`pinsOe, this`x, this`y, this`isr, this`isrCnt, this`pending, this`pendingValid
      ensures Effect(Snapshot(), stall, target) == DoOut(c, v, q, old(Snapshot()), i)
    {
      hide ShiftOutData, ShiftOutRemain, Low5, Count, OsrEmpty, OutTo, Pull;
      stall := false;
      target := None;
      if c.autopull && OsrEmpty(c, q) {
        stall := true;
        if !v.txEmpty {
          PullWord(v.txData);
        }
      } else {
        var data := ShiftOutData(q.osr, i.lo, c.outRight);
        osr := ShiftOutRemain(q.osr, i.lo, c.outRight);
        osrCnt := (q.osrCnt + Count(i.lo)) % 64;
        if i.hi <= 4 {
          OutPinsOrScratch(c, q, data, i.hi);
        } else {
          OutIsrOrExec(c, q, data, i.hi);
        }
        if i.hi == 5 {
          target := Some(Low5(data));
        }
      }
    }

    method PushPull(c: Config, v: Inputs, q: Regs, i: Instr) returns (stall: bool)
      modifies this`osr, this`osrCnt, this`txPull, this`isr, this`isrCnt, this`rxPush, this`rxData
      ensures Effect(Snapshot(), stall, None) == DoPushPull(c, v, q, old(Snapshot()), i)
    {
      hide OsrEmpty, Threshold, Push, Pull;
      stall := false;
      if i.hi < 4 {
        if !((i.hi / 2) % 2 == 1 && q.isrCnt < Threshold(c.pushThresh)) {
          if !v.rxFull {
            PushWord(q.isr);
          } else {
            stall := i.hi % 2 == 1;
          }
        }
      } else if !((i.hi / 2) % 2 == 1 && !OsrEmpty(c, q)) {
        if !v.txEmpty {
          PullWord(v.txData);
        } else if i.hi % 2 == 1 {
          stall := true;
        } else {
          osr := q.x;
          osrCnt := 0;
        }
      }
    }

    method MovPinsOrScratch(c: Config, q: Regs, data: Bits32, dst: Int3)
      requires dst <= 3
      modifies this`pinsOut, this`x, this`y
      ensures Snapshot() == MovTo(c, q, old(Snapshot()), data, dst)
    {
      hide WritePins, Low16;
      match dst {
        case 0 => pinsOut := WritePins(q.pinsOut, data, c.outBase, c.outCount);
        case 1 => x := data;
        case 2 => y := data;
        case _ =>
      }
    }

    method MovRegOrExec(c: Config, q: Regs, data: Bits32, dst: Int3)
      requires dst > 3
      modifies this`osr, this`isr, this`isrCnt, this`pending, this`pendingValid
      ensures Snapshot() == MovTo(c, q, old(Snapshot()), data, dst)
    {
      hide WritePins, Low16;
      if dst == 4 {
        pending := Low16(data);
        pendingValid := true;
      } else if dst == 6 {
        isr := data;
        isrCnt := 0;
      } else if dst == 7 {
        osr := data;
      }
    }

    method Mov(c: Config, v: Inputs, q: Regs, i: Instr) returns (target: Option<Int5>)
      modifies this`osr, this`pinsOut, this`x, this`y, this`isr, this`isrCnt, this`pending, this`pendingValid
      ensures Effect(Snapshot(), false, target) == DoMov(c, v, q, old(Snapshot()), i)
    {
      hide MovTo, MovValue, Low5;
      target := None;
      var val := MovValue(v, q, i.lo);
      if i.hi <= 3 {
        MovPinsOrScratch(c, q, val, i.hi);
      } else {
        MovRegOrExec(c, q, val, i.hi);
      }
      if i.hi == 5 {
        target := Some(Low5(val));
      }
    }

    method Irq(c: Config, v: Inputs, q: Regs, i: Instr) returns (stall: bool)
      requires irqWait == q.irqWait
      modifies this`irqSet, this`irqClr, this`irqWait
      ensures Effect(Snapshot(), stall, None) == DoIrq(c, v, q, old(Snapshot()), i)
    {
      hide RelativeFlag, Flag;
      var flag, wait, clear := RelativeFlag(i.lo, c.index), (i.hi / 2) % 2 == 1, i.hi % 2 == 1;
      ghost var before := irqSet;
      stall := false;
      if clear {
        irqClr := Flag(irqClr, flag, true);
      } else {
        irqSet := Flag(irqSet, flag, true);
      }
      if wait && !clear {
        stall := AwaitFlag(v, q, flag, before);
      }
    }

    /** The later of two assignments to a bit of irqSet, which was `before` ahead of the first, wins. */
    method AwaitFlag(v: Inputs, q: Regs, flag: Int3, ghost before: Bits8) returns (stall: bool)
      requires irqWait == q.irqWait && irqSet == Flag(before, flag, true)
      modifies this`irqSet, this`irqWait
      ensures Effect(Snapshot(), stall, None) == RaiseIrq(v, q, old(Snapshot()).(irqSet := before), flag, true)
    {
      if !q.irqWait {
        stall := true;
        irqWait := true;
      } else if v.irqFlags[flag] {
        irqSet := irqSet[flag := false];
        stall := true;
      } else {
        irqSet := irqSet[flag := false];
        stall := false;
        irqWait := false;
      }
    }

    method Set(c: Config, q: Regs, i: Instr)
      modifies this`pinsOut, this`pinsOe, this`x, this`y
      ensures Effect(Snapshot(), false, None) == DoSet(c, q, old(Snapshot()), i)
    {
      hide WritePins, ToBits32;
      var data := ToBits32(i.lo);
      match i.hi {
        case 0 => pinsOut := WritePins(q.pinsOut, data, c.setBase, c.setCount);
        case 1 => x := data;
        case 2 => y := data;
        case 4 => pinsOe := WritePins(q.pinsOe, data, c.setBase, c.setCount);
        case _ =>
      }
    }

    method Dispatched(c: Config, v: Inputs, q: Regs, i: Instr) returns (stall: bool, target: Option<Int5>)
      requires x == q.x && y == q.y && irqWait == q.irqWait
      modifies this`isr, this`osr, this`x, this`y, this`isrCnt, this`osrCnt, this`pinsOut, this`pinsOe
      modifies this`pending, this`pendingValid, this`irqWait, this`irqSet, this`irqClr
      modifies this`txPull, this`rxPush, this`rxData
      ensures Effect(Snapshot(), stall, target) == Dispatch(c, v, q, old(Snapshot()), i)
    {
      hide DoJmp, DoWait, DoIn, DoOut, DoPushPull, DoMov, DoIrq, DoSet;
      stall, target := false, None;
      match i.op {
        case 0 => target := Jmp(c, v, q, i);
        case 1 => stall := Wait(c, v, i);
        case 2 => stall := In(c, v, q, i);
        case 3 => stall, target := Out(c, v, q, i);
        case 4 => stall := PushPull(c, v, q, i);
        case 5 => target := Mov(c, v, q, i);
        case 6 => stall := Irq(c, v, q, i);
        case _ => Set(c, q, i);
      }
    }

    /** Everything of an instruction after its effect: program counter, delay, and the pending word used up. */
    method Finish(c: Config, q: Regs, i: Instr, stall: bool, target: Option<Int5>)
      requires pc == q.pc
      modifies this`pc, this`delay, this`pendingValid
      ensures Snapshot() == Retire(c, q, i, Effect(old(Snapshot()), stall, target))
    {
      hide Advance, InstrDelay;
      if target.Some? {
        pc := target.value;
      } else if !stall && !(i.op != JMP && (q.useForced || q.pendingValid)) {
        pc := Advance(c, q.pc);
      }
      if !stall {
        delay := InstrDelay(c, i.side);
        if q.pendingValid {
          pendingValid := false;
        }
      }
    }

    method ExecuteSelected(c: Config, v: Inputs, q: Regs)
      requires Snapshot() == Begin(q)
      modifies this
      ensures Snapshot() == Execute(c, v, q, old(Snapshot()))
    {
      hide Dispatch, Retire, SideSet, Decode;
      var i := Decode(Selected(v, q));
      ApplySideSet(c, q, i.side);
      var stall, target := Dispatched(c, v, q, i);
      Finish(c, q, i, stall, target);
    }

    method ClearScratch()
      modifies this`isr, this`osr, this`x, this`y
      ensures Snapshot() == old(Snapshot()).(isr := ZERO, osr := ZERO, x := ZERO, y := ZERO)
    {
      isr := ZERO;
      osr := ZERO;
      x := ZERO;
      y := ZERO;
    }

    method ClearCounts()
      modifies this`isrCnt, this`osrCnt, this`delay
      ensures Snapshot() == old(Snapshot()).(isrCnt := 0, osrCnt := 0, delay := 0)
    {
      isrCnt := 0;
      osrCnt := 0;
      delay := 0;
    }

    method RestartNow(c: Config)
      modifies this`pc, this`isr, this`osr, this`x, this`y, this`isrCnt, this`osrCnt, this`delay
      modifies this`pendingValid, this`irqWait
      ensures Snapshot() == Restart(c, old(Snapshot()))
    {
      ClearScratch();
      ClearCounts();
      pc := c.wrapBot;
      pendingValid := false;
      irqWait := false;
    }

    method ClearPulses()
      modifies this`irqSet, this`irqClr, this`txPull, this`rxPush
      ensures Snapshot() == Begin(old(Snapshot()))
    {
      irqSet := NO_FLAGS;
      irqClr := NO_FLAGS;
      txPull := false;
      rxPush := false;
    }

    /** One clock edge: the registers become what PioSm.Clock says. */
    method Clock(c: Config, v: Inputs)
      modifies this
      ensures Snapshot() == PioSm.Clock(c, v, old(Snapshot()))
    {
      hide Begin, Execute, Restart, Executes, Tick, DivNext, ForcedNext;
      var q := Snapshot();
      ClearPulses();
      if v.restart {
        RestartNow(c);
      } else if Executes(v, q) {
        ExecuteSelected(c, v, q);
      } else if Tick(v, q) {
        DelayLeft(v, q);
        delay := q.delay - 1;
      }
      div := DivNext(c, v, q);
      useForced := ForcedNext(v, q);
    }
  }

  lemma DelayLeft(v: Inputs, q: Regs)
    requires !v.restart && Tick(v, q) && !Executes(v, q)
    ensures q.delay > 0
  {
  }
}
