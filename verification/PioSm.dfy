/** One PIO state machine: the nine-instruction interpreter, its delays and side-set, and the program counter.

    `Clock` is one rising edge of the clock. Fields ending in a register's name hold that register; `irqSet`, `irqClr`,
    `txPull` and `rxPush` are the one-cycle pulses. */
module PioSm {
  import opened Words
  import opened Pio

  datatype Config = Config(
    clkdiv: Int16, jmpPin: Int5, wrapTop: Int5, wrapBot: Int5,
    autopull: bool, autopush: bool, pullThresh: Int5, pushThresh: Int5, outRight: bool, inRight: bool,
    outBase: Int5, outCount: Int6, setBase: Int5, setCount: Int3, inBase: Int5,
    sideBase: Int5, sideCount: Int3, sideEn: bool, sidePindir: bool, index: Int2)

  /** What the state machine sees in one clock; `instr` is the instruction memory's word at the program counter. */
  datatype Inputs = Inputs(
    enable: bool, restart: bool, instr: Int16, forceExec: bool, forceInstr: Int16,
    txData: Bits32, txEmpty: bool, rxFull: bool, pins: Bits32, irqFlags: Bits8)

  datatype Regs = Regs(
    pc: Int5, isr: Bits32, osr: Bits32, x: Bits32, y: Bits32, isrCnt: Int6, osrCnt: Int6,
    pinsOut: Bits32, pinsOe: Bits32, div: Int16, delay: Int5,
    useForced: bool, pending: Int16, pendingValid: bool, irqWait: bool,
    irqSet: Bits8, irqClr: Bits8, txPull: bool, rxPush: bool, rxData: Bits32)

  const RESET: Regs :=
    Regs(0, ZERO, ZERO, ZERO, ZERO, 0, 0, ZERO, ZERO, 0, 0, false, 0, false, false, NO_FLAGS, NO_FLAGS, false, false, ZERO)

  // ---------------------------------------------------------------- decoding

  datatype Instr = Instr(op: Int3, side: Int5, hi: Int3, lo: Int5)

  /** Opcode in bits 15:13, delay and side-set in 12:8, operands in 7:5 and 4:0. */
  function Decode(w: Int16): Instr {
    Instr(w / 32 / 8 / 32, (w / 32 / 8) % 32, (w / 32) % 8, w % 32)
  }

  function Encode(i: Instr): Int16 {
    ((i.op * 32 + i.side) * 8 + i.hi) * 32 + i.lo
  }

  lemma DecodeEncode(i: Instr)
    ensures Decode(Encode(i)) == i
  {
    var a: int := i.op * 32 + i.side;
    var b: int := a * 8 + i.hi;
    assert Encode(i) == b * 32 + i.lo;
    assert (b * 32 + i.lo) / 32 == b && (b * 32 + i.lo) % 32 == i.lo;
    assert (a * 8 + i.hi) / 8 == a && (a * 8 + i.hi) % 8 == i.hi;
    assert (i.op * 32 + i.side) / 32 == i.op && (i.op * 32 + i.side) % 32 == i.side;
  }

  const JMP: Int3 := 0
  const IN: Int3 := 2
  const OUT: Int3 := 3
  const PUSH_PULL: Int3 := 4
  const MOV: Int3 := 5
  const IRQ: Int3 := 6

  /** The delay below the side-set bits of the five-bit field. */
  function InstrDelay(c: Config, side: Int5): Int5 {
    match c.sideCount
    case 1 => side % 16
    case 2 => side % 8
    case 3 => side % 4
    case 4 => side % 2
    case 5 => 0
    case _ => side
  }

  /** The side-set data: the top `sideCount` bits of the field, less the enable bit when there is one. */
  function SideValue(c: Config, side: Int5): Int5 {
    if c.sideEn then TopBits(c.sideCount, side % 16) else TopBits(c.sideCount, side)
  }

  function TopBits(count: Int3, side: Int5): Int5 {
    match count
    case 1 => side / 16
    case 2 => side / 8
    case 3 => side / 4
    case 4 => side / 2
    case 5 => side
    case _ => 0
  }

  predicate SideApplies(c: Config, side: Int5) {
    1 <= c.sideCount <= 5 && (c.sideEn ==> side >= 16)
  }

  function SideWidth(c: Config): nat {
    if c.sideEn then (c.sideCount + 7) % 8 else c.sideCount
  }

  function Threshold(field: Int5): nat {
    if field == 0 then 32 else field
  }

  predicate OsrEmpty(c: Config, r: Regs) {
    r.osrCnt >= Threshold(c.pullThresh)
  }

  /** The next program counter in sequence. */
  function Advance(c: Config, pc: Int5): Int5 {
    if pc == c.wrapTop then c.wrapBot else if pc == 31 then 0 else pc + 1
  }

  function RelativeFlag(raw: Int5, sm: Int2): Int3 {
    if raw >= 16 then (raw % 8 + sm) % 4 else raw % 8
  }

  function Flag(flags: Bits8, i: Int3, on: bool): Bits8 {
    flags[i := on]
  }

  // ---------------------------------------------------------------- the instructions

  /** What an instruction does: the registers it leaves (all but the program counter and the delay), whether it
      stalls, and the address it sets the program counter to, if it does. */
  datatype Effect = Effect(r: Regs, stall: bool, target: Option<Int5>)

  function SideSet(c: Config, r: Regs, side: Int5): Regs {
    if !SideApplies(c, side) then r
    else
      var data := ToBits32(SideValue(c, side));
      if c.sidePindir then r.(pinsOe := WritePins(r.pinsOe, data, c.sideBase, SideWidth(c)))
      else r.(pinsOut := WritePins(r.pinsOut, data, c.sideBase, SideWidth(c)))
  }

  predicate TakesJump(c: Config, v: Inputs, q: Regs, cond: Int3) {
    match cond
    case 0 => true
    case 1 => q.x == ZERO
    case 2 => q.x != ZERO
    case 3 => q.y == ZERO
    case 4 => q.y != ZERO
    case 5 => q.x != q.y
    case 6 => v.pins[c.jmpPin]
    case _ => !OsrEmpty(c, q)
  }

  /** In each of these, `q` holds the registers before the clock and `r` those registers after the side-set. */
  function DoJmp(c: Config, v: Inputs, q: Regs, r: Regs, i: Instr): Effect {
    Effect(if i.hi == 2 then r.(x := Dec(q.x)) else if i.hi == 4 then r.(y := Dec(q.y)) else r,
           false, if TakesJump(c, v, q, i.hi) then Some(i.lo) else None)
  }

  /** The condition of a WAIT holds: a pin by number, a pin counted from the input base, or an interrupt flag. */
  predicate WaitMet(c: Config, v: Inputs, i: Instr) {
    match i.hi % 4
    case 0 => v.pins[i.lo] == (i.hi >= 4)
    case 1 => v.pins[(c.inBase + i.lo) % 32] == (i.hi >= 4)
    case 2 => v.irqFlags[RelativeFlag(i.lo, c.index)] == (i.hi >= 4)
    case _ => true
  }

  function DoWait(c: Config, v: Inputs, r: Regs, i: Instr): Effect {
    Effect(if i.hi == 6 && WaitMet(c, v, i) then r.(irqClr := Flag(r.irqClr, RelativeFlag(i.lo, c.index), true)) else r,
           !WaitMet(c, v, i), None)
  }

  /** Hands a word to the RX FIFO and empties the ISR. */
  function Push(r: Regs, data: Bits32): Regs {
    r.(rxPush := true, rxData := data, isr := ZERO, isrCnt := 0)
  }

  /** Fills the OSR with the word at the head of the TX FIFO. */
  function Pull(r: Regs, data: Bits32): Regs {
    r.(txPull := true, osr := data, osrCnt := 0)
  }

  function InSource(c: Config, v: Inputs, q: Regs, src: Int3): Bits32 {
    match src
    case 0 => ReadPins(v.pins, c.inBase, 32)
    case 1 => q.x
    case 2 => q.y
    case 6 => q.isr
    case 7 => q.osr
    case _ => ZERO
  }

  function DoIn(c: Config, v: Inputs, q: Regs, r: Regs, i: Instr): Effect {
    var data := Low(InSource(c, v, q, i.hi), Count(i.lo));
    var shifted := ShiftIn(q.isr, data, i.lo, c.inRight);
    var count := (q.isrCnt + Count(i.lo)) % 64;
    var r' := r.(isr := shifted, isrCnt := count);
    if c.autopush && count >= Threshold(c.pushThresh) then
      if !v.rxFull then Effect(Push(r', shifted), false, None)
      else Effect(r', true, None)
    else Effect(r', false, None)
  }

  function OutTo(c: Config, q: Regs, r: Regs, data: Bits32, dst: Int3): Regs {
    match dst
    case 0 => r.(pinsOut := WritePins(q.pinsOut, data, c.outBase, c.outCount))
    case 1 => r.(x := data)
    case 2 => r.(y := data)
    case 4 => r.(pinsOe := WritePins(q.pinsOe, data, c.outBase, c.outCount))
    case 6 => r.(isr := data, isrCnt := 0)
    case 7 => r.(pending := Low16(data), pendingValid := true)
    case _ => r
  }

  function DoOut(c: Config, v: Inputs, q: Regs, r: Regs, i: Instr): Effect {
    if c.autopull && OsrEmpty(c, q) then Effect(if !v.txEmpty then Pull(r, v.txData) else r, true, None)
    else
      var data := ShiftOutData(q.osr, i.lo, c.outRight);
      var r' := r.(osr := ShiftOutRemain(q.osr, i.lo, c.outRight), osrCnt := (q.osrCnt + Count(i.lo)) % 64);
      Effect(OutTo(c, q, r', data, i.hi), false, if i.hi == 5 then Some(Low5(data)) else None)
  }

  function DoPushPull(c: Config, v: Inputs, q: Regs, r: Regs, i: Instr): Effect {
    if i.hi < 4 then
      if (i.hi / 2) % 2 == 1 && q.isrCnt < Threshold(c.pushThresh) then Effect(r, false, None)
      else if !v.rxFull then Effect(Push(r, q.isr), false, None)
      else Effect(r, i.hi % 2 == 1, None)
    else if (i.hi / 2) % 2 == 1 && !OsrEmpty(c, q) then Effect(r, false, None)
    else if !v.txEmpty then Effect(Pull(r, v.txData), false, None)
    else if i.hi % 2 == 1 then Effect(r, true, None)
    else Effect(r.(osr := q.x, osrCnt := 0), false, None)
  }

  function MovSource(v: Inputs, q: Regs, src: Int3): Bits32 {
    match src
    case 0 => v.pins
    case 1 => q.x
    case 2 => q.y
    case 6 => q.isr
    case 7 => q.osr
    case _ => ZERO
  }

  function MovValue(v: Inputs, q: Regs, lo: Int5): Bits32 {
    if lo / 8 == 1 then Not(MovSource(v, q, lo % 8)) else MovSource(v, q, lo % 8)
  }

  function MovTo(c: Config, q: Regs, r: Regs, data: Bits32, dst: Int3): Regs {
    match dst
    case 0 => r.(pinsOut := WritePins(q.pinsOut, data, c.outBase, c.outCount))
    case 1 => r.(x := data)
    case 2 => r.(y := data)
    case 4 => r.(pending := Low16(data), pendingValid := true)
    case 6 => r.(isr := data, isrCnt := 0)
    case 7 => r.(osr := data)
    case _ => r
  }

  function DoMov(c: Config, v: Inputs, q: Regs, r: Regs, i: Instr): Effect {
    Effect(MovTo(c, q, r, MovValue(v, q, i.lo), i.hi), false,
           if i.hi == 5 then Some(Low5(MovValue(v, q, i.lo))) else None)
  }

  /** Raising and waiting: the first clock of a wait stalls, and later ones stall while the flag is still up. */
  function RaiseIrq(v: Inputs, q: Regs, r: Regs, flag: Int3, wait: bool): Effect {
    if !wait then Effect(r.(irqSet := Flag(r.irqSet, flag, true)), false, None)
    else if !q.irqWait then Effect(r.(irqSet := Flag(r.irqSet, flag, true), irqWait := true), true, None)
    else if v.irqFlags[flag] then Effect(r.(irqSet := Flag(r.irqSet, flag, false)), true, None)
    else Effect(r.(irqSet := Flag(r.irqSet, flag, false), irqWait := false), false, None)
  }

  function DoIrq(c: Config, v: Inputs, q: Regs, r: Regs, i: Instr): Effect {
    if i.hi % 2 == 1 then Effect(r.(irqClr := Flag(r.irqClr, RelativeFlag(i.lo, c.index), true)), false, None)
    else RaiseIrq(v, q, r, RelativeFlag(i.lo, c.index), (i.hi / 2) % 2 == 1)
  }

  function SetTo(c: Config, q: Regs, r: Regs, data: Bits32, dst: Int3): Regs {
    match dst
    case 0 => r.(pinsOut := WritePins(q.pinsOut, data, c.setBase, c.setCount))
    case 1 => r.(x := data)
    case 2 => r.(y := data)
    case 4 => r.(pinsOe := WritePins(q.pinsOe, data, c.setBase, c.setCount))
    case _ => r
  }

  function DoSet(c: Config, q: Regs, r: Regs, i: Instr): Effect {
    Effect(SetTo(c, q, r, ToBits32(i.lo), i.hi), false, None)
  }

  function Dispatch(c: Config, v: Inputs, q: Regs, r: Regs, i: Instr): Effect {
    match i.op
    case 0 => DoJmp(c, v, q, r, i)
    case 1 => DoWait(c, v, r, i)
    case 2 => DoIn(c, v, q, r, i)
    case 3 => DoOut(c, v, q, r, i)
    case 4 => DoPushPull(c, v, q, r, i)
    case 5 => DoMov(c, v, q, r, i)
    case 6 => DoIrq(c, v, q, r, i)
    case _ => DoSet(c, q, r, i)
  }

  // ---------------------------------------------------------------- one clock

  predicate Tick(v: Inputs, r: Regs) {
    r.div == 0 && v.enable
  }

  /** An instruction is carried out in this clock. */
  predicate Executes(v: Inputs, r: Regs) {
    !v.restart && Tick(v, r) && (r.delay == 0 || v.forceExec)
  }

  function DivTop(c: Config): Int16 {
    if c.clkdiv <= 1 then 0 else c.clkdiv - 1
  }

  function DivNext(c: Config, v: Inputs, r: Regs): Int16 {
    if !v.enable || r.div == 0 then DivTop(c) else r.div - 1
  }

  function ForcedNext(v: Inputs, r: Regs): bool {
    if v.forceExec then true else if Tick(v, r) && r.delay == 0 then false else r.useForced
  }

  /** The word carried out: forced, then pending, then fetched. */
  function Selected(v: Inputs, r: Regs): Int16 {
    if r.useForced then v.forceInstr else if r.pendingValid then r.pending else v.instr
  }

  /** An instruction word from outside the program leaves the program counter where it is unless it is a jump. */
  function NextPc(c: Config, q: Regs, op: Int3, e: Effect): Int5 {
    if e.target.Some? then e.target.value
    else if e.stall || (op != JMP && (q.useForced || q.pendingValid)) then q.pc
    else Advance(c, q.pc)
  }

  function Retire(c: Config, q: Regs, i: Instr, e: Effect): Regs {
    e.r.(pc := NextPc(c, q, i.op, e),
         delay := if e.stall then e.r.delay else InstrDelay(c, i.side),
         pendingValid := if q.pendingValid && !e.stall then false else e.r.pendingValid)
  }

  function Execute(c: Config, v: Inputs, q: Regs, r: Regs): Regs {
    var i := Decode(Selected(v, q));
    Retire(c, q, i, Dispatch(c, v, q, SideSet(c, r, i.side), i))
  }

  function Restart(c: Config, r: Regs): Regs {
    r.(pc := c.wrapBot, isr := ZERO, osr := ZERO, x := ZERO, y := ZERO, isrCnt := 0, osrCnt := 0, delay := 0,
       pendingValid := false, irqWait := false)
  }

  function Begin(q: Regs): Regs {
    q.(irqSet := NO_FLAGS, irqClr := NO_FLAGS, txPull := false, rxPush := false)
  }

  /** The main block of the edge. */
  function Work(c: Config, v: Inputs, q: Regs): Regs {
    if v.restart then Restart(c, Begin(q))
    else if Executes(v, q) then Execute(c, v, q, Begin(q))
    else if Tick(v, q) then Begin(q).(delay := q.delay - 1)
    else Begin(q)
  }

  /** One rising edge: the main block, and the blocks of the divider and the forced-instruction flag. */
  function Clock(c: Config, v: Inputs, q: Regs): Regs {
    Work(c, v, q).(div := DivNext(c, v, q), useForced := ForcedNext(v, q))
  }

  /** The registers after the clocks of `vs`. */
  function Run(c: Config, vs: seq<Inputs>, r: Regs): Regs {
    if vs == [] then r else Run(c, vs[1..], Clock(c, vs[0], r))
  }

  /** The program counter before each clock of `vs`, and after the last. */
  function Pcs(c: Config, vs: seq<Inputs>, r: Regs): (p: seq<Int5>)
    ensures |p| == |vs| + 1
  {
    if vs == [] then [r.pc] else [r.pc] + Pcs(c, vs[1..], Clock(c, vs[0], r))
  }

  /** The instruction words carried out along the clocks of `vs`, stalled attempts included. */
  function Trace(c: Config, vs: seq<Inputs>, r: Regs): seq<Int16> {
    if vs == [] then []
    else (if Executes(vs[0], r) then [Selected(vs[0], r)] else []) + Trace(c, vs[1..], Clock(c, vs[0], r))
  }

  // ---------------------------------------------------------------- timing

  /** Clocks until the next instruction is carried out, while the machine runs undisturbed. */
  function Remaining(c: Config, r: Regs): int {
    Cell(r.delay, r.div, DivTop(c) + 1)
  }

  predicate RunsFreely(v: Inputs) {
    v.enable && !v.restart && !v.forceExec
  }

  lemma ClockCountsDown(c: Config, v: Inputs, q: Regs)
    requires RunsFreely(v)
    ensures 0 <= Remaining(c, q)
    ensures Executes(v, q) <==> Remaining(c, q) == 0
    ensures Remaining(c, q) > 0 ==> Remaining(c, Clock(c, v, q)) == Remaining(c, q) - 1
  {
    hide Execute, Cell, DivTop;
    CellAt(q.delay, q.div, DivTop(c) + 1);
    if q.delay > 0 {
      CellAt(q.delay - 1, DivTop(c), DivTop(c) + 1);
    }
    if q.div > 0 {
      CellAt(q.delay, q.div - 1, DivTop(c) + 1);
    }
  }

  lemma CellAt(row: nat, col: nat, w: nat)
    requires w > 0
    ensures 0 <= Cell(row, col, w) == row * w + col
    ensures Cell(row, col, w) == 0 <==> row == 0 && col == 0
    ensures row > 0 ==> Cell(row - 1, w - 1, w) == Cell(row, 0, w) - 1
  {
    if row > 0 {
      Monotone(1, row, w);
    }
  }

  lemma RemainingBound(c: Config, q: Regs)
    ensures 0 <= Remaining(c, q)
  {
    CellAt(q.delay, q.div, DivTop(c) + 1);
  }

  /** Running undisturbed, nothing is carried out for exactly Remaining clocks, and then the next instruction is. */
  lemma {:induction false} TimedExactly(c: Config, vs: seq<Inputs>, q: Regs)
    requires |vs| == Remaining(c, q) + 1 && forall t :: 0 <= t < |vs| ==> RunsFreely(vs[t])
    ensures var last := |vs| - 1;
            && Trace(c, vs[..last], q) == []
            && Executes(vs[last], Run(c, vs[..last], q))
    decreases |vs|
  {
    hide Clock, Executes, Remaining, RunsFreely, Selected;
    RemainingBound(c, q);
    ClockCountsDown(c, vs[0], q);
    if |vs| > 1 {
      var last := |vs| - 1;
      TimedExactly(c, vs[1..], Clock(c, vs[0], q));
      assert vs[..last][1..] == vs[1..][..last - 1];
    }
  }

  /** An instruction that does not stall, with delay d, is followed by the next exactly (d + 1) * max(1, divisor) clocks
      later. */
  lemma InstructionPeriod(c: Config, v: Inputs, q: Regs)
    requires RunsFreely(v) && Executes(v, q)
    requires var i := Decode(Selected(v, q)); !Dispatch(c, v, q, SideSet(c, Begin(q), i.side), i).stall
    ensures var i := Decode(Selected(v, q));
            var period := if c.clkdiv <= 1 then 1 else c.clkdiv;
            Remaining(c, Clock(c, v, q)) + 1 == (InstrDelay(c, i.side) + 1) * period
  {
    hide Dispatch, Decode, SideSet, InstrDelay, NextPc, Selected, Cell;
    var i := Decode(Selected(v, q));
    assert Clock(c, v, q).delay == InstrDelay(c, i.side) && Clock(c, v, q).div == DivTop(c);
    CellAt(InstrDelay(c, i.side), DivTop(c), DivTop(c) + 1);
    OneRowMore(InstrDelay(c, i.side), DivTop(c) + 1);
  }

  lemma OneRowMore(row: nat, w: nat)
    ensures (row + 1) * w == row * w + w
  {
  }

  // ---------------------------------------------------------------- a counted loop

  /** JMP X--, a. */
  predicate IsCountdown(w: Int16, a: Int5) {
    var i := Decode(w);
    i.op == JMP && i.hi == 2 && i.lo == a
  }

  /** Nothing but the fetched word is carried out. */
  predicate FetchesOnly(q: Regs) {
    !q.useForced && !q.pendingValid
  }

  predicate Sees(v: Inputs, w: Int16) {
    !v.restart && !v.forceExec && v.instr == w
  }

  lemma CountdownStep(c: Config, v: Inputs, q: Regs, w: Int16)
    requires IsCountdown(w, q.pc) && FetchesOnly(q) && Sees(v, w) && Executes(v, q)
    ensures var r := Clock(c, v, q);
            && FetchesOnly(r) && r.x == Dec(q.x)
            && r.pc == if Value(q.x) == 0 then Advance(c, q.pc) else q.pc
  {
    ZeroValue(q.x);
    assert (q.x == ZERO) == (Value(q.x) == 0);
    hide Decode, Dec, SideValue, SideWidth, SideApplies, WritePins, ToBits32, InstrDelay, DivNext, Value;
  }

  lemma IdleLoop(c: Config, v: Inputs, q: Regs, w: Int16)
    requires FetchesOnly(q) && Sees(v, w) && !Executes(v, q)
    ensures var r := Clock(c, v, q);
            FetchesOnly(r) && r.x == q.x && r.pc == q.pc
  {
    hide Execute, DivNext;
  }

  /** A JMP X-- to itself is carried out X + 1 times: while at most X have been, the program counter stays; with one
      more it moves on. */
  lemma {:induction false} CountdownLoops(c: Config, vs: seq<Inputs>, q: Regs, w: Int16)
    requires IsCountdown(w, q.pc) && FetchesOnly(q)
    requires forall t :: 0 <= t < |vs| ==> Sees(vs[t], w)
    requires |Trace(c, vs, q)| <= Value(q.x) + 1
    ensures Run(c, vs, q).pc == if |Trace(c, vs, q)| <= Value(q.x) then q.pc else Advance(c, q.pc)
    decreases |vs|
  {
    hide Clock, IsCountdown, Executes, Selected, Value, Dec, FetchesOnly, Sees, Advance;
    if vs != [] {
      var r := Clock(c, vs[0], q);
      if !Executes(vs[0], q) {
        IdleLoop(c, vs[0], q, w);
        CountdownLoops(c, vs[1..], r, w);
      } else {
        CountdownStep(c, vs[0], q, w);
        DecSubtracts(q.x);
        if Value(q.x) == 0 {
          StaysPut(c, vs[1..], r, w);
        } else {
          CountdownLoops(c, vs[1..], r, w);
        }
      }
    }
  }

  lemma {:induction false} StaysPut(c: Config, vs: seq<Inputs>, q: Regs, w: Int16)
    requires FetchesOnly(q) && forall t :: 0 <= t < |vs| ==> Sees(vs[t], w)
    requires Trace(c, vs, q) == []
    ensures Run(c, vs, q).pc == q.pc
    decreases |vs|
  {
    hide Clock, Executes, Selected, FetchesOnly, Sees;
    if vs != [] {
      IdleLoop(c, vs[0], q, w);
      StaysPut(c, vs[1..], Clock(c, vs[0], q), w);
    }
  }

  // ---------------------------------------------------------------- waiting for a FIFO or a flag

  /** PULL, with its IF_EMPTY and BLOCK bits, and PUSH, with its IF_FULL and BLOCK bits. */
  predicate IsPull(w: Int16, ifEmpty: bool, block: bool) {
    var i := Decode(w);
    i.op == PUSH_PULL && i.hi == 4 + (if ifEmpty then 2 else 0) + (if block then 1 else 0)
  }

  predicate IsPush(w: Int16, ifFull: bool, block: bool) {
    var i := Decode(w);
    i.op == PUSH_PULL && i.hi == (if ifFull then 2 else 0) + (if block then 1 else 0)
  }

  /** IRQ WAIT on flag number f. */
  predicate IsIrqWait(c: Config, w: Int16, f: Int3) {
    var i := Decode(w);
    i.op == IRQ && i.hi % 4 == 2 && RelativeFlag(i.lo, c.index) == f
  }

  /** MOV ISR, !OSR. */
  predicate IsInvert(w: Int16) {
    var i := Decode(w);
    i.op == MOV && i.hi == 6 && i.lo == 15
  }

  /** The program counter after an instruction that came from the program. */
  predicate MovesOn(c: Config, q: Regs, r: Regs, stalls: bool) {
    FetchesOnly(r) && r.pc == if stalls then q.pc else Advance(c, q.pc)
  }

  predicate SameShift(q: Regs, r: Regs) {
    r.osr == q.osr && r.osrCnt == q.osrCnt && r.isr == q.isr && r.isrCnt == q.isrCnt
  }

  /** A PULL stalls exactly when it blocks and finds TX empty; otherwise it loads the word at the head, or X when TX is
      empty, unless IF_EMPTY holds it back. */
  lemma PullStep(c: Config, v: Inputs, q: Regs, w: Int16, ifEmpty: bool, block: bool)
    requires IsPull(w, ifEmpty, block) && FetchesOnly(q) && Sees(v, w) && Executes(v, q)
    ensures var r, held := Clock(c, v, q), ifEmpty && !OsrEmpty(c, q);
            && MovesOn(c, q, r, !held && v.txEmpty && block) && !r.rxPush
            && r.txPull == (!held && !v.txEmpty)
            && r.isr == q.isr && r.isrCnt == q.isrCnt
            && if held || (v.txEmpty && block) then r.osr == q.osr && r.osrCnt == q.osrCnt
               else r.osr == (if v.txEmpty then q.x else v.txData) && r.osrCnt == 0
  {
    hide Decode, SideValue, SideWidth, SideApplies, WritePins, ToBits32, InstrDelay, DivNext, OsrEmpty, Threshold;
  }

  /** A PUSH stalls exactly when it blocks and finds RX full; otherwise it hands over the ISR and empties it, or loses
      nothing and does nothing when RX is full, unless IF_FULL holds it back. */
  lemma PushStep(c: Config, v: Inputs, q: Regs, w: Int16, ifFull: bool, block: bool)
    requires IsPush(w, ifFull, block) && FetchesOnly(q) && Sees(v, w) && Executes(v, q)
    ensures var r, held := Clock(c, v, q), ifFull && q.isrCnt < Threshold(c.pushThresh);
            && MovesOn(c, q, r, !held && v.rxFull && block) && !r.txPull
            && r.rxPush == (!held && !v.rxFull)
            && r.osr == q.osr && r.osrCnt == q.osrCnt
            && if r.rxPush then r.rxData == q.isr && r.isr == ZERO && r.isrCnt == 0
               else r.rxData == q.rxData && r.isr == q.isr && r.isrCnt == q.isrCnt
  {
    hide Decode, SideValue, SideWidth, SideApplies, WritePins, ToBits32, InstrDelay, DivNext, Threshold;
  }

  lemma InvertStep(c: Config, v: Inputs, q: Regs, w: Int16)
    requires IsInvert(w) && FetchesOnly(q) && Sees(v, w) && Executes(v, q)
    ensures var r := Clock(c, v, q);
            && MovesOn(c, q, r, false) && !r.txPull && !r.rxPush
            && r.isr == Not(q.osr) && r.isrCnt == 0 && r.osr == q.osr && r.osrCnt == q.osrCnt
  {
    hide Decode, SideValue, SideWidth, SideApplies, WritePins, ToBits32, InstrDelay, DivNext, Not;
  }

  /** A clock in which nothing is carried out. */
  lemma NothingDone(c: Config, v: Inputs, q: Regs, w: Int16)
    requires FetchesOnly(q) && Sees(v, w) && !Executes(v, q)
    ensures var r := Clock(c, v, q);
            && MovesOn(c, q, r, true) && SameShift(q, r) && r.rxData == q.rxData && r.irqWait == q.irqWait
            && !r.txPull && !r.rxPush && r.irqSet == NO_FLAGS
  {
    hide Execute, DivNext;
  }

  /** Every attempt along the run finds TX empty, or RX full. */
  predicate TxStaysEmpty(c: Config, vs: seq<Inputs>, q: Regs) {
    vs == [] || ((Executes(vs[0], q) ==> vs[0].txEmpty) && TxStaysEmpty(c, vs[1..], Clock(c, vs[0], q)))
  }

  predicate RxStaysFull(c: Config, vs: seq<Inputs>, q: Regs) {
    vs == [] || ((Executes(vs[0], q) ==> vs[0].rxFull) && RxStaysFull(c, vs[1..], Clock(c, vs[0], q)))
  }

  /** A blocking PULL stays put, and the shift registers with it, for as long as its attempts find TX empty; at the
      first attempt that does not, it loads the word at the head and moves on. */
  lemma {:induction false} PullWaits(c: Config, vs: seq<Inputs>, q: Regs, w: Int16, v: Inputs)
    requires IsPull(w, false, true) && FetchesOnly(q) && forall t :: 0 <= t < |vs| ==> Sees(vs[t], w)
    requires TxStaysEmpty(c, vs, q)
    ensures var r := Run(c, vs, q);
            && r.pc == q.pc && SameShift(q, r) && (vs != [] ==> !r.txPull)
            && (Sees(v, w) && Executes(v, r) && !v.txEmpty ==>
                  var r' := Clock(c, v, r);
                  r'.osr == v.txData && r'.osrCnt == 0 && r'.txPull && r'.pc == Advance(c, q.pc))
    decreases |vs|
  {
    hide Clock, IsPull, Executes, Sees, Advance, FetchesOnly;
    if vs != [] {
      if Executes(vs[0], q) {
        PullStep(c, vs[0], q, w, false, true);
      } else {
        NothingDone(c, vs[0], q, w);
      }
      PullWaits(c, vs[1..], Clock(c, vs[0], q), w, v);
    } else if Sees(v, w) && Executes(v, q) {
      PullStep(c, v, q, w, false, true);
    }
  }

  /** A blocking PUSH stays put, and the shift registers with it, for as long as its attempts find RX full; at the
      first attempt that does not, it hands over the ISR, empties it and moves on. */
  lemma {:induction false} PushWaits(c: Config, vs: seq<Inputs>, q: Regs, w: Int16, v: Inputs)
    requires IsPush(w, false, true) && FetchesOnly(q) && forall t :: 0 <= t < |vs| ==> Sees(vs[t], w)
    requires RxStaysFull(c, vs, q)
    ensures var r := Run(c, vs, q);
            && r.pc == q.pc && SameShift(q, r) && (vs != [] ==> !r.rxPush)
            && (Sees(v, w) && Executes(v, r) && !v.rxFull ==>
                  var r' := Clock(c, v, r);
                  r'.rxPush && r'.rxData == q.isr && r'.isr == ZERO && r'.isrCnt == 0 && r'.pc == Advance(c, q.pc))
    decreases |vs|
  {
    hide Clock, IsPush, Executes, Sees, Advance, FetchesOnly;
    if vs != [] {
      if Executes(vs[0], q) {
        PushStep(c, vs[0], q, w, false, true);
      } else {
        NothingDone(c, vs[0], q, w);
      }
      PushWaits(c, vs[1..], Clock(c, vs[0], q), w, v);
    } else if Sees(v, w) && Executes(v, q) {
      PushStep(c, v, q, w, false, true);
    }
  }

  /** The first attempt of an IRQ WAIT raises its flag and stalls; a later one stalls if the flag is up and moves on if
      it is down. */
  lemma IrqStep(c: Config, v: Inputs, q: Regs, w: Int16, f: Int3)
    requires IsIrqWait(c, w, f) && FetchesOnly(q) && Sees(v, w) && Executes(v, q)
    ensures var r, stalls := Clock(c, v, q), !q.irqWait || v.irqFlags[f];
            && MovesOn(c, q, r, stalls) && r.irqWait == stalls && r.irqClr == NO_FLAGS
            && r.irqSet == (if q.irqWait then NO_FLAGS else Flag(NO_FLAGS, f, true))
            && (stalls ==> r.delay == q.delay) && r.div == DivTop(c)
  {
    hide Decode, SideValue, SideWidth, SideApplies, WritePins, ToBits32, InstrDelay, DivTop;
    FlagDown(f);
  }

  lemma FlagDown(f: Int3)
    ensures Flag(NO_FLAGS, f, false) == NO_FLAGS
  {
  }

  /** Every attempt after the first along the run finds flag f up. */
  predicate FlagStaysUp(c: Config, vs: seq<Inputs>, q: Regs, f: Int3) {
    vs == [] ||
    ((Executes(vs[0], q) && q.irqWait ==> vs[0].irqFlags[f]) && FlagStaysUp(c, vs[1..], Clock(c, vs[0], q), f))
  }

  /** Clocks of the run that leave the pulse that raises flag f. */
  function Pulses(c: Config, vs: seq<Inputs>, q: Regs, f: Int3): nat {
    if vs == [] then 0
    else (if Clock(c, vs[0], q).irqSet[f] then 1 else 0) + Pulses(c, vs[1..], Clock(c, vs[0], q), f)
  }

  /** An IRQ WAIT raises its flag once, however long it waits; it stays put for as long as its later attempts find the
      flag up, and moves on at the first that does not. */
  lemma {:induction false} IrqWaits(c: Config, vs: seq<Inputs>, q: Regs, w: Int16, f: Int3, v: Inputs)
    requires IsIrqWait(c, w, f) && FetchesOnly(q) && forall t :: 0 <= t < |vs| ==> Sees(vs[t], w)
    requires FlagStaysUp(c, vs, q, f)
    ensures var r := Run(c, vs, q);
            && r.pc == q.pc && r.irqWait == (q.irqWait || Trace(c, vs, q) != [])
            && Pulses(c, vs, q, f) == (if !q.irqWait && Trace(c, vs, q) != [] then 1 else 0)
            && (Sees(v, w) && Executes(v, r) && r.irqWait && !v.irqFlags[f] ==>
                  var r' := Clock(c, v, r);
                  r'.pc == Advance(c, q.pc) && !r'.irqWait && r'.irqSet == NO_FLAGS)
    decreases |vs|
  {
    hide Clock, IsIrqWait, Executes, Sees, Advance, FetchesOnly, Selected;
    if vs != [] {
      if Executes(vs[0], q) {
        IrqStep(c, vs[0], q, w, f);
      } else {
        NothingDone(c, vs[0], q, w);
      }
      IrqWaits(c, vs[1..], Clock(c, vs[0], q), w, f, v);
    } else if Sees(v, w) && Executes(v, q) {
      IrqStep(c, v, q, w, f);
    }
  }

  // ---------------------------------------------------------------- waiting for a level

  /** What a WAIT looks at: a pin by its number, or a flag by its number. */
  datatype Looked = OnPin(pin: Int5) | OnFlag(flag: Int3)

  function LevelOf(v: Inputs, on: Looked): bool {
    match on
    case OnPin(p) => v.pins[p]
    case OnFlag(f) => v.irqFlags[f]
  }

  /** WAIT for `level` on a pin by its own number, on a pin counted from the input base, or on a flag, which may be
      counted from the state machine's number. */
  predicate IsWait(c: Config, w: Int16, on: Looked, level: bool) {
    && w / 0x2000 == 1 && (level <==> w % 0x100 >= 0x80)
    && match on
       case OnPin(p) => (w / 0x20 % 4 == 0 && p == w % 0x20) || (w / 0x20 % 4 == 1 && p == (c.inBase + w % 0x20) % 32)
       case OnFlag(f) => w / 0x20 % 4 == 2 && f == if w % 0x20 < 16 then w % 8 else (w + c.index) % 4
  }

  /** Nothing of the registers a program can read has changed, nor, unless there is side-set, the pins it drives. */
  predicate SameData(c: Config, q: Regs, r: Regs) {
    && SameShift(q, r) && r.x == q.x && r.y == q.y && r.rxData == q.rxData && r.irqWait == q.irqWait
    && (c.sideCount == 0 ==> r.pinsOut == q.pinsOut && r.pinsOe == q.pinsOe)
  }

  /** No pulse but, perhaps, the one that clears a flag. */
  predicate Pulseless(r: Regs, cleared: Option<Int3>) {
    && !r.txPull && !r.rxPush && r.irqSet == NO_FLAGS
    && forall f: Int3 :: r.irqClr[f] <==> cleared == Some(f)
  }

  lemma WaitFields(c: Config, w: Int16, on: Looked, level: bool)
    requires IsWait(c, w, on, level)
    ensures var i := Decode(w);
            && i.op == 1 && (level <==> i.hi >= 4)
            && match on
               case OnPin(p) => (i.hi % 4 == 0 && p == i.lo) || (i.hi % 4 == 1 && p == (c.inBase + i.lo) % 32)
               case OnFlag(f) => i.hi % 4 == 2 && f == RelativeFlag(i.lo, c.index)
  {
    var k, lo := w / 32, w % 32;
    assert w / 32 / 8 / 32 == w / 0x2000;
    WaitPolarity(w);
    LowFields(w);
    Counted(w, c.index);
    WaitSource(k);
  }

  lemma WaitPolarity(w: Int16)
    ensures w / 32 % 8 >= 4 <==> w % 0x100 >= 0x80
  {
    var a, b, lo := w / 0x100, w / 32 % 8, w % 32;
    assert w / 32 / 8 == a;
    assert w == 0x100 * a + (32 * b + lo);
    DivMod(w, 32 * b + lo, 0x100, a);
  }

  lemma WaitSource(k: nat)
    ensures k % 8 % 4 == k % 4
  {
  }

  lemma LowFields(w: Int16)
    ensures w % 32 / 8 == w / 8 % 4 && w % 32 % 8 == w % 8
  {
    var a, b, r := w / 32, w % 32 / 8, w % 32 % 8;
    DivMod(w, r, 8, 4 * a + b);
    DivMod(4 * a + b, b, 4, a);
  }

  lemma Counted(w: Int16, index: Int2)
    ensures (w % 8 + index) % 4 == (w + index) % 4
  {
    var n, a := w / 8, w % 8 + index;
    assert w + index == 4 * (2 * n) + a;
    Dropped(2 * n, a);
  }

  lemma Dropped(n: int, a: int)
    ensures (4 * n + a) % 4 == a % 4
  {
  }

  lemma OnlyFlag(f: Int3)
    ensures forall g: Int3 :: Flag(NO_FLAGS, f, true)[g] <==> f == g
    ensures forall g: Int3 :: !NO_FLAGS[g]
  {
  }

  /** One attempt of a WAIT: it stalls exactly while it sees the other level, and changes nothing either way, but that a
      WAIT for a flag to be up clears the flag when it moves on. */
  lemma WaitStep(c: Config, v: Inputs, q: Regs, w: Int16, on: Looked, level: bool)
    requires IsWait(c, w, on, level) && FetchesOnly(q) && Sees(v, w) && Executes(v, q)
    ensures var r, stalls := Clock(c, v, q), LevelOf(v, on) != level;
            && MovesOn(c, q, r, stalls) && SameData(c, q, r)
            && Pulseless(r, if !stalls && level && on.OnFlag? then Some(on.flag) else None)
            && (stalls ==> r.delay == q.delay)
  {
    hide Decode, SideValue, SideWidth, WritePins, ToBits32, InstrDelay, DivNext, IsWait, RelativeFlag, Flag;
    WaitFields(c, w, on, level);
    OnlyFlag(RelativeFlag(Decode(w).lo, c.index));
  }

  lemma IdleWait(c: Config, v: Inputs, q: Regs, w: Int16)
    requires FetchesOnly(q) && Sees(v, w) && !Executes(v, q)
    ensures var r := Clock(c, v, q);
            MovesOn(c, q, r, true) && SameData(c, q, r) && Pulseless(r, None)
  {
    hide Execute, DivNext, Flag;
    OnlyFlag(0);
  }

  /** Every attempt along the run sees the other level. */
  predicate StaysAway(c: Config, vs: seq<Inputs>, q: Regs, on: Looked, level: bool) {
    vs == [] ||
    ((Executes(vs[0], q) ==> LevelOf(vs[0], on) != level) && StaysAway(c, vs[1..], Clock(c, vs[0], q), on, level))
  }

  predicate StaysQuiet(c: Config, vs: seq<Inputs>, q: Regs) {
    vs == [] || (Pulseless(Clock(c, vs[0], q), None) && StaysQuiet(c, vs[1..], Clock(c, vs[0], q)))
  }

  /** A WAIT stays put, changes no register and shows no pulse for as long as its attempts see the other level, however
      long that is; it moves on at the first attempt that sees the level it asks for. Then, and only if it waited for a
      flag to be up, it clears that flag, in one clock. */
  lemma {:induction false} WaitWaits(c: Config, vs: seq<Inputs>, q: Regs, w: Int16, on: Looked, level: bool, v: Inputs)
    requires IsWait(c, w, on, level) && FetchesOnly(q) && forall t :: 0 <= t < |vs| ==> Sees(vs[t], w)
    requires StaysAway(c, vs, q, on, level)
    ensures var r := Run(c, vs, q);
            && r.pc == q.pc && SameData(c, q, r) && StaysQuiet(c, vs, q)
            && (Sees(v, w) && Executes(v, r) && LevelOf(v, on) == level ==>
                  var r' := Clock(c, v, r);
                  && r'.pc == Advance(c, q.pc) && SameData(c, q, r')
                  && Pulseless(r', if level && on.OnFlag? then Some(on.flag) else None))
    decreases |vs|
  {
    hide Clock, IsWait, Executes, Sees, Advance, FetchesOnly, LevelOf, Pulseless;
    if vs != [] {
      if Executes(vs[0], q) {
        WaitStep(c, vs[0], q, w, on, level);
      } else {
        IdleWait(c, vs[0], q, w);
      }
      WaitWaits(c, vs[1..], Clock(c, vs[0], q), w, on, level, v);
    } else if Sees(v, w) && Executes(v, q) {
      WaitStep(c, v, q, w, on, level);
    }
  }

  // ---------------------------------------------------------------- the program counter stays in its program

  /** The instruction cannot name an address outside lo..hi: its jump is inside, and it writes neither PC nor EXEC. */
  predicate Confined(w: Int16, lo: Int5, hi: Int5) {
    var i := Decode(w);
    && (i.op == JMP ==> lo <= i.lo <= hi)
    && (i.op == OUT ==> i.hi != 5 && i.hi != 7)
    && (i.op == MOV ==> i.hi != 4 && i.hi != 5)
  }

  predicate Within(r: Regs, lo: Int5, hi: Int5) {
    lo <= r.pc <= hi && (r.pendingValid ==> Confined(r.pending, lo, hi))
  }

  predicate WrapsInside(c: Config, lo: Int5, hi: Int5) {
    lo <= c.wrapBot <= c.wrapTop && c.wrapTop == hi
  }

  /** The effect of a confined instruction: no new pending word, and a target, if any, inside. */
  predicate EffectConfined(q: Regs, e: Effect, lo: Int5, hi: Int5) {
    && e.r.pc == q.pc && e.r.pendingValid == q.pendingValid && e.r.pending == q.pending
    && (e.target.Some? ==> lo <= e.target.value <= hi)
  }

  lemma OutConfined(c: Config, v: Inputs, q: Regs, r: Regs, i: Instr, lo: Int5, hi: Int5)
    requires i.hi != 5 && i.hi != 7
    ensures EffectConfined(r, DoOut(c, v, q, r, i), lo, hi)
  {
    hide WritePins, ShiftOutData, ShiftOutRemain, Low5, Low16, OsrEmpty, Count;
  }

  lemma MovConfined(c: Config, v: Inputs, q: Regs, r: Regs, i: Instr, lo: Int5, hi: Int5)
    requires i.hi != 4 && i.hi != 5
    ensures EffectConfined(r, DoMov(c, v, q, r, i), lo, hi)
  {
    hide WritePins, MovValue, Low5, Low16;
  }

  lemma InWaitConfined(c: Config, v: Inputs, q: Regs, r: Regs, i: Instr, lo: Int5, hi: Int5)
    ensures EffectConfined(r, DoWait(c, v, r, i), lo, hi)
    ensures EffectConfined(r, DoIn(c, v, q, r, i), lo, hi)
  {
    hide WaitMet, ShiftIn, Low, InSource, Threshold, RelativeFlag, Flag, Count;
  }

  lemma HandoverKeeps(r: Regs, data: Bits32)
    ensures Push(r, data).pc == r.pc && Pull(r, data).pc == r.pc
    ensures Push(r, data).pendingValid == r.pendingValid && Pull(r, data).pendingValid == r.pendingValid
    ensures Push(r, data).pending == r.pending && Pull(r, data).pending == r.pending
  {
  }

  lemma PushPullConfined(c: Config, v: Inputs, q: Regs, r: Regs, i: Instr, lo: Int5, hi: Int5)
    ensures EffectConfined(r, DoPushPull(c, v, q, r, i), lo, hi)
  {
    hide OsrEmpty, Threshold, Push, Pull;
    HandoverKeeps(r, q.isr);
    HandoverKeeps(r, v.txData);
  }

  lemma IrqConfined(c: Config, v: Inputs, q: Regs, r: Regs, i: Instr, lo: Int5, hi: Int5)
    ensures EffectConfined(r, DoIrq(c, v, q, r, i), lo, hi)
  {
    hide RelativeFlag, Flag;
  }

  lemma SetConfined(c: Config, v: Inputs, q: Regs, r: Regs, i: Instr, lo: Int5, hi: Int5)
    ensures EffectConfined(r, DoSet(c, q, r, i), lo, hi)
  {
    hide WritePins, ToBits32;
  }

  lemma DispatchConfined(c: Config, v: Inputs, q: Regs, r: Regs, w: Int16, lo: Int5, hi: Int5)
    requires Confined(w, lo, hi)
    ensures EffectConfined(r, Dispatch(c, v, q, r, Decode(w)), lo, hi)
  {
    hide TakesJump, Dec, Decode, DoWait, DoIn, DoOut, DoPushPull, DoMov, DoIrq, DoSet;
    var i := Decode(w);
    if i.op == OUT {
      OutConfined(c, v, q, r, i, lo, hi);
    } else if i.op == MOV {
      MovConfined(c, v, q, r, i, lo, hi);
    } else if i.op != JMP {
      InWaitConfined(c, v, q, r, i, lo, hi);
      PushPullConfined(c, v, q, r, i, lo, hi);
      IrqConfined(c, v, q, r, i, lo, hi);
      SetConfined(c, v, q, r, i, lo, hi);
    }
  }

  lemma ExecuteConfined(c: Config, v: Inputs, q: Regs, r: Regs, lo: Int5, hi: Int5)
    requires WrapsInside(c, lo, hi) && Within(q, lo, hi)
    requires Confined(v.instr, lo, hi) && Confined(v.forceInstr, lo, hi)
    requires r.pc == q.pc && r.pendingValid == q.pendingValid && r.pending == q.pending
    ensures Within(Execute(c, v, q, r), lo, hi)
  {
    hide Dispatch, Decode, WritePins, SideValue, SideWidth, SideApplies, ToBits32, Confined, InstrDelay;
    var i := Decode(Selected(v, q));
    DispatchConfined(c, v, q, SideSet(c, r, i.side), Selected(v, q), lo, hi);
  }

  /** No clock takes the program counter out of lo..hi. */
  lemma ClockConfined(c: Config, v: Inputs, q: Regs, lo: Int5, hi: Int5)
    requires WrapsInside(c, lo, hi) && Within(q, lo, hi)
    requires Confined(v.instr, lo, hi) && Confined(v.forceInstr, lo, hi)
    ensures Within(Clock(c, v, q), lo, hi)
  {
    hide Execute, DivNext, ForcedNext, Confined, Tick, Executes;
    ExecuteConfined(c, v, q, Begin(q), lo, hi);
  }

  /** The instruction memory holds `program` from `lo` on; the rest of it is anything. */
  predicate Holds(mem: seq<Int16>, program: seq<Int16>, lo: Int5) {
    |mem| == 32 && lo + |program| <= 32 && mem[lo..lo + |program|] == program
  }

  /** In every clock the state machine sees the memory's word at its program counter, the memory holds the program,
      and a word forced on it is itself confined to the program. */
  ghost predicate Fetches(c: Config, vs: seq<Inputs>, mems: seq<seq<Int16>>, program: seq<Int16>, lo: Int5, r: Regs)
    requires lo + |program| <= 32 && |program| > 0
  {
    if vs == [] then true
    else
      && mems != [] && Holds(mems[0], program, lo)
      && vs[0].instr == mems[0][r.pc]
      && Confined(vs[0].forceInstr, lo, lo + |program| - 1)
      && Fetches(c, vs[1..], mems[1..], program, lo, Clock(c, vs[0], r))
  }

  /** Confinement: a state machine whose wrap window is its program, the program confined to itself, only ever fetches
      its own program's words, whatever the pins, FIFOs, flags, restarts, dividers and forced instructions do, and
      whatever else is written to the instruction memory outside its program meanwhile. */
  lemma {:induction false} EveryRunConfined(c: Config, vs: seq<Inputs>, mems: seq<seq<Int16>>, program: seq<Int16>,
                                            lo: Int5, r: Regs)
    requires lo + |program| <= 32 && |program| > 0
    requires WrapsInside(c, lo, lo + |program| - 1) && Within(r, lo, lo + |program| - 1)
    requires forall k :: 0 <= k < |program| ==> Confined(program[k], lo, lo + |program| - 1)
    requires Fetches(c, vs, mems, program, lo, r)
    ensures forall t :: 0 <= t <= |vs| ==> lo <= Pcs(c, vs, r)[t] < lo + |program|
    ensures forall t :: 0 <= t < |vs| ==> vs[t].instr == program[Pcs(c, vs, r)[t] - lo]
  {
    hide Clock, Confined;
    if vs != [] {
      assert mems[0][r.pc] == mems[0][lo..lo + |program|][r.pc - lo];
      ClockConfined(c, vs[0], r, lo, lo + |program| - 1);
      EveryRunConfined(c, vs[1..], mems[1..], program, lo, Clock(c, vs[0], r));
      var p := Pcs(c, vs[1..], Clock(c, vs[0], r));
      assert Pcs(c, vs, r) == [r.pc] + p;
      forall t | 0 < t < |vs|
        ensures vs[t].instr == program[Pcs(c, vs, r)[t] - lo]
      {
        assert vs[t] == vs[1..][t - 1] && Pcs(c, vs, r)[t] == p[t - 1];
      }
    }
  }

  // ---------------------------------------------------------------- a word serialised by OUT and rebuilt by IN

  predicate IsOutX(w: Int16, field: Int5) {
    var i := Decode(w);
    i.op == OUT && i.hi == 1 && i.lo == field
  }

  predicate IsInX(w: Int16, field: Int5) {
    var i := Decode(w);
    i.op == IN && i.hi == 1 && i.lo == field
  }

  /** The words are OUT X, f; IN X, f for each count f in turn, with any delays and side-sets. */
  predicate MovesInTurn(words: seq<Int16>, fields: seq<Int5>) {
    if fields == [] then words == []
    else
      && |words| >= 2 && IsOutX(words[0], fields[0]) && IsInX(words[1], fields[0])
      && MovesInTurn(words[2..], fields[1..])
  }

  function Total(fields: seq<Int5>): nat {
    if fields == [] then 0 else Count(fields[0]) + Total(fields[1..])
  }

  /** What no clock that carries out no instruction changes. */
  lemma IdleKeeps(c: Config, v: Inputs, q: Regs)
    requires !Executes(v, q) && !v.restart
    ensures var r := Clock(c, v, q);
            && r.isr == q.isr && r.osr == q.osr && r.x == q.x && r.rxData == q.rxData
            && r.isrCnt == q.isrCnt && r.osrCnt == q.osrCnt
  {
    hide Execute, DivNext, ForcedNext;
  }

  /** No refill can come between: autopull is off, or it waits for all 32 bits and `m` have gone. */
  predicate NoRefill(c: Config, q: Regs, m: nat) {
    c.autopull ==> Threshold(c.pullThresh) == 32 && q.osrCnt == m
  }

  /** No push can come before the word is whole. */
  predicate NoPush(c: Config, q: Regs, m: nat) {
    c.autopush ==> Threshold(c.pushThresh) == 32 && q.isrCnt == m
  }

  lemma OutStep(c: Config, v: Inputs, q: Regs, field: Int5, m: nat)
    requires Executes(v, q) && IsOutX(Selected(v, q), field)
    requires NoRefill(c, q, m) && m + Count(field) <= 32
    ensures var r := Clock(c, v, q);
            && r.x == ShiftOutData(q.osr, field, c.outRight) && r.osr == ShiftOutRemain(q.osr, field, c.outRight)
            && r.isr == q.isr && r.isrCnt == q.isrCnt && NoRefill(c, r, m + Count(field))
  {
    hide DivNext, ForcedNext, ShiftOutData, ShiftOutRemain, WritePins, Decode, SideValue, SideApplies, SideWidth,
      ToBits32, InstrDelay, Low5, Low16, NextPc;
  }

  lemma InStep(c: Config, v: Inputs, q: Regs, field: Int5, m: nat)
    requires Executes(v, q) && IsInX(Selected(v, q), field) && (c.autopush ==> !v.rxFull)
    requires NoPush(c, q, m) && m + Count(field) <= 32
    ensures var r := Clock(c, v, q);
            var moved := ShiftIn(q.isr, Low(q.x, Count(field)), field, c.inRight);
            && r.osr == q.osr && r.osrCnt == q.osrCnt
            && if c.autopush && m + Count(field) == 32 then r.rxData == moved && r.isr == ZERO
               else r.isr == moved && NoPush(c, r, m + Count(field))
  {
    hide DivNext, ForcedNext, ShiftIn, WritePins, Decode, SideValue, SideApplies, SideWidth, ToBits32, InstrDelay, Low,
      NextPc, ReadPins;
  }

  /** With autopush on, an attempt of IN that reaches the threshold and finds RX full has shifted already when it stalls:
      the next attempt shifts again. */
  lemma StalledIn(c: Config, v: Inputs, q: Regs, w: Int16, field: Int5)
    requires IsInX(w, field) && FetchesOnly(q) && Sees(v, w) && Executes(v, q)
    requires c.autopush && v.rxFull && (q.isrCnt + Count(field)) % 64 >= Threshold(c.pushThresh)
    ensures var r := Clock(c, v, q);
            && MovesOn(c, q, r, true) && !r.rxPush && r.x == q.x
            && r.isr == ShiftIn(q.isr, Low(q.x, Count(field)), field, c.inRight)
            && r.isrCnt == (q.isrCnt + Count(field)) % 64
  {
    hide DivNext, ShiftIn, WritePins, Decode, SideValue, SideApplies, SideWidth, ToBits32, InstrDelay, Low, ReadPins;
  }

  /** An attempt of IN below the threshold shifts and moves on. */
  lemma QuietIn(c: Config, v: Inputs, q: Regs, w: Int16, field: Int5)
    requires IsInX(w, field) && FetchesOnly(q) && Sees(v, w) && Executes(v, q)
    requires (q.isrCnt + Count(field)) % 64 < Threshold(c.pushThresh)
    ensures var r := Clock(c, v, q);
            MovesOn(c, q, r, false) && !r.rxPush && r.isrCnt == (q.isrCnt + Count(field)) % 64
  {
    hide DivNext, ShiftIn, WritePins, Decode, SideValue, SideApplies, SideWidth, ToBits32, InstrDelay, Low, ReadPins;
  }

  lemma PushedIn(c: Config, v: Inputs, q: Regs, w: Int16, field: Int5)
    requires IsInX(w, field) && FetchesOnly(q) && Sees(v, w) && Executes(v, q)
    requires c.autopush && !v.rxFull && (q.isrCnt + Count(field)) % 64 >= Threshold(c.pushThresh)
    ensures var r := Clock(c, v, q);
            && MovesOn(c, q, r, false) && r.rxPush
            && r.rxData == ShiftIn(q.isr, Low(q.x, Count(field)), field, c.inRight)
  {
    hide DivNext, ShiftIn, WritePins, Decode, SideValue, SideApplies, SideWidth, ToBits32, InstrDelay, Low, ReadPins;
  }

  /** The words handed to RX along a run. */
  function Handed(c: Config, vs: seq<Inputs>, q: Regs): seq<Bits32> {
    if vs == [] then []
    else
      var r := Clock(c, vs[0], q);
      (if r.rxPush then [r.rxData] else []) + Handed(c, vs[1..], r)
  }

  /** IN X, 32 with autopush at 32, over every run up to its moving on: X is handed to RX if and only if the first
      attempt finds room. Otherwise the count wraps at the second attempt, and the word is lost. */
  lemma {:induction false} AutopushExactly(c: Config, vs: seq<Inputs>, q: Regs, w: Int16, v: Inputs)
    requires IsInX(w, 0) && FetchesOnly(q) && c.autopush && Threshold(c.pushThresh) == 32 && q.isrCnt == 0
    requires Trace(c, vs, q) == [] && (forall t :: 0 <= t < |vs| ==> Sees(vs[t], w))
    requires Sees(v, w) && Executes(v, Run(c, vs, q))
    ensures var r := Clock(c, v, Run(c, vs, q));
            && Handed(c, vs + [v], q) == (if v.rxFull then [] else [q.x])
            && r.pc == (if v.rxFull then q.pc else Advance(c, q.pc))
            && (v.rxFull ==> FetchesOnly(r) && r.isrCnt == 32)
    decreases |vs|
  {
    hide Clock, IsInX, Executes, Sees, Advance, FetchesOnly, Selected, ShiftIn;
    if vs == [] {
      assert vs + [v] == [v] && [v][1..] == [];
      if v.rxFull {
        StalledIn(c, v, q, w, 0);
      } else {
        PushedIn(c, v, q, w, 0);
        WholeWord(q, c.inRight);
      }
    } else {
      NothingDone(c, vs[0], q, w);
      NoRestart(vs[0], w);
      IdleKeeps(c, vs[0], q);
      assert (vs + [v])[1..] == vs[1..] + [v];
      AutopushExactly(c, vs[1..], Clock(c, vs[0], q), w, v);
    }
  }

  lemma NoRestart(v: Inputs, w: Int16)
    requires Sees(v, w)
    ensures !v.restart
  {
  }

  lemma WholeWord(q: Regs, right: bool)
    ensures ShiftIn(q.isr, Low(q.x, 32), 0, right) == q.x
  {
  }

  /** After a stalled first attempt the second moves on and hands over nothing, whether RX has room by then or not. */
  lemma {:induction false} WordIsLost(c: Config, vs: seq<Inputs>, q: Regs, w: Int16, v: Inputs)
    requires IsInX(w, 0) && FetchesOnly(q) && Threshold(c.pushThresh) == 32 && q.isrCnt == 32
    requires Trace(c, vs, q) == [] && (forall t :: 0 <= t < |vs| ==> Sees(vs[t], w))
    requires Sees(v, w) && Executes(v, Run(c, vs, q))
    ensures Handed(c, vs + [v], q) == [] && Clock(c, v, Run(c, vs, q)).pc == Advance(c, q.pc)
    decreases |vs|
  {
    hide Clock, IsInX, Executes, Sees, Advance, FetchesOnly, Selected;
    if vs == [] {
      assert vs + [v] == [v] && [v][1..] == [];
      QuietIn(c, v, q, w, 0);
    } else {
      NothingDone(c, vs[0], q, w);
      NoRestart(vs[0], w);
      IdleKeeps(c, vs[0], q);
      assert (vs + [v])[1..] == vs[1..] + [v];
      WordIsLost(c, vs[1..], Clock(c, vs[0], q), w, v);
    }
  }

  /** Nothing interferes from outside: no restart, and room in the RX FIFO if autopush is on. */
  predicate Undisturbed(c: Config, vs: seq<Inputs>) {
    forall t :: 0 <= t < |vs| ==> !vs[t].restart && (c.autopush ==> !vs[t].rxFull)
  }

  /** `m` bits of the word have moved and the next instruction is an OUT. */
  ghost predicate BetweenMoves(c: Config, q: Regs, word: Bits32, m: nat) {
    && m <= 32
    && if c.autopush && m == 32 then q.rxData == word && q.isr == ZERO
       else
         && q.osr == Drained(word, m, c.outRight) && Collected(q.isr, word, m, c.outRight)
         && NoRefill(c, q, m) && NoPush(c, q, m)
  }

  /** The next `field` bits are in X and the next instruction is the IN that takes them. */
  ghost predicate MidMove(c: Config, q: Regs, word: Bits32, m: nat, field: Int5) {
    && m + Count(field) <= 32
    && q.osr == Drained(word, m + Count(field), c.outRight) && Collected(q.isr, word, m, c.outRight)
    && q.x == ShiftOutData(Drained(word, m, c.outRight), field, c.outRight)
    && NoRefill(c, q, m + Count(field)) && NoPush(c, q, m)
  }

  lemma OutMoves(c: Config, v: Inputs, q: Regs, word: Bits32, m: nat, field: Int5)
    requires m + Count(field) <= 32 && BetweenMoves(c, q, word, m)
    requires Executes(v, q) && IsOutX(Selected(v, q), field)
    ensures MidMove(c, Clock(c, v, q), word, m, field)
  {
    hide Clock, ShiftOutData, ShiftOutRemain, Drained, Collected, NoRefill, IsOutX, Executes, Selected;
    OutStep(c, v, q, field, m);
    DrainMore(word, m, field, c.outRight);
  }

  lemma InMoves(c: Config, v: Inputs, q: Regs, word: Bits32, m: nat, field: Int5)
    requires c.inRight == c.outRight && (c.autopush ==> !v.rxFull)
    requires MidMove(c, q, word, m, field)
    requires Executes(v, q) && IsInX(Selected(v, q), field)
    ensures BetweenMoves(c, Clock(c, v, q), word, m + Count(field))
  {
    hide Clock, ShiftIn, ShiftOutData, Drained, Collected, IsInX, Executes, Selected;
    InStep(c, v, q, field, m);
    CollectMore(q.isr, word, m, field, c.outRight);
    if c.autopush && m + Count(field) == 32 {
      AllCollected(Moved(q.isr, Drained(word, m, c.outRight), field, c.outRight), word, c.outRight);
    }
  }

  lemma {:induction false} MovesFrom(c: Config, vs: seq<Inputs>, q: Regs, word: Bits32, m: nat, fields: seq<Int5>)
    requires c.inRight == c.outRight && Undisturbed(c, vs)
    requires m + Total(fields) == 32 && BetweenMoves(c, q, word, m)
    requires MovesInTurn(Trace(c, vs, q), fields)
    ensures BetweenMoves(c, Run(c, vs, q), word, 32)
    decreases |vs|
  {
    hide Clock, BetweenMoves, MidMove, IsOutX, IsInX, Executes, Selected, Count;
    if vs != [] {
      var r := Clock(c, vs[0], q);
      if !Executes(vs[0], q) {
        IdleBetween(c, vs[0], q, word, m);
        assert Trace(c, vs, q) == Trace(c, vs[1..], r);
        MovesFrom(c, vs[1..], r, word, m, fields);
      } else {
        OutMoves(c, vs[0], q, word, m, fields[0]);
        assert Trace(c, vs, q)[1..] == Trace(c, vs[1..], r);
        assert Trace(c, vs, q)[2..] == Trace(c, vs[1..], r)[1..];
        MovesFromMid(c, vs[1..], r, word, m, fields);
      }
    }
  }

  lemma {:induction false} MovesFromMid(c: Config, vs: seq<Inputs>, q: Regs, word: Bits32, m: nat, fields: seq<Int5>)
    requires c.inRight == c.outRight && Undisturbed(c, vs)
    requires fields != [] && m + Total(fields) == 32 && MidMove(c, q, word, m, fields[0])
    requires var t := Trace(c, vs, q);
             t != [] && IsInX(t[0], fields[0]) && MovesInTurn(t[1..], fields[1..])
    ensures BetweenMoves(c, Run(c, vs, q), word, 32)
    decreases |vs|
  {
    hide Clock, BetweenMoves, MidMove, IsOutX, IsInX, Executes, Selected, Count, MovesInTurn;
    var r := Clock(c, vs[0], q);
    if !Executes(vs[0], q) {
      IdleMid(c, vs[0], q, word, m, fields[0]);
      assert Trace(c, vs, q) == Trace(c, vs[1..], r);
      MovesFromMid(c, vs[1..], r, word, m, fields);
    } else {
      InMoves(c, vs[0], q, word, m, fields[0]);
      assert Trace(c, vs, q)[1..] == Trace(c, vs[1..], r);
      MovesFrom(c, vs[1..], r, word, m + Count(fields[0]), fields[1..]);
    }
  }

  lemma IdleBetween(c: Config, v: Inputs, q: Regs, word: Bits32, m: nat)
    requires !Executes(v, q) && !v.restart && BetweenMoves(c, q, word, m)
    ensures BetweenMoves(c, Clock(c, v, q), word, m)
  {
    hide Clock, Drained, Collected, Executes;
    IdleKeeps(c, v, q);
  }

  lemma IdleMid(c: Config, v: Inputs, q: Regs, word: Bits32, m: nat, field: Int5)
    requires !Executes(v, q) && !v.restart && MidMove(c, q, word, m, field)
    ensures MidMove(c, Clock(c, v, q), word, m, field)
  {
    hide Clock, Drained, Collected, Executes, ShiftOutData;
    IdleKeeps(c, v, q);
  }

  /** Serialising: over any run whose executed instructions are OUT X, n; IN X, n for counts n adding up to 32, with
      both shift directions equal and any delays, dividers and idle clocks between, the word that was in the OSR is
      rebuilt, whatever was in the ISR. With autopush at 32 it is handed to the RX FIFO instead and the ISR is empty. */
  lemma WordIsRebuilt(c: Config, vs: seq<Inputs>, q: Regs, fields: seq<Int5>)
    requires c.inRight == c.outRight && Undisturbed(c, vs)
    requires Total(fields) == 32 && MovesInTurn(Trace(c, vs, q), fields)
    requires NoRefill(c, q, 0) && NoPush(c, q, 0)
    ensures if c.autopush then Run(c, vs, q).rxData == q.osr && Run(c, vs, q).isr == ZERO
            else Run(c, vs, q).isr == q.osr
  {
    hide Run, Trace, MovesInTurn, Total, NoRefill, NoPush;
    NothingDrained(q.osr, c.outRight);
    MovesFrom(c, vs, q, q.osr, 0, fields);
    if !c.autopush {
      AllCollected(Run(c, vs, q).isr, q.osr, c.outRight);
    }
  }
}
