/** The PIO instruction set as a programmer reads it: registers hold numbers, and each register's next value is given
    over all the instructions that can change it. The interpreter, which goes instruction by instruction over bits,
    is shown to carry out exactly this in every clock of every run. */
module PioIsa {
  import opened Words
  import opened Pio
  import opened PioNumbers
  import opened PioSm

  /** The state machine as its programmer sees it. */
  datatype Machine = Machine(
    pc: int, x: nat, y: nat, isr: nat, osr: nat, isrCount: nat, osrCount: nat, out: Pins, oe: Pins,
    div: int, delay: int, forced: bool, pending: Option<Int16>, waiting: bool)

  /** What one clock shows outside: flags raised and cleared, whether a word was taken from TX, the word given to RX. */
  datatype Pulses = Pulses(raised: set<int>, cleared: set<int>, pulled: bool, pushed: Option<nat>)

  const QUIET := Pulses({}, {}, false, None)

  type Pins = s: seq<bool> | |s| == 32 witness ZeroBits(32)

  function View(q: Regs): Machine {
    Machine(q.pc, Value(q.x), Value(q.y), Value(q.isr), Value(q.osr), q.isrCnt, q.osrCnt, q.pinsOut, q.pinsOe,
            q.div, q.delay, q.useForced, PendingOf(q), q.irqWait)
  }

  function PendingOf(q: Regs): Option<Int16> {
    if q.pendingValid then Some(q.pending) else None
  }

  function Shown(q: Regs): Pulses {
    Pulses(Up(q.irqSet), Up(q.irqClr), q.txPull, if q.rxPush then Some(Value(q.rxData)) else None)
  }

  function Up(flags: Bits8): set<int> {
    set f | 0 <= f < 8 && flags[f]
  }

  // ---------------------------------------------------------------- the instruction word

  function Op(w: Int16): Int3 { w / 0x2000 }

  function Side(w: Int16): Int5 { w / 0x100 % 0x20 }

  function Hi(w: Int16): Int3 { w / 0x20 % 8 }

  function Lo(w: Int16): Int5 { w % 0x20 }

  /** A five-bit count or threshold, where 0 stands for 32. */
  function Full(n: int): nat {
    if n <= 0 then 32 else n
  }

  /** How many of the five delay and side-set bits are side-set. */
  function SideBits(c: Config): (n: nat)
    ensures n <= 5
  {
    if c.sideCount <= 5 then c.sideCount else 0
  }

  function DelayOf(c: Config, w: Int16): int {
    Side(w) % P(5 - SideBits(c))
  }

  predicate SideOn(c: Config, w: Int16) {
    SideBits(c) > 0 && (c.sideEn ==> Side(w) >= 16)
  }

  function SidePins(c: Config): int {
    SideBits(c) - (if c.sideEn then 1 else 0)
  }

  function SideData(c: Config, w: Int16): int {
    Side(w) / P(5 - SideBits(c)) % P(if SidePins(c) < 0 then 0 else SidePins(c))
  }

  /** Flag number 0 to 7, or with bit 4 set, one of 0 to 3 counted on from the state machine's own number. */
  function FlagOf(c: Config, w: Int16): (f: int)
    ensures 0 <= f < 8
  {
    if Lo(w) >= 16 then (w + c.index) % 4 else w % 8
  }

  // ---------------------------------------------------------------- what an instruction reads

  /** The sources of IN and MOV: the pins (counted from `base`), X, Y, the ISR, the OSR, and zero. */
  function Source(v: Inputs, m: Machine, k: int, base: int): nat {
    if k == 0 then PinsFrom(v.pins, base, 32)
    else if k == 1 then m.x
    else if k == 2 then m.y
    else if k == 6 then m.isr
    else if k == 7 then m.osr
    else 0
  }

  predicate OsrSpent(c: Config, m: Machine) {
    m.osrCount >= Full(c.pullThresh)
  }

  /** The condition a JMP tests. */
  predicate Holds(c: Config, v: Inputs, m: Machine, cond: int) {
    || cond == 0
    || (cond == 1 && m.x == 0) || (cond == 2 && m.x > 0)
    || (cond == 3 && m.y == 0) || (cond == 4 && m.y > 0)
    || (cond == 5 && m.x != m.y)
    || (cond == 6 && v.pins[c.jmpPin])
    || (cond == 7 && !OsrSpent(c, m))
  }

  /** The level a WAIT looks at, if it looks at one. */
  function Level(c: Config, v: Inputs, w: Int16): Option<bool> {
    if Hi(w) % 4 == 0 then Some(v.pins[Lo(w)])
    else if Hi(w) % 4 == 1 then Some(v.pins[(c.inBase + Lo(w)) % 32])
    else if Hi(w) % 4 == 2 then Some(v.irqFlags[FlagOf(c, w)])
    else None
  }

  /** PUSH or PULL is held back by its IF_FULL or IF_EMPTY bit. */
  predicate Held(c: Config, m: Machine, w: Int16) {
    && Hi(w) / 2 % 2 == 1
    && if Hi(w) < 4 then m.isrCount < Full(c.pushThresh) else !OsrSpent(c, m)
  }

  // ---------------------------------------------------------------- stalls and handshakes

  predicate Autopushes(c: Config, m: Machine, w: Int16) {
    Op(w) == 2 && c.autopush && (m.isrCount + Full(Lo(w))) % 64 >= Full(c.pushThresh)
  }

  predicate Autopulls(c: Config, m: Machine, w: Int16) {
    Op(w) == 3 && c.autopull && OsrSpent(c, m)
  }

  /** The instruction asks for room in RX, or for a word of TX. */
  predicate WantsRoom(c: Config, m: Machine, w: Int16) {
    Autopushes(c, m, w) || (Op(w) == 4 && Hi(w) < 4 && !Held(c, m, w))
  }

  predicate WantsWord(c: Config, m: Machine, w: Int16) {
    Autopulls(c, m, w) || (Op(w) == 4 && Hi(w) >= 4 && !Held(c, m, w))
  }

  /** IRQ with its WAIT bit and without its CLEAR bit. */
  predicate WaitsForFlag(w: Int16) {
    Op(w) == 6 && Hi(w) / 2 % 2 == 1 && Hi(w) % 2 == 0
  }

  predicate Stalls(c: Config, v: Inputs, m: Machine, w: Int16) {
    || (Op(w) == 1 && Level(c, v, w) == Some(Hi(w) < 4))
    || (Autopushes(c, m, w) && v.rxFull)
    || Autopulls(c, m, w)
    || (Op(w) == 4 && Hi(w) % 2 == 1 && WantsRoom(c, m, w) && v.rxFull)
    || (Op(w) == 4 && Hi(w) % 2 == 1 && WantsWord(c, m, w) && v.txEmpty)
    || (WaitsForFlag(w) && (!m.waiting || v.irqFlags[FlagOf(c, w)]))
  }

  // ---------------------------------------------------------------- what an instruction writes

  /** The number an OUT, MOV or SET carries to its destination. */
  function Carried(c: Config, v: Inputs, m: Machine, w: Int16): nat {
    if Op(w) == 3 then OutTaken(m.osr, Full(Lo(w)), c.outRight)
    else if Op(w) == 5 then Inverted(Source(v, m, w % 8, 0), w / 8 % 4 == 1)
    else Lo(w)
  }

  /** The bits of a 32-bit number, flipped or not. */
  function Inverted(x: nat, flip: bool): nat {
    if flip && x < 0x1_0000_0000 then 0xFFFF_FFFF - x else x
  }

  predicate Writes(c: Config, m: Machine, w: Int16, dest: int) {
    Hi(w) == dest && ((Op(w) == 3 && !Autopulls(c, m, w)) || Op(w) == 5 || Op(w) == 7)
  }

  function NextX(c: Config, v: Inputs, m: Machine, w: Int16): nat {
    if Op(w) == 0 && Hi(w) == 2 then (m.x - 1) % 0x1_0000_0000
    else if Writes(c, m, w, 1) then Carried(c, v, m, w)
    else m.x
  }

  function NextY(c: Config, v: Inputs, m: Machine, w: Int16): nat {
    if Op(w) == 0 && Hi(w) == 4 then (m.y - 1) % 0x1_0000_0000
    else if Writes(c, m, w, 2) then Carried(c, v, m, w)
    else m.y
  }

  /** The ISR with the bits of an IN shifted in. */
  function ShiftedIn(c: Config, v: Inputs, m: Machine, w: Int16): nat {
    InShift(m.isr, Source(v, m, Hi(w), c.inBase), Full(Lo(w)), c.inRight)
  }

  function Pushed(c: Config, v: Inputs, m: Machine, w: Int16): Option<nat> {
    if WantsRoom(c, m, w) && !v.rxFull then Some(if Op(w) == 2 then ShiftedIn(c, v, m, w) else m.isr) else None
  }

  predicate ToIsr(c: Config, m: Machine, w: Int16) {
    Op(w) != 7 && Writes(c, m, w, 6)
  }

  function NextIsr(c: Config, v: Inputs, m: Machine, w: Int16): nat {
    if Pushed(c, v, m, w).Some? then 0
    else if Op(w) == 2 then ShiftedIn(c, v, m, w)
    else if ToIsr(c, m, w) then Carried(c, v, m, w)
    else m.isr
  }

  function NextIsrCount(c: Config, v: Inputs, m: Machine, w: Int16): nat {
    if Pushed(c, v, m, w).Some? || ToIsr(c, m, w) then 0
    else if Op(w) == 2 then (m.isrCount + Full(Lo(w))) % 64
    else m.isrCount
  }

  predicate Pulled(c: Config, v: Inputs, m: Machine, w: Int16) {
    WantsWord(c, m, w) && !v.txEmpty
  }

  /** A PULL that does not wait takes X where TX has no word. */
  predicate Copies(c: Config, v: Inputs, m: Machine, w: Int16) {
    Op(w) == 4 && Hi(w) % 2 == 0 && WantsWord(c, m, w) && v.txEmpty
  }

  function NextOsr(c: Config, v: Inputs, m: Machine, w: Int16): nat {
    if Pulled(c, v, m, w) then Value(v.txData)
    else if Copies(c, v, m, w) then m.x
    else if Op(w) == 3 && !Autopulls(c, m, w) then OutLeft(m.osr, Full(Lo(w)), c.outRight)
    else if Op(w) == 5 && Writes(c, m, w, 7) then Carried(c, v, m, w)
    else m.osr
  }

  function NextOsrCount(c: Config, v: Inputs, m: Machine, w: Int16): nat {
    if Pulled(c, v, m, w) || Copies(c, v, m, w) then 0
    else if Op(w) == 3 && !Autopulls(c, m, w) then (m.osrCount + Full(Lo(w))) % 64
    else m.osrCount
  }

  function SideGroup(c: Config, pins: Pins, w: Int16): Pins {
    PinGroup(pins, SideData(c, w), c.sideBase, SidePins(c))
  }

  /** A write of a pin register replaces it whole: a side-set of the same register in the same clock is lost. */
  function NextOut(c: Config, v: Inputs, m: Machine, w: Int16): Pins {
    if Writes(c, m, w, 0) then Group(c, m.out, w, Carried(c, v, m, w))
    else if SideOn(c, w) && !c.sidePindir then SideGroup(c, m.out, w)
    else m.out
  }

  function NextOe(c: Config, v: Inputs, m: Machine, w: Int16): Pins {
    if Op(w) != 5 && Writes(c, m, w, 4) then Group(c, m.oe, w, Carried(c, v, m, w))
    else if SideOn(c, w) && c.sidePindir then SideGroup(c, m.oe, w)
    else m.oe
  }

  /** SET writes its own group of pins; OUT and MOV write the other. */
  function Group(c: Config, pins: Pins, w: Int16, x: nat): Pins {
    if Op(w) == 7 then PinGroup(pins, x, c.setBase, c.setCount) else PinGroup(pins, x, c.outBase, c.outCount)
  }

  // ---------------------------------------------------------------- flags and the program counter

  function Raised(c: Config, m: Machine, w: Int16): set<int> {
    if Op(w) == 6 && Hi(w) % 2 == 0 && !(WaitsForFlag(w) && m.waiting) then {FlagOf(c, w)} else {}
  }

  /** IRQ CLEAR, and WAIT 1 IRQ when it goes on, clear their flag. */
  function Cleared(c: Config, v: Inputs, m: Machine, w: Int16): set<int> {
    if Op(w) == 6 && Hi(w) % 2 == 1 then {FlagOf(c, w)}
    else if Op(w) == 1 && Hi(w) == 6 && !Stalls(c, v, m, w) then {FlagOf(c, w)}
    else {}
  }

  function JumpTo(c: Config, v: Inputs, m: Machine, w: Int16): Option<Int5> {
    if Op(w) == 0 && Holds(c, v, m, Hi(w)) then Some(Lo(w))
    else if Op(w) != 7 && Writes(c, m, w, 5) then Some(Carried(c, v, m, w) % 32)
    else None
  }

  /** The next program counter: an address jumped to, this one again, or the next in the wrap window. A word that did
      not come from the program does not move it, unless it is a jump. */
  function NextCounter(c: Config, v: Inputs, m: Machine, w: Int16): int {
    if JumpTo(c, v, m, w).Some? then JumpTo(c, v, m, w).value
    else if Stalls(c, v, m, w) || (Op(w) != 0 && (m.forced || m.pending.Some?)) then m.pc
    else if m.pc == c.wrapTop then c.wrapBot
    else (m.pc + 1) % 32
  }

  /** OUT EXEC and MOV EXEC leave a word to be carried out next, unless they were such a word themselves. */
  function NextPending(c: Config, v: Inputs, m: Machine, w: Int16): Option<Int16> {
    if Stalls(c, v, m, w) then m.pending
    else if m.pending.None? && ((Op(w) == 3 && Hi(w) == 7) || (Op(w) == 5 && Hi(w) == 4)) then
      Some(Carried(c, v, m, w) % 0x1_0000)
    else None
  }

  // ---------------------------------------------------------------- one clock

  /** The word carried out next: a forced one, then one left by an EXEC, then the one at the program counter. */
  function NextWord(v: Inputs, m: Machine): Int16 {
    if m.forced then v.forceInstr else if m.pending.Some? then m.pending.value else v.instr
  }

  predicate Enabled(v: Inputs, m: Machine) {
    !v.restart && m.div == 0 && v.enable
  }

  function Obey(c: Config, v: Inputs, m: Machine, w: Int16): Machine {
    m.(pc := NextCounter(c, v, m, w), x := NextX(c, v, m, w), y := NextY(c, v, m, w),
       isr := NextIsr(c, v, m, w), osr := NextOsr(c, v, m, w),
       isrCount := NextIsrCount(c, v, m, w), osrCount := NextOsrCount(c, v, m, w),
       out := NextOut(c, v, m, w), oe := NextOe(c, v, m, w),
       delay := if Stalls(c, v, m, w) then m.delay else DelayOf(c, w),
       pending := NextPending(c, v, m, w),
       waiting := if WaitsForFlag(w) then Stalls(c, v, m, w) else m.waiting)
  }

  function Signals(c: Config, v: Inputs, m: Machine, w: Int16): Pulses {
    Pulses(Raised(c, m, w), Cleared(c, v, m, w), Pulled(c, v, m, w), Pushed(c, v, m, w))
  }

  // ---------------------------------------------------------------- the interpreter's parts, as numbers

  lemma FieldsAre(w: Int16)
    ensures Decode(w) == Instr(Op(w), Side(w), Hi(w), Lo(w))
  {
    assert w / 32 / 8 == w / 0x100 && w / 0x100 / 32 == w / 0x2000;
  }

  lemma IsZero(w: Bits32)
    ensures Value(w) == 0 <==> w == ZERO
  {
    hide Value;
    ZeroValue(w);
  }

  lemma WordBelow(w: Bits32)
    ensures Value(w) < 0x1_0000_0000
  {
    hide Value, Pow2;
    ValueBelow(w);
    AllOnes();
  }

  lemma DecIs(w: Bits32)
    ensures Value(Dec(w)) == (Value(w) - 1) % 0x1_0000_0000
  {
    hide Value, Pow2, Dec;
    DecSubtracts(w);
    WordBelow(w);
    AllOnes();
  }

  lemma SmallIs(n: Int5)
    ensures Value(ToBits32(n)) == n
  {
    hide Value, Pow2, ToBits;
    AllOnes();
    ToBitsValue(n, 32);
  }

  lemma LowBitsAre(w: Bits32)
    ensures Low5(w) == Value(w) % 32 && Low16(w) == Value(w) % 0x1_0000
  {
    hide Value, Pow2;
    Cut(w, 5);
    Cut(w, 16);
    Pow16();
    Pow5();
  }

  lemma Pow5()
    ensures Pow2(5) == 32
  {
  }

  lemma FlagIs(c: Config, w: Int16)
    ensures RelativeFlag(Lo(w), c.index) == FlagOf(c, w)
  {
    LowFields(w);
    Counted(w, c.index);
  }

  lemma OneUp(f: Int3)
    ensures Up(Flag(NO_FLAGS, f, true)) == {f} && Up(Flag(NO_FLAGS, f, false)) == {} && Up(NO_FLAGS) == {}
  {
  }

  lemma SourceIs(c: Config, v: Inputs, q: Regs, k: Int3)
    ensures Value(InSource(c, v, q, k)) == Source(v, View(q), k, c.inBase)
    ensures Value(MovSource(v, q, k)) == Source(v, View(q), k, 0)
  {
    hide Value, ReadPins, PinsFrom;
    AllPins(v.pins, c.inBase);
    AllPins(v.pins, 0);
    PinsThemselves(v.pins);
    IsZero(ZERO);
  }

  lemma PinsThemselves(pins: Bits32)
    ensures ReadPins(pins, 0, 32) == pins
  {
    forall k | 0 <= k < 32
      ensures ReadPins(pins, 0, 32)[k] == pins[k]
    {
    }
  }

  lemma MovIs(v: Inputs, c: Config, q: Regs, w: Int16)
    ensures Value(MovValue(v, q, Lo(w))) == Inverted(Source(v, View(q), w % 8, 0), w / 8 % 4 == 1)
  {
    hide Value, MovSource, Source, Not;
    LowFields(w);
    SourceIs(c, v, q, w % 8);
    NotIs(MovSource(v, q, w % 8));
    WordBelow(MovSource(v, q, w % 8));
  }

  lemma CarriedIs(c: Config, v: Inputs, q: Regs, w: Int16)
    ensures Op(w) == 3 ==> Value(ShiftOutData(q.osr, Lo(w), c.outRight)) == Carried(c, v, View(q), w)
    ensures Op(w) == 5 ==> Value(MovValue(v, q, Lo(w))) == Carried(c, v, View(q), w)
    ensures Op(w) == 7 ==> Value(ToBits32(Lo(w))) == Carried(c, v, View(q), w)
  {
    hide Value, ShiftOutData, MovValue, ToBits32, Op, Lo, Source, Inverted, OutTaken;
    MovIs(v, c, q, w);
    SmallIs(Lo(w));
    ShiftOutIs(q.osr, Lo(w), c.outRight);
    assert Full(Lo(w)) == Count(Lo(w));
  }

  lemma ShiftedInIs(c: Config, v: Inputs, q: Regs, w: Int16)
    ensures Value(ShiftIn(q.isr, Low(InSource(c, v, q, Hi(w)), Count(Lo(w))), Lo(w), c.inRight))
         == ShiftedIn(c, v, View(q), w)
  {
    hide Value, ShiftIn, Low, InSource, Source, Hi, Lo, InShift;
    SourceIs(c, v, q, Hi(w));
    SameShiftIn(q.isr, InSource(c, v, q, Hi(w)), Lo(w), c.inRight);
    ShiftInIs(q.isr, InSource(c, v, q, Hi(w)), Lo(w), c.inRight);
  }

  lemma SameShiftIn(isr: Bits32, data: Bits32, field: Int5, right: bool)
    ensures ShiftIn(isr, Low(data, Count(field)), field, right) == ShiftIn(isr, data, field, right)
  {
    hide Low, ShiftIn;
    var n := Count(field);
    assert Low(data, n)[..n] == data[..n] by {
      Lowered(data, n);
    }
    if right {
      ShiftedRight(isr, data, field);
      ShiftedRight(isr, Low(data, n), field);
    } else {
      ShiftedLeft(isr, data, field);
      ShiftedLeft(isr, Low(data, n), field);
    }
  }

  lemma Lowered(data: Bits32, n: nat)
    requires n <= 32
    ensures Low(data, n)[..n] == data[..n]
  {
  }

  // ---------------------------------------------------------------- register by register

  /** What the interpreter makes of the word w. */
  function Carry(c: Config, v: Inputs, q: Regs, w: Int16): Effect {
    Dispatch(c, v, q, SideSet(c, Begin(q), Side(w)), Instr(Op(w), Side(w), Hi(w), Lo(w)))
  }

  lemma SideKeeps(c: Config, q: Regs, side: Int5)
    ensures var r := SideSet(c, Begin(q), side);
            && r == Begin(q).(pinsOut := r.pinsOut, pinsOe := r.pinsOe)
  {
    hide SideApplies, SideValue, SideWidth, WritePins, ToBits32;
  }

  predicate SameScratch(c: Config, v: Inputs, q: Regs, w: Int16, r: Regs) {
    Value(r.x) == NextX(c, v, View(q), w) && Value(r.y) == NextY(c, v, View(q), w)
  }

  predicate SameShifts(c: Config, v: Inputs, q: Regs, w: Int16, r: Regs) {
    && Value(r.isr) == NextIsr(c, v, View(q), w) && Value(r.osr) == NextOsr(c, v, View(q), w)
    && r.isrCnt == NextIsrCount(c, v, View(q), w) && r.osrCnt == NextOsrCount(c, v, View(q), w)
  }

  predicate SamePins(c: Config, v: Inputs, q: Regs, w: Int16, r: Regs) {
    r.pinsOut == NextOut(c, v, View(q), w) && r.pinsOe == NextOe(c, v, View(q), w)
  }

  predicate SameControl(c: Config, v: Inputs, q: Regs, w: Int16, e: Effect) {
    && e.stall == Stalls(c, v, View(q), w) && e.target == JumpTo(c, v, View(q), w)
    && e.r.irqWait == (if WaitsForFlag(w) then Stalls(c, v, View(q), w) else q.irqWait)
    && (if q.pendingValid && !e.stall then None else PendingOf(e.r)) == NextPending(c, v, View(q), w)
    && e.r.pc == q.pc && e.r.delay == q.delay && e.r.div == q.div && e.r.useForced == q.useForced
  }

  predicate SameSignals(c: Config, v: Inputs, q: Regs, w: Int16, r: Regs) {
    Shown(r) == Signals(c, v, View(q), w)
  }

  predicate SameRegisters(c: Config, v: Inputs, q: Regs, w: Int16, r: Regs) {
    SameScratch(c, v, q, w, r) && SameShifts(c, v, q, w, r) && SamePins(c, v, q, w, r)
  }

  predicate SameEffect(c: Config, v: Inputs, q: Regs, w: Int16, e: Effect) {
    SameControl(c, v, q, w, e) && SameSignals(c, v, q, w, e.r)
  }

  predicate Matches(w: Int16, op: Int3, i: Instr) {
    Op(w) == op && i.hi == Hi(w) && i.lo == Lo(w)
  }

  // ---------------------------------------------------------------- delay and side-set

  lemma SmallPowers()
    ensures P(0) == 1 && P(1) == 2 && P(2) == 4 && P(3) == 8 && P(4) == 16 && P(5) == 32
  {
    Pow5();
  }

  lemma DelayIs(c: Config, w: Int16)
    ensures InstrDelay(c, Side(w)) == DelayOf(c, w)
  {
    hide P, Side;
    SmallPowers();
  }

  lemma SideIs(c: Config, w: Int16)
    ensures SideApplies(c, Side(w)) == SideOn(c, w)
    ensures SideOn(c, w) ==> SideWidth(c) == SidePins(c) && SideValue(c, Side(w)) == SideData(c, w)
  {
    hide P, Side, SideData, SideValue;
    if SideOn(c, w) {
      if c.sideEn {
        EnabledData(c, w);
      } else {
        PlainData(c, w);
      }
    }
  }

  lemma PlainData(c: Config, w: Int16)
    requires SideOn(c, w) && !c.sideEn
    ensures SideValue(c, Side(w)) == SideData(c, w)
  {
    hide P, Side;
    SmallPowers();
  }

  lemma EnabledData(c: Config, w: Int16)
    requires SideOn(c, w) && c.sideEn
    ensures SideValue(c, Side(w)) == SideData(c, w)
  {
    hide P, Side;
    SmallPowers();
    var d := if c.sideCount == 1 then 16 else if c.sideCount == 2 then 8 else if c.sideCount == 3 then 4
             else if c.sideCount == 4 then 2 else 1;
    TopHalf(Side(w), d);
    assert P(5 - c.sideCount) == d;
    assert P(c.sideCount - 1) == 16 / d;
    assert SideData(c, w) == Side(w) / d % (16 / d);
  }

  lemma TopHalf(side: int, d: int)
    requires 16 <= side < 32 && (d == 1 || d == 2 || d == 4 || d == 8 || d == 16)
    ensures side % 16 / d == side / d % (16 / d)
  {
    if d == 1 {
    } else if d == 2 {
      Whole(side / 2, 8);
    } else if d == 4 {
      Whole(side / 4, 4);
    } else if d == 8 {
      Whole(side / 8, 2);
    }
  }

  lemma Whole(n: int, m: int)
    requires 0 < m <= n < 2 * m
    ensures n % m == n - m
  {
    DivMod(n, n - m, m, 1);
  }

  /** The registers an instruction starts from: those before the clock, pulses down, side-set done. */
  predicate Begun(c: Config, q: Regs, r: Regs, w: Int16) {
    r == Begin(q).(pinsOut := if SideOn(c, w) && !c.sidePindir then SideGroup(c, q.pinsOut, w) else q.pinsOut,
                   pinsOe := if SideOn(c, w) && c.sidePindir then SideGroup(c, q.pinsOe, w) else q.pinsOe)
  }

  lemma SideSets(c: Config, q: Regs, w: Int16)
    ensures Begun(c, q, SideSet(c, Begin(q), Side(w)), w)
  {
    hide P, Side, SideData, SidePins, SideOn, SideApplies, SideWidth, SideValue, ToBits32, PinGroup, WritePins, Value;
    SideIs(c, w);
    if SideOn(c, w) {
      var data := ToBits32(SideValue(c, Side(w)));
      SmallIs(SideValue(c, Side(w)));
      GroupIs(q.pinsOut, data, c.sideBase, SideWidth(c));
      GroupIs(q.pinsOe, data, c.sideBase, SideWidth(c));
    }
  }

  // ---------------------------------------------------------------- instruction by instruction

  lemma FullIs(n: Int5)
    ensures Full(n) == Count(n) == Threshold(n)
  {
  }

  lemma OsrSpentIs(c: Config, q: Regs)
    ensures OsrEmpty(c, q) == OsrSpent(c, View(q))
  {
  }

  lemma JumpIs(c: Config, v: Inputs, q: Regs, cond: Int3)
    ensures TakesJump(c, v, q, cond) == Holds(c, v, View(q), cond)
  {
    hide Value, OsrEmpty, OsrSpent;
    OsrSpentIs(c, q);
    IsZero(q.x);
    IsZero(q.y);
    SameNumber(q.x, q.y);
  }

  lemma ScratchStays(c: Config, v: Inputs, m: Machine, w: Int16)
    requires Op(w) == 1 || Op(w) == 2 || Op(w) == 4 || Op(w) == 6
    ensures NextX(c, v, m, w) == m.x && NextY(c, v, m, w) == m.y
  {
    hide Op;
  }

  lemma ShiftsStay(c: Config, v: Inputs, m: Machine, w: Int16)
    requires Op(w) == 0 || Op(w) == 1 || Op(w) >= 6
    ensures NextIsr(c, v, m, w) == m.isr && NextOsr(c, v, m, w) == m.osr
    ensures NextIsrCount(c, v, m, w) == m.isrCount && NextOsrCount(c, v, m, w) == m.osrCount
    ensures !Pulled(c, v, m, w) && Pushed(c, v, m, w).None?
  {
    hide Op, Hi, Lo, Full, OsrSpent;
  }

  lemma PinsStay(c: Config, v: Inputs, m: Machine, w: Int16)
    requires Op(w) != 3 && Op(w) != 5 && Op(w) != 7
    ensures NextOut(c, v, m, w) == if SideOn(c, w) && !c.sidePindir then SideGroup(c, m.out, w) else m.out
    ensures NextOe(c, v, m, w) == if SideOn(c, w) && c.sidePindir then SideGroup(c, m.oe, w) else m.oe
  {
    hide Op, SideOn, SideGroup;
  }

  lemma FlagsStay(c: Config, v: Inputs, m: Machine, w: Int16)
    requires Op(w) != 1 && Op(w) != 6
    ensures Raised(c, m, w) == {} && Cleared(c, v, m, w) == {} && !WaitsForFlag(w)
  {
    hide Op;
  }

  lemma GoesOnBy(c: Config, v: Inputs, m: Machine, w: Int16)
    requires Op(w) != 0 && Op(w) != 3 && Op(w) != 5
    ensures JumpTo(c, v, m, w) == None
    ensures NextPending(c, v, m, w) == if Stalls(c, v, m, w) then m.pending else None
  {
    hide Op, Stalls;
  }

  lemma NeverStalls(c: Config, v: Inputs, m: Machine, w: Int16)
    requires Op(w) == 0 || Op(w) == 5 || Op(w) == 7
    ensures !Stalls(c, v, m, w) && !WaitsForFlag(w)
  {
    hide Op, Hi, Lo, Full, OsrSpent, Level, FlagOf;
  }

  lemma JmpRegisters(c: Config, v: Inputs, q: Regs, r: Regs, w: Int16, i: Instr)
    requires Begun(c, q, r, w) && Matches(w, 0, i)
    ensures SameRegisters(c, v, q, w, DoJmp(c, v, q, r, i).r)
  {
    hide Value, SideGroup, SideOn, Carried, Op, Hi, Lo, NextIsr, NextOsr, NextIsrCount, NextOsrCount, NextOut, NextOe, Dec, TakesJump;
    ShiftsStay(c, v, View(q), w);
    PinsStay(c, v, View(q), w);
    DecIs(q.x);
    DecIs(q.y);
  }

  lemma JmpEffect(c: Config, v: Inputs, q: Regs, r: Regs, w: Int16, i: Instr)
    requires Begun(c, q, r, w) && Matches(w, 0, i)
    ensures SameEffect(c, v, q, w, DoJmp(c, v, q, r, i))
  {
    hide Value, SideGroup, SideOn, Carried, Op, Hi, Lo, Up, Raised, Cleared, WaitsForFlag, Pulled, Pushed, Stalls, Dec, TakesJump, Holds;
    OneUp(0);
    FlagsStay(c, v, View(q), w);
    ShiftsStay(c, v, View(q), w);
    NeverStalls(c, v, View(q), w);
    JumpIs(c, v, q, i.hi);
  }

  lemma WaitIs(c: Config, v: Inputs, w: Int16, i: Instr)
    requires Matches(w, 1, i)
    ensures WaitMet(c, v, i) == (Level(c, v, w) != Some(Hi(w) < 4))
    ensures RelativeFlag(i.lo, c.index) == FlagOf(c, w)
  {
    hide RelativeFlag, FlagOf, Hi, Lo;
    FlagIs(c, w);
  }

  lemma WaitRegisters(c: Config, v: Inputs, q: Regs, r: Regs, w: Int16, i: Instr)
    requires Begun(c, q, r, w) && Matches(w, 1, i)
    ensures SameRegisters(c, v, q, w, DoWait(c, v, r, i).r)
  {
    hide Value, SideGroup, SideOn, Carried, Op, Hi, Lo, NextX, NextY, NextIsr, NextOsr, NextIsrCount, NextOsrCount, NextOut, NextOe, WaitMet, RelativeFlag, FlagOf, Flag;
    ScratchStays(c, v, View(q), w);
    ShiftsStay(c, v, View(q), w);
    PinsStay(c, v, View(q), w);
  }

  lemma WaitEffect(c: Config, v: Inputs, q: Regs, r: Regs, w: Int16, i: Instr)
    requires Begun(c, q, r, w) && Matches(w, 1, i)
    ensures SameEffect(c, v, q, w, DoWait(c, v, r, i))
  {
    hide Value, SideGroup, SideOn, Carried, Op, Hi, Lo, Up, Pulled, Pushed, JumpTo, NextPending, WaitMet, RelativeFlag, FlagOf, Flag, Level;
    OneUp(0);
    ShiftsStay(c, v, View(q), w);
    GoesOnBy(c, v, View(q), w);
    WaitIs(c, v, w, i);
    OneUp(FlagOf(c, w));
  }

  lemma InRegisters(c: Config, v: Inputs, q: Regs, r: Regs, w: Int16, i: Instr)
    requires Begun(c, q, r, w) && Matches(w, 2, i)
    ensures SameRegisters(c, v, q, w, DoIn(c, v, q, r, i).r)
  {
    hide Value, SideGroup, SideOn, Carried, Op, Hi, Lo, NextX, NextY, NextOut, NextOe, InSource, Low, ShiftIn, Count, Threshold, ShiftedIn, Full, Held, OsrSpent;
    ScratchStays(c, v, View(q), w);
    PinsStay(c, v, View(q), w);
    ShiftedInIs(c, v, q, w);
    FullIs(Lo(w));
    FullIs(c.pushThresh);
    IsZero(ZERO);
  }

  lemma InEffect(c: Config, v: Inputs, q: Regs, r: Regs, w: Int16, i: Instr)
    requires Begun(c, q, r, w) && Matches(w, 2, i)
    ensures SameEffect(c, v, q, w, DoIn(c, v, q, r, i))
  {
    hide Value, SideGroup, SideOn, Carried, Op, Hi, Lo, Up, Raised, Cleared, WaitsForFlag, JumpTo, NextPending, InSource, Low, ShiftIn, Count, Threshold, ShiftedIn, Full, Held, OsrSpent;
    OneUp(0);
    FlagsStay(c, v, View(q), w);
    GoesOnBy(c, v, View(q), w);
    ShiftedInIs(c, v, q, w);
    FullIs(Lo(w));
    FullIs(c.pushThresh);
  }

  lemma OutToFields(c: Config, q: Regs, r: Regs, data: Bits32, dst: Int3)
    ensures OutTo(c, q, r, data, dst) ==
            r.(x := if dst == 1 then data else r.x, y := if dst == 2 then data else r.y,
               isr := if dst == 6 then data else r.isr, isrCnt := if dst == 6 then 0 else r.isrCnt,
               pendingValid := dst == 7 || r.pendingValid, pending := if dst == 7 then Low16(data) else r.pending,
               pinsOut := if dst == 0 then WritePins(q.pinsOut, data, c.outBase, c.outCount) else r.pinsOut,
               pinsOe := if dst == 4 then WritePins(q.pinsOe, data, c.outBase, c.outCount) else r.pinsOe)
  {
    hide Low16, WritePins;
  }

  lemma OutPins(c: Config, v: Inputs, q: Regs, r: Regs, w: Int16, i: Instr)
    requires Begun(c, q, r, w) && Matches(w, 3, i)
    ensures SamePins(c, v, q, w, DoOut(c, v, q, r, i).r)
  {
    hide Value, SideGroup, SideOn, Carried, Op, Hi, Lo, ShiftOutData, ShiftOutRemain, Low5, Low16, WritePins, OutLeft, Count, OsrEmpty, OsrSpent, Full, PinGroup, OutTo;
    var data := ShiftOutData(q.osr, i.lo, c.outRight);
    CarriedIs(c, v, q, w);
    OsrSpentIs(c, q);
    GroupIs(q.pinsOut, data, c.outBase, c.outCount);
    GroupIs(q.pinsOe, data, c.outBase, c.outCount);
    OutToFields(c, q, r.(osr := ShiftOutRemain(q.osr, i.lo, c.outRight), osrCnt := (q.osrCnt + Count(i.lo)) % 64), data,
                i.hi);
  }

  lemma OutRegisters(c: Config, v: Inputs, q: Regs, r: Regs, w: Int16, i: Instr)
    requires Begun(c, q, r, w) && Matches(w, 3, i)
    ensures SameRegisters(c, v, q, w, DoOut(c, v, q, r, i).r)
  {
    hide Value, SideGroup, SideOn, Carried, Op, Hi, Lo, ShiftOutData, ShiftOutRemain, Low5, Low16, WritePins, OutLeft, Count, OsrEmpty, OsrSpent, Full, PinGroup, OutTo, SamePins;
    var data := ShiftOutData(q.osr, i.lo, c.outRight);
    CarriedIs(c, v, q, w);
    OsrSpentIs(c, q);
    ShiftOutIs(q.osr, Lo(w), c.outRight);
    FullIs(Lo(w));
    OutPins(c, v, q, r, w, i);
    OutToFields(c, q, r.(osr := ShiftOutRemain(q.osr, i.lo, c.outRight), osrCnt := (q.osrCnt + Count(i.lo)) % 64), data,
                i.hi);
  }

  lemma OutEffect(c: Config, v: Inputs, q: Regs, r: Regs, w: Int16, i: Instr)
    requires Begun(c, q, r, w) && Matches(w, 3, i)
    ensures SameEffect(c, v, q, w, DoOut(c, v, q, r, i))
  {
    hide Value, SideGroup, SideOn, Carried, Op, Hi, Lo, Up, Raised, Cleared, WaitsForFlag, ShiftOutData, ShiftOutRemain, Low5, Low16, WritePins, OutLeft, Count, OsrEmpty, OsrSpent, Full, PinGroup, OutTo;
    OneUp(0);
    FlagsStay(c, v, View(q), w);
    var data := ShiftOutData(q.osr, i.lo, c.outRight);
    CarriedIs(c, v, q, w);
    OsrSpentIs(c, q);
    LowBitsAre(data);
    OutToFields(c, q, r.(osr := ShiftOutRemain(q.osr, i.lo, c.outRight), osrCnt := (q.osrCnt + Count(i.lo)) % 64), data,
                i.hi);
  }

  /** PUSH and PULL, once their IF_FULL or IF_EMPTY bit is decided. */
  lemma PushPullIs(c: Config, v: Inputs, q: Regs, r: Regs, w: Int16, i: Instr)
    requires Matches(w, 4, i)
    ensures DoPushPull(c, v, q, r, i) ==
            if Held(c, View(q), w) then Effect(r, false, None)
            else if i.hi < 4 then if !v.rxFull then Effect(Push(r, q.isr), false, None) else Effect(r, i.hi % 2 == 1, None)
            else if !v.txEmpty then Effect(Pull(r, v.txData), false, None)
            else if i.hi % 2 == 1 then Effect(r, true, None)
            else Effect(r.(osr := q.x, osrCnt := 0), false, None)
  {
    hide Value, Op, Hi, Lo, Push, Pull, Full, Threshold, OsrEmpty, OsrSpent;
    FullIs(c.pushThresh);
    OsrSpentIs(c, q);
  }

  lemma PushPullRegisters(c: Config, v: Inputs, q: Regs, r: Regs, w: Int16, i: Instr)
    requires Begun(c, q, r, w) && Matches(w, 4, i)
    ensures SameRegisters(c, v, q, w, DoPushPull(c, v, q, r, i).r)
  {
    hide Value, SideGroup, SideOn, Carried, Op, Hi, Lo, NextX, NextY, NextOut, NextOe, Full, OsrSpent, Held, DoPushPull;
    ScratchStays(c, v, View(q), w);
    PinsStay(c, v, View(q), w);
    PushPullIs(c, v, q, r, w, i);
    IsZero(ZERO);
  }

  lemma PushPullEffect(c: Config, v: Inputs, q: Regs, r: Regs, w: Int16, i: Instr)
    requires Begun(c, q, r, w) && Matches(w, 4, i)
    ensures SameEffect(c, v, q, w, DoPushPull(c, v, q, r, i))
  {
    hide Value, SideGroup, SideOn, Carried, Op, Hi, Lo, Up, Raised, Cleared, WaitsForFlag, JumpTo, NextPending, Full, OsrSpent, Held, DoPushPull;
    OneUp(0);
    FlagsStay(c, v, View(q), w);
    GoesOnBy(c, v, View(q), w);
    PushPullIs(c, v, q, r, w, i);
  }

  lemma MovToFields(c: Config, q: Regs, r: Regs, data: Bits32, dst: Int3)
    ensures MovTo(c, q, r, data, dst) ==
            r.(x := if dst == 1 then data else r.x, y := if dst == 2 then data else r.y,
               isr := if dst == 6 then data else r.isr, isrCnt := if dst == 6 then 0 else r.isrCnt,
               osr := if dst == 7 then data else r.osr,
               pendingValid := dst == 4 || r.pendingValid, pending := if dst == 4 then Low16(data) else r.pending,
               pinsOut := if dst == 0 then WritePins(q.pinsOut, data, c.outBase, c.outCount) else r.pinsOut)
  {
    hide Low16, WritePins;
  }

  lemma MovRegisters(c: Config, v: Inputs, q: Regs, r: Regs, w: Int16, i: Instr)
    requires Begun(c, q, r, w) && Matches(w, 5, i)
    ensures SameRegisters(c, v, q, w, DoMov(c, v, q, r, i).r)
  {
    hide Value, SideGroup, SideOn, Carried, Op, Hi, Lo, MovValue, Low5, Low16, WritePins, PinGroup, MovTo, Full, OsrSpent;
    var data := MovValue(v, q, i.lo);
    CarriedIs(c, v, q, w);
    MovToFields(c, q, r, data, i.hi);
    GroupIs(q.pinsOut, data, c.outBase, c.outCount);
  }

  lemma MovEffect(c: Config, v: Inputs, q: Regs, r: Regs, w: Int16, i: Instr)
    requires Begun(c, q, r, w) && Matches(w, 5, i)
    ensures SameEffect(c, v, q, w, DoMov(c, v, q, r, i))
  {
    hide Value, SideGroup, SideOn, Carried, Op, Hi, Lo, Up, Raised, Cleared, WaitsForFlag, Stalls, MovValue, Low5, Low16, WritePins, PinGroup, MovTo, Full, OsrSpent;
    OneUp(0);
    FlagsStay(c, v, View(q), w);
    NeverStalls(c, v, View(q), w);
    var data := MovValue(v, q, i.lo);
    CarriedIs(c, v, q, w);
    MovToFields(c, q, r, data, i.hi);
    LowBitsAre(data);
  }

  lemma IrqRegisters(c: Config, v: Inputs, q: Regs, r: Regs, w: Int16, i: Instr)
    requires Begun(c, q, r, w) && Matches(w, 6, i)
    ensures SameRegisters(c, v, q, w, DoIrq(c, v, q, r, i).r)
  {
    hide Value, SideGroup, SideOn, Carried, Op, Hi, Lo, NextX, NextY, NextIsr, NextOsr, NextIsrCount, NextOsrCount, NextOut, NextOe, RelativeFlag, FlagOf, Flag;
    ScratchStays(c, v, View(q), w);
    ShiftsStay(c, v, View(q), w);
    PinsStay(c, v, View(q), w);
  }

  lemma IrqEffect(c: Config, v: Inputs, q: Regs, r: Regs, w: Int16, i: Instr)
    requires Begun(c, q, r, w) && Matches(w, 6, i)
    ensures SameEffect(c, v, q, w, DoIrq(c, v, q, r, i))
  {
    hide Value, SideGroup, SideOn, Carried, Op, Hi, Lo, Up, Pulled, Pushed, JumpTo, NextPending, RelativeFlag, FlagOf, Flag, Full, OsrSpent, Held;
    OneUp(0);
    ShiftsStay(c, v, View(q), w);
    GoesOnBy(c, v, View(q), w);
    FlagIs(c, w);
    OneUp(FlagOf(c, w));
  }

  lemma SetToFields(c: Config, q: Regs, r: Regs, data: Bits32, dst: Int3)
    ensures SetTo(c, q, r, data, dst) ==
            r.(x := if dst == 1 then data else r.x, y := if dst == 2 then data else r.y,
               pinsOut := if dst == 0 then WritePins(q.pinsOut, data, c.setBase, c.setCount) else r.pinsOut,
               pinsOe := if dst == 4 then WritePins(q.pinsOe, data, c.setBase, c.setCount) else r.pinsOe)
  {
    hide WritePins;
  }

  lemma SetRegisters(c: Config, v: Inputs, q: Regs, r: Regs, w: Int16, i: Instr)
    requires Begun(c, q, r, w) && Matches(w, 7, i)
    ensures SameRegisters(c, v, q, w, DoSet(c, q, r, i).r)
  {
    hide Value, SideGroup, SideOn, Carried, Op, Hi, Lo, NextIsr, NextOsr, NextIsrCount, NextOsrCount, ToBits32, WritePins, PinGroup, SetTo, Full, OsrSpent;
    ShiftsStay(c, v, View(q), w);
    var data := ToBits32(i.lo);
    CarriedIs(c, v, q, w);
    SetToFields(c, q, r, data, i.hi);
    GroupIs(q.pinsOut, data, c.setBase, c.setCount);
    GroupIs(q.pinsOe, data, c.setBase, c.setCount);
  }

  lemma SetEffect(c: Config, v: Inputs, q: Regs, r: Regs, w: Int16, i: Instr)
    requires Begun(c, q, r, w) && Matches(w, 7, i)
    ensures SameEffect(c, v, q, w, DoSet(c, q, r, i))
  {
    hide Value, SideGroup, SideOn, Carried, Op, Hi, Lo, Up, Raised, Cleared, WaitsForFlag, Pulled, Pushed, JumpTo, NextPending, Stalls, ToBits32, WritePins, PinGroup, SetTo, Full, OsrSpent;
    OneUp(0);
    FlagsStay(c, v, View(q), w);
    ShiftsStay(c, v, View(q), w);
    GoesOnBy(c, v, View(q), w);
    NeverStalls(c, v, View(q), w);
    var data := ToBits32(i.lo);
    CarriedIs(c, v, q, w);
    SetToFields(c, q, r, data, i.hi);
  }

  // ---------------------------------------------------------------- clock by clock

  lemma CarryRegisters(c: Config, v: Inputs, q: Regs, w: Int16)
    ensures SameRegisters(c, v, q, w, Carry(c, v, q, w).r)
  {
    hide SideSet, Begun, SameRegisters, DoJmp, DoWait, DoIn, DoOut, DoPushPull, DoMov, DoIrq, DoSet, Op, Side, Hi, Lo;
    SideSets(c, q, w);
    var r, i := SideSet(c, Begin(q), Side(w)), Instr(Op(w), Side(w), Hi(w), Lo(w));
    match i.op {
      case 0 => JmpRegisters(c, v, q, r, w, i);
      case 1 => WaitRegisters(c, v, q, r, w, i);
      case 2 => InRegisters(c, v, q, r, w, i);
      case 3 => OutRegisters(c, v, q, r, w, i);
      case 4 => PushPullRegisters(c, v, q, r, w, i);
      case 5 => MovRegisters(c, v, q, r, w, i);
      case 6 => IrqRegisters(c, v, q, r, w, i);
      case _ => SetRegisters(c, v, q, r, w, i);
    }
  }

  lemma CarryEffect(c: Config, v: Inputs, q: Regs, w: Int16)
    ensures SameEffect(c, v, q, w, Carry(c, v, q, w))
  {
    hide SideSet, Begun, SameEffect, DoJmp, DoWait, DoIn, DoOut, DoPushPull, DoMov, DoIrq, DoSet, Op, Side, Hi, Lo;
    SideSets(c, q, w);
    var r, i := SideSet(c, Begin(q), Side(w)), Instr(Op(w), Side(w), Hi(w), Lo(w));
    match i.op {
      case 0 => JmpEffect(c, v, q, r, w, i);
      case 1 => WaitEffect(c, v, q, r, w, i);
      case 2 => InEffect(c, v, q, r, w, i);
      case 3 => OutEffect(c, v, q, r, w, i);
      case 4 => PushPullEffect(c, v, q, r, w, i);
      case 5 => MovEffect(c, v, q, r, w, i);
      case 6 => IrqEffect(c, v, q, r, w, i);
      case _ => SetEffect(c, v, q, r, w, i);
    }
  }

  lemma CounterIs(c: Config, v: Inputs, q: Regs, w: Int16, e: Effect)
    requires SameControl(c, v, q, w, e)
    ensures NextPc(c, q, Op(w), e) == NextCounter(c, v, View(q), w)
  {
    hide Op, Stalls, JumpTo, Value, WaitsForFlag, NextPending;
  }

  lemma RetireObeys(c: Config, v: Inputs, q: Regs, w: Int16, i: Instr, e: Effect)
    requires i.op == Op(w) && i.side == Side(w)
    requires SameRegisters(c, v, q, w, e.r) && SameEffect(c, v, q, w, e)
    ensures var r := Retire(c, q, i, e);
            View(r) == Obey(c, v, View(q), w) && Shown(r) == Signals(c, v, View(q), w)
  {
    hide Op, Side, Stalls, JumpTo, Value, WaitsForFlag, NextPending, NextPc, NextCounter, InstrDelay, DelayOf, NextX, NextY,
         NextIsr, NextOsr, NextIsrCount, NextOsrCount, NextOut, NextOe, Signals, Up;
    CounterIs(c, v, q, w, e);
    DelayIs(c, w);
  }

  lemma ExecuteObeys(c: Config, v: Inputs, q: Regs)
    ensures var w, r := NextWord(v, View(q)), Execute(c, v, q, Begin(q));
            View(r) == Obey(c, v, View(q), w) && Shown(r) == Signals(c, v, View(q), w)
  {
    hide Op, Side, Hi, Lo, Decode, Value, Dispatch, SideSet, Retire, SameRegisters, SameEffect, Obey, Signals;
    var w := NextWord(v, View(q));
    assert Selected(v, q) == w;
    FieldsAre(w);
    CarryRegisters(c, v, q, w);
    CarryEffect(c, v, q, w);
    RetireObeys(c, v, q, w, Decode(w), Carry(c, v, q, w));
  }

  function NextDiv(c: Config, v: Inputs, m: Machine): int {
    if v.enable && m.div != 0 then m.div - 1 else if c.clkdiv == 0 then 0 else c.clkdiv - 1
  }

  predicate NextForced(v: Inputs, m: Machine) {
    v.forceExec || (m.forced && !(v.enable && m.div == 0 && m.delay == 0))
  }

  /** An instruction is carried out in this clock. */
  predicate Acts(v: Inputs, m: Machine) {
    Enabled(v, m) && (m.delay == 0 || v.forceExec)
  }

  function Worked(c: Config, v: Inputs, m: Machine): Machine {
    if v.restart then
      m.(pc := c.wrapBot, x := 0, y := 0, isr := 0, osr := 0, isrCount := 0, osrCount := 0, delay := 0, pending := None,
         waiting := false)
    else if Acts(v, m) then Obey(c, v, m, NextWord(v, m))
    else if Enabled(v, m) then m.(delay := m.delay - 1)
    else m
  }

  /** One clock, in numbers, and what it shows. */
  function Step(c: Config, v: Inputs, m: Machine): Machine {
    Worked(c, v, m).(div := NextDiv(c, v, m), forced := NextForced(v, m))
  }

  function Shows(c: Config, v: Inputs, m: Machine): Pulses {
    if Acts(v, m) then Signals(c, v, m, NextWord(v, m)) else QUIET
  }

  function Steps(c: Config, vs: seq<Inputs>, m: Machine): Machine {
    if vs == [] then m else Steps(c, vs[1..], Step(c, vs[0], m))
  }

  function AllShown(c: Config, vs: seq<Inputs>, m: Machine): seq<Pulses> {
    if vs == [] then [] else [Shows(c, vs[0], m)] + AllShown(c, vs[1..], Step(c, vs[0], m))
  }

  /** Every clock of the interpreter is a clock of the machine on numbers. */
  lemma ClockRefines(c: Config, v: Inputs, q: Regs)
    ensures View(Clock(c, v, q)) == Step(c, v, View(q)) && Shown(Clock(c, v, q)) == Shows(c, v, View(q))
  {
    hide Value, Execute, Obey, Signals, Up, NextWord;
    ExecuteObeys(c, v, q);
    IsZero(ZERO);
    OneUp(0);
  }

  function Displays(c: Config, vs: seq<Inputs>, q: Regs): seq<Pulses> {
    if vs == [] then [] else [Shown(Clock(c, vs[0], q))] + Displays(c, vs[1..], Clock(c, vs[0], q))
  }

  /** Over every run, whatever is programmed, forced, restarted or fed in, the interpreter's registers and pulses are
      those of the machine on numbers. */
  lemma {:induction false} EveryRunRefines(c: Config, vs: seq<Inputs>, q: Regs)
    ensures View(Run(c, vs, q)) == Steps(c, vs, View(q)) && Displays(c, vs, q) == AllShown(c, vs, View(q))
    decreases |vs|
  {
    hide Clock, View, Shown, Step, Shows;
    if vs != [] {
      ClockRefines(c, vs[0], q);
      EveryRunRefines(c, vs[1..], Clock(c, vs[0], q));
    }
  }
}
