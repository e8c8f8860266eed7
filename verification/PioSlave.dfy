/** The I2C receiver program of the repository on the PIO state machine: its eighteen words, what they come to as a
    receiver on the bus, and that it takes every byte a bus sends it, acknowledges it and hands it over. */
module PioSlave {
  import opened Words
  import opened Pio
  import opened PioNumbers
  import opened PioSm
  import opened PioIsa

  /** i2c_slave_rx, loaded at 0. */
  function Line(k: int): Int16 {
    match k
    case 0 => 0xe080
    case 1 => 0x20a0
    case 2 => 0x2020
    case 3 => 0x00c5
    case 4 => 0x0000
    case 5 => 0xe027
    case 6 => 0x2001
    case 7 => 0x2081
    case 8 => 0x4001
    case 9 => 0x0046
    case 10 => 0x8000
    case 11 => 0x2001
    case 12 => 0xe081
    case 13 => 0x2081
    case 14 => 0x2001
    case 15 => 0xe080
    case 16 => 0xc050
    case _ => 0x0005
  }

  /** What the program's own initialisation sets up; it names SCL as pin 1, so SCL is pin 1, and SDA is any pin. */
  predicate Tuned(c: Config) {
    && c.wrapBot == 0 && c.wrapTop == 17 && c.jmpPin == 1 && c.sideCount == 0
    && c.setBase == c.inBase && c.setCount == 2 && !c.inRight && !c.autopush
  }

  /** Between two of the program's own words. */
  predicate Settled(m: Machine) {
    !m.forced && m.pending.None? && m.delay == 0 && 0 <= m.pc < 18 && m.x < 0x1_0000_0000
  }

  // ---------------------------------------------------------------- kinds of instruction

  predicate Is(w: Int16, op: Int3, hi: Int3, lo: Int5) {
    Op(w) == op && Hi(w) == hi && Lo(w) == lo && Side(w) == 0
  }

  function After(c: Config, m: Machine): int {
    if m.pc == c.wrapTop then c.wrapBot else (m.pc + 1) % 32
  }

  lemma NoSide(c: Config, w: Int16)
    requires Tuned(c) && Side(w) == 0
    ensures !SideOn(c, w) && DelayOf(c, w) == 0
  {
    hide Side, P;
    SmallPowers();
  }

  lemma SetMeans(c: Config, v: Inputs, m: Machine, w: Int16, hi: Int3, lo: Int5)
    requires Tuned(c) && Settled(m) && Is(w, 7, hi, lo) && (hi == 1 || hi == 4)
    ensures Obey(c, v, m, w) ==
            if hi == 1 then m.(pc := After(c, m), x := lo)
            else m.(pc := After(c, m), oe := PinGroup(m.oe, lo, c.setBase, 2))
    ensures Signals(c, v, m, w) == QUIET
  {
    hide Op, Hi, Lo, Side, SideOn, DelayOf, Stalls, WaitsForFlag, PinGroup;
    NoSide(c, w);
    NeverStalls(c, v, m, w);
    ShiftsStay(c, v, m, w);
    FlagsStay(c, v, m, w);
  }

  /** WAIT on a pin. */
  lemma WaitMeans(c: Config, v: Inputs, m: Machine, w: Int16, hi: Int3, lo: Int5, pin: Int5)
    requires Tuned(c) && Settled(m) && Is(w, 1, hi, lo)
    requires (hi % 4 == 0 && pin == lo) || (hi % 4 == 1 && pin == (c.inBase + lo) % 32)
    ensures Obey(c, v, m, w) == m.(pc := if v.pins[pin] == (hi >= 4) then After(c, m) else m.pc)
    ensures Signals(c, v, m, w) == QUIET
  {
    hide Op, Hi, Lo, Side, SideOn, DelayOf, FlagOf, Full, OsrSpent, Held;
    NoSide(c, w);
    ScratchStays(c, v, m, w);
    ShiftsStay(c, v, m, w);
    PinsStay(c, v, m, w);
  }

  lemma JumpMeans(c: Config, v: Inputs, m: Machine, w: Int16, cond: Int3, a: Int5)
    requires Tuned(c) && Settled(m) && Is(w, 0, cond, a)
    requires cond == 0 || cond == 2 || cond == 6
    ensures Obey(c, v, m, w) ==
            m.(pc := if cond == 0 || (cond == 2 && m.x > 0) || (cond == 6 && v.pins[1]) then a else After(c, m),
               x := if cond == 2 then (m.x - 1) % 0x1_0000_0000 else m.x)
    ensures Signals(c, v, m, w) == QUIET
  {
    hide Op, Hi, Lo, Side, SideOn, DelayOf, Full, OsrSpent, Held, Stalls, WaitsForFlag;
    NoSide(c, w);
    NeverStalls(c, v, m, w);
    ShiftsStay(c, v, m, w);
    FlagsStay(c, v, m, w);
    PinsStay(c, v, m, w);
  }

  /** IN PINS, 1. */
  lemma InMeans(c: Config, v: Inputs, m: Machine, w: Int16)
    requires Tuned(c) && Settled(m) && Is(w, 2, 0, 1)
    ensures Obey(c, v, m, w) ==
            m.(pc := After(c, m), isr := (2 * m.isr + (if v.pins[c.inBase] then 1 else 0)) % 0x1_0000_0000,
               isrCount := (m.isrCount + 1) % 64)
    ensures Signals(c, v, m, w) == QUIET
  {
    hide Op, Hi, Lo, Side, SideOn, DelayOf, ShiftedIn, OsrSpent;
    NoSide(c, w);
    ScratchStays(c, v, m, w);
    FlagsStay(c, v, m, w);
    PinsStay(c, v, m, w);
    OneBitIn(c, v, m, w);
  }

  lemma OneBitIn(c: Config, v: Inputs, m: Machine, w: Int16)
    requires Tuned(c) && Is(w, 2, 0, 1)
    ensures ShiftedIn(c, v, m, w) == (2 * m.isr + (if v.pins[c.inBase] then 1 else 0)) % 0x1_0000_0000
  {
    hide Op, Hi, Lo, Side, PinsFrom, P;
    LowestPin(v.pins, c.inBase, 32);
    Pow31();
    SmallPowers();
    Doubling(m.isr, if v.pins[c.inBase] then 1 else 0);
  }

  lemma Pow31()
    ensures P(31) == 0x8000_0000
  {
    AllOnes();
    assert Pow2(32) == 2 * Pow2(31);
  }

  lemma Doubling(x: nat, b: nat)
    requires b < 2
    ensures 2 * (x % 0x8000_0000) + b == (2 * x + b) % 0x1_0000_0000
  {
    var k, r := x / 0x8000_0000, x % 0x8000_0000;
    DivMod(2 * x + b, 2 * r + b, 0x1_0000_0000, k);
  }

  lemma {:induction false} LowestPin(pins: Pins, base: Int5, n: nat)
    requires n > 0
    ensures PinsFrom(pins, base, n) % 2 == if pins[base] then 1 else 0
  {
    hide P;
    SmallPowers();
    if n > 1 {
      LowestPin(pins, base, n - 1);
      EvenPower(n - 1);
      StaysOdd(PinsFrom(pins, base, n - 1), P(n - 1), if pins[(base + n - 1) % 32] then 1 else 0);
    }
  }

  lemma EvenPower(n: nat)
    requires n > 0
    ensures P(n) % 2 == 0
  {
  }

  lemma StaysOdd(low: int, p: int, b: int)
    requires p % 2 == 0 && (b == 0 || b == 1)
    ensures (low + p * b) % 2 == low % 2
  {
  }

  /** PUSH that does not wait. */
  lemma PushMeans(c: Config, v: Inputs, m: Machine, w: Int16)
    requires Tuned(c) && Settled(m) && Is(w, 4, 0, 0)
    ensures Obey(c, v, m, w) ==
            if v.rxFull then m.(pc := After(c, m)) else m.(pc := After(c, m), isr := 0, isrCount := 0)
    ensures Signals(c, v, m, w) == Pulses({}, {}, false, if v.rxFull then None else Some(m.isr))
  {
    hide Op, Hi, Lo, Side, SideOn, DelayOf, Full, OsrSpent;
    NoSide(c, w);
    ScratchStays(c, v, m, w);
    FlagsStay(c, v, m, w);
    PinsStay(c, v, m, w);
  }

  /** IRQ WAIT on flag 0 counted from the state machine's number. */
  lemma IrqMeans(c: Config, v: Inputs, m: Machine, w: Int16)
    requires Tuned(c) && Settled(m) && Is(w, 6, 2, 16) && FlagOf(c, w) == c.index
    ensures var stays := !m.waiting || v.irqFlags[c.index];
            && Obey(c, v, m, w) == m.(pc := if stays then m.pc else After(c, m), waiting := stays)
            && Signals(c, v, m, w) == Pulses(if m.waiting then {} else {c.index as int}, {}, false, None)
  {
    hide Op, Hi, Lo, Side, SideOn, DelayOf, Full, OsrSpent, FlagOf, Held;
    NoSide(c, w);
    ScratchStays(c, v, m, w);
    ShiftsStay(c, v, m, w);
    PinsStay(c, v, m, w);
  }

  // ---------------------------------------------------------------- what the eighteen words come to

  /** The receiver: where it is, the bits still to come less one, the bits taken, the lines it pulls low, and whether it
      has told the CPU and waits for the answer. */
  datatype Receiver = Receiver(at: int, left: nat, isr: nat, sdaLow: bool, sclLow: bool, waiting: bool)

  function ReceiverOf(c: Config, m: Machine): Receiver {
    Receiver(m.pc, m.x, m.isr, m.oe[c.setBase], m.oe[(c.setBase + 1) % 32], m.waiting)
  }

  predicate Sda(c: Config, v: Inputs) {
    v.pins[c.inBase]
  }

  predicate Scl(v: Inputs) {
    v.pins[1]
  }

  function Appended(isr: nat, bit: bool): nat {
    (2 * isr + (if bit then 1 else 0)) % 0x1_0000_0000
  }

  /** One attempt of the receiver. */
  function Next(c: Config, v: Inputs, s: Receiver): Receiver {
    if s.at == 0 || s.at == 15 then s.(at := s.at + 1, sdaLow := false, sclLow := false)
    else if s.at == 1 then if Sda(c, v) then s.(at := 2) else s
    else if s.at == 2 then if !Sda(c, v) then s.(at := 3) else s
    else if s.at == 3 then s.(at := if Scl(v) then 5 else 4)
    else if s.at == 4 then s.(at := 0)
    else if s.at == 5 then s.(at := 6, left := 7)
    else if s.at == 6 || s.at == 11 || s.at == 14 then if !Scl(v) then s.(at := s.at + 1) else s
    else if s.at == 7 || s.at == 13 then if Scl(v) then s.(at := s.at + 1) else s
    else if s.at == 8 then s.(at := 9, isr := Appended(s.isr, Sda(c, v)))
    else if s.at == 9 then if s.left > 0 then s.(at := 6, left := s.left - 1) else s.(at := 10, left := 0xFFFF_FFFF)
    else if s.at == 10 then if v.rxFull then s.(at := 11) else s.(at := 11, isr := 0)
    else if s.at == 12 then s.(at := 13, sdaLow := true, sclLow := false)
    else if s.at == 16 then
      if !s.waiting then s.(waiting := true)
      else if v.irqFlags[c.index] then s
      else s.(at := 17, waiting := false)
    else s.(at := 5)
  }

  /** What the attempt shows: a word given to RX, and the flag raised for the CPU. */
  function Given(v: Inputs, s: Receiver): Option<nat> {
    if s.at == 10 && !v.rxFull then Some(s.isr) else None
  }

  predicate Calls(s: Receiver) {
    s.at == 16 && !s.waiting
  }

  /** The machine on word m.pc of the program behaves as the receiver. */
  predicate Behaves(c: Config, v: Inputs, m: Machine) {
    var w, s := Line(m.pc), ReceiverOf(c, m);
    && Settled(Obey(c, v, m, w))
    && ReceiverOf(c, Obey(c, v, m, w)) == Next(c, v, s)
    && Signals(c, v, m, w) == Pulses(if Calls(s) then {c.index as int} else {}, {}, false, Given(v, s))
  }

  lemma SetLines(c: Config, v: Inputs, m: Machine)
    requires Tuned(c) && Settled(m) && (m.pc == 0 || m.pc == 12 || m.pc == 15)
    ensures Behaves(c, v, m)
  {
    hide Obey, Signals, PinGroup;
    var lo: Int5 := if m.pc == 12 then 1 else 0;
    assert Is(Line(m.pc), 7, 4, lo);
    SetMeans(c, v, m, Line(m.pc), 4, lo);
    TwoPins(m.oe, lo, c.setBase);
  }

  lemma TwoPins(oe: Pins, x: nat, base: Int5)
    requires x < 2
    ensures PinGroup(oe, x, base, 2)[base] == (x == 1) && !PinGroup(oe, x, base, 2)[(base + 1) % 32]
  {
    hide NumberBit;
    FirstBits(x);
    assert (base - base) % 32 == 0;
    NextPin(base);
  }

  lemma NextPin(base: Int5)
    ensures ((base + 1) % 32 - base) % 32 == 1
  {
    if base < 31 {
    } else {
    }
  }

  lemma FirstBits(x: nat)
    requires x < 2
    ensures NumberBit(x, 0) == (x == 1) && !NumberBit(x, 1)
  {
    SmallPowers();
    assert P(0) == 1 && P(1) == 2;
    hide P;
    Divided(x, P(0), P(1));
  }

  lemma Divided(x: nat, one: nat, two: nat)
    requires x < 2 && one == 1 && two == 2
    ensures x / one == x && x / two == 0
  {
  }

  lemma CountLine(c: Config, v: Inputs, m: Machine)
    requires Tuned(c) && Settled(m) && m.pc == 5
    ensures Behaves(c, v, m)
  {
    hide Obey, Signals;
    assert Is(0xe027, 7, 1, 7);
    SetMeans(c, v, m, 0xe027, 1, 7);
  }

  lemma StartLines(c: Config, v: Inputs, m: Machine)
    requires Tuned(c) && Settled(m) && (m.pc == 1 || m.pc == 2)
    ensures Behaves(c, v, m)
  {
    hide Obey, Signals;
    var hi: Int3 := if m.pc == 1 then 5 else 1;
    assert Is(Line(m.pc), 1, hi, 0);
    WaitMeans(c, v, m, Line(m.pc), hi, 0, c.inBase);
  }

  lemma ClockLines(c: Config, v: Inputs, m: Machine)
    requires Tuned(c) && Settled(m) && (m.pc == 6 || m.pc == 7 || m.pc == 11 || m.pc == 13 || m.pc == 14)
    ensures Behaves(c, v, m)
  {
    hide Obey, Signals;
    var hi: Int3 := if m.pc == 7 || m.pc == 13 then 4 else 0;
    assert Is(Line(m.pc), 1, hi, 1);
    WaitMeans(c, v, m, Line(m.pc), hi, 1, 1);
  }

  lemma JumpLines(c: Config, v: Inputs, m: Machine)
    requires Tuned(c) && Settled(m) && (m.pc == 3 || m.pc == 4 || m.pc == 9 || m.pc == 17)
    ensures Behaves(c, v, m)
  {
    hide Obey, Signals;
    var cond: Int3 := if m.pc == 3 then 6 else if m.pc == 9 then 2 else 0;
    var a: Int5 := if m.pc == 4 then 0 else if m.pc == 9 then 6 else 5;
    assert Is(Line(m.pc), 0, cond, a);
    JumpMeans(c, v, m, Line(m.pc), cond, a);
  }

  lemma DataLines(c: Config, v: Inputs, m: Machine)
    requires Tuned(c) && Settled(m) && (m.pc == 8 || m.pc == 10 || m.pc == 16)
    ensures Behaves(c, v, m)
  {
    hide Obey, Signals;
    if m.pc == 8 {
      assert Is(0x4001, 2, 0, 1);
      InMeans(c, v, m, 0x4001);
    } else if m.pc == 10 {
      assert Is(0x8000, 4, 0, 0);
      PushMeans(c, v, m, 0x8000);
    } else {
      assert Is(0xc050, 6, 2, 16);
      IrqMeans(c, v, m, 0xc050);
    }
  }

  /** Word by word, the program is the receiver. */
  lemma LinesBehave(c: Config, v: Inputs, m: Machine)
    requires Tuned(c) && Settled(m)
    ensures Behaves(c, v, m)
  {
    hide Behaves;
    if m.pc == 0 || m.pc == 12 || m.pc == 15 {
      SetLines(c, v, m);
    } else if m.pc == 5 {
      CountLine(c, v, m);
    } else if m.pc == 1 || m.pc == 2 {
      StartLines(c, v, m);
    } else if m.pc == 3 || m.pc == 4 || m.pc == 9 || m.pc == 17 {
      JumpLines(c, v, m);
    } else if m.pc == 8 || m.pc == 10 || m.pc == 16 {
      DataLines(c, v, m);
    } else {
      ClockLines(c, v, m);
    }
  }

  // ---------------------------------------------------------------- runs

  /** The program is in the instruction memory, and nothing restarts the machine or forces a word on it. */
  predicate Loaded(c: Config, vs: seq<Inputs>, m: Machine) {
    vs == [] ||
    (!vs[0].restart && !vs[0].forceExec && vs[0].instr == Line(m.pc) && Loaded(c, vs[1..], Step(c, vs[0], m)))
  }

  /** What the machine saw in the clocks in which it carried a word out; the divider decides which those are. */
  function Attempts(c: Config, vs: seq<Inputs>, m: Machine): seq<Inputs> {
    if vs == [] then [] else (if Acts(vs[0], m) then [vs[0]] else []) + Attempts(c, vs[1..], Step(c, vs[0], m))
  }

  function Follow(c: Config, a: seq<Inputs>, s: Receiver): Receiver {
    if a == [] then s else Follow(c, a[1..], Next(c, a[0], s))
  }

  function Taken(g: Option<nat>): seq<nat> {
    if g.Some? then [g.value] else []
  }

  /** The words given to RX, in order. */
  function AllGiven(c: Config, a: seq<Inputs>, s: Receiver): seq<nat> {
    if a == [] then [] else Taken(Given(a[0], s)) + AllGiven(c, a[1..], Next(c, a[0], s))
  }

  function Pushes(p: seq<Pulses>): seq<nat> {
    if p == [] then [] else Taken(p[0].pushed) + Pushes(p[1..])
  }

  lemma AttemptFollows(c: Config, v: Inputs, m: Machine)
    requires Tuned(c) && Settled(m) && Loaded(c, [v], m) && Acts(v, m)
    ensures Settled(Step(c, v, m)) && ReceiverOf(c, Step(c, v, m)) == Next(c, v, ReceiverOf(c, m))
    ensures Shows(c, v, m).pushed == Given(v, ReceiverOf(c, m))
  {
    hide Next, Signals, Obey, Line, Calls, NextDiv;
    assert NextWord(v, m) == Line(m.pc);
    LinesBehave(c, v, m);
  }

  lemma IdleFollows(c: Config, v: Inputs, m: Machine)
    requires Settled(m) && Loaded(c, [v], m) && !Acts(v, m)
    ensures Settled(Step(c, v, m)) && ReceiverOf(c, Step(c, v, m)) == ReceiverOf(c, m)
    ensures Shows(c, v, m) == QUIET
  {
    hide Signals, Obey, Line, NextDiv;
  }

  /** Over every run, under every divider, the program is the receiver at its attempts. */
  lemma {:induction false} RunFollows(c: Config, vs: seq<Inputs>, m: Machine)
    requires Tuned(c) && Settled(m) && Loaded(c, vs, m)
    ensures Settled(Steps(c, vs, m))
    ensures ReceiverOf(c, Steps(c, vs, m)) == Follow(c, Attempts(c, vs, m), ReceiverOf(c, m))
    ensures Pushes(AllShown(c, vs, m)) == AllGiven(c, Attempts(c, vs, m), ReceiverOf(c, m))
    decreases |vs|
  {
    hide Step, Shows, Acts, Next, Given, Line, Settled, ReceiverOf, Tuned;
    if vs != [] {
      var v, m' := vs[0], Step(c, vs[0], m);
      assert Loaded(c, [v], m);
      var a := Attempts(c, vs, m);
      if Acts(v, m) {
        AttemptFollows(c, v, m);
        RunFollows(c, vs[1..], m');
        assert a[1..] == Attempts(c, vs[1..], m');
      } else {
        IdleFollows(c, v, m);
        RunFollows(c, vs[1..], m');
        assert a == Attempts(c, vs[1..], m');
        assert Taken(Shows(c, v, m).pushed) == [];
      }
      var p := AllShown(c, vs, m);
      assert p[0] == Shows(c, v, m) && p[1..] == AllShown(c, vs[1..], m');
    }
  }

  // ---------------------------------------------------------------- on the bus

  /** One bit slot as the attempts see it: SCL low, then high. Each level is seen at least twice. */
  datatype Slot = Slot(low: seq<Inputs>, high: seq<Inputs>)

  predicate SclLow(a: seq<Inputs>) {
    forall t :: 0 <= t < |a| ==> !Scl(a[t])
  }

  predicate SclHigh(a: seq<Inputs>) {
    forall t :: 0 <= t < |a| ==> Scl(a[t])
  }

  predicate Seen(b: Slot) {
    |b.low| >= 2 && |b.high| >= 2 && SclLow(b.low) && SclHigh(b.high)
  }

  /** The level of SDA the second time SCL is seen high. On a bus that changes SDA only while SCL is low, it is the
      level all through. */
  predicate BitOf(c: Config, b: Slot)
    requires Seen(b)
  {
    Sda(c, b.high[1])
  }

  predicate AllSeen(bits: seq<Slot>) {
    forall k :: 0 <= k < |bits| ==> Seen(bits[k])
  }

  function Views(bits: seq<Slot>): seq<Inputs> {
    if bits == [] then [] else bits[0].low + bits[0].high + Views(bits[1..])
  }

  /** The bits of slots taken into a word, most significant first. */
  function Collect(c: Config, isr: nat, bits: seq<Slot>): nat
    requires AllSeen(bits)
    decreases |bits|
  {
    if bits == [] then isr else Collect(c, Appended(isr, BitOf(c, bits[0])), bits[1..])
  }

  /** SDA is pulled low, or let go, all through these attempts. */
  predicate Keeps(c: Config, a: seq<Inputs>, s: Receiver, low: bool) {
    a == [] || (s.sdaLow == low && Keeps(c, a[1..], Next(c, a[0], s), low))
  }

  lemma {:induction false} FollowSplit(c: Config, a: seq<Inputs>, b: seq<Inputs>, s: Receiver)
    ensures Follow(c, a + b, s) == Follow(c, b, Follow(c, a, s))
    ensures AllGiven(c, a + b, s) == AllGiven(c, a, s) + AllGiven(c, b, Follow(c, a, s))
    ensures forall low :: Keeps(c, a, s, low) && Keeps(c, b, Follow(c, a, s), low) ==> Keeps(c, a + b, s, low)
    decreases |a|
  {
    hide Next, Given;
    if a == [] {
      assert a + b == b;
    } else {
      assert (a + b)[1..] == a[1..] + b;
      FollowSplit(c, a[1..], b, Next(c, a[0], s));
    }
  }

  /** The receiver goes from s to s' and gives nothing to RX meanwhile. */
  predicate Goes(c: Config, a: seq<Inputs>, s: Receiver, s': Receiver) {
    Follow(c, a, s) == s' && AllGiven(c, a, s) == [] && Keeps(c, a, s, s.sdaLow)
  }

  lemma GoesOn(c: Config, a: seq<Inputs>, b: seq<Inputs>, s: Receiver, s': Receiver, s'': Receiver)
    requires Goes(c, a, s, s') && Goes(c, b, s', s'') && s.sdaLow == s'.sdaLow
    ensures Goes(c, a + b, s, s'')
  {
    hide Follow, AllGiven, Keeps;
    FollowSplit(c, a, b, s);
  }

  lemma OneAttempt(c: Config, v: Inputs, s: Receiver)
    requires s.at != 10
    ensures Goes(c, [v], s, Next(c, v, s))
  {
    hide Next;
    var a, s' := [v], Next(c, v, s);
    assert a[1..] == [] && a[0] == v;
    assert Follow(c, a[1..], s') == s' && AllGiven(c, a[1..], s') == [] && Keeps(c, a[1..], s', s.sdaLow);
    assert Taken(Given(v, s)) == [];
  }

  /** The receiver waits for SCL to change. */
  lemma {:induction false} Waits(c: Config, a: seq<Inputs>, s: Receiver)
    requires ((s.at == 7 || s.at == 13) && SclLow(a)) || ((s.at == 6 || s.at == 11 || s.at == 14) && SclHigh(a))
    ensures Goes(c, a, s, s)
    decreases |a|
  {
    if a != [] {
      assert Next(c, a[0], s) == s;
      Waits(c, a[1..], s);
      hide Next, Follow, AllGiven, Keeps;
      OneAttempt(c, a[0], s);
      GoesOn(c, [a[0]], a[1..], s, s, s);
      assert a == [a[0]] + a[1..];
    }
  }

  /** Before a slot, with n more slots to come after it. */
  predicate Between(s: Receiver, n: nat) {
    (s.at == 6 && s.left == n) || (s.at == 9 && s.left == n + 1)
  }

  lemma LowPhase(c: Config, a: seq<Inputs>, s: Receiver, n: nat)
    requires Between(s, n) && SclLow(a) && |a| >= 2
    ensures Goes(c, a, s, s.(at := 7, left := n))
  {
    hide Follow, AllGiven, Keeps, Goes;
    var s1, s7 := Next(c, a[0], s), s.(at := 7, left := n);
    OneAttempt(c, a[0], s);
    assert a == [a[0]] + a[1..];
    if s.at == 6 {
      Waits(c, a[1..], s7);
      GoesOn(c, [a[0]], a[1..], s, s7, s7);
    } else {
      OneAttempt(c, a[1], s1);
      Waits(c, a[2..], s7);
      GoesOn(c, [a[0]], [a[1]], s, s1, s7);
      assert a == [a[0]] + [a[1]] + a[2..];
      GoesOn(c, [a[0]] + [a[1]], a[2..], s, s7, s7);
    }
  }

  /** SCL rises: one attempt sees it high, the next takes SDA. */
  lemma Sample(c: Config, v: Inputs, w: Inputs, s: Receiver)
    requires s.at == 7 && Scl(v)
    ensures Goes(c, [v] + [w], s, s.(at := 9, isr := Appended(s.isr, Sda(c, w))))
  {
    hide Follow, AllGiven, Keeps, Goes;
    var s8 := s.(at := 8);
    assert Next(c, v, s) == s8;
    OneAttempt(c, v, s);
    OneAttempt(c, w, s8);
    GoesOn(c, [v], [w], s, s8, Next(c, w, s8));
  }

  /** The rest of the high phase, when more bits are to come. */
  lemma HighRest(c: Config, a: seq<Inputs>, s: Receiver)
    requires s.at == 9 && s.left > 0 && SclHigh(a)
    ensures var s' := Follow(c, a, s);
            && Between(s', s.left - 1) && s' == s.(at := s'.at, left := s'.left) && Goes(c, a, s, s')
  {
    if a != [] {
      var s6 := s.(at := 6, left := s.left - 1);
      assert Next(c, a[0], s) == s6;
      hide Next, Follow, AllGiven, Keeps, Goes;
      OneAttempt(c, a[0], s);
      Waits(c, a[1..], s6);
      GoesOn(c, [a[0]], a[1..], s, s6, s6);
      assert a == [a[0]] + a[1..];
      assert Follow(c, a, s) == s6 by {
        GoesTo(c, a, s, s6);
      }
    }
  }

  lemma GoesTo(c: Config, a: seq<Inputs>, s: Receiver, s': Receiver)
    requires Goes(c, a, s, s')
    ensures Follow(c, a, s) == s'
  {
  }

  lemma ToSample(c: Config, b: Slot, s: Receiver, n: nat)
    requires Between(s, n) && Seen(b)
    ensures Goes(c, b.low + b.high[..2], s, s.(at := 9, left := n, isr := Appended(s.isr, BitOf(c, b))))
  {
    hide Goes, Appended;
    LowPhase(c, b.low, s, n);
    Sample(c, b.high[0], b.high[1], s.(at := 7, left := n));
    assert b.high[..2] == [b.high[0]] + [b.high[1]];
    GoesOn(c, b.low, b.high[..2], s, s.(at := 7, left := n), s.(at := 9, left := n, isr := Appended(s.isr, BitOf(c, b))));
  }

  lemma SlotTaken(c: Config, b: Slot, s: Receiver, n: nat)
    requires Between(s, n) && n > 0 && Seen(b)
    ensures var s' := Follow(c, b.low + b.high, s);
            && Between(s', n - 1) && s' == s.(at := s'.at, left := s'.left, isr := Appended(s.isr, BitOf(c, b)))
            && Goes(c, b.low + b.high, s, s')
  {
    hide Goes, Appended, Follow;
    var s9 := s.(at := 9, left := n, isr := Appended(s.isr, BitOf(c, b)));
    ToSample(c, b, s, n);
    HighRest(c, b.high[2..], s9);
    GoesOn(c, b.low + b.high[..2], b.high[2..], s, s9, Follow(c, b.high[2..], s9));
    assert b.low + b.high == b.low + b.high[..2] + b.high[2..];
    GoesTo(c, b.low + b.high, s, Follow(c, b.high[2..], s9));
  }

  lemma {:induction false} SlotsTaken(c: Config, bits: seq<Slot>, s: Receiver, n: nat)
    requires Between(s, n) && |bits| <= n && AllSeen(bits)
    ensures var s' := Follow(c, Views(bits), s);
            && Between(s', n - |bits|) && s' == s.(at := s'.at, left := s'.left, isr := Collect(c, s.isr, bits))
            && Goes(c, Views(bits), s, s')
    decreases |bits|
  {
    hide Appended;
    if bits != [] {
      var b := bits[0];
      var s1 := Follow(c, b.low + b.high, s);
      SlotTaken(c, b, s, n);
      SlotsTaken(c, bits[1..], s1, n - 1);
      hide Goes, Follow;
      GoesOn(c, b.low + b.high, Views(bits[1..]), s, s1, Follow(c, Views(bits[1..]), s1));
      GoesTo(c, Views(bits), s, Follow(c, Views(bits[1..]), s1));
    }
  }

  // ---------------------------------------------------------------- the word handed over and the acknowledgement

  lemma PushAttempt(c: Config, v: Inputs, s: Receiver)
    requires s.at == 10
    ensures Follow(c, [v], s) == Next(c, v, s) && AllGiven(c, [v], s) == (if v.rxFull then [] else [s.isr])
    ensures Keeps(c, [v], s, s.sdaLow)
  {
    hide Next;
    var a, s' := [v], Next(c, v, s);
    assert a[1..] == [] && a[0] == v;
    assert Follow(c, a[1..], s') == s' && AllGiven(c, a[1..], s') == [] && Keeps(c, a[1..], s', s.sdaLow);
  }

  /** The last bit is in: the count is at its end, and the next attempt but one gives the word to RX if it has room. */
  lemma TwoMore(c: Config, v: Inputs, w: Inputs, s: Receiver)
    requires s.at == 9 && s.left == 0
    ensures var s' := Follow(c, [v] + [w], s);
            && s' == s.(at := 11, left := 0xFFFF_FFFF, isr := if w.rxFull then s.isr else 0)
            && AllGiven(c, [v] + [w], s) == (if w.rxFull then [] else [s.isr])
            && Keeps(c, [v], s, s.sdaLow) && Keeps(c, [v] + [w], s, s.sdaLow)
  {
    var s10 := s.(at := 10, left := 0xFFFF_FFFF);
    assert Next(c, v, s) == s10;
    OneAttempt(c, v, s);
    PushAttempt(c, w, s10);
    assert Goes(c, [v], s, s10);
    hide Follow, AllGiven, Keeps;
    FollowSplit(c, [v], [w], s);
  }

  /** From there on it waits for SCL low, and then pulls SDA low. */
  lemma PullsSda(c: Config, high: seq<Inputs>, low: seq<Inputs>, s: Receiver)
    requires s.at == 11 && SclHigh(high) && SclLow(low) && |low| >= 2
    ensures Follow(c, high + low, s) == s.(at := 13, sdaLow := true, sclLow := false)
    ensures AllGiven(c, high + low, s) == [] && Keeps(c, high, s, s.sdaLow)
  {
    hide Follow, AllGiven, Keeps, Goes;
    var s12, s13 := s.(at := 12), s.(at := 13, sdaLow := true, sclLow := false);
    Waits(c, high, s);
    Unfolded(c, high, s, s);
    OneAttempt(c, low[0], s);
    OneAttempt(c, low[1], s12);
    Waits(c, low[2..], s13);
    Unfolded(c, [low[0]], s, s12);
    Unfolded(c, [low[1]], s12, s13);
    Unfolded(c, low[2..], s13, s13);
    FollowSplit(c, [low[0]], [low[1]], s);
    FollowSplit(c, [low[0]] + [low[1]], low[2..], s);
    assert low == [low[0]] + [low[1]] + low[2..];
    FollowSplit(c, high, low, s);
  }

  lemma Unfolded(c: Config, a: seq<Inputs>, s: Receiver, s': Receiver)
    requires Goes(c, a, s, s')
    ensures Follow(c, a, s) == s' && AllGiven(c, a, s) == [] && Keeps(c, a, s, s.sdaLow)
  {
  }

  /** The rest of the last high phase and the low phase after it. */
  lemma Answers(c: Config, high: seq<Inputs>, low: seq<Inputs>, s: Receiver)
    requires s.at == 9 && s.left == 0 && SclHigh(high) && SclLow(low) && |low| >= 2 && |high| + |low| >= 4
    ensures var a, full := high + low, (high + low)[1].rxFull;
            && Follow(c, a, s) ==
               s.(at := 13, left := 0xFFFF_FFFF, isr := if full then s.isr else 0, sdaLow := true, sclLow := false)
            && AllGiven(c, a, s) == (if full then [] else [s.isr])
            && Keeps(c, high, s, s.sdaLow)
  {
    var a := high + low;
    var k := if |high| < 2 then |high| else 2;
    var s11 := s.(at := 11, left := 0xFFFF_FFFF, isr := if a[1].rxFull then s.isr else 0);
    hide Follow, AllGiven, Keeps, SclHigh, SclLow;
    TwoMore(c, a[0], a[1], s);
    Parted(high, low, k);
    PullsSda(c, high[k..], low[2 - k..], s11);
    FollowSplit(c, [a[0]] + [a[1]], high[k..] + low[2 - k..], s);
    if k == 2 {
      FollowSplit(c, [a[0]] + [a[1]], high[2..], s);
    } else if k == 0 {
      NoAttempt(c, s);
    }
  }

  lemma Parted(high: seq<Inputs>, low: seq<Inputs>, k: nat)
    requires SclHigh(high) && SclLow(low) && |high| + |low| >= 4 && k == (if |high| < 2 then |high| else 2)
    ensures SclHigh(high[k..]) && SclLow(low[2 - k..])
    ensures var a := high + low;
            && a == [a[0]] + [a[1]] + (high[k..] + low[2 - k..])
            && (k == 2 ==> high == [a[0]] + [a[1]] + high[2..]) && (k == 1 ==> high == [a[0]]) && (k == 0 ==> high == [])
  {
  }

  lemma NoAttempt(c: Config, s: Receiver)
    ensures Keeps(c, [], s, s.sdaLow)
  {
  }

  lemma {:induction false} ViewsSplit(bits: seq<Slot>, k: nat)
    requires k <= |bits|
    ensures Views(bits) == Views(bits[..k]) + Views(bits[k..])
  {
    if k == 0 {
      assert bits[..0] == [] && bits[0..] == bits;
    } else {
      ViewsSplit(bits[1..], k - 1);
      assert bits[..k][1..] == bits[1..][..k - 1] && bits[1..][k - 1..] == bits[k..];
    }
  }

  lemma {:induction false} CollectSplit(c: Config, isr: nat, bits: seq<Slot>, k: nat)
    requires k <= |bits| && AllSeen(bits)
    ensures Collect(c, isr, bits) == Collect(c, Collect(c, isr, bits[..k]), bits[k..])
    decreases k
  {
    if k == 0 {
      assert bits[..0] == [] && bits[0..] == bits;
    } else {
      CollectSplit(c, Appended(isr, BitOf(c, bits[0])), bits[1..], k - 1);
      assert bits[..k][1..] == bits[1..][..k - 1] && bits[1..][k - 1..] == bits[k..];
    }
  }

  /** Eight slots and the low phase after them: the eight bits are appended to the ISR, most significant first; the word
      goes to RX, and the ISR is emptied, if RX has room at the one attempt that asks; SDA is let go all through the
      eight slots and pulled low before SCL rises for the ninth time. The attempts there have to be enough: four from
      the third the last bit sees SCL high, two of them with SCL low. */
  lemma ByteTaken(c: Config, bits: seq<Slot>, low: seq<Inputs>, s: Receiver)
    requires Between(s, 7) && |bits| == 8 && AllSeen(bits)
    requires SclLow(low) && |low| >= 2 && |bits[7].high| + |low| >= 6
    ensures var a, word, full := Views(bits) + low, Collect(c, s.isr, bits), (bits[7].high + low)[3].rxFull;
            && Follow(c, a, s) ==
               s.(at := 13, left := 0xFFFF_FFFF, isr := if full then word else 0, sdaLow := true, sclLow := false)
            && AllGiven(c, a, s) == (if full then [] else [word])
            && Keeps(c, Views(bits), s, s.sdaLow)
  {
    hide Follow, AllGiven, Keeps, Goes, Appended, Collect, Views;
    var seven, last := bits[..7], bits[7];
    var s1, word := Follow(c, Views(seven), s), Collect(c, s.isr, bits);
    SlotsTaken(c, seven, s, 7);
    Unfolded(c, Views(seven), s, s1);
    LastSlot(c, bits, s.isr);
    var s9 := s1.(at := 9, left := 0, isr := word);
    ToSample(c, last, s1, 0);
    Unfolded(c, last.low + last.high[..2], s1, s9);
    var head, rest := last.low + last.high[..2], last.high[2..] + low;
    Answers(c, last.high[2..], low, s9);
    assert rest[1] == (last.high + low)[3];
    FollowSplit(c, Views(seven), head, s);
    FollowSplit(c, Views(seven) + head, rest, s);
    FollowSplit(c, Views(seven) + head, last.high[2..], s);
    assert Views(seven) + head + last.high[2..] == Views(bits);
    assert Views(seven) + head + rest == Views(bits) + low;
  }

  lemma LastSlot(c: Config, bits: seq<Slot>, isr: nat)
    requires |bits| == 8 && AllSeen(bits)
    ensures Views(bits) == Views(bits[..7]) + (bits[7].low + bits[7].high)
    ensures Views(bits) == Views(bits[..7]) + (bits[7].low + bits[7].high[..2]) + bits[7].high[2..]
    ensures Collect(c, isr, bits) == Appended(Collect(c, isr, bits[..7]), BitOf(c, bits[7]))
  {
    hide Appended;
    ViewsSplit(bits, 7);
    CollectSplit(c, isr, bits, 7);
    assert bits[7..] == [bits[7]] && bits[7..][1..] == [];
    assert Views(bits[7..]) == bits[7].low + bits[7].high;
    assert bits[7].high == bits[7].high[..2] + bits[7].high[2..];
  }

  /** SDA stays low while SCL is high for the ninth time. */
  lemma HoldsAck(c: Config, high: seq<Inputs>, s: Receiver)
    requires s.at == 13 && SclHigh(high) && high != []
    ensures Goes(c, high, s, s.(at := 14))
  {
    hide Follow, AllGiven, Keeps, Goes;
    OneAttempt(c, high[0], s);
    Waits(c, high[1..], s.(at := 14));
    assert high == [high[0]] + high[1..];
    GoesOn(c, [high[0]], high[1..], s, s.(at := 14), s.(at := 14));
  }

  // ---------------------------------------------------------------- START, and from byte to byte

  /** START as the attempts see it: SDA high, then low while SCL is high. */
  predicate IsStart(c: Config, idle: seq<Inputs>, hold: seq<Inputs>) {
    && |idle| >= 2 && |hold| >= 3 && SclHigh(hold)
    && (forall t :: 0 <= t < |idle| ==> Sda(c, idle[t])) && forall t :: 0 <= t < |hold| ==> !Sda(c, hold[t])
  }

  lemma {:induction false} AwaitsFall(c: Config, a: seq<Inputs>, s: Receiver)
    requires s.at == 2 && forall t :: 0 <= t < |a| ==> Sda(c, a[t])
    ensures Goes(c, a, s, s)
    decreases |a|
  {
    if a != [] {
      AwaitsFall(c, a[1..], s);
      hide Follow, AllGiven, Keeps;
      OneAttempt(c, a[0], s);
      GoesOn(c, [a[0]], a[1..], s, s, s);
      assert a == [a[0]] + a[1..];
    }
  }

  /** A START takes the receiver from its first word to where it waits for the first bit. */
  lemma StartTaken(c: Config, idle: seq<Inputs>, hold: seq<Inputs>, s: Receiver)
    requires s.at == 0 && !s.sdaLow && IsStart(c, idle, hold)
    ensures Goes(c, idle + hold, s, s.(at := 6, left := 7, sclLow := false))
  {
    hide Follow, AllGiven, Keeps, Goes, SclHigh;
    var s1 := s.(at := 1, sclLow := false);
    var s2, s3, s5, s6 := s1.(at := 2), s1.(at := 3), s1.(at := 5), s1.(at := 6, left := 7);
    OneAttempt(c, idle[0], s);
    OneAttempt(c, idle[1], s1);
    GoesOn(c, [idle[0]], [idle[1]], s, s1, s2);
    AwaitsFall(c, idle[2..], s2);
    GoesOn(c, [idle[0]] + [idle[1]], idle[2..], s, s2, s2);
    assert idle == [idle[0]] + [idle[1]] + idle[2..];
    StartHeld(c, hold, s2);
    GoesOn(c, idle, hold, s, s2, s6);
  }

  lemma StartHeld(c: Config, hold: seq<Inputs>, s: Receiver)
    requires s.at == 2 && |hold| >= 3 && SclHigh(hold) && !Sda(c, hold[0])
    ensures Goes(c, hold, s, s.(at := 6, left := 7))
  {
    hide Follow, AllGiven, Keeps, Goes;
    var s3, s5, s6 := s.(at := 3), s.(at := 5), s.(at := 6, left := 7);
    OneAttempt(c, hold[0], s);
    OneAttempt(c, hold[1], s3);
    GoesOn(c, [hold[0]], [hold[1]], s, s3, s5);
    OneAttempt(c, hold[2], s5);
    GoesOn(c, [hold[0]] + [hold[1]], [hold[2]], s, s5, s6);
    Waits(c, hold[3..], s6);
    GoesOn(c, [hold[0]] + [hold[1]] + [hold[2]], hold[3..], s, s6, s6);
    assert hold == [hold[0]] + [hold[1]] + [hold[2]] + hold[3..];
  }

  /** The attempts between the ninth slot and the next byte: SCL falls, SDA is let go, the flag is raised for the CPU,
      seen up any number of times, and seen down. */
  predicate IsPause(c: Config, a: seq<Inputs>) {
    && |a| >= 6 && !Scl(a[0])
    && (forall t :: 3 <= t < |a| - 3 ==> a[t].irqFlags[c.index]) && !a[|a| - 3].irqFlags[c.index]
  }

  lemma {:induction false} AwaitsAnswer(c: Config, a: seq<Inputs>, s: Receiver)
    requires s.at == 16 && s.waiting && forall t :: 0 <= t < |a| ==> a[t].irqFlags[c.index]
    ensures Goes(c, a, s, s)
    decreases |a|
  {
    if a != [] {
      AwaitsAnswer(c, a[1..], s);
      hide Follow, AllGiven, Keeps;
      OneAttempt(c, a[0], s);
      GoesOn(c, [a[0]], a[1..], s, s, s);
      assert a == [a[0]] + a[1..];
    }
  }

  lemma Resumes(c: Config, a: seq<Inputs>, s: Receiver)
    requires s.at == 14 && !s.waiting && IsPause(c, a)
    ensures Follow(c, a, s) == s.(at := 6, left := 7, sdaLow := false, sclLow := false)
    ensures AllGiven(c, a, s) == []
  {
    hide Follow, AllGiven, Keeps, Goes;
    var n := |a|;
    var s16 := s.(at := 16, sdaLow := false, sclLow := false);
    var s6 := s16.(at := 6, left := 7);
    LetsGo(c, a[0], a[1], s);
    Asks(c, a[2..], s16);
    assert a == [a[0]] + [a[1]] + a[2..];
    Unfolded(c, a[2..], s16, s6);
    FollowSplit(c, [a[0]] + [a[1]], a[2..], s);
  }

  lemma LetsGo(c: Config, v: Inputs, w: Inputs, s: Receiver)
    requires s.at == 14 && !Scl(v)
    ensures Follow(c, [v] + [w], s) == s.(at := 16, sdaLow := false, sclLow := false)
    ensures AllGiven(c, [v] + [w], s) == []
  {
    var s15 := s.(at := 15);
    OneAttempt(c, v, s);
    OneAttempt(c, w, s15);
    Unfolded(c, [v], s, s15);
    Unfolded(c, [w], s15, Next(c, w, s15));
    hide Follow, AllGiven, Keeps;
    FollowSplit(c, [v], [w], s);
  }

  lemma Asks(c: Config, a: seq<Inputs>, s: Receiver)
    requires s.at == 16 && !s.waiting && |a| >= 4 && !a[|a| - 3].irqFlags[c.index]
    requires forall t :: 1 <= t < |a| - 3 ==> a[t].irqFlags[c.index]
    ensures Goes(c, a, s, s.(at := 6, left := 7))
  {
    hide Follow, AllGiven, Keeps, Goes;
    var n := |a|;
    var sw, s17, s5, s6 := s.(waiting := true), s.(at := 17), s.(at := 5), s.(at := 6, left := 7);
    OneAttempt(c, a[0], s);
    AwaitsAnswer(c, a[1..n - 3], sw);
    GoesOn(c, [a[0]], a[1..n - 3], s, sw, sw);
    assert [a[0]] + a[1..n - 3] == a[..n - 3];
    OneAttempt(c, a[n - 3], sw);
    GoesOn(c, a[..n - 3], [a[n - 3]], s, sw, s17);
    assert a[..n - 3] + [a[n - 3]] == a[..n - 2];
    OneAttempt(c, a[n - 2], s17);
    GoesOn(c, a[..n - 2], [a[n - 2]], s, s17, s5);
    assert a[..n - 2] + [a[n - 2]] == a[..n - 1];
    OneAttempt(c, a[n - 1], s5);
    GoesOn(c, a[..n - 1], [a[n - 1]], s, s5, s6);
    assert a[..n - 1] + [a[n - 1]] == a;
  }

  // ---------------------------------------------------------------- messages

  /** A byte on the bus: eight slots, the ninth, and the time until the CPU has answered. */
  datatype Byte = Byte(bits: seq<Slot>, low: seq<Inputs>, high: seq<Inputs>, pause: seq<Inputs>)

  predicate Sent(c: Config, b: Byte) {
    && |b.bits| == 8 && AllSeen(b.bits) && SclLow(b.low) && SclHigh(b.high) && b.high != [] && IsPause(c, b.pause)
    && |b.low| >= 2 && |b.bits[7].high| + |b.low| >= 6
  }

  predicate AllSent(c: Config, bytes: seq<Byte>) {
    forall k :: 0 <= k < |bytes| ==> Sent(c, bytes[k])
  }

  function ByteViews(bytes: seq<Byte>): seq<Inputs> {
    if bytes == [] then []
    else (Views(bytes[0].bits) + bytes[0].low + bytes[0].high + bytes[0].pause) + ByteViews(bytes[1..])
  }

  /** RX is full at the attempt that offers it this byte's word. */
  predicate Refused(c: Config, b: Byte)
    requires Sent(c, b)
  {
    (b.bits[7].high + b.low)[3].rxFull
  }

  /** The words RX is given: a byte that finds it full stays in the ISR, above the next. */
  function WordsOf(c: Config, isr: nat, bytes: seq<Byte>): seq<nat>
    requires AllSent(c, bytes)
    decreases |bytes|
  {
    if bytes == [] then []
    else
      var word := Collect(c, isr, bytes[0].bits);
      if Refused(c, bytes[0]) then WordsOf(c, word, bytes[1..]) else [word] + WordsOf(c, 0, bytes[1..])
  }

  /** One byte, acknowledged, and the receiver ready for the next. */
  lemma ByteDone(c: Config, b: Byte, s: Receiver)
    requires Between(s, 7) && Sent(c, b) && !s.waiting
    ensures var a, word := Views(b.bits) + b.low + b.high + b.pause, Collect(c, s.isr, b.bits);
            && Follow(c, a, s) ==
               s.(at := 6, left := 7, isr := if Refused(c, b) then word else 0, sdaLow := false, sclLow := false)
            && AllGiven(c, a, s) == (if Refused(c, b) then [] else [word])
  {
    hide Follow, AllGiven, Keeps, Goes, Collect, Views, IsPause;
    var taken := Views(b.bits) + b.low;
    var s13 := Follow(c, taken, s);
    ByteTaken(c, b.bits, b.low, s);
    HoldsAck(c, b.high, s13);
    Unfolded(c, b.high, s13, s13.(at := 14));
    FollowSplit(c, taken, b.high, s);
    Resumes(c, b.pause, s13.(at := 14));
    FollowSplit(c, taken + b.high, b.pause, s);
  }

  lemma {:induction false} MessageTaken(c: Config, bytes: seq<Byte>, s: Receiver)
    requires s.at == 6 && s.left == 7 && !s.waiting && AllSent(c, bytes)
    ensures AllGiven(c, ByteViews(bytes), s) == WordsOf(c, s.isr, bytes)
    decreases |bytes|
  {
    if bytes != [] {
      var b := bytes[0];
      var a := Views(b.bits) + b.low + b.high + b.pause;
      ByteDone(c, b, s);
      MessageTaken(c, bytes[1..], Follow(c, a, s));
      hide Follow, AllGiven;
      FollowSplit(c, a, ByteViews(bytes[1..]), s);
    }
  }

  /** The number the bits of slots spell, most significant first. */
  function Spelled(c: Config, bits: seq<Slot>): nat
    requires AllSeen(bits)
    decreases |bits|
  {
    if bits == [] then 0 else (if BitOf(c, bits[0]) then P(|bits| - 1) else 0) + Spelled(c, bits[1..])
  }

  /** Bits collected are appended to the number below them, of which 32 bits remain. */
  lemma {:induction false} CollectIs(c: Config, isr: nat, bits: seq<Slot>)
    requires isr < 0x1_0000_0000 && AllSeen(bits)
    ensures Collect(c, isr, bits) == (isr * P(|bits|) + Spelled(c, bits)) % 0x1_0000_0000
    decreases |bits|
  {
    hide P;
    if bits == [] {
      SmallPowers();
      Small(isr, P(0));
    } else {
      var b := if BitOf(c, bits[0]) then 1 else 0;
      CollectIs(c, Appended(isr, BitOf(c, bits[0])), bits[1..]);
      PowerStep(|bits|);
      Below(isr, b, P(|bits| - 1), Spelled(c, bits[1..]));
    }
  }

  lemma Small(isr: nat, one: nat)
    requires isr < 0x1_0000_0000 && one == 1
    ensures (isr * one) % 0x1_0000_0000 == isr
  {
  }

  lemma PowerStep(n: nat)
    requires n > 0
    ensures P(n) == 2 * P(n - 1)
  {
  }

  /** Cutting to 32 bits now or later is the same. */
  lemma Below(isr: nat, b: nat, p: nat, rest: nat)
    ensures (((2 * isr + b) % 0x1_0000_0000) * p + rest) % 0x1_0000_0000
         == (isr * (2 * p) + (b * p + rest)) % 0x1_0000_0000
  {
    var m := 0x1_0000_0000;
    var q, r := (2 * isr + b) / m, (2 * isr + b) % m;
    Spread(isr, b, q, r, m, p);
    Wraps(r * p + rest, q * p, m);
  }

  lemma Spread(isr: nat, b: nat, q: nat, r: nat, m: nat, p: nat)
    requires 2 * isr + b == m * q + r
    ensures isr * (2 * p) + b * p == m * (q * p) + r * p
  {
    assert (2 * isr + b) * p == (m * q + r) * p;
    assert (2 * isr + b) * p == isr * (2 * p) + b * p;
    assert (m * q + r) * p == m * (q * p) + r * p;
  }

  lemma Wraps(x: nat, k: nat, m: nat)
    requires m > 0
    ensures (m * k + x) % m == x % m
  {
    DivMod(m * k + x, x % m, m, k + x / m);
  }

  // ---------------------------------------------------------------- main results

  /** As the initialisation leaves the machine: at the first word, waiting for nothing, SDA let go. */
  predicate AtStart(c: Config, q: Regs) {
    q.pc == 0 && FetchesOnly(q) && q.delay == 0 && !q.irqWait && !q.pinsOe[c.setBase]
  }

  lemma StartSettled(c: Config, q: Regs)
    requires Tuned(c) && AtStart(c, q)
    ensures Settled(View(q))
    ensures var s := ReceiverOf(c, View(q)); s.at == 0 && !s.sdaLow && !s.waiting && s.isr == Value(q.isr)
  {
    hide Value;
    WordBelow(q.x);
  }

  /** A message on the bus, a START and any number of bytes, however long each level of SCL lasts and the CPU takes to
      answer: over every run whose attempts see it, under every divider, RX is given exactly the words of the bytes. */
  lemma MessageReceived(c: Config, vs: seq<Inputs>, q: Regs, idle: seq<Inputs>, hold: seq<Inputs>, bytes: seq<Byte>)
    requires Tuned(c) && AtStart(c, q) && Loaded(c, vs, View(q))
    requires IsStart(c, idle, hold) && AllSent(c, bytes)
    requires Attempts(c, vs, View(q)) == idle + hold + ByteViews(bytes)
    ensures Pushes(Displays(c, vs, q)) == WordsOf(c, Value(q.isr), bytes)
  {
    hide Follow, AllGiven, Keeps, Goes, Value, View, ReceiverOf, AtStart, Settled, Loaded, Attempts, Displays, IsStart, WordsOf;
    var m := View(q);
    var s := ReceiverOf(c, m);
    StartSettled(c, q);
    RunFollows(c, vs, m);
    EveryRunRefines(c, vs, q);
    Begins(c, idle, hold, s);
    MessageTaken(c, bytes, Follow(c, idle + hold, s));
    FollowSplit(c, idle + hold, ByteViews(bytes), s);
  }

  lemma Begins(c: Config, idle: seq<Inputs>, hold: seq<Inputs>, s: Receiver)
    requires s.at == 0 && !s.sdaLow && !s.waiting && IsStart(c, idle, hold)
    ensures var s' := Follow(c, idle + hold, s);
            s'.at == 6 && s'.left == 7 && !s'.sdaLow && !s'.waiting && s'.isr == s.isr && AllGiven(c, idle + hold, s) == []
  {
    hide Follow, AllGiven, Keeps, Goes, IsStart;
    StartTaken(c, idle, hold, s);
    Unfolded(c, idle + hold, s, s.(at := 6, left := 7, sclLow := false));
  }

  lemma {:induction false} SpelledBelow(c: Config, bits: seq<Slot>)
    requires AllSeen(bits)
    ensures Spelled(c, bits) < P(|bits|)
    decreases |bits|
  {
    hide P;
    if bits == [] {
      SmallPowers();
    } else {
      SpelledBelow(c, bits[1..]);
      PowerStep(|bits|);
    }
  }

  /** With an empty ISR the word of a byte is the number its bits spell; otherwise what the ISR held stands above it. */
  lemma WordIs(c: Config, isr: nat, bits: seq<Slot>)
    requires isr < 0x1_0000_0000 && |bits| == 8 && AllSeen(bits)
    ensures Collect(c, isr, bits) == (isr * 256 + Spelled(c, bits)) % 0x1_0000_0000
    ensures isr == 0 ==> Collect(c, isr, bits) == Spelled(c, bits)
  {
    hide P, Spelled, Collect;
    CollectIs(c, isr, bits);
    SpelledBelow(c, bits);
    SmallPowers();
    PowerStep(6);
    PowerStep(7);
    PowerStep(8);
  }

  lemma {:induction false} KeepsAt(c: Config, a: seq<Inputs>, s: Receiver, low: bool, k: nat)
    requires Keeps(c, a, s, low) && k < |a|
    ensures Follow(c, a[..k], s).sdaLow == low
    decreases k
  {
    hide Next;
    if k == 0 {
      assert a[..0] == [];
    } else {
      KeepsAt(c, a[1..], Next(c, a[0], s), low, k - 1);
      assert a[..k][1..] == a[1..][..k - 1] && a[..k][0] == a[0];
    }
  }

  /** SDA is the sender's all through the eight slots: the machine never pulls it low there. */
  lemma LetGoForData(c: Config, vs: seq<Inputs>, q: Regs, idle: seq<Inputs>, hold: seq<Inputs>, bits: seq<Slot>,
                     low: seq<Inputs>, k: nat)
    requires Tuned(c) && AtStart(c, q) && Loaded(c, vs, View(q)) && IsStart(c, idle, hold)
    requires |bits| == 8 && AllSeen(bits) && SclLow(low) && |low| >= 2 && |bits[7].high| + |low| >= 6
    requires k < |Views(bits)| && Attempts(c, vs, View(q)) == idle + hold + Views(bits)[..k]
    ensures !Run(c, vs, q).pinsOe[c.setBase]
  {
    hide Follow, AllGiven, Keeps, Goes, Value, AtStart, Loaded, Attempts, Views, IsStart, Run;
    var s := ReceiverOf(c, View(q));
    StartSettled(c, q);
    RunFollows(c, vs, View(q));
    EveryRunRefines(c, vs, q);
    Begins(c, idle, hold, s);
    ByteTaken(c, bits, low, Follow(c, idle + hold, s));
    KeepsAt(c, Views(bits), Follow(c, idle + hold, s), false, k);
    FollowSplit(c, idle + hold, Views(bits)[..k], s);
  }

  /** The byte is acknowledged: SDA is pulled low before SCL rises for the ninth time, and for as long as it is high. */
  lemma PulledForAck(c: Config, vs: seq<Inputs>, q: Regs, idle: seq<Inputs>, hold: seq<Inputs>, bits: seq<Slot>,
                     low: seq<Inputs>, high: seq<Inputs>)
    requires Tuned(c) && AtStart(c, q) && Loaded(c, vs, View(q)) && IsStart(c, idle, hold)
    requires |bits| == 8 && AllSeen(bits) && SclLow(low) && |low| >= 2 && |bits[7].high| + |low| >= 6 && SclHigh(high)
    requires Attempts(c, vs, View(q)) == idle + hold + (Views(bits) + low) + high
    ensures Run(c, vs, q).pinsOe[c.setBase]
  {
    hide Follow, AllGiven, Keeps, Goes, Value, AtStart, Loaded, Attempts, Views, IsStart, Run, SclHigh, SclLow;
    var s := ReceiverOf(c, View(q));
    StartSettled(c, q);
    RunFollows(c, vs, View(q));
    EveryRunRefines(c, vs, q);
    Begins(c, idle, hold, s);
    var s6 := Follow(c, idle + hold, s);
    var s13 := Follow(c, Views(bits) + low, s6);
    ByteTaken(c, bits, low, s6);
    FollowSplit(c, idle + hold, Views(bits) + low, s);
    FollowSplit(c, idle + hold + (Views(bits) + low), high, s);
    StillLow(c, high, s13);
  }

  lemma StillLow(c: Config, high: seq<Inputs>, s: Receiver)
    requires s.at == 13 && s.sdaLow && SclHigh(high)
    ensures Follow(c, high, s).sdaLow
  {
    if high != [] {
      hide Follow, AllGiven, Keeps, Goes;
      HoldsAck(c, high, s);
      Unfolded(c, high, s, s.(at := 14));
    }
  }

  lemma {:induction false} SpelledLast(c: Config, bits: seq<Slot>)
    requires bits != [] && AllSeen(bits)
    ensures var n := |bits| - 1;
            Spelled(c, bits) == 2 * Spelled(c, bits[..n]) + (if BitOf(c, bits[n]) then 1 else 0)
    decreases |bits|
  {
    hide P;
    var n := |bits| - 1;
    if n == 0 {
      SmallPowers();
      assert bits[..0] == [] && bits[1..] == [];
    } else {
      SpelledLast(c, bits[1..]);
      assert bits[..n][1..] == bits[1..][..n - 1] && bits[..n][0] == bits[0] && bits[1..][n - 1] == bits[n];
      PowerStep(n);
    }
  }

  /** The program does not look for a STOP. After a byte, a STOP and the START after it look to it like a slot with a 0:
      the next byte is cut to its first seven bits, and acknowledged in the slot of the eighth. */
  lemma StopIsABit(c: Config, stop: Slot, bits: seq<Slot>, s: Receiver)
    requires s.at == 6 && s.left == 7 && s.isr == 0
    requires Seen(stop) && !BitOf(c, stop) && |bits| == 8 && AllSeen(bits)
    requires |bits[6].high| + |bits[7].low| >= 6 && !(bits[6].high + bits[7].low)[3].rxFull
    ensures var a := Views([stop] + bits[..7]) + bits[7].low;
            AllGiven(c, a, s) == [Spelled(c, bits) / 2] && Follow(c, a, s).sdaLow
  {
    hide Follow, AllGiven, Keeps, Views, Spelled, Collect;
    var seen := [stop] + bits[..7];
    ByteTaken(c, seen, bits[7].low, s);
    WordIs(c, 0, seen);
    ZeroFirst(c, stop, bits[..7]);
    SpelledLast(c, bits);
  }

  lemma ZeroFirst(c: Config, stop: Slot, bits: seq<Slot>)
    requires Seen(stop) && !BitOf(c, stop) && AllSeen(bits)
    ensures Spelled(c, [stop] + bits) == Spelled(c, bits)
  {
    assert ([stop] + bits)[1..] == bits;
  }
}
