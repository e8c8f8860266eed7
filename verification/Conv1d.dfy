/** The 1D convolution engine: its registers, one clock edge, and every run of it against memory.

    `Clock` is the register transfer of one cycle as a function; the class `Engine` (Conv1dEngine.dfy)
    is the same transfer in the RTL's own form and is proved equal to it. */
module Conv1d {
  import opened Words

  const MAX_KERNEL := 16

  type Taps = s: seq<Int8> | |s| == 16 witness seq(16, _ => 0)

  /** The control registers, constant while the engine is busy. */
  datatype Config = Config(src: Word, dst: Word, length: Word, kernelSize: Word, same: bool, stream: bool, weights: Taps)

  datatype Phase = Idle | RdReq | RdWait | WrReq | WrWait | StreamOut

  datatype Regs = Regs(phase: Phase, busy: bool, done: bool, curSrc: Word, curDst: Word, fill: Word,
                       remaining: Word, peResult: Word, shift: Taps)

  // ---------------------------------------------------------------- datapath

  function Shifted(shift: Taps, x: Int8): Taps {
    [x] + shift[..15]
  }

  /** The taps the PE sees: the incoming sample bypasses the register that will hold it. */
  function Bypass(shift: Taps, rdata: Word): Taps {
    Shifted(shift, S8(rdata))
  }

  /** kernel_size_i is the low five bits of KERNEL_SIZE; taps at or above it are masked. */
  function ActiveTaps(kernelSize: Word): nat {
    if kernelSize % 32 < MAX_KERNEL then kernelSize % 32 else MAX_KERNEL
  }

  function Pe(v: Taps, c: Config): int {
    Dot(v, c.weights, ActiveTaps(c.kernelSize))
  }

  /** conv1d_pe: 16-bit products, then a 32-bit sum of the unmasked ones. */
  method PeLoop(regs: Taps, weights: Taps, kernelSize: Word) returns (result: int)
    ensures result == Dot(regs, weights, ActiveTaps(kernelSize))
    ensures -16 * 16384 <= result <= 16 * 16384
  {
    hide S8, Product;
    var products := new int[16];
    for k := 0 to 16
      invariant forall i :: 0 <= i < k ==> products[i] == Product(regs[i], weights[i])
    {
      ProductFits(regs[k], weights[k]);
      products[k] := S16(Product(regs[k], weights[k]));
    }
    var sum := 0;
    for k := 0 to 16
      invariant forall i :: 0 <= i < 16 ==> products[i] == Product(regs[i], weights[i])
      invariant sum == Dot(regs, weights, if k < ActiveTaps(kernelSize) then k else ActiveTaps(kernelSize))
    {
      if k < kernelSize % 32 {
        DotBound(regs, weights, k + 1);
        assert Dot(regs, weights, k + 1) == sum + products[k];
        sum := S32(sum + products[k]);
      }
    }
    DotBound(regs, weights, ActiveTaps(kernelSize));
    result := sum;
  }

  // ---------------------------------------------------------------- one clock edge

  /** Writing CTRL.GO while idle. */
  function Go(c: Config, r: Regs): Regs {
    if c.length != 0 then
      r.(phase := RdReq, busy := true, done := false, curSrc := c.src, curDst := c.dst,
         fill := if c.same then Sub32(c.kernelSize, 1) else 0,
         remaining := if c.same then c.length else Add32(Sub32(c.length, c.kernelSize), 1))
    else
      r.(done := true)
  }

  /** The DMA request the engine drives in its current state. */
  function DmaRequest(r: Regs): Option<Request> {
    match r.phase
    case RdReq => Some(Request(r.curSrc, false, 0))
    case WrReq => Some(Request(r.curDst, true, r.peResult))
    case _ => None
  }

  function Retire(r: Regs): Regs {
    if r.remaining == 1
    then r.(phase := Idle, busy := false, done := true, remaining := Sub32(r.remaining, 1))
    else r.(phase := RdReq, remaining := Sub32(r.remaining, 1))
  }

  function Clock(c: Config, r: Regs, gnt: bool, rvalid: bool, rdata: Word, tready: bool): Regs {
    match r.phase
    case Idle => r
    case RdReq => if gnt then r.(phase := RdWait) else r
    case RdWait =>
      if !rvalid then r else
      r.(phase := if Add32(r.fill, 1) < c.kernelSize then RdReq else if c.stream then StreamOut else WrReq,
         peResult := U32(Pe(Bypass(r.shift, rdata), c)), fill := Add32(r.fill, 1), curSrc := Add32(r.curSrc, 4),
         shift := Shifted(r.shift, S8(rdata)))
    case WrReq => if gnt then r.(phase := WrWait) else r
    case WrWait => if rvalid then Retire(r).(curDst := Add32(r.curDst, 4)) else r
    case StreamOut => if tready then Retire(r) else r
  }

  // ---------------------------------------------------------------- the engine and its memory

  /** The engine, the memory, the last granted request, and the beats accepted downstream. */
  datatype System = System(regs: Regs, mem: Memory, granted: Request, beats: seq<Beat>)

  function Step(c: Config, s: System, i: Cycle): System {
    var req := DmaRequest(s.regs);
    var granted := req.Some? && i.gnt;
    System(
      Clock(c, s.regs, i.gnt, i.rvalid, Load(s.mem, s.granted.addr, i.stray), i.tready),
      if granted && req.value.write then s.mem[req.value.addr := req.value.data] else s.mem,
      if granted then req.value else s.granted,
      if s.regs.phase.StreamOut? && i.tready then s.beats + [Beat(s.regs.peResult, s.regs.remaining == 1)] else s.beats)
  }

  function Run(c: Config, s: System, schedule: seq<Cycle>): System {
    if schedule == [] then s
    else Step(c, Run(c, s, schedule[..|schedule| - 1]), schedule[|schedule| - 1])
  }

  function Start(c: Config, r0: Regs, m0: Memory, q0: Request): System {
    System(Go(c, r0), m0, q0, [])
  }

  // ---------------------------------------------------------------- what a run computes

  /** Samples read before the first output, and the number of outputs. */
  function Lag(c: Config): nat {
    if c.same || c.kernelSize == 0 then 0 else c.kernelSize - 1
  }

  function Total(c: Config): nat {
    if c.length <= Lag(c) then 0 else c.length - Lag(c)
  }

  predicate Legal(c: Config) {
    && 1 <= c.kernelSize <= MAX_KERNEL
    && (c.length > 0 && !c.same ==> c.kernelSize <= c.length)
    && c.src % 4 == 0 && c.src + 4 * c.length <= TWO32
    && (c.stream || (c.dst % 4 == 0 && c.dst + 4 * Total(c) <= TWO32))
  }

  /** Output number o goes to the word that sample q comes from. */
  predicate Lands(c: Config, o: int, q: int) {
    c.dst + 4 * o == c.src + 4 * q
  }

  /** No output that is written before a sample is read lands on it. */
  ghost predicate NoClobber(c: Config) {
    c.stream || forall o, q :: 0 <= o < Total(c) && o + Lag(c) < q < c.length ==> !Lands(c, o, q)
  }

  /** Sample number q: read from memory, or, before the first, what the shift register held at GO. */
  function Sample(c: Config, m0: Memory, shift0: Taps, q: int): Int8
    requires Mapped(m0, c.src, c.length) && -16 <= q < c.length
  {
    if q < 0 then shift0[-1 - q] else S8(m0[c.src + 4 * q])
  }

  function History(c: Config, m0: Memory, shift0: Taps, p: nat): Taps
    requires Mapped(m0, c.src, c.length) && p <= c.length
  {
    seq(16, i requires 0 <= i < 16 => Sample(c, m0, shift0, p - 1 - i))
  }

  function Output(c: Config, m0: Memory, shift0: Taps, o: nat): Word
    requires Legal(c) && Mapped(m0, c.src, c.length) && o < Total(c)
  {
    U32(Pe(History(c, m0, shift0, o + Lag(c) + 1), c))
  }

  function Outputs(c: Config, m0: Memory, shift0: Taps): (ws: seq<Word>)
    requires Legal(c) && Mapped(m0, c.src, c.length)
    ensures |ws| == Total(c)
  {
    seq(Total(c), o requires 0 <= o < Total(c) => Output(c, m0, shift0, o))
  }

  // ---------------------------------------------------------------- what is read when buffers overlap

  /** Outputs written before sample q is read. */
  function DueBefore(c: Config, q: int): nat {
    if q <= Lag(c) then 0 else q - Lag(c)
  }

  /** The word found at sample q when it is read, the outputs being ws. */
  function Found(c: Config, m0: Memory, ws: seq<Word>, q: nat): Word
    requires |ws| == Total(c) && q < c.length
  {
    ReadBack(m0, c.dst, if c.stream then [] else ws[..DueBefore(c, q)], c.src + 4 * q)
  }

  /** mi holds the input as this run reads it: each word original unless an output has landed on it by then. */
  ghost predicate ReadAs(c: Config, m0: Memory, mi: Memory, shift0: Taps)
    requires Legal(c) && Mapped(m0, c.src, c.length)
  {
    && Mapped(mi, c.src, c.length)
    && forall q: nat :: q < c.length ==> Found(c, m0, Outputs(c, mi, shift0), q) == mi[c.src + 4 * q]
  }

  /** Where no output lands on an unread sample, the input is read as it was. */
  lemma ReadAsOriginal(c: Config, m0: Memory, shift0: Taps)
    requires Legal(c) && Mapped(m0, c.src, c.length) && NoClobber(c)
    ensures ReadAs(c, m0, m0, shift0)
  {
    hide Outputs, Store;
    var ws := Outputs(c, m0, shift0);
    forall q: nat | q < c.length
      ensures Found(c, m0, ws, q) == m0[c.src + 4 * q]
    {
      var k := if c.stream then 0 else DueBefore(c, q);
      StoreLookup(m0, c.dst, ws[..k], c.src + 4 * q);
      Landing(c, k, q);
    }
  }

  lemma Landing(c: Config, k: nat, q: nat)
    ensures InBlock(c.src + 4 * q, c.dst, k) ==> exists o :: 0 <= o < k && Lands(c, o, q)
  {
    if InBlock(c.src + 4 * q, c.dst, k) {
      assert Lands(c, (c.src + 4 * q - c.dst) / 4, q);
    }
  }

  // ---------------------------------------------------------------- the invariant of every run

  /** Samples read so far and outputs delivered so far, as the counters record them. */
  function Reads(c: Config, r: Regs): int {
    if c.same then r.fill - (c.kernelSize - 1) else r.fill
  }

  function Delivered(c: Config, r: Regs): int {
    Total(c) - r.remaining
  }

  /** The counters agree with each other, with the phase, and with BUSY and DONE. */
  predicate Control(c: Config, r: Regs)
    requires Legal(c)
  {
    var p, k := Reads(c, r), Delivered(c, r);
    && 0 <= p <= c.length && 0 <= k <= Total(c)
    && r.curSrc == Pointer(c.src, p)
    && (!c.stream ==> r.curDst == Pointer(c.dst, k))
    && r.busy == !r.phase.Idle? && r.done == r.phase.Idle?
    && (r.phase.Idle? ==> k == Total(c) && p == c.length)
    && (r.phase.RdReq? || r.phase.RdWait? ==> p < c.length && k == if p <= Lag(c) then 0 else p - Lag(c))
    && (r.phase.WrReq? || r.phase.WrWait? || r.phase.StreamOut? ==>
          k < Total(c) && p == k + Lag(c) + 1 && c.stream == r.phase.StreamOut?)
  }

  /** Words in memory: one more than delivered while the response to a write is awaited. */
  function Written(c: Config, r: Regs): int {
    Delivered(c, r) + if r.phase.WrWait? then 1 else 0
  }

  /** Everything outside the counters: mi is the input as read, ws the output words of this run. */
  predicate Data(c: Config, m0: Memory, mi: Memory, shift0: Taps, ws: seq<Word>, s: System)
    requires Legal(c) && Mapped(mi, c.src, c.length) && Control(c, s.regs) && |ws| == Total(c)
  {
    var r, k := s.regs, Delivered(c, s.regs);
    && r.shift == History(c, mi, shift0, Reads(c, r))
    && s.mem == (if c.stream then m0 else Store(m0, c.dst, ws[..Written(c, r)]))
    && s.beats == (if c.stream then Beats(ws, k) else [])
    && (r.phase.RdWait? ==> s.granted == Request(r.curSrc, false, 0))
    && (r.phase.WrReq? || r.phase.WrWait? || r.phase.StreamOut? ==> r.peResult == ws[k])
  }

  predicate Invariant(c: Config, m0: Memory, mi: Memory, shift0: Taps, s: System)
    requires Legal(c) && Mapped(mi, c.src, c.length)
  {
    Control(c, s.regs) && Data(c, m0, mi, shift0, Outputs(c, mi, shift0), s)
  }

  /** Cycles still needed if the environment never makes the engine wait. */
  function Todo(c: Config, r: Regs): int {
    if r.phase.Idle? then 0
    else 2 * (c.length - Reads(c, r)) + (if c.stream then 1 else 2) * r.remaining
         - if r.phase.RdWait? || r.phase.WrWait? then 1 else 0
  }

  /** The environment does what the engine is waiting for. */
  predicate Serves(r: Regs, i: Cycle) {
    match r.phase
    case Idle => false
    case RdReq => i.gnt
    case RdWait => i.rvalid
    case WrReq => i.gnt
    case WrWait => i.rvalid
    case StreamOut => i.tready
  }

  lemma ControlStep(c: Config, r: Regs, i: Cycle, rdata: Word)
    requires Legal(c) && Control(c, r)
    ensures var r' := Clock(c, r, i.gnt, i.rvalid, rdata, i.tready);
      Control(c, r') && Todo(c, r') == Todo(c, r) - if Serves(r, i) then 1 else 0
  {
    if r.phase.RdWait? && i.rvalid {
      ControlRead(c, r, i, rdata);
      hide *;
    } else {
      hide Pe, Shifted, Bypass;
    }
  }

  lemma ControlRead(c: Config, r: Regs, i: Cycle, rdata: Word)
    requires Legal(c) && Control(c, r) && r.phase.RdWait? && i.rvalid
    ensures var r' := Clock(c, r, i.gnt, i.rvalid, rdata, i.tready);
      Control(c, r') && Todo(c, r') == Todo(c, r) - 1
  {
    hide Pe, Shifted, Bypass, U32;
  }

  lemma StartEstablishes(c: Config, r0: Regs, m0: Memory, mi: Memory, q0: Request)
    requires Legal(c) && c.length > 0 && Mapped(mi, c.src, c.length)
    ensures Invariant(c, m0, mi, r0.shift, Start(c, r0, m0, q0))
  {
    hide Output;
    assert Go(c, r0).shift == History(c, mi, r0.shift, 0);
    NothingDelivered(m0, c.dst, Outputs(c, mi, r0.shift));
  }

  /** The response to a read is the input word as this run reads it. */
  lemma ReadFinds(c: Config, m0: Memory, mi: Memory, shift0: Taps, ws: seq<Word>, s: System, stray: Word)
    requires Legal(c) && Mapped(m0, c.src, c.length) && ReadAs(c, m0, mi, shift0) && ws == Outputs(c, mi, shift0)
    requires Control(c, s.regs) && Data(c, m0, mi, shift0, ws, s) && s.regs.phase.RdWait?
    ensures S8(Load(s.mem, s.granted.addr, stray)) == Sample(c, mi, shift0, Reads(c, s.regs))
  {
    hide Store, History, S8, Beats, Outputs;
    var q := Reads(c, s.regs);
    var k := if c.stream then 0 else DueBefore(c, q);
    assert c.src + 4 * q in m0;
    assert Found(c, m0, ws, q) == mi[c.src + 4 * q];
    NothingDelivered(m0, c.dst, ws);
    StoreLookup(m0, c.dst, ws[..k], c.src + 4 * q);
  }

  lemma ShiftedHistory(c: Config, m0: Memory, shift0: Taps, p: nat)
    requires Mapped(m0, c.src, c.length) && p < c.length
    ensures Shifted(History(c, m0, shift0, p), Sample(c, m0, shift0, p)) == History(c, m0, shift0, p + 1)
  {
    hide Sample;
  }

  lemma OutputAt(c: Config, m0: Memory, shift0: Taps, o: nat)
    requires Legal(c) && Mapped(m0, c.src, c.length) && o < Total(c)
    ensures Outputs(c, m0, shift0)[o] == U32(Pe(History(c, m0, shift0, o + Lag(c) + 1), c))
  {
    hide Pe, History, U32;
  }

  /** A read response shifts the sample in and, through the bypass, captures exactly the output that is now due. */
  lemma ReadKeeps(c: Config, m0: Memory, mi: Memory, shift0: Taps, ws: seq<Word>, s: System, i: Cycle)
    requires Legal(c) && Mapped(m0, c.src, c.length) && ReadAs(c, m0, mi, shift0)
    requires Control(c, s.regs) && ws == Outputs(c, mi, shift0) && Data(c, m0, mi, shift0, ws, s)
    requires s.regs.phase.RdWait? && i.rvalid && Control(c, Step(c, s, i).regs)
    ensures Data(c, m0, mi, shift0, ws, Step(c, s, i))
  {
    hide Store, History, S8, Beats, Sample, Load, Pe, Shifted, Outputs, U32, Found, Mapped;
    var p := Reads(c, s.regs);
    ReadFinds(c, m0, mi, shift0, ws, s, i.stray);
    ShiftedHistory(c, mi, shift0, p);
    if Lag(c) <= p {
      OutputAt(c, mi, shift0, p - Lag(c));
    }
  }

  lemma WriteKeeps(c: Config, m0: Memory, mi: Memory, shift0: Taps, ws: seq<Word>, s: System, i: Cycle)
    requires Legal(c) && Mapped(mi, c.src, c.length)
    requires Control(c, s.regs) && |ws| == Total(c) && Data(c, m0, mi, shift0, ws, s)
    requires s.regs.phase.WrReq? && i.gnt && Control(c, Step(c, s, i).regs)
    ensures Data(c, m0, mi, shift0, ws, Step(c, s, i))
  {
    hide Store, History, Beats, Load, Pe, Shifted, Mapped;
    StoreSnoc(m0, c.dst, ws, Delivered(c, s.regs));
  }

  lemma HandshakeKeeps(c: Config, m0: Memory, mi: Memory, shift0: Taps, ws: seq<Word>, s: System, i: Cycle)
    requires Legal(c) && Mapped(mi, c.src, c.length)
    requires Control(c, s.regs) && |ws| == Total(c) && Data(c, m0, mi, shift0, ws, s)
    requires (s.regs.phase.RdReq? && i.gnt) || (s.regs.phase.WrWait? && i.rvalid)
    requires Control(c, Step(c, s, i).regs)
    ensures Data(c, m0, mi, shift0, ws, Step(c, s, i))
  {
    hide Store, History, Beats, Load, Pe, Shifted, Mapped;
  }

  lemma StreamKeeps(c: Config, m0: Memory, mi: Memory, shift0: Taps, ws: seq<Word>, s: System, i: Cycle)
    requires Legal(c) && Mapped(mi, c.src, c.length)
    requires Control(c, s.regs) && |ws| == Total(c) && Data(c, m0, mi, shift0, ws, s)
    requires s.regs.phase.StreamOut? && i.tready && Control(c, Step(c, s, i).regs)
    ensures Data(c, m0, mi, shift0, ws, Step(c, s, i))
  {
    hide Store, History, Beats, Load, Pe, Shifted, Mapped;
    BeatsSnoc(ws, Delivered(c, s.regs));
  }

  lemma StutterKeeps(c: Config, s: System, i: Cycle)
    requires !Serves(s.regs, i)
    ensures Step(c, s, i) == s
  {
  }

  /** One clock edge, whatever the environment does: the invariant is kept, and the engine
      comes closer to the end exactly when it is served. */
  lemma StepKeeps(c: Config, m0: Memory, mi: Memory, shift0: Taps, s: System, i: Cycle)
    requires Legal(c) && Mapped(m0, c.src, c.length) && ReadAs(c, m0, mi, shift0) && Invariant(c, m0, mi, shift0, s)
    ensures Invariant(c, m0, mi, shift0, Step(c, s, i))
    ensures Todo(c, Step(c, s, i).regs) == Todo(c, s.regs) - if Serves(s.regs, i) then 1 else 0
  {
    hide Data, Control, Clock, Outputs, Found;
    var ws := Outputs(c, mi, shift0);
    ControlStep(c, s.regs, i, Load(s.mem, s.granted.addr, i.stray));
    if !Serves(s.regs, i) {
      StutterKeeps(c, s, i);
    } else if s.regs.phase.RdWait? {
      ReadKeeps(c, m0, mi, shift0, ws, s, i);
    } else if s.regs.phase.StreamOut? {
      StreamKeeps(c, m0, mi, shift0, ws, s, i);
    } else if s.regs.phase.WrReq? {
      WriteKeeps(c, m0, mi, shift0, ws, s, i);
    } else {
      HandshakeKeeps(c, m0, mi, shift0, ws, s, i);
    }
  }

  /** Every state of every run satisfies the invariant, and a run served in n cycles is n cycles closer to its end. */
  lemma {:induction false} RunKeeps(c: Config, m0: Memory, mi: Memory, shift0: Taps, s: System, schedule: seq<Cycle>)
    requires Legal(c) && Mapped(m0, c.src, c.length) && ReadAs(c, m0, mi, shift0) && Invariant(c, m0, mi, shift0, s)
    ensures Invariant(c, m0, mi, shift0, Run(c, s, schedule))
    ensures 0 <= Todo(c, Run(c, s, schedule).regs)
    ensures !Run(c, s, schedule).regs.done ==>
      Todo(c, Run(c, s, schedule).regs) <= Todo(c, s.regs) - ReadyCycles(schedule)
  {
    hide Data, Clock, Outputs, Found;
    if schedule != [] {
      var n := |schedule| - 1;
      RunKeeps(c, m0, mi, shift0, s, schedule[..n]);
      StepKeeps(c, m0, mi, shift0, Run(c, s, schedule[..n]), schedule[n]);
    }
  }

  // ---------------------------------------------------------------- every run computes the outputs

  /** Whatever the buffers' overlap: when DONE is up the outputs of the input as read are exactly in place, and the
      register holds its newest samples; DONE is up as soon as the environment has served enough cycles, and BUSY is
      its opposite. */
  lemma EveryRunComputes(c: Config, r0: Regs, m0: Memory, mi: Memory, q0: Request, schedule: seq<Cycle>)
    requires Legal(c) && Mapped(m0, c.src, c.length) && ReadAs(c, m0, mi, r0.shift) && r0.phase.Idle? && !r0.busy
    ensures var s := Run(c, Start(c, r0, m0, q0), schedule);
      && s.regs.busy == !s.regs.done
      && (s.regs.done ==>
            && Finished(c.stream, c.dst, m0, Outputs(c, mi, r0.shift), s.mem, s.beats)
            && s.regs.phase.Idle? && s.regs.shift == History(c, mi, r0.shift, c.length))
      && (2 * c.length + 2 * Total(c) <= ReadyCycles(schedule) ==> s.regs.done)
  {
    hide Outputs, Store, Clock, History, Finished, Beats, Found;
    var s0 := Start(c, r0, m0, q0);
    if c.length > 0 {
      StartEstablishes(c, r0, m0, mi, q0);
      RunKeeps(c, m0, mi, r0.shift, s0, schedule);
      var s, ws := Run(c, s0, schedule), Outputs(c, mi, r0.shift);
      if s.regs.done {
        assert ws[..|ws|] == ws;
        AllDelivered(c.stream, c.dst, m0, ws, s.mem, s.beats);
      }
    } else {
      NothingToDo(c, s0, schedule);
      NothingDelivered(m0, c.dst, []);
      AllDelivered(c.stream, c.dst, m0, [], m0, []);
      assert Outputs(c, mi, r0.shift) == [];
      NothingShifted(c, mi, r0.shift);
    }
  }

  lemma NothingShifted(c: Config, mi: Memory, shift0: Taps)
    requires Mapped(mi, c.src, c.length)
    ensures History(c, mi, shift0, 0) == shift0
  {
    var h := History(c, mi, shift0, 0);
    forall i | 0 <= i < 16
      ensures h[i] == shift0[i]
    {
      assert h[i] == Sample(c, mi, shift0, -1 - i);
    }
  }

  /** For every kernel, input, handshake and starting register content: when DONE is up the outputs are
      exactly in place; DONE is up as soon as the environment has served enough cycles, and BUSY is its opposite. */
  lemma EveryRunConvolves(c: Config, r0: Regs, m0: Memory, q0: Request, schedule: seq<Cycle>)
    requires Legal(c) && Mapped(m0, c.src, c.length) && NoClobber(c) && r0.phase.Idle? && !r0.busy
    ensures var s := Run(c, Start(c, r0, m0, q0), schedule);
      && s.regs.busy == !s.regs.done
      && (s.regs.done ==>
            && Finished(c.stream, c.dst, m0, Outputs(c, m0, r0.shift), s.mem, s.beats)
            && s.regs.phase.Idle? && s.regs.shift == History(c, m0, r0.shift, c.length))
      && (2 * c.length + 2 * Total(c) <= ReadyCycles(schedule) ==> s.regs.done)
  {
    hide Outputs, Run, Finished, History, ReadAs, NoClobber;
    ReadAsOriginal(c, m0, r0.shift);
    EveryRunComputes(c, r0, m0, m0, q0, schedule);
  }

  lemma StreamOutputs(c: Config, b: bool, m0: Memory, shift0: Taps)
    requires Legal(c) && Legal(c.(stream := b)) && Mapped(m0, c.src, c.length)
    ensures Outputs(c.(stream := b), m0, shift0) == Outputs(c, m0, shift0)
  {
    hide S8, U32, Mapped;
    forall o: nat | o < Total(c)
      ensures Output(c.(stream := b), m0, shift0, o) == Output(c, m0, shift0, o)
    {
      StreamHistory(c, b, m0, shift0, o + Lag(c) + 1);
    }
  }

  lemma StreamHistory(c: Config, b: bool, m0: Memory, shift0: Taps, p: nat)
    requires Mapped(m0, c.src, c.length) && p <= c.length
    ensures History(c.(stream := b), m0, shift0, p) == History(c, m0, shift0, p)
  {
    hide S8;
    var h, h' := History(c.(stream := b), m0, shift0, p), History(c, m0, shift0, p);
    forall i | 0 <= i < 16
      ensures h[i] == h'[i]
    {
      assert h'[i] == Sample(c, m0, shift0, p - 1 - i);
      assert h[i] == Sample(c.(stream := b), m0, shift0, p - 1 - i);
    }
  }

  /** A finished stream run has sent, beat by beat, the words a finished memory run stores, and marked the last. */
  lemma StreamIsDma(c: Config, r0: Regs, m0: Memory, q0: Request, schedule: seq<Cycle>, schedule': seq<Cycle>)
    requires !c.stream && Legal(c) && Legal(c.(stream := true)) && r0.phase.Idle? && !r0.busy
    requires Mapped(m0, c.src, c.length) && NoClobber(c)
    ensures var dma := Run(c, Start(c, r0, m0, q0), schedule);
            var d := c.(stream := true);
            var streamed := Run(d, Start(d, r0, m0, q0), schedule');
            dma.regs.done && streamed.regs.done ==>
              && streamed.mem == m0 && |streamed.beats| == Total(c)
              && forall o :: 0 <= o < Total(c) ==>
                   c.dst + 4 * o in dma.mem && streamed.beats[o] == Beat(dma.mem[c.dst + 4 * o], o == Total(c) - 1)
  {
    hide Run, Start, Legal, Outputs, Mapped;
    var d := c.(stream := true);
    StreamOutputs(c, true, m0, r0.shift);
    EveryRunConvolves(c, r0, m0, q0, schedule);
    EveryRunConvolves(d, r0, m0, q0, schedule');
  }

  lemma {:induction false} NothingToDo(c: Config, s: System, schedule: seq<Cycle>)
    requires s.regs.phase.Idle?
    ensures Run(c, s, schedule) == s
  {
    if schedule != [] {
      NothingToDo(c, s, schedule[..|schedule| - 1]);
    }
  }

  // ---------------------------------------------------------------- the outputs are the convolution

  /** The reference sums: taps 0 .. k-1 of output n. */
  function RefValid(x: seq<Word>, w: Taps, kernelSize: nat, n: nat, k: nat): int
    requires k <= kernelSize <= 16 && n + kernelSize <= |x|
  {
    if k == 0 then 0
    else RefValid(x, w, kernelSize, n, k - 1) + Product(S8(x[n + (kernelSize - k)]), w[k - 1])
  }

  function RefSame(x: seq<Word>, w: Taps, n: nat, k: nat): int
    requires k <= 16 && n < |x|
  {
    if k == 0 then 0
    else RefSame(x, w, n, k - 1) + Product(if n - (k - 1) >= 0 then S8(x[n - (k - 1)]) else 0, w[k - 1])
  }

  method RefConvValid(x: seq<Word>, w: Taps, kernelSize: nat, out: array<int>)
    requires 1 <= kernelSize <= 16 && kernelSize <= |x| && out.Length == |x| - kernelSize + 1
    modifies out
    ensures forall n :: 0 <= n < out.Length ==> out[n] == RefValid(x, w, kernelSize, n, kernelSize)
  {
    for n := 0 to out.Length
      invariant forall i :: 0 <= i < n ==> out[i] == RefValid(x, w, kernelSize, i, kernelSize)
    {
      var acc := 0;
      for k := 0 to kernelSize
        invariant acc == RefValid(x, w, kernelSize, n, k)
      {
        acc := acc + Product(S8(x[n + (kernelSize - 1 - k)]), w[k]);
      }
      out[n] := acc;
    }
  }

  method RefConvSame(x: seq<Word>, w: Taps, kernelSize: nat, out: array<int>)
    requires 1 <= kernelSize <= 16 && out.Length == |x|
    modifies out
    ensures forall n :: 0 <= n < out.Length ==> out[n] == RefSame(x, w, n, kernelSize)
  {
    for n := 0 to out.Length
      invariant forall i :: 0 <= i < n ==> out[i] == RefSame(x, w, i, kernelSize)
    {
      var acc := 0;
      for k := 0 to kernelSize
        invariant acc == RefSame(x, w, n, k)
      {
        var xi := n - k;
        var xv := if xi >= 0 then S8(x[xi]) else 0;
        acc := acc + Product(xv, w[k]);
      }
      out[n] := acc;
    }
  }

  function Input(c: Config, m0: Memory): seq<Word>
    requires Mapped(m0, c.src, c.length)
  {
    seq(c.length, i requires 0 <= i < c.length => m0[c.src + 4 * i])
  }

  lemma InputLength(c: Config, m0: Memory)
    requires Mapped(m0, c.src, c.length)
    ensures |Input(c, m0)| == c.length
  {
  }

  lemma TapIs(c: Config, m0: Memory, shift0: Taps, p: nat, i: nat)
    requires Mapped(m0, c.src, c.length) && p <= c.length && i < 16
    ensures History(c, m0, shift0, p)[i] ==
      if p - 1 - i < 0 then shift0[i - p] else S8(Input(c, m0)[p - 1 - i])
  {
    var q := p - 1 - i;
    assert History(c, m0, shift0, p)[i] == Sample(c, m0, shift0, q);
    if q >= 0 {
      assert Input(c, m0)[q] == m0[c.src + 4 * q];
    }
  }

  lemma {:induction false} DotIsRefValid(c: Config, m0: Memory, shift0: Taps, n: nat, k: nat)
    requires Legal(c) && Mapped(m0, c.src, c.length) && k <= c.kernelSize && n + c.kernelSize <= c.length
    ensures Dot(History(c, m0, shift0, n + c.kernelSize), c.weights, k)
         == RefValid(Input(c, m0), c.weights, c.kernelSize, n, k)
  {
    hide S8, History, Input, Product;
    if k > 0 {
      DotIsRefValid(c, m0, shift0, n, k - 1);
      TapIs(c, m0, shift0, n + c.kernelSize, k - 1);
    }
  }

  lemma {:induction false} DotIsRefSame(v: Taps, x: seq<Word>, w: Taps, n: nat, k: nat)
    requires k <= 16 && n < |x|
    requires forall i :: 0 <= i < k ==> v[i] == if n - i >= 0 then S8(x[n - i]) else 0
    ensures Dot(v, w, k) == RefSame(x, w, n, k)
  {
    hide S8;
    if k > 0 {
      DotIsRefSame(v, x, w, n, k - 1);
    }
  }

  /** Valid mode is the plain convolution, whatever the shift register held before. */
  lemma ValidModeConvolves(c: Config, m0: Memory, shift0: Taps, n: nat)
    requires Legal(c) && !c.same && Mapped(m0, c.src, c.length) && n < Total(c)
    ensures Output(c, m0, shift0, n) == U32(RefValid(Input(c, m0), c.weights, c.kernelSize, n, c.kernelSize))
  {
    hide RefValid, Dot, History, Input;
    DotIsRefValid(c, m0, shift0, n, c.kernelSize);
  }

  predicate Cleared(shift: Taps, stages: nat)
    requires stages <= 16
  {
    forall i :: 0 <= i < stages ==> shift[i] == 0
  }

  /** Same mode is the causal convolution, zeros to the left, when the stages the kernel reaches are clear. */
  lemma SameModeConvolves(c: Config, m0: Memory, shift0: Taps, n: nat)
    requires Legal(c) && c.same && Mapped(m0, c.src, c.length) && n < Total(c)
    requires Cleared(shift0, c.kernelSize - 1)
    ensures Output(c, m0, shift0, n) == U32(RefSame(Input(c, m0), c.weights, n, c.kernelSize))
  {
    hide S8, Dot, RefSame, History, Input;
    InputLength(c, m0);
    var v := History(c, m0, shift0, n + 1);
    forall i | 0 <= i < c.kernelSize ensures v[i] == if n - i >= 0 then S8(Input(c, m0)[n - i]) else 0 {
      TapIs(c, m0, shift0, n + 1, i);
    }
    DotIsRefSame(v, Input(c, m0), c.weights, n, c.kernelSize);
  }

  /** GO does not clear the shift register, so same mode meets the reference for every kernel
      exactly when the first K-1 stages are zero. */
  lemma SameModeExactly(c: Config, m0: Memory, shift0: Taps)
    requires Legal(c) && c.same && c.length > 0 && Mapped(m0, c.src, c.length)
    ensures Cleared(shift0, c.kernelSize - 1) <==>
      forall w: Taps, n: nat | n < Total(c) ::
        Output(c.(weights := w), m0, shift0, n) == U32(RefSame(Input(c, m0), w, n, c.kernelSize))
  {
    hide Output, RefSame;
    if Cleared(shift0, c.kernelSize - 1) {
      forall w: Taps, n: nat | n < Total(c)
        ensures Output(c.(weights := w), m0, shift0, n) == U32(RefSame(Input(c, m0), w, n, c.kernelSize))
      {
        SameModeConvolves(c.(weights := w), m0, shift0, n);
      }
    } else {
      var i :| 0 <= i < c.kernelSize - 1 && shift0[i] != 0;
      StaleStageShows(c, m0, shift0, i);
    }
  }

  lemma StaleStageShows(c: Config, m0: Memory, shift0: Taps, i: nat)
    requires Legal(c) && c.same && c.length > 0 && Mapped(m0, c.src, c.length)
    requires i < c.kernelSize - 1 && shift0[i] != 0
    ensures Output(c.(weights := Unit(16, i + 1)), m0, shift0, 0)
         != U32(RefSame(Input(c, m0), Unit(16, i + 1), 0, c.kernelSize))
  {
    hide Dot, RefSame, Input, Unit, S8, History, U32;
    InputLength(c, m0);
    var u: Taps := Unit(16, i + 1);
    var c' := c.(weights := u);
    var v := History(c', m0, shift0, 1);
    TapIs(c', m0, shift0, 1, i + 1);
    DotUnit(v, 16, i + 1, c.kernelSize);
    var z: Taps := seq(16, j => if j == 0 then S8(Input(c, m0)[0]) else 0);
    DotIsRefSame(z, Input(c, m0), u, 0, c.kernelSize);
    DotUnit(z, 16, i + 1, c.kernelSize);
    U32Injective(Dot(v, u, c.kernelSize), Dot(z, u, c.kernelSize));
  }

  /** A same-mode run that starts from the registers another run, begun with a clear register, has left computes the
      convolution of the two inputs joined, whatever was loaded and configured in between. */
  lemma RunsContinue(c1: Config, r0: Regs, m1: Memory, q1: Request, schedule1: seq<Cycle>,
                     c2: Config, m2: Memory, q2: Request, schedule2: seq<Cycle>)
    requires Legal(c1) && Mapped(m1, c1.src, c1.length) && NoClobber(c1)
    requires r0.phase.Idle? && !r0.busy && Cleared(r0.shift, 16)
    requires Legal(c2) && c2.same && Mapped(m2, c2.src, c2.length) && NoClobber(c2)
    ensures var s1 := Run(c1, Start(c1, r0, m1, q1), schedule1);
            var s2 := Run(c2, Start(c2, s1.regs, m2, q2), schedule2);
            s1.regs.done && s2.regs.done ==>
              exists ws: seq<Word> ::
                && Finished(c2.stream, c2.dst, m2, ws, s2.mem, s2.beats) && |ws| == c2.length
                && forall n: nat :: n < |ws| ==>
                     ws[n] == U32(RefSame(Input(c1, m1) + Input(c2, m2), c2.weights, c1.length + n, c2.kernelSize))
  {
    hide Run, Start, Finished, NoClobber, Input, RefSame, History, Output;
    EveryRunConvolves(c1, r0, m1, q1, schedule1);
    var s1 := Run(c1, Start(c1, r0, m1, q1), schedule1);
    var s2 := Run(c2, Start(c2, s1.regs, m2, q2), schedule2);
    InputLength(c1, m1);
    InputLength(c2, m2);
    if s1.regs.done && s2.regs.done {
      EveryRunConvolves(c2, s1.regs, m2, q2, schedule2);
      var ws := Outputs(c2, m2, s1.regs.shift);
      forall n: nat | n < |ws|
        ensures ws[n] == U32(RefSame(Input(c1, m1) + Input(c2, m2), c2.weights, c1.length + n, c2.kernelSize))
      {
        Continued(c1, m1, r0.shift, c2, m2, n);
      }
    }
  }

  lemma Continued(c1: Config, m1: Memory, shift0: Taps, c2: Config, m2: Memory, n: nat)
    requires Legal(c1) && Mapped(m1, c1.src, c1.length) && Cleared(shift0, 16)
    requires Legal(c2) && c2.same && Mapped(m2, c2.src, c2.length) && n < Total(c2)
    ensures Output(c2, m2, History(c1, m1, shift0, c1.length), n)
         == U32(RefSame(Input(c1, m1) + Input(c2, m2), c2.weights, c1.length + n, c2.kernelSize))
  {
    hide S8, Dot, RefSame, History, Input;
    var v := History(c2, m2, History(c1, m1, shift0, c1.length), n + 1);
    var x1, x2, t := Input(c1, m1), Input(c2, m2), c1.length + n;
    InputLength(c1, m1);
    InputLength(c2, m2);
    forall i | 0 <= i < 16 ensures v[i] == if t - i >= 0 then S8((x1 + x2)[t - i]) else 0 {
      TapIs(c2, m2, History(c1, m1, shift0, c1.length), n + 1, i);
      if i > n {
        TapIs(c1, m1, shift0, c1.length, i - n - 1);
      }
    }
    DotIsRefSame(v, x1 + x2, c2.weights, t, c2.kernelSize);
  }

  // ---------------------------------------------------------------- overlapping buffers

  /** The outputs with the input z loaded at the source. */
  function OutputsOf(c: Config, m0: Memory, shift0: Taps, z: seq<Word>): seq<Word>
    requires Legal(c)
  {
    if |z| == c.length then
      StoreHolds(m0, c.src, z);
      Outputs(c, Store(m0, c.src, z), shift0)
    else []
  }

  /** An output depends on the samples up to the newest it is computed from. */
  lemma OutputCausal(c: Config, m0: Memory, shift0: Taps, z: seq<Word>, z': seq<Word>, q: nat, o: nat)
    requires Legal(c) && |z| == c.length && |z'| == c.length && q < c.length && z[..q] == z'[..q]
    requires o < DueBefore(c, q)
    ensures o < Total(c) && OutputsOf(c, m0, shift0, z)[o] == OutputsOf(c, m0, shift0, z')[o]
  {
    hide Store, Pe, U32, S8, Mapped;
    StoreHolds(m0, c.src, z);
    StoreHolds(m0, c.src, z');
    var m, m' := Store(m0, c.src, z), Store(m0, c.src, z');
    var p := o + Lag(c) + 1;
    var h, h' := History(c, m, shift0, p), History(c, m', shift0, p);
    forall i | 0 <= i < 16
      ensures h[i] == h'[i]
    {
      assert h[i] == Sample(c, m, shift0, p - 1 - i) && h'[i] == Sample(c, m', shift0, p - 1 - i);
      if p - 1 - i >= 0 {
        assert z[..q][p - 1 - i] == z'[..q][p - 1 - i];
      }
    }
    assert h == h';
  }

  lemma PrefixCausal(c: Config, m0: Memory, shift0: Taps, z: seq<Word>, z': seq<Word>, q: nat)
    requires Legal(c) && |z| == c.length && |z'| == c.length && q < c.length && z[..q] == z'[..q]
    ensures var y, y' := OutputsOf(c, m0, shift0, z), OutputsOf(c, m0, shift0, z');
            && |y| == |y'| == Total(c) && DueBefore(c, q) <= Total(c)
            && y[..DueBefore(c, q)] == y'[..DueBefore(c, q)]
  {
    hide Store, Output;
    var y, y' := OutputsOf(c, m0, shift0, z), OutputsOf(c, m0, shift0, z');
    forall o: nat | o < DueBefore(c, q)
      ensures y[o] == y'[o]
    {
      OutputCausal(c, m0, shift0, z, z', q, o);
    }
  }

  lemma OutputsCausal(c: Config, m0: Memory, shift0: Taps, outputs: seq<Word> -> seq<Word>, due: nat -> nat)
    requires Legal(c)
    requires forall z :: outputs(z) == OutputsOf(c, m0, shift0, z)
    requires forall q: nat :: due(q) == DueBefore(c, q)
    ensures Causal(outputs, due, c.length)
  {
    hide OutputsOf, DueBefore;
    forall z, z', q: nat | |z| == c.length && |z'| == c.length && q < c.length && z[..q] == z'[..q]
      ensures due(q) <= |outputs(z)| && due(q) <= |outputs(z')| && outputs(z)[..due(q)] == outputs(z')[..due(q)]
    {
      PrefixCausal(c, m0, shift0, z, z', q);
    }
  }

  /** For every overlap of the buffers there is an input that the run reads, so EveryRunComputes covers it. */
  lemma AsRead(c: Config, m0: Memory, shift0: Taps) returns (mi: Memory)
    requires Legal(c) && Mapped(m0, c.src, c.length)
    ensures ReadAs(c, m0, mi, shift0)
  {
    hide Outputs, Store, DueBefore, Causal, ReadBack, Mapped;
    if c.stream {
      mi := m0;
      ReadAsOriginal(c, m0, shift0);
    } else {
      var outputs := z => OutputsOf(c, m0, shift0, z);
      var due := (q: nat) => DueBefore(c, q);
      OutputsCausal(c, m0, shift0, outputs, due);
      var z := ReadsExist(m0, c.src, c.dst, outputs, due, c.length, c.length);
      StoreHolds(m0, c.src, z);
      mi := Store(m0, c.src, z);
    }
  }

  /** Every run that ends leaves the outputs of the original input: the engine is right with these buffers. */
  ghost predicate AlwaysRight(c: Config)
    requires Legal(c)
  {
    forall w: Taps, r0: Regs, m0: Memory, q0: Request, schedule: seq<Cycle> ::
      Mapped(m0, c.src, c.length) && r0.phase.Idle? && !r0.busy ==> RunRight(c.(weights := w), r0, m0, q0, schedule)
  }

  ghost predicate RunRight(c: Config, r0: Regs, m0: Memory, q0: Request, schedule: seq<Cycle>)
    requires Legal(c) && Mapped(m0, c.src, c.length)
  {
    var s := Run(c, Start(c, r0, m0, q0), schedule);
    s.regs.done ==> Finished(c.stream, c.dst, m0, Outputs(c, m0, r0.shift), s.mem, s.beats)
  }

  /** With the kernel that is 1 at tap 0 an output is the newest sample it is computed from. */
  lemma NewestSample(c: Config, m: Memory, shift0: Taps, o: nat)
    requires Legal(c) && Mapped(m, c.src, c.length) && o < Total(c) && c.weights == Unit(16, 0)
    ensures Outputs(c, m, shift0)[o] == U32(S8(m[c.src + 4 * (o + Lag(c))]))
  {
    hide S8, U32;
    var h := History(c, m, shift0, o + Lag(c) + 1);
    DotUnit(h, 16, 0, ActiveTaps(c.kernelSize));
    assert h[0] == Sample(c, m, shift0, o + Lag(c));
    assert Outputs(c, m, shift0)[o] == Output(c, m, shift0, o);
  }

  /** Only sample number Lag is 1: output 0, which is that sample, lands on sample q and is read back there. */
  lemma ReadsOutput(c: Config, m0: Memory, mi: Memory, shift0: Taps, q: nat)
    requires Legal(c) && !c.stream && Mapped(m0, c.src, c.length) && ReadAs(c, m0, mi, shift0)
    requires c.weights == Unit(16, 0) && Lag(c) < q < c.length && c.dst == c.src + 4 * q
    requires m0[c.src + 4 * Lag(c)] == 1
    ensures Outputs(c, mi, shift0)[q - Lag(c)] == 1
  {
    hide Outputs, Store, S8, U32;
    var ws := Outputs(c, mi, shift0);
    One();
    NewestSample(c, mi, shift0, 0);
    NewestSample(c, mi, shift0, q - Lag(c));
    assert Found(c, m0, ws, Lag(c)) == mi[c.src + 4 * Lag(c)];
    NothingDelivered(m0, c.dst, ws);
    assert Found(c, m0, ws, q) == mi[c.src + 4 * q];
    StoreLookup(m0, c.dst, ws[..q - Lag(c)], c.dst);
    assert InBlock(c.dst, c.dst, q - Lag(c));
  }

  /** A memory in which sample p of the input is 1 and the others are 0. */
  lemma Indicator(c: Config, p: nat) returns (m0: Memory)
    requires p < c.length
    ensures Mapped(m0, c.src, c.length)
    ensures forall q: nat :: q < c.length ==> m0[c.src + 4 * q] == if q == p then 1 else 0
  {
    var x: seq<Word> := seq(c.length, i => if i == p then 1 else 0);
    m0 := Store(map[], c.src, x);
    StoreHolds(map[], c.src, x);
    forall q: nat | q < c.length
      ensures m0[c.src + 4 * q] == if q == p then 1 else 0
    {
      assert m0[c.src + 4 * q] == x[q];
    }
  }

  /** A run ends with the outputs of the input as read: if those are not the outputs of the original, it ends wrong. */
  lemma EndsWrong(c: Config, r0: Regs, m0: Memory, mi: Memory, q0: Request, schedule: seq<Cycle>, o: nat)
    requires Legal(c) && !c.stream && Mapped(m0, c.src, c.length) && ReadAs(c, m0, mi, r0.shift)
    requires r0.phase.Idle? && !r0.busy && 2 * c.length + 2 * Total(c) <= ReadyCycles(schedule)
    requires o < Total(c) && Outputs(c, mi, r0.shift)[o] != Outputs(c, m0, r0.shift)[o]
    ensures !RunRight(c, r0, m0, q0, schedule)
  {
    hide Outputs, Run, Start, Finished, Found;
    EveryRunComputes(c, r0, m0, mi, q0, schedule);
    var s := Run(c, Start(c, r0, m0, q0), schedule);
    FinishedAt(c.dst, m0, Outputs(c, mi, r0.shift), s.mem, s.beats, o);
    if RunRight(c, r0, m0, q0, schedule) {
      FinishedAt(c.dst, m0, Outputs(c, m0, r0.shift), s.mem, s.beats, o);
    }
  }

  /** A destination inside the input, past the lag: output 0 is read back as a sample, and a run ends wrong. */
  lemma OverlapGoesWrong(c: Config)
    requires Legal(c) && !c.stream && c.src + 4 * Lag(c) < c.dst < c.src + 4 * c.length
    ensures !AlwaysRight(c)
  {
    hide Outputs, Run, Start, ReadAs, ReadyCycles, RunRight, Unit, U32, S8;
    var u: Taps := Unit(16, 0);
    var d, q := c.(weights := u), (c.dst - c.src) / 4;
    var m0 := Indicator(c, Lag(c));
    var r0 := Regs(Idle, false, false, 0, 0, 0, 0, 0, seq(16, _ => 0));
    var schedule := Ready(2 * c.length + 2 * Total(c));
    ReadyAlways(|schedule|);
    var mi := AsRead(d, m0, r0.shift);
    ReadsOutput(d, m0, mi, r0.shift, q);
    NewestSample(d, m0, r0.shift, q - Lag(c));
    One();
    EndsWrong(d, r0, m0, mi, Request(0, false, 0), schedule, q - Lag(c));
  }

  /** Every run over every input, kernel and handshake ends right if and only if the destination starts within the lag
      or past the input. */
  lemma OverlapExactly(c: Config)
    requires Legal(c) && !c.stream
    ensures AlwaysRight(c) <==> c.dst <= c.src + 4 * Lag(c) || c.src + 4 * c.length <= c.dst
  {
    hide Outputs, Run, Start, Finished;
    if c.dst <= c.src + 4 * Lag(c) || c.src + 4 * c.length <= c.dst {
      forall w: Taps, r0: Regs, m0: Memory, q0: Request, schedule: seq<Cycle> |
        Mapped(m0, c.src, c.length) && r0.phase.Idle? && !r0.busy
        ensures RunRight(c.(weights := w), r0, m0, q0, schedule)
      {
        EveryRunConvolves(c.(weights := w), r0, m0, q0, schedule);
      }
    } else {
      OverlapGoesWrong(c);
    }
  }
}
