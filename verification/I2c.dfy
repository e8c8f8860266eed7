/** The I2C master: its bit-level state machine, and whole transfers on a bus that others share. */
module I2c {
  import opened Words
  import opened Pio

  datatype Ctrl = Ctrl(start: bool, stop: bool, read: bool, ackEn: bool)

  datatype State =
    | Idle | StartA | StartB | DataLo | DataHi | AckLo | AckHi | StopA | StopB | StopC | Done | WaitNext

  datatype Regs = Regs(
    state: State, clkCnt: Int16, bitCnt: Int3, shift: Bits8, sclOe: bool, sdaOe: bool,
    ackRecv: bool, arbLost: bool, rxData: Bits8, xferDone: bool, xfer: Ctrl, pendingClr: bool,
    ctrl: Ctrl, pending: bool, txData: Bits8, prescale: Int16)

  /** A register write of the CPU, if there is one in this clock. */
  datatype BusWrite = NoWrite | WriteCtrl(ctrl: Ctrl) | WriteTxData(data: Bits8) | WritePrescale(value: Int16)

  predicate Busy(r: Regs) {
    r.state != Idle && r.state != Done && r.state != WaitNext
  }

  predicate ClkTick(q: Regs) {
    q.clkCnt == 0 && q.prescale != 0
  }

  function Dec16(x: Int16): Int16 {
    if x == 0 then 0xFFFF else x - 1
  }

  function Wait(q: Regs): Regs {
    q.(clkCnt := Dec16(q.clkCnt))
  }

  /** The counter reloaded for another prescale period, in a new state. */
  function Enter(q: Regs, state: State): Regs {
    q.(clkCnt := Dec16(q.prescale), state := state)
  }

  // ---------------------------------------------------------------- the states

  /** `r` in these is the registers with the one-clock flags cleared. */
  function InIdle(r: Regs): Regs {
    if r.ctrl.start then
      Enter(r, StartA).(xfer := r.ctrl, shift := r.txData, bitCnt := 7, sclOe := false, sdaOe := true)
    else r.(sclOe := false, sdaOe := false)
  }

  function InStartA(r: Regs): Regs {
    if ClkTick(r) then Enter(r, StartB).(sclOe := true) else Wait(r)
  }

  function InStartB(r: Regs): Regs {
    if ClkTick(r) then Enter(r, DataLo).(sdaOe := !r.xfer.read && !r.shift[7]) else Wait(r)
  }

  function InDataLo(r: Regs): Regs {
    if ClkTick(r) then Enter(r, DataHi).(sclOe := false) else Wait(r).(sclOe := true)
  }

  /** The sampled bit goes into the shift register when reading; when writing a released but low line is a lost
      arbitration, whose move to DONE the next-state assignments below it override. */
  function InDataHi(r: Regs, sdaIn: bool): Regs {
    if !ClkTick(r) then Wait(r)
    else
      Sampled(NextSlot(r), r, sdaIn)
  }

  function NextSlot(r: Regs): Regs {
    if r.bitCnt == 0 then Enter(r, AckLo).(sclOe := true, sdaOe := r.xfer.read && r.xfer.ackEn)
    else Enter(r, DataLo).(sclOe := true, bitCnt := r.bitCnt - 1, sdaOe := !r.xfer.read && !r.shift[r.bitCnt - 1])
  }

  function Sampled(next: Regs, r: Regs, sdaIn: bool): Regs {
    if r.xfer.read then next.(shift := ShiftBit(r.shift, sdaIn))
    else if !r.sdaOe && !sdaIn then next.(arbLost := true)
    else next
  }

  function ShiftBit(s: Bits8, b: bool): Bits8 {
    [b] + s[..7]
  }

  function InAckLo(r: Regs): Regs {
    if ClkTick(r) then Enter(r, AckHi).(sclOe := false) else Wait(r).(sclOe := true)
  }

  function InAckHi(r: Regs, sdaIn: bool): Regs {
    if !ClkTick(r) then Wait(r)
    else AfterAck(if r.xfer.read then r.(rxData := r.shift) else r.(ackRecv := !sdaIn))
  }

  function AfterAck(r: Regs): Regs {
    if r.xfer.stop then Enter(r, StopA).(sclOe := true, sdaOe := true)
    else Enter(r, WaitNext).(sclOe := true, pendingClr := true)
  }

  function InStopA(r: Regs): Regs {
    if ClkTick(r) then Enter(r, StopB).(sclOe := false, sdaOe := true) else Wait(r).(sclOe := true, sdaOe := true)
  }

  function InStopB(r: Regs): Regs {
    if ClkTick(r) then r.(sdaOe := false, state := Done) else Wait(r)
  }

  function InWaitNext(r: Regs): Regs {
    if !r.pending then r.(sclOe := true)
    else if r.ctrl.start then
      Enter(r, StartA).(sclOe := false, sdaOe := false, pendingClr := true, xfer := r.ctrl, shift := r.txData, bitCnt := 7)
    else
      Enter(r, DataLo).(sclOe := true, sdaOe := !r.ctrl.read && !r.txData[7],
                        pendingClr := true, xfer := r.ctrl, shift := r.txData, bitCnt := 7)
  }

  function Fsm(r: Regs, sdaIn: bool): Regs {
    match r.state
    case Idle => InIdle(r)
    case StartA => InStartA(r)
    case StartB => InStartB(r)
    case DataLo => InDataLo(r)
    case DataHi => InDataHi(r, sdaIn)
    case AckLo => InAckLo(r)
    case AckHi => InAckHi(r, sdaIn)
    case StopA => InStopA(r)
    case StopB => InStopB(r)
    case StopC => r.(state := Done)
    case Done => r.(xferDone := true, state := Idle)
    case WaitNext => InWaitNext(r)
  }

  // ---------------------------------------------------------------- the CPU side

  /** The start and stop bits are cleared while the machine is busy; a write in the same clock wins. */
  function CtrlNext(q: Regs, w: BusWrite): Ctrl {
    if w.WriteCtrl? then w.ctrl else if Busy(q) then q.ctrl.(start := false, stop := false) else q.ctrl
  }

  function PendingNext(q: Regs, w: BusWrite): bool {
    w.WriteCtrl? || (q.pending && !q.pendingClr)
  }

  function Bus(r: Regs, q: Regs, w: BusWrite): Regs {
    r.(ctrl := CtrlNext(q, w), pending := PendingNext(q, w),
       txData := if w.WriteTxData? then w.data else q.txData,
       prescale := if w.WritePrescale? then w.value else q.prescale)
  }

  function Clock(q: Regs, sdaIn: bool, w: BusWrite): Regs {
    Bus(Fsm(q.(xferDone := false, pendingClr := false), sdaIn), q, w)
  }

  // ---------------------------------------------------------------- the controller on a shared bus

  /** SDA on the wire: high when neither the controller nor anybody else pulls it down. */
  predicate Line(r: Regs, pulled: bool) {
    !r.sdaOe && !pulled
  }

  /** One clock in which the rest of the bus does or does not pull SDA down, and the CPU writes w. */
  function Tick(r: Regs, pulled: bool, w: BusWrite): Regs {
    Clock(r, Line(r, pulled), w)
  }

  /** Everybody else: in which clocks somebody, slave or second master, pulls SDA down, and what the CPU writes when. */
  datatype Others = Others(pull: int -> bool, cpu: int -> BusWrite)

  /** The registers after n clocks. */
  function At(r: Regs, o: Others, n: nat): Regs {
    if n == 0 then r else Tick(At(r, o, n - 1), o.pull(n - 1), o.cpu(n - 1))
  }

  // ---------------------------------------------------------------- the segments of a transfer

  /** How a byte begins: with a START from idle, with START asked for again in WAIT_NEXT, or just following on. */
  datatype Opening = Fresh | Again | Next

  /** One byte: what is sent (or shifted out of the way), how it begins and ends, and the prescale period. */
  datatype Job = Job(opening: Opening, data: Bits8, read: bool, stop: bool, ackEn: bool, p: int)

  /** Slots 0 to 7 carry the byte, slot 8 the acknowledgement. */
  datatype Segment = SStartA | SStartB | SLo(slot: int) | SHi(slot: int) | SStopA | SStopB

  predicate Proper(g: Segment) {
    InSlot(g) ==> 0 <= g.slot <= 8
  }

  predicate InSlot(g: Segment) {
    g.SLo? || g.SHi?
  }

  function Index(g: Segment): int {
    match g
    case SStartA => 0
    case SStartB => 1
    case SLo(j) => 2 + 2 * j
    case SHi(j) => 3 + 2 * j
    case SStopA => 20
    case SStopB => 21
  }

  function SegmentNo(i: int): Segment {
    if i <= 0 then SStartA
    else if i == 1 then SStartB
    else if i == 20 then SStopA
    else if i >= 21 then SStopB
    else if i % 2 == 0 then SLo((i - 2) / 2)
    else SHi((i - 3) / 2)
  }

  /** The segments of a job are numbers First .. End - 1. */
  function First(job: Job): int {
    if job.opening.Next? then 2 else 0
  }

  function End(job: Job): int {
    if job.stop then 22 else 20
  }

  /** Clocks from the request to the end of the last segment. */
  function Span(job: Job): int {
    Cell(End(job) - First(job), 0, job.p)
  }

  /** The clock, counted from the request, with d clocks of segment i behind it. */
  function ClockOf(job: Job, i: int, d: int): int {
    1 + Cell(i - First(job), d, job.p)
  }

  lemma SegmentIndex(i: int)
    requires 0 <= i < 22
    ensures Proper(SegmentNo(i)) && Index(SegmentNo(i)) == i
    ensures i < 21 ==> SegmentNo(i + 1) == Following(SegmentNo(i))
    ensures SegmentNo(i) == SStopB <==> i == 21
    ensures SegmentNo(i) == SHi(8) <==> i == 19
  {
  }

  function Following(g: Segment): Segment {
    match g
    case SStartA => SStartB
    case SStartB => SLo(0)
    case SLo(j) => SHi(j)
    case SHi(j) => if j < 8 then SLo(j + 1) else SStopA
    case SStopA => SStopB
    case SStopB => SStopB
  }

  function StateOf(g: Segment): State {
    match g
    case SStartA => StartA
    case SStartB => StartB
    case SLo(j) => if j < 8 then DataLo else AckLo
    case SHi(j) => if j < 8 then DataHi else AckHi
    case SStopA => StopA
    case SStopB => StopB
  }

  predicate SclHigh(g: Segment) {
    g.SStartA? || g.SHi? || g.SStopB?
  }

  /** The controller lets SDA go: in the byte's slots when it reads or sends a 1, in slot 8 unless it acknowledges, and
      when START is asked for again. */
  predicate Released(g: Segment, job: Job) {
    if InSlot(g) then
      if 0 <= g.slot < 8 then job.read || job.data[7 - g.slot] else !(job.read && job.ackEn)
    else (g.SStartA? || g.SStartB?) && job.opening.Again?
  }

  /** Slots whose high period is over. */
  function SlotsPast(g: Segment): nat {
    match g
    case SStartA => 0
    case SStartB => 0
    case SLo(j) => if j >= 0 then j else 0
    case SHi(j) => if j >= 0 then j else 0
    case SStopA => 9
    case SStopB => 9
  }

  /** The registers in segment g with c clocks to go. */
  predicate Driving(r: Regs, g: Segment, c: int, job: Job) {
    && 0 <= c < job.p && r.clkCnt == c && r.prescale == job.p && (job.read || r.shift == job.data)
    && r.xfer.stop == job.stop && r.xfer.read == job.read && r.xfer.ackEn == job.ackEn && r.state == StateOf(g)
    && r.sclOe == !SclHigh(g) && r.sdaOe == !Released(g, job)
    && (InSlot(g) && g.slot < 8 ==> r.bitCnt == 7 - g.slot)
    && (g.SStartA? || g.SStartB? ==> r.bitCnt == 7)
  }

  // ---------------------------------------------------------------- what the controller samples

  /** The clock in which slot j is sampled: the last of its high period. */
  function SampleClock(job: Job, j: int): int {
    Cell(4 + 2 * j - First(job), 0, job.p)
  }

  /** Somebody pulls SDA down when slot j is sampled. */
  predicate Pulled(o: Others, job: Job, j: int) {
    o.pull(SampleClock(job, j))
  }

  /** A data slot in which the controller sends a 1 is sampled low. */
  predicate Contested(o: Others, job: Job, j: int) {
    0 <= j < 8 && job.data[7 - j] && Pulled(o, job, j)
  }

  /** What a transfer that began at r0 has recorded when k slots are past. */
  ghost predicate Recorded(r0: Regs, r: Regs, k: int, job: Job, o: Others) {
    if job.read then
      && r.arbLost == r0.arbLost && r.ackRecv == r0.ackRecv
      && (if k <= 8 then forall i :: 0 <= i < k ==> r.shift[i] == !Pulled(o, job, k - 1 - i)
          else forall i :: 0 <= i < 8 ==> r.rxData[i] == !Pulled(o, job, 7 - i))
    else
      && (r.arbLost <==> r0.arbLost || exists j :: 0 <= j < k && Contested(o, job, j))
      && r.rxData == r0.rxData && r.ackRecv == if k <= 8 then r0.ackRecv else Pulled(o, job, 8)
  }

  predicate SameRecord(r: Regs, r': Regs) {
    r'.shift == r.shift && r'.arbLost == r.arbLost && r'.ackRecv == r.ackRecv && r'.rxData == r.rxData
  }

  /** What the end of slot j does to the record. */
  predicate SlotRecord(r: Regs, r': Regs, j: int, job: Job, sdaIn: bool) {
    if job.read then
      && r'.arbLost == r.arbLost && r'.ackRecv == r.ackRecv
      && (if j < 8 then r'.shift == ShiftBit(r.shift, sdaIn) && r'.rxData == r.rxData
          else r'.rxData == r.shift)
    else
      && (r'.arbLost <==> r.arbLost || (0 <= j < 8 && job.data[7 - j] && !sdaIn))
      && r'.rxData == r.rxData && r'.ackRecv == if j < 8 then r.ackRecv else !sdaIn
  }

  lemma RecordStays(r0: Regs, r: Regs, r': Regs, k: int, job: Job, o: Others)
    requires Recorded(r0, r, k, job, o) && SameRecord(r, r')
    ensures Recorded(r0, r', k, job, o)
  {
    hide Pulled, Contested;
  }

  lemma RecordGrows(r0: Regs, r: Regs, r': Regs, j: int, job: Job, o: Others)
    requires 0 <= j <= 8 && Recorded(r0, r, j, job, o)
    requires SlotRecord(r, r', j, job, Released(SHi(j), job) && !Pulled(o, job, j))
    ensures Recorded(r0, r', j + 1, job, o)
  {
    if job.read {
      ReadGrows(r0, r, r', j, job, o);
    } else {
      hide Pulled;
      assert Contested(o, job, j) <==> j < 8 && job.data[7 - j] && Pulled(o, job, j);
      hide Contested;
    }
  }

  lemma ReadGrows(r0: Regs, r: Regs, r': Regs, j: int, job: Job, o: Others)
    requires 0 <= j <= 8 && job.read && Recorded(r0, r, j, job, o)
    requires SlotRecord(r, r', j, job, Released(SHi(j), job) && !Pulled(o, job, j))
    ensures Recorded(r0, r', j + 1, job, o)
  {
    hide Pulled;
    if j < 8 {
      forall i | 0 <= i < j + 1
        ensures r'.shift[i] == !Pulled(o, job, j - i)
      {
        assert i > 0 ==> r.shift[i - 1] == !Pulled(o, job, j - 1 - (i - 1));
      }
    }
  }

  // ---------------------------------------------------------------- one clock within and between segments

  function Unflagged(q: Regs): Regs {
    q.(xferDone := false, pendingClr := false)
  }

  /** Between ticks only the counter moves. */
  lemma FsmWaits(r: Regs, g: Segment, c: int, job: Job, sdaIn: bool)
    requires Proper(g) && Driving(r, g, c, job) && c > 0
    ensures Fsm(r, sdaIn) == r.(clkCnt := c - 1)
  {
    hide Fsm;
    if g.SLo? {
      if g.slot < 8 {
        LoWaits(r, g.slot, c, job, sdaIn);
      } else {
        AckLoWaits(r, c, job, sdaIn);
      }
    } else if g.SHi? {
      if g.slot < 8 {
        HiWaits(r, g.slot, c, job, sdaIn);
      } else {
        AckWaits(r, c, job, sdaIn);
      }
    } else {
      EndsWait(r, g, c, job, sdaIn);
    }
  }

  lemma LoWaits(r: Regs, j: int, c: int, job: Job, sdaIn: bool)
    requires 0 <= j < 8 && Driving(r, SLo(j), c, job) && c > 0
    ensures Fsm(r, sdaIn) == r.(clkCnt := c - 1)
  {
    hide Released, Enter;
    assert r.state == DataLo && r.sclOe && !ClkTick(r);
    hide Driving;
  }

  lemma AckLoWaits(r: Regs, c: int, job: Job, sdaIn: bool)
    requires Driving(r, SLo(8), c, job) && c > 0
    ensures Fsm(r, sdaIn) == r.(clkCnt := c - 1)
  {
    hide Released, Enter;
    assert r.state == AckLo && r.sclOe && !ClkTick(r);
    hide Driving;
  }

  lemma HiWaits(r: Regs, j: int, c: int, job: Job, sdaIn: bool)
    requires 0 <= j < 8 && Driving(r, SHi(j), c, job) && c > 0
    ensures Fsm(r, sdaIn) == r.(clkCnt := c - 1)
  {
    hide Released, Sampled, NextSlot;
  }

  lemma AckWaits(r: Regs, c: int, job: Job, sdaIn: bool)
    requires Driving(r, SHi(8), c, job) && c > 0
    ensures Fsm(r, sdaIn) == r.(clkCnt := c - 1)
  {
    hide Released, AfterAck;
  }

  lemma EndsWait(r: Regs, g: Segment, c: int, job: Job, sdaIn: bool)
    requires !InSlot(g) && Driving(r, g, c, job) && c > 0
    ensures Fsm(r, sdaIn) == r.(clkCnt := c - 1)
  {
  }

  lemma StartAdvances(r: Regs, g: Segment, job: Job, sdaIn: bool)
    requires (g.SStartA? || g.SStartB?) && Driving(r, g, 0, job)
    ensures Driving(Fsm(r, sdaIn), Following(g), job.p - 1, job) && SameRecord(r, Fsm(r, sdaIn))
  {
  }

  lemma LoAdvances(r: Regs, g: Segment, job: Job, sdaIn: bool)
    requires g.SLo? && Proper(g) && Driving(r, g, 0, job)
    ensures Driving(Fsm(r, sdaIn), Following(g), job.p - 1, job) && SameRecord(r, Fsm(r, sdaIn))
  {
    LoTicks(r, g, job, sdaIn);
    ReleasedStays(g, job);
    hide Released, Fsm;
  }

  lemma ReleasedStays(g: Segment, job: Job)
    requires g.SLo? && Proper(g)
    ensures Released(Following(g), job) == Released(g, job)
  {
  }

  lemma LoTicks(r: Regs, g: Segment, job: Job, sdaIn: bool)
    requires g.SLo? && Proper(g) && Driving(r, g, 0, job)
    ensures Fsm(r, sdaIn) == Enter(r, StateOf(Following(g))).(sclOe := false)
  {
    hide Released, SclHigh, Enter;
    assert ClkTick(r) && r.state == StateOf(g);
    hide Driving;
  }

  /** The end of a data slot, whatever the line carries: a lost arbitration is noted, but the state that follows is
      that of the next slot all the same. */
  lemma HiSamples(r: Regs, j: int, job: Job, sdaIn: bool)
    requires 0 <= j < 8 && Driving(r, SHi(j), 0, job)
    ensures Fsm(r, sdaIn) == Sampled(NextSlot(r), r, sdaIn)
    ensures SlotRecord(r, Fsm(r, sdaIn), j, job, sdaIn)
  {
    assert r.sdaOe == !(job.read || job.data[7 - j]);
    assert r.state == DataHi && ClkTick(r) && r.xfer.read == job.read;
    hide Released, ShiftBit, Driving, NextSlot;
    NextSlotKeeps(r);
  }

  lemma NextSlotKeeps(r: Regs)
    ensures SameRecord(r, NextSlot(r))
  {
    hide Enter;
    EnterKeeps(r, AckLo);
    EnterKeeps(r, DataLo);
  }

  lemma EnterKeeps(r: Regs, state: State)
    ensures SameRecord(r, Enter(r, state))
  {
    hide Dec16;
  }

  lemma SampledDriven(next: Regs, g: Segment, r: Regs, j: int, job: Job, sdaIn: bool)
    requires Driving(next, g, job.p - 1, job) && Driving(r, SHi(j), 0, job)
    ensures Driving(Sampled(next, r, sdaIn), g, job.p - 1, job)
  {
    hide Released, SclHigh, StateOf, ShiftBit;
  }

  lemma LastSlotDriven(r: Regs, job: Job)
    requires Driving(r, SHi(7), 0, job)
    ensures Driving(NextSlot(r), SLo(8), job.p - 1, job)
  {
  }

  lemma NextSlotDriven(r: Regs, j: int, job: Job)
    requires 0 <= j < 7 && Driving(r, SHi(j), 0, job)
    ensures Driving(NextSlot(r), SLo(j + 1), job.p - 1, job)
  {
    assert r.bitCnt == 7 - j && r.xfer.read == job.read && (job.read || r.shift == job.data);
    assert Released(SLo(j + 1), job) == (job.read || job.data[6 - j]);
    hide Released, Enter;
    EnterDriven(r, j, job);
  }

  lemma EnterDriven(r: Regs, j: int, job: Job)
    requires 0 <= j < 7 && Driving(r, SHi(j), 0, job)
    ensures Driving(Enter(r, DataLo).(sclOe := true, bitCnt := 6 - j, sdaOe := !Released(SLo(j + 1), job)),
                   SLo(j + 1), job.p - 1, job)
  {
    hide Released;
  }

  lemma HiAdvances(r: Regs, j: int, job: Job, sdaIn: bool)
    requires 0 <= j < 8 && Driving(r, SHi(j), 0, job)
    ensures Driving(Fsm(r, sdaIn), SLo(j + 1), job.p - 1, job)
    ensures SlotRecord(r, Fsm(r, sdaIn), j, job, sdaIn)
  {
    hide Fsm, Driving, NextSlot, Sampled, SlotRecord;
    HiSamples(r, j, job, sdaIn);
    if j == 7 {
      LastSlotDriven(r, job);
    } else {
      NextSlotDriven(r, j, job);
    }
    SampledDriven(NextSlot(r), SLo(j + 1), r, j, job, sdaIn);
  }

  lemma AckAdvances(r: Regs, job: Job, sdaIn: bool)
    requires Driving(r, SHi(8), 0, job) && job.stop
    ensures Driving(Fsm(r, sdaIn), SStopA, job.p - 1, job)
    ensures SlotRecord(r, Fsm(r, sdaIn), 8, job, sdaIn)
  {
  }

  lemma StopAdvances(r: Regs, job: Job, sdaIn: bool)
    requires Driving(r, SStopA, 0, job)
    ensures Driving(Fsm(r, sdaIn), SStopB, job.p - 1, job) && SameRecord(r, Fsm(r, sdaIn))
  {
  }

  lemma FsmAdvances(r: Regs, g: Segment, job: Job, sdaIn: bool)
    requires Proper(g) && Driving(r, g, 0, job) && g != SStopB && (g == SHi(8) ==> job.stop)
    ensures Driving(Fsm(r, sdaIn), Following(g), job.p - 1, job)
    ensures if g.SHi? then SlotRecord(r, Fsm(r, sdaIn), g.slot, job, sdaIn) else SameRecord(r, Fsm(r, sdaIn))
  {
    hide Fsm, Driving, SlotRecord, SameRecord;
    match g {
      case SStartA => StartAdvances(r, g, job, sdaIn);
      case SStartB => StartAdvances(r, g, job, sdaIn);
      case SLo(_) => LoAdvances(r, g, job, sdaIn);
      case SHi(j) =>
        if j < 8 {
          HiAdvances(r, j, job, sdaIn);
        } else {
          AckAdvances(r, job, sdaIn);
        }
      case SStopA => StopAdvances(r, job, sdaIn);
    }
  }

  /** The CPU side leaves the transfer alone, whatever the CPU writes but a new prescale. */
  lemma BusLeaves(r: Regs, q: Regs, w: BusWrite, g: Segment, c: int, job: Job)
    requires Driving(r, g, c, job) && q.prescale == job.p && !w.WritePrescale?
    ensures Driving(Bus(r, q, w), g, c, job) && SameRecord(r, Bus(r, q, w))
  {
    hide Released, SclHigh, StateOf, CtrlNext, PendingNext;
  }

  lemma UnflaggedDriven(q: Regs, g: Segment, c: int, job: Job)
    requires Driving(q, g, c, job)
    ensures Driving(Unflagged(q), g, c, job) && SameRecord(q, Unflagged(q))
    ensures Busy(q) && q.prescale == job.p && q.sdaOe == !Released(g, job) && q.sclOe == !SclHigh(g)
  {
    hide Released, SclHigh;
  }

  lemma WaitDriven(r: Regs, g: Segment, c: int, job: Job)
    requires Driving(r, g, c, job) && c > 0
    ensures Driving(r.(clkCnt := c - 1), g, c - 1, job) && SameRecord(r, r.(clkCnt := c - 1))
  {
    hide Released, SclHigh, StateOf;
  }

  lemma SameTwice(q: Regs, r: Regs, r': Regs)
    requires SameRecord(q, r) && SameRecord(r, r')
    ensures SameRecord(q, r')
  {
  }

  /** Within a segment nothing but the counter moves, whatever the line carries. */
  lemma TickHolds(q: Regs, g: Segment, c: int, job: Job, pulled: bool, w: BusWrite)
    requires Proper(g) && Driving(q, g, c, job) && c > 0 && !w.WritePrescale?
    ensures Driving(Tick(q, pulled, w), g, c - 1, job) && SameRecord(q, Tick(q, pulled, w))
  {
    hide Driving, Fsm, Bus, Line, Busy, SameRecord, Released, SclHigh;
    var r, sdaIn := Unflagged(q), Line(q, pulled);
    UnflaggedDriven(q, g, c, job);
    FsmWaits(r, g, c, job, sdaIn);
    WaitDriven(r, g, c, job);
    BusLeaves(Fsm(r, sdaIn), q, w, g, c - 1, job);
    SameTwice(q, r, Fsm(r, sdaIn));
    SameTwice(q, Fsm(r, sdaIn), Tick(q, pulled, w));
  }

  lemma SlotThen(q: Regs, r: Regs, r': Regs, r'': Regs, j: int, job: Job, sdaIn: bool)
    requires SameRecord(q, r) && SlotRecord(r, r', j, job, sdaIn) && SameRecord(r', r'')
    ensures SlotRecord(q, r'', j, job, sdaIn)
  {
  }

  /** At the end of a segment the next begins, whatever the line carries, and a slot is recorded as sampled. */
  lemma TickAdvances(q: Regs, g: Segment, job: Job, pulled: bool, w: BusWrite)
    requires Proper(g) && Driving(q, g, 0, job) && g != SStopB && (g == SHi(8) ==> job.stop) && !w.WritePrescale?
    ensures Driving(Tick(q, pulled, w), Following(g), job.p - 1, job)
    ensures if g.SHi? then SlotRecord(q, Tick(q, pulled, w), g.slot, job, Released(g, job) && !pulled)
            else SameRecord(q, Tick(q, pulled, w))
  {
    hide Driving, Fsm, Bus, Busy, Following, SameRecord, SlotRecord, Released, SclHigh;
    var r, sdaIn := Unflagged(q), Line(q, pulled);
    UnflaggedDriven(q, g, 0, job);
    FsmAdvances(r, g, job, sdaIn);
    BusLeaves(Fsm(r, sdaIn), q, w, Following(g), job.p - 1, job);
    if g.SHi? {
      SlotThen(q, r, Fsm(r, sdaIn), Tick(q, pulled, w), g.slot, job, sdaIn);
    } else {
      SameTwice(q, r, Fsm(r, sdaIn));
      SameTwice(q, Fsm(r, sdaIn), Tick(q, pulled, w));
    }
  }

  // ---------------------------------------------------------------- one byte, whatever others do

  /** The byte is asked for: from idle with START, or in WAIT_NEXT with a pending request, with START or without. */
  predicate Requested(r: Regs, job: Job) {
    && r.prescale == job.p && job.p >= 1 && r.txData == job.data
    && r.ctrl == Ctrl(!job.opening.Next?, job.stop, job.read, job.ackEn)
    && (if job.opening.Fresh? then r.state == Idle && !r.sclOe && !r.sdaOe else r.state == WaitNext && r.pending && r.sclOe)
  }

  /** The CPU changes the prescale in none of the first n clocks. */
  predicate SteadyClock(o: Others, n: int) {
    forall t :: 0 <= t < n ==> !o.cpu(t).WritePrescale?
  }

  ghost predicate InSegment(r0: Regs, r: Regs, g: Segment, c: int, job: Job, o: Others) {
    Proper(g) && Driving(r, g, c, job) && Recorded(r0, r, SlotsPast(g), job, o)
  }

  lemma Begins(r: Regs, job: Job, o: Others)
    requires Requested(r, job) && SteadyClock(o, 1)
    ensures InSegment(r, Tick(r, o.pull(0), o.cpu(0)), SegmentNo(First(job)), job.p - 1, job, o)
  {
    hide Pulled, Contested, CtrlNext, PendingNext, Driving;
    var r1 := Unflagged(r);
    var f := Fsm(r1, Line(r, o.pull(0)));
    if job.opening.Fresh? {
      IdleBegins(r1, job);
    } else {
      WaitBegins(r1, job);
    }
    BusLeaves(f, r, o.cpu(0), SegmentNo(First(job)), job.p - 1, job);
  }

  lemma IdleBegins(r: Regs, job: Job)
    requires Requested(r, job) && job.opening.Fresh?
    ensures var f := InIdle(r);
            && Driving(f, SegmentNo(First(job)), job.p - 1, job)
            && f.arbLost == r.arbLost && f.ackRecv == r.ackRecv && f.rxData == r.rxData
  {
  }

  lemma WaitBegins(r: Regs, job: Job)
    requires Requested(r, job) && !job.opening.Fresh?
    ensures var f := InWaitNext(r);
            && Driving(f, SegmentNo(First(job)), job.p - 1, job)
            && f.arbLost == r.arbLost && f.ackRecv == r.ackRecv && f.rxData == r.rxData
  {
    hide Driving, SegmentNo;
    if job.opening.Next? {
      NextBegins(r, job);
    } else {
      AgainBegins(r, job);
    }
  }

  lemma NextBegins(r: Regs, job: Job)
    requires Requested(r, job) && job.opening.Next?
    ensures var f := InWaitNext(r);
            && Driving(f, SegmentNo(First(job)), job.p - 1, job)
            && f.arbLost == r.arbLost && f.ackRecv == r.ackRecv && f.rxData == r.rxData
  {
    assert SegmentNo(First(job)) == SLo(0) && Released(SLo(0), job) == (job.read || job.data[7]);
    hide SegmentNo, Released;
  }

  lemma AgainBegins(r: Regs, job: Job)
    requires Requested(r, job) && job.opening.Again?
    ensures var f := InWaitNext(r);
            && Driving(f, SegmentNo(First(job)), job.p - 1, job)
            && f.arbLost == r.arbLost && f.ackRecv == r.ackRecv && f.rxData == r.rxData
  {
    assert SegmentNo(First(job)) == SStartA && Released(SStartA, job);
    hide SegmentNo, Released;
  }

  lemma StepHolds(r0: Regs, q: Regs, g: Segment, c: int, job: Job, o: Others, t: int)
    requires InSegment(r0, q, g, c, job, o) && c > 0 && !o.cpu(t).WritePrescale?
    ensures InSegment(r0, Tick(q, o.pull(t), o.cpu(t)), g, c - 1, job, o)
  {
    hide Tick, Driving, Recorded, SameRecord;
    TickHolds(q, g, c, job, o.pull(t), o.cpu(t));
    RecordStays(r0, q, Tick(q, o.pull(t), o.cpu(t)), SlotsPast(g), job, o);
  }

  lemma StepAdvances(r0: Regs, q: Regs, g: Segment, job: Job, o: Others, t: int)
    requires InSegment(r0, q, g, 0, job, o) && g != SStopB && (g == SHi(8) ==> job.stop) && !o.cpu(t).WritePrescale?
    requires g.SHi? ==> t == SampleClock(job, g.slot)
    ensures InSegment(r0, Tick(q, o.pull(t), o.cpu(t)), Following(g), job.p - 1, job, o)
  {
    hide Tick, Driving, Recorded, SameRecord, SlotRecord, SampleClock, Released;
    TickAdvances(q, g, job, o.pull(t), o.cpu(t));
    if g.SHi? {
      RecordGrows(r0, q, Tick(q, o.pull(t), o.cpu(t)), g.slot, job, o);
    } else {
      RecordStays(r0, q, Tick(q, o.pull(t), o.cpu(t)), SlotsPast(g), job, o);
    }
  }

  lemma StartsPositive(r: Regs, job: Job)
    requires Requested(r, job)
    ensures job.p >= 1 && !Busy(r)
  {
  }

  /** With d clocks of segment i behind it, whatever the line has carried and the CPU has written but a new prescale,
      the transfer is there, and the record is that of the slots sampled so far. */
  lemma {:induction false} Reaches(r: Regs, job: Job, o: Others, i: int, d: int)
    requires Requested(r, job) && First(job) <= i < End(job) && 0 <= d < job.p
    requires SteadyClock(o, ClockOf(job, i, d))
    ensures 0 < ClockOf(job, i, d) <= Span(job)
    ensures InSegment(r, At(r, o, ClockOf(job, i, d)), SegmentNo(i), job.p - 1 - d, job, o)
    decreases i, d
  {
    hide InSegment, Tick, Cell, SegmentNo, Requested;
    var p, f := job.p, First(job);
    StartsPositive(r, job);
    CellBound(i - f, d, End(job) - f, p);
    SegmentIndex(i);
    if d > 0 {
      CellNext(i - f, d - 1, p);
      Reaches(r, job, o, i, d - 1);
      StepHolds(r, At(r, o, ClockOf(job, i, d - 1)), SegmentNo(i), p - d, job, o, ClockOf(job, i, d - 1));
    } else if i > f {
      CellNext(i - 1 - f, p - 1, p);
      Reaches(r, job, o, i - 1, p - 1);
      SegmentIndex(i - 1);
      StepAdvances(r, At(r, o, ClockOf(job, i - 1, p - 1)), SegmentNo(i - 1), job, o, ClockOf(job, i - 1, p - 1));
    } else {
      CellNext(0, 0, p);
      Begins(r, job, o);
    }
  }

  /** The byte is over: with STOP both lines are released; without, the machine waits with SCL low. */
  ghost predicate Ended(r0: Regs, r: Regs, job: Job, o: Others) {
    && Recorded(r0, r, 9, job, o) && r.prescale == job.p
    && if job.stop then r.state == Done && !r.sclOe && !r.sdaOe && !r.pendingClr
       else r.state == WaitNext && r.sclOe && r.sdaOe == !Released(SHi(8), job) && r.pendingClr
  }

  lemma StopEnds(r0: Regs, q: Regs, job: Job, o: Others, pulled: bool, w: BusWrite)
    requires InSegment(r0, q, SStopB, 0, job, o) && job.stop && !w.WritePrescale?
    ensures Ended(r0, Tick(q, pulled, w), job, o)
  {
    hide Recorded, CtrlNext, PendingNext;
    RecordStays(r0, q, Tick(q, pulled, w), 9, job, o);
  }

  lemma AckEnds(q: Regs, job: Job, sdaIn: bool)
    requires Driving(q, SHi(8), 0, job) && !job.stop
    ensures var r := Fsm(q, sdaIn);
            && SlotRecord(q, r, 8, job, sdaIn) && r.prescale == q.prescale
            && r.state == WaitNext && r.sclOe && r.sdaOe == q.sdaOe && r.pendingClr
  {
  }

  lemma WaitEnds(r0: Regs, q: Regs, job: Job, o: Others, t: int)
    requires InSegment(r0, q, SHi(8), 0, job, o) && !job.stop && !o.cpu(t).WritePrescale? && t == SampleClock(job, 8)
    ensures Ended(r0, Tick(q, o.pull(t), o.cpu(t)), job, o)
  {
    hide Recorded, Driving, Fsm, SlotRecord, SampleClock, CtrlNext, PendingNext, Released;
    var r, sdaIn := Unflagged(q), Line(q, o.pull(t));
    UnflaggedDriven(q, SHi(8), 0, job);
    AckEnds(r, job, sdaIn);
    BusKeeps(Fsm(r, sdaIn), q, o.cpu(t));
    SlotThen(q, r, Fsm(r, sdaIn), Tick(q, o.pull(t), o.cpu(t)), 8, job, sdaIn);
    RecordGrows(r0, q, Tick(q, o.pull(t), o.cpu(t)), 8, job, o);
  }

  lemma BusKeeps(r: Regs, q: Regs, w: BusWrite)
    requires !w.WritePrescale? && r.prescale == q.prescale
    ensures var b := Bus(r, q, w);
            && SameRecord(r, b) && b.state == r.state && b.sclOe == r.sclOe && b.sdaOe == r.sdaOe
            && b.pendingClr == r.pendingClr && b.prescale == r.prescale
  {
    hide CtrlNext, PendingNext;
  }

  /** One clock after the last segment the byte is over. */
  lemma Finishes(r: Regs, job: Job, o: Others)
    requires Requested(r, job) && SteadyClock(o, 1 + Span(job))
    ensures 0 <= Span(job) && Ended(r, At(r, o, 1 + Span(job)), job, o)
  {
    hide InSegment, Tick, Cell, SegmentNo, Requested, Ended;
    StartsPositive(r, job);
    var i := End(job) - 1;
    CellNext(i - First(job), job.p - 1, job.p);
    Reaches(r, job, o, i, job.p - 1);
    SegmentIndex(i);
    if job.stop {
      StopEnds(r, At(r, o, Span(job)), job, o, o.pull(Span(job)), o.cpu(Span(job)));
    } else {
      WaitEnds(r, At(r, o, Span(job)), job, o, Span(job));
    }
  }

  /** The segment that clock n of a byte falls in. */
  function Within(job: Job, n: int): Segment
    requires job.p >= 1
  {
    SegmentNo(First(job) + (n - 1) / job.p)
  }

  lemma DuringTransfer(r: Regs, job: Job, o: Others, n: nat)
    requires Requested(r, job) && SteadyClock(o, n) && 1 <= n <= Span(job)
    ensures job.p >= 1
    ensures InSegment(r, At(r, o, n), Within(job, n), job.p - 1 - (n - 1) % job.p, job, o)
  {
    hide Tick, Cell, Requested, SegmentNo, InSegment;
    var p := job.p;
    StartsPositive(r, job);
    Recompose(n - 1, p);
    DivisionBound(n - 1, End(job) - First(job), p);
    Reaches(r, job, o, First(job) + (n - 1) / p, (n - 1) % p);
  }

  /** The controller's own waveform does not depend on anybody else: for every byte, opening, direction, prescale, stream
      of pull-downs and writes of the CPU to CTRL and TX_DATA, SCL and SDA are driven by the segment alone; the machine is
      busy in exactly the Span clocks after the request, and then idle with both lines released if STOP was asked for,
      or waiting with SCL low if not. */
  lemma Waveform(r: Regs, job: Job, o: Others, n: nat)
    requires Requested(r, job) && SteadyClock(o, n) && n <= 1 + Span(job)
    ensures job.p >= 1
    ensures var s := At(r, o, n);
            && (Busy(s) <==> 1 <= n <= Span(job))
            && (1 <= n <= Span(job) ==>
                  s.sclOe == !SclHigh(Within(job, n)) && s.sdaOe == !Released(Within(job, n), job))
            && (n > Span(job) ==>
                  s.sclOe == !job.stop && s.state == (if job.stop then Done else WaitNext)
                  && s.sdaOe == (!job.stop && job.read && job.ackEn))
  {
    hide Tick, Requested, Within, SclHigh, Recorded, Driving, Span;
    StartsPositive(r, job);
    if n > Span(job) {
      Finishes(r, job, o);
    } else if n >= 1 {
      hide Released;
      DuringTransfer(r, job, o, n);
      UnflaggedDriven(At(r, o, n), Within(job, n), job.p - 1 - (n - 1) % job.p, job);
    }
  }

  /** How long a byte takes: 22 periods with START and STOP, 20 without STOP, 18 for one that follows on. */
  lemma SpanIs(job: Job)
    ensures Span(job) == ((if job.opening.Next? then 18 else 20) + if job.stop then 2 else 0) * job.p
  {
  }

  lemma SpanPositive(job: Job)
    requires job.p >= 1
    ensures 0 < Span(job)
  {
    CellUpTo(1, End(job) - First(job), job.p);
  }

  lemma SlotIsPast(job: Job, n: int, j: int)
    requires job.p >= 1 && 1 <= n <= Span(job) && 0 <= j <= 8
    ensures SampleClock(job, j) < n <==> j < SlotsPast(Within(job, n))
  {
    hide Cell, SegmentNo;
    var p, i := job.p, (n - 1) / job.p;
    Recompose(n - 1, p);
    DivisionBound(n - 1, End(job) - First(job), p);
    PastIndex(First(job) + i, j);
    var at := 4 + 2 * j - First(job);
    if at <= i {
      CellUpTo(at, i, p);
    } else {
      CellUpTo(i + 1, at, p);
      CellNext(i, p - 1, p);
      CellFrom(i, p - 1, p);
      CellFrom(i, (n - 1) % p, p);
    }
  }

  lemma PastIndex(i: int, j: int)
    requires 0 <= i < 22 && 0 <= j <= 8
    ensures 4 + 2 * j <= i <==> j < SlotsPast(SegmentNo(i))
  {
  }

  lemma CellFrom(y: int, k: int, w: int)
    ensures Cell(y, k, w) == Cell(y, 0, w) + k
  {
  }

  lemma CellUpTo(y: int, h: int, w: int)
    requires 0 <= y <= h && 0 <= w
    ensures 0 <= Cell(y, 0, w) <= Cell(h, 0, w) && Cell(1, 0, w) == w
  {
    Monotone(0, y, w);
    Monotone(y, h, w);
  }

  lemma SamplesInside(job: Job, j: int)
    requires job.p >= 1 && 0 <= j <= 8
    ensures 0 < SampleClock(job, j) <= Span(job)
  {
    CellUpTo(1, 4 + 2 * j - First(job), job.p);
    CellUpTo(4 + 2 * j - First(job), End(job) - First(job), job.p);
  }

  /** A write, whoever else pulls SDA and whenever: arbitration is reported lost from the moment a slot sending a 1 is
      sampled low, and only then; the acknowledgement is what the ninth slot was sampled as. With Waveform: a lost
      arbitration does not end the transfer. */
  lemma WriteRecords(r: Regs, job: Job, o: Others, n: nat)
    requires Requested(r, job) && !job.read && SteadyClock(o, n) && n <= 1 + Span(job)
    ensures At(r, o, n).arbLost <==>
            r.arbLost || exists j :: 0 <= j < 8 && SampleClock(job, j) < n && Contested(o, job, j)
    ensures n == 1 + Span(job) ==> At(r, o, n).ackRecv == Pulled(o, job, 8)
  {
    hide Tick, Requested, Within, Released, SclHigh, Contested, SampleClock, SlotsPast, Driving, Span;
    StartsPositive(r, job);
    forall j | 0 <= j < 8
      ensures 0 < SampleClock(job, j) <= Span(job)
      ensures 1 <= n <= Span(job) ==> (SampleClock(job, j) < n <==> j < SlotsPast(Within(job, n)))
    {
      SamplesInside(job, j);
      if 1 <= n <= Span(job) {
        SlotIsPast(job, n, j);
      }
    }
    NoNinth(job, o);
    if n > Span(job) {
      Finishes(r, job, o);
    } else if n >= 1 {
      DuringTransfer(r, job, o, n);
    }
  }

  lemma NoNinth(job: Job, o: Others)
    ensures forall j :: Contested(o, job, j) ==> 0 <= j < 8
  {
  }

  const SILENT: int -> BusWrite := _ => NoWrite

  /** For every byte with a 1 in it there is a stream on which arbitration is lost in that slot and the controller
      nevertheless goes on to drive every later slot of its own byte and the STOP. */
  lemma ArbitrationGoesOn(r: Regs, job: Job, j: nat) returns (o: Others)
    requires Requested(r, job) && !job.read && !r.arbLost && j < 8 && job.data[7 - j]
    ensures job.p >= 1 && SampleClock(job, j) < Span(job)
    ensures forall n: nat :: n <= 1 + Span(job) ==> (At(r, o, n).arbLost <==> n > SampleClock(job, j))
    ensures forall n: nat :: SampleClock(job, j) < n <= Span(job) ==>
              var s := At(r, o, n);
              Busy(s) && s.sclOe == !SclHigh(Within(job, n)) && s.sdaOe == !Released(Within(job, n), job)
  {
    hide Tick, Requested, Within, Released, SclHigh, Busy, Recorded, At, SampleClock, Span;
    StartsPositive(r, job);
    o := Others(t => t == SampleClock(job, j), SILENT);
    Distinct(job, o, j);
    forall n: nat | n <= 1 + Span(job)
      ensures At(r, o, n).arbLost <==> n > SampleClock(job, j)
      ensures SampleClock(job, j) < n <= Span(job) ==>
                var s := At(r, o, n);
                Busy(s) && s.sclOe == !SclHigh(Within(job, n)) && s.sdaOe == !Released(Within(job, n), job)
    {
      WriteRecords(r, job, o, n);
      Waveform(r, job, o, n);
    }
  }

  lemma Distinct(job: Job, o: Others, j: int)
    requires job.p >= 1 && 0 <= j < 8 && job.data[7 - j] && forall t :: o.pull(t) <==> t == SampleClock(job, j)
    ensures forall k :: Contested(o, job, k) <==> k == j
    ensures 0 < SampleClock(job, j) < Span(job)
  {
    hide Cell;
    var at := 4 + 2 * j - First(job);
    CellUpTo(1, at, job.p);
    CellUpTo(at + 1, End(job) - First(job), job.p);
    CellNext(at, job.p - 1, job.p);
    CellFrom(at, job.p - 1, job.p);
    forall k
      ensures Contested(o, job, k) <==> k == j
    {
      if 0 <= k < 8 && SampleClock(job, k) == SampleClock(job, j) {
        CellDecode(4 + 2 * k - First(job), 0, job.p);
        CellDecode(at, 0, job.p);
      }
    }
  }

  /** A read, whoever pulls SDA and whenever: the received byte is the eight sampled levels, the first the most
      significant; neither the acknowledge flag nor the arbitration flag has moved. */
  lemma ReadRecords(r: Regs, job: Job, o: Others)
    requires Requested(r, job) && job.read && SteadyClock(o, 1 + Span(job))
    ensures 0 <= Span(job)
    ensures var s := At(r, o, 1 + Span(job));
            && (forall j :: 0 <= j < 8 ==> s.rxData[7 - j] == !Pulled(o, job, j))
            && s.ackRecv == r.ackRecv && s.arbLost == r.arbLost
  {
    hide Tick, Requested, Pulled, Span;
    Finishes(r, job, o);
    var s := At(r, o, 1 + Span(job));
    forall j | 0 <= j < 8
      ensures s.rxData[7 - j] == !Pulled(o, job, j)
    {
      assert s.rxData[7 - j] == !Pulled(o, job, 7 - (7 - j));
    }
  }

  /** In a read the controller leaves SDA alone in the eight data slots, and drives the ninth low if and only if it is
      to acknowledge. */
  lemma ReadDrives(r: Regs, job: Job, o: Others, n: nat)
    requires Requested(r, job) && job.read && SteadyClock(o, n) && 1 <= n <= Span(job)
    ensures job.p >= 1
    ensures InSlot(Within(job, n)) ==> (At(r, o, n).sdaOe <==> Within(job, n).slot == 8 && job.ackEn)
  {
    hide Tick, Requested, SclHigh, Recorded, At, SegmentNo, Span;
    DuringTransfer(r, job, o, n);
  }

  // ---------------------------------------------------------------- from byte to byte

  /** Everybody else, from clock k on. */
  function Later(o: Others, k: int): Others {
    Others(t => o.pull(t + k), t => o.cpu(t + k))
  }

  lemma {:induction false} AtSplit(r: Regs, o: Others, a: nat, b: nat)
    ensures At(r, o, a + b) == At(At(r, o, a), Later(o, a), b)
  {
    hide Tick;
    if b > 0 {
      AtSplit(r, o, a, b - 1);
    }
  }

  /** The registers of the CPU side are as they were. */
  predicate LeavesBus(r: Regs, f: Regs) {
    f.ctrl == r.ctrl && f.pending == r.pending && f.txData == r.txData && f.prescale == r.prescale
  }

  /** And no clearing of the pending flag is asked for. */
  predicate Leaves(r: Regs, f: Regs) {
    LeavesBus(r, f) && !f.pendingClr
  }

  /** What the state machine leaves to the CPU side, and when it asks for the pending flag to be cleared. */
  lemma FsmLeavesBus(r: Regs, sdaIn: bool)
    requires !r.pendingClr
    ensures LeavesBus(r, Fsm(r, sdaIn))
    ensures Fsm(r, sdaIn).pendingClr ==>
              (r.state == WaitNext && r.pending) || (r.state == AckHi && !r.xfer.stop && ClkTick(r))
  {
    hide InIdle, InStartA, InStartB, InDataLo, InDataHi, InAckLo, InAckHi, InStopA, InStopB, InWaitNext, ClkTick, LeavesBus;
    match r.state {
      case Idle => IdleLeavesBus(r);
      case DataHi => HiLeavesBus(r, sdaIn);
      case AckHi => AckLeavesBus(r, sdaIn);
      case WaitNext => WaitLeavesBus(r);
      case StopC => DoneLeavesBus(r);
      case Done => DoneLeavesBus(r);
      case _ => EdgesLeaveBus(r);
    }
  }

  lemma IdleLeavesBus(r: Regs)
    requires !r.pendingClr
    ensures Leaves(r, InIdle(r))
  {
    hide Enter;
    EnterLeavesBus(r);
  }

  lemma WaitLeavesBus(r: Regs)
    requires !r.pendingClr
    ensures LeavesBus(r, InWaitNext(r)) && (InWaitNext(r).pendingClr ==> r.pending)
  {
    hide Enter;
    EnterLeavesBus(r);
  }

  lemma DoneLeavesBus(r: Regs)
    requires !r.pendingClr
    ensures Leaves(r, r.(state := Done)) && Leaves(r, r.(xferDone := true, state := Idle))
  {
  }

  lemma EdgesLeaveBus(r: Regs)
    requires !r.pendingClr
    ensures Leaves(r, InStartA(r)) && Leaves(r, InStartB(r)) && Leaves(r, InDataLo(r)) && Leaves(r, InAckLo(r))
    ensures Leaves(r, InStopA(r)) && Leaves(r, InStopB(r))
  {
    hide Enter, Wait;
    EnterLeavesBus(r);
  }

  lemma EnterLeavesBus(r: Regs)
    ensures forall s: State :: LeavesBus(r, Enter(r, s)) && Enter(r, s).pendingClr == r.pendingClr
    ensures LeavesBus(r, Wait(r)) && Wait(r).pendingClr == r.pendingClr
  {
    hide Dec16;
  }

  lemma HiLeavesBus(r: Regs, sdaIn: bool)
    requires !r.pendingClr
    ensures Leaves(r, InDataHi(r, sdaIn))
  {
    hide Enter, ShiftBit, Wait;
    EnterLeavesBus(r);
  }

  lemma AckLeavesBus(r: Regs, sdaIn: bool)
    requires !r.pendingClr
    ensures LeavesBus(r, InAckHi(r, sdaIn)) && (InAckHi(r, sdaIn).pendingClr ==> !r.xfer.stop && ClkTick(r))
  {
    hide Enter, Wait;
    var a := if r.xfer.read then r.(rxData := r.shift) else r.(ackRecv := !sdaIn);
    EnterLeavesBus(a);
    EnterLeavesBus(r);
  }

  /** A clock in which the CPU writes nothing: the start and stop bits go while the machine is busy, and the pending
      flag goes when its clearing was asked for in the clock before. */
  lemma SilentTick(q: Regs, pulled: bool)
    ensures var t := Tick(q, pulled, NoWrite);
            && t.txData == q.txData && t.prescale == q.prescale
            && t.ctrl == (if Busy(q) then q.ctrl.(start := false, stop := false) else q.ctrl)
            && t.pending == (q.pending && !q.pendingClr)
            && (t.pendingClr ==> (q.state == WaitNext && q.pending) || (q.state == AckHi && !q.xfer.stop && ClkTick(q)))
  {
    hide Fsm;
    FsmLeavesBus(Unflagged(q), Line(q, pulled));
  }

  /** The CPU side of a byte during which the CPU writes nothing. */
  lemma {:induction false} SilentByte(r: Regs, job: Job, o: Others, n: nat)
    requires Requested(r, job) && (forall t :: o.cpu(t) == NoWrite) && 1 <= n <= 1 + Span(job)
    ensures var s := At(r, o, n);
            && s.txData == r.txData && s.ctrl.read == r.ctrl.read && s.ctrl.ackEn == r.ctrl.ackEn
            && (n >= 2 ==> !s.ctrl.start && !s.ctrl.stop)
            && (job.opening.Fresh? || n == 1 ==> s.pending == (r.pending && !r.pendingClr))
            && (!job.opening.Fresh? && n >= 2 ==> !s.pending)
            && (s.pendingClr ==> n == 1 || n == 1 + Span(job)) && (n == 1 ==> s.pendingClr == !job.opening.Fresh?)
  {
    hide Requested, Tick, Span, InSegment;
    SilentTick(At(r, o, n - 1), o.pull(n - 1));
    if n == 1 {
      FirstPending(r, job, o.pull(0));
      NotBusyYet(r, job);
    } else {
      SilentByte(r, job, o, n - 1);
      DuringTransfer(r, job, o, n - 1);
      NotWaiting(At(r, o, n - 1), job, n - 1, r, o);
    }
  }

  lemma NotBusyYet(r: Regs, job: Job)
    requires Requested(r, job)
    ensures !Busy(r)
  {
  }

  lemma FirstPending(r: Regs, job: Job, pulled: bool)
    requires Requested(r, job)
    ensures Tick(r, pulled, NoWrite).pendingClr == !job.opening.Fresh?
  {
    hide Enter;
    EnterLeavesBus(Unflagged(r));
  }

  lemma NotWaiting(q: Regs, job: Job, n: nat, r: Regs, o: Others)
    requires job.p >= 1 && 1 <= n <= Span(job)
    requires InSegment(r, q, Within(job, n), job.p - 1 - (n - 1) % job.p, job, o)
    ensures Busy(q) && q.state != WaitNext
    ensures q.state == AckHi && !q.xfer.stop && ClkTick(q) ==> n == Span(job)
  {
    hide SegmentNo, Cell, Recorded, Released, SclHigh;
    var p, i := job.p, (n - 1) / job.p;
    Recompose(n - 1, p);
    DivisionBound(n - 1, End(job) - First(job), p);
    SegmentIndex(First(job) + i);
    if q.state == AckHi && ClkTick(q) && !q.xfer.stop {
      CellNext(i, p - 1, p);
    }
  }

  /** A machine that waits with no request pending stays as it is, SCL low, for as long as the CPU writes no CTRL. */
  lemma {:induction false} Waits(r: Regs, o: Others, n: nat)
    requires r.state == WaitNext && r.sclOe && forall t :: 0 <= t < n ==> !At(r, o, t).pending
    ensures At(r, o, n).state == WaitNext && At(r, o, n).sclOe && !Busy(At(r, o, n))
    ensures At(r, o, n).sdaOe == r.sdaOe
  {
    hide Bus;
    if n > 0 {
      Waits(r, o, n - 1);
      assert !At(r, o, n - 1).pending;
      WaitTick(At(r, o, n - 1), o.pull(n - 1), o.cpu(n - 1));
    }
  }

  lemma WaitTick(q: Regs, pulled: bool, w: BusWrite)
    requires q.state == WaitNext && q.sclOe && !q.pending
    ensures var t := Tick(q, pulled, w); t.state == WaitNext && t.sclOe && t.sdaOe == q.sdaOe
    ensures w == NoWrite ==> !Tick(q, pulled, w).pending
  {
    hide CtrlNext;
  }

  /** The byte is sent again. After a START without STOP the pending flag, set by the write of CTRL that asked for it, is
      still up in the first WAIT_NEXT clock; if the CPU writes nothing meanwhile, the byte in TX_DATA follows at once, and
      after it the machine waits with SCL low for ever. */
  lemma SentTwice(r: Regs, job: Job, o: Others)
    requires Requested(r, job) && job.opening.Fresh? && !job.stop && r.pending && !r.pendingClr
    requires forall t :: o.cpu(t) == NoWrite
    ensures 0 <= Span(job)
    ensures var again := job.(opening := Next);
            && Requested(At(r, o, 1 + Span(job)), again) && 0 <= Span(again)
            && forall n: nat :: n >= 2 + Span(job) + Span(again) ==> Stuck(At(r, o, n))
  {
    hide Requested, Tick, Ended, Recorded, Span, At, Later, Stuck;
    var again, e := job.(opening := Next), 1 + Span(job);
    StartsPositive(r, job);
    SpanPositive(job);
    SpanPositive(again);
    Finishes(r, job, o);
    SilentByte(r, job, o, e);
    var q := At(r, o, e);
    FollowsOn(r, job, o, q);
    LaterSilent(o, e);
    Finishes(q, again, Later(o, e));
    SilentByte(q, again, Later(o, e), 1 + Span(again));
    LaterSilent(Later(o, e), 1 + Span(again));
    var o' := Later(o, e);
    var w := At(q, o', 1 + Span(again));
    EndedWaits(q, w, again, o');
    forall n: nat | n >= e + 1 + Span(again)
      ensures Stuck(At(r, o, n))
    {
      var k := n - (e + 1 + Span(again));
      AtSplit(r, o, e, 1 + Span(again) + k);
      AtSplit(q, o', 1 + Span(again), k);
      WaitsForEver(w, Later(o', 1 + Span(again)), k);
    }
  }

  /** Waiting, SCL low, with no request pending. */
  predicate Stuck(s: Regs) {
    s.state == WaitNext && s.sclOe && !Busy(s) && !s.pending
  }

  lemma LaterSilent(o: Others, k: int)
    requires forall t :: o.cpu(t) == NoWrite
    ensures forall t :: Later(o, k).cpu(t) == NoWrite
  {
  }

  lemma FollowsOn(r: Regs, job: Job, o: Others, q: Regs)
    requires Requested(r, job) && !job.stop && Ended(r, q, job, o) && q.pending && q.txData == r.txData
    requires q.ctrl.read == r.ctrl.read && q.ctrl.ackEn == r.ctrl.ackEn && !q.ctrl.start && !q.ctrl.stop
    ensures Requested(q, job.(opening := Next))
  {
    hide Recorded;
  }

  lemma EndedWaits(r0: Regs, r: Regs, job: Job, o: Others)
    requires Ended(r0, r, job, o) && !job.stop
    ensures r.state == WaitNext && r.sclOe
  {
  }

  lemma {:induction false} WaitsForEver(r: Regs, o: Others, n: nat)
    requires r.state == WaitNext && r.sclOe && !r.pending && forall t :: o.cpu(t) == NoWrite
    ensures Stuck(At(r, o, n))
  {
    hide Tick;
    if n > 0 {
      WaitsForEver(r, o, n - 1);
      WaitTick(At(r, o, n - 1), o.pull(n - 1), o.cpu(n - 1));
    }
  }

  // ---------------------------------------------------------------- from the CPU's writes

  /** The CPU writes PRESCALE, TX_DATA and then CTRL with START, in clocks of its choice, and nothing else before. */
  predicate Programs(o: Others, t1: nat, t2: nat, t3: nat, job: Job) {
    && t1 != t2 && t1 < t3 && t2 < t3 && 1 <= job.p < 0x1_0000 && job.opening.Fresh?
    && o.cpu(t1) == WritePrescale(job.p) && o.cpu(t2) == WriteTxData(job.data)
    && o.cpu(t3) == WriteCtrl(Ctrl(true, job.stop, job.read, job.ackEn))
    && forall t :: 0 <= t < t3 && t != t1 && t != t2 ==> o.cpu(t) == NoWrite
  }

  /** From an idle machine with no request, as after reset: the clock after the write of CTRL the byte is requested, with
      the pending flag up. So every theorem about a requested byte is one about what the CPU writes. */
  lemma Programmed(r: Regs, o: Others, t1: nat, t2: nat, t3: nat, job: Job)
    requires r.state == Idle && !r.sclOe && !r.sdaOe && !r.ctrl.start && !r.pendingClr && Programs(o, t1, t2, t3, job)
    ensures var s := At(r, o, t3 + 1); Requested(s, job) && s.pending && !s.pendingClr
  {
    hide At, Tick;
    Programming(r, o, t1, t2, t3, job, t3);
    LastWrite(At(r, o, t3), o.pull(t3), Ctrl(true, job.stop, job.read, job.ackEn));
    NextClock(r, o, t3);
  }

  lemma NextClock(r: Regs, o: Others, n: nat)
    ensures At(r, o, n + 1) == Tick(At(r, o, n), o.pull(n), o.cpu(n))
  {
  }

  lemma LastWrite(q: Regs, pulled: bool, ctrl: Ctrl)
    requires q.state == Idle && !q.sclOe && !q.sdaOe && !q.ctrl.start && !q.pendingClr
    ensures var s := Tick(q, pulled, WriteCtrl(ctrl));
            && s.state == Idle && !s.sclOe && !s.sdaOe && s.ctrl == ctrl && s.pending && !s.pendingClr
            && s.prescale == q.prescale && s.txData == q.txData
  {
  }

  lemma {:induction false} Programming(r: Regs, o: Others, t1: nat, t2: nat, t3: nat, job: Job, n: nat)
    requires r.state == Idle && !r.sclOe && !r.sdaOe && !r.ctrl.start && !r.pendingClr
    requires Programs(o, t1, t2, t3, job) && n <= t3
    ensures var s := At(r, o, n);
            && s.state == Idle && !s.sclOe && !s.sdaOe && !s.ctrl.start && !s.pendingClr
            && (t1 < n ==> s.prescale == job.p) && (t2 < n ==> s.txData == job.data)
  {
    hide Tick;
    if n > 0 {
      Programming(r, o, t1, t2, t3, job, n - 1);
      IdleTick(At(r, o, n - 1), o.pull(n - 1), o.cpu(n - 1));
    }
  }

  lemma IdleTick(q: Regs, pulled: bool, w: BusWrite)
    requires q.state == Idle && !q.sclOe && !q.sdaOe && !q.ctrl.start && !q.pendingClr && !w.WriteCtrl?
    ensures var s := Tick(q, pulled, w);
            && s.state == Idle && !s.sclOe && !s.sdaOe && !s.ctrl.start && !s.pendingClr
            && s.prescale == (if w.WritePrescale? then w.value else q.prescale)
            && s.txData == (if w.WriteTxData? then w.data else q.txData)
  {
  }
}
