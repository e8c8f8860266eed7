/** The I2C bus, watched from outside: what whole transfers and messages look like on the two lines. */
module I2cBus {
  import opened Words
  import opened Pio
  import opened I2c

  datatype Event = Start | Stop | Bit(value: bool) | Glitch

  /** A monitor of the two lines. A level held through a high period of SCL is a bit; a change of SDA inside one is a
      START or a STOP; a change of SDA together with the rise of SCL is a glitch. */
  datatype Monitor = Monitor(scl: bool, sda: bool, clean: bool, events: seq<Event>)

  function Observe(m: Monitor, scl: bool, sda: bool): Monitor {
    if m.scl && scl then
      if m.sda == sda then m else Monitor(true, sda, false, m.events + [if sda then Stop else Start])
    else if scl then Monitor(true, sda, true, if m.sda == sda then m.events else m.events + [Glitch])
    else if m.scl && m.clean then Monitor(false, sda, false, m.events + [Bit(m.sda)])
    else Monitor(false, sda, false, m.events)
  }

  /** The monitor m after it has watched n clocks more. */
  function Watched(m: Monitor, r: Regs, o: Others, n: nat): Monitor {
    if n == 0 then m
    else
      var s := At(r, o, n - 1);
      Observe(Watched(m, r, o, n - 1), !s.sclOe, Line(s, o.pull(n - 1)))
  }

  // ---------------------------------------------------------------- what a monitor sees of a byte

  /** In every clock of each slot the line carries the slot's bit; nobody pulls SDA while SCL is up before the first slot
      of a START asked for again, nor when the STOP is to show. */
  ghost predicate Carries(job: Job, o: Others, bits: seq<bool>) {
    && |bits| == 9 && (job.stop ==> !o.pull(1 + Span(job)))
    && (job.opening.Again? ==> forall t :: 1 <= t <= job.p ==> !o.pull(t))
    && forall i, d :: First(job) <= i < End(job) && 0 <= d < job.p ==> SlotCarries(job, o, bits, i, d)
  }

  predicate SlotCarries(job: Job, o: Others, bits: seq<bool>, i: int, d: int)
    requires |bits| == 9
  {
    var g := SegmentNo(i);
    InSlot(g) && 0 <= g.slot <= 8 ==> bits[g.slot] == (Released(g, job) && !o.pull(ClockOf(job, i, d)))
  }

  /** SDA on the wire in segment g, while SCL is high or the slot lasts. */
  predicate SdaHigh(g: Segment, job: Job, bits: seq<bool>)
    requires |bits| == 9
  {
    if InSlot(g) then 0 <= g.slot <= 8 && bits[g.slot] else g.SStartA? && job.opening.Again?
  }

  /** The bits of the first k slots. */
  function Slots(bits: seq<bool>, k: nat): (s: seq<Event>)
    requires k <= 9 == |bits|
    ensures |s| == k
  {
    seq(k, j requires 0 <= j < k => Bit(bits[j]))
  }

  /** The monitor before a byte, the request's own clock watched: a free bus for a START, a low SCL otherwise. */
  predicate Before(m: Monitor, job: Job) {
    !m.clean && if job.opening.Fresh? then m.scl && m.sda else !m.scl
  }

  /** What the opening of a byte adds: a START; or, when START is asked for again, no START but the high period of a
      released SDA, which is a bit, and a glitch if SDA rises with SCL; or nothing. */
  function Opened(m: Monitor, job: Job): seq<Event> {
    match job.opening
    case Fresh => m.events + [Start]
    case Again => m.events + (if m.sda then [] else [Glitch]) + [Bit(true)]
    case Next => m.events
  }

  /** The monitor m, which began as m1, in segment g. In the second START segment SDA may move: SCL is low. */
  predicate Seen(m: Monitor, m1: Monitor, g: Segment, job: Job, bits: seq<bool>)
    requires Proper(g) && |bits| == 9
  {
    && m.scl == SclHigh(g) && (SclHigh(g) || InSlot(g) ==> m.sda == SdaHigh(g, job, bits))
    && (g.SStartA? ==> m.clean == job.opening.Again?) && (g.SHi? ==> m.clean)
    && (g.SStopA? || g.SStopB? ==> !m.sda)
    && (if g.SStartA? && job.opening.Again? then m.events + [Bit(true)] == Opened(m1, job)
        else m.events == Opened(m1, job) + Slots(bits, SlotsPast(g)))
  }

  /** The level of SDA is what Seen asks for where it matters. */
  predicate Shows(line: bool, g: Segment, job: Job, bits: seq<bool>)
    requires |bits| == 9
  {
    if g.SStartB? then job.opening.Fresh? ==> !line else line == SdaHigh(g, job, bits)
  }

  lemma SeenHolds(m: Monitor, m1: Monitor, g: Segment, job: Job, bits: seq<bool>, line: bool)
    requires Proper(g) && |bits| == 9 && Seen(m, m1, g, job, bits) && Shows(line, g, job, bits)
    ensures Seen(Observe(m, SclHigh(g), line), m1, g, job, bits)
  {
    hide Slots, Opened;
  }

  lemma SlotSeen(m: Monitor, m1: Monitor, j: int, job: Job, bits: seq<bool>, line: bool)
    requires |bits| == 9 && 0 <= j <= 8 && Seen(m, m1, SHi(j), job, bits) && Shows(line, Following(SHi(j)), job, bits)
    ensures Proper(Following(SHi(j)))
    ensures Seen(Observe(m, false, line), m1, Following(SHi(j)), job, bits)
  {
    hide Opened;
    assert Opened(m1, job) + Slots(bits, j + 1) == (Opened(m1, job) + Slots(bits, j)) + [Bit(bits[j])];
  }

  lemma SeenAdvances(m: Monitor, m1: Monitor, g: Segment, job: Job, bits: seq<bool>, line: bool)
    requires Proper(g) && |bits| == 9 && Seen(m, m1, g, job, bits) && g != SStopB
    requires Shows(line, Following(g), job, bits)
    ensures Proper(Following(g)) && Seen(Observe(m, SclHigh(Following(g)), line), m1, Following(g), job, bits)
  {
    if g.SHi? {
      SlotSeen(m, m1, g.slot, job, bits, line);
    } else if g.SStartA? {
      NoSlots(bits);
    }
    hide Slots, Opened;
  }

  lemma NoSlots(bits: seq<bool>)
    requires |bits| == 9
    ensures Slots(bits, 0) == []
  {
  }

  lemma OpeningSeen(m1: Monitor, job: Job, bits: seq<bool>, line: bool)
    requires |bits| == 9 && Before(m1, job) && Shows(line, SegmentNo(First(job)), job, bits)
    ensures Proper(SegmentNo(First(job)))
    ensures Seen(Observe(m1, SclHigh(SegmentNo(First(job))), line), m1, SegmentNo(First(job)), job, bits)
  {
    NoSlots(bits);
  }

  /** The levels on the wire in a segment. */
  lemma Levels(r: Regs, job: Job, o: Others, bits: seq<bool>, i: int, d: int)
    requires Requested(r, job) && Carries(job, o, bits) && First(job) <= i < End(job) && 0 <= d < job.p
    requires SteadyClock(o, ClockOf(job, i, d))
    ensures 0 < ClockOf(job, i, d)
    ensures var s, g := At(r, o, ClockOf(job, i, d)), SegmentNo(i);
            && Proper(g) && !s.sclOe == SclHigh(g)
            && Shows(Line(s, o.pull(ClockOf(job, i, d))), g, job, bits)
  {
    hide Tick, Cell, Requested, SegmentNo, Busy, Driving, Recorded, SclHigh, At;
    Reaches(r, job, o, i, d);
    UnflaggedDriven(At(r, o, ClockOf(job, i, d)), SegmentNo(i), job.p - 1 - d, job);
    assert SlotCarries(job, o, bits, i, d);
    if SegmentNo(i).SStartA? {
      FirstIsZero(i);
      CellNext(0, d, job.p);
      assert First(job) == 0 ==> ClockOf(job, i, d) == 1 + d;
    }
  }

  lemma FirstIsZero(i: int)
    requires 0 <= i < 22 && SegmentNo(i).SStartA?
    ensures i == 0
  {
  }

  lemma {:induction false} SeenAt(m: Monitor, r: Regs, job: Job, o: Others, bits: seq<bool>, i: int, d: int)
    requires Requested(r, job) && Carries(job, o, bits) && Before(Watched(m, r, o, 1), job)
    requires First(job) <= i < End(job) && 0 <= d < job.p && SteadyClock(o, ClockOf(job, i, d))
    ensures 0 < ClockOf(job, i, d) && Proper(SegmentNo(i)) && |bits| == 9
    ensures Seen(Watched(m, r, o, 1 + ClockOf(job, i, d)), Watched(m, r, o, 1), SegmentNo(i), job, bits)
    decreases i, d
  {
    hide Cell, SegmentNo, Requested, Carries, Seen, At, Line, SclHigh, SdaHigh, Observe, Following, Shows, Before;
    var p, f := job.p, First(job);
    BitCount(job, o, bits);
    Levels(r, job, o, bits, i, d);
    SegmentIndex(i);
    var m1, line := Watched(m, r, o, 1), Line(At(r, o, ClockOf(job, i, d)), o.pull(ClockOf(job, i, d)));
    if d > 0 {
      CellNext(i - f, d - 1, p);
      SeenAt(m, r, job, o, bits, i, d - 1);
      SeenHolds(Watched(m, r, o, ClockOf(job, i, d)), m1, SegmentNo(i), job, bits, line);
    } else if i > f {
      CellNext(i - 1 - f, p - 1, p);
      SeenAt(m, r, job, o, bits, i - 1, p - 1);
      SegmentIndex(i - 1);
      SeenAdvances(Watched(m, r, o, ClockOf(job, i, 0)), m1, SegmentNo(i - 1), job, bits, line);
    } else {
      CellNext(0, 0, p);
      OpeningSeen(m1, job, bits, line);
    }
  }

  lemma BitCount(job: Job, o: Others, bits: seq<bool>)
    requires Carries(job, o, bits)
    ensures |bits| == 9
  {
  }

  /** What the nine slots and the ending of a byte add to the record. */
  function Frame(job: Job, bits: seq<bool>): seq<Event>
    requires |bits| == 9
  {
    [Bit(bits[0]), Bit(bits[1]), Bit(bits[2]), Bit(bits[3]), Bit(bits[4]), Bit(bits[5]), Bit(bits[6]), Bit(bits[7]),
     Bit(bits[8])] + if job.stop then [Stop] else []
  }

  lemma FrameIs(job: Job, bits: seq<bool>)
    requires |bits| == 9
    ensures Slots(bits, 9) + (if job.stop then [Stop] else []) == Frame(job, bits)
  {
  }

  lemma LastSeen(m: Monitor, m1: Monitor, job: Job, bits: seq<bool>, line: bool)
    requires |bits| == 9 && Seen(m, m1, if job.stop then SStopB else SHi(8), job, bits) && (job.stop ==> line)
    ensures var m2 := Observe(m, job.stop, line);
            m2.events == Opened(m1, job) + Frame(job, bits) && m2.scl == job.stop && !m2.clean && (job.stop ==> m2.sda)
  {
    FrameIs(job, bits);
    hide Opened, Frame;
    var e := Opened(m1, job);
    if job.stop {
      assert e + Slots(bits, 9) + [Stop] == e + (Slots(bits, 9) + [Stop]);
    } else {
      assert Slots(bits, 9) == Slots(bits, 8) + [Bit(bits[8])];
      assert e + Slots(bits, 8) + [Bit(bits[8])] == e + (Slots(bits, 8) + [Bit(bits[8])]);
    }
  }

  /** Whatever the controller and the others put on the wire between them, as long as every slot is steady: a monitor
      sees the opening, the nine slots in order, and a STOP if and only if one was asked for; SDA never moves otherwise
      while SCL is high or rises. Without STOP the record ends with SCL low. */
  lemma FrameSeen(m: Monitor, r: Regs, job: Job, o: Others, bits: seq<bool>)
    requires Requested(r, job) && Carries(job, o, bits) && Before(Watched(m, r, o, 1), job)
    requires SteadyClock(o, 1 + Span(job))
    ensures |bits| == 9 && 0 <= Span(job)
    ensures var m2 := Watched(m, r, o, 2 + Span(job));
            && m2.events == Opened(Watched(m, r, o, 1), job) + Frame(job, bits)
            && m2.scl == job.stop && !m2.clean && (job.stop ==> m2.sda)
  {
    hide Requested, Seen, At, Observe, Frame, Slots, SegmentNo, Cell, Before, Opened, SlotCarries;
    StartsPositive(r, job);
    Finishes(r, job, o);
    var i := End(job) - 1;
    CellNext(i - First(job), job.p - 1, job.p);
    SegmentIndex(i);
    SeenAt(m, r, job, o, bits, i, job.p - 1);
    LastSeen(Watched(m, r, o, 1 + Span(job)), Watched(m, r, o, 1), job, bits,
             Line(At(r, o, 1 + Span(job)), o.pull(1 + Span(job))));
  }

  // ---------------------------------------------------------------- one byte with a well-behaved slave

  /** The wire in a write that only the acknowledging slave shares. */
  function WriteBits(data: Bits8, ack: bool): (bits: seq<bool>)
    ensures |bits| == 9
  {
    seq(9, j requires 0 <= j < 9 => if j < 8 then data[7 - j] else !ack)
  }

  /** Clock t falls in slot 8. */
  predicate NinthSlot(job: Job, t: int) {
    Cell(18 - First(job), 0, job.p) < t <= Cell(20 - First(job), 0, job.p)
  }

  lemma WriteCarries(job: Job, o: Others, ack: bool)
    requires job.p >= 1 && !job.read && forall t :: 0 < t <= 1 + Span(job) ==> (o.pull(t) <==> ack && NinthSlot(job, t))
    ensures Carries(job, o, WriteBits(job.data, ack))
  {
    hide Cell, SegmentNo, SlotCarries, WriteBits, NinthSlot, ClockOf;
    var bits := WriteBits(job.data, ack);
    forall i, d | First(job) <= i < End(job) && 0 <= d < job.p
      ensures SlotCarries(job, o, bits, i, d)
    {
      SlotClocks(job, i, d);
      WriteSlot(job, o, ack, i, d);
    }
    forall t | 1 <= t <= job.p && job.opening.Again?
      ensures !o.pull(t)
    {
      SlotClocks(job, 0, t - 1);
      OpeningClock(job, t - 1);
    }
    AfterNinth(job);
    SpanPositive(job);
  }

  lemma OpeningClock(job: Job, d: int)
    requires job.opening.Again?
    ensures ClockOf(job, 0, d) == 1 + d
  {
  }

  lemma AfterNinth(job: Job)
    requires job.p >= 1
    ensures job.stop ==> !NinthSlot(job, 1 + Span(job))
  {
    CellUpTo(20 - First(job), End(job) - First(job), job.p);
  }

  lemma SlotClocks(job: Job, i: int, d: int)
    requires First(job) <= i < End(job) && 0 <= d < job.p
    ensures 0 < ClockOf(job, i, d) <= Span(job)
    ensures NinthSlot(job, ClockOf(job, i, d)) <==> i == 18 || i == 19
  {
    hide Cell;
    var f, p := First(job), job.p;
    CellBound(i - f, d, End(job) - f, p);
    CellFrom(i - f, d, p);
    CellNext(i - f, p - 1, p);
    CellFrom(i - f, p - 1, p);
    if i < 18 {
      CellUpTo(i + 1 - f, 18 - f, p);
    } else {
      CellUpTo(18 - f, i - f, p);
    }
    if i < 20 {
      CellUpTo(i + 1 - f, 20 - f, p);
    } else {
      CellUpTo(20 - f, i - f, p);
    }
  }

  lemma WriteSlot(job: Job, o: Others, ack: bool, i: int, d: int)
    requires !job.read && First(job) <= i < End(job) && 0 < ClockOf(job, i, d) <= Span(job)
    requires NinthSlot(job, ClockOf(job, i, d)) <==> i == 18 || i == 19
    requires forall t :: 0 < t <= 1 + Span(job) ==> (o.pull(t) <==> ack && NinthSlot(job, t))
    ensures SlotCarries(job, o, WriteBits(job.data, ack), i, d)
  {
    hide Cell, SegmentNo, NinthSlot, ClockOf, Span;
    SegmentIndex(i);
  }

  /** A write that only the acknowledging slave shares: busy in exactly the 22, 20 or 18 periods; after them the bus has
      carried the opening, the byte most significant bit first, the acknowledge slot, and STOP if and only if asked for;
      the acknowledgement is reported and no arbitration lost. */
  lemma WriteTransfer(m: Monitor, r: Regs, job: Job, o: Others, ack: bool)
    requires Requested(r, job) && !job.read && SteadyClock(o, 1 + Span(job)) && Before(Watched(m, r, o, 1), job)
    requires forall t :: 0 < t <= 1 + Span(job) ==> (o.pull(t) <==> ack && NinthSlot(job, t))
    ensures 0 <= Span(job)
    ensures forall n: nat :: n <= 1 + Span(job) ==>
              (Busy(At(r, o, n)) <==> 1 <= n <= Span(job)) && At(r, o, n).arbLost == r.arbLost
    ensures At(r, o, 1 + Span(job)).ackRecv == ack
    ensures Watched(m, r, o, 2 + Span(job)).events ==
            Opened(Watched(m, r, o, 1), job) + Frame(job, WriteBits(job.data, ack))
  {
    hide Requested, At, Watched, Carries, Frame, WriteBits, Busy, Recorded, Within, Released, SclHigh, NinthSlot, Span,
         Contested, Pulled, Before, Opened, SampleClock;
    StartsPositive(r, job);
    SpanPositive(job);
    WriteCarries(job, o, ack);
    Uncontested(job, o, ack);
    forall n: nat | n <= 1 + Span(job)
      ensures (Busy(At(r, o, n)) <==> 1 <= n <= Span(job)) && At(r, o, n).arbLost == r.arbLost
    {
      Waveform(r, job, o, n);
      WriteRecords(r, job, o, n);
    }
    WriteRecords(r, job, o, 1 + Span(job));
    FrameSeen(m, r, job, o, WriteBits(job.data, ack));
  }

  lemma Uncontested(job: Job, o: Others, ack: bool)
    requires job.p >= 1 && forall t :: 0 < t <= 1 + Span(job) ==> (o.pull(t) <==> ack && NinthSlot(job, t))
    ensures forall j :: !Contested(o, job, j)
    ensures Pulled(o, job, 8) == ack
  {
    hide Cell, Span;
    SamplesInside(job, 8);
    var f, p := First(job), job.p;
    CellUpTo(18 - f, 20 - f, p);
    CellUpTo(19 - f, 20 - f, p);
    CellNext(18 - f, p - 1, p);
    CellFrom(18 - f, p - 1, p);
    forall j
      ensures !Contested(o, job, j)
    {
      if 0 <= j < 8 {
        SamplesInside(job, j);
        CellUpTo(4 + 2 * j - f, 18 - f, p);
      }
    }
  }

  /** A read of a byte a slave sends steadily: the byte is in RX_DATA, and the bus has carried the opening, the byte, the
      controller's acknowledge bit, and STOP if and only if asked for. */
  lemma ReadTransfer(m: Monitor, r: Regs, job: Job, o: Others, bits: seq<bool>)
    requires Requested(r, job) && job.read && Carries(job, o, bits) && SteadyClock(o, 1 + Span(job))
    requires Before(Watched(m, r, o, 1), job)
    ensures |bits| == 9 && 0 <= Span(job)
    ensures forall j :: 0 <= j < 8 ==> At(r, o, 1 + Span(job)).rxData[7 - j] == bits[j]
    ensures Watched(m, r, o, 2 + Span(job)).events == Opened(Watched(m, r, o, 1), job) + Frame(job, bits)
    ensures job.ackEn ==> !bits[8]
  {
    hide Requested, At, Watched, Frame, Busy, Recorded, Within, SclHigh, SlotCarries, Cell, Pulled, Before, Opened, Span;
    StartsPositive(r, job);
    SpanPositive(job);
    ReadRecords(r, job, o);
    forall j | 0 <= j <= 8
      ensures bits[j] == ((j < 8 || !job.ackEn) && !Pulled(o, job, j))
    {
      SampleIsCarried(job, o, bits, j);
    }
    FrameSeen(m, r, job, o, bits);
  }

  lemma SampleIsCarried(job: Job, o: Others, bits: seq<bool>, j: int)
    requires job.p >= 1 && job.read && Carries(job, o, bits) && 0 <= j <= 8
    ensures bits[j] == ((j < 8 || !job.ackEn) && !Pulled(o, job, j))
  {
    hide Cell, SegmentNo, Span;
    CellNext(3 + 2 * j - First(job), job.p - 1, job.p);
    SegmentOfSlot(j);
    assert SlotCarries(job, o, bits, 3 + 2 * j, job.p - 1);
  }

  lemma SegmentOfSlot(j: int)
    requires 0 <= j <= 8
    ensures SegmentNo(3 + 2 * j) == SHi(j)
  {
  }

  /** The wire in a read of byte x. */
  function ReadBits(x: Bits8, ackEn: bool): (bits: seq<bool>)
    ensures |bits| == 9
  {
    seq(9, j requires 0 <= j < 9 => if j < 8 then x[7 - j] else !ackEn)
  }

  /** A slave that pulls SDA in the slots of the zeros of x. */
  predicate Sends(x: Bits8, job: Job, t: int)
    requires job.p >= 1
  {
    var g := Within(job, t);
    1 <= t <= Span(job) && InSlot(g) && 0 <= g.slot < 8 && !x[7 - g.slot]
  }

  lemma SendCarries(job: Job, o: Others, x: Bits8)
    requires job.p >= 1 && job.read && forall t :: o.pull(t) <==> Sends(x, job, t)
    ensures Carries(job, o, ReadBits(x, job.ackEn))
  {
    hide Cell, SegmentNo, Span;
    forall i, d | First(job) <= i < End(job) && 0 <= d < job.p
      ensures SlotCarries(job, o, ReadBits(x, job.ackEn), i, d)
    {
      SentSlot(job, o, x, i, d);
    }
    forall t | 1 <= t <= job.p && job.opening.Again?
      ensures !o.pull(t)
    {
      CellNext(0, t - 1, job.p);
      CellDecode(0, t - 1, job.p);
      FirstSegment();
    }
  }

  lemma FirstSegment()
    ensures SegmentNo(0) == SStartA
  {
  }

  lemma SentSlot(job: Job, o: Others, x: Bits8, i: int, d: int)
    requires job.p >= 1 && job.read && (forall t :: o.pull(t) <==> Sends(x, job, t))
    requires First(job) <= i < End(job) && 0 <= d < job.p
    ensures SlotCarries(job, o, ReadBits(x, job.ackEn), i, d)
  {
    hide Cell, SegmentNo, NinthSlot;
    CellDecode(i - First(job), d, job.p);
    SlotClocks(job, i, d);
  }

  /** Whatever byte a slave sends is the byte received. */
  lemma ByteArrives(m: Monitor, r: Regs, job: Job, x: Bits8) returns (o: Others)
    requires Requested(r, job) && job.read && m.scl && m.sda && !m.clean && job.opening.Fresh?
    ensures job.p >= 1 && 0 <= Span(job) && forall t :: o.pull(t) <==> Sends(x, job, t)
    ensures At(r, o, 1 + Span(job)).rxData == x
    ensures Watched(m, r, o, 2 + Span(job)).events == m.events + [Start] + Frame(job, ReadBits(x, job.ackEn))
  {
    hide At, Carries, Frame, Span;
    StartsPositive(r, job);
    SpanPositive(job);
    o := Others(t => Sends(x, job, t), SILENT);
    SendCarries(job, o, x);
    StartFree(m, r, job, o);
    hide Requested, Sends, Watched;
    ReadTransfer(m, r, job, o, ReadBits(x, job.ackEn));
    var y := At(r, o, 1 + Span(job)).rxData;
    forall k | 0 <= k < 8
      ensures y[k] == x[k]
    {
      assert y[7 - (7 - k)] == ReadBits(x, job.ackEn)[7 - k];
    }
  }

  lemma StartFree(m: Monitor, r: Regs, job: Job, o: Others)
    requires Requested(r, job) && job.opening.Fresh? && m.scl && m.sda && !m.clean && !o.pull(0)
    ensures Watched(m, r, o, 1) == m && Before(m, job)
  {
    assert Watched(m, r, o, 0) == m && At(r, o, 0) == r;
  }

  // ---------------------------------------------------------------- messages

  lemma {:induction false} WatchedSplit(m: Monitor, r: Regs, o: Others, a: nat, b: nat)
    ensures Watched(m, r, o, a + b) == Watched(Watched(m, r, o, a), At(r, o, a), Later(o, a), b)
  {
    hide Tick, Observe, At;
    if b > 0 {
      WatchedSplit(m, r, o, a, b - 1);
      AtSplit(r, o, a, b - 1);
    }
  }

  /** While SCL is low a monitor sees nothing. */
  lemma {:induction false} NothingSeen(m: Monitor, r: Regs, o: Others, n: nat)
    requires r.state == WaitNext && r.sclOe && !m.scl && !m.clean && forall t :: 0 <= t < n ==> !At(r, o, t).pending
    ensures var m' := Watched(m, r, o, n); m'.events == m.events && !m'.scl && !m'.clean
  {
    hide At;
    if n > 0 {
      NothingSeen(m, r, o, n - 1);
      Waits(r, o, n - 1);
    }
  }

  /** No request is pending in the first n clocks. */
  predicate NoneAsked(r: Regs, o: Others, n: nat) {
    forall t: nat :: t < n ==> !At(r, o, t).pending
  }

  /** One byte of a message: what it is, what the wire carries in its nine slots, and the clocks the machine then waits. */
  datatype Part = Part(job: Job, bits: seq<bool>, gap: nat)

  /** From r on the message is sent: each byte is asked for as the one before has ended, at once or while the machine
      waits; STOP is asked for with the last at most. */
  ghost predicate Sent(r: Regs, o: Others, parts: seq<Part>)
    decreases |parts|
  {
    if parts == [] then true
    else
      var p := parts[0];
      && Requested(r, p.job) && SteadyClock(o, 1 + Span(p.job)) && Carries(p.job, o, p.bits)
      && (|parts| > 1 ==>
            && 0 <= Span(p.job) && !p.job.stop && parts[1].job.opening.Next?
            && NoneAsked(At(r, o, 1 + Span(p.job)), Later(o, 1 + Span(p.job)), p.gap)
            && Sent(At(r, o, 1 + Span(p.job) + p.gap), Later(o, 1 + Span(p.job) + p.gap), parts[1..]))
  }

  /** When the last byte of the message is over. */
  function Length(parts: seq<Part>): int {
    if parts == [] then 0
    else if |parts| == 1 then 1 + Span(parts[0].job)
    else 1 + Span(parts[0].job) + parts[0].gap + Length(parts[1..])
  }

  function Shown(parts: seq<Part>): seq<Event>
    requires forall i :: 0 <= i < |parts| ==> |parts[i].bits| == 9
  {
    if parts == [] then [] else Frame(parts[0].job, parts[0].bits) + Shown(parts[1..])
  }

  lemma {:induction false} SentLengths(r: Regs, o: Others, parts: seq<Part>)
    requires Sent(r, o, parts)
    ensures forall i :: 0 <= i < |parts| ==> |parts[i].bits| == 9
    ensures parts != [] ==> 0 < Length(parts)
    decreases |parts|
  {
    hide Requested, SteadyClock, Span, At;
    if parts != [] {
      StartsPositive(r, parts[0].job);
      SpanPositive(parts[0].job);
      if |parts| > 1 {
        var e := 1 + Span(parts[0].job) + parts[0].gap;
        SentLengths(At(r, o, e), Later(o, e), parts[1..]);
        forall i | 0 <= i < |parts|
          ensures |parts[i].bits| == 9
        {
          assert i > 0 ==> parts[i] == parts[1..][i - 1];
        }
      }
    }
  }

  /** A whole message, of any number of bytes, with any waits between them: a monitor sees the opening of the first, then
      for every byte its nine slots in order, and a STOP if and only if the last asked for it; nothing else. */
  lemma {:induction false} MessageSeen(m: Monitor, r: Regs, o: Others, parts: seq<Part>)
    requires parts != [] && Sent(r, o, parts) && Before(Watched(m, r, o, 1), parts[0].job)
    ensures 0 < Length(parts) && forall i :: 0 <= i < |parts| ==> |parts[i].bits| == 9
    ensures Watched(m, r, o, 1 + Length(parts)).events
         == Opened(Watched(m, r, o, 1), parts[0].job) + Shown(parts)
    decreases |parts|
  {
    hide Requested, SteadyClock, Span, At, Watched, Carries, Before, Opened, Frame, Later;
    SentLengths(r, o, parts);
    var p, rest := parts[0], parts[1..];
    StartsPositive(r, p.job);
    SpanPositive(p.job);
    FrameSeen(m, r, p.job, o, p.bits);
    var begun := Opened(Watched(m, r, o, 1), p.job);
    if |parts| == 1 {
      assert Shown(rest) == [] && Frame(p.job, p.bits) + [] == Frame(p.job, p.bits);
    } else {
      var e := 1 + Span(p.job) + p.gap;
      var q, o' := At(r, o, e), Later(o, e);
      var m' := Watched(m, r, o, e);
      GapSeen(m, r, p.job, o, p.gap);
      SentLengths(q, o', rest);
      WatchedSplit(m, r, o, e, 1);
      NextBefore(Watched(m', q, o', 1), rest[0].job);
      MessageSeen(m', q, o', rest);
      WatchedSplit(m, r, o, e, 1 + Length(rest));
      assert begun + Frame(p.job, p.bits) + Shown(rest) == begun + (Frame(p.job, p.bits) + Shown(rest));
    }
  }

  lemma NextBefore(m: Monitor, job: Job)
    requires job.opening.Next? && !m.scl && !m.clean
    ensures Before(m, job) && Opened(m, job) == m.events
  {
  }

  /** Between the bytes SCL is low and nothing is seen. */
  lemma GapSeen(m: Monitor, r: Regs, job: Job, o: Others, gap: nat)
    requires Requested(r, job) && !job.stop && SteadyClock(o, 1 + Span(job)) && 0 <= Span(job)
    requires !Watched(m, r, o, 2 + Span(job)).scl && !Watched(m, r, o, 2 + Span(job)).clean
    requires NoneAsked(At(r, o, 1 + Span(job)), Later(o, 1 + Span(job)), gap)
    ensures var m' := Watched(m, r, o, 2 + Span(job) + gap);
            m'.events == Watched(m, r, o, 2 + Span(job)).events && !m'.scl && !m'.clean
    decreases gap
  {
    hide Requested, SteadyClock, Span, At, Later, Ended;
    var e := 1 + Span(job);
    if gap > 0 {
      GapSeen(m, r, job, o, gap - 1);
      Finishes(r, job, o);
      var q := At(r, o, e);
      EndedWaits(r, q, job, o);
      Waits(q, Later(o, e), gap);
      AtSplit(r, o, e, gap);
      LowSeen(Watched(m, r, o, e + gap), At(r, o, e + gap), Line(At(r, o, e + gap), o.pull(e + gap)));
    }
  }

  lemma LowSeen(m: Monitor, s: Regs, line: bool)
    requires s.sclOe && !m.scl && !m.clean
    ensures var m' := Observe(m, !s.sclOe, line); m'.events == m.events && !m'.scl && !m'.clean
  {
  }

  /** What a START without STOP puts on the bus when the CPU writes nothing more: START, the byte in TX_DATA, the same
      byte again, and no STOP, however long one watches. */
  lemma TwiceOnBus(m: Monitor, r: Regs, job: Job, o: Others, bits: seq<bool>, bits': seq<bool>, n: nat)
    requires Requested(r, job) && job.opening.Fresh? && !job.stop && r.pending && !r.pendingClr
    requires (forall t :: o.cpu(t) == NoWrite) && Before(Watched(m, r, o, 1), job) && Carries(job, o, bits)
    requires Carries(job.(opening := Next), Later(o, 1 + Span(job)), bits')
    requires n > 2 + Span(job) + Span(job.(opening := Next))
    ensures |bits| == 9 && |bits'| == 9
    ensures Watched(m, r, o, n).events ==
            Watched(m, r, o, 1).events + [Start] + Frame(job, bits) + Frame(job.(opening := Next), bits')
  {
    hide Requested, Span, At, Watched, Carries, Before, Later, Frame, Stuck;
    var again, e := job.(opening := Next), 1 + Span(job);
    SentTwice(r, job, o);
    BitCount(job, o, bits);
    BitCount(again, Later(o, e), bits');
    FrameSeen(m, r, job, o, bits);
    var q, o', m' := At(r, o, e), Later(o, e), Watched(m, r, o, e);
    WatchedSplit(m, r, o, e, 1);
    NextBefore(Watched(m', q, o', 1), again);
    LaterSilent(o, e);
    FrameSeen(m', q, again, o', bits');
    var e' := e + 1 + Span(again);
    WatchedSplit(m, r, o, e, 2 + Span(again));
    AfterBoth(m, r, o, e' + 1, n);
    assert Watched(m, r, o, 1).events + [Start] + Frame(job, bits) + Frame(again, bits')
        == (Watched(m, r, o, 1).events + [Start] + Frame(job, bits)) + Frame(again, bits');
  }

  lemma {:induction false} AfterBoth(m: Monitor, r: Regs, o: Others, a: nat, n: nat)
    requires a <= n && !Watched(m, r, o, a).scl && !Watched(m, r, o, a).clean
    requires forall t: nat :: t >= a ==> Stuck(At(r, o, t))
    ensures var m' := Watched(m, r, o, n); m'.events == Watched(m, r, o, a).events && !m'.scl && !m'.clean
    decreases n
  {
    hide At;
    if a < n {
      AfterBoth(m, r, o, a, n - 1);
      assert Stuck(At(r, o, n - 1));
      LowSeen(Watched(m, r, o, n - 1), At(r, o, n - 1), Line(At(r, o, n - 1), o.pull(n - 1)));
    }
  }
}
