/** The I2C controller and the PIO receiver program on one bus, wired as in the repository's own system: what the
    controller sends, the program hands to the CPU, and the controller sees it acknowledged. */
module Loopback {
  import opened Words
  import opened Pio
  import opened PioNumbers
  import opened PioIsa
  import opened PioSlave
  import S = PioSm
  import I = I2c

  /** Whether the state machine pulls pin k low before clock t. */
  predicate Pulls(c: S.Config, vs: seq<S.Inputs>, q: S.Regs, t: nat, k: Int5)
    requires t <= |vs|
  {
    S.Run(c, vs[..t], q).pinsOe[k]
  }

  /** The lines between the two: each is high unless somebody pulls it low. The pins leave the PIO through a register, so
      what it pulls is seen on the wire a clock later. */
  predicate SdaWire(c: S.Config, vs: seq<S.Inputs>, q: S.Regs, r: I.Regs, o: I.Others, t: nat)
    requires t <= |vs|
  {
    !I.At(r, o, t).sdaOe && !(t > 0 && Pulls(c, vs, q, t - 1, 0))
  }

  predicate SclWire(c: S.Config, vs: seq<S.Inputs>, q: S.Regs, r: I.Regs, o: I.Others, t: nat)
    requires t <= |vs|
  {
    !I.At(r, o, t).sclOe && !(t > 0 && Pulls(c, vs, q, t - 1, 1))
  }

  /** The PIO sees the wires through two registers, two clocks late, idle at first; the controller sees SDA at once. */
  predicate Wired(c: S.Config, vs: seq<S.Inputs>, q: S.Regs, r: I.Regs, o: I.Others) {
    && (forall t :: 0 <= t < |vs| ==>
          && vs[t].pins[0] == (t < 2 || SdaWire(c, vs, q, r, o, t - 2))
          && vs[t].pins[1] == (t < 2 || SclWire(c, vs, q, r, o, t - 2)))
    && forall t :: 0 <= t <= |vs| + 1 ==> (o.pull(t) <==> t > 0 && Pulls(c, vs, q, t - 1, 0))
  }

  /** The receiver program runs at full speed, waiting for SDA to fall, nothing pulled and nothing forced on it; RX has
      room. */
  predicate Listens(c: S.Config, vs: seq<S.Inputs>, q: S.Regs) {
    && Tuned(c) && c.inBase == 0 && c.clkdiv <= 1 && Loaded(c, vs, View(q))
    && q.pc == 2 && S.FetchesOnly(q) && q.delay == 0 && q.div == 0 && !q.irqWait && !q.pinsOe[0] && !q.pinsOe[1]
    && forall t :: 0 <= t < |vs| ==> vs[t].enable && !vs[t].rxFull
  }

  /** A byte to be sent with a START, four clocks or more to a quarter. */
  predicate Sends(r: I.Regs, job: I.Job) {
    I.Requested(r, job) && job.opening.Fresh? && !job.read && job.p >= 4
  }

  // ---------------------------------------------------------------- every clock is an attempt

  lemma {:induction false} AllAttempts(c: S.Config, vs: seq<S.Inputs>, m: Machine)
    requires Tuned(c) && c.clkdiv <= 1 && Settled(m) && m.div == 0 && Loaded(c, vs, m)
    requires forall t :: 0 <= t < |vs| ==> vs[t].enable
    ensures Attempts(c, vs, m) == vs
    decreases |vs|
  {
    hide Settled, Line, Tuned;
    if vs != [] {
      var v := vs[0];
      ActsNow(v, m, Line(m.pc));
      AttemptFollows(c, v, m);
      assert Step(c, v, m).div == 0 by {
        FullSpeed(c, v, m);
      }
      hide Step, Acts;
      AllAttempts(c, vs[1..], Step(c, v, m));
    }
  }

  lemma ActsNow(v: S.Inputs, m: Machine, w: Int16)
    requires Settled(m) && m.div == 0 && v.enable && !v.restart && !v.forceExec && v.instr == w
    ensures Acts(v, m)
  {
  }

  lemma FullSpeed(c: S.Config, v: S.Inputs, m: Machine)
    requires c.clkdiv <= 1 && m.div == 0
    ensures Step(c, v, m).div == 0
  {
    hide Worked;
  }

  lemma {:induction false} LoadedSoFar(c: S.Config, vs: seq<S.Inputs>, m: Machine, k: nat)
    requires Loaded(c, vs, m) && k <= |vs|
    ensures Loaded(c, vs[..k], m)
    decreases k
  {
    hide Step, Line;
    if k > 0 {
      LoadedSoFar(c, vs[1..], Step(c, vs[0], m), k - 1);
      assert vs[..k][1..] == vs[1..][..k - 1] && vs[..k][0] == vs[0];
    } else {
      assert vs[..0] == [];
    }
  }

  function Start(c: S.Config, q: S.Regs): Receiver {
    ReceiverOf(c, View(q))
  }

  lemma Basics(c: S.Config, vs: seq<S.Inputs>, q: S.Regs)
    requires Listens(c, vs, q)
    ensures Tuned(c) && c.clkdiv <= 1 && Loaded(c, vs, View(q)) && Settled(View(q)) && View(q).div == 0
    ensures forall t :: 0 <= t < |vs| ==> vs[t].enable
    ensures c.setBase == 0
  {
    hide Value, Loaded;
    WordBelow(q.x);
  }

  lemma StartsAt(c: S.Config, vs: seq<S.Inputs>, q: S.Regs)
    requires Listens(c, vs, q)
    ensures Start(c, q) == Receiver(2, Value(q.x), Value(q.isr), false, false, false)
  {
    hide Value, Loaded;
  }

  /** What the program pulls is what the receiver pulls. */
  lemma PullsAre(c: S.Config, vs: seq<S.Inputs>, q: S.Regs, k: nat)
    requires Listens(c, vs, q) && k <= |vs|
    ensures var s := Follow(c, vs[..k], Start(c, q));
            Pulls(c, vs, q, k, 0) == s.sdaLow && Pulls(c, vs, q, k, 1) == s.sclLow
    ensures Pushes(Displays(c, vs[..k], q)) == AllGiven(c, vs[..k], Start(c, q))
  {
    Basics(c, vs, q);
    hide Value, Follow, AllGiven, Displays, S.Run, Loaded, Attempts, Listens, Settled, Tuned, Pushes, AllShown, Steps;
    var m := View(q);
    LoadedSoFar(c, vs, m, k);
    AllAttempts(c, vs[..k], m);
    RunFollows(c, vs[..k], m);
    EveryRunRefines(c, vs[..k], q);
    SameDrive(c, S.Run(c, vs[..k], q), Steps(c, vs[..k], m));
  }

  lemma SameDrive(c: S.Config, q: S.Regs, m: Machine)
    requires View(q) == m && c.setBase == 0
    ensures q.pinsOe[0] == ReceiverOf(c, m).sdaLow && q.pinsOe[1] == ReceiverOf(c, m).sclLow
  {
    hide Value;
  }

  lemma {:induction false} NeverStretches(c: S.Config, a: seq<S.Inputs>, s: Receiver)
    requires !s.sclLow
    ensures !Follow(c, a, s).sclLow
    decreases |a|
  {
    if a != [] {
      NeverStretches(c, a[1..], Next(c, a[0], s));
    }
  }

  // ---------------------------------------------------------------- when the program sees what

  /** The clock in which the program first sees segment i. */
  function From(i: int, p: int): int {
    3 + Cell(i, 0, p)
  }

  lemma FromNext(i: int, p: int)
    ensures From(i + 1, p) == From(i, p) + p
  {
  }

  lemma FromGrows(i: int, j: int, p: int)
    requires 0 <= i <= j && 0 <= p
    ensures From(i, p) <= From(j, p)
  {
    Monotone(i, j, p);
  }

  lemma SegmentSeen(job: I.Job, i: nat, t: int)
    requires job.opening.Fresh? && job.p >= 1 && i < 20 && From(i, job.p) <= t < From(i, job.p) + job.p
    ensures I.Within(job, t - 2) == I.SegmentNo(i) && 1 <= t - 2 <= I.Span(job)
  {
    hide I.Span, I.SegmentNo;
    DivMod(t - 3, t - From(i, job.p), job.p, i);
    SpanCovers(job, i);
    FromGrows(0, i, job.p);
  }

  lemma SpanCovers(job: I.Job, i: nat)
    requires job.opening.Fresh? && job.p >= 1 && i < 20
    ensures Cell(i, 0, job.p) + job.p <= I.Span(job)
  {
    Monotone(i + 1, I.End(job), job.p);
  }

  /** What the program sees in segment i: SCL as the controller drives it, and SDA too but where the program pulled it
      three clocks ago. */
  lemma Sees(c: S.Config, vs: seq<S.Inputs>, q: S.Regs, r: I.Regs, o: I.Others, job: I.Job, i: nat, t: nat)
    requires Listens(c, vs, q) && Wired(c, vs, q, r, o) && Sends(r, job) && I.SteadyClock(o, 1 + I.Span(job))
    requires i < 20 && From(i, job.p) <= t < From(i, job.p) + job.p && t < |vs|
    ensures t >= 3 && Scl(vs[t]) == I.SclHigh(I.SegmentNo(i))
    ensures Sda(c, vs[t]) == (I.Released(I.SegmentNo(i), job) && !Follow(c, vs[..t - 3], Start(c, q)).sdaLow)
  {
    hide From, I.At, I.SclHigh, I.Released, S.Run, Follow, I.SegmentNo, View, Loaded, I.Requested, I.Within, I.Span, Pulls,
         Wired, Listens, Start, I.SteadyClock;
    FromGrows(0, i, job.p);
    FirstSeen(job.p);
    SegmentSeen(job, i, t);
    Steady(o, 1 + I.Span(job), t - 2);
    I.Waveform(r, job, o, t - 2);
    PullsAre(c, vs, q, t - 3);
    NotStretched(c, vs, q, t - 3);
    Here(c, vs, q, r, o, t);
    SdaIsZero(c, vs, q);
  }

  lemma Steady(o: I.Others, n: int, k: int)
    requires I.SteadyClock(o, n) && k <= n
    ensures I.SteadyClock(o, k)
  {
  }

  lemma SdaIsZero(c: S.Config, vs: seq<S.Inputs>, q: S.Regs)
    requires Listens(c, vs, q)
    ensures c.inBase == 0
  {
    hide Loaded, View;
  }

  lemma FirstSeen(p: int)
    ensures From(0, p) == 3
  {
  }

  lemma Here(c: S.Config, vs: seq<S.Inputs>, q: S.Regs, r: I.Regs, o: I.Others, t: nat)
    requires Wired(c, vs, q, r, o) && 3 <= t < |vs|
    ensures vs[t].pins[0] == (!I.At(r, o, t - 2).sdaOe && !Pulls(c, vs, q, t - 3, 0))
    ensures vs[t].pins[1] == (!I.At(r, o, t - 2).sclOe && !Pulls(c, vs, q, t - 3, 1))
  {
    hide I.At, S.Run;
  }

  lemma NotStretched(c: S.Config, vs: seq<S.Inputs>, q: S.Regs, k: nat)
    requires Listens(c, vs, q) && k <= |vs|
    ensures !Pulls(c, vs, q, k, 1)
  {
    hide Value, Follow, S.Run, Loaded, Listens, Start, Pulls;
    StartsAt(c, vs, q);
    PullsAre(c, vs, q, k);
    NeverStretches(c, vs[..k], Start(c, q));
  }

  /** Before the START is seen the lines are high. */
  lemma IdleSeen(c: S.Config, vs: seq<S.Inputs>, q: S.Regs, r: I.Regs, o: I.Others, job: I.Job, t: nat)
    requires Wired(c, vs, q, r, o) && Sends(r, job) && t < 3 && t < |vs|
    ensures Scl(vs[t]) && vs[t].pins[0]
  {
    hide S.Run;
    if t == 2 {
      assert vs[2].pins[0] == SdaWire(c, vs, q, r, o, 0);
      assert vs[2].pins[1] == SclWire(c, vs, q, r, o, 0);
    }
  }

  // ---------------------------------------------------------------- slots

  /** The two on one bus, for as long as it takes to sample the ninth slot. */
  datatype Bench = Bench(c: S.Config, vs: seq<S.Inputs>, q: S.Regs, r: I.Regs, o: I.Others, job: I.Job)

  ghost predicate Joined(b: Bench) {
    && Listens(b.c, b.vs, b.q) && Wired(b.c, b.vs, b.q, b.r, b.o) && Sends(b.r, b.job)
    && I.SteadyClock(b.o, 1 + I.Span(b.job)) && |b.vs| == Cell(20, 0, b.job.p) - 1
  }

  lemma Sizes(b: Bench)
    requires Joined(b)
    ensures b.job.p >= 4 && From(0, b.job.p) == 3 && From(19, b.job.p) + b.job.p == |b.vs| + 4
  {
    hide Listens, Wired, I.SteadyClock, I.Requested, I.Span;
  }

  /** The attempts that see segments i .. j - 1. */
  function Part(b: Bench, i: int, j: int): seq<S.Inputs> {
    Slice(b.vs, From(i, b.job.p), From(j, b.job.p))
  }

  function Slice(s: seq<S.Inputs>, lo: int, hi: int): seq<S.Inputs> {
    if 0 <= lo <= hi <= |s| then s[lo..hi] else []
  }

  lemma PartIs(b: Bench, i: int, j: int)
    requires Joined(b) && 0 <= i <= j <= 19
    ensures 3 <= From(i, b.job.p) <= From(j, b.job.p) <= |b.vs|
    ensures Part(b, i, j) == b.vs[From(i, b.job.p)..From(j, b.job.p)]
  {
    hide Joined, From;
    Sizes(b);
    FromGrows(0, i, b.job.p);
    FromGrows(i, j, b.job.p);
    FromGrows(j, 19, b.job.p);
  }

  lemma PartsJoin(b: Bench, i: int, j: int, k: int)
    requires Joined(b) && 0 <= i <= j <= k <= 19
    ensures Part(b, i, k) == Part(b, i, j) + Part(b, j, k)
  {
    hide Joined, From, Part;
    PartIs(b, i, j);
    PartIs(b, j, k);
    PartIs(b, i, k);
  }

  lemma SclSeen(b: Bench, i: nat, t: nat)
    requires Joined(b) && i < 20 && From(i, b.job.p) <= t < From(i, b.job.p) + b.job.p && t < |b.vs|
    ensures Scl(b.vs[t]) == I.SclHigh(I.SegmentNo(i))
  {
    hide From, Listens, Wired, Sends, I.SclHigh, I.SegmentNo, Follow, Start, Scl, Sda;
    Sees(b.c, b.vs, b.q, b.r, b.o, b.job, i, t);
  }

  lemma Segment(b: Bench, i: nat)
    requires Joined(b) && i < 19
    ensures |Part(b, i, i + 1)| == b.job.p >= 4
    ensures if I.SclHigh(I.SegmentNo(i)) then SclHigh(Part(b, i, i + 1)) else SclLow(Part(b, i, i + 1))
  {
    hide Joined, From, Part, I.SclHigh, I.SegmentNo, Scl;
    Sizes(b);
    PartIs(b, i, i + 1);
    FromNext(i, b.job.p);
    var a, lo := Part(b, i, i + 1), From(i, b.job.p);
    forall t | 0 <= t < |a|
      ensures Scl(a[t]) == I.SclHigh(I.SegmentNo(i))
    {
      SclSeen(b, i, lo + t);
      assert a[t] == b.vs[lo + t];
    }
  }

  /** SCL low before slot j: from the second half of the START for slot 0. */
  function LowFrom(j: nat): nat {
    if j == 0 then 1 else 2 + 2 * j
  }

  function SlotOf(b: Bench, j: nat): Slot {
    Slot(Part(b, LowFrom(j), 3 + 2 * j), Part(b, 3 + 2 * j, 4 + 2 * j))
  }

  lemma Levels(j: nat)
    requires j <= 8
    ensures I.SegmentNo(2 + 2 * j) == I.SLo(j) && I.SegmentNo(3 + 2 * j) == I.SHi(j) && I.SegmentNo(1) == I.SStartB
  {
  }

  lemma SlotSeen(b: Bench, j: nat)
    requires Joined(b) && j <= 7
    ensures Seen(SlotOf(b, j)) && |SlotOf(b, j).high| == b.job.p >= 4
  {
    hide Joined, Part, I.SegmentNo, Scl;
    Levels(j);
    Segment(b, 2 + 2 * j);
    Segment(b, 3 + 2 * j);
    if j == 0 {
      Segment(b, 1);
      PartsJoin(b, 1, 2, 3);
    }
  }

  function Slots(b: Bench, k: nat): seq<Slot>
    decreases 8 - k
  {
    if k >= 8 then [] else [SlotOf(b, k)] + Slots(b, k + 1)
  }

  lemma {:induction false} SlotsSeen(b: Bench, k: nat)
    requires Joined(b) && k <= 8
    ensures |Slots(b, k)| == 8 - k && AllSeen(Slots(b, k))
    decreases 8 - k
  {
    hide Joined, SlotOf, Seen;
    if k < 8 {
      SlotsSeen(b, k + 1);
      SlotSeen(b, k);
    }
  }

  lemma LastOf(b: Bench)
    requires Joined(b)
    ensures |Slots(b, 0)| == 8 && Slots(b, 0)[7] == SlotOf(b, 7)
  {
    hide Joined, SlotOf;
    assert Slots(b, 0)[4..] == Slots(b, 4);
  }

  lemma {:induction false} ViewsAre(b: Bench, k: nat)
    requires Joined(b) && k <= 8
    ensures Views(Slots(b, k)) == Part(b, LowFrom(k), 18)
    decreases 8 - k
  {
    hide Joined, Part;
    if k < 8 {
      ViewsAre(b, k + 1);
      var all := Slots(b, k);
      assert all[1..] == Slots(b, k + 1) && all[0] == SlotOf(b, k);
      PartsJoin(b, LowFrom(k), 3 + 2 * k, 4 + 2 * k);
      PartsJoin(b, LowFrom(k), 4 + 2 * k, 18);
    } else {
      NoPart(b);
    }
  }

  lemma NoPart(b: Bench)
    ensures Part(b, 18, 18) == []
  {
  }

  // ---------------------------------------------------------------- the byte across

  function Waiting(b: Bench): Receiver {
    Start(b.c, b.q).(at := 6, left := 7)
  }

  /** The attempts before segment i is seen. */
  function Before(b: Bench, i: int): seq<S.Inputs> {
    Slice(b.vs, 0, From(i, b.job.p))
  }

  lemma BeforeIs(b: Bench, i: int)
    requires Joined(b) && 0 <= i <= 19
    ensures 3 <= From(i, b.job.p) <= |b.vs| && Before(b, i) == b.vs[..From(i, b.job.p)]
  {
    hide Joined, From;
    PartIs(b, i, i);
  }

  lemma BeforeJoin(b: Bench, i: int, j: int)
    requires Joined(b) && 0 <= i <= j <= 19
    ensures Before(b, j) == Before(b, i) + Part(b, i, j)
  {
    hide Joined, From, Before, Part;
    BeforeIs(b, i);
    BeforeIs(b, j);
    PartIs(b, i, j);
  }

  lemma StartsThere(b: Bench)
    requires Joined(b)
    ensures Start(b.c, b.q) == Receiver(2, Value(b.q.x), Value(b.q.isr), false, false, false)
  {
    hide Listens, Wired, Sends, I.SteadyClock, Start, Value;
    StartsAt(b.c, b.vs, b.q);
  }

  lemma IdleSda(b: Bench, t: nat)
    requires Joined(b) && t < 3 && t < |b.vs|
    ensures Sda(b.c, b.vs[t])
  {
    hide Listens, Wired, Sends, I.SteadyClock;
    IdleSeen(b.c, b.vs, b.q, b.r, b.o, b.job, t);
    SdaIsZero(b.c, b.vs, b.q);
  }

  lemma IdleAcross(b: Bench)
    requires Joined(b)
    ensures Goes(b.c, Before(b, 0), Start(b.c, b.q), Start(b.c, b.q))
  {
    hide Joined, Start, Goes, Sda, From, Before;
    Sizes(b);
    BeforeIs(b, 0);
    StartsThere(b);
    var a := Before(b, 0);
    forall t | 0 <= t < |a|
      ensures Sda(b.c, a[t])
    {
      IdleSda(b, t);
    }
    AwaitsFall(b.c, a, Start(b.c, b.q));
  }

  lemma FirstLow(b: Bench)
    requires Joined(b)
    ensures |b.vs| > 3 && !Sda(b.c, b.vs[3])
  {
    hide From, Start, Follow, Wired, Listens, Sda, I.SteadyClock, I.Requested;
    Sizes(b);
    BeforeIs(b, 19);
    FromGrows(1, 19, b.job.p);
    FromNext(0, b.job.p);
    Sees(b.c, b.vs, b.q, b.r, b.o, b.job, 0, 3);
  }

  /** The START is taken. */
  lemma StartAcross(b: Bench)
    requires Joined(b)
    ensures Goes(b.c, Before(b, 1), Start(b.c, b.q), Waiting(b))
  {
    hide Joined, From, Start, Goes, SclHigh, SclLow, Sda, Before, Part;
    var s, hold := Start(b.c, b.q), Part(b, 0, 1);
    Sizes(b);
    StartsThere(b);
    IdleAcross(b);
    Segment(b, 0);
    FirstLow(b);
    PartIs(b, 0, 1);
    assert hold[0] == b.vs[3];
    StartHeld(b.c, hold, s);
    BeforeJoin(b, 0, 1);
    GoesOn(b.c, Before(b, 0), hold, s, s, Waiting(b));
  }

  lemma RoomThere(b: Bench, t: nat)
    requires Joined(b) && t < |b.vs|
    ensures !b.vs[t].rxFull
  {
    hide Wired, Sends, Loaded, View, I.SteadyClock, Tuned;
  }

  lemma Offered(b: Bench)
    requires Joined(b)
    ensures var a := SlotOf(b, 7).high + Part(b, 18, 19); |a| >= 6 && !a[3].rxFull
  {
    hide Joined, From, Part;
    Sizes(b);
    PartsJoin(b, 17, 18, 19);
    PartIs(b, 17, 19);
    FromNext(17, b.job.p);
    FromNext(18, b.job.p);
    RoomThere(b, From(17, b.job.p) + 3);
  }

  /** What the receiver makes of the eight slots and of the low half of the ninth. */
  lemma ByteAcross(b: Bench)
    requires Joined(b)
    ensures AllSeen(Slots(b, 0))
    ensures var a, s6, word := Part(b, 1, 19), Waiting(b), Collect(b.c, Waiting(b).isr, Slots(b, 0));
            && Follow(b.c, a, s6) ==
               s6.(at := 13, left := 0xFFFF_FFFF, isr := 0, sdaLow := true, sclLow := false)
            && AllGiven(b.c, a, s6) == [word]
            && Keeps(b.c, Part(b, 1, 18), s6, s6.sdaLow)
  {
    hide Joined, From, Start, Follow, AllGiven, Keeps, Collect, Seen, SclLow, SclHigh, Part, Slots, SlotOf, Views;
    SlotsSeen(b, 0);
    LastOf(b);
    ViewsAre(b, 0);
    LastLow(b);
    Offered(b);
    PartsJoin(b, 1, 18, 19);
    ByteTaken(b.c, Slots(b, 0), Part(b, 18, 19), Waiting(b));
  }

  lemma LastLow(b: Bench)
    requires Joined(b)
    ensures SclLow(Part(b, 18, 19)) && |Part(b, 18, 19)| >= 4
  {
    hide Joined, Part, I.SegmentNo, SclLow;
    Levels(8);
    Segment(b, 18);
  }

  /** While the eight slots last, the receiver leaves SDA alone. */
  lemma FreeDuring(b: Bench, t: nat)
    requires Joined(b) && From(1, b.job.p) <= t < From(18, b.job.p)
    ensures t <= |b.vs| && !Follow(b.c, b.vs[..t], Start(b.c, b.q)).sdaLow
  {
    hide Joined, From, Start, Follow, AllGiven, Keeps, Collect, Goes, Slots, Part, Before;
    var first, eight := Before(b, 1), Part(b, 1, 18);
    var k := t - From(1, b.job.p);
    StartsThere(b);
    StartAcross(b);
    ByteAcross(b);
    PartIs(b, 1, 18);
    BeforeIs(b, 1);
    Unfolded(b.c, first, Start(b.c, b.q), Waiting(b));
    KeepsAt(b.c, eight, Waiting(b), false, k);
    assert b.vs[..t] == first + eight[..k];
    FollowSplit(b.c, first, eight[..k], Start(b.c, b.q));
  }

  lemma SdaSeen(b: Bench, i: nat, t: nat)
    requires Joined(b) && i < 20 && From(i, b.job.p) <= t < From(i, b.job.p) + b.job.p && t < |b.vs|
    ensures t >= 3
    ensures Sda(b.c, b.vs[t]) == (I.Released(I.SegmentNo(i), b.job) && !Follow(b.c, b.vs[..t - 3], Start(b.c, b.q)).sdaLow)
  {
    hide From, Listens, Wired, Sends, I.Released, I.SegmentNo, Follow, Start, Scl, Sda, I.SclHigh;
    Sees(b.c, b.vs, b.q, b.r, b.o, b.job, i, t);
  }

  lemma Released(b: Bench, j: nat)
    requires Joined(b) && j <= 7
    ensures I.Released(I.SegmentNo(3 + 2 * j), b.job) == b.job.data[7 - j]
  {
    hide Listens, Wired, I.Requested, I.SteadyClock, I.Span, I.SegmentNo;
    Levels(j);
  }

  /** The bit of slot j is the controller's. */
  lemma BitAcross(b: Bench, j: nat)
    requires Joined(b) && j <= 7
    ensures Seen(SlotOf(b, j)) && BitOf(b.c, SlotOf(b, j)) == b.job.data[7 - j]
  {
    hide Joined, From, Start, Follow, Sda, Part, I.Released, I.SegmentNo, Scl;
    var i, p := 3 + 2 * j, b.job.p;
    var t := From(i, p) + 1;
    SlotSeen(b, j);
    FromNext(i, p);
    FromNext(i - 1, p);
    FromGrows(1, i - 1, p);
    FromGrows(i, 17, p);
    FromNext(17, p);
    PartIs(b, 1, i);
    FreeDuring(b, t - 3);
    PartIs(b, i, i + 1);
    SdaSeen(b, i, t);
    Released(b, j);
    assert SlotOf(b, j).high[1] == b.vs[t];
  }

  lemma ByteStep(w: Bits8, n: nat)
    requires n < 8
    ensures Value(w[..n + 1]) == Value(w[..n]) + if w[n] then P(n) else 0
  {
    hide Value;
    assert w[..n + 1] == w[..n] + [w[n]];
    OneMoreBit(w[..n], w[n]);
    PowerIs(n);
  }

  lemma SpelledStep(c: S.Config, first: Slot, rest: seq<Slot>)
    requires Seen(first) && AllSeen(rest)
    ensures Spelled(c, [first] + rest) == (if BitOf(c, first) then P(|rest|) else 0) + Spelled(c, rest)
  {
    hide Seen, BitOf, P;
    var all := [first] + rest;
    assert all[0] == first && all[1..] == rest;
  }

  /** The bits of the slots spell the byte. */
  lemma {:induction false} SpellsByte(b: Bench, k: nat)
    requires Joined(b) && k <= 8
    ensures AllSeen(Slots(b, k))
    ensures Spelled(b.c, Slots(b, k)) == Value(b.job.data[..8 - k])
    decreases 8 - k
  {
    hide Joined, SlotOf, P, BitOf, Seen, Spelled, Value;
    SlotsSeen(b, k);
    if k < 8 {
      SlotsSeen(b, k + 1);
      SpellsByte(b, k + 1);
      BitAcross(b, k);
      SpelledStep(b.c, SlotOf(b, k), Slots(b, k + 1));
      ByteStep(b.job.data, 7 - k);
    } else {
      NothingSpelled(b);
    }
  }

  lemma NothingSpelled(b: Bench)
    ensures Spelled(b.c, Slots(b, 8)) == 0 == Value(b.job.data[..0])
  {
  }

  lemma WordAcross(b: Bench)
    requires Joined(b)
    ensures AllSeen(Slots(b, 0))
    ensures Collect(b.c, Value(b.q.isr), Slots(b, 0)) == (Value(b.q.isr) * 256 + Value(b.job.data)) % 0x1_0000_0000
  {
    hide Joined, Slots, Collect, Spelled, Value, Seen;
    SpellsByte(b, 0);
    SlotsSeen(b, 0);
    assert b.job.data[..8] == b.job.data;
    WordBelow(b.q.isr);
    WordIs(b.c, Value(b.q.isr), Slots(b, 0));
  }

  /** The rest of the run: SDA stays low. */
  lemma AckAcross(b: Bench, s: Receiver)
    requires Joined(b) && s.at == 13 && s.sdaLow
    ensures From(19, b.job.p) <= |b.vs| && 0 <= From(19, b.job.p)
    ensures var a := b.vs[From(19, b.job.p)..]; Follow(b.c, a, s).sdaLow && AllGiven(b.c, a, s) == []
  {
    hide Joined, From, Follow, AllGiven, Keeps, Goes, Scl, I.SegmentNo, Before;
    Sizes(b);
    BeforeIs(b, 19);
    Levels(8);
    var a, lo := b.vs[From(19, b.job.p)..], From(19, b.job.p);
    forall t | 0 <= t < |a|
      ensures Scl(a[t])
    {
      SclSeen(b, 19, lo + t);
    }
    if a != [] {
      HoldsAck(b.c, a, s);
      Unfolded(b.c, a, s, s.(at := 14));
    } else {
      Nothing(b.c, s);
    }
  }

  lemma Nothing(c: S.Config, s: Receiver)
    ensures Follow(c, [], s) == s && AllGiven(c, [], s) == []
  {
  }

  /** The receiver's whole run. */
  lemma RunAcross(b: Bench)
    requires Joined(b)
    ensures Follow(b.c, b.vs, Start(b.c, b.q)).sdaLow
    ensures AllGiven(b.c, b.vs, Start(b.c, b.q)) == [(Value(b.q.isr) * 256 + Value(b.job.data)) % 0x1_0000_0000]
  {
    hide Joined, From, Start, Follow, AllGiven, Keeps, Collect, Value, Goes, Slots, Part, Before;
    var s, first, whole := Start(b.c, b.q), Before(b, 1), Before(b, 19);
    StartsThere(b);
    StartAcross(b);
    ByteAcross(b);
    WordAcross(b);
    Unfolded(b.c, first, s, Waiting(b));
    BeforeJoin(b, 1, 19);
    FollowSplit(b.c, first, Part(b, 1, 19), s);
    AckAcross(b, Follow(b.c, whole, s));
    BeforeIs(b, 19);
    var rest := b.vs[From(19, b.job.p)..];
    assert b.vs == whole + rest;
    FollowSplit(b.c, whole, rest, s);
  }

  // ---------------------------------------------------------------- main result

  lemma WiredPull(b: Bench, t: nat)
    requires Joined(b) && 0 < t <= |b.vs| + 1
    ensures b.o.pull(t) == Pulls(b.c, b.vs, b.q, t - 1, 0)
  {
    hide Pulls, SdaWire, SclWire, Listens, Sends, I.SteadyClock;
  }

  lemma DrivesAre(b: Bench, t: nat)
    requires Joined(b) && t <= |b.vs|
    ensures Pulls(b.c, b.vs, b.q, t, 0) == Follow(b.c, b.vs[..t], Start(b.c, b.q)).sdaLow
    ensures Pushes(Displays(b.c, b.vs[..t], b.q)) == AllGiven(b.c, b.vs[..t], Start(b.c, b.q))
  {
    hide Listens, Wired, Sends, I.SteadyClock, Pulls, Follow, AllGiven, Start, Displays;
    PullsAre(b.c, b.vs, b.q, t);
  }

  lemma SampledFree(b: Bench, j: nat)
    requires Joined(b) && j < 8
    ensures var t := Cell(4 + 2 * j, 0, b.job.p); t > 0 && From(1, b.job.p) <= t - 1 < From(18, b.job.p)
  {
    hide Joined;
    Sizes(b);
    Monotone(4, 4 + 2 * j, b.job.p);
    Monotone(4 + 2 * j, 18, b.job.p);
  }

  lemma NotContested(b: Bench, j: nat)
    requires Joined(b) && j < 8
    ensures !I.Pulled(b.o, b.job, j)
  {
    hide Joined, From, Cell, Follow, Start, Pulls, AllGiven, Displays, Pushes;
    var t := Cell(4 + 2 * j, 0, b.job.p);
    SampledFree(b, j);
    FreeDuring(b, t - 1);
    DrivesAre(b, t - 1);
    WiredPull(b, t);
    FreshStart(b);
  }

  lemma FreshStart(b: Bench)
    requires Joined(b)
    ensures I.First(b.job) == 0 && b.job.opening.Fresh? && !b.job.read && I.Requested(b.r, b.job) && b.job.p >= 4
    ensures I.SteadyClock(b.o, 1 + I.Span(b.job))
  {
    hide Listens, Wired, I.Requested, I.SteadyClock, I.Span;
  }

  lemma Acknowledged(b: Bench)
    requires Joined(b)
    ensures I.Pulled(b.o, b.job, 8)
  {
    hide Wired, Listens, Sends, From, Follow, Start, Pulls, AllGiven, Displays, Pushes, I.SteadyClock;
    var n := |b.vs|;
    Sizes(b);
    RunAcross(b);
    DrivesAre(b, n);
    assert b.vs[..n] == b.vs;
    WiredPull(b, n + 1);
    FreshStart(b);
  }

  /** A byte the controller sends with a START reaches the CPU on the other side, whatever the prescale from four up,
      with a STOP or without: RX is given it, once (below what the ISR held, if it held anything), and the controller
      finds it acknowledged and its arbitration not lost. Each of the two sees only the wires, and neither disturbs the
      other. */
  lemma ByteArrivesAcross(b: Bench)
    requires Joined(b)
    ensures Pushes(Displays(b.c, b.vs, b.q)) == [(Value(b.q.isr) * 256 + Value(b.job.data)) % 0x1_0000_0000]
    ensures 0 <= I.Span(b.job)
    ensures var s := I.At(b.r, b.o, 1 + I.Span(b.job));
            s.ackRecv && s.arbLost == b.r.arbLost
  {
    hide Joined, From, Start, Follow, AllGiven, Displays, Value, I.At, Pulls, Cell, I.Span, Pushes, I.Requested, I.Pulled,
         I.SteadyClock, I.SampleClock;
    var n := |b.vs|;
    RunAcross(b);
    DrivesAre(b, n);
    assert b.vs[..n] == b.vs;
    FreshStart(b);
    I.SpanPositive(b.job);
    I.WriteRecords(b.r, b.job, b.o, 1 + I.Span(b.job));
    Acknowledged(b);
    forall j | 0 <= j < 8
      ensures !I.Contested(b.o, b.job, j)
    {
      NotContested(b, j);
    }
  }

  // ---------------------------------------------------------------- every such bench exists

  /** Everybody else for the controller: the program on SDA, and the CPU. */
  function OthersOf(c: S.Config, vs: seq<S.Inputs>, q: S.Regs, cpu: int -> I.BusWrite): I.Others {
    I.Others(t => 0 < t <= |vs| + 1 && Pulls(c, vs, q, t - 1, 0), cpu)
  }

  function PinsOf(sda: bool, scl: bool): Bits32 {
    seq(32, k => if k == 0 then sda else k == 1 && scl)
  }

  /** What the program sees in the clock after those of vs. */
  function SeesNext(c: S.Config, vs: seq<S.Inputs>, q: S.Regs, r: I.Regs, cpu: int -> I.BusWrite): S.Inputs {
    var t, o := |vs|, OthersOf(c, vs, q, cpu);
    S.Inputs(true, false, Line(S.Run(c, vs, q).pc), false, 0, ZERO, true, false,
             PinsOf(t < 2 || SdaWire(c, vs, q, r, o, t - 2), t < 2 || SclWire(c, vs, q, r, o, t - 2)), NO_FLAGS)
  }

  function Grown(c: S.Config, q: S.Regs, r: I.Regs, cpu: int -> I.BusWrite, n: nat): (vs: seq<S.Inputs>)
    ensures |vs| == n
  {
    if n == 0 then []
    else
      var vs := Grown(c, q, r, cpu, n - 1);
      vs + [SeesNext(c, vs, q, r, cpu)]
  }

  lemma {:induction false} GrownPrefix(c: S.Config, q: S.Regs, r: I.Regs, cpu: int -> I.BusWrite, n: nat, t: nat)
    requires t <= n
    ensures Grown(c, q, r, cpu, n)[..t] == Grown(c, q, r, cpu, t)
    decreases n
  {
    hide SeesNext;
    if t < n {
      GrownPrefix(c, q, r, cpu, n - 1, t);
    }
  }

  lemma {:induction false} SameAt(r: I.Regs, o: I.Others, o': I.Others, n: nat)
    requires forall k :: 0 <= k < n ==> o.pull(k) == o'.pull(k) && o.cpu(k) == o'.cpu(k)
    ensures I.At(r, o, n) == I.At(r, o', n)
    decreases n
  {
    hide I.Tick;
    if n > 0 {
      SameAt(r, o, o', n - 1);
    }
  }

  /** The wires up to a clock depend only on what the program saw before. */
  lemma SameWires(c: S.Config, vs: seq<S.Inputs>, q: S.Regs, r: I.Regs, cpu: int -> I.BusWrite, t: nat, n: nat)
    requires t <= n <= |vs|
    ensures var o, o' := OthersOf(c, vs, q, cpu), OthersOf(c, vs[..n], q, cpu);
            && SdaWire(c, vs, q, r, o, t) == SdaWire(c, vs[..n], q, r, o', t)
            && SclWire(c, vs, q, r, o, t) == SclWire(c, vs[..n], q, r, o', t)
  {
    hide S.Run, I.At;
    var o, o' := OthersOf(c, vs, q, cpu), OthersOf(c, vs[..n], q, cpu);
    forall k | 0 <= k <= n
      ensures vs[..n][..k] == vs[..k]
    {
    }
    forall k | 0 <= k < t
      ensures o.pull(k) == o'.pull(k) && o.cpu(k) == o'.cpu(k)
    {
      if k > 0 {
        assert vs[..n][..k - 1] == vs[..k - 1];
      }
    }
    SameAt(r, o, o', t);
    if t > 0 {
      assert vs[..n][..t - 1] == vs[..t - 1];
    }
  }

  lemma GrownAt(c: S.Config, q: S.Regs, r: I.Regs, cpu: int -> I.BusWrite, n: nat, t: nat)
    requires t < n
    ensures Grown(c, q, r, cpu, n)[t] == SeesNext(c, Grown(c, q, r, cpu, n)[..t], q, r, cpu)
  {
    hide SeesNext;
    GrownPrefix(c, q, r, cpu, n, t + 1);
    GrownPrefix(c, q, r, cpu, n, t);
    assert Grown(c, q, r, cpu, n)[t] == Grown(c, q, r, cpu, n)[..t + 1][t];
  }

  lemma GrownWired(c: S.Config, q: S.Regs, r: I.Regs, cpu: int -> I.BusWrite, n: nat)
    ensures var vs := Grown(c, q, r, cpu, n); Wired(c, vs, q, r, OthersOf(c, vs, q, cpu))
  {
    hide S.Run, I.At, Grown, SdaWire, SclWire, Pulls;
    var vs := Grown(c, q, r, cpu, n);
    var o := OthersOf(c, vs, q, cpu);
    forall t | 0 <= t < n
      ensures vs[t].pins[0] == (t < 2 || SdaWire(c, vs, q, r, o, t - 2))
      ensures vs[t].pins[1] == (t < 2 || SclWire(c, vs, q, r, o, t - 2))
    {
      GrownAt(c, q, r, cpu, n, t);
      if t >= 2 {
        SameWires(c, vs, q, r, cpu, t - 2, t);
      }
    }
  }

  lemma {:induction false} LoadedMore(c: S.Config, vs: seq<S.Inputs>, v: S.Inputs, m: Machine)
    requires Loaded(c, vs, m) && !v.restart && !v.forceExec && v.instr == Line(Steps(c, vs, m).pc)
    ensures Loaded(c, vs + [v], m)
    decreases |vs|
  {
    hide Step, Line;
    if vs == [] {
      assert vs + [v] == [v] && [v][1..] == [];
    } else {
      LoadedMore(c, vs[1..], v, Step(c, vs[0], m));
      assert (vs + [v])[1..] == vs[1..] + [v];
    }
  }

  lemma {:induction false} GrownLoaded(c: S.Config, q: S.Regs, r: I.Regs, cpu: int -> I.BusWrite, n: nat)
    ensures var vs := Grown(c, q, r, cpu, n);
            Loaded(c, vs, View(q)) && forall t :: 0 <= t < n ==> vs[t].enable && !vs[t].rxFull
    decreases n
  {
    hide S.Run, View, Line, SdaWire, SclWire, OthersOf, PinsOf;
    if n > 0 {
      var vs := Grown(c, q, r, cpu, n - 1);
      GrownLoaded(c, q, r, cpu, n - 1);
      EveryRunRefines(c, vs, q);
      assert S.Run(c, vs, q).pc == Steps(c, vs, View(q)).pc by {
        CounterSeen(S.Run(c, vs, q));
      }
      hide Loaded, Steps;
      LoadedMore(c, vs, SeesNext(c, vs, q, r, cpu), View(q));
    }
  }

  lemma CounterSeen(q: S.Regs)
    ensures View(q).pc == q.pc
  {
    hide Value;
  }

  /** Whatever is sent, at whatever prescale, and whatever the CPU writes but a new prescale, there is a run of the two
      together. */
  lemma BenchExists(c: S.Config, q: S.Regs, r: I.Regs, job: I.Job, cpu: int -> I.BusWrite) returns (b: Bench)
    requires Listens(c, [], q) && Sends(r, job) && forall t :: !cpu(t).WritePrescale?
    ensures Joined(b) && b.c == c && b.q == q && b.r == r && b.job == job
  {
    hide S.Run, View, Grown, Loaded, Wired, Pulls, I.Requested, I.Span, Tuned, S.FetchesOnly;
    Monotone(1, 20, job.p);
    var vs := Grown(c, q, r, cpu, Cell(20, 0, job.p) - 1);
    GrownLoaded(c, q, r, cpu, |vs|);
    GrownWired(c, q, r, cpu, |vs|);
    b := Bench(c, vs, q, r, OthersOf(c, vs, q, cpu), job);
  }
}
