/** A PIO state machine with its two FIFOs, and with the shared interrupt flags: what the registered handshakes between
    them let through. */
module PioSystem {
  import opened Pio
  import opened PioSm
  import opened PioFifo

  // ---------------------------------------------------------------- the machine between its FIFOs

  datatype Joined = Joined(r: PioSm.Regs, tx: seq<Bits32>, rx: seq<Bits32>)

  /** One clock of the world outside: what else the machine sees, a word that CPU or DMA writes to TX, and whether one
      of them takes a word from RX. */
  datatype Outside = Outside(v: Inputs, feed: bool, word: Bits32, drain: bool)

  function View(s: Joined, o: Outside): Inputs {
    o.v.(txData := if s.tx == [] then o.v.txData else s.tx[0], txEmpty := s.tx == [], rxFull := |s.rx| == 4)
  }

  /** The machine's pulses are registered: the FIFOs act on them one clock after the instruction. */
  function TxOp(s: Joined, o: Outside): Op {
    Op(o.feed, o.word, s.r.txPull)
  }

  function RxOp(s: Joined, o: Outside): Op {
    Op(s.r.rxPush, s.r.rxData, o.drain)
  }

  function Edge(c: Config, s: Joined, o: Outside): Joined {
    Joined(Clock(c, View(s, o), s.r), QueueEdge(s.tx, TxOp(s, o)), QueueEdge(s.rx, RxOp(s, o)))
  }

  function Along(c: Config, s: Joined, os: seq<Outside>): Joined
    decreases |os|
  {
    if os == [] then s else Along(c, Edge(c, s, os[0]), os[1..])
  }

  /** The words TX accepted, and those taken from RX, along a run. */
  function Entered(c: Config, s: Joined, os: seq<Outside>): seq<Bits32>
    decreases |os|
  {
    if os == [] then []
    else Pushed(s.tx, TxOp(s, os[0])) + Entered(c, Edge(c, s, os[0]), os[1..])
  }

  function Departed(c: Config, s: Joined, os: seq<Outside>): seq<Bits32>
    decreases |os|
  {
    if os == [] then []
    else Popped(s.rx, RxOp(s, os[0])) + Departed(c, Edge(c, s, os[0]), os[1..])
  }

  /** TX less the word the machine has already taken. */
  function Untaken(s: Joined): seq<Bits32> {
    if s.r.txPull && s.tx != [] then s.tx[1..] else s.tx
  }

  lemma TxConserves(c: Config, s: Joined, o: Outside)
    requires !s.r.txPull || s.tx != []
    ensures Edge(c, s, o).tx == Untaken(s) + Pushed(s.tx, TxOp(s, o))
  {
    hide Clock;
  }

  lemma RxConserves(c: Config, s: Joined, o: Outside)
    requires |s.rx| <= 4 && (s.r.rxPush ==> |s.rx| < 4)
    ensures s.rx + (if s.r.rxPush then [s.r.rxData] else []) == Popped(s.rx, RxOp(s, o)) + Edge(c, s, o).rx
    ensures |Edge(c, s, o).rx| <= 4 && (!s.r.rxPush ==> |Edge(c, s, o).rx| <= |s.rx|)
  {
    hide Clock;
  }

  // ---------------------------------------------------------------- a program that passes words on, inverted

  function Inverted(ws: seq<Bits32>): (r: seq<Bits32>)
    ensures |r| == |ws|
  {
    seq(|ws|, i requires 0 <= i < |ws| => Not(ws[i]))
  }

  lemma InvertedParts(a: seq<Bits32>, b: seq<Bits32>)
    ensures Inverted(a + b) == Inverted(a) + Inverted(b)
  {
    hide Not;
  }

  /** PULL; MOV ISR, !OSR; PUSH, wrapped, with any delays and side-sets. */
  datatype Program = Program(lo: Int5, pull: Int16, mov: Int16, push: Int16)

  predicate Inverter(c: Config, g: Program) {
    && IsPull(g.pull, false, true) && IsInvert(g.mov) && IsPush(g.push, false, true)
    && g.lo + 2 < 32 && c.wrapBot == g.lo && c.wrapTop == g.lo + 2
  }

  function WordAt(g: Program, pc: Int5): Int16 {
    if pc == g.lo then g.pull else if pc == g.lo + 1 then g.mov else g.push
  }

  /** In every clock of the run the machine sees its program's word, and nobody restarts it or forces one on it. */
  predicate SeesProgram(c: Config, g: Program, s: Joined, os: seq<Outside>)
    decreases |os|
  {
    os == [] || (Sees(os[0].v, WordAt(g, s.r.pc)) && SeesProgram(c, g, Edge(c, s, os[0]), os[1..]))
  }

  predicate Steady(g: Program, s: Joined) {
    && FetchesOnly(s.r) && g.lo <= s.r.pc <= g.lo + 2 && |s.rx| <= 4
    && (s.r.txPull ==> s.r.pc == g.lo + 1 && s.tx != [] && s.tx[0] == s.r.osr)
    && (s.r.rxPush ==> s.r.pc == g.lo && |s.rx| < 4)
  }

  /** The word inside the machine on its way to RX, in the registers or in the handshake. */
  function Inside(g: Program, s: Joined): seq<Bits32> {
    (if s.r.rxPush then [s.r.rxData] else []) +
    (if s.r.pc == g.lo + 1 then [Not(s.r.osr)] else if s.r.pc == g.lo + 2 then [s.r.isr] else [])
  }

  /** Everything on its way, in the order it will leave and as it will leave. */
  function Pending(g: Program, s: Joined): seq<Bits32> {
    s.rx + Inside(g, s) + Inverted(Untaken(s))
  }

  lemma IdleEdge(c: Config, g: Program, s: Joined, o: Outside)
    requires Inverter(c, g) && Steady(g, s) && Sees(o.v, WordAt(g, s.r.pc)) && !Executes(View(s, o), s.r)
    ensures Steady(g, Edge(c, s, o)) && Moved(g, s, Edge(c, s, o))
  {
    hide Clock, Executes, QueueEdge, Not;
    NothingDone(c, View(s, o), s.r, WordAt(g, s.r.pc));
    RxConserves(c, s, o);
  }

  /** What a clock does to the words inside: the one handed to RX is gone, one may have been taken from TX. */
  predicate Moved(g: Program, s: Joined, t: Joined) {
    && (t.r.txPull ==> !s.r.txPull && s.tx != [])
    && Inside(g, s) + Taken(s, t) == (if s.r.rxPush then [s.r.rxData] else []) + Inside(g, t)
  }

  /** The word that a clock takes from TX, inverted. */
  function Taken(s: Joined, t: Joined): seq<Bits32> {
    if t.r.txPull && s.tx != [] then [Not(s.tx[0])] else []
  }

  lemma PullEdge(c: Config, g: Program, s: Joined, o: Outside)
    requires Inverter(c, g) && Steady(g, s) && Sees(o.v, WordAt(g, s.r.pc)) && Executes(View(s, o), s.r)
    requires s.r.pc == g.lo
    ensures Steady(g, Edge(c, s, o)) && Moved(g, s, Edge(c, s, o))
  {
    hide Clock, Executes, Not, IsPull, IsInvert, IsPush;
    PullStep(c, View(s, o), s.r, g.pull, false, true);
    RxConserves(c, s, o);
  }

  lemma MovEdge(c: Config, g: Program, s: Joined, o: Outside)
    requires Inverter(c, g) && Steady(g, s) && Sees(o.v, WordAt(g, s.r.pc)) && Executes(View(s, o), s.r)
    requires s.r.pc == g.lo + 1
    ensures Steady(g, Edge(c, s, o)) && Moved(g, s, Edge(c, s, o))
  {
    hide Clock, Executes, QueueEdge, Not, IsPull, IsInvert, IsPush;
    InvertStep(c, View(s, o), s.r, g.mov);
    RxConserves(c, s, o);
  }

  lemma PushEdge(c: Config, g: Program, s: Joined, o: Outside)
    requires Inverter(c, g) && Steady(g, s) && Sees(o.v, WordAt(g, s.r.pc)) && Executes(View(s, o), s.r)
    requires s.r.pc == g.lo + 2
    ensures Steady(g, Edge(c, s, o)) && Moved(g, s, Edge(c, s, o))
  {
    hide Clock, Executes, QueueEdge, Not, IsPull, IsInvert, IsPush;
    PushStep(c, View(s, o), s.r, g.push, false, true);
    RxConserves(c, s, o);
  }

  lemma EdgeMoves(c: Config, g: Program, s: Joined, o: Outside)
    requires Inverter(c, g) && Steady(g, s) && Sees(o.v, WordAt(g, s.r.pc))
    ensures Steady(g, Edge(c, s, o)) && Moved(g, s, Edge(c, s, o))
  {
    hide Inverter, Steady, Sees, Executes, Edge, Moved;
    InProgram(g, s);
    if !Executes(View(s, o), s.r) {
      IdleEdge(c, g, s, o);
    } else if s.r.pc == g.lo {
      PullEdge(c, g, s, o);
    } else if s.r.pc == g.lo + 1 {
      MovEdge(c, g, s, o);
    } else {
      PushEdge(c, g, s, o);
    }
  }

  lemma InProgram(g: Program, s: Joined)
    requires Steady(g, s)
    ensures s.r.pc == g.lo || s.r.pc == g.lo + 1 || s.r.pc == g.lo + 2
    ensures |s.rx| <= 4 && (s.r.rxPush ==> |s.rx| < 4) && (s.r.txPull ==> s.tx != [])
  {
  }

  /** Each clock moves words along and loses none. */
  lemma EdgeConservesWords(c: Config, g: Program, s: Joined, o: Outside)
    requires Inverter(c, g) && Steady(g, s) && Sees(o.v, WordAt(g, s.r.pc))
    ensures Steady(g, Edge(c, s, o))
    ensures Pending(g, s) + Inverted(Pushed(s.tx, TxOp(s, o)))
         == Popped(s.rx, RxOp(s, o)) + Pending(g, Edge(c, s, o))
  {
    hide Inverter, Steady, Sees, Inside, Not, WordAt, View;
    var t := Edge(c, s, o);
    InProgram(g, s);
    EdgeMoves(c, g, s, o);
    InProgram(g, t);
    TxConserves(c, s, o);
    RxConserves(c, s, o);
    hide Clock, QueueEdge, Edge, Inverted, TxOp, RxOp, Pushed, Popped;
    TakenFirst(c, g, s, o, t);
    var coming, taken := Pushed(s.tx, TxOp(s, o)), Taken(s, t);
    var handed := if s.r.rxPush then [s.r.rxData] else [];
    var gone := Popped(s.rx, RxOp(s, o));
    Chain(s.rx, Inside(g, s), Inverted(Untaken(s)), Inverted(coming), handed, taken, gone, t.rx, Inside(g, t),
          Inverted(Untaken(t)));
  }

  lemma Chain(rx: seq<Bits32>, inside: seq<Bits32>, waiting: seq<Bits32>, coming: seq<Bits32>, handed: seq<Bits32>,
              taken: seq<Bits32>, gone: seq<Bits32>, rx': seq<Bits32>, inside': seq<Bits32>, waiting': seq<Bits32>)
    requires rx + handed == gone + rx'
    requires inside + taken == handed + inside'
    requires waiting + coming == taken + waiting'
    ensures (rx + inside + waiting) + coming == gone + (rx' + inside' + waiting')
  {
    calc {
      (rx + inside + waiting) + coming;
      rx + inside + (waiting + coming);
      rx + (inside + taken) + waiting';
      (rx + handed) + inside' + waiting';
      (gone + rx') + inside' + waiting';
      gone + (rx' + inside' + waiting');
    }
  }

  /** What the machine takes in a clock is the first of what waited, so it is as if it had been taken off the front. */
  lemma TakenFirst(c: Config, g: Program, s: Joined, o: Outside, t: Joined)
    requires Moved(g, s, t) && t.tx == Untaken(s) + Pushed(s.tx, TxOp(s, o)) && (s.r.txPull ==> s.tx != [])
    ensures Inverted(Untaken(s)) + Inverted(Pushed(s.tx, TxOp(s, o))) == Taken(s, t) + Inverted(Untaken(t))
  {
    hide Inside, Not, Pushed;
    InvertedParts(Untaken(s), Pushed(s.tx, TxOp(s, o)));
    if t.r.txPull {
      InvertedParts([t.tx[0]], t.tx[1..]);
      assert t.tx == [t.tx[0]] + t.tx[1..];
      assert Inverted([t.tx[0]]) == [Not(t.tx[0])];
    }
  }

  /** Over every run of the machine and its FIFOs, whatever the dividers, delays and handshakes: the words that leave
      are the words that entered, inverted, each once and in order; what is left is in RX, inside the machine, or in TX. */
  lemma {:induction false} EveryRunInverts(c: Config, g: Program, s: Joined, os: seq<Outside>)
    requires Inverter(c, g) && Steady(g, s) && SeesProgram(c, g, s, os)
    ensures Steady(g, Along(c, s, os))
    ensures Pending(g, s) + Inverted(Entered(c, s, os)) == Departed(c, s, os) + Pending(g, Along(c, s, os))
    decreases |os|
  {
    hide Inverter, Steady, Sees, Edge, Pending, Inverted, TxOp, RxOp, Pushed, Popped, WordAt;
    if os == [] {
      NothingInverted();
    } else {
      var t := Edge(c, s, os[0]);
      EdgeConservesWords(c, g, s, os[0]);
      EveryRunInverts(c, g, t, os[1..]);
      var coming, later := Pushed(s.tx, TxOp(s, os[0])), Entered(c, t, os[1..]);
      var gone, given := Popped(s.rx, RxOp(s, os[0])), Departed(c, t, os[1..]);
      InvertedParts(coming, later);
      Regroup(Pending(g, s), Inverted(coming), Inverted(later), gone, Pending(g, t), given, Pending(g, Along(c, s, os)));
    }
  }

  lemma NothingInverted()
    ensures Inverted([]) == []
  {
  }

  /** From a machine about to pull, with empty registers in between and an empty RX: what has left is the start of
      what was in TX and what entered, inverted. */
  lemma InOrder(c: Config, g: Program, s: Joined, os: seq<Outside>)
    requires Inverter(c, g) && SeesProgram(c, g, s, os)
    requires FetchesOnly(s.r) && s.r.pc == g.lo && !s.r.txPull && !s.r.rxPush && s.rx == []
    ensures Departed(c, s, os) <= Inverted(s.tx + Entered(c, s, os))
    ensures |s.tx + Entered(c, s, os)| <= |Departed(c, s, os)| + 5 + |Along(c, s, os).tx|
  {
    hide SeesProgram, Not;
    EveryRunInverts(c, g, s, os);
    InvertedParts(s.tx, Entered(c, s, os));
    var t := Along(c, s, os);
    InProgram(g, t);
    assert Pending(g, s) == Inverted(s.tx);
  }

  // ---------------------------------------------------------------- PULL in a loop of its own

  /** The words the machine loads along a run. */
  function Loaded(c: Config, s: Joined, os: seq<Outside>): seq<Bits32>
    decreases |os|
  {
    if os == [] then []
    else
      var t := Edge(c, s, os[0]);
      (if t.r.txPull then [t.r.osr] else []) + Loaded(c, t, os[1..])
  }

  predicate SeesOnly(w: Int16, os: seq<Outside>) {
    forall k :: 0 <= k < |os| ==> Sees(os[k].v, w)
  }

  /** The words loaded are those that wait in TX or enter it, each once and in order. */
  predicate LoadsOnce(c: Config, s: Joined, os: seq<Outside>) {
    Untaken(s) + Entered(c, s, os) == Loaded(c, s, os) + Untaken(Along(c, s, os))
  }

  /** A machine about to fetch the one word of its loop. */
  predicate AtLoop(c: Config, s: Joined) {
    FetchesOnly(s.r) && !s.r.txPull && s.r.pc == c.wrapTop
  }

  ghost predicate AlwaysLoadsOnce(c: Config, w: Int16) {
    forall s: Joined, os: seq<Outside> :: AtLoop(c, s) && SeesOnly(w, os) ==> LoadsOnce(c, s, os)
  }

  predicate Looping(c: Config, s: Joined) {
    && FetchesOnly(s.r) && s.r.pc == c.wrapTop
    && (s.r.txPull ==> s.tx != [] && (s.r.div != 0 || s.r.delay != 0))
  }

  lemma PullTimes(c: Config, v: Inputs, q: Regs, w: Int16)
    requires IsPull(w, false, true) && FetchesOnly(q) && Sees(v, w) && Executes(v, q)
    ensures Clock(c, v, q).div == DivTop(c)
    ensures !v.txEmpty ==> Clock(c, v, q).delay == InstrDelay(c, Decode(w).side)
  {
    hide Decode, SideValue, SideWidth, SideApplies, WritePins, ToBits32, InstrDelay, DivTop, OsrEmpty, Threshold;
  }

  lemma LoopIdle(c: Config, w: Int16, s: Joined, o: Outside)
    requires c.wrapTop == c.wrapBot && Looping(c, s) && Sees(o.v, w) && !Executes(View(s, o), s.r)
    ensures Looping(c, Edge(c, s, o)) && !Edge(c, s, o).r.txPull
  {
    hide Clock, Executes, QueueEdge;
    NothingDone(c, View(s, o), s.r, w);
  }

  lemma LoopPulls(c: Config, w: Int16, s: Joined, o: Outside)
    requires IsPull(w, false, true) && c.wrapTop == c.wrapBot && Looping(c, s) && Sees(o.v, w)
    requires Executes(View(s, o), s.r) && (InstrDelay(c, Decode(w).side) > 0 || c.clkdiv >= 2)
    ensures Looping(c, Edge(c, s, o)) && !s.r.txPull
    ensures Edge(c, s, o).r.txPull ==> s.tx != [] && Edge(c, s, o).r.osr == s.tx[0]
  {
    hide Clock, IsPull, InstrDelay, Decode;
    PullStep(c, View(s, o), s.r, w, false, true);
    PullTimes(c, View(s, o), s.r, w);
  }

  /** One clock of the loop, when attempts are at least two clocks apart. */
  lemma LoopEdge(c: Config, w: Int16, s: Joined, o: Outside)
    requires IsPull(w, false, true) && c.wrapTop == c.wrapBot && Looping(c, s) && Sees(o.v, w)
    requires InstrDelay(c, Decode(w).side) > 0 || c.clkdiv >= 2
    ensures var t := Edge(c, s, o);
            && Looping(c, t)
            && Untaken(s) + Pushed(s.tx, TxOp(s, o)) == (if t.r.txPull then [t.r.osr] else []) + Untaken(t)
  {
    hide Clock, IsPull, InstrDelay, Decode, Edge, Sees, Executes, Pushed;
    TxConserves(c, s, o);
    if Executes(View(s, o), s.r) {
      LoopPulls(c, w, s, o);
    } else {
      LoopIdle(c, w, s, o);
    }
  }

  lemma {:induction false} LoopRun(c: Config, w: Int16, s: Joined, os: seq<Outside>)
    requires IsPull(w, false, true) && c.wrapTop == c.wrapBot && Looping(c, s) && SeesOnly(w, os)
    requires InstrDelay(c, Decode(w).side) > 0 || c.clkdiv >= 2
    ensures LoadsOnce(c, s, os)
    decreases |os|
  {
    hide IsPull, InstrDelay, Decode, Edge, Sees, Pushed, Untaken, Looping, TxOp;
    if os != [] {
      var t := Edge(c, s, os[0]);
      LoopEdge(c, w, s, os[0]);
      LoopRun(c, w, t, os[1..]);
      var now := if t.r.txPull then [t.r.osr] else [];
      Regroup(Untaken(s), Pushed(s.tx, TxOp(s, os[0])), Entered(c, t, os[1..]), now, Untaken(t),
              Loaded(c, t, os[1..]), Untaken(Along(c, s, os)));
    }
  }

  /** With an attempt in every clock the registered handshake comes too late: the word at the head is loaded twice. */
  lemma LoadsTwice(c: Config, w: Int16) returns (s: Joined, os: seq<Outside>)
    requires IsPull(w, false, true) && c.wrapTop == c.wrapBot && InstrDelay(c, Decode(w).side) == 0 && c.clkdiv <= 1
    ensures AtLoop(c, s) && SeesOnly(w, os) && |s.tx| == 1 && Entered(c, s, os) == []
    ensures Loaded(c, s, os) == [s.tx[0], s.tx[0]]
  {
    hide Clock, IsPull, InstrDelay, Decode, Advance;
    var v := Inputs(true, false, w, false, 0, ZERO, true, false, ZERO, NO_FLAGS);
    var o := Outside(v, false, ZERO, false);
    s := Joined(RESET.(pc := c.wrapTop), [ZERO], []);
    os := [o, o];
    var t := FirstLoad(c, w, s, o);
    SecondLoad(c, w, t, o);
    assert os[1..] == [o];
    OneClock(c, t, o);
  }

  lemma OneClock(c: Config, s: Joined, o: Outside)
    ensures Loaded(c, s, [o]) == if Edge(c, s, o).r.txPull then [Edge(c, s, o).r.osr] else []
    ensures Entered(c, s, [o]) == Pushed(s.tx, TxOp(s, o))
  {
    hide Clock, QueueEdge;
    assert [o][1..] == [];
  }

  lemma FirstLoad(c: Config, w: Int16, s: Joined, o: Outside) returns (t: Joined)
    requires IsPull(w, false, true) && c.wrapTop == c.wrapBot && InstrDelay(c, Decode(w).side) == 0 && c.clkdiv <= 1
    requires Sees(o.v, w) && o.v.enable && !o.feed && AtLoop(c, s) && s.tx == [ZERO]
    requires s.r.div == 0 && s.r.delay == 0
    ensures t == Edge(c, s, o) && t.r.txPull && t.r.osr == ZERO && t.tx == [ZERO] && Pushed(s.tx, TxOp(s, o)) == []
    ensures FetchesOnly(t.r) && t.r.pc == c.wrapTop && t.r.div == 0 && t.r.delay == 0
  {
    hide Clock, IsPull, InstrDelay, Decode;
    t := Edge(c, s, o);
    PullStep(c, View(s, o), s.r, w, false, true);
    PullTimes(c, View(s, o), s.r, w);
  }

  lemma SecondLoad(c: Config, w: Int16, s: Joined, o: Outside)
    requires IsPull(w, false, true) && c.wrapTop == c.wrapBot && InstrDelay(c, Decode(w).side) == 0 && c.clkdiv <= 1
    requires Sees(o.v, w) && o.v.enable && !o.feed && FetchesOnly(s.r) && s.tx == [ZERO]
    requires s.r.div == 0 && s.r.delay == 0
    ensures var t := Edge(c, s, o); t.r.txPull && t.r.osr == ZERO && Pushed(s.tx, TxOp(s, o)) == []
  {
    hide Clock, IsPull, InstrDelay, Decode;
    PullStep(c, View(s, o), s.r, w, false, true);
  }

  /** A loop of one blocking PULL loads every word once and in order, over every run, if and only if the instruction's
      delay or the divider keeps its attempts at least two clocks apart. */
  lemma PullLoopExactly(c: Config, w: Int16)
    requires IsPull(w, false, true) && c.wrapTop == c.wrapBot
    ensures AlwaysLoadsOnce(c, w) <==> InstrDelay(c, Decode(w).side) > 0 || c.clkdiv >= 2
  {
    hide IsPull, InstrDelay, Decode, LoadsOnce, SeesOnly;
    if InstrDelay(c, Decode(w).side) > 0 || c.clkdiv >= 2 {
      forall s: Joined, os: seq<Outside> | AtLoop(c, s) && SeesOnly(w, os)
        ensures LoadsOnce(c, s, os)
      {
        LoopRun(c, w, s, os);
      }
    } else {
      var s, os := LoadsTwice(c, w);
      TooMany(c, s, os);
    }
  }

  lemma TooMany(c: Config, s: Joined, os: seq<Outside>)
    requires !s.r.txPull && |s.tx| == 1 && Entered(c, s, os) == [] && |Loaded(c, s, os)| == 2
    ensures !LoadsOnce(c, s, os)
  {
    hide Entered, Loaded, Along;
    if LoadsOnce(c, s, os) {
      Lengths(Untaken(s), Entered(c, s, os), Loaded(c, s, os), Untaken(Along(c, s, os)));
    }
  }

  lemma Lengths(a: seq<Bits32>, b: seq<Bits32>, c: seq<Bits32>, d: seq<Bits32>)
    requires a + b == c + d
    ensures |a| + |b| == |c| + |d|
  {
    assert |a + b| == |a| + |b|;
  }

  // ---------------------------------------------------------------- the machine and the interrupt flags

  /** A write of the CPU to the flags: IRQ clears the flags of its mask, IRQ_FORCE raises them. */
  datatype CpuIrq = NoIrqWrite | ClearFlags(mask: Bits8) | ForceFlags(mask: Bits8)

  /** The flags one clock later. A write of the CPU takes the place of what the state machines do in that clock. */
  function FlagsNext(flags: Bits8, raised: Bits8, cleared: Bits8, cpu: CpuIrq): Bits8 {
    seq(8, f requires 0 <= f < 8 =>
      match cpu
      case NoIrqWrite => (flags[f] || raised[f]) && !cleared[f]
      case ClearFlags(mask) => flags[f] && !mask[f]
      case ForceFlags(mask) => flags[f] || mask[f])
  }

  function Either(a: Bits8, b: Bits8): Bits8 {
    seq(8, f requires 0 <= f < 8 => a[f] || b[f])
  }

  datatype Flagged = Flagged(r: PioSm.Regs, flags: Bits8)

  /** One clock of everybody else: what the machine sees besides, and the pulses of the other machines. */
  datatype Others = Others(v: Inputs, raised: Bits8, cleared: Bits8, cpu: CpuIrq)

  function FlagEdge(c: Config, s: Flagged, o: Others): Flagged {
    Flagged(Clock(c, o.v.(irqFlags := s.flags), s.r),
            FlagsNext(s.flags, Either(s.r.irqSet, o.raised), Either(s.r.irqClr, o.cleared), o.cpu))
  }

  function FlagRun(c: Config, s: Flagged, os: seq<Others>): Flagged
    decreases |os|
  {
    if os == [] then s else FlagRun(c, FlagEdge(c, s, os[0]), os[1..])
  }

  /** The machine sees the word w, and nobody else clears flag f. */
  predicate LeavesFlag(w: Int16, f: Int3, o: Others) {
    Sees(o.v, w) && !o.cleared[f] && o.cpu.NoIrqWrite?
  }

  /** An IRQ WAIT waits: over every run in which nobody clears its flag the program counter stays where it is. */
  ghost predicate WaitsForClear(c: Config, w: Int16, f: Int3) {
    forall s: Flagged, os: seq<Others> ::
      FetchesOnly(s.r) && !s.r.irqWait && (forall k :: 0 <= k < |os| ==> LeavesFlag(w, f, os[k]))
      ==> FlagRun(c, s, os).r.pc == s.r.pc
  }

  /** The flag is not waited for yet, or is being raised with the next attempt still to come, or is up. */
  predicate Held(s: Flagged, f: Int3) {
    && FetchesOnly(s.r)
    && (s.r.irqWait ==> !s.r.irqClr[f])
    && (s.r.irqWait ==> s.flags[f] || (s.r.irqSet[f] && s.r.div != 0))
  }

  lemma HeldEdge(c: Config, w: Int16, f: Int3, s: Flagged, o: Others)
    requires IsIrqWait(c, w, f) && c.clkdiv >= 2 && Held(s, f) && LeavesFlag(w, f, o)
    ensures Held(FlagEdge(c, s, o), f) && FlagEdge(c, s, o).r.pc == s.r.pc
  {
    hide Clock, IsIrqWait;
    var v := o.v.(irqFlags := s.flags);
    if Executes(v, s.r) {
      IrqStep(c, v, s.r, w, f);
    } else {
      NothingDone(c, v, s.r, w);
      NothingCleared(c, v, s.r);
    }
  }

  lemma NothingCleared(c: Config, v: Inputs, q: Regs)
    requires !Executes(v, q)
    ensures Clock(c, v, q).irqClr == NO_FLAGS
  {
    hide Execute, DivNext;
  }

  lemma {:induction false} HeldRun(c: Config, w: Int16, f: Int3, s: Flagged, os: seq<Others>)
    requires IsIrqWait(c, w, f) && c.clkdiv >= 2 && Held(s, f)
    requires forall k :: 0 <= k < |os| ==> LeavesFlag(w, f, os[k])
    ensures FlagRun(c, s, os).r.pc == s.r.pc
    decreases |os|
  {
    hide IsIrqWait, Held, LeavesFlag, FlagEdge;
    if os != [] {
      HeldEdge(c, w, f, s, os[0]);
      HeldRun(c, w, f, FlagEdge(c, s, os[0]), os[1..]);
    }
  }

  /** With an attempt in every clock the second comes before the flag is up, and the machine goes on at once. */
  lemma GoesOn(c: Config, w: Int16, f: Int3) returns (s: Flagged, os: seq<Others>)
    requires IsIrqWait(c, w, f) && c.clkdiv <= 1
    ensures FetchesOnly(s.r) && !s.r.irqWait && forall k :: 0 <= k < |os| ==> LeavesFlag(w, f, os[k])
    ensures |os| == 2 && FlagRun(c, s, os).r.pc == Advance(c, s.r.pc) != s.r.pc
  {
    hide Clock, IsIrqWait;
    var v := Inputs(true, false, w, false, 0, ZERO, true, false, ZERO, NO_FLAGS);
    var o := Others(v, NO_FLAGS, NO_FLAGS, NoIrqWrite);
    s := Flagged(RESET.(pc := if c.wrapTop == 0 then 1 else 0), NO_FLAGS);
    os := [o, o];
    var t := FlagEdge(c, s, o);
    IrqStep(c, v, s.r, w, f);
    assert v.(irqFlags := s.flags) == v;
    assert t.flags == NO_FLAGS;
    IrqStep(c, v, t.r, w, f);
    assert os[1..] == [o] && [o][1..] == [];
    assert FlagRun(c, s, os) == FlagRun(c, t, [o]) == FlagEdge(c, t, o);
  }

  /** An IRQ WAIT waits for its flag to be cleared, over every run, if and only if the clock divider is at least two. */
  lemma IrqWaitExactly(c: Config, w: Int16, f: Int3)
    requires IsIrqWait(c, w, f)
    ensures WaitsForClear(c, w, f) <==> c.clkdiv >= 2
  {
    hide IsIrqWait, FlagRun, LeavesFlag, Advance;
    if c.clkdiv >= 2 {
      forall s: Flagged, os: seq<Others> |
        FetchesOnly(s.r) && !s.r.irqWait && forall k :: 0 <= k < |os| ==> LeavesFlag(w, f, os[k])
        ensures FlagRun(c, s, os).r.pc == s.r.pc
      {
        HeldRun(c, w, f, s, os);
      }
    } else {
      var s, os := GoesOn(c, w, f);
    }
  }

  /** The CPU clears some other flag, and nobody clears flag f. */
  predicate ClearsAnother(w: Int16, f: Int3, o: Others) {
    Sees(o.v, w) && !o.cleared[f] && (o.cpu.NoIrqWrite? || (o.cpu.ClearFlags? && !o.cpu.mask[f]))
  }

  /** A waiting machine whose flag is down goes on at its next attempt. */
  lemma {:induction false} Drifts(c: Config, w: Int16, f: Int3, s: Flagged, o: Others, k: nat)
    requires IsIrqWait(c, w, f) && FetchesOnly(s.r) && s.r.irqWait && !s.r.irqSet[f] && !s.flags[f]
    requires s.r.div == k && s.r.delay == 0
    requires Sees(o.v, w) && o.v.enable && !o.raised[f] && o.cpu.NoIrqWrite?
    ensures FlagRun(c, s, seq(k + 1, _ => o)).r.pc == Advance(c, s.r.pc)
    decreases k
  {
    hide Clock, IsIrqWait, Advance;
    var v, t, os := o.v.(irqFlags := s.flags), FlagEdge(c, s, o), seq(k + 1, _ => o);
    assert os[1..] == seq(k, _ => o);
    if k == 0 {
      IrqStep(c, v, s.r, w, f);
    } else {
      NothingDone(c, v, s.r, w);
      DivCounts(c, v, s.r);
      Drifts(c, w, f, t, o, k - 1);
    }
  }

  lemma DivCounts(c: Config, v: Inputs, q: Regs)
    requires !v.restart && v.enable && q.div > 0
    ensures Clock(c, v, q).div == q.div - 1 && Clock(c, v, q).delay == q.delay
  {
    hide Execute;
  }

  /** Whatever the divider, a write of the CPU that clears another flag in the clock in which the flag is raised undoes
      the raising, and the machine goes on though nobody has cleared its flag. */
  lemma WriteReleases(c: Config, w: Int16, f: Int3) returns (s: Flagged, os: seq<Others>)
    requires IsIrqWait(c, w, f)
    ensures FetchesOnly(s.r) && !s.r.irqWait && forall k :: 0 <= k < |os| ==> ClearsAnother(w, f, os[k])
    ensures FlagRun(c, s, os).r.pc == Advance(c, s.r.pc) != s.r.pc
  {
    hide Clock, IsIrqWait;
    var v := Inputs(true, false, w, false, 0, ZERO, true, false, ZERO, NO_FLAGS);
    var o := Others(v, NO_FLAGS, NO_FLAGS, NoIrqWrite);
    var o' := o.(cpu := ClearFlags(seq(8, i => i != f)));
    s := Flagged(RESET.(pc := if c.wrapTop == 0 then 1 else 0), NO_FLAGS);
    var t := FlagEdge(c, s, o);
    IrqStep(c, v, s.r, w, f);
    assert v.(irqFlags := s.flags) == v;
    var u := FlagEdge(c, t, o');
    assert t.flags == NO_FLAGS && v.(irqFlags := t.flags) == v;
    if DivTop(c) == 0 {
      os := [o, o'];
      IrqStep(c, v, t.r, w, f);
      assert FlagRun(c, s, os) == FlagRun(c, t, [o']) == FlagRun(c, u, []);
    } else {
      os := [o, o'] + seq(DivTop(c), _ => o);
      NothingDone(c, v, t.r, w);
      DivCounts(c, v, t.r);
      Drifts(c, w, f, u, o, DivTop(c) - 1);
      TwoThen(c, s, o, o', seq(DivTop(c), _ => o));
    }
  }

  lemma TwoThen(c: Config, s: Flagged, o: Others, o': Others, os: seq<Others>)
    ensures FlagRun(c, s, [o, o'] + os) == FlagRun(c, FlagEdge(c, FlagEdge(c, s, o), o'), os)
  {
    hide FlagEdge;
    var all := [o, o'] + os;
    assert all[1..] == [o'] + os && all[1..][1..] == os;
  }

  // ---------------------------------------------------------------- the CPU and the flags

  /** Nobody clears flag f in this clock; the CPU may raise any flags and clear any others. */
  predicate Spares(w: Int16, f: Int3, o: Others) {
    Sees(o.v, w) && !o.cleared[f] && (o.cpu.ClearFlags? ==> !o.cpu.mask[f])
  }

  /** Nobody raises flag f in this clock, and no attempt is made. */
  predicate Idles(w: Int16, f: Int3, s: Flagged, o: Others) {
    Sees(o.v, w) && !Executes(o.v, s.r) && !o.raised[f] && (o.cpu.ForceFlags? ==> !o.cpu.mask[f])
  }

  predicate AllIdle(c: Config, w: Int16, f: Int3, s: Flagged, os: seq<Others>)
    decreases |os|
  {
    os == [] || (Idles(w, f, s, os[0]) && AllIdle(c, w, f, FlagEdge(c, s, os[0]), os[1..]))
  }

  /** The machine waits, and its flag is up. */
  predicate Blocked(s: Flagged, f: Int3) {
    FetchesOnly(s.r) && s.r.irqWait && s.flags[f] && !s.r.irqClr[f]
  }

  /** The machine waits, and its flag is down and not being raised. */
  predicate Freed(s: Flagged, f: Int3) {
    FetchesOnly(s.r) && s.r.irqWait && !s.flags[f] && !s.r.irqSet[f]
  }

  lemma WaitEdge(c: Config, w: Int16, f: Int3, s: Flagged, o: Others)
    requires IsIrqWait(c, w, f) && FetchesOnly(s.r) && s.r.irqWait && Sees(o.v, w)
    ensures var t, goes := FlagEdge(c, s, o), Executes(o.v, s.r) && !s.flags[f];
            && MovesOn(c, s.r, t.r, !goes) && t.r.irqWait == !goes
            && t.r.irqSet == NO_FLAGS && t.r.irqClr == NO_FLAGS
  {
    hide Clock, IsIrqWait, FlagsNext;
    var v := o.v.(irqFlags := s.flags);
    if Executes(v, s.r) {
      IrqStep(c, v, s.r, w, f);
    } else {
      NothingDone(c, v, s.r, w);
      NothingCleared(c, v, s.r);
    }
  }

  lemma SparedEdge(c: Config, w: Int16, f: Int3, s: Flagged, o: Others)
    requires IsIrqWait(c, w, f) && Blocked(s, f) && Spares(w, f, o)
    ensures Blocked(FlagEdge(c, s, o), f) && FlagEdge(c, s, o).r.pc == s.r.pc
  {
    hide Clock, IsIrqWait;
    WaitEdge(c, w, f, s, o);
  }

  lemma {:induction false} SparedRun(c: Config, w: Int16, f: Int3, s: Flagged, os: seq<Others>)
    requires IsIrqWait(c, w, f) && Blocked(s, f) && forall k :: 0 <= k < |os| ==> Spares(w, f, os[k])
    ensures Blocked(FlagRun(c, s, os), f) && FlagRun(c, s, os).r.pc == s.r.pc
    decreases |os|
  {
    hide IsIrqWait, Blocked, Spares, FlagEdge;
    if os != [] {
      SparedEdge(c, w, f, s, os[0]);
      SparedRun(c, w, f, FlagEdge(c, s, os[0]), os[1..]);
    }
  }

  lemma {:induction false} FreedRun(c: Config, w: Int16, f: Int3, s: Flagged, os: seq<Others>)
    requires IsIrqWait(c, w, f) && Freed(s, f) && AllIdle(c, w, f, s, os)
    ensures Freed(FlagRun(c, s, os), f) && FlagRun(c, s, os).r.pc == s.r.pc
    decreases |os|
  {
    hide IsIrqWait, Clock;
    if os != [] {
      WaitEdge(c, w, f, s, os[0]);
      FreedRun(c, w, f, FlagEdge(c, s, os[0]), os[1..]);
    }
  }

  /** Clearing its flag releases a waiting machine, and nothing less does. With the flag up it stays put over every run
      in which nobody clears that flag, whatever other flags the CPU clears or raises; after a CPU write of IRQ with the
      bit of the flag set, however many clocks later its next attempt comes, it moves on there. */
  lemma CpuReleases(c: Config, w: Int16, f: Int3, s: Flagged, before: seq<Others>, o: Others, after: seq<Others>,
                    o': Others)
    requires IsIrqWait(c, w, f) && Blocked(s, f) && (forall k :: 0 <= k < |before| ==> Spares(w, f, before[k]))
    requires Sees(o.v, w) && o.cpu.ClearFlags? && o.cpu.mask[f]
    requires AllIdle(c, w, f, FlagEdge(c, FlagRun(c, s, before), o), after) && Sees(o'.v, w)
    ensures FlagRun(c, s, before).r.pc == s.r.pc
    ensures var t := FlagRun(c, FlagEdge(c, FlagRun(c, s, before), o), after);
            && t.r.pc == s.r.pc
            && (Executes(o'.v, t.r) ==> FlagEdge(c, t, o').r.pc == Advance(c, s.r.pc))
  {
    hide IsIrqWait, Clock, Advance, Executes, FlagRun, AllIdle;
    SparedRun(c, w, f, s, before);
    var r := FlagRun(c, s, before);
    WaitEdge(c, w, f, r, o);
    FreedRun(c, w, f, FlagEdge(c, r, o), after);
    WaitEdge(c, w, f, FlagRun(c, FlagEdge(c, r, o), after), o');
  }

  /** A WAIT for a flag to be up, the flag raised by a CPU write of IRQ_FORCE: the flag is up in the next clock, an attempt
      that comes then moves on, and the flag is down again two clocks after that if nobody raises it. */
  lemma ForceWakes(c: Config, w: Int16, f: Int3, s: Flagged, o: Others, o': Others, o'': Others)
    requires IsWait(c, w, OnFlag(f), true) && FetchesOnly(s.r) && !s.flags[f]
    requires Sees(o.v, w) && o.cpu.ForceFlags? && o.cpu.mask[f]
    requires Sees(o'.v, w) && o'.cpu.NoIrqWrite? && o''.cpu.NoIrqWrite?
    ensures var t := FlagEdge(c, s, o); t.r.pc == s.r.pc && t.flags[f]
    ensures var t := FlagEdge(c, s, o);
            Executes(o'.v, t.r) ==>
              var u := FlagEdge(c, t, o');
              u.r.pc == Advance(c, s.r.pc) && !FlagEdge(c, u, o'').flags[f]
  {
    hide Clock, IsWait, Advance, Executes;
    WakeStep(c, w, f, s, o);
    WakeStep(c, w, f, FlagEdge(c, s, o), o');
  }

  lemma WakeStep(c: Config, w: Int16, f: Int3, s: Flagged, o: Others)
    requires IsWait(c, w, OnFlag(f), true) && FetchesOnly(s.r) && Sees(o.v, w)
    ensures var r, goes := FlagEdge(c, s, o).r, Executes(o.v, s.r) && s.flags[f];
            MovesOn(c, s.r, r, !goes) && (goes ==> r.irqClr[f])
  {
    hide Clock, IsWait, Advance, SameData;
    var v := o.v.(irqFlags := s.flags);
    if Executes(v, s.r) {
      WaitStep(c, v, s.r, w, OnFlag(f), true);
    } else {
      IdleWait(c, v, s.r, w);
    }
  }
}
