/** The PIO FIFOs: four slots between a write pointer and a read pointer of three bits each. */
module PioFifo {
  import opened Pio

  datatype State = State(mem: seq<Bits32>, wr: Int3, rd: Int3)

  /** The words in a clock: one producer that may push, one consumer that may pop. */
  datatype Op = Op(push: bool, data: Bits32, pop: bool)

  function Next(p: Int3): Int3 {
    if p == 7 then 0 else p + 1
  }

  function Slot(p: Int3): int {
    if p < 4 then p else p - 4
  }

  predicate Full(s: State) {
    Slot(s.wr) == Slot(s.rd) && (s.wr < 4) != (s.rd < 4)
  }

  predicate Empty(s: State) {
    s.wr == s.rd
  }

  function Distance(s: State): nat {
    if s.wr >= s.rd then s.wr - s.rd else s.wr + 8 - s.rd
  }

  predicate Valid(s: State) {
    |s.mem| == 4 && Distance(s) <= 4
  }

  /** The clock edge; both sides judge full and empty by the pointers before it. */
  function Edge(s: State, op: Op): State
    requires Valid(s)
  {
    State(if op.push && !Full(s) then s.mem[Slot(s.wr) := op.data] else s.mem,
          if op.push && !Full(s) then Next(s.wr) else s.wr,
          if op.pop && !Empty(s) then Next(s.rd) else s.rd)
  }

  /** The word at the reading end, as the consumer sees it. */
  function Head(s: State): Bits32
    requires Valid(s)
  {
    s.mem[Slot(s.rd)]
  }

  // ---------------------------------------------------------------- the queue it stands for

  function SlotAfter(p: Int3, i: nat): int
    requires i < 4
  {
    if Slot(p) + i < 4 then Slot(p) + i else Slot(p) + i - 4
  }

  /** The words waiting, oldest first. */
  function Queue(s: State): (q: seq<Bits32>)
    requires Valid(s)
    ensures |q| == Distance(s)
  {
    seq(Distance(s), i requires 0 <= i < Distance(s) => s.mem[SlotAfter(s.rd, i)])
  }

  function Pushed(q: seq<Bits32>, op: Op): seq<Bits32> {
    if op.push && |q| < 4 then [op.data] else []
  }

  function Popped(q: seq<Bits32>, op: Op): seq<Bits32> {
    if op.pop && |q| > 0 then [q[0]] else []
  }

  /** A bounded queue of four: the oldest word goes if there is one, a new one enters at the back if there was room. */
  function QueueEdge(q: seq<Bits32>, op: Op): seq<Bits32> {
    q[|Popped(q, op)|..] + Pushed(q, op)
  }

  /** Full and empty mean four words and none, and the consumer sees the oldest. */
  lemma FlagsMean(s: State)
    requires Valid(s)
    ensures Full(s) <==> |Queue(s)| == 4
    ensures Empty(s) <==> |Queue(s)| == 0
    ensures !Empty(s) ==> Head(s) == Queue(s)[0]
  {
  }

  lemma EdgeLength(s: State, op: Op)
    requires Valid(s)
    ensures Valid(Edge(s, op))
    ensures Distance(Edge(s, op)) ==
            Distance(s) + (if op.push && Distance(s) < 4 then 1 else 0) - (if op.pop && Distance(s) > 0 then 1 else 0)
  {
  }

  /** A word already waiting keeps its value and moves up by one when the oldest is taken. */
  lemma EdgeKeeps(s: State, op: Op, i: nat)
    requires Valid(s) && i < Distance(s)
    requires op.pop ==> i > 0
    ensures var t := Edge(s, op);
            var j := if op.pop then i - 1 else i;
            j < Distance(t) && t.mem[SlotAfter(t.rd, j)] == s.mem[SlotAfter(s.rd, i)]
  {
  }

  lemma EdgeAppends(s: State, op: Op)
    requires Valid(s) && op.push && Distance(s) < 4
    ensures var t := Edge(s, op);
            Distance(t) > 0 && t.mem[SlotAfter(t.rd, Distance(t) - 1)] == op.data
  {
  }

  /** Each clock of the pointers is a clock of the queue. */
  lemma EdgeRefines(s: State, op: Op)
    requires Valid(s)
    ensures Valid(Edge(s, op)) && Queue(Edge(s, op)) == QueueEdge(Queue(s), op)
  {
    hide Edge, Distance, SlotAfter;
    EdgeLength(s, op);
    var t := Edge(s, op);
    var q, q' := Queue(t), QueueEdge(Queue(s), op);
    var gone := |Popped(Queue(s), op)|;
    assert |q| == |q'|;
    forall k: nat | k < |q|
      ensures q[k] == q'[k]
    {
      if k + gone < Distance(s) {
        if op.pop || k + gone == k {
          EdgeKeeps(s, op, k + gone);
        }
      } else {
        EdgeAppends(s, op);
      }
    }
  }

  // ---------------------------------------------------------------- whole runs

  function Run(s: State, ops: seq<Op>): State
    requires Valid(s)
    ensures Valid(Run(s, ops))
    decreases |ops|
  {
    if ops == [] then s
    else
      EdgeLength(s, ops[0]);
      Run(Edge(s, ops[0]), ops[1..])
  }

  /** The words that were accepted, and the words that were handed out, along a run. */
  function Accepted(s: State, ops: seq<Op>): seq<Bits32>
    requires Valid(s)
    decreases |ops|
  {
    if ops == [] then []
    else
      EdgeLength(s, ops[0]);
      (if ops[0].push && !Full(s) then [ops[0].data] else []) + Accepted(Edge(s, ops[0]), ops[1..])
  }

  function Delivered(s: State, ops: seq<Op>): seq<Bits32>
    requires Valid(s)
    decreases |ops|
  {
    if ops == [] then []
    else
      EdgeLength(s, ops[0]);
      (if ops[0].pop && !Empty(s) then [Head(s)] else []) + Delivered(Edge(s, ops[0]), ops[1..])
  }

  lemma EdgeConserves(s: State, op: Op)
    requires Valid(s)
    ensures Valid(Edge(s, op))
    ensures Queue(s) + (if op.push && !Full(s) then [op.data] else []) ==
            (if op.pop && !Empty(s) then [Head(s)] else []) + Queue(Edge(s, op))
  {
    hide Edge, Queue, Full, Empty, Head;
    EdgeRefines(s, op);
    FlagsMean(s);
  }

  /** Over every run nothing is lost, repeated or reordered: what waited at the start, then the words accepted, are the
      words handed out, then what waits at the end. */
  lemma {:induction false} EveryRunConserves(s: State, ops: seq<Op>)
    requires Valid(s)
    ensures Queue(s) + Accepted(s, ops) == Delivered(s, ops) + Queue(Run(s, ops))
    ensures |Queue(Run(s, ops))| <= 4
    decreases |ops|
  {
    hide Edge, Queue, Full, Empty, Head;
    if ops != [] {
      EdgeConserves(s, ops[0]);
      var t := Edge(s, ops[0]);
      EveryRunConserves(t, ops[1..]);
      var entering := if ops[0].push && !Full(s) then [ops[0].data] else [];
      var leaving := if ops[0].pop && !Empty(s) then [Head(s)] else [];
      Regroup(Queue(s), entering, Accepted(t, ops[1..]), leaving, Queue(t), Delivered(t, ops[1..]),
              Queue(Run(s, ops)));
    }
  }

  lemma Regroup(q: seq<Bits32>, entering: seq<Bits32>, later: seq<Bits32>, leaving: seq<Bits32>, q': seq<Bits32>,
                given: seq<Bits32>, left: seq<Bits32>)
    requires q + entering == leaving + q' && q' + later == given + left
    ensures q + (entering + later) == (leaving + given) + left
  {
    assert q + (entering + later) == (q + entering) + later == leaving + (q' + later);
    assert leaving + (given + left) == (leaving + given) + left;
  }

  /** One FIFO of the RTL: a memory of four words and two pointers. */
  class Fifo {
    const mem: array<Bits32>
    var wr: Int3
    var rd: Int3

    ghost predicate Well()
      reads this, mem
    {
      mem.Length == 4 && Valid(Snapshot())
    }

    ghost function Snapshot(): State
      reads this, mem
    {
      State(mem[..], wr, rd)
    }

    constructor ()
      ensures Well() && fresh(mem)
      ensures Queue(Snapshot()) == []
    {
      mem := new Bits32[4](_ => ZERO);
      wr := 0;
      rd := 0;
    }

    method ClockEdge(op: Op)
      requires Well()
      modifies this`wr, this`rd, mem
      ensures Well() && Queue(Snapshot()) == QueueEdge(old(Queue(Snapshot())), op)
    {
      hide Queue, QueueEdge, Valid;
      ghost var s := Snapshot();
      EdgeRefines(s, op);
      var full := Slot(wr) == Slot(rd) && (wr < 4) != (rd < 4);
      var empty := wr == rd;
      if op.push && !full {
        mem[Slot(wr)] := op.data;
        wr := Next(wr);
      }
      if op.pop && !empty {
        rd := Next(rd);
      }
      assert Snapshot() == Edge(s, op);
    }
  }
}
