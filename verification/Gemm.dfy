/** The matrix multiplier: a row buffer, a skew chain, an 8x8 grid of multiply-accumulate cells, and the FSM around them.

    Cell (k, n) of the grid is element 8 * k + n of `weights` and `acc`. `Clock` is one cycle as a function; the
    class `Engine` (GemmEngine.dfy) is the same transfer in the RTL's form and is proved equal to it. */
module Gemm {
  import opened Words

  type Int4 = x: int | 0 <= x < 16

  type Grid8 = s: seq<Int8> | |s| == 64 witness seq(64, _ => 0)

  type Int32 = x: int | -0x8000_0000 <= x < 0x8000_0000

  type Grid = s: seq<Int32> | |s| == 64 witness seq(64, _ => 0)

  type RowBuf = s: seq<Int8> | |s| == 8 witness seq(8, _ => 0)

  type Chain = s: seq<Int8> | |s| == 7 witness seq(7, _ => 0)

  /** The control registers and the preloaded weights, constant while the engine is busy. */
  datatype Config = Config(src: Word, dst: Word, matM: Int4, matK: Int4, matN: Int4, weights: Grid8)

  datatype Phase = Idle | ComputeClr | RdReq | RdWait | SkewFeed | WrReq | WrWait

  datatype Regs = Regs(phase: Phase, busy: bool, done: bool, m: Int4, k: Int4, n: Int4,
                       rowBuf: RowBuf, skew: Chain, acc: Grid)

  function Inc4(x: Int4): Int4 {
    if x == 15 then 0 else x + 1
  }

  function Dec4(x: Int4): Int4 {
    if x == 0 then 15 else x - 1
  }

  // ---------------------------------------------------------------- datapath

  /** The sample entering the skew chain: the row buffer from its far end, 0 beyond the row and outside SKEW_FEED. */
  function SkewIn(c: Config, r: Regs): Int8 {
    var idx := 7 - r.k % 8;
    if r.phase.SkewFeed? && idx < c.matK then r.rowBuf[idx] else 0
  }

  /** Row j of the array sees the input delayed by j cycles. */
  function SkewOut(skewIn: Int8, skew: Chain): (a: seq<Int8>)
    ensures |a| == 8
  {
    [skewIn] + skew
  }

  function Shifted(skewIn: Int8, skew: Chain): Chain {
    [skewIn] + skew[..6]
  }

  /** One enable pulse: every cell adds its row's activation times its weight. */
  function Accumulated(acc: Grid, a: seq<Int8>, weights: Grid8): Grid
    requires |a| == 8
  {
    seq(64, i requires 0 <= i < 64 => Mac(acc[i], a[i / 8], weights[i]))
  }

  /** pe_cell: the full 16-bit product, sign-extended, added to a 32-bit accumulator. */
  function Mac(acc: Int32, a: Int8, w: Int8): Int32 {
    S32(acc + S16(Product(a, w)))
  }

  function Sum32(x: int, y: int): Int32 {
    S32(x + y)
  }

  /** The sum of the first k cells of column n, through 32-bit adders. */
  function Drain(acc: Grid, n: nat, k: nat): int
    requires n < 8 && k <= 8
  {
    if k == 0 then 0 else Sum32(Drain(acc, n, k - 1), acc[8 * (k - 1) + n])
  }

  function ReadAddr(c: Config, m: Int4, k: Int4): Word {
    U32(c.src + 4 * Cell(m, k, c.matK))
  }

  function WriteAddr(c: Config, m: Int4, n: Int4): Word {
    U32(c.dst + 4 * Cell(m, n, c.matN))
  }

  // ---------------------------------------------------------------- one clock edge

  /** Writing CTRL.GO while idle. */
  function Go(r: Regs): Regs {
    r.(phase := ComputeClr, busy := true, done := false, m := 0, k := 0, n := 0)
  }

  function DmaRequest(c: Config, r: Regs): Option<Request> {
    match r.phase
    case RdReq => Some(Request(ReadAddr(c, r.m, r.k), false, 0))
    case WrReq => Some(Request(WriteAddr(c, r.m, r.n), true, U32(Drain(r.acc, r.n % 8, 8))))
    case _ => None
  }

  /** The FSM's own registers. */
  function Control(c: Config, r: Regs, gnt: bool, rvalid: bool): Regs {
    match r.phase
    case Idle => r
    case ComputeClr => r.(phase := RdReq, k := 0, n := 0)
    case RdReq => if gnt then r.(phase := RdWait) else r
    case RdWait =>
      if !rvalid then r
      else if r.k == Dec4(c.matK) then r.(phase := SkewFeed, k := 0)
      else r.(phase := RdReq, k := Inc4(r.k))
    case SkewFeed => if r.k == 7 then r.(phase := WrReq, k := 0) else r.(k := Inc4(r.k))
    case WrReq => if gnt then r.(phase := WrWait) else r
    case WrWait =>
      if !rvalid then r
      else if r.n != Dec4(c.matN) then r.(phase := WrReq, n := Inc4(r.n))
      else if r.m != Dec4(c.matM) then r.(phase := ComputeClr, n := 0, m := Inc4(r.m))
      else r.(phase := Idle, n := 0, busy := false, done := true)
  }

  /** The datapath registers: the row buffer, the skew chain (which shifts in every cycle) and the accumulators. */
  function Clock(c: Config, r: Regs, gnt: bool, rvalid: bool, rdata: Word): Regs {
    Control(c, r, gnt, rvalid).(
      rowBuf := if r.phase.RdWait? && rvalid then r.rowBuf[r.k % 8 := S8(rdata)] else r.rowBuf,
      skew := Shifted(SkewIn(c, r), r.skew),
      acc := if r.phase.ComputeClr? then seq(64, _ => 0)
             else if r.phase.SkewFeed? && r.k == 7 then Accumulated(r.acc, SkewOut(SkewIn(c, r), r.skew), c.weights)
             else r.acc)
  }

  // ---------------------------------------------------------------- the engine and its memory

  datatype System = System(regs: Regs, mem: Memory, granted: Request)

  function Step(c: Config, s: System, i: Cycle): System {
    var req := DmaRequest(c, s.regs);
    var granted := req.Some? && i.gnt;
    System(
      Clock(c, s.regs, i.gnt, i.rvalid, Load(s.mem, s.granted.addr, i.stray)),
      if granted && req.value.write then s.mem[req.value.addr := req.value.data] else s.mem,
      if granted then req.value else s.granted)
  }

  function Run(c: Config, s: System, schedule: seq<Cycle>): System {
    if schedule == [] then s
    else Step(c, Run(c, s, schedule[..|schedule| - 1]), schedule[|schedule| - 1])
  }

  function Start(r0: Regs, m0: Memory, q0: Request): System {
    System(Go(r0), m0, q0)
  }

  // ---------------------------------------------------------------- what a run computes

  /** MAT_M is four bits wide; 0 stands for 16 rows. */
  function Rows(c: Config): nat {
    if c.matM == 0 then 16 else c.matM
  }

  predicate Legal(c: Config) {
    && 1 <= c.matK <= 8 && 1 <= c.matN <= 8
    && c.src % 4 == 0 && c.src + 4 * Cell(Rows(c), 0, c.matK) <= TWO32
    && c.dst % 4 == 0 && c.dst + 4 * Cell(Rows(c), 0, c.matN) <= TWO32
  }

  /** A is in memory, one word per element, row-major. */
  predicate Loaded(c: Config, m0: Memory) {
    Mapped(m0, c.src, Cell(Rows(c), 0, c.matK))
  }

  function A(c: Config, m0: Memory, m: int, k: int): Int8
    requires Loaded(c, m0) && 0 <= m < Rows(c) && 0 <= k < c.matK
  {
    CellBound(m, k, Rows(c), c.matK);
    S8(m0[c.src + 4 * Cell(m, k, c.matK)])
  }

  /** Row m of A and column n of the weights. */
  function RowOf(c: Config, m0: Memory, m: nat): (row: seq<Int8>)
    requires Loaded(c, m0) && m < Rows(c)
    ensures |row| == c.matK
  {
    seq(c.matK, k requires 0 <= k < c.matK => A(c, m0, m, k))
  }

  function ColumnOf(c: Config, n: nat): (col: seq<Int8>)
    requires n < 8 && c.matK <= 8
    ensures |col| == c.matK
  {
    seq(c.matK, k requires 0 <= k < c.matK => c.weights[8 * k + n])
  }

  /** Element (m, n) of A times B. */
  function Element(c: Config, m0: Memory, m: nat, n: nat): int
    requires Loaded(c, m0) && m < Rows(c) && n < 8 && c.matK <= 8
  {
    Dot(RowOf(c, m0, m), ColumnOf(c, n), c.matK)
  }

  function OutputNo(c: Config, m0: Memory, o: nat): Word
    requires Legal(c) && Loaded(c, m0) && o < Cell(Rows(c), 0, c.matN)
  {
    DivisionBound(o, Rows(c), c.matN);
    U32(Element(c, m0, o / c.matN, o % c.matN))
  }

  function Outputs(c: Config, m0: Memory): (ws: seq<Word>)
    requires Legal(c) && Loaded(c, m0)
    ensures |ws| == Cell(Rows(c), 0, c.matN)
  {
    CellBound(0, 0, Rows(c), c.matN);
    seq(Cell(Rows(c), 0, c.matN), o requires 0 <= o < Cell(Rows(c), 0, c.matN) => OutputNo(c, m0, o))
  }

  // ---------------------------------------------------------------- what is read when buffers overlap

  /** Output number o goes to the word that element (y, k) of A comes from. */
  predicate Lands(c: Config, o: int, y: int, k: int) {
    c.dst + 4 * o == c.src + 4 * Cell(y, k, c.matK)
  }

  /** No output of a row lands on an element of a later row of A. */
  ghost predicate NoClobber(c: Config) {
    forall o, y, k ::
      0 <= y < Rows(c) && 0 <= k < c.matK && 0 <= o < Cell(y, 0, c.matN) ==> !Lands(c, o, y, k)
  }

  /** The word found at element (y, k) of A when it is read, the outputs being ws. */
  function Found(c: Config, m0: Memory, ws: seq<Word>, y: int, k: int): Word {
    ReadBack(m0, c.dst, Upto(ws, Cell(y, 0, c.matN)), c.src + 4 * Cell(y, k, c.matK))
  }

  predicate ElementIs(c: Config, m: Memory, y: int, k: int, w: Word) {
    var a := c.src + 4 * Cell(y, k, c.matK);
    a in m && m[a] == w
  }

  /** mi holds A as this run reads it: each word original unless an output has landed on it by then. */
  ghost predicate ReadAs(c: Config, m0: Memory, mi: Memory)
    requires Legal(c) && Loaded(c, m0)
  {
    && Loaded(c, mi)
    && forall y, k :: 0 <= y < Rows(c) && 0 <= k < c.matK ==>
         ElementIs(c, mi, y, k, Found(c, m0, Outputs(c, mi), y, k))
  }

  /** Where no output lands on an unread element, A is read as it was. */
  lemma ReadAsOriginal(c: Config, m0: Memory)
    requires Legal(c) && Loaded(c, m0) && NoClobber(c)
    ensures ReadAs(c, m0, m0)
  {
    hide Outputs, Store, Cell, Lands;
    var ws := Outputs(c, m0);
    forall y, k | 0 <= y < Rows(c) && 0 <= k < c.matK
      ensures ElementIs(c, m0, y, k, Found(c, m0, ws, y, k))
    {
      CellBound(y, k, Rows(c), c.matK);
      var x := c.src + 4 * Cell(y, k, c.matK);
      assert x in m0;
      StoreLookup(m0, c.dst, Upto(ws, Cell(y, 0, c.matN)), x);
      Landing(c, |Upto(ws, Cell(y, 0, c.matN))|, y, k);
    }
  }

  lemma Landing(c: Config, n: nat, y: int, k: int)
    ensures InBlock(c.src + 4 * Cell(y, k, c.matK), c.dst, n) ==> exists o :: 0 <= o < n && Lands(c, o, y, k)
  {
    var x := c.src + 4 * Cell(y, k, c.matK);
    if InBlock(x, c.dst, n) {
      assert Lands(c, (x - c.dst) / 4, y, k);
    }
  }

  // ---------------------------------------------------------------- the invariant of every run

  predicate Counters(c: Config, r: Regs)
    requires Legal(c)
  {
    && r.busy == !r.phase.Idle? && r.done == r.phase.Idle?
    && r.m < Rows(c)
    && (r.phase.RdReq? || r.phase.RdWait? ==> r.k < c.matK && r.n == 0)
    && (r.phase.SkewFeed? ==> r.k < 8 && r.n == 0)
    && (r.phase.WrReq? || r.phase.WrWait? ==> r.n < c.matN)
    && (r.phase.Idle? ==> r.m == Rows(c) - 1 && r.n == 0)
  }

  function RowCycles(c: Config): int {
    9 + 2 * c.matK + 2 * c.matN
  }

  /** Cycles of the current row already behind. */
  function Spent(c: Config, r: Regs): int {
    match r.phase
    case Idle => RowCycles(c)
    case ComputeClr => 0
    case RdReq => 1 + 2 * r.k
    case RdWait => 2 + 2 * r.k
    case SkewFeed => 1 + 2 * c.matK + r.k
    case WrReq => 9 + 2 * c.matK + 2 * r.n
    case WrWait => 10 + 2 * c.matK + 2 * r.n
  }

  /** Cycles still needed if the environment never makes the engine wait. */
  function Todo(c: Config, r: Regs): int {
    Cell(Rows(c) - r.m, 0, RowCycles(c)) - Spent(c, r)
  }

  predicate Serves(r: Regs, i: Cycle) {
    match r.phase
    case Idle => false
    case ComputeClr => true
    case RdReq => i.gnt
    case RdWait => i.rvalid
    case SkewFeed => true
    case WrReq => i.gnt
    case WrWait => i.rvalid
  }

  lemma ControlStep(c: Config, r: Regs, i: Cycle)
    requires Legal(c) && Counters(c, r)
    ensures var r' := Control(c, r, i.gnt, i.rvalid);
      Counters(c, r') && Todo(c, r') == Todo(c, r) - if Serves(r, i) then 1 else 0
  {
    hide Cell;
    CellNext(Rows(c) - r.m - 1, RowCycles(c) - 1, RowCycles(c));
    CellShift(Rows(c) - r.m - 1, RowCycles(c));
  }

  lemma CellShift(row: int, w: int)
    ensures Cell(row + 1, 0, w) == Cell(row, 0, w) + w
  {
  }

  // ---------------------------------------------------------------- the datapath between the counters

  /** What the chain was fed t cycles after SKEW_FEED began. */
  function Feed(c: Config, m0: Memory, m: nat, t: int): Int8
    requires Loaded(c, m0) && m < Rows(c) && 0 <= t < 8
  {
    if 7 - t < c.matK then A(c, m0, m, 7 - t) else 0
  }

  function Partial(c: Config, m0: Memory, m: nat, i: nat): int
    requires Loaded(c, m0) && m < Rows(c) && i < 64
  {
    if i / 8 < c.matK then Product(A(c, m0, m, i / 8), c.weights[i]) else 0
  }

  predicate RowLoaded(c: Config, m0: Memory, r: Regs, k: nat)
    requires Loaded(c, m0) && r.m < Rows(c) && k <= c.matK <= 8
  {
    forall j :: 0 <= j < k ==> r.rowBuf[j] == A(c, m0, r.m, j)
  }

  predicate ChainFed(c: Config, m0: Memory, r: Regs)
    requires Loaded(c, m0) && r.m < Rows(c) && r.k < 8
  {
    forall j :: 0 <= j < r.k ==> r.skew[j] == Feed(c, m0, r.m, r.k - 1 - j)
  }

  predicate Cleared(r: Regs) {
    forall i :: 0 <= i < 64 ==> r.acc[i] == 0
  }

  predicate Multiplied(c: Config, m0: Memory, r: Regs)
    requires Loaded(c, m0) && r.m < Rows(c)
  {
    forall i :: 0 <= i < 64 ==> r.acc[i] == Partial(c, m0, r.m, i)
  }

  /** Words written so far. */
  function Stored(c: Config, r: Regs): int {
    if r.phase.Idle? then Cell(Rows(c), 0, c.matN)
    else Cell(r.m, if r.phase.WrReq? || r.phase.WrWait? then r.n else 0, c.matN) + if r.phase.WrWait? then 1 else 0
  }

  predicate Data(c: Config, m0: Memory, mi: Memory, ws: seq<Word>, s: System)
    requires Legal(c) && Loaded(c, mi) && Counters(c, s.regs) && |ws| == Cell(Rows(c), 0, c.matN)
  {
    var r := s.regs;
    && 0 <= Stored(c, r) <= |ws| && s.mem == Store(m0, c.dst, ws[..Stored(c, r)])
    && (r.phase.RdReq? || r.phase.RdWait? ==> RowLoaded(c, mi, r, r.k) && Cleared(r))
    && (r.phase.RdWait? ==> s.granted == Request(ReadAddr(c, r.m, r.k), false, 0))
    && (r.phase.SkewFeed? ==> RowLoaded(c, mi, r, c.matK) && Cleared(r) && ChainFed(c, mi, r))
    && (r.phase.WrReq? || r.phase.WrWait? ==> Multiplied(c, mi, r))
  }

  predicate Invariant(c: Config, m0: Memory, mi: Memory, s: System)
    requires Legal(c) && Loaded(c, mi)
  {
    Counters(c, s.regs) && Data(c, m0, mi, Outputs(c, mi), s)
  }

  /** While the chain is fed, each sample is the matching element of row m. */
  lemma SkewInIsFeed(c: Config, m0: Memory, r: Regs)
    requires Legal(c) && Loaded(c, m0) && Counters(c, r) && r.phase.SkewFeed? && RowLoaded(c, m0, r, c.matK)
    ensures SkewIn(c, r) == Feed(c, m0, r.m, r.k)
  {
    hide A, Loaded, Cell;
  }

  /** At the enable pulse row j of the array sees A[m][j], or 0 in the rows beyond K. */
  lemma EnablePulse(c: Config, m0: Memory, r: Regs, j: nat)
    requires Legal(c) && Loaded(c, m0) && Counters(c, r) && r.phase.SkewFeed? && r.k == 7 && j < 8
    requires RowLoaded(c, m0, r, c.matK) && ChainFed(c, m0, r)
    ensures SkewOut(SkewIn(c, r), r.skew)[j] == if j < c.matK then A(c, m0, r.m, j) else 0
  {
    hide A, Loaded, Cell, SkewIn;
    SkewInIsFeed(c, m0, r);
    if j > 0 {
      assert r.skew[j - 1] == Feed(c, m0, r.m, r.k - 1 - (j - 1));
    }
  }

  lemma MacFromZero(a: Int8, w: Int8)
    ensures Mac(0, a, w) == Product(a, w) && Product(0, w) == 0
  {
    ProductFits(a, w);
    hide Product, S16;
    ZeroTimes(w);
  }

  lemma ZeroTimes(w: int)
    ensures Product(0, w) == 0
  {
  }

  /** The pulse leaves A[m][k] * B[k][n] in cell (k, n), and nothing in the rows beyond K whatever their weights. */
  lemma PulseMultiplies(c: Config, m0: Memory, r: Regs, i: nat)
    requires Legal(c) && Loaded(c, m0) && Counters(c, r) && r.phase.SkewFeed? && r.k == 7 && i < 64
    requires RowLoaded(c, m0, r, c.matK) && ChainFed(c, m0, r) && Cleared(r)
    ensures Accumulated(r.acc, SkewOut(SkewIn(c, r), r.skew), c.weights)[i] == Partial(c, m0, r.m, i)
  {
    hide A, Loaded, Cell, SkewIn, RowLoaded, ChainFed, SkewOut, Mac, Product, Legal, Counters;
    var j := i / 8;
    assert 0 <= j < 8;
    EnablePulse(c, m0, r, j);
    MacFromZero(SkewOut(SkewIn(c, r), r.skew)[j], c.weights[i]);
    assert r.acc[i] == 0;
  }

  lemma CellTerm(c: Config, m0: Memory, r: Regs, n: nat, k: nat)
    requires Legal(c) && Loaded(c, m0) && r.m < Rows(c) && Multiplied(c, m0, r) && n < 8 && k < 8
    ensures r.acc[8 * k + n] == if k < c.matK then Product(RowOf(c, m0, r.m)[k], ColumnOf(c, n)[k]) else 0
  {
    hide A, Loaded, Cell, Product;
    assert r.acc[8 * k + n] == Partial(c, m0, r.m, 8 * k + n);
  }

  lemma SumFits(x: int)
    requires -8 * 16384 <= x <= 8 * 16384
    ensures S32(x) == x
  {
  }

  /** The column sums are the elements of the product. */
  lemma {:induction false} DrainIs(c: Config, m0: Memory, r: Regs, n: nat, k: nat)
    requires Legal(c) && Loaded(c, m0) && r.m < Rows(c) && Multiplied(c, m0, r) && n < 8 && k <= 8
    ensures Drain(r.acc, n, k) == Dot(RowOf(c, m0, r.m), ColumnOf(c, n), if k < c.matK then k else c.matK)
  {
    hide A, Loaded, Cell, Product, Multiplied, RowOf, ColumnOf, S32;
    if k > 0 {
      DrainIs(c, m0, r, n, k - 1);
      CellTerm(c, m0, r, n, k - 1);
      var d := Dot(RowOf(c, m0, r.m), ColumnOf(c, n), if k < c.matK then k else c.matK);
      DotBound(RowOf(c, m0, r.m), ColumnOf(c, n), if k < c.matK then k else c.matK);
      SumFits(d);
    }
  }

  // ---------------------------------------------------------------- every step and every run

  /** The response to a read is the element as this run reads it. */
  lemma ElementFound(c: Config, m0: Memory, mi: Memory, ws: seq<Word>, m: nat, k: nat, stray: Word)
    requires Legal(c) && Loaded(c, m0) && ReadAs(c, m0, mi) && ws == Outputs(c, mi)
    requires m < Rows(c) && k < c.matK && 0 <= Cell(m, 0, c.matN) <= |ws|
    ensures S8(Load(Store(m0, c.dst, ws[..Cell(m, 0, c.matN)]), ReadAddr(c, m, k), stray)) == A(c, mi, m, k)
  {
    hide Store, S8, Cell, Outputs;
    CellBound(m, k, Rows(c), c.matK);
    var x := c.src + 4 * Cell(m, k, c.matK);
    assert x in m0;
    assert Found(c, m0, ws, m, k) == mi[x];
    StoreLookup(m0, c.dst, ws[..Cell(m, 0, c.matN)], x);
  }

  lemma ReadKeeps(c: Config, m0: Memory, mi: Memory, ws: seq<Word>, s: System, i: Cycle)
    requires Legal(c) && Loaded(c, m0) && ReadAs(c, m0, mi) && ws == Outputs(c, mi)
    requires Counters(c, s.regs) && Data(c, m0, mi, ws, s) && s.regs.phase.RdWait? && i.rvalid
    requires Counters(c, Step(c, s, i).regs)
    ensures Data(c, m0, mi, ws, Step(c, s, i))
  {
    hide Store, S8, Cell, A, Loaded, Found, Load, ReadAddr, SkewIn, Shifted, Accumulated;
    ElementFound(c, m0, mi, ws, s.regs.m, s.regs.k, i.stray);
  }

  lemma FeedKeeps(c: Config, m0: Memory, mi: Memory, ws: seq<Word>, s: System, i: Cycle)
    requires Legal(c) && Loaded(c, mi) && |ws| == Cell(Rows(c), 0, c.matN)
    requires Counters(c, s.regs) && Data(c, m0, mi, ws, s) && s.regs.phase.SkewFeed?
    requires Counters(c, Step(c, s, i).regs)
    ensures Data(c, m0, mi, ws, Step(c, s, i))
  {
    var r, r' := s.regs, Step(c, s, i).regs;
    hide Store, S8, Cell, A, Loaded, Load, SkewIn, Accumulated, Partial, Feed, RowLoaded;
    SkewInIsFeed(c, mi, r);
    if r.k < 7 {
      assert RowLoaded(c, mi, r', c.matK) by { SameRow(c, mi, r, r', c.matK); }
    } else {
      forall j: nat | j < 64 ensures r'.acc[j] == Partial(c, mi, r.m, j) {
        PulseMultiplies(c, mi, r, j);
      }
    }
  }

  lemma SameRow(c: Config, m0: Memory, r: Regs, r': Regs, k: nat)
    requires Loaded(c, m0) && r.m < Rows(c) && k <= c.matK <= 8 && RowLoaded(c, m0, r, k)
    requires r'.m == r.m && r'.rowBuf == r.rowBuf
    ensures RowLoaded(c, m0, r', k)
  {
  }

  lemma OutputAt(c: Config, m0: Memory, m: nat, n: nat)
    requires Legal(c) && Loaded(c, m0) && m < Rows(c) && n < c.matN
    ensures 0 <= Cell(m, n, c.matN) < Cell(Rows(c), 0, c.matN)
    ensures Outputs(c, m0)[Cell(m, n, c.matN)] == U32(Element(c, m0, m, n))
  {
    hide Cell, U32, Element, Loaded;
    CellBound(m, n, Rows(c), c.matN);
    CellDecode(m, n, c.matN);
    assert Outputs(c, m0)[Cell(m, n, c.matN)] == OutputNo(c, m0, Cell(m, n, c.matN));
  }

  /** The word offered for writing is the next output. */
  lemma WriteData(c: Config, m0: Memory, r: Regs)
    requires Legal(c) && Loaded(c, m0) && Counters(c, r) && r.phase.WrReq? && Multiplied(c, m0, r)
    ensures 0 <= Cell(r.m, r.n, c.matN) < Cell(Rows(c), 0, c.matN)
    ensures WriteAddr(c, r.m, r.n) == c.dst + 4 * Cell(r.m, r.n, c.matN)
    ensures U32(Drain(r.acc, r.n % 8, 8)) == Outputs(c, m0)[Cell(r.m, r.n, c.matN)]
  {
    hide Cell, Multiplied, Drain, Outputs, Loaded, A;
    OutputAt(c, m0, r.m, r.n);
    DrainIs(c, m0, r, r.n, 8);
  }

  lemma WriteKeeps(c: Config, m0: Memory, mi: Memory, ws: seq<Word>, s: System, i: Cycle)
    requires Legal(c) && Loaded(c, mi) && ws == Outputs(c, mi)
    requires Counters(c, s.regs) && Data(c, m0, mi, ws, s) && s.regs.phase.WrReq?
    requires Counters(c, Step(c, s, i).regs)
    ensures Data(c, m0, mi, ws, Step(c, s, i))
  {
    hide Store, S8, Cell, Loaded, Load, SkewIn, Shifted, Accumulated, Legal, Partial, Outputs, U32, WriteAddr, Drain;
    WriteData(c, mi, s.regs);
    StoreSnoc(m0, c.dst, ws, Cell(s.regs.m, s.regs.n, c.matN));
  }

  /** The remaining edges: clearing, a granted read, an acknowledged write, and waiting. */
  lemma OtherKeeps(c: Config, m0: Memory, mi: Memory, ws: seq<Word>, s: System, i: Cycle)
    requires Legal(c) && Loaded(c, mi) && |ws| == Cell(Rows(c), 0, c.matN)
    requires Counters(c, s.regs) && Data(c, m0, mi, ws, s)
    requires !s.regs.phase.SkewFeed? && !s.regs.phase.WrReq? && !(s.regs.phase.RdWait? && i.rvalid)
    requires Counters(c, Step(c, s, i).regs)
    ensures Data(c, m0, mi, ws, Step(c, s, i))
  {
    hide Store, S8, Cell, Loaded, Load, SkewIn, Shifted, Accumulated, Partial, A, ReadAddr;
    var r := s.regs;
    CellNext(r.m, r.n, c.matN);
    if r.phase.WrWait? {
      CellBound(r.m, r.n, Rows(c), c.matN);
    }
  }

  lemma ClockCounts(c: Config, s: System, i: Cycle)
    requires Legal(c) && Counters(c, s.regs)
    ensures Counters(c, Step(c, s, i).regs)
    ensures Todo(c, Step(c, s, i).regs) == Todo(c, s.regs) - if Serves(s.regs, i) then 1 else 0
  {
    hide Cell, SkewIn, Shifted, Accumulated, Load, Drain, Legal, Control;
    ControlStep(c, s.regs, i);
  }

  lemma StepKeeps(c: Config, m0: Memory, mi: Memory, s: System, i: Cycle)
    requires Legal(c) && Loaded(c, m0) && ReadAs(c, m0, mi) && Invariant(c, m0, mi, s)
    ensures Invariant(c, m0, mi, Step(c, s, i))
    ensures Todo(c, Step(c, s, i).regs) == Todo(c, s.regs) - if Serves(s.regs, i) then 1 else 0
  {
    hide Data, Legal, Loaded, Found, Outputs, Step, Counters, Todo, Serves;
    var ws := Outputs(c, mi);
    ClockCounts(c, s, i);
    if s.regs.phase.RdWait? && i.rvalid {
      ReadKeeps(c, m0, mi, ws, s, i);
    } else if s.regs.phase.SkewFeed? {
      FeedKeeps(c, m0, mi, ws, s, i);
    } else if s.regs.phase.WrReq? {
      WriteKeeps(c, m0, mi, ws, s, i);
    } else {
      OtherKeeps(c, m0, mi, ws, s, i);
    }
  }

  lemma TodoPositive(c: Config, r: Regs)
    requires Legal(c) && Counters(c, r)
    ensures 0 <= Todo(c, r) && (r.done ==> Todo(c, r) == 0) && (!r.done ==> 0 < Todo(c, r))
  {
    hide Cell;
    CellShift(Rows(c) - r.m - 1, RowCycles(c));
    CellBound(Rows(c) - r.m - 1, 0, Rows(c), RowCycles(c));
    CellNext(0, 0, RowCycles(c));
  }

  lemma {:induction false} RunKeeps(c: Config, m0: Memory, mi: Memory, s: System, schedule: seq<Cycle>)
    requires Legal(c) && Loaded(c, m0) && ReadAs(c, m0, mi) && Invariant(c, m0, mi, s)
    ensures Invariant(c, m0, mi, Run(c, s, schedule))
    ensures !Run(c, s, schedule).regs.done ==> Todo(c, Run(c, s, schedule).regs) <= Todo(c, s.regs) - ReadyCycles(schedule)
  {
    hide Data, Step, Legal, Loaded, Found, Outputs, Todo, Counters, Cell;
    if schedule != [] {
      var n := |schedule| - 1;
      var t, i := Run(c, s, schedule[..n]), schedule[n];
      RunKeeps(c, m0, mi, s, schedule[..n]);
      StepKeeps(c, m0, mi, t, i);
      if t.regs.done {
        StaysDone(c, t, i);
      } else {
        NotDone(c, t.regs);
      }
    }
  }

  lemma StaysDone(c: Config, s: System, i: Cycle)
    requires Legal(c) && Counters(c, s.regs) && s.regs.done
    ensures Step(c, s, i).regs.done
  {
  }

  lemma NotDone(c: Config, r: Regs)
    requires Legal(c) && Counters(c, r) && !r.done
    ensures !r.phase.Idle?
  {
  }

  lemma StartEstablishes(c: Config, r0: Regs, m0: Memory, mi: Memory, q0: Request)
    requires Legal(c) && Loaded(c, mi)
    ensures Invariant(c, m0, mi, Start(r0, m0, q0))
    ensures Todo(c, Go(r0)) == Cell(Rows(c), 0, RowCycles(c))
  {
    hide Outputs, Cell, Loaded, Store;
    CellNext(0, 0, c.matN);
    CellBound(0, 0, Rows(c), c.matN);
    NothingDelivered(m0, c.dst, Outputs(c, mi));
  }

  /** Whatever the buffers' overlap: when DONE is up the product of A as read is exactly in place, and DONE is up as soon
      as the environment has been ready for Rows * (9 + 2K + 2N) cycles. */
  lemma EveryRunComputes(c: Config, r0: Regs, m0: Memory, mi: Memory, q0: Request, schedule: seq<Cycle>)
    requires Legal(c) && Loaded(c, m0) && ReadAs(c, m0, mi)
    ensures var s := Run(c, Start(r0, m0, q0), schedule);
      && s.regs.busy == !s.regs.done
      && (s.regs.done ==> Finished(false, c.dst, m0, Outputs(c, mi), s.mem, []))
      && (Cell(Rows(c), 0, RowCycles(c)) <= ReadyCycles(schedule) ==> s.regs.done)
  {
    hide Outputs, Store, Step, Finished, Beats, Legal, Loaded, Found, Go, Todo, Cell, RowLoaded, Multiplied;
    var s0 := Start(r0, m0, q0);
    var s, ws := Run(c, s0, schedule), Outputs(c, mi);
    StartEstablishes(c, r0, m0, mi, q0);
    RunKeeps(c, m0, mi, s0, schedule);
    TodoPositive(c, s.regs);
    if s.regs.done {
      assert ws[..|ws|] == ws;
      AllDelivered(false, c.dst, m0, ws, s.mem, []);
    }
  }

  /** For every A, B, handshake and leftover row buffer, skew chain and accumulators: when DONE is up C = A * B is exactly
      in place, and DONE is up as soon as the environment has been ready for Rows * (9 + 2K + 2N) cycles. */
  lemma EveryRunMultiplies(c: Config, r0: Regs, m0: Memory, q0: Request, schedule: seq<Cycle>)
    requires Legal(c) && Loaded(c, m0) && NoClobber(c)
    ensures var s := Run(c, Start(r0, m0, q0), schedule);
      && s.regs.busy == !s.regs.done
      && (s.regs.done ==> Finished(false, c.dst, m0, Outputs(c, m0), s.mem, []))
      && (Cell(Rows(c), 0, RowCycles(c)) <= ReadyCycles(schedule) ==> s.regs.done)
  {
    hide Outputs, Run, Start, Finished, Legal, Loaded, NoClobber, ReadAs, Cell;
    ReadAsOriginal(c, m0);
    EveryRunComputes(c, r0, m0, m0, q0, schedule);
  }

  // ---------------------------------------------------------------- overlapping buffers

  /** Words of A. */
  function Area(c: Config): nat {
    Monotone(0, Rows(c), c.matK);
    Cell(Rows(c), 0, c.matK)
  }

  /** The product with the matrix z loaded at the source. */
  function OutputsOf(c: Config, m0: Memory, z: seq<Word>): seq<Word>
    requires Legal(c)
  {
    if |z| == Area(c) then
      StoreHolds(m0, c.src, z);
      Outputs(c, Store(m0, c.src, z))
    else []
  }

  function DueAt(c: Config, q: nat): nat {
    var due := if c.matK == 0 then 0 else Cell(q / c.matK, 0, c.matN);
    if due < 0 then 0 else due
  }

  lemma LoadedThere(c: Config, m0: Memory, z: seq<Word>)
    requires |z| == Area(c)
    ensures Loaded(c, Store(m0, c.src, z))
  {
    StoreHolds(m0, c.src, z);
  }

  lemma ElementStored(c: Config, m0: Memory, z: seq<Word>, y: int, k: int)
    requires |z| == Area(c) && 0 <= y < Rows(c) && 0 <= k < c.matK
    ensures 0 <= Cell(y, k, c.matK) < |z|
    ensures ElementIs(c, Store(m0, c.src, z), y, k, z[Cell(y, k, c.matK)])
  {
    hide Store, Cell;
    CellBound(y, k, Rows(c), c.matK);
    StoreHolds(m0, c.src, z);
  }

  lemma ElementAt(c: Config, m: Memory, y: int, k: int, w: Word)
    requires Loaded(c, m) && 0 <= y < Rows(c) && 0 <= k < c.matK && ElementIs(c, m, y, k, w)
    ensures A(c, m, y, k) == S8(w)
  {
    hide S8, Cell;
  }

  /** A row of the product depends on that row of A only. */
  lemma ElementCausal(c: Config, m0: Memory, z: seq<Word>, z': seq<Word>, q: nat, m: nat, n: nat)
    requires Legal(c) && |z| == Area(c) && |z'| == Area(c) && q < Area(c) && z[..q] == z'[..q]
    requires m < q / c.matK && m < Rows(c) && n < c.matN
    requires Loaded(c, Store(m0, c.src, z)) && Loaded(c, Store(m0, c.src, z'))
    ensures Element(c, Store(m0, c.src, z), m, n) == Element(c, Store(m0, c.src, z'), m, n)
  {
    hide Store, A, Cell, Area, Loaded;
    var u, u' := Store(m0, c.src, z), Store(m0, c.src, z');
    forall k: nat | k < c.matK
      ensures A(c, u, m, k) == A(c, u', m, k)
    {
      ElementStored(c, m0, z, m, k);
      ElementStored(c, m0, z', m, k);
      RowBefore(m, k, q, c.matK);
      assert z[Cell(m, k, c.matK)] == z[..q][Cell(m, k, c.matK)];
      assert z'[Cell(m, k, c.matK)] == z'[..q][Cell(m, k, c.matK)];
      ElementAt(c, u, m, k, z[Cell(m, k, c.matK)]);
      ElementAt(c, u', m, k, z'[Cell(m, k, c.matK)]);
    }
    assert RowOf(c, u, m) == RowOf(c, u', m);
  }

  lemma RowBefore(m: nat, k: nat, q: nat, w: int)
    requires 0 < w && k < w && m < q / w
    ensures 0 <= Cell(m, k, w) < q
  {
    hide Cell;
    Recompose(q, w);
    CellBound(m, k, q / w, w);
  }

  lemma PrefixCausal(c: Config, m0: Memory, z: seq<Word>, z': seq<Word>, q: nat)
    requires Legal(c) && |z| == Area(c) && |z'| == Area(c) && q < Area(c) && z[..q] == z'[..q]
    ensures var v, v' := OutputsOf(c, m0, z), OutputsOf(c, m0, z');
            && |v| == |v'| == Cell(Rows(c), 0, c.matN) && DueAt(c, q) <= |v|
            && v[..DueAt(c, q)] == v'[..DueAt(c, q)]
  {
    hide Store, Area, Cell, Element, U32, Loaded;
    var v, v' := OutputsOf(c, m0, z), OutputsOf(c, m0, z');
    LoadedThere(c, m0, z);
    LoadedThere(c, m0, z');
    RowInside(c, q);
    forall o: nat | o < DueAt(c, q)
      ensures v[o] == v'[o]
    {
      DivisionBound(o, q / c.matK, c.matN);
      ElementCausal(c, m0, z, z', q, o / c.matN, o % c.matN);
      assert OutputNo(c, Store(m0, c.src, z), o) == OutputNo(c, Store(m0, c.src, z'), o);
    }
  }

  lemma RowInside(c: Config, q: nat)
    requires Legal(c) && q < Area(c)
    ensures 0 <= q / c.matK < Rows(c) && DueAt(c, q) <= Cell(Rows(c), 0, c.matN)
  {
    DivisionBound(q, Rows(c), c.matK);
    Monotone(q / c.matK, Rows(c), c.matN);
  }

  lemma OutputsCausal(c: Config, m0: Memory, outputs: seq<Word> -> seq<Word>, due: nat -> nat)
    requires Legal(c)
    requires forall z :: outputs(z) == OutputsOf(c, m0, z)
    requires forall q: nat :: due(q) == DueAt(c, q)
    ensures Causal(outputs, due, Area(c))
  {
    hide OutputsOf, DueAt, Area;
    forall z, z', q: nat | |z| == Area(c) && |z'| == Area(c) && q < Area(c) && z[..q] == z'[..q]
      ensures due(q) <= |outputs(z)| && due(q) <= |outputs(z')| && outputs(z)[..due(q)] == outputs(z')[..due(q)]
    {
      PrefixCausal(c, m0, z, z', q);
    }
  }

  lemma FoundAt(c: Config, m0: Memory, ws: seq<Word>, y: int, k: int)
    requires Legal(c) && |ws| == Cell(Rows(c), 0, c.matN) && 0 <= y < Rows(c) && 0 <= k < c.matK
    ensures 0 <= Cell(y, k, c.matK) < Area(c) && DueAt(c, Cell(y, k, c.matK)) <= |ws|
    ensures Found(c, m0, ws, y, k) ==
            ReadBack(m0, c.dst, ws[..DueAt(c, Cell(y, k, c.matK))], c.src + 4 * Cell(y, k, c.matK))
  {
    hide Cell, ReadBack;
    CellBound(y, k, Rows(c), c.matK);
    CellDecode(y, k, c.matK);
    RowInside(c, Cell(y, k, c.matK));
  }

  /** For every overlap of the buffers there is a matrix that the run reads, so EveryRunComputes covers it. */
  lemma AsRead(c: Config, m0: Memory) returns (mi: Memory)
    requires Legal(c) && Loaded(c, m0)
    ensures ReadAs(c, m0, mi)
  {
    hide Outputs, Store, DueAt, Causal, ReadBack, Mapped, Area, Cell, Found;
    var outputs := z => OutputsOf(c, m0, z);
    var due := (q: nat) => DueAt(c, q);
    OutputsCausal(c, m0, outputs, due);
    var z := ReadsExist(m0, c.src, c.dst, outputs, due, Area(c), Area(c));
    LoadedThere(c, m0, z);
    mi := Store(m0, c.src, z);
    forall y, k | 0 <= y < Rows(c) && 0 <= k < c.matK
      ensures ElementIs(c, mi, y, k, Found(c, m0, Outputs(c, mi), y, k))
    {
      FoundAt(c, m0, Outputs(c, mi), y, k);
      ElementStored(c, m0, z, y, k);
    }
  }

  /** Every run that ends leaves the product of the original matrix: the engine is right with these buffers. */
  ghost predicate AlwaysRight(c: Config) {
    forall weights: Grid8, r0: Regs, m0: Memory, q0: Request, schedule: seq<Cycle> ::
      RunRight(c.(weights := weights), r0, m0, q0, schedule)
  }

  ghost predicate RunRight(c: Config, r0: Regs, m0: Memory, q0: Request, schedule: seq<Cycle>) {
    var s := Run(c, Start(r0, m0, q0), schedule);
    Legal(c) && Loaded(c, m0) && s.regs.done ==> Finished(false, c.dst, m0, Outputs(c, m0), s.mem, [])
  }

  /** A run ends with the product of A as read: if that is not the product of the original, it ends wrong. */
  lemma EndsWrong(c: Config, r0: Regs, m0: Memory, mi: Memory, q0: Request, schedule: seq<Cycle>, o: nat)
    requires Legal(c) && Loaded(c, m0) && ReadAs(c, m0, mi)
    requires Cell(Rows(c), 0, RowCycles(c)) <= ReadyCycles(schedule)
    requires o < Cell(Rows(c), 0, c.matN) && Outputs(c, mi)[o] != Outputs(c, m0)[o]
    ensures !RunRight(c, r0, m0, q0, schedule)
  {
    hide Outputs, Run, Start, Finished, Found, Cell, Legal, Loaded, Rows, RowCycles;
    EveryRunComputes(c, r0, m0, mi, q0, schedule);
    var s := Run(c, Start(r0, m0, q0), schedule);
    FinishedAt(c.dst, m0, Outputs(c, mi), s.mem, [], o);
    if RunRight(c, r0, m0, q0, schedule) {
      FinishedAt(c.dst, m0, Outputs(c, m0), s.mem, [], o);
    }
  }

  /** The weights that are 1 at (k, n) only. */
  predicate OnlyWeight(c: Config, k: int, n: int) {
    forall i :: 0 <= i < 64 ==> c.weights[i] == if i == 8 * k + n then 1 else 0
  }

  lemma WeightColumn(c: Config, k: nat, n: nat)
    requires Legal(c) && k < c.matK && n < c.matN && OnlyWeight(c, k, n)
    ensures ColumnOf(c, n) == Unit(c.matK, k)
  {
    hide Cell;
  }

  /** With those weights output (y, n) is element (y, k) of A. */
  lemma OutputShows(c: Config, m: Memory, y: nat, k: nat, n: nat, v: Word)
    requires Legal(c) && Loaded(c, m) && y < Rows(c) && k < c.matK && n < c.matN
    requires OnlyWeight(c, k, n) && ElementIs(c, m, y, k, v)
    ensures 0 <= Cell(y, n, c.matN) < Cell(Rows(c), 0, c.matN)
    ensures Outputs(c, m)[Cell(y, n, c.matN)] == U32(S8(v))
  {
    hide Outputs, S8, U32, Cell, A, Loaded, Unit, ElementIs, OnlyWeight, ColumnOf, Legal, Rows;
    OutputAt(c, m, y, n);
    WeightColumn(c, k, n);
    DotUnit(RowOf(c, m, y), c.matK, k, c.matK);
    ElementAt(c, m, y, k, v);
    assert RowOf(c, m, y)[k] == A(c, m, y, k);
  }

  /** No output of an earlier row lands on element (y, k). */
  ghost predicate Spared(c: Config, y: int, k: int) {
    forall o :: 0 <= o < Cell(y, 0, c.matN) ==> !Lands(c, o, y, k)
  }

  lemma SparedFound(c: Config, m0: Memory, ws: seq<Word>, y: int, k: int, v: Word)
    requires Spared(c, y, k) && ElementIs(c, m0, y, k, v)
    ensures Found(c, m0, ws, y, k) == v
  {
    hide Store, Cell, Lands;
    var x := c.src + 4 * Cell(y, k, c.matK);
    StoreLookup(m0, c.dst, Upto(ws, Cell(y, 0, c.matN)), x);
    Landing(c, |Upto(ws, Cell(y, 0, c.matN))|, y, k);
  }

  lemma LandsFound(c: Config, m0: Memory, ws: seq<Word>, o: int, y: int, k: int)
    requires 0 <= o < Cell(y, 0, c.matN) <= |ws| && Lands(c, o, y, k)
    ensures Found(c, m0, ws, y, k) == ws[o]
  {
    hide Cell, ReadBack;
    ReadBackAt(m0, c.dst, Upto(ws, Cell(y, 0, c.matN)), o);
  }

  /** Only element (m, k) is 1, and it is read as it was; output (m, n), which is that element, lands on element (y, k)
      and is read back there, so output (y, n) is 1. */
  lemma ReadsOutput(c: Config, m0: Memory, mi: Memory, m: nat, n: nat, y: nat, k: nat)
    requires Legal(c) && Loaded(c, m0) && ReadAs(c, m0, mi) && OnlyWeight(c, k, n)
    requires m < y < Rows(c) && k < c.matK && n < c.matN
    requires ElementIs(c, m0, m, k, 1) && Spared(c, m, k) && Lands(c, Cell(m, n, c.matN), y, k)
    ensures 0 <= Cell(y, n, c.matN) < Cell(Rows(c), 0, c.matN)
    ensures Outputs(c, mi)[Cell(y, n, c.matN)] == 1
  {
    hide Outputs, S8, U32, Cell, Found, Lands, Spared, ElementIs, OnlyWeight, Legal, Loaded, Rows;
    var ws := Outputs(c, mi);
    One();
    SparedFound(c, m0, ws, m, k, 1);
    OutputShows(c, mi, m, k, n, 1);
    CellBound(m, n, y, c.matN);
    CellUpTo(y, Rows(c), c.matN);
    LandsFound(c, m0, ws, Cell(m, n, c.matN), y, k);
    OutputShows(c, mi, y, k, n, 1);
  }

  lemma CellUpTo(y: nat, h: nat, w: nat)
    requires y <= h
    ensures 0 <= Cell(y, 0, w) <= Cell(h, 0, w)
  {
    Monotone(0, y, w);
    Monotone(y, h, w);
  }

  function Mark(y: int, k: int, y': int, k': int): Word {
    if y' == y && k' == k then 1 else 0
  }

  /** A memory in which element (m, k) of A is 1 and the others are 0. */
  lemma Indicator(c: Config, m: int, k: int) returns (m0: Memory)
    requires Legal(c) && 0 <= m < Rows(c) && 0 <= k < c.matK
    ensures Loaded(c, m0)
    ensures forall y', k' :: 0 <= y' < Rows(c) && 0 <= k' < c.matK ==> ElementIs(c, m0, y', k', Mark(m, k, y', k'))
  {
    hide Cell, Store, ElementIs, Area, Loaded;
    var z: seq<Word> := seq(Area(c), i => if i == Cell(m, k, c.matK) then 1 else 0);
    m0 := Store(map[], c.src, z);
    LoadedThere(c, map[], z);
    forall y', k' | 0 <= y' < Rows(c) && 0 <= k' < c.matK
      ensures ElementIs(c, m0, y', k', Mark(m, k, y', k'))
    {
      ElementStored(c, map[], z, y', k');
      CellDecode(m, k, c.matK);
      CellDecode(y', k', c.matK);
    }
  }

  lemma ClashGoesWrong(c: Config, m: nat, n: nat, y: nat, k: nat)
    requires Legal(c) && m < y < Rows(c) && k < c.matK && n < c.matN && OnlyWeight(c, k, n)
    requires Spared(c, m, k) && Lands(c, Cell(m, n, c.matN), y, k)
    ensures !AlwaysRight(c)
  {
    hide Outputs, Run, Start, ReadyCycles, RunRight, U32, S8, Cell, Lands, Spared, ElementIs, Found, Legal, Loaded,
         OnlyWeight, Rows, RowCycles;
    var m0 := Indicator(c, m, k);
    var r0 := Regs(Idle, false, false, 0, 0, 0, seq(8, _ => 0), seq(7, _ => 0), seq(64, _ => 0));
    CyclesPositive(c);
    var schedule := Ready(Cell(Rows(c), 0, RowCycles(c)));
    ReadyAlways(|schedule|);
    var mi := AsRead(c, m0);
    assert ElementIs(c, m0, m, k, Mark(m, k, m, k)) && ElementIs(c, m0, y, k, Mark(m, k, y, k));
    ReadsOutput(c, m0, mi, m, n, y, k);
    OutputShows(c, m0, y, k, n, 0);
    One();
    EndsWrong(c, r0, m0, mi, Request(0, false, 0), schedule, Cell(y, n, c.matN));
    assert c.(weights := c.weights) == c;
  }

  lemma CyclesPositive(c: Config)
    ensures 0 <= Cell(Rows(c), 0, RowCycles(c))
  {
    Monotone(0, Rows(c), RowCycles(c));
  }

  lemma WeightsFree(c: Config, weights: Grid8)
    requires AlwaysRight(c)
    ensures AlwaysRight(c.(weights := weights))
  {
    hide RunRight;
    var d := c.(weights := weights);
    forall w: Grid8, r0: Regs, m0: Memory, q0: Request, schedule: seq<Cycle>
      ensures RunRight(d.(weights := w), r0, m0, q0, schedule)
    {
      assert d.(weights := w) == c.(weights := w);
      assert RunRight(c.(weights := w), r0, m0, q0, schedule);
    }
  }

  lemma SparedWith(c: Config, weights: Grid8, y: int, k: int)
    requires Spared(c, y, k)
    ensures Spared(c.(weights := weights), y, k)
  {
    hide Cell;
    forall o | 0 <= o < Cell(y, 0, c.matN)
      ensures !Lands(c.(weights := weights), o, y, k)
    {
      assert !Lands(c, o, y, k);
    }
  }

  /** A first clash: the output comes from a row whose element in the same place was spared. */
  lemma FirstClash(c: Config, m: nat, n: nat, y: nat, k: nat)
    requires Legal(c) && m < y < Rows(c) && k < c.matK && n < c.matN
    requires Spared(c, m, k) && Lands(c, Cell(m, n, c.matN), y, k)
    ensures !AlwaysRight(c)
  {
    hide Cell, Spared, AlwaysRight;
    if AlwaysRight(c) {
      var weights: Grid8 := seq(64, i => if i == 8 * k + n then 1 else 0);
      WeightsFree(c, weights);
      SparedWith(c, weights, m, k);
      ClashGoesWrong(c.(weights := weights), m, n, y, k);
    }
  }

  /** Any clash leads back to a first one. */
  lemma {:induction false} AnyClash(c: Config, o: nat, y: nat, k: nat)
    requires Legal(c) && y < Rows(c) && k < c.matK && o < Cell(y, 0, c.matN) && Lands(c, o, y, k)
    ensures !AlwaysRight(c)
    decreases y
  {
    hide Cell, AlwaysRight, Lands;
    var m, n := o / c.matN, o % c.matN;
    DivisionBound(o, y, c.matN);
    Recompose(o, c.matN);
    if Spared(c, m, k) {
      FirstClash(c, m, n, y, k);
    } else {
      var o' :| 0 <= o' < Cell(m, 0, c.matN) && Lands(c, o', m, k);
      AnyClash(c, o', m, k);
    }
  }

  /** How many words the destination may lie past the source before an output lands on an unread element. */
  function Slack(c: Config): int {
    if c.matN <= c.matK then c.matK - c.matN else Cell(Rows(c) - 1, 0, c.matK) - Cell(Rows(c) - 1, 0, c.matN)
  }

  /** The destination starts within the slack or past A, or A is a single row. */
  predicate Apart(c: Config) {
    Rows(c) == 1 || c.dst <= c.src + 4 * Slack(c) || c.src + 4 * Cell(Rows(c), 0, c.matK) <= c.dst
  }

  /** Outputs run behind reads: the outputs of the rows before row y end Slack words or more before it. */
  lemma ReadsAhead(c: Config, y: int)
    requires 1 <= y < Rows(c)
    ensures Cell(y, 0, c.matN) + Slack(c) <= Cell(y, 0, c.matK)
  {
    if c.matN <= c.matK {
      Spread(1, y, c.matN, c.matK);
    } else {
      Spread(y, Rows(c) - 1, c.matK, c.matN);
    }
  }

  lemma Spread(y: int, y': int, a: int, b: int)
    requires y <= y' && a <= b
    ensures Cell(y, 0, b) - Cell(y, 0, a) <= Cell(y', 0, b) - Cell(y', 0, a)
    ensures y == 1 ==> Cell(y, 0, b) - Cell(y, 0, a) == b - a
  {
    Monotone(y, y', b - a);
    assert y * (b - a) == y * b - y * a;
    assert y' * (b - a) == y' * b - y' * a;
  }

  lemma ApartIsSafe(c: Config)
    requires Legal(c) && Apart(c)
    ensures NoClobber(c)
  {
    hide Cell, Slack;
    forall o, y, k | 0 <= y < Rows(c) && 0 <= k < c.matK && 0 <= o < Cell(y, 0, c.matN)
      ensures !Lands(c, o, y, k)
    {
      CellNext(0, 0, c.matN);
      CellFrom(y, k, c.matK);
      CellBound(y, k, Rows(c), c.matK);
      if 1 <= y {
        ReadsAhead(c, y);
      }
    }
  }

  lemma CellFrom(y: int, k: int, w: int)
    ensures Cell(y, k, w) == Cell(y, 0, w) + k
  {
  }

  /** Otherwise there is a clash: with output 0, or with the first element of row 1 or of the last row. */
  lemma Clash(c: Config) returns (o: nat, y: nat, k: nat)
    requires Legal(c) && !Apart(c)
    ensures y < Rows(c) && k < c.matK && o < Cell(y, 0, c.matN) && Lands(c, o, y, k)
  {
    hide Cell, Slack;
    var d := (c.dst - c.src) / 4;
    var last := if c.matN <= c.matK then 1 else Rows(c) - 1;
    SlackIs(c, last);
    if d <= Cell(last, 0, c.matK) {
      o, y, k := Cell(last, 0, c.matK) - d, last, 0;
    } else {
      CellUpTo(1, last, c.matK);
      CellShift(0, c.matK);
      CellNext(0, 0, c.matK);
      o := 0;
      y, k := FirstOutputLands(c, d);
    }
  }

  lemma SlackIs(c: Config, last: int)
    requires last == if c.matN <= c.matK then 1 else Rows(c) - 1
    ensures Slack(c) == Cell(last, 0, c.matK) - Cell(last, 0, c.matN)
  {
  }

  lemma FirstOutputLands(c: Config, d: int) returns (y: nat, k: nat)
    requires Legal(c) && c.matK <= d < Cell(Rows(c), 0, c.matK) && c.dst == c.src + 4 * d
    ensures y < Rows(c) && k < c.matK && 0 < Cell(y, 0, c.matN) && Lands(c, 0, y, k)
  {
    hide Cell;
    DivisionBound(d, Rows(c), c.matK);
    Recompose(d, c.matK);
    y, k := d / c.matK, d % c.matK;
    CellShift(0, c.matK);
    CellNext(0, 0, c.matK);
    RowPast(d, 1, c.matK);
    CellUpTo(1, y, c.matN);
    CellShift(0, c.matN);
    CellNext(0, 0, c.matN);
  }

  lemma RowPast(d: nat, y: int, w: int)
    requires 0 < w && Cell(y, 0, w) <= d
    ensures y <= d / w
  {
    if d / w < y {
      Recompose(d, w);
      Monotone(d / w + 1, y, w);
    }
  }

  /** Every run over every A, B and handshake ends right if and only if the destination starts within the slack or past
      A, or A is a single row. */
  lemma OverlapExactly(c: Config)
    requires Legal(c)
    ensures AlwaysRight(c) <==>
            Rows(c) == 1 || c.dst <= c.src + 4 * Slack(c) || c.src + 4 * Cell(Rows(c), 0, c.matK) <= c.dst
  {
    hide Outputs, Run, Start, Finished, NoClobber, Cell, Slack;
    if Apart(c) {
      forall weights: Grid8, r0: Regs, m0: Memory, q0: Request, schedule: seq<Cycle>
        ensures RunRight(c.(weights := weights), r0, m0, q0, schedule)
      {
        var d := c.(weights := weights);
        if Legal(d) && Loaded(d, m0) {
          SlackOf(c, weights);
          ApartIsSafe(d);
          EveryRunMultiplies(d, r0, m0, q0, schedule);
        }
      }
    } else {
      var o, y, k := Clash(c);
      AnyClash(c, o, y, k);
    }
  }

  lemma SlackOf(c: Config, weights: Grid8)
    ensures Slack(c.(weights := weights)) == Slack(c)
  {
  }

  /** The product may overwrite A in place exactly when it is no wider than A, or A is a single row. */
  lemma InPlaceExactly(c: Config)
    requires Legal(c) && c.dst == c.src
    ensures AlwaysRight(c) <==> c.matN <= c.matK || Rows(c) == 1
  {
    hide AlwaysRight, Cell;
    OverlapExactly(c);
    CellUpTo(1, Rows(c), c.matK);
    CellShift(0, c.matK);
    CellNext(0, 0, c.matK);
    if c.matN > c.matK && Rows(c) > 1 {
      Wider(Rows(c) - 1, c.matK, c.matN);
    }
  }

  lemma Wider(y: int, a: int, b: int)
    requires 1 <= y && a < b
    ensures Cell(y, 0, a) < Cell(y, 0, b)
  {
    Monotone(1, y, b - a);
    assert y * (b - a) == y * b - y * a;
  }
}
