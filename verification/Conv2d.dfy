/** The 2D convolution engine: registers, one clock edge, and every run of it against memory.

    The line buffer keeps the three newest rows, row n in slot n mod 3; pixel (slot, col) is
    element 64 * slot + col. `Clock` is one cycle as a function; the class `Engine`
    (Conv2dEngine.dfy) is the same transfer in the RTL's form and is proved equal to it. */
module Conv2d {
  import opened Words

  const MAX_WIDTH := 64

  type Kernel = s: seq<Int8> | |s| == 9 witness seq(9, _ => 0)

  type Lines = s: seq<Int8> | |s| == 192 witness seq(192, _ => 0)

  datatype Config = Config(src: Word, dst: Word, width: Word, height: Word, kernelSize: Word,
                           zeroPad: bool, stream: bool, kernel: Kernel)

  datatype Phase = Idle | FillReq | FillWait | SlideReq | SlideWait | WrReq | WrWait | StreamOut

  datatype Regs = Regs(phase: Phase, busy: bool, done: bool, fillRow: Word, fillCol: Word, curRow: Word, curCol: Word,
                       lag: Word, colEnd: Word, rowEnd: Word, remaining: Word, curDst: Word, peResult: Word,
                       skip: bool, lines: Lines)

  /** One pixel on its way into the line buffer. */
  datatype Pixel = Pixel(slot: nat, col: nat, value: Int8)

  // ---------------------------------------------------------------- datapath

  predicate Fits(p: Pixel) {
    p.slot < 3 && p.col < 64
  }

  function Written(lines: Lines, p: Pixel): Lines
    requires Fits(p)
  {
    lines[64 * p.slot + p.col := p.value]
  }

  /** Window tap t (row-major in the 3x3 window): zero in the virtual bottom row and left of the image,
      the pixel being written if it is the one, the stored pixel otherwise; columns are taken modulo 64. */
  function WindowTap(c: Config, r: Regs, wr: Option<Pixel>, t: nat): Int8
    requires t < 9
  {
    var slot := (r.curRow + 1 + t / 3) % 3;
    var col := r.curCol - 2 + t % 3;
    if t / 3 == 2 && c.zeroPad && c.height <= r.curRow then 0
    else if col < 0 then 0
    else if wr.Some? && wr.value.slot == slot && wr.value.col == col % 64 then wr.value.value
    else r.lines[64 * slot + col % 64]
  }

  function Window(c: Config, r: Regs, wr: Option<Pixel>): seq<Int8> {
    seq(9, t requires 0 <= t < 9 => WindowTap(c, r, wr, t))
  }

  function Pe(window: seq<Int8>, kernel: Kernel): int
    requires |window| == 9
  {
    Dot(window, kernel, 9)
  }

  /** conv2d_pe: nine 16-bit products, then a 32-bit sum. */
  method PeLoop(window: seq<Int8>, weights: Kernel) returns (result: int)
    requires |window| == 9
    ensures result == Pe(window, weights)
    ensures -9 * 16384 <= result <= 9 * 16384
  {
    var products := new int[9];
    for i := 0 to 3
      invariant forall t :: 0 <= t < 3 * i ==> products[t] == Product(window[t], weights[t])
    {
      for j := 0 to 3
        invariant forall t :: 0 <= t < 3 * i + j ==> products[t] == Product(window[t], weights[t])
      {
        ProductFits(window[3 * i + j], weights[3 * i + j]);
        products[3 * i + j] := S16(Product(window[3 * i + j], weights[3 * i + j]));
      }
    }
    var sum := 0;
    for k := 0 to 9
      invariant forall t :: 0 <= t < 9 ==> products[t] == Product(window[t], weights[t])
      invariant sum == Dot(window, weights, k)
    {
      DotBound(window, weights, k + 1);
      assert Dot(window, weights, k + 1) == sum + products[k];
      sum := S32(sum + products[k]);
    }
    DotBound(window, weights, 9);
    result := sum;
  }

  /** addr_gen. */
  function ReadAddr(c: Config, row: Word, col: Word): Word {
    U32(c.src + 4 * Cell(row, col, c.width))
  }

  // ---------------------------------------------------------------- one clock edge

  function OutRows(c: Config): Word {
    if c.zeroPad then c.height else Add32(Sub32(c.height, c.kernelSize), 1)
  }

  function OutCols(c: Config): Word {
    if c.zeroPad then c.width else Add32(Sub32(c.width, c.kernelSize), 1)
  }

  function LagNext(c: Config): Word {
    if c.zeroPad then c.kernelSize / 2 else Sub32(c.kernelSize, 1)
  }

  function ColEndNext(c: Config): Word {
    if c.zeroPad then c.width else Sub32(c.width, 1)
  }

  function RowEndNext(c: Config): Word {
    if c.zeroPad then c.height else Sub32(c.height, 1)
  }

  function TotalNext(c: Config): Word {
    U32(Cell(OutRows(c), 0, OutCols(c)))
  }

  /** Writing CTRL.GO while idle. */
  function Go(c: Config, r: Regs): Regs {
    r.(phase := FillReq, busy := true, done := false, fillRow := 0, fillCol := 0, lag := LagNext(c),
       colEnd := ColEndNext(c), rowEnd := RowEndNext(c), remaining := TotalNext(c), curDst := c.dst, skip := false)
  }

  function DmaRequest(c: Config, r: Regs): Option<Request> {
    match r.phase
    case FillReq => Some(Request(ReadAddr(c, r.fillRow, r.fillCol), false, 0))
    case SlideReq => if r.skip then None else Some(Request(ReadAddr(c, r.curRow, r.curCol), false, 0))
    case WrReq => if c.stream then None else Some(Request(r.curDst, true, r.peResult))
    case _ => None
  }

  /** To the next column, the next row, or, past the last, the fallback exit that leaves BUSY set. */
  function Advance(c: Config, r: Regs): Regs {
    if r.curCol < r.colEnd then
      r.(phase := SlideReq, curCol := Add32(r.curCol, 1), skip := c.zeroPad && c.width <= Add32(r.curCol, 1))
    else
      r.(phase := if r.curRow < r.rowEnd then SlideReq else Idle, curCol := 0, curRow := Add32(r.curRow, 1), skip := false)
  }

  function Retire(c: Config, r: Regs): Regs {
    var r' := r.(remaining := Sub32(r.remaining, 1));
    if r.remaining == 1 then r'.(phase := Idle, busy := false, done := true) else Advance(c, r')
  }

  function FillPixel(r: Regs, rdata: Word): Pixel {
    Pixel(r.fillRow % 3, r.fillCol % 64, S8(rdata))
  }

  function SlidePixel(r: Regs, rdata: Word): Option<Pixel> {
    if r.skip then None else Some(Pixel(r.curRow % 3, r.curCol % 64, S8(rdata)))
  }

  function Filled(c: Config, r: Regs): Regs {
    if r.fillCol < Sub32(c.width, 1) then
      r.(phase := FillReq, fillCol := Add32(r.fillCol, 1))
    else if Add32(r.fillRow, 1) < r.lag then
      r.(phase := FillReq, fillCol := 0, fillRow := Add32(r.fillRow, 1))
    else
      r.(phase := SlideReq, fillCol := 0, fillRow := Add32(r.fillRow, 1), curRow := r.lag, curCol := 0, skip := false)
  }

  function Slid(c: Config, r: Regs, wr: Option<Pixel>): Regs
    requires wr.Some? ==> Fits(wr.value)
  {
    var r' := if wr.Some? then r.(lines := Written(r.lines, wr.value)) else r;
    if r.lag <= r.curCol then r'.(phase := WrReq, peResult := U32(Pe(Window(c, r, wr), c.kernel)))
    else Advance(c, r')
  }

  function Clock(c: Config, r: Regs, gnt: bool, rvalid: bool, rdata: Word, tready: bool): Regs {
    match r.phase
    case Idle => r
    case FillReq => if gnt then r.(phase := FillWait) else r
    case FillWait => if rvalid then Filled(c, r).(lines := Written(r.lines, FillPixel(r, rdata))) else r
    case SlideReq => if r.skip || gnt then r.(phase := SlideWait) else r
    case SlideWait => if r.skip || rvalid then Slid(c, r, SlidePixel(r, rdata)) else r
    case WrReq => if c.stream then r.(phase := StreamOut) else if gnt then r.(phase := WrWait) else r
    case WrWait => if rvalid then Retire(c, r).(curDst := Add32(r.curDst, 4)) else r
    case StreamOut => if tready then Retire(c, r) else r
  }

  // ---------------------------------------------------------------- the engine and its memory

  datatype System = System(regs: Regs, mem: Memory, granted: Request, beats: seq<Beat>)

  function Step(c: Config, s: System, i: Cycle): System {
    var req := DmaRequest(c, s.regs);
    var granted := req.Some? && i.gnt;
    System(
      Clock(c, s.regs, i.gnt, i.rvalid, Load(s.mem, s.granted.addr, i.stray), i.tready),
      if granted && req.value.write then s.mem[req.value.addr := req.value.data] else s.mem,
      if granted then req.value else s.granted,
      if s.regs.phase.StreamOut? && i.tready then s.beats + [Beat(s.regs.peResult, s.regs.remaining == 1)] else s.beats)
  }

  function Run(c: Config, s: System, schedule: seq<Cycle>): System {
    if schedule == [] then s
    else Step(c, Run(c, s, schedule[..|schedule| - 1]), schedule[|schedule| - 1])
  }

  function Start(c: Config, r0: Regs, m0: Memory, q0: Request): System {
    System(Go(c, r0), m0, q0, [])
  }

  // ---------------------------------------------------------------- what a run computes

  function Lag(c: Config): nat {
    if c.zeroPad then 1 else 2
  }

  function LastCol(c: Config): int {
    if c.zeroPad then c.width else c.width - 1
  }

  function LastRow(c: Config): int {
    if c.zeroPad then c.height else c.height - 1
  }

  function Rows(c: Config): int {
    LastRow(c) - Lag(c) + 1
  }

  function Cols(c: Config): int {
    LastCol(c) - Lag(c) + 1
  }

  function Total(c: Config): int {
    Cell(Rows(c), 0, Cols(c))
  }

  function Area(c: Config): nat {
    Monotone(0, c.height, c.width);
    Cell(c.height, 0, c.width)
  }

  predicate Legal(c: Config) {
    && c.kernelSize == 3
    && 1 <= c.width <= MAX_WIDTH && 1 <= c.height
    && (!c.zeroPad ==> 3 <= c.width && 3 <= c.height)
    && c.src % 4 == 0 && c.src + 4 * Area(c) <= TWO32
    && (c.stream || (c.dst % 4 == 0 && c.dst + 4 * Total(c) <= TWO32))
    && Total(c) < TWO32
  }

  predicate Loaded(c: Config, m0: Memory) {
    Mapped(m0, c.src, Area(c))
  }

  /** What the line buffer shows for pixel (row, col) while row is one of its three rows: the image pixel,
      or, in row -1 and in the columns past the image, what was in that place at GO. */
  function Seen(c: Config, m0: Memory, lines0: Lines, row: int, col: int): Int8
    requires Loaded(c, m0) && row < c.height && 0 <= col < 64
  {
    if 0 <= row && col < c.width then
      CellBound(row, col, c.height, c.width);
      S8(m0[c.src + 4 * Cell(row, col, c.width)])
    else lines0[64 * (row % 3) + col]
  }

  /** Tap t of the window whose bottom right pixel is (row, col). */
  function Tap(c: Config, m0: Memory, lines0: Lines, row: nat, col: nat, t: nat): Int8
    requires Loaded(c, m0) && row <= LastRow(c) && t < 9
  {
    var y, x := row - 2 + t / 3, col - 2 + t % 3;
    if c.height <= y || x < 0 then 0 else Seen(c, m0, lines0, y, x % 64)
  }

  function Taps(c: Config, m0: Memory, lines0: Lines, row: nat, col: nat): (taps: seq<Int8>)
    requires Loaded(c, m0) && row <= LastRow(c)
    ensures |taps| == 9
  {
    seq(9, t requires 0 <= t < 9 => Tap(c, m0, lines0, row, col, t))
  }

  /** The output produced at position (row, col): output pixel (row - lag, col - lag). */
  function Output(c: Config, m0: Memory, lines0: Lines, row: nat, col: nat): Word
    requires Loaded(c, m0) && row <= LastRow(c)
  {
    U32(Pe(Taps(c, m0, lines0, row, col), c.kernel))
  }

  function OutputNo(c: Config, m0: Memory, lines0: Lines, o: nat): Word
    requires Legal(c) && Loaded(c, m0) && o < Total(c)
  {
    DivisionBound(o, Rows(c), Cols(c));
    Output(c, m0, lines0, Lag(c) + o / Cols(c), Lag(c) + o % Cols(c))
  }

  function Outputs(c: Config, m0: Memory, lines0: Lines): (ws: seq<Word>)
    requires Legal(c) && Loaded(c, m0)
    ensures |ws| == Total(c)
  {
    CellBound(0, 0, Rows(c), Cols(c));
    seq(Total(c), o requires 0 <= o < Total(c) => OutputNo(c, m0, lines0, o))
  }

  // ---------------------------------------------------------------- the invariant of every run

  /** Outputs due before position (row, col). */
  function Due(c: Config, row: int, col: int): int {
    Cell(row - Lag(c), if col < Lag(c) then 0 else col - Lag(c), Cols(c))
  }

  /** Output number o goes to the word that pixel (row, col) comes from. */
  predicate Lands(c: Config, o: int, row: int, col: int) {
    c.dst + 4 * o == c.src + 4 * Cell(row, col, c.width)
  }

  /** No output that is written before a pixel is read lands on it. */
  ghost predicate NoClobber(c: Config) {
    c.stream || forall o, row, col ::
      Lag(c) <= row < c.height && 0 <= col < c.width && 0 <= o < Due(c, row, col) ==> !Lands(c, o, row, col)
  }

  // ---------------------------------------------------------------- what is read when buffers overlap

  /** Outputs written before pixel (row, col) is read. */
  function DueBefore(c: Config, row: int, col: int): int {
    if row < Lag(c) then 0 else Due(c, row, col)
  }

  /** The word found at pixel (row, col) when it is read, the outputs being ws. */
  function Found(c: Config, m0: Memory, ws: seq<Word>, row: int, col: int): Word {
    ReadBack(m0, c.dst, if c.stream then [] else Upto(ws, DueBefore(c, row, col)), c.src + 4 * Cell(row, col, c.width))
  }

  /** mi holds the image as this run reads it: each word original unless an output has landed on it by then. */
  ghost predicate ReadAs(c: Config, m0: Memory, mi: Memory, lines0: Lines)
    requires Legal(c) && Loaded(c, m0)
  {
    && Loaded(c, mi)
    && forall row, col :: 0 <= row < c.height && 0 <= col < c.width ==>
         PixelIs(c, mi, row, col, Found(c, m0, Outputs(c, mi, lines0), row, col))
  }

  predicate PixelIs(c: Config, m: Memory, row: int, col: int, w: Word) {
    var a := c.src + 4 * Cell(row, col, c.width);
    a in m && m[a] == w
  }

  /** Where no output lands on an unread pixel, the image is read as it was. */
  lemma ReadAsOriginal(c: Config, m0: Memory, lines0: Lines)
    requires Legal(c) && Loaded(c, m0) && NoClobber(c)
    ensures ReadAs(c, m0, m0, lines0)
  {
    hide Outputs, Store, Cell, Due, Total, Area, ReadAddr, Lands;
    var ws := Outputs(c, m0, lines0);
    forall row, col | 0 <= row < c.height && 0 <= col < c.width
      ensures PixelIs(c, m0, row, col, Found(c, m0, ws, row, col))
    {
      AddressInImage(c, row, col);
      var k := if c.stream then 0 else DueBefore(c, row, col);
      StoreLookup(m0, c.dst, Upto(ws, k), c.src + 4 * Cell(row, col, c.width));
      Landing(c, |Upto(ws, k)|, row, col);
    }
  }

  lemma Landing(c: Config, k: nat, row: int, col: int)
    ensures InBlock(c.src + 4 * Cell(row, col, c.width), c.dst, k) ==> exists o :: 0 <= o < k && Lands(c, o, row, col)
  {
    var a := c.src + 4 * Cell(row, col, c.width);
    if InBlock(a, c.dst, k) {
      assert Lands(c, (a - c.dst) / 4, row, col);
    }
  }

  function Delivered(c: Config, r: Regs): int {
    Total(c) - r.remaining
  }

  function Stored(c: Config, r: Regs): int {
    Delivered(c, r) + if r.phase.WrWait? then 1 else 0
  }

  predicate Filling(p: Phase) {
    p.FillReq? || p.FillWait?
  }

  predicate Sliding(p: Phase) {
    p.SlideReq? || p.SlideWait?
  }

  predicate Delivering(p: Phase) {
    p.WrReq? || p.WrWait? || p.StreamOut?
  }

  predicate Control(c: Config, r: Regs)
    requires Legal(c)
  {
    && r.busy == !r.phase.Idle? && r.done == r.phase.Idle?
    && r.lag == Lag(c) && r.colEnd == LastCol(c) && r.rowEnd == LastRow(c)
    && 0 <= Delivered(c, r) <= Total(c)
    && (!c.stream ==> r.curDst == Pointer(c.dst, Delivered(c, r)))
    && (r.phase.Idle? ==> r.remaining == 0)
    && (Filling(r.phase) ==> r.fillRow < Lag(c) && r.fillCol < c.width && Delivered(c, r) == 0)
    && (Sliding(r.phase) || Delivering(r.phase) ==>
          && Lag(c) <= r.curRow <= LastRow(c) && r.curCol <= LastCol(c)
          && r.skip == (c.zeroPad && c.width <= r.curCol)
          && Delivered(c, r) == Due(c, r.curRow, r.curCol))
    && (Delivering(r.phase) ==> Lag(c) <= r.curCol && Delivered(c, r) < Total(c))
    && (r.phase.WrWait? ==> !c.stream) && (r.phase.StreamOut? ==> c.stream)
  }

  /** Positions of the slide phase, and those that are still to be visited. */
  function Positions(c: Config): int {
    Cell(Rows(c), 0, LastCol(c) + 1)
  }

  /** Cycles still needed if the environment never makes the engine wait. */
  function Todo(c: Config, r: Regs): int {
    if r.phase.Idle? then 0
    else if Filling(r.phase) then
      2 * (Cell(Lag(c), 0, c.width) - Cell(r.fillRow, r.fillCol, c.width)) + 2 * Positions(c) + 2 * r.remaining
      - if r.phase.FillWait? then 1 else 0
    else
      2 * (Positions(c) - Cell(r.curRow - Lag(c), r.curCol, LastCol(c) + 1)) + 2 * r.remaining
      - (match r.phase case SlideWait => 1 case WrReq => 2 case WrWait => 3 case StreamOut => 3 case _ => 0)
  }

  /** The environment does what the engine is waiting for, or there is nothing to wait for. */
  predicate Serves(c: Config, r: Regs, i: Cycle) {
    match r.phase
    case Idle => false
    case FillReq => i.gnt
    case FillWait => i.rvalid
    case SlideReq => r.skip || i.gnt
    case SlideWait => r.skip || i.rvalid
    case WrReq => c.stream || i.gnt
    case WrWait => i.rvalid
    case StreamOut => i.tready
  }

  lemma Sizes(c: Config)
    requires Legal(c)
    ensures 1 <= Rows(c) && 1 <= Cols(c) && Lag(c) <= LastCol(c) && 1 <= Total(c)
    ensures OutRows(c) == Rows(c) && OutCols(c) == Cols(c)
    ensures TotalNext(c) == Total(c)
  {
    hide Cell;
    CellBound(0, 0, Rows(c), Cols(c));
  }

  /** The next position's outputs, and the last output falls on the last position. */
  lemma DueNext(c: Config, row: int, col: int)
    requires Legal(c) && Lag(c) <= row <= LastRow(c) && 0 <= col <= LastCol(c)
    ensures 0 <= Due(c, row, col) < Total(c)
    ensures col < LastCol(c) ==> Due(c, row, col + 1) == Due(c, row, col) + if Lag(c) <= col then 1 else 0
    ensures col == LastCol(c) ==> Due(c, row + 1, 0) == Due(c, row, col) + 1
    ensures Lag(c) <= col ==>
      (Due(c, row, col) == Total(c) - 1 <==> row == LastRow(c) && col == LastCol(c))
  {
    Sizes(c);
    CellBound(row - Lag(c), if col < Lag(c) then 0 else col - Lag(c), Rows(c), Cols(c));
    CellNext(row - Lag(c), col - Lag(c), Cols(c));
  }

  lemma PositionNext(c: Config, row: int, col: int)
    requires Legal(c) && Lag(c) <= row <= LastRow(c) && 0 <= col <= LastCol(c)
    ensures 0 <= Cell(row - Lag(c), col, LastCol(c) + 1) < Positions(c)
    ensures Cell(row - Lag(c), col + 1, LastCol(c) + 1) == Cell(row - Lag(c), col, LastCol(c) + 1) + 1
    ensures col == LastCol(c) ==>
      Cell(row + 1 - Lag(c), 0, LastCol(c) + 1) == Cell(row - Lag(c), col, LastCol(c) + 1) + 1
    ensures row == LastRow(c) && col == LastCol(c) ==> Cell(row - Lag(c), col, LastCol(c) + 1) == Positions(c) - 1
  {
    CellBound(row - Lag(c), col, Rows(c), LastCol(c) + 1);
    CellNext(row - Lag(c), col, LastCol(c) + 1);
  }

  lemma StartControls(c: Config, r0: Regs)
    requires Legal(c)
    ensures Control(c, Go(c, r0)) && Todo(c, Go(c, r0)) == 2 * Cell(Lag(c), 0, c.width) + 2 * Positions(c) + 2 * Total(c)
  {
    hide Cell, U32;
    Sizes(c);
    CellNext(0, 0, c.width);
  }

  lemma ControlFill(c: Config, r: Regs, i: Cycle, rdata: Word)
    requires Legal(c) && Control(c, r) && r.phase.FillWait? && i.rvalid
    ensures var r' := Clock(c, r, i.gnt, i.rvalid, rdata, i.tready);
      Control(c, r') && Todo(c, r') == Todo(c, r) - 1
  {
    hide Pe, Window, Written, Area, Cell;
    CellNext(r.fillRow, r.fillCol, c.width);
    CellNext(0, 0, Cols(c));
    CellNext(0, 0, LastCol(c) + 1);
    DueNext(c, Lag(c), 0);
  }

  lemma ControlAdvance(c: Config, r: Regs)
    requires Legal(c) && Control(c, r) && (Sliding(r.phase) || Delivering(r.phase))
    requires r.curRow < LastRow(c) || r.curCol < LastCol(c)
    ensures var r' := Advance(c, r);
      && r'.phase.SlideReq? && Lag(c) <= r'.curRow <= LastRow(c) && r'.curCol <= LastCol(c)
      && r'.skip == (c.zeroPad && c.width <= r'.curCol)
      && Due(c, r'.curRow, r'.curCol) == Due(c, r.curRow, r.curCol) + (if Lag(c) <= r.curCol then 1 else 0)
      && Cell(r'.curRow - Lag(c), r'.curCol, LastCol(c) + 1) == Cell(r.curRow - Lag(c), r.curCol, LastCol(c) + 1) + 1
  {
    hide Due, Cell, Area;
    Sizes(c);
    DueNext(c, r.curRow, r.curCol);
    PositionNext(c, r.curRow, r.curCol);
  }

  lemma ControlSlide(c: Config, r: Regs, i: Cycle, rdata: Word)
    requires Legal(c) && Control(c, r) && r.phase.SlideWait? && (r.skip || i.rvalid)
    ensures var r' := Clock(c, r, i.gnt, i.rvalid, rdata, i.tready);
      Control(c, r') && Todo(c, r') == Todo(c, r) - 1
  {
    hide Due, Cell, Area, Pe, Window, Written, U32, Total;
    Sizes(c);
    DueNext(c, r.curRow, r.curCol);
    if r.curCol < r.lag {
      ControlAdvance(c, r);
    }
  }

  lemma ControlRetire(c: Config, r: Regs)
    requires Legal(c) && Control(c, r) && (r.phase.WrWait? || r.phase.StreamOut?)
    ensures var r' := if c.stream then Retire(c, r) else Retire(c, r).(curDst := Add32(r.curDst, 4));
      Control(c, r') && Todo(c, r') == Todo(c, r) - 1
  {
    hide Due, Cell, Area, Total;
    Sizes(c);
    DueNext(c, r.curRow, r.curCol);
    PositionNext(c, r.curRow, r.curCol);
    if r.remaining != 1 {
      ControlAdvance(c, r);
    }
  }

  lemma ControlStep(c: Config, r: Regs, i: Cycle, rdata: Word)
    requires Legal(c) && Control(c, r)
    ensures var r' := Clock(c, r, i.gnt, i.rvalid, rdata, i.tready);
      Control(c, r') && Todo(c, r') == Todo(c, r) - if Serves(c, r, i) then 1 else 0
  {
    hide Due, Cell, Area, Pe, Window, Written, U32, Total, Filled, Slid, Retire;
    if r.phase.FillWait? && i.rvalid {
      ControlFill(c, r, i, rdata);
    } else if r.phase.SlideWait? && (r.skip || i.rvalid) {
      ControlSlide(c, r, i, rdata);
    } else if (r.phase.WrWait? && i.rvalid) || (r.phase.StreamOut? && i.tready) {
      ControlRetire(c, r);
    }
  }

  // ---------------------------------------------------------------- the line buffer

  /** The newest row held in column x once every pixel before (row, col) has been written. */
  function Top(row: int, col: int, x: int): int {
    if x < col then row else row - 1
  }

  /** Each column holds its three newest rows; columns past the image are as they were at GO. */
  ghost predicate Holds(c: Config, m0: Memory, lines0: Lines, lines: Lines, row: int, col: int)
    requires Loaded(c, m0)
  {
    && (forall y, x :: 0 <= x < c.width && x < 64 && Top(row, col, x) - 3 < y <= Top(row, col, x) && y < c.height ==>
          lines[64 * (y % 3) + x] == Seen(c, m0, lines0, y, x))
    && (forall p :: 0 <= p < 192 && c.width <= p % 64 ==> lines[p] == lines0[p])
  }

  lemma HoldsAtGo(c: Config, m0: Memory, lines0: Lines)
    requires Loaded(c, m0)
    ensures Holds(c, m0, lines0, lines0, 0, 0)
  {
  }

  lemma HoldsWritten(c: Config, m0: Memory, lines0: Lines, lines: Lines, row: nat, col: nat, v: Int8)
    requires Loaded(c, m0) && c.width <= 64 && col < c.width && Holds(c, m0, lines0, lines, row, col)
    requires row < c.height ==> v == Seen(c, m0, lines0, row, col)
    ensures Holds(c, m0, lines0, Written(lines, Pixel(row % 3, col, v)), row, col + 1)
  {
    hide Seen, Loaded;
    var lines' := Written(lines, Pixel(row % 3, col, v));
    forall y, x | 0 <= x < c.width && Top(row, col + 1, x) - 3 < y <= Top(row, col + 1, x) && y < c.height
      ensures lines'[64 * (y % 3) + x] == Seen(c, m0, lines0, y, x)
    {
      if x != col {
        assert Top(row, col + 1, x) == Top(row, col, x);
      }
    }
  }

  lemma HoldsNextRow(c: Config, m0: Memory, lines0: Lines, lines: Lines, row: int)
    requires Loaded(c, m0)
    ensures Holds(c, m0, lines0, lines, row, c.width) ==> Holds(c, m0, lines0, lines, row + 1, 0)
  {
    hide Seen, Loaded;
    assert forall x :: 0 <= x < c.width ==> Top(row + 1, 0, x) == Top(row, c.width, x);
  }

  /** The window the PE sees, write-through included, is the window of the line buffer after the write. */
  lemma WriteThrough(c: Config, r: Regs, wr: Option<Pixel>, t: nat)
    requires t < 9 && (wr.Some? ==> Fits(wr.value))
    ensures WindowTap(c, r, wr, t)
         == WindowTap(c, if wr.Some? then r.(lines := Written(r.lines, wr.value)) else r, None, t)
  {
  }

  /** At position (row, col), with every pixel up to it in the line buffer, the window is the specified one. */
  lemma TapSeen(c: Config, m0: Memory, lines0: Lines, r: Regs, t: nat)
    requires Legal(c) && Loaded(c, m0) && t < 9 && Lag(c) <= r.curRow <= LastRow(c) && Lag(c) <= r.curCol <= LastCol(c)
    requires Holds(c, m0, lines0, r.lines, r.curRow, if c.zeroPad && c.width <= r.curCol then c.width else r.curCol + 1)
    ensures WindowTap(c, r, None, t) == Tap(c, m0, lines0, r.curRow, r.curCol, t)
  {
    hide Seen, Loaded, Area, Total, Holds;
    var y, x := r.curRow - 2 + t / 3, r.curCol - 2 + t % 3;
    assert (r.curRow + 1 + t / 3) % 3 == y % 3;
    if y < c.height && 0 <= x {
      var next := if c.zeroPad && c.width <= r.curCol then c.width else r.curCol + 1;
      HeldAt(c, m0, lines0, r.lines, r.curRow, next, y, x % 64);
    }
  }

  /** A place the line buffer still holds, or a column past the image. */
  lemma HeldAt(c: Config, m0: Memory, lines0: Lines, lines: Lines, row: int, col: int, y: int, x: int)
    requires Loaded(c, m0) && Holds(c, m0, lines0, lines, row, col) && y < c.height && 0 <= x < 64
    requires x < c.width ==> Top(row, col, x) - 3 < y <= Top(row, col, x)
    ensures lines[64 * (y % 3) + x] == Seen(c, m0, lines0, y, x)
  {
    hide Seen, Loaded, Top;
    if c.width <= x {
      ColumnPast(c, m0, lines0, y, x);
      PastPlace(y, x);
    }
  }

  lemma PastPlace(y: int, x: int)
    requires 0 <= x < 64
    ensures 0 <= 64 * (y % 3) + x < 192 && (64 * (y % 3) + x) % 64 == x
  {
  }


  lemma ColumnPast(c: Config, m0: Memory, lines0: Lines, y: int, x: int)
    requires Loaded(c, m0) && y < c.height && c.width <= x < 64
    ensures Seen(c, m0, lines0, y, x) == lines0[64 * (y % 3) + x]
  {
  }

  lemma WindowIsTaps(c: Config, m0: Memory, lines0: Lines, r: Regs, wr: Option<Pixel>)
    requires Legal(c) && Loaded(c, m0) && Lag(c) <= r.curRow <= LastRow(c) && Lag(c) <= r.curCol <= LastCol(c)
    requires wr.Some? ==> Fits(wr.value)
    requires Holds(c, m0, lines0, if wr.Some? then Written(r.lines, wr.value) else r.lines,
                   r.curRow, if c.zeroPad && c.width <= r.curCol then c.width else r.curCol + 1)
    ensures Window(c, r, wr) == Taps(c, m0, lines0, r.curRow, r.curCol)
  {
    hide WindowTap, Tap, Holds, Loaded, Written, Area, Total;
    var r' := if wr.Some? then r.(lines := Written(r.lines, wr.value)) else r;
    forall t: nat | t < 9 ensures WindowTap(c, r, wr, t) == Tap(c, m0, lines0, r.curRow, r.curCol, t) {
      WriteThrough(c, r, wr, t);
      TapSeen(c, m0, lines0, r', t);
    }
  }

  // ---------------------------------------------------------------- the data side of the invariant

  /** The next pixel the line buffer waits for. */
  function NextCol(c: Config, r: Regs): int {
    var col := if Delivering(r.phase) then r.curCol + 1 else r.curCol;
    if c.width < col then c.width else col
  }

  ghost predicate Data(c: Config, m0: Memory, mi: Memory, lines0: Lines, ws: seq<Word>, s: System)
    requires Legal(c) && Loaded(c, mi) && Control(c, s.regs) && |ws| == Total(c)
  {
    var r, k := s.regs, Delivered(c, s.regs);
    && s.mem == (if c.stream then m0 else Store(m0, c.dst, ws[..Stored(c, r)]))
    && s.beats == (if c.stream then Beats(ws, k) else [])
    && (Filling(r.phase) ==> Holds(c, mi, lines0, r.lines, r.fillRow, r.fillCol))
    && (Sliding(r.phase) || Delivering(r.phase) ==> Holds(c, mi, lines0, r.lines, r.curRow, NextCol(c, r)))
    && (Delivering(r.phase) ==> r.peResult == ws[k])
    && (r.phase.FillWait? ==> s.granted == Request(ReadAddr(c, r.fillRow, r.fillCol), false, 0))
    && (r.phase.SlideWait? && !r.skip ==> s.granted == Request(ReadAddr(c, r.curRow, r.curCol), false, 0))
  }

  ghost predicate Invariant(c: Config, m0: Memory, mi: Memory, lines0: Lines, s: System)
    requires Legal(c) && Loaded(c, mi)
  {
    Control(c, s.regs) && Data(c, m0, mi, lines0, Outputs(c, mi, lines0), s)
  }

  lemma AddressInImage(c: Config, row: int, col: int)
    requires Legal(c) && 0 <= row < c.height && 0 <= col < c.width
    ensures 0 <= Cell(row, col, c.width) < Area(c)
    ensures ReadAddr(c, row, col) == c.src + 4 * Cell(row, col, c.width)
  {
    hide Cell, Total;
    CellBound(row, col, c.height, c.width);
  }

  /** The response to a read is the pixel as this run reads it. */
  lemma PixelFound(c: Config, m0: Memory, mi: Memory, lines0: Lines, ws: seq<Word>, mem: Memory,
                   row: nat, col: nat, stray: Word)
    requires Legal(c) && Loaded(c, m0) && ReadAs(c, m0, mi, lines0) && ws == Outputs(c, mi, lines0)
    requires row < c.height && col < c.width
    requires mem == if c.stream then m0 else Store(m0, c.dst, Upto(ws, DueBefore(c, row, col)))
    ensures S8(Load(mem, ReadAddr(c, row, col), stray)) == Seen(c, mi, lines0, row, col)
  {
    hide Store, S8, Cell, Total, Area, ReadAddr, Outputs, Legal, Due, Upto, DueBefore;
    AddressInImage(c, row, col);
    var a := c.src + 4 * Cell(row, col, c.width);
    assert a in m0;
    assert Found(c, m0, ws, row, col) == mi[a];
    NothingDelivered(m0, c.dst, ws);
    StoreLookup(m0, c.dst, Upto(ws, DueBefore(c, row, col)), a);
  }

  lemma FillKeeps(c: Config, m0: Memory, mi: Memory, lines0: Lines, ws: seq<Word>, s: System, i: Cycle)
    requires Legal(c) && Loaded(c, m0) && ReadAs(c, m0, mi, lines0) && ws == Outputs(c, mi, lines0)
    requires Control(c, s.regs) && Data(c, m0, mi, lines0, ws, s)
    requires s.regs.phase.FillWait? && i.rvalid && Control(c, Step(c, s, i).regs)
    ensures Data(c, m0, mi, lines0, ws, Step(c, s, i))
  {
    hide Store, Holds, S8, Beats, Load, Written, Pe, Window, Cell, Total, Area, Loaded, Found, Seen, ReadAddr, Due;
    var r := s.regs;
    var v := S8(Load(s.mem, s.granted.addr, i.stray));
    PixelFound(c, m0, mi, lines0, ws, s.mem, r.fillRow, r.fillCol, i.stray);
    HoldsWritten(c, mi, lines0, r.lines, r.fillRow, r.fillCol, v);
    if r.fillCol == c.width - 1 {
      HoldsNextRow(c, mi, lines0, Written(r.lines, FillPixel(r, Load(s.mem, s.granted.addr, i.stray))), r.fillRow);
    }
  }

  /** What the response of a slide read leaves in the line buffer. */
  lemma SlideHolds(c: Config, m0: Memory, mi: Memory, lines0: Lines, ws: seq<Word>, s: System, stray: Word)
    requires Legal(c) && Loaded(c, m0) && ReadAs(c, m0, mi, lines0) && ws == Outputs(c, mi, lines0)
    requires Control(c, s.regs) && Data(c, m0, mi, lines0, ws, s) && s.regs.phase.SlideWait?
    ensures var r := s.regs;
      var wr := SlidePixel(r, Load(s.mem, s.granted.addr, stray));
      Holds(c, mi, lines0, if wr.Some? then Written(r.lines, wr.value) else r.lines, r.curRow,
            if c.zeroPad && c.width <= r.curCol then c.width else r.curCol + 1)
  {
    hide Store, Holds, S8, Beats, Load, Written, Cell, Total, Area, Loaded, Found, Seen, ReadAddr, Due;
    var r := s.regs;
    if !r.skip {
      var v := S8(Load(s.mem, s.granted.addr, stray));
      if r.curRow < c.height {
        PixelFound(c, m0, mi, lines0, ws, s.mem, r.curRow, r.curCol, stray);
      }
      HoldsWritten(c, mi, lines0, r.lines, r.curRow, r.curCol, v);
    }
  }

  lemma OutputAt(c: Config, m0: Memory, lines0: Lines, row: int, col: int)
    requires Legal(c) && Loaded(c, m0) && Lag(c) <= row <= LastRow(c) && Lag(c) <= col <= LastCol(c)
    ensures 0 <= Due(c, row, col) < Total(c)
    ensures Outputs(c, m0, lines0)[Due(c, row, col)] == U32(Pe(Taps(c, m0, lines0, row, col), c.kernel))
  {
    hide Pe, Taps, U32, Loaded, Cell, Area, Total, Rows;
    DueNext(c, row, col);
    CellDecode(row - Lag(c), col - Lag(c), Cols(c));
    assert Outputs(c, m0, lines0)[Due(c, row, col)] == OutputNo(c, m0, lines0, Due(c, row, col));
  }

  lemma SlideKeeps(c: Config, m0: Memory, mi: Memory, lines0: Lines, ws: seq<Word>, s: System, i: Cycle)
    requires Legal(c) && Loaded(c, m0) && ReadAs(c, m0, mi, lines0) && ws == Outputs(c, mi, lines0)
    requires Control(c, s.regs) && Data(c, m0, mi, lines0, ws, s)
    requires s.regs.phase.SlideWait? && (s.regs.skip || i.rvalid) && Control(c, Step(c, s, i).regs)
    ensures Data(c, m0, mi, lines0, ws, Step(c, s, i))
  {
    hide Store, Holds, S8, Beats, Load, Written, Pe, Window, Taps, Cell, Total, Area, Loaded, Found, Seen,
         ReadAddr, Due, Outputs, U32;
    var r := s.regs;
    var wr := SlidePixel(r, Load(s.mem, s.granted.addr, i.stray));
    SlideHolds(c, m0, mi, lines0, ws, s, i.stray);
    if Lag(c) <= r.curCol {
      WindowIsTaps(c, mi, lines0, r, wr);
      OutputAt(c, mi, lines0, r.curRow, r.curCol);
    }
  }

  lemma RetireKeeps(c: Config, m0: Memory, mi: Memory, lines0: Lines, ws: seq<Word>, s: System, i: Cycle)
    requires Legal(c) && Loaded(c, mi) && |ws| == Total(c)
    requires Control(c, s.regs) && Data(c, m0, mi, lines0, ws, s)
    requires (s.regs.phase.WrWait? && i.rvalid) || (s.regs.phase.StreamOut? && i.tready)
    requires Control(c, Step(c, s, i).regs)
    ensures Data(c, m0, mi, lines0, ws, Step(c, s, i))
  {
    hide Store, Holds, Beats, Load, Written, Pe, Window, Cell, Total, Area, Loaded, ReadAddr, Due;
    BeatsSnoc(ws, Delivered(c, s.regs));
    HoldsNextRow(c, mi, lines0, s.regs.lines, s.regs.curRow);
  }

  lemma RequestKeeps(c: Config, m0: Memory, mi: Memory, lines0: Lines, ws: seq<Word>, s: System, i: Cycle)
    requires Legal(c) && Loaded(c, mi) && |ws| == Total(c)
    requires Control(c, s.regs) && Data(c, m0, mi, lines0, ws, s)
    requires s.regs.phase.FillReq? || s.regs.phase.SlideReq? || s.regs.phase.WrReq?
    requires Serves(c, s.regs, i) && Control(c, Step(c, s, i).regs)
    ensures Data(c, m0, mi, lines0, ws, Step(c, s, i))
  {
    hide Store, Holds, Beats, Load, Written, Pe, Window, Cell, Total, Area, Loaded, ReadAddr, Due;
    if s.regs.phase.WrReq? {
      StoreSnoc(m0, c.dst, ws, Delivered(c, s.regs));
    }
  }

  lemma StutterKeeps(c: Config, s: System, i: Cycle)
    requires !Serves(c, s.regs, i)
    ensures Step(c, s, i) == s
  {
    hide ReadAddr;
  }

  /** One clock edge, whatever the environment does: the invariant is kept (so the fallback exits to IDLE
      with BUSY set are never taken), and the engine comes closer to the end exactly when it is served. */
  lemma StepKeeps(c: Config, m0: Memory, mi: Memory, lines0: Lines, s: System, i: Cycle)
    requires Legal(c) && Loaded(c, m0) && ReadAs(c, m0, mi, lines0) && Invariant(c, m0, mi, lines0, s)
    ensures Invariant(c, m0, mi, lines0, Step(c, s, i))
    ensures Todo(c, Step(c, s, i).regs) == Todo(c, s.regs) - if Serves(c, s.regs, i) then 1 else 0
  {
    hide Data, Control, Clock, Outputs, Total, Area, Legal, Loaded, Todo, Found, DmaRequest, Load;
    var ws := Outputs(c, mi, lines0);
    ControlStep(c, s.regs, i, Load(s.mem, s.granted.addr, i.stray));
    if !Serves(c, s.regs, i) {
      StutterKeeps(c, s, i);
    } else if s.regs.phase.FillWait? {
      FillKeeps(c, m0, mi, lines0, ws, s, i);
    } else if s.regs.phase.SlideWait? {
      SlideKeeps(c, m0, mi, lines0, ws, s, i);
    } else if s.regs.phase.WrWait? || s.regs.phase.StreamOut? {
      RetireKeeps(c, m0, mi, lines0, ws, s, i);
    } else {
      RequestKeeps(c, m0, mi, lines0, ws, s, i);
    }
  }

  lemma TodoPositive(c: Config, r: Regs)
    requires Legal(c) && Control(c, r)
    ensures 0 <= Todo(c, r) && (Todo(c, r) == 0 <==> r.done)
  {
    hide Cell, Area, Total, Due;
    Sizes(c);
    if Filling(r.phase) {
      CellBound(r.fillRow, r.fillCol, Lag(c), c.width);
      CellBound(0, 0, Rows(c), LastCol(c) + 1);
    } else if !r.phase.Idle? {
      DueNext(c, r.curRow, r.curCol);
      PositionNext(c, r.curRow, r.curCol);
    }
  }

  /** Every state of every run satisfies the invariant; each ready cycle brings the end nearer. */
  lemma {:induction false} RunKeeps(c: Config, m0: Memory, mi: Memory, lines0: Lines, s: System, schedule: seq<Cycle>)
    requires Legal(c) && Loaded(c, m0) && ReadAs(c, m0, mi, lines0) && Invariant(c, m0, mi, lines0, s)
    ensures Invariant(c, m0, mi, lines0, Run(c, s, schedule))
    ensures !Run(c, s, schedule).regs.done ==> Todo(c, Run(c, s, schedule).regs) <= Todo(c, s.regs) - ReadyCycles(schedule)
  {
    hide Data, Clock, Outputs, Legal, Loaded, Found, Todo, Step, Delivered, Due;
    if schedule != [] {
      var n := |schedule| - 1;
      var t, i := Run(c, s, schedule[..n]), schedule[n];
      RunKeeps(c, m0, mi, lines0, s, schedule[..n]);
      StepKeeps(c, m0, mi, lines0, t, i);
      if t.regs.done {
        StutterKeeps(c, t, i);
      }
    }
  }

  lemma StartEstablishes(c: Config, r0: Regs, m0: Memory, mi: Memory, q0: Request)
    requires Legal(c) && Loaded(c, mi)
    ensures Invariant(c, m0, mi, r0.lines, Start(c, r0, m0, q0))
  {
    hide Outputs, Total, Area, Cell, Holds, Loaded, Store, Beats;
    StartControls(c, r0);
    HoldsAtGo(c, mi, r0.lines);
    NothingDelivered(m0, c.dst, Outputs(c, mi, r0.lines));
  }

  // ---------------------------------------------------------------- every run computes the outputs

  /** Cycles a run takes when it is never made to wait. */
  function Latency(c: Config): int {
    2 * Cell(Lag(c), 0, c.width) + 2 * Positions(c) + 2 * Total(c)
  }

  /** Whatever the buffers' overlap: when DONE is up the outputs of the image as read are exactly in place, DONE is up
      as soon as the environment has been ready for Latency cycles, and BUSY is its opposite throughout. */
  lemma EveryRunComputes(c: Config, r0: Regs, m0: Memory, mi: Memory, q0: Request, schedule: seq<Cycle>)
    requires Legal(c) && Loaded(c, m0) && ReadAs(c, m0, mi, r0.lines)
    ensures var s := Run(c, Start(c, r0, m0, q0), schedule);
      && s.regs.busy == !s.regs.done
      && (s.regs.done ==> Finished(c.stream, c.dst, m0, Outputs(c, mi, r0.lines), s.mem, s.beats))
      && (Latency(c) <= ReadyCycles(schedule) ==> s.regs.done)
  {
    hide Outputs, Store, Clock, Finished, Beats, Legal, Loaded, Found, Go, Positions, Todo, Due, Step, Cell, Holds;
    var s0 := Start(c, r0, m0, q0);
    var s, ws := Run(c, s0, schedule), Outputs(c, mi, r0.lines);
    StartEstablishes(c, r0, m0, mi, q0);
    StartControls(c, r0);
    RunKeeps(c, m0, mi, r0.lines, s0, schedule);
    TodoPositive(c, s.regs);
    if s.regs.done {
      assert ws[..|ws|] == ws;
      AllDelivered(c.stream, c.dst, m0, ws, s.mem, s.beats);
    }
  }

  /** For every image, kernel, handshake and starting line buffer: when DONE is up the outputs are exactly in place,
      DONE is up as soon as the environment has been ready for Latency cycles, and BUSY is its opposite throughout. */
  lemma EveryRunConvolves(c: Config, r0: Regs, m0: Memory, q0: Request, schedule: seq<Cycle>)
    requires Legal(c) && Loaded(c, m0) && NoClobber(c)
    ensures var s := Run(c, Start(c, r0, m0, q0), schedule);
      && s.regs.busy == !s.regs.done
      && (s.regs.done ==> Finished(c.stream, c.dst, m0, Outputs(c, m0, r0.lines), s.mem, s.beats))
      && (Latency(c) <= ReadyCycles(schedule) ==> s.regs.done)
  {
    hide Outputs, Run, Start, Finished, Legal, Loaded, NoClobber, Latency, ReadAs;
    ReadAsOriginal(c, m0, r0.lines);
    EveryRunComputes(c, r0, m0, m0, q0, schedule);
  }

  // ---------------------------------------------------------------- stream mode

  lemma StreamTaps(c: Config, b: bool, m0: Memory, lines0: Lines, row: nat, col: nat)
    requires Loaded(c, m0) && Loaded(c.(stream := b), m0) && row <= LastRow(c)
    ensures Taps(c.(stream := b), m0, lines0, row, col) == Taps(c, m0, lines0, row, col)
  {
    hide Cell, S8, Area;
  }

  lemma StreamOutputs(c: Config, b: bool, m0: Memory, lines0: Lines)
    requires Legal(c) && Legal(c.(stream := b)) && Loaded(c, m0) && Loaded(c.(stream := b), m0)
    ensures Outputs(c.(stream := b), m0, lines0) == Outputs(c, m0, lines0)
  {
    hide Cell, Area, Legal, Loaded, Pe, U32, Taps;
    Sizes(c);
    forall o: nat | o < Total(c)
      ensures OutputNo(c.(stream := b), m0, lines0, o) == OutputNo(c, m0, lines0, o)
    {
      DivisionBound(o, Rows(c), Cols(c));
      StreamTaps(c, b, m0, lines0, Lag(c) + o / Cols(c), Lag(c) + o % Cols(c));
    }
  }

  /** A finished stream run has sent, beat by beat, the words a finished memory run stores, and marked the last. */
  lemma StreamIsDma(c: Config, r0: Regs, m0: Memory, q0: Request, schedule: seq<Cycle>, schedule': seq<Cycle>)
    requires !c.stream && Legal(c) && Legal(c.(stream := true))
    requires Loaded(c, m0) && Loaded(c.(stream := true), m0) && NoClobber(c)
    ensures var dma := Run(c, Start(c, r0, m0, q0), schedule);
            var d := c.(stream := true);
            var streamed := Run(d, Start(d, r0, m0, q0), schedule');
            dma.regs.done && streamed.regs.done ==>
              && streamed.mem == m0 && |streamed.beats| == Total(c)
              && forall o :: 0 <= o < Total(c) ==>
                   c.dst + 4 * o in dma.mem && streamed.beats[o] == Beat(dma.mem[c.dst + 4 * o], o == Total(c) - 1)
  {
    hide Run, Start, Legal, Loaded, NoClobber, Outputs;
    var d := c.(stream := true);
    StreamIsSafe(c);
    StreamOutputs(c, true, m0, r0.lines);
    EveryRunConvolves(c, r0, m0, q0, schedule);
    EveryRunConvolves(d, r0, m0, q0, schedule');
  }

  lemma StreamIsSafe(c: Config)
    ensures NoClobber(c.(stream := true))
  {
  }

  // ---------------------------------------------------------------- overlapping buffers

  /** How many words the destination may lie past the source before an output lands on an unread pixel. */
  function Slack(c: Config): nat {
    if !c.zeroPad then 2 * c.width + 2 else if c.height <= 2 then c.width + 1 else c.width
  }

  /** Outputs run behind reads: output number Due(row, col) - 1 lies below pixel (row, col) by Slack words. */
  lemma ReadsAhead(c: Config, row: int, col: int)
    requires Legal(c) && Lag(c) <= row < c.height && 0 <= col < c.width && 0 < Due(c, row, col)
    ensures Due(c, row, col) + Slack(c) <= Cell(row, col, c.width)
  {
    hide Area, Total, Cell;
    var n, d := row - Lag(c), if col < Lag(c) then 0 else col - Lag(c);
    RowsOn(n, Lag(c), col, c.width);
    NarrowRow(n, d, c.width);
    FirstRow(d, c.width);
    FirstRow(d, c.width - 2);
  }

  lemma RowsOn(n: int, lag: int, col: int, w: int)
    requires 1 <= lag <= 2
    ensures Cell(n + lag, col, w) == Cell(n, 0, w) + (if lag == 1 then w else 2 * w) + col
  {
    assert (n + 1) * w == n * w + w;
    assert (n + 2) * w == n * w + 2 * w;
  }

  lemma NarrowRow(n: int, d: int, w: int)
    ensures Cell(n, d, w - 2) == Cell(n, 0, w) - 2 * n + d && Cell(n, d, w) == Cell(n, 0, w) + d
  {
    assert n * (w - 2) == n * w - 2 * n;
  }

  lemma FirstRow(d: int, w: int)
    ensures Cell(0, d, w) == d
  {
  }

  /** A pixel far enough on has outputs due before it. */
  lemma ReadLate(c: Config, row: int, col: int)
    requires Legal(c) && 0 <= row < c.height && 0 <= col < c.width
    requires Cell(row, col, c.width) > if c.zeroPad then c.width + 1 else 2 * c.width + 2
    ensures Lag(c) <= row && 0 < Due(c, row, col)
  {
    hide Area, Total;
    if row < Lag(c) {
      Monotone(row, Lag(c) - 1, c.width);
    } else if row == Lag(c) {
      assert col > Lag(c);
    } else {
      Monotone(1, row - Lag(c), Cols(c));
    }
  }

  /** In the same mode the row after next gives the first clash of a destination one word past the slack. */
  lemma SecondRow(c: Config)
    requires Legal(c) && c.zeroPad && c.height > 2
    ensures Due(c, 2, 0) == c.width && Cell(2, 0, c.width) == 2 * c.width
  {
  }

  lemma WithinSlack(c: Config)
    requires Legal(c)
    requires c.dst <= c.src + 4 * Slack(c) || c.src + 4 * Area(c) <= c.dst
    ensures NoClobber(c)
  {
    hide Area, Total, Due, Cell, Slack, ReadAddr;
    forall o, row, col | Lag(c) <= row < c.height && 0 <= col < c.width && 0 <= o < Due(c, row, col)
      ensures !Lands(c, o, row, col)
    {
      ReadsAhead(c, row, col);
      AddressInImage(c, row, col);
    }
  }

  /** The outputs with the image z loaded at the source. */
  function OutputsOf(c: Config, m0: Memory, lines0: Lines, z: seq<Word>): seq<Word>
    requires Legal(c)
  {
    if |z| == Area(c) then
      StoreHolds(m0, c.src, z);
      Outputs(c, Store(m0, c.src, z), lines0)
    else []
  }

  function DueAt(c: Config, q: nat): nat {
    var due := if c.width == 0 then 0 else DueBefore(c, q / c.width, q % c.width);
    if due < 0 then 0 else due
  }

  lemma SeenCausal(c: Config, m0: Memory, lines0: Lines, z: seq<Word>, z': seq<Word>, row: int, col: int, y: int, x: int)
    requires Legal(c) && |z| == Area(c) && |z'| == Area(c) && 0 <= row < c.height && 0 <= col < c.width
    requires 0 <= Cell(row, col, c.width) <= |z| && z[..Cell(row, col, c.width)] == z'[..Cell(row, col, c.width)]
    requires y < row || (y == row && x < col)
    requires 0 <= x < 64
    requires Loaded(c, Store(m0, c.src, z)) && Loaded(c, Store(m0, c.src, z'))
    ensures Seen(c, Store(m0, c.src, z), lines0, y, x) == Seen(c, Store(m0, c.src, z'), lines0, y, x)
  {
    hide Store, S8, Area, Total, Cell, Loaded;
    if 0 <= y && x < c.width {
      StoreHolds(m0, c.src, z);
      StoreHolds(m0, c.src, z');
      CellBound(y, x, c.height, c.width);
      CellOrder(y, x, row, col, c.width);
      var p, q := Cell(y, x, c.width), Cell(row, col, c.width);
      assert z[p] == z[..q][p] && z'[p] == z'[..q][p];
    }
  }

  lemma CellOrder(y: int, x: int, row: int, col: int, w: int)
    requires 0 <= x < w && 0 <= col && (y < row || (y == row && x < col))
    ensures Cell(y, x, w) < Cell(row, col, w)
  {
    if y < row {
      Monotone(y + 1, row, w);
    }
  }

  /** Two inputs that agree on every pixel before (row, col). */
  predicate AgreeBefore(c: Config, z: seq<Word>, z': seq<Word>, row: int, col: int)
    requires Legal(c)
  {
    && |z| == Area(c) && |z'| == Area(c) && 0 <= row < c.height && 0 <= col < c.width
    && 0 <= Cell(row, col, c.width) <= |z| && z[..Cell(row, col, c.width)] == z'[..Cell(row, col, c.width)]
  }

  lemma TapCausal(c: Config, m0: Memory, lines0: Lines, z: seq<Word>, z': seq<Word>, row: int, col: int,
                  pr: nat, pc: nat, t: nat)
    requires Legal(c) && AgreeBefore(c, z, z', row, col) && t < 9
    requires pr <= LastRow(c) && (pr < row || (pr == row && pc < col))
    requires Loaded(c, Store(m0, c.src, z)) && Loaded(c, Store(m0, c.src, z'))
    ensures Tap(c, Store(m0, c.src, z), lines0, pr, pc, t) == Tap(c, Store(m0, c.src, z'), lines0, pr, pc, t)
  {
    hide Store, Seen, Area, Total, Cell, Loaded;
    var y, x := pr - 2 + t / 3, pc - 2 + t % 3;
    if y < c.height && 0 <= x {
      SeenCausal(c, m0, lines0, z, z', row, col, y, x % 64);
    }
  }

  /** The positions of outputs due before a pixel is read come before it. */
  lemma DueComesBefore(c: Config, row: int, col: int, o: nat)
    requires Legal(c) && Lag(c) <= row < c.height && 0 <= col < c.width && o < Due(c, row, col)
    ensures o < Total(c) && 1 <= Cols(c)
    ensures var pr, pc := Lag(c) + o / Cols(c), Lag(c) + o % Cols(c);
            0 <= pc <= LastCol(c) && (pr < row || (pr == row && pc < col))
  {
    hide Area, Cell, Total;
    Sizes(c);
    DueNext(c, row, col);
    Recompose(o, Cols(c));
    var d := if col < Lag(c) then 0 else col - Lag(c);
    var pr, pc := o / Cols(c), o % Cols(c);
    if pr > row - Lag(c) || (pr == row - Lag(c) && pc >= d) {
      CellAtLeast(row - Lag(c), d, pr, pc, Cols(c));
    }
  }

  lemma CellAtLeast(row: int, col: int, row': int, col': int, w: int)
    requires 0 <= col < w && 0 <= col' && (row < row' || (row == row' && col <= col'))
    ensures Cell(row, col, w) <= Cell(row', col', w)
  {
    if row < row' {
      CellOrder(row, col, row', col', w);
    }
  }

  lemma OutputCausal(c: Config, m0: Memory, lines0: Lines, z: seq<Word>, z': seq<Word>, row: int, col: int, o: nat)
    requires Legal(c) && AgreeBefore(c, z, z', row, col) && Lag(c) <= row && o < Due(c, row, col)
    ensures |OutputsOf(c, m0, lines0, z)| == Total(c) && |OutputsOf(c, m0, lines0, z')| == Total(c) && o < Total(c)
    ensures OutputsOf(c, m0, lines0, z)[o] == OutputsOf(c, m0, lines0, z')[o]
  {
    hide Store, Tap, Area, Cell, Loaded, Pe, U32, Due;
    LoadedThere(c, m0, z);
    LoadedThere(c, m0, z');
    DueComesBefore(c, row, col, o);
    DivisionBound(o, Rows(c), Cols(c));
    var m, m' := Store(m0, c.src, z), Store(m0, c.src, z');
    var pr, pc := Lag(c) + o / Cols(c), Lag(c) + o % Cols(c);
    forall t: nat | t < 9
      ensures Tap(c, m, lines0, pr, pc, t) == Tap(c, m', lines0, pr, pc, t)
    {
      TapCausal(c, m0, lines0, z, z', row, col, pr, pc, t);
    }
    assert Taps(c, m, lines0, pr, pc) == Taps(c, m', lines0, pr, pc);
    assert OutputNo(c, m, lines0, o) == OutputNo(c, m', lines0, o);
  }

  lemma LoadedThere(c: Config, m0: Memory, z: seq<Word>)
    requires |z| == Area(c)
    ensures Loaded(c, Store(m0, c.src, z))
  {
    StoreHolds(m0, c.src, z);
  }

  lemma PrefixCausal(c: Config, m0: Memory, lines0: Lines, z: seq<Word>, z': seq<Word>, q: nat)
    requires Legal(c) && |z| == Area(c) && |z'| == Area(c) && q < Area(c) && z[..q] == z'[..q]
    ensures var y, y' := OutputsOf(c, m0, lines0, z), OutputsOf(c, m0, lines0, z');
            && |y| == |y'| == Total(c) && DueAt(c, q) <= Total(c)
            && y[..DueAt(c, q)] == y'[..DueAt(c, q)]
  {
    hide Store, Area, Cell, Total, Due, OutputNo;
    var y, y' := OutputsOf(c, m0, lines0, z), OutputsOf(c, m0, lines0, z');
    LoadedThere(c, m0, z);
    LoadedThere(c, m0, z');
    AreaIs(c);
    DivisionBound(q, c.height, c.width);
    Recompose(q, c.width);
    var row, col := q / c.width, q % c.width;
    if Lag(c) <= row {
      LastRowAtLeast(c);
      DueNext(c, row, col);
      forall o: nat | o < DueAt(c, q)
        ensures y[o] == y'[o]
      {
        OutputCausal(c, m0, lines0, z, z', row, col, o);
      }
    }
  }

  lemma AreaIs(c: Config)
    ensures Area(c) == Cell(c.height, 0, c.width)
  {
  }

  lemma LastRowAtLeast(c: Config)
    requires Legal(c)
    ensures c.height - 1 <= LastRow(c) && c.width - 1 <= LastCol(c)
  {
  }

  lemma OutputsCausal(c: Config, m0: Memory, lines0: Lines, outputs: seq<Word> -> seq<Word>, due: nat -> nat)
    requires Legal(c)
    requires forall z :: outputs(z) == OutputsOf(c, m0, lines0, z)
    requires forall q: nat :: due(q) == DueAt(c, q)
    ensures Causal(outputs, due, Area(c))
  {
    hide OutputsOf, DueAt, Area;
    forall z, z', q: nat | |z| == Area(c) && |z'| == Area(c) && q < Area(c) && z[..q] == z'[..q]
      ensures due(q) <= |outputs(z)| && due(q) <= |outputs(z')| && outputs(z)[..due(q)] == outputs(z')[..due(q)]
    {
      PrefixCausal(c, m0, lines0, z, z', q);
    }
  }

  lemma FoundAt(c: Config, m0: Memory, ws: seq<Word>, row: int, col: int)
    requires Legal(c) && !c.stream && |ws| == Total(c) && 0 <= row < c.height && 0 <= col < c.width
    ensures 0 <= Cell(row, col, c.width) < Area(c) && DueAt(c, Cell(row, col, c.width)) <= |ws|
    ensures Found(c, m0, ws, row, col) ==
            ReadBack(m0, c.dst, ws[..DueAt(c, Cell(row, col, c.width))], c.src + 4 * Cell(row, col, c.width))
  {
    hide Cell, Area, Total, Due, ReadBack;
    AreaIs(c);
    CellBound(row, col, c.height, c.width);
    CellDecode(row, col, c.width);
    if Lag(c) <= row {
      LastRowAtLeast(c);
      DueNext(c, row, col);
    }
  }

  lemma PixelStored(c: Config, m0: Memory, z: seq<Word>, row: int, col: int)
    requires Legal(c) && |z| == Area(c) && 0 <= row < c.height && 0 <= col < c.width
    ensures 0 <= Cell(row, col, c.width) < |z|
    ensures PixelIs(c, Store(m0, c.src, z), row, col, z[Cell(row, col, c.width)])
  {
    hide Store, Cell, Total;
    CellBound(row, col, c.height, c.width);
    StoreHolds(m0, c.src, z);
  }

  /** For every overlap of the buffers there is an image that the run reads, so EveryRunComputes covers it. */
  lemma AsRead(c: Config, m0: Memory, lines0: Lines) returns (mi: Memory)
    requires Legal(c) && Loaded(c, m0)
    ensures ReadAs(c, m0, mi, lines0)
  {
    hide Outputs, Store, DueAt, Causal, ReadBack, Mapped, Area, Cell, Found, Total;
    if c.stream {
      mi := m0;
      StreamIsSafe(c);
      ReadAsOriginal(c, m0, lines0);
    } else {
      var outputs := z => OutputsOf(c, m0, lines0, z);
      var due := (q: nat) => DueAt(c, q);
      OutputsCausal(c, m0, lines0, outputs, due);
      var z := ReadsExist(m0, c.src, c.dst, outputs, due, Area(c), Area(c));
      LoadedThere(c, m0, z);
      mi := Store(m0, c.src, z);
      forall row, col | 0 <= row < c.height && 0 <= col < c.width
        ensures PixelIs(c, mi, row, col, Found(c, m0, Outputs(c, mi, lines0), row, col))
      {
        FoundAt(c, m0, Outputs(c, mi, lines0), row, col);
        PixelStored(c, m0, z, row, col);
      }
    }
  }

  lemma PeUnit(window: seq<Int8>, t: nat)
    requires |window| == 9 && t < 9
    ensures Pe(window, Unit(9, t)) == window[t]
  {
    DotUnit(window, 9, t, 9);
  }

  /** Every run that ends leaves the outputs of the original image: the engine is right with these buffers. */
  ghost predicate AlwaysRight(c: Config) {
    forall kernel: Kernel, r0: Regs, m0: Memory, q0: Request, schedule: seq<Cycle> ::
      RunRight(c.(kernel := kernel), r0, m0, q0, schedule)
  }

  ghost predicate RunRight(c: Config, r0: Regs, m0: Memory, q0: Request, schedule: seq<Cycle>) {
    var s := Run(c, Start(c, r0, m0, q0), schedule);
    Legal(c) && Loaded(c, m0) && s.regs.done ==> Finished(c.stream, c.dst, m0, Outputs(c, m0, r0.lines), s.mem, s.beats)
  }

  /** A run ends with the outputs of the image as read: if those are not the outputs of the original, it ends wrong. */
  lemma EndsWrong(c: Config, r0: Regs, m0: Memory, mi: Memory, q0: Request, schedule: seq<Cycle>, o: nat)
    requires Legal(c) && !c.stream && Loaded(c, m0) && ReadAs(c, m0, mi, r0.lines)
    requires Latency(c) <= ReadyCycles(schedule)
    requires o < Total(c) && Outputs(c, mi, r0.lines)[o] != Outputs(c, m0, r0.lines)[o]
    ensures !RunRight(c, r0, m0, q0, schedule)
  {
    hide Outputs, Run, Start, Finished, Found, Latency, Legal, Area, Total;
    EveryRunComputes(c, r0, m0, mi, q0, schedule);
    var s := Run(c, Start(c, r0, m0, q0), schedule);
    FinishedAt(c.dst, m0, Outputs(c, mi, r0.lines), s.mem, s.beats, o);
    if RunRight(c, r0, m0, q0, schedule) {
      FinishedAt(c.dst, m0, Outputs(c, m0, r0.lines), s.mem, s.beats, o);
    }
  }

  /** The position whose window has pixel (y, x) at tap t is one that gives an output. */
  predicate Shows(c: Config, y: int, x: int, t: nat) {
    && 0 <= t < 9 && 0 <= y < c.height && 0 <= x < c.width
    && Lag(c) <= y + 2 - t / 3 <= LastRow(c) && Lag(c) <= x + 2 - t % 3 <= LastCol(c)
  }

  /** With the kernel that is 1 at tap t, the number of the output that is pixel (y, x). */
  function ShownAt(c: Config, y: int, x: int, t: nat): int {
    Due(c, y + 2 - t / 3, x + 2 - t % 3)
  }

  lemma OutputShows(c: Config, m: Memory, lines0: Lines, y: int, x: int, t: nat, v: Word)
    requires Legal(c) && Loaded(c, m) && Shows(c, y, x, t) && c.kernel == Unit(9, t) && PixelIs(c, m, y, x, v)
    ensures 0 <= ShownAt(c, y, x, t) < Total(c)
    ensures Outputs(c, m, lines0)[ShownAt(c, y, x, t)] == U32(S8(v))
  {
    hide Outputs, S8, U32, Cell, Area, Total, Due, Unit, Pe;
    var pr, pc := y + 2 - t / 3, x + 2 - t % 3;
    OutputAt(c, m, lines0, pr, pc);
    PeUnit(Taps(c, m, lines0, pr, pc), t);
    assert Taps(c, m, lines0, pr, pc)[t] == Tap(c, m, lines0, pr, pc, t);
    CellBound(y, x, c.height, c.width);
  }

  /** Only pixel (y, x) is 1, and it is read before any output is written; the output that is that pixel lands on
      pixel (y', x') and is read back there, so the output that shows (y', x') is 1. */
  lemma ReadsOutput(c: Config, m0: Memory, mi: Memory, lines0: Lines, t: nat, y: int, x: int, y': int, x': int)
    requires Legal(c) && !c.stream && Loaded(c, m0) && ReadAs(c, m0, mi, lines0) && c.kernel == Unit(9, t)
    requires Shows(c, y, x, t) && Shows(c, y', x', t) && PixelIs(c, m0, y, x, 1)
    requires DueBefore(c, y, x) <= 0 && ShownAt(c, y, x, t) < DueBefore(c, y', x')
    requires Lands(c, ShownAt(c, y, x, t), y', x')
    ensures 0 <= ShownAt(c, y', x', t) < Total(c) && Outputs(c, mi, lines0)[ShownAt(c, y', x', t)] == 1
  {
    hide Outputs, S8, U32, Cell, Area, Total, Due, DueBefore, Unit, Store, ShownAt, Legal, Loaded;
    var ws := Outputs(c, mi, lines0);
    One();
    NothingDelivered(m0, c.dst, ws);
    assert Found(c, m0, ws, y, x) == 1;
    OutputShows(c, mi, lines0, y, x, t, 1);
    var o := ShownAt(c, y, x, t);
    assert Upto(ws, DueBefore(c, y', x'))[o] == ws[o];
    ReadBackAt(m0, c.dst, Upto(ws, DueBefore(c, y', x')), o);
    assert Found(c, m0, ws, y', x') == 1;
    OutputShows(c, mi, lines0, y', x', t, 1);
  }

  function Mark(y: int, x: int, y': int, x': int): Word {
    if y' == y && x' == x then 1 else 0
  }

  /** Pixel (y, x) is 1 and the others are 0. */
  ghost predicate OnlyPixel(c: Config, m0: Memory, y: int, x: int) {
    forall y', x' :: 0 <= y' < c.height && 0 <= x' < c.width ==> PixelIs(c, m0, y', x', Mark(y, x, y', x'))
  }

  lemma Indicator(c: Config, y: int, x: int) returns (m0: Memory)
    requires Legal(c) && 0 <= y < c.height && 0 <= x < c.width
    ensures Loaded(c, m0) && OnlyPixel(c, m0, y, x)
  {
    hide Cell, Total, Store, PixelIs, Area, Loaded;
    var z: seq<Word> := seq(Area(c), i => if i == Cell(y, x, c.width) then 1 else 0);
    m0 := Store(map[], c.src, z);
    LoadedThere(c, map[], z);
    forall y', x' | 0 <= y' < c.height && 0 <= x' < c.width
      ensures PixelIs(c, m0, y', x', Mark(y, x, y', x'))
    {
      PixelStored(c, map[], z, y', x');
      CellDecode(y, x, c.width);
      CellDecode(y', x', c.width);
    }
  }

  lemma ClashGoesWrong(c: Config, t: nat, y: int, x: int, y': int, x': int)
    requires Legal(c) && !c.stream && (y' != y || x' != x) && c.kernel == Unit(9, t)
    requires Shows(c, y, x, t) && Shows(c, y', x', t)
    requires DueBefore(c, y, x) <= 0 && ShownAt(c, y, x, t) < DueBefore(c, y', x')
    requires Lands(c, ShownAt(c, y, x, t), y', x')
    ensures !AlwaysRight(c)
  {
    hide Outputs, Run, Start, ReadyCycles, RunRight, Unit, U32, S8, Cell, Area, Total, Due, DueBefore, Lands,
         Latency, PixelIs, Found, Legal, Loaded, ShownAt;
    var m0 := Indicator(c, y, x);
    var r0 := Regs(Idle, false, false, 0, 0, 0, 0, 0, 0, 0, 0, 0, 0, false, seq(192, _ => 0));
    LatencyPositive(c);
    var schedule := Ready(Latency(c));
    ReadyAlways(|schedule|);
    var mi := AsRead(c, m0, r0.lines);
    assert PixelIs(c, m0, y, x, Mark(y, x, y, x)) && PixelIs(c, m0, y', x', Mark(y, x, y', x'));
    ReadsOutput(c, m0, mi, r0.lines, t, y, x, y', x');
    OutputShows(c, m0, r0.lines, y', x', t, 0);
    One();
    EndsWrong(c, r0, m0, mi, Request(0, false, 0), schedule, ShownAt(c, y', x', t));
    assert c.(kernel := c.kernel) == c;
  }

  lemma LatencyPositive(c: Config)
    requires Legal(c)
    ensures 0 <= Latency(c)
  {
    Sizes(c);
    CellBound(0, 0, Rows(c), LastCol(c) + 1);
    Monotone(0, Lag(c), c.width);
  }

  /** The kernel, and the pixel that output 0 shows with it, that make pixel (row, col) give output 0 away. */
  function GivenAway(c: Config, col: int): (nat, int, int) {
    if c.zeroPad then (4, 0, 0) else if col < 0 then (6, 2, 0) else if col < 2 then (6 + col, 2, col) else (8, 2, 2)
  }

  lemma FirstOutputLands(c: Config, row: int, col: int)
    requires Legal(c) && !c.stream && 0 <= row < c.height && 0 <= col < c.width
    requires Cell(row, col, c.width) > if c.zeroPad then c.width + 1 else 2 * c.width + 2
    requires Lands(c, 0, row, col) && c.kernel == Unit(9, GivenAway(c, col).0)
    ensures !AlwaysRight(c)
  {
    hide Area, Total, Lands, Unit, AlwaysRight;
    var (t, y, x) := GivenAway(c, col);
    ReadLate(c, row, col);
    ShowsFirst(c, row, col);
    ClashGoesWrong(c, t, y, x, row, col);
  }

  lemma ShowsFirst(c: Config, row: int, col: int)
    requires Legal(c) && 0 <= row < c.height && 0 <= col < c.width && Lag(c) <= row
    requires Cell(row, col, c.width) > if c.zeroPad then c.width + 1 else 2 * c.width + 2
    ensures var (t, y, x) := GivenAway(c, col);
            && Shows(c, y, x, t) && Shows(c, row, col, t) && (row != y || col != x)
            && DueBefore(c, y, x) <= 0 && ShownAt(c, y, x, t) == 0
  {
    hide Area, Total;
  }

  lemma LastOfFirstRowLands(c: Config)
    requires Legal(c) && !c.stream && c.zeroPad && c.height > 2 && c.kernel == Unit(9, 4)
    requires c.dst == c.src + 4 * (c.width + 1)
    ensures !AlwaysRight(c)
  {
    hide Area, Total, Unit, AlwaysRight;
    SecondRow(c);
    ClashGoesWrong(c, 4, 0, c.width - 1, 2, 0);
  }

  lemma KernelLegal(c: Config, kernel: Kernel)
    requires Legal(c)
    ensures Legal(c.(kernel := kernel))
  {
    hide Cell;
  }

  lemma KernelFree(c: Config, kernel: Kernel)
    requires AlwaysRight(c)
    ensures AlwaysRight(c.(kernel := kernel))
  {
    hide RunRight;
    var d := c.(kernel := kernel);
    forall k: Kernel, r0: Regs, m0: Memory, q0: Request, schedule: seq<Cycle>
      ensures RunRight(d.(kernel := k), r0, m0, q0, schedule)
    {
      assert d.(kernel := k) == c.(kernel := k);
      assert RunRight(c.(kernel := k), r0, m0, q0, schedule);
    }
  }

  /** The tap whose unit kernel gives the clash at pixel (row, col) away. */
  function ClashTap(c: Config, row: int, col: int): nat {
    if c.zeroPad then 4 else GivenAway(c, col).0
  }

  lemma PixelClash(c: Config, row: int, col: int)
    requires Legal(c) && !c.stream && 0 <= row < c.height && 0 <= col < c.width
    requires c.kernel == Unit(9, ClashTap(c, row, col))
    requires Slack(c) < Cell(row, col, c.width) && c.dst == c.src + 4 * Cell(row, col, c.width)
    ensures !AlwaysRight(c)
  {
    hide Area, Total, Due, Unit, AlwaysRight, Cell;
    if c.zeroPad && Cell(row, col, c.width) == c.width + 1 {
      LastOfFirstRowLands(c);
    } else {
      FirstOutputLands(c, row, col);
    }
  }

  lemma KernelSlack(c: Config, kernel: Kernel)
    ensures Slack(c.(kernel := kernel)) == Slack(c)
    ensures forall row, col :: ClashTap(c.(kernel := kernel), row, col) == ClashTap(c, row, col)
  {
  }

  /** A destination inside the image, past the slack: some run ends wrong. */
  lemma OverlapGoesWrong(c: Config)
    requires Legal(c) && !c.stream && c.src + 4 * Slack(c) < c.dst < c.src + 4 * Area(c)
    ensures !AlwaysRight(c)
  {
    hide Total, Slack, ClashTap, Unit, AlwaysRight, Cell, Area;
    var q := (c.dst - c.src) / 4;
    AreaIs(c);
    DivisionBound(q, c.height, c.width);
    Recompose(q, c.width);
    var row, col := q / c.width, q % c.width;
    if AlwaysRight(c) {
      var kernel: Kernel := Unit(9, ClashTap(c, row, col));
      KernelFree(c, kernel);
      KernelLegal(c, kernel);
      KernelSlack(c, kernel);
      PixelClash(c.(kernel := kernel), row, col);
    }
  }

  /** Every run over every image, kernel, line buffer and handshake ends right if and only if the destination starts
      within the slack or past the image. */
  lemma OverlapExactly(c: Config)
    requires Legal(c) && !c.stream
    ensures AlwaysRight(c) <==> c.dst <= c.src + 4 * Slack(c) || c.src + 4 * Area(c) <= c.dst
  {
    hide Outputs, Run, Start, Finished, Total, Cell, NoClobber;
    if c.dst <= c.src + 4 * Slack(c) || c.src + 4 * Area(c) <= c.dst {
      forall kernel: Kernel, r0: Regs, m0: Memory, q0: Request, schedule: seq<Cycle>
        ensures RunRight(c.(kernel := kernel), r0, m0, q0, schedule)
      {
        var d := c.(kernel := kernel);
        if Legal(d) && Loaded(d, m0) {
          WithinSlack(d);
          EveryRunConvolves(d, r0, m0, q0, schedule);
        }
      }
    } else {
      OverlapGoesWrong(c);
    }
  }

  // ---------------------------------------------------------------- the outputs are the convolution

  /** The image as the program sees it: one word per pixel, row-major. */
  function Image(c: Config, m0: Memory): (img: seq<Word>)
    requires Loaded(c, m0)
    ensures |img| == Area(c) == Cell(c.height, 0, c.width)
  {
    seq(Area(c), i requires 0 <= i < Area(c) => m0[c.src + 4 * i])
  }

  /** The nine pixels under the kernel for output (r, k): without padding, and with zero padding. */
  function ValidTaps(img: seq<Word>, h: nat, w: nat, r: nat, k: nat): (taps: seq<Int8>)
    requires |img| == Cell(h, 0, w) && r + 2 < h && k + 2 < w
    ensures |taps| == 9
  {
    seq(9, t requires 0 <= t < 9 =>
      CellBound(r + t / 3, k + t % 3, h, w);
      S8(img[Cell(r + t / 3, k + t % 3, w)]))
  }

  function SameTaps(img: seq<Word>, h: nat, w: nat, r: nat, k: nat): (taps: seq<Int8>)
    requires |img| == Cell(h, 0, w)
    ensures |taps| == 9
  {
    seq(9, t requires 0 <= t < 9 =>
      var ri, ki := r - 1 + t / 3, k - 1 + t % 3;
      if 0 <= ri < h && 0 <= ki < w then
        CellBound(ri, ki, h, w);
        S8(img[Cell(ri, ki, w)])
      else 0)
  }

  lemma ImageAt(c: Config, m0: Memory, lines0: Lines, y: int, x: int)
    requires Legal(c) && Loaded(c, m0) && 0 <= y < c.height && 0 <= x < c.width
    ensures 0 <= Cell(y, x, c.width) < Area(c)
    ensures S8(Image(c, m0)[Cell(y, x, c.width)]) == Seen(c, m0, lines0, y, x)
  {
    hide S8, Cell, Total;
    CellBound(y, x, c.height, c.width);
    assert Image(c, m0)[Cell(y, x, c.width)] == m0[c.src + 4 * Cell(y, x, c.width)];
  }

  lemma ValidTapIs(c: Config, m0: Memory, lines0: Lines, r: nat, k: nat, t: nat)
    requires Legal(c) && !c.zeroPad && Loaded(c, m0) && r + 2 < c.height && k + 2 < c.width && t < 9
    ensures Tap(c, m0, lines0, r + 2, k + 2, t) == ValidTaps(Image(c, m0), c.height, c.width, r, k)[t]
  {
    hide Cell, Total, Seen, S8, Loaded, Area;
    ImageAt(c, m0, lines0, r + t / 3, k + t % 3);
  }

  /** Valid mode is the plain 2D convolution, whatever the line buffer held before. */
  lemma ValidModeConvolves(c: Config, m0: Memory, lines0: Lines, r: nat, k: nat)
    requires Legal(c) && !c.zeroPad && Loaded(c, m0) && r + 2 < c.height && k + 2 < c.width
    ensures 0 <= Cell(r, k, c.width - 2) < Total(c)
    ensures Outputs(c, m0, lines0)[Cell(r, k, c.width - 2)]
         == U32(Pe(ValidTaps(Image(c, m0), c.height, c.width, r, k), c.kernel))
  {
    hide Pe, U32, Cell, Total, Tap, S8, Outputs, Loaded, ValidTaps, Area;
    OutputAt(c, m0, lines0, r + 2, k + 2);
    var taps, ref := Taps(c, m0, lines0, r + 2, k + 2), ValidTaps(Image(c, m0), c.height, c.width, r, k);
    forall t: nat | t < 9 ensures taps[t] == ref[t] {
      ValidTapIs(c, m0, lines0, r, k, t);
    }
    assert taps == ref;
  }

  /** What the engine sees in the places where zero padding belongs: row -1, and the column past the image,
      which for a 64-wide image is column 0. */
  predicate PaddingIsZero(c: Config, m0: Memory, lines0: Lines)
    requires Loaded(c, m0)
  {
    forall y, x :: -1 <= y < c.height && 0 <= x <= c.width && (y == -1 || x == c.width) ==>
      Seen(c, m0, lines0, y, x % 64) == 0
  }

  lemma SameTapIs(c: Config, m0: Memory, lines0: Lines, r: nat, k: nat, t: nat)
    requires Legal(c) && c.zeroPad && Loaded(c, m0) && r < c.height && k < c.width && t < 9
    ensures var y, x := r - 1 + t / 3, k - 1 + t % 3;
      if 0 <= y < c.height && 0 <= x < c.width then
        Tap(c, m0, lines0, r + 1, k + 1, t) == SameTaps(Image(c, m0), c.height, c.width, r, k)[t]
      else
        && SameTaps(Image(c, m0), c.height, c.width, r, k)[t] == 0
        && Tap(c, m0, lines0, r + 1, k + 1, t) == if c.height <= y || x < 0 then 0 else Seen(c, m0, lines0, y, x % 64)
  {
    hide Cell, Total, Seen, S8, Loaded, Area;
    var y, x := r - 1 + t / 3, k - 1 + t % 3;
    if 0 <= y < c.height && 0 <= x < c.width {
      ImageAt(c, m0, lines0, y, x);
    }
  }

  /** Output (r, k) is the zero-padded convolution. */
  predicate SameRight(c: Config, m0: Memory, lines0: Lines, r: nat, k: nat)
    requires Legal(c) && c.zeroPad && Loaded(c, m0) && r < c.height && k < c.width
  {
    CellBound(r, k, c.height, c.width);
    Outputs(c, m0, lines0)[Cell(r, k, c.width)] == U32(Pe(SameTaps(Image(c, m0), c.height, c.width, r, k), c.kernel))
  }

  /** Same mode is the zero-padded convolution if zeros are what the engine sees where padding belongs. */
  lemma SameModeConvolves(c: Config, m0: Memory, lines0: Lines, r: nat, k: nat)
    requires Legal(c) && c.zeroPad && Loaded(c, m0) && r < c.height && k < c.width && PaddingIsZero(c, m0, lines0)
    ensures SameRight(c, m0, lines0, r, k)
  {
    hide Pe, U32, Cell, Total, Tap, S8, Outputs, Loaded, SameTaps, Area, Seen;
    OutputAt(c, m0, lines0, r + 1, k + 1);
    var taps, ref := Taps(c, m0, lines0, r + 1, k + 1), SameTaps(Image(c, m0), c.height, c.width, r, k);
    forall t: nat | t < 9 ensures taps[t] == ref[t] {
      SameTapIs(c, m0, lines0, r, k, t);
    }
    assert taps == ref;
  }

  /** A nonzero value where padding belongs shows in some output of some kernel. */
  lemma PaddingShows(c: Config, m0: Memory, lines0: Lines, y: int, x: int) returns (kernel: Kernel, r: nat, k: nat)
    requires Legal(c) && c.zeroPad && Loaded(c, m0)
    requires -1 <= y < c.height && 0 <= x <= c.width && (y == -1 || x == c.width)
    requires Seen(c, m0, lines0, y, x % 64) != 0
    ensures r < c.height && k < c.width && !SameRight(c.(kernel := kernel), m0, lines0, r, k)
  {
    hide Pe, U32, Cell, Total, Tap, S8, Outputs, Loaded, SameTaps, Area, Seen;
    r := if y == -1 then 0 else y;
    k := if x == c.width then x - 1 else x;
    var t := 3 * (y - r + 1) + (x - k + 1);
    kernel := Unit(9, t);
    var c' := c.(kernel := kernel);
    SameSeen(c, kernel, m0, lines0, y, x % 64);
    OutputAt(c', m0, lines0, r + 1, k + 1);
    SameTapIs(c', m0, lines0, r, k, t);
    var taps, ref := Taps(c', m0, lines0, r + 1, k + 1), SameTaps(Image(c', m0), c.height, c.width, r, k);
    PeUnit(taps, t);
    PeUnit(ref, t);
    U32Injective(taps[t], 0);
  }

  lemma SameSeen(c: Config, kernel: Kernel, m0: Memory, lines0: Lines, y: int, x: int)
    requires Loaded(c, m0) && y < c.height && 0 <= x < 64
    ensures Loaded(c.(kernel := kernel), m0) && (Legal(c) ==> Legal(c.(kernel := kernel)))
    ensures Seen(c.(kernel := kernel), m0, lines0, y, x) == Seen(c, m0, lines0, y, x)
  {
  }

  lemma SamePadding(c: Config, kernel: Kernel, m0: Memory, lines0: Lines)
    requires Legal(c) && Loaded(c, m0)
    ensures Legal(c.(kernel := kernel)) && Loaded(c.(kernel := kernel), m0)
    ensures PaddingIsZero(c, m0, lines0) ==> PaddingIsZero(c.(kernel := kernel), m0, lines0)
  {
    hide Seen, Loaded, Area, Total, Legal;
    SameSeen(c, kernel, m0, lines0, -1, 0);
    forall y, x | -1 <= y < c.height && 0 <= x < 64
      ensures Seen(c.(kernel := kernel), m0, lines0, y, x) == Seen(c, m0, lines0, y, x)
    {
      SameSeen(c, kernel, m0, lines0, y, x);
    }
  }

  /** Every width up to 64: same mode meets the reference for every kernel exactly when the engine sees zeros
      where padding belongs. */
  lemma SameModeExactly(c: Config, m0: Memory, lines0: Lines)
    requires Legal(c) && c.zeroPad && Loaded(c, m0)
    ensures PaddingIsZero(c, m0, lines0) <==>
      forall kernel: Kernel, r: nat, k: nat | r < c.height && k < c.width ::
        SameRight(c.(kernel := kernel), m0, lines0, r, k)
  {
    hide SameRight, Seen, Loaded, Area, Total, Legal;
    forall kernel: Kernel
      ensures Legal(c.(kernel := kernel)) && Loaded(c.(kernel := kernel), m0)
      ensures PaddingIsZero(c, m0, lines0) ==> PaddingIsZero(c.(kernel := kernel), m0, lines0)
    {
      SamePadding(c, kernel, m0, lines0);
    }
    if PaddingIsZero(c, m0, lines0) {
      forall kernel: Kernel, r: nat, k: nat | r < c.height && k < c.width
        ensures SameRight(c.(kernel := kernel), m0, lines0, r, k)
      {
        SameModeConvolves(c.(kernel := kernel), m0, lines0, r, k);
      }
    } else {
      var y, x :| -1 <= y < c.height && 0 <= x <= c.width && (y == -1 || x == c.width)
                  && Seen(c, m0, lines0, y, x % 64) != 0;
      var kernel, r, k := PaddingShows(c, m0, lines0, y, x);
    }
  }

  /** After SOFT_RESET: zero padding up to 63 columns; at 64 columns the right padding is the first column
      of the image, so it is right exactly when that column is zero. */
  lemma AfterReset(c: Config, m0: Memory, lines0: Lines)
    requires Legal(c) && c.zeroPad && Loaded(c, m0) && forall p :: 0 <= p < 192 ==> lines0[p] == 0
    ensures c.width <= 63 ==> PaddingIsZero(c, m0, lines0)
    ensures c.width == 64 ==>
      (PaddingIsZero(c, m0, lines0) <==> forall y :: 0 <= y < c.height ==> Seen(c, m0, lines0, y, 0) == 0)
  {
    hide Cell, S8, Area, Total, Loaded;
    if c.width == 64 && PaddingIsZero(c, m0, lines0) {
      forall y | 0 <= y < c.height ensures Seen(c, m0, lines0, y, 0) == 0 {
        assert Seen(c, m0, lines0, y, c.width % 64) == 0;
      }
    }
  }

  // ---------------------------------------------------------------- the program's reference loops

  function ValidAt(img: seq<Word>, h: nat, w: nat, kernel: Kernel, o: nat): int
    requires 3 <= h && 3 <= w && |img| == Cell(h, 0, w) && o < Cell(h - 2, 0, w - 2)
  {
    DivisionBound(o, h - 2, w - 2);
    Pe(ValidTaps(img, h, w, o / (w - 2), o % (w - 2)), kernel)
  }

  function SameAt(img: seq<Word>, h: nat, w: nat, kernel: Kernel, o: nat): int
    requires 0 < w && |img| == Cell(h, 0, w)
  {
    Pe(SameTaps(img, h, w, o / w, o % w), kernel)
  }

  method RefValid(img: seq<Word>, h: nat, w: nat, kernel: Kernel, out: array<int>)
    requires 3 <= h && 3 <= w && |img| == Cell(h, 0, w) && out.Length == Cell(h - 2, 0, w - 2)
    modifies out
    ensures forall o :: 0 <= o < out.Length ==> out[o] == ValidAt(img, h, w, kernel, o)
  {
    hide Cell, ValidAt, ValidTaps, Pe, S8;
    CellNext(0, 0, w - 2);
    for r := 0 to h - 2
      invariant Cell(r, 0, w - 2) <= out.Length
      invariant forall o :: 0 <= o < Cell(r, 0, w - 2) ==> out[o] == ValidAt(img, h, w, kernel, o)
    {
      for k := 0 to w - 2
        invariant Cell(r, k, w - 2) <= out.Length
        invariant forall o :: 0 <= o < Cell(r, k, w - 2) ==> out[o] == ValidAt(img, h, w, kernel, o)
      {
        var acc := ValidPixel(img, h, w, kernel, r, k);
        CellBound(r, k, h - 2, w - 2);
        CellNext(r, k, w - 2);
        ValidHere(img, h, w, kernel, r, k);
        out[Cell(r, k, w - 2)] := acc;
      }
      CellNext(r, w - 3, w - 2);
    }
  }

  lemma ValidHere(img: seq<Word>, h: nat, w: nat, kernel: Kernel, r: nat, k: nat)
    requires r + 2 < h && k + 2 < w && |img| == Cell(h, 0, w)
    ensures 0 <= Cell(r, k, w - 2) < Cell(h - 2, 0, w - 2)
    ensures ValidAt(img, h, w, kernel, Cell(r, k, w - 2)) == Pe(ValidTaps(img, h, w, r, k), kernel)
  {
    hide Cell, Pe, ValidTaps;
    CellBound(r, k, h - 2, w - 2);
    CellDecode(r, k, w - 2);
  }

  lemma ValidTapAt(img: seq<Word>, h: nat, w: nat, r: nat, k: nat, i: nat, j: nat)
    requires r + 2 < h && k + 2 < w && |img| == Cell(h, 0, w) && i < 3 && j < 3
    ensures 0 <= Cell(r + i, k + j, w) < |img|
    ensures ValidTaps(img, h, w, r, k)[3 * i + j] == S8(img[Cell(r + i, k + j, w)])
  {
    hide Cell, S8;
    CellBound(r + i, k + j, h, w);
  }

  method ValidPixel(img: seq<Word>, h: nat, w: nat, kernel: Kernel, r: nat, k: nat) returns (acc: int)
    requires r + 2 < h && k + 2 < w && |img| == Cell(h, 0, w)
    ensures acc == Pe(ValidTaps(img, h, w, r, k), kernel)
  {
    hide Cell, S8, Product, ValidTaps;
    ghost var taps := ValidTaps(img, h, w, r, k);
    acc := 0;
    for i := 0 to 3
      invariant acc == Dot(taps, kernel, 3 * i)
    {
      for j := 0 to 3
        invariant acc == Dot(taps, kernel, 3 * i + j)
      {
        ValidTapAt(img, h, w, r, k, i, j);
        acc := acc + Product(S8(img[Cell(r + i, k + j, w)]), kernel[3 * i + j]);
      }
    }
  }

  method RefSame(img: seq<Word>, h: nat, w: nat, kernel: Kernel, out: array<int>)
    requires 0 < w && |img| == Cell(h, 0, w) && out.Length == Cell(h, 0, w)
    modifies out
    ensures forall o :: 0 <= o < out.Length ==> out[o] == SameAt(img, h, w, kernel, o)
  {
    hide Cell, SameTaps, Pe, S8;
    CellNext(0, 0, w);
    for r := 0 to h
      invariant Cell(r, 0, w) <= out.Length
      invariant forall o :: 0 <= o < Cell(r, 0, w) ==> out[o] == SameAt(img, h, w, kernel, o)
    {
      for k := 0 to w
        invariant Cell(r, k, w) <= out.Length
        invariant forall o :: 0 <= o < Cell(r, k, w) ==> out[o] == SameAt(img, h, w, kernel, o)
      {
        var acc := SamePixel(img, h, w, kernel, r, k);
        CellBound(r, k, h, w);
        CellNext(r, k, w);
        CellDecode(r, k, w);
        out[Cell(r, k, w)] := acc;
      }
      CellNext(r, w - 1, w);
    }
  }

  lemma SameTapAt(img: seq<Word>, h: nat, w: nat, r: nat, k: nat, i: nat, j: nat)
    requires |img| == Cell(h, 0, w) && i < 3 && j < 3
    ensures var y, x := r - 1 + i, k - 1 + j;
      if 0 <= y < h && 0 <= x < w then
        0 <= Cell(y, x, w) < |img| && SameTaps(img, h, w, r, k)[3 * i + j] == S8(img[Cell(y, x, w)])
      else SameTaps(img, h, w, r, k)[3 * i + j] == 0
  {
    hide Cell, S8;
    if 0 <= r - 1 + i < h && 0 <= k - 1 + j < w {
      CellBound(r - 1 + i, k - 1 + j, h, w);
    }
  }

  method SamePixel(img: seq<Word>, h: nat, w: nat, kernel: Kernel, r: nat, k: nat) returns (acc: int)
    requires r < h && k < w && |img| == Cell(h, 0, w)
    ensures acc == Pe(SameTaps(img, h, w, r, k), kernel)
  {
    hide Cell, S8, Product, SameTaps;
    ghost var taps := SameTaps(img, h, w, r, k);
    acc := 0;
    for i := 0 to 3
      invariant acc == Dot(taps, kernel, 3 * i)
    {
      for j := 0 to 3
        invariant acc == Dot(taps, kernel, 3 * i + j)
      {
        SameTapAt(img, h, w, r, k, i, j);
        var ri, ci := r - 1 + i, k - 1 + j;
        var px := 0;
        if ri >= 0 && ri < h && ci >= 0 && ci < w {
          px := S8(img[Cell(ri, ci, w)]);
        }
        acc := acc + Product(px, kernel[3 * i + j]);
      }
    }
  }
}
