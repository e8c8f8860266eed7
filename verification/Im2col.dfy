/** The GEMM test's references: im2col, the triple-loop product, and why one after the other is a convolution. */
module Im2col {
  import opened Words
  import Conv2d
  import Gemm

  /** Number of places a kernel of size k fits along a length of n. */
  function Places(n: nat, k: nat): nat {
    if k <= n then n - k + 1 else 0
  }

  /** The sizes of an image, a kernel and the matrix of windows. */
  datatype Shape = Shape(h: nat, w: nat, kh: nat, kw: nat)

  predicate Proper(s: Shape) {
    s.kh > 0 && s.kw > 0
  }

  function OutW(s: Shape): nat {
    Places(s.w, s.kw)
  }

  function Windows(s: Shape): int {
    Cell(Places(s.h, s.kh), 0, OutW(s))
  }

  function Depth(s: Shape): int {
    Cell(s.kh, 0, s.kw)
  }

  // ---------------------------------------------------------------- the specifications

  /** A pixel of the window at (r, k): kernel row i, kernel column j. */
  function PixelAt(s: Shape, img: seq<Int8>, r: nat, k: nat, i: nat, j: nat): Int8
    requires |img| == Cell(s.h, 0, s.w) && r + i < s.h && k + j < s.w
  {
    CellBound(r + i, k + j, s.h, s.w);
    img[Cell(r + i, k + j, s.w)]
  }

  predicate Place(s: Shape, r: nat, k: nat) {
    Proper(s) && r + s.kh <= s.h && k + s.kw <= s.w
  }

  /** The window at (r, k), row by row. */
  function Patch(s: Shape, img: seq<Int8>, r: nat, k: nat): (p: seq<Int8>)
    requires |img| == Cell(s.h, 0, s.w) && Place(s, r, k)
    ensures |p| == Depth(s)
  {
    Monotone(0, s.kh, s.kw);
    seq<Int8>(Depth(s), t requires 0 <= t < Depth(s) =>
      DivisionBound(t, s.kh, s.kw);
      PixelAt(s, img, r, k, t / s.kw, t % s.kw))
  }

  /** The direct convolution at (r, k): sums over kernel rows and columns, nested. */
  function RowPart(s: Shape, img: seq<Int8>, kernel: seq<Int8>, r: nat, k: nat, i: nat, n: nat): int
    requires |img| == Cell(s.h, 0, s.w) && |kernel| == Depth(s) && Place(s, r, k) && i < s.kh && n <= s.kw
  {
    if n == 0 then 0
    else
      CellBound(i, n - 1, s.kh, s.kw);
      RowPart(s, img, kernel, r, k, i, n - 1)
      + Product(PixelAt(s, img, r, k, i, n - 1), kernel[Cell(i, n - 1, s.kw)])
  }

  function Convolution(s: Shape, img: seq<Int8>, kernel: seq<Int8>, r: nat, k: nat, n: nat): int
    requires |img| == Cell(s.h, 0, s.w) && |kernel| == Depth(s) && Place(s, r, k) && n <= s.kh
  {
    if n == 0 then 0
    else Convolution(s, img, kernel, r, k, n - 1) + RowPart(s, img, kernel, r, k, n - 1, s.kw)
  }

  /** Row m of a matrix with `cols` columns, and column n of one with `rows` rows. */
  function MatrixRow(a: seq<Int8>, rows: nat, cols: nat, m: nat): (v: seq<Int8>)
    requires |a| == Cell(rows, 0, cols) && m < rows
    ensures |v| == cols
  {
    seq<Int8>(cols, k requires 0 <= k < cols =>
      CellBound(m, k, rows, cols);
      a[Cell(m, k, cols)])
  }

  function MatrixColumn(b: seq<Int8>, rows: nat, cols: nat, n: nat): (v: seq<Int8>)
    requires |b| == Cell(rows, 0, cols) && n < cols
    ensures |v| == rows
  {
    seq<Int8>(rows, k requires 0 <= k < rows =>
      CellBound(k, n, rows, cols);
      b[Cell(k, n, cols)])
  }

  /** Element (m, n) of the product of an M x K and a K x N matrix. */
  function ProductAt(a: seq<Int8>, b: seq<Int8>, mm: nat, kk: nat, nn: nat, m: nat, n: nat): int
    requires |a| == Cell(mm, 0, kk) && |b| == Cell(kk, 0, nn) && m < mm && n < nn
  {
    Dot(MatrixRow(a, mm, kk, m), MatrixColumn(b, kk, nn, n), kk)
  }

  /** The int32 accumulator cannot overflow while K is below 2^17. */
  lemma AccumulatorFits(a: seq<Int8>, b: seq<Int8>, mm: nat, kk: nat, nn: nat, m: nat, n: nat)
    requires |a| == Cell(mm, 0, kk) && |b| == Cell(kk, 0, nn) && m < mm && n < nn
    requires kk < 0x2_0000
    ensures -0x8000_0000 <= ProductAt(a, b, mm, kk, nn, m, n) < 0x8000_0000
  {
    hide Cell;
    DotBound(MatrixRow(a, mm, kk, m), MatrixColumn(b, kk, nn, n), kk);
  }

  // ---------------------------------------------------------------- flattening

  lemma PatchAt(s: Shape, img: seq<Int8>, r: nat, k: nat, i: nat, j: nat)
    requires |img| == Cell(s.h, 0, s.w) && Place(s, r, k) && i < s.kh && j < s.kw
    ensures 0 <= Cell(i, j, s.kw) < Depth(s)
    ensures Patch(s, img, r, k)[Cell(i, j, s.kw)] == PixelAt(s, img, r, k, i, j)
  {
    hide Cell, PixelAt;
    CellBound(i, j, s.kh, s.kw);
    CellDecode(i, j, s.kw);
  }

  lemma {:induction false} FlatRow(s: Shape, img: seq<Int8>, kernel: seq<Int8>, r: nat, k: nat, i: nat, n: nat)
    requires |img| == Cell(s.h, 0, s.w) && |kernel| == Depth(s) && Place(s, r, k) && i < s.kh && n <= s.kw
    ensures 0 <= Cell(i, 0, s.kw) <= Cell(i, n, s.kw) <= Depth(s)
    ensures Dot(Patch(s, img, r, k), kernel, Cell(i, n, s.kw)) ==
            Dot(Patch(s, img, r, k), kernel, Cell(i, 0, s.kw)) + RowPart(s, img, kernel, r, k, i, n)
  {
    hide Cell, Patch, PixelAt, Product;
    CellBound(i, 0, s.kh, s.kw);
    if n > 0 {
      FlatRow(s, img, kernel, r, k, i, n - 1);
      PatchAt(s, img, r, k, i, n - 1);
      CellNext(i, n - 1, s.kw);
    }
  }

  /** The flat dot product of a window with the flattened kernel is the nested double sum. */
  lemma {:induction false} FlatSum(s: Shape, img: seq<Int8>, kernel: seq<Int8>, r: nat, k: nat, n: nat)
    requires |img| == Cell(s.h, 0, s.w) && |kernel| == Depth(s) && Place(s, r, k) && n <= s.kh
    ensures 0 <= Cell(n, 0, s.kw) <= Depth(s)
    ensures Dot(Patch(s, img, r, k), kernel, Cell(n, 0, s.kw)) == Convolution(s, img, kernel, r, k, n)
  {
    hide Cell, Patch, RowPart;
    CellNext(0, 0, s.kw);
    if n > 0 {
      FlatSum(s, img, kernel, r, k, n - 1);
      FlatRow(s, img, kernel, r, k, n - 1, s.kw);
      CellNext(n - 1, s.kw - 1, s.kw);
    }
  }

  // ---------------------------------------------------------------- the matrix of windows

  /** `col` is the matrix of windows: row Cell(r, k) is the window at (r, k). */
  ghost predicate IsWindows(s: Shape, img: seq<Int8>, col: seq<Int8>)
    requires |img| == Cell(s.h, 0, s.w) && Proper(s)
  {
    && |col| == Cell(Windows(s), 0, Depth(s))
    && forall o :: 0 <= o < |col| ==> col[o] == WindowAt(s, img, o)
  }

  /** Element o of the matrix of windows, in row-major order. */
  function WindowAt(s: Shape, img: seq<Int8>, o: nat): Int8
    requires |img| == Cell(s.h, 0, s.w) && Proper(s) && o < Cell(Windows(s), 0, Depth(s))
  {
    var r, k, t := RowNo(s, o), ColumnNo(s, o), o % Depth(s);
    OnImage(s, o);
    Patch(s, img, r, k)[t]
  }

  /** The window, and its place, that element o belongs to. */
  function RowNo(s: Shape, o: nat): int {
    if Depth(s) > 0 && OutW(s) > 0 then o / Depth(s) / OutW(s) else 0
  }

  function ColumnNo(s: Shape, o: nat): int {
    if Depth(s) > 0 && OutW(s) > 0 then (o / Depth(s)) % OutW(s) else 0
  }

  lemma DepthPositive(s: Shape)
    requires Proper(s)
    ensures Depth(s) > 0
  {
    CellBound(0, 0, s.kh, s.kw);
  }

  lemma OnImage(s: Shape, o: nat)
    requires Proper(s) && o < Cell(Windows(s), 0, Depth(s))
    ensures Depth(s) > 0 && RowNo(s, o) >= 0 && ColumnNo(s, o) >= 0 && Place(s, RowNo(s, o), ColumnNo(s, o))
  {
    hide Cell;
    DepthPositive(s);
    DivisionBound(o, Windows(s), Depth(s));
    SomeWindow(s);
    DivisionBound(o / Depth(s), Places(s.h, s.kh), OutW(s));
  }

  lemma SomeWindow(s: Shape)
    requires Windows(s) > 0
    ensures OutW(s) > 0
  {
  }

  /** The element at window (r, k), kernel position (i, j). */
  lemma WindowIs(s: Shape, img: seq<Int8>, r: nat, k: nat, i: nat, j: nat)
    requires |img| == Cell(s.h, 0, s.w) && Place(s, r, k) && i < s.kh && j < s.kw
    ensures var o := Cell(Cell(r, k, OutW(s)), Cell(i, j, s.kw), Depth(s));
            && 0 <= o < Cell(Windows(s), 0, Depth(s))
            && WindowAt(s, img, o) == PixelAt(s, img, r, k, i, j)
  {
    hide Cell, Patch, PixelAt;
    var p, t := Cell(r, k, OutW(s)), Cell(i, j, s.kw);
    CellBound(r, k, Places(s.h, s.kh), OutW(s));
    PatchAt(s, img, r, k, i, j);
    CellBound(p, t, Windows(s), Depth(s));
    CellDecode(p, t, Depth(s));
    CellDecode(r, k, OutW(s));
  }

  /** Row Cell(r, k) of the matrix of windows is the window at (r, k). */
  lemma RowIsPatch(s: Shape, img: seq<Int8>, col: seq<Int8>, r: nat, k: nat)
    requires |img| == Cell(s.h, 0, s.w) && Place(s, r, k) && IsWindows(s, img, col)
    ensures 0 <= Cell(r, k, OutW(s)) < Windows(s) && 0 <= Depth(s)
    ensures MatrixRow(col, Windows(s), Depth(s), Cell(r, k, OutW(s))) == Patch(s, img, r, k)
  {
    hide Cell, Patch, PixelAt, WindowAt;
    CellBound(r, k, Places(s.h, s.kh), OutW(s));
    DepthPositive(s);
    var row := MatrixRow(col, Windows(s), Depth(s), Cell(r, k, OutW(s)));
    forall t: nat | t < Depth(s)
      ensures row[t] == Patch(s, img, r, k)[t]
    {
      DivisionBound(t, s.kh, s.kw);
      Recompose(t, s.kw);
      WindowIs(s, img, r, k, t / s.kw, t % s.kw);
      PatchAt(s, img, r, k, t / s.kw, t % s.kw);
    }
  }

  /** im2col followed by the matrix product is the direct valid-mode convolution, for every image size, kernel size and
      number of kernels: column n of B is kernel n, flattened row by row. */
  lemma ProductIsConvolution(s: Shape, img: seq<Int8>, col: seq<Int8>, b: seq<Int8>, nn: nat, r: nat, k: nat, n: nat)
    requires |img| == Cell(s.h, 0, s.w) && Place(s, r, k) && IsWindows(s, img, col)
    requires 0 <= Depth(s) && |b| == Cell(Depth(s), 0, nn) && n < nn
    ensures 0 <= Cell(r, k, OutW(s)) < Windows(s)
    ensures ProductAt(col, b, Windows(s), Depth(s), nn, Cell(r, k, OutW(s)), n) ==
            Convolution(s, img, MatrixColumn(b, Depth(s), nn, n), r, k, s.kh)
  {
    hide Cell, Patch, IsWindows, MatrixRow, MatrixColumn, Convolution;
    RowIsPatch(s, img, col, r, k);
    FlatSum(s, img, MatrixColumn(b, Depth(s), nn, n), r, k, s.kh);
  }

  // ---------------------------------------------------------------- the loops

  /** Where element (i, j) of window (r, k) goes. */
  function Position(s: Shape, r: nat, k: nat, i: nat, j: nat): int {
    Cell(Cell(r, k, OutW(s)), Cell(i, j, s.kw), Depth(s))
  }

  /** The loops visit the positions one after another. */
  lemma PositionNext(s: Shape, r: nat, k: nat, i: nat, j: nat)
    ensures Position(s, r, k, i, j + 1) == Position(s, r, k, i, j) + 1
    ensures Position(s, r, k, i + 1, 0) == Position(s, r, k, i, s.kw)
    ensures Position(s, r, k + 1, 0, 0) == Position(s, r, k, s.kh, 0)
    ensures Position(s, r + 1, 0, 0, 0) == Position(s, r, OutW(s), 0, 0)
    ensures Position(s, 0, 0, 0, 0) == 0
    ensures Position(s, Places(s.h, s.kh), 0, 0, 0) == Cell(Windows(s), 0, Depth(s))
  {
    CellNext(r, k, OutW(s));
    CellNext(i, j, s.kw);
    CellNext(i, s.kw - 1, s.kw);
    CellNext(r, OutW(s) - 1, OutW(s));
    CellNext(Cell(r, k, OutW(s)), Depth(s) - 1, Depth(s));
    CellNext(0, 0, s.kw);
    CellNext(0, 0, OutW(s));
    CellNext(0, 0, Depth(s));
  }

  method Im2col(s: Shape, img: seq<Int8>, col: array<Int8>)
    requires |img| == Cell(s.h, 0, s.w) && Proper(s) && col.Length == Cell(Windows(s), 0, Depth(s))
    modifies col
    ensures IsWindows(s, img, col[..])
  {
    hide Cell, WindowAt, PixelAt, Position, Windows, Depth;
    PositionNext(s, 0, 0, 0, 0);
    for r := 0 to Places(s.h, s.kh)
      invariant forall o :: 0 <= o < Position(s, r, 0, 0, 0) && o < col.Length ==> col[o] == WindowAt(s, img, o)
    {
      for k := 0 to OutW(s)
        invariant forall o :: 0 <= o < Position(s, r, k, 0, 0) && o < col.Length ==> col[o] == WindowAt(s, img, o)
      {
        for i := 0 to s.kh
          invariant forall o :: 0 <= o < Position(s, r, k, i, 0) && o < col.Length ==> col[o] == WindowAt(s, img, o)
        {
          for j := 0 to s.kw
            invariant forall o :: 0 <= o < Position(s, r, k, i, j) && o < col.Length ==> col[o] == WindowAt(s, img, o)
          {
            WindowHere(s, img, r, k, i, j);
            PositionNext(s, r, k, i, j);
            col[Position(s, r, k, i, j)] := PixelAt(s, img, r, k, i, j);
          }
          PositionNext(s, r, k, i, 0);
        }
        PositionNext(s, r, k, 0, 0);
      }
      PositionNext(s, r, 0, 0, 0);
    }
  }

  lemma WindowHere(s: Shape, img: seq<Int8>, r: nat, k: nat, i: nat, j: nat)
    requires |img| == Cell(s.h, 0, s.w) && Proper(s)
    requires r < Places(s.h, s.kh) && k < OutW(s) && i < s.kh && j < s.kw
    ensures Place(s, r, k) && 0 <= Position(s, r, k, i, j) < Cell(Windows(s), 0, Depth(s))
    ensures WindowAt(s, img, Position(s, r, k, i, j)) == PixelAt(s, img, r, k, i, j)
  {
    hide Cell, WindowAt, PixelAt;
    WindowIs(s, img, r, k, i, j);
  }

  /** ref_gemm: three loops leave the matrix product, as a 32-bit accumulator holds it. */
  method RefGemm(a: seq<Int8>, b: seq<Int8>, c: array<int>, mm: nat, kk: nat, nn: nat)
    requires |a| == Cell(mm, 0, kk) && |b| == Cell(kk, 0, nn) && c.Length == Cell(mm, 0, nn)
    modifies c
    ensures forall m: nat, n: nat :: m < mm && n < nn ==>
              0 <= Cell(m, n, nn) < c.Length && c[Cell(m, n, nn)] == S32(ProductAt(a, b, mm, kk, nn, m, n))
  {
    hide Cell, ProductAt, S32;
    for m := 0 to mm
      invariant forall y: nat, n: nat :: y < m && n < nn ==>
        0 <= Cell(y, n, nn) < c.Length && c[Cell(y, n, nn)] == S32(ProductAt(a, b, mm, kk, nn, y, n))
    {
      for n := 0 to nn
        invariant forall y: nat, x: nat :: (y < m && x < nn) || (y == m && x < n) ==>
          0 <= Cell(y, x, nn) < c.Length && c[Cell(y, x, nn)] == S32(ProductAt(a, b, mm, kk, nn, y, x))
      {
        var acc := Element(a, b, mm, kk, nn, m, n);
        CellBound(m, n, mm, nn);
        forall y: nat, x: nat | y < mm && x < nn && (y != m || x != n)
          ensures Cell(y, x, nn) != Cell(m, n, nn)
        {
          CellDecode(y, x, nn);
          CellDecode(m, n, nn);
        }
        c[Cell(m, n, nn)] := acc;
      }
    }
  }

  method Element(a: seq<Int8>, b: seq<Int8>, mm: nat, kk: nat, nn: nat, m: nat, n: nat) returns (acc: int)
    requires |a| == Cell(mm, 0, kk) && |b| == Cell(kk, 0, nn) && m < mm && n < nn
    ensures acc == S32(ProductAt(a, b, mm, kk, nn, m, n))
  {
    hide Cell, Product, S32;
    ZeroFits();
    acc := 0;
    ghost var row, column := MatrixRow(a, mm, kk, m), MatrixColumn(b, kk, nn, n);
    for k := 0 to kk
      invariant acc == S32(Dot(row, column, k))
    {
      CellBound(m, k, mm, kk);
      CellBound(k, n, kk, nn);
      assert row[k] == a[Cell(m, k, kk)] && column[k] == b[Cell(k, n, nn)];
      AddFits(Dot(row, column, k), Product(row[k], column[k]));
      acc := S32(acc + Product(a[Cell(m, k, kk)], b[Cell(k, n, nn)]));
    }
  }

  lemma ZeroFits()
    ensures S32(0) == 0
  {
  }

  /** The register may wrap at every addition: what it holds is the wrapped sum. */
  lemma AddFits(x: int, y: int)
    ensures S32(S32(x) + y) == S32(x + y)
  {
    var q := x / TWO32;
    assert x == q * TWO32 + U32(x);
    WrapAway(U32(x) + y, q);
    WrapAway(U32(x) + y, -1);
  }

  lemma WrapAway(x: int, q: int)
    ensures U32(x + q * TWO32) == U32(x)
  {
  }

  /** For K below 2^17 the accumulator never wraps: what ref_gemm leaves is the product itself. */
  lemma RefGemmIsProduct(a: seq<Int8>, b: seq<Int8>, mm: nat, kk: nat, nn: nat, m: nat, n: nat)
    requires |a| == Cell(mm, 0, kk) && |b| == Cell(kk, 0, nn) && m < mm && n < nn && kk < 0x2_0000
    ensures S32(ProductAt(a, b, mm, kk, nn, m, n)) == ProductAt(a, b, mm, kk, nn, m, n)
  {
    hide Cell, ProductAt;
    AccumulatorFits(a, b, mm, kk, nn, m, n);
  }

  // ---------------------------------------------------------------- the other references agree

  /** For a 3x3 kernel the window is the one the 2D convolution's reference sums over. */
  lemma PatchIsValidTaps(s: Shape, img: seq<Int8>, words: seq<Word>, r: nat, k: nat)
    requires s.kh == 3 && s.kw == 3 && Place(s, r, k)
    requires |img| == Cell(s.h, 0, s.w) && |words| == |img|
    requires forall o :: 0 <= o < |img| ==> S8(words[o]) == img[o]
    ensures Depth(s) == 9 && Patch(s, img, r, k) == Conv2d.ValidTaps(words, s.h, s.w, r, k)
  {
    hide Cell, S8;
    CellIsNine();
    var p, v := Patch(s, img, r, k), Conv2d.ValidTaps(words, s.h, s.w, r, k);
    forall t | 0 <= t < 9
      ensures p[t] == v[t]
    {
      CellBound(r + t / 3, k + t % 3, s.h, s.w);
    }
  }

  lemma CellIsNine()
    ensures Cell(3, 0, 3) == 9
  {
  }

  /** im2col, then the matrix product with one flattened 3x3 kernel, is conv2d_ref_valid on the same int8 pixels. */
  lemma ProductIsConv2d(s: Shape, img: seq<Int8>, words: seq<Word>, col: seq<Int8>, kernel: Conv2d.Kernel,
                        r: nat, k: nat)
    requires s.kh == 3 && s.kw == 3 && Place(s, r, k)
    requires |img| == Cell(s.h, 0, s.w) && |words| == |img|
    requires forall o :: 0 <= o < |img| ==> S8(words[o]) == img[o]
    requires IsWindows(s, img, col)
    ensures Depth(s) == 9 && Cell(9, 0, 1) == 9 && 0 <= Cell(r, k, OutW(s)) < Windows(s)
    ensures ProductAt(col, kernel, Windows(s), 9, 1, Cell(r, k, OutW(s)), 0) ==
            Conv2d.Pe(Conv2d.ValidTaps(words, s.h, s.w, r, k), kernel)
  {
    hide Cell, Patch, IsWindows, MatrixRow, S8, Conv2d.ValidTaps, PixelAt;
    CellIsNine();
    OneColumn(kernel);
    RowIsPatch(s, img, col, r, k);
    PatchIsValidTaps(s, img, words, r, k);
  }

  lemma OneColumn(kernel: seq<Int8>)
    ensures Cell(|kernel|, 0, 1) == |kernel|
    ensures MatrixColumn(kernel, |kernel|, 1, 0) == kernel
  {
    assert forall k :: Cell(k, 0, 1) == k;
  }

  /** What the matrix engine writes for A in memory and B in its weights is what ref_gemm computes for them. */
  lemma EngineIsProduct(c: Gemm.Config, m0: Memory, a: seq<Int8>, b: seq<Int8>, m: nat, n: nat)
    requires Gemm.Legal(c) && Gemm.Loaded(c, m0) && m < Gemm.Rows(c) && n < c.matN
    requires |a| == Cell(Gemm.Rows(c), 0, c.matK) && |b| == Cell(c.matK, 0, c.matN)
    requires forall o :: 0 <= o < |a| ==> a[o] == S8(m0[c.src + 4 * o])
    requires forall k :: 0 <= k < c.matK ==>
               0 <= Cell(k, n, c.matN) < |b| && b[Cell(k, n, c.matN)] == c.weights[8 * k + n]
    ensures Gemm.Element(c, m0, m, n) == ProductAt(a, b, Gemm.Rows(c), c.matK, c.matN, m, n)
  {
    hide Cell, S8;
    var row, column := MatrixRow(a, Gemm.Rows(c), c.matK, m), MatrixColumn(b, c.matK, c.matN, n);
    forall k | 0 <= k < c.matK
      ensures Gemm.RowOf(c, m0, m)[k] == row[k] && Gemm.ColumnOf(c, n)[k] == column[k]
    {
      CellBound(m, k, Gemm.Rows(c), c.matK);
    }
    assert Gemm.RowOf(c, m0, m) == row && Gemm.ColumnOf(c, n) == column;
  }
}
