/** What the accelerators compute for int8 data: a run from GO to DONE, stated of the numbers in memory alone. */
module Int8Runs {
  import opened Words
  import Conv1d
  import Conv2d
  import Gemm

  /** f(0) + ... + f(n - 1). */
  function Sum(f: int -> int, n: nat): int {
    if n == 0 then 0 else Sum(f, n - 1) + f(n - 1)
  }

  function At(w: seq<int>, k: int): int {
    if 0 <= k < |w| then w[k] else 0
  }

  /** The word at address a has the int8 value v in its low byte; the other three bytes are anything. */
  predicate Holds8(m: Memory, a: int, v: Int8) {
    a in m && (m[a] - v) % 0x100 == 0
  }

  /** Output number n, in memory or on the stream, is x as a 32-bit number. */
  predicate Delivers(stream: bool, dst: int, mem: Memory, beats: seq<Beat>, n: int, x: int) {
    if stream then 0 <= n < |beats| && (beats[n].data - x) % 0x1_0000_0000 == 0
    else dst + 4 * n in mem && (mem[dst + 4 * n] - x) % 0x1_0000_0000 == 0
  }

  lemma {:induction false} SumIsDot(f: int -> int, a: seq<int>, b: seq<int>, n: nat)
    requires n <= |a| && n <= |b| && forall k :: 0 <= k < n ==> f(k) == a[k] * b[k]
    ensures Sum(f, n) == Dot(a, b, n)
  {
    if n > 0 {
      SumIsDot(f, a, b, n - 1);
    }
  }

  lemma DeliveredIs(stream: bool, dst: int, m0: Memory, ws: seq<Word>, mem: Memory, beats: seq<Beat>, n: nat, x: int)
    requires Finished(stream, dst, m0, ws, mem, beats) && n < |ws| && ws[n] == U32(x)
    ensures Delivers(stream, dst, mem, beats, n, x)
  {
    Wrapped(x);
    hide U32;
    if stream {
      assert beats[n] == Beat(ws[n], n == |ws| - 1);
    }
  }

  lemma Wrapped(x: int)
    ensures (U32(x) - x) % 0x1_0000_0000 == 0
  {
  }

  // ---------------------------------------------------------------- conv1d

  lemma Conv1dInput(c: Conv1d.Config, m0: Memory, v: int -> Int8)
    requires forall i :: 0 <= i < c.length ==> Holds8(m0, c.src + 4 * i, v(i))
    ensures Mapped(m0, c.src, c.length)
    ensures forall i :: 0 <= i < c.length ==> S8(Conv1d.Input(c, m0)[i]) == v(i)
  {
    hide S8;
    forall i | 0 <= i < c.length
      ensures c.src + 4 * i in m0 && S8(m0[c.src + 4 * i]) == v(i)
    {
      assert Holds8(m0, c.src + 4 * i, v(i));
      LowByte(m0[c.src + 4 * i], v(i));
    }
  }

  lemma {:induction false} ValidSum(x: seq<Word>, w: Conv1d.Taps, ks: nat, n: nat, k: nat, v: int -> Int8, f: int -> int)
    requires k <= ks <= 16 && n + ks <= |x| && forall i :: 0 <= i < |x| ==> S8(x[i]) == v(i)
    requires forall k :: f(k) == v(n + ks - 1 - k) * At(w, k)
    ensures Conv1d.RefValid(x, w, ks, n, k) == Sum(f, k)
  {
    hide S8;
    if k > 0 {
      ValidSum(x, w, ks, n, k - 1, v, f);
      assert f(k - 1) == v(n + (ks - k)) * w[k - 1];
    }
  }

  lemma {:induction false} SameSum(x: seq<Word>, w: Conv1d.Taps, n: nat, k: nat, v: int -> Int8, f: int -> int)
    requires k <= 16 && n < |x| && forall i :: 0 <= i < |x| ==> S8(x[i]) == v(i)
    requires forall i :: i < 0 ==> v(i) == 0
    requires forall k :: f(k) == v(n - k) * At(w, k)
    ensures Conv1d.RefSame(x, w, n, k) == Sum(f, k)
  {
    hide S8;
    if k > 0 {
      SameSum(x, w, n, k - 1, v, f);
      assert f(k - 1) == v(n - (k - 1)) * w[k - 1];
    }
  }

  /** The sum of v(n + K - 1 - k) * w[k] over the K taps. */
  function ValidAt(v: int -> Int8, w: seq<Int8>, ks: nat, n: int): int {
    Sum(k => v(n + ks - 1 - k) * At(w, k), ks)
  }

  /** The sum of v(n - k) * w[k] over the K taps. */
  function SameAt(v: int -> Int8, w: seq<Int8>, ks: nat, n: int): int {
    Sum(k => v(n - k) * At(w, k), ks)
  }

  /** Valid mode, any register content at GO, any handshake, any overlap the engine is safe for: output n is the sum of
      v(n + K - 1 - k) * w[k] over the K taps. */
  lemma Conv1dValid(c: Conv1d.Config, r0: Conv1d.Regs, m0: Memory, q0: Request, schedule: seq<Cycle>, v: int -> Int8)
    requires !c.same && 1 <= c.kernelSize <= 16 && c.kernelSize <= c.length
    requires c.src % 4 == 0 && c.src + 4 * c.length <= 0x1_0000_0000
    requires c.stream || (c.dst % 4 == 0 && c.dst + 4 * (c.length - c.kernelSize + 1) <= 0x1_0000_0000)
    requires c.stream || c.dst <= c.src + 4 * (c.kernelSize - 1) || c.src + 4 * c.length <= c.dst
    requires forall i :: 0 <= i < c.length ==> Holds8(m0, c.src + 4 * i, v(i))
    requires r0.phase.Idle? && !r0.busy
    ensures var s := Conv1d.Run(c, Conv1d.Start(c, r0, m0, q0), schedule);
            && (2 * c.length + 2 * (c.length - c.kernelSize + 1) <= ReadyCycles(schedule) ==> s.regs.done)
            && (s.regs.done ==> forall n: nat :: n <= c.length - c.kernelSize ==>
                  Delivers(c.stream, c.dst, s.mem, s.beats, n, ValidAt(v, c.weights, c.kernelSize, n)))
  {
    hide Conv1d.Run, Conv1d.Start, Conv1d.Outputs, Conv1d.RefValid, Conv1d.Input, ValidAt, SameAt, Finished, Delivers, Holds8, S8, U32;
    Conv1dInput(c, m0, v);
    Conv1d.EveryRunConvolves(c, r0, m0, q0, schedule);
    var s := Conv1d.Run(c, Conv1d.Start(c, r0, m0, q0), schedule);
    if s.regs.done {
      forall n: nat | n <= c.length - c.kernelSize
        ensures Delivers(c.stream, c.dst, s.mem, s.beats, n,
                         ValidAt(v, c.weights, c.kernelSize, n))
      {
        Conv1dValidAt(c, r0, m0, v, n);
        DeliveredIs(c.stream, c.dst, m0, Conv1d.Outputs(c, m0, r0.shift), s.mem, s.beats, n,
                    ValidAt(v, c.weights, c.kernelSize, n));
      }
    }
  }

  lemma Conv1dValidAt(c: Conv1d.Config, r0: Conv1d.Regs, m0: Memory, v: int -> Int8, n: nat)
    requires Conv1d.Legal(c) && !c.same && n + c.kernelSize <= c.length && Mapped(m0, c.src, c.length)
    requires forall i :: 0 <= i < c.length ==> S8(Conv1d.Input(c, m0)[i]) == v(i)
    ensures n < Conv1d.Total(c)
    ensures Conv1d.Outputs(c, m0, r0.shift)[n] ==
            U32(ValidAt(v, c.weights, c.kernelSize, n))
  {
    hide Conv1d.RefValid, Sum, S8, U32, Conv1d.Output;
    Conv1d.ValidModeConvolves(c, m0, r0.shift, n);
    Conv1d.InputLength(c, m0);
    hide Conv1d.Input;
    ValidSum(Conv1d.Input(c, m0), c.weights, c.kernelSize, n, c.kernelSize, v,
             k => v(n + c.kernelSize - 1 - k) * At(c.weights, k));
    assert Conv1d.Outputs(c, m0, r0.shift)[n] == Conv1d.Output(c, m0, r0.shift, n);
  }

  /** Same mode from a register whose first K - 1 stages are clear: output n is the sum of v(n - k) * w[k], with zeros
      before the input. */
  lemma Conv1dSame(c: Conv1d.Config, r0: Conv1d.Regs, m0: Memory, q0: Request, schedule: seq<Cycle>, v: int -> Int8)
    requires c.same && 1 <= c.kernelSize <= 16 && c.src % 4 == 0 && c.src + 4 * c.length <= 0x1_0000_0000
    requires c.stream || (c.dst % 4 == 0 && c.dst + 4 * c.length <= 0x1_0000_0000)
    requires c.stream || c.dst <= c.src || c.src + 4 * c.length <= c.dst
    requires forall i :: 0 <= i < c.length ==> Holds8(m0, c.src + 4 * i, v(i))
    requires forall i :: i < 0 ==> v(i) == 0
    requires r0.phase.Idle? && !r0.busy && forall i :: 0 <= i < c.kernelSize - 1 ==> r0.shift[i] == 0
    ensures var s := Conv1d.Run(c, Conv1d.Start(c, r0, m0, q0), schedule);
            && (4 * c.length <= ReadyCycles(schedule) ==> s.regs.done)
            && (s.regs.done ==> forall n: nat :: n < c.length ==>
                  Delivers(c.stream, c.dst, s.mem, s.beats, n, SameAt(v, c.weights, c.kernelSize, n)))
  {
    hide Conv1d.Run, Conv1d.Start, Conv1d.Outputs, Conv1d.RefSame, Conv1d.Input, ValidAt, SameAt, Finished, Delivers, Holds8, S8, U32;
    Conv1dInput(c, m0, v);
    Conv1d.EveryRunConvolves(c, r0, m0, q0, schedule);
    var s := Conv1d.Run(c, Conv1d.Start(c, r0, m0, q0), schedule);
    if s.regs.done {
      forall n: nat | n < c.length
        ensures Delivers(c.stream, c.dst, s.mem, s.beats, n, SameAt(v, c.weights, c.kernelSize, n))
      {
        Conv1dSameAt(c, r0, m0, v, n);
        DeliveredIs(c.stream, c.dst, m0, Conv1d.Outputs(c, m0, r0.shift), s.mem, s.beats, n,
                    SameAt(v, c.weights, c.kernelSize, n));
      }
    }
  }

  lemma Conv1dSameAt(c: Conv1d.Config, r0: Conv1d.Regs, m0: Memory, v: int -> Int8, n: nat)
    requires Conv1d.Legal(c) && c.same && n < c.length && Mapped(m0, c.src, c.length)
    requires forall i :: 0 <= i < c.length ==> S8(Conv1d.Input(c, m0)[i]) == v(i)
    requires forall i :: i < 0 ==> v(i) == 0
    requires forall i :: 0 <= i < c.kernelSize - 1 ==> r0.shift[i] == 0
    ensures n < Conv1d.Total(c)
    ensures Conv1d.Outputs(c, m0, r0.shift)[n] == U32(SameAt(v, c.weights, c.kernelSize, n))
  {
    hide Conv1d.RefSame, Sum, S8, U32, Conv1d.Output;
    Conv1d.SameModeConvolves(c, m0, r0.shift, n);
    Conv1d.InputLength(c, m0);
    hide Conv1d.Input;
    SameSum(Conv1d.Input(c, m0), c.weights, n, c.kernelSize, v, k => v(n - k) * At(c.weights, k));
    assert Conv1d.Outputs(c, m0, r0.shift)[n] == Conv1d.Output(c, m0, r0.shift, n);
  }

  // ---------------------------------------------------------------- conv2d

  /** The sum of p(r + i, k + j) * w[3 i + j] over the 3 x 3 kernel. */
  function Window(p: (int, int) -> Int8, w: seq<Int8>, r: int, k: int): int {
    Sum(i => WindowRow(p, w, r, k, i), 3)
  }

  function WindowRow(p: (int, int) -> Int8, w: seq<Int8>, r: int, k: int, i: int): int {
    Sum(j => p(r + i, k + j) * At(w, 3 * i + j), 3)
  }

  lemma SumOfThree(f: int -> int)
    ensures Sum(f, 3) == f(0) + f(1) + f(2)
  {
    assert Sum(f, 1) == f(0) && Sum(f, 2) == f(0) + f(1);
  }

  lemma WindowIs(p: (int, int) -> Int8, w: seq<Int8>, r: int, k: int)
    ensures Window(p, w, r, k) == WindowRow(p, w, r, k, 0) + WindowRow(p, w, r, k, 1) + WindowRow(p, w, r, k, 2)
  {
    hide Sum, WindowRow;
    var f := (i: int) => WindowRow(p, w, r, k, i);
    SumOfThree(f);
  }

  lemma RowIs(p: (int, int) -> Int8, w: seq<Int8>, r: int, k: int, i: int)
    ensures WindowRow(p, w, r, k, i) ==
      p(r + i, k) * At(w, 3 * i) + p(r + i, k + 1) * At(w, 3 * i + 1) + p(r + i, k + 2) * At(w, 3 * i + 2)
  {
    hide Sum, At;
    var f := (j: int) => p(r + i, k + j) * At(w, 3 * i + j);
    SumOfThree(f);
    assert k + 0 == k && 3 * i + 0 == 3 * i;
  }

  lemma NineTerms(a: seq<int>, b: seq<int>)
    requires |a| == 9 && |b| == 9
    ensures Dot(a, b, 9) == a[0] * b[0] + a[1] * b[1] + a[2] * b[2] + a[3] * b[3] + a[4] * b[4] + a[5] * b[5]
                            + a[6] * b[6] + a[7] * b[7] + a[8] * b[8]
  {
    assert Dot(a, b, 3) == a[0] * b[0] + a[1] * b[1] + a[2] * b[2] by {
      assert Dot(a, b, 1) == a[0] * b[0];
    }
    assert Dot(a, b, 6) == Dot(a, b, 3) + a[3] * b[3] + a[4] * b[4] + a[5] * b[5] by {
      assert Dot(a, b, 4) == Dot(a, b, 3) + a[3] * b[3];
    }
    assert Dot(a, b, 8) == Dot(a, b, 6) + a[6] * b[6] + a[7] * b[7] by {
      assert Dot(a, b, 7) == Dot(a, b, 6) + a[6] * b[6];
    }
  }

  /** The pixel at (y, x) is p(y, x). */
  predicate Pixel8(c: Conv2d.Config, m0: Memory, p: (int, int) -> Int8, y: int, x: int) {
    Holds8(m0, c.src + 4 * Cell(y, x, c.width), p(y, x))
  }

  predicate Image8(c: Conv2d.Config, m0: Memory, p: (int, int) -> Int8) {
    forall y, x :: 0 <= y < c.height && 0 <= x < c.width ==> Pixel8(c, m0, p, y, x)
  }

  lemma ImageLoaded(c: Conv2d.Config, m0: Memory, p: (int, int) -> Int8)
    requires c.width > 0 && Image8(c, m0, p)
    ensures Conv2d.Loaded(c, m0)
  {
    hide Cell;
    forall i | 0 <= i < Conv2d.Area(c)
      ensures c.src + 4 * i in m0
    {
      Conv2d.AreaIs(c);
      DivisionBound(i, c.height, c.width);
      Recompose(i, c.width);
      assert Pixel8(c, m0, p, i / c.width, i % c.width);
    }
  }

  lemma ImagePixel(c: Conv2d.Config, m0: Memory, p: (int, int) -> Int8, y: int, x: int)
    requires Conv2d.Loaded(c, m0) && Image8(c, m0, p) && 0 <= y < c.height && 0 <= x < c.width
    ensures 0 <= Cell(y, x, c.width) < |Conv2d.Image(c, m0)|
    ensures S8(Conv2d.Image(c, m0)[Cell(y, x, c.width)]) == p(y, x)
  {
    hide Cell, S8;
    CellBound(y, x, c.height, c.width);
    assert Pixel8(c, m0, p, y, x);
    LowByte(m0[c.src + 4 * Cell(y, x, c.width)], p(y, x));
  }

  lemma ValidWindow(c: Conv2d.Config, m0: Memory, p: (int, int) -> Int8, r: nat, k: nat)
    requires Conv2d.Loaded(c, m0) && Image8(c, m0, p) && r + 2 < c.height && k + 2 < c.width
    ensures Conv2d.Pe(Conv2d.ValidTaps(Conv2d.Image(c, m0), c.height, c.width, r, k), c.kernel) == Window(p, c.kernel, r, k)
  {
    hide Cell, S8, Conv2d.ValidTaps, Window, Image8, Conv2d.Image, Conv2d.Loaded;
    var taps := Conv2d.ValidTaps(Conv2d.Image(c, m0), c.height, c.width, r, k);
    forall i, j | 0 <= i < 3 && 0 <= j < 3
      ensures TapIs(taps, p, r, k, i, j)
    {
      Conv2d.ValidTapAt(Conv2d.Image(c, m0), c.height, c.width, r, k, i, j);
      ImagePixel(c, m0, p, r + i, k + j);
    }
    TapsByRow(taps, p, c.kernel, r, k);
  }

  predicate TapIs(taps: seq<Int8>, p: (int, int) -> Int8, r: int, k: int, i: int, j: int)
    requires |taps| == 9 && 0 <= i < 3 && 0 <= j < 3
  {
    taps[3 * i + j] == p(r + i, k + j)
  }

  lemma TapsByRow(taps: seq<Int8>, p: (int, int) -> Int8, w: Conv2d.Kernel, r: int, k: int)
    requires |taps| == 9 && forall i, j :: 0 <= i < 3 && 0 <= j < 3 ==> TapIs(taps, p, r, k, i, j)
    ensures Conv2d.Pe(taps, w) == Window(p, w, r, k)
  {
    hide Window, Dot, WindowRow, TapIs;
    NineTerms(taps, w);
    WindowIs(p, w, r, k);
    RowTaps(taps, p, w, r, k, 0);
    RowTaps(taps, p, w, r, k, 1);
    RowTaps(taps, p, w, r, k, 2);
  }

  lemma RowTaps(taps: seq<Int8>, p: (int, int) -> Int8, w: Conv2d.Kernel, r: int, k: int, i: int)
    requires |taps| == 9 && 0 <= i < 3 && forall j :: 0 <= j < 3 ==> TapIs(taps, p, r, k, i, j)
    ensures WindowRow(p, w, r, k, i) ==
      At(taps, 3 * i) * At(w, 3 * i) + At(taps, 3 * i + 1) * At(w, 3 * i + 1) + At(taps, 3 * i + 2) * At(w, 3 * i + 2)
  {
    hide WindowRow;
    RowIs(p, w, r, k, i);
    assert TapIs(taps, p, r, k, i, 0) && TapIs(taps, p, r, k, i, 1) && TapIs(taps, p, r, k, i, 2);
  }

  lemma SameWindow(c: Conv2d.Config, m0: Memory, p: (int, int) -> Int8, r: nat, k: nat)
    requires Conv2d.Loaded(c, m0) && Image8(c, m0, p) && r < c.height && k < c.width
    requires forall y, x :: !(0 <= y < c.height && 0 <= x < c.width) ==> p(y, x) == 0
    ensures Conv2d.Pe(Conv2d.SameTaps(Conv2d.Image(c, m0), c.height, c.width, r, k), c.kernel)
         == Window(p, c.kernel, r - 1, k - 1)
  {
    hide Cell, S8, Conv2d.SameTaps, Window, Image8, Conv2d.Image, Conv2d.Loaded;
    var taps := Conv2d.SameTaps(Conv2d.Image(c, m0), c.height, c.width, r, k);
    var y, x := r - 1, k - 1;
    forall i, j | 0 <= i < 3 && 0 <= j < 3
      ensures TapIs(taps, p, y, x, i, j)
    {
      Conv2d.SameTapAt(Conv2d.Image(c, m0), c.height, c.width, r, k, i, j);
      if 0 <= r - 1 + i < c.height && 0 <= k - 1 + j < c.width {
        ImagePixel(c, m0, p, r - 1 + i, k - 1 + j);
      }
    }
    TapsByRow(taps, p, c.kernel, y, x);
  }

  lemma ValidIsLegal(c: Conv2d.Config)
    requires !c.zeroPad && c.kernelSize == 3 && 3 <= c.width <= 64 && 3 <= c.height
    requires c.src % 4 == 0 && c.src + 4 * (c.height * c.width) <= 0x1_0000_0000
    requires c.stream || (c.dst % 4 == 0 && c.dst + 4 * ((c.height - 2) * (c.width - 2)) <= 0x1_0000_0000)
    ensures Conv2d.Legal(c) && Conv2d.Total(c) == (c.height - 2) * (c.width - 2) && Conv2d.Area(c) == c.height * c.width
  {
    Smaller(c.height, c.width);
  }

  lemma Smaller(h: int, w: int)
    requires 3 <= h && 3 <= w
    ensures (h - 2) * (w - 2) <= h * w
  {
    Monotone(h - 2, h, w - 2);
    assert h * (w - 2) == h * w - 2 * h;
  }

  lemma SameIsLegal(c: Conv2d.Config)
    requires c.zeroPad && c.kernelSize == 3 && 1 <= c.width <= 64 && 1 <= c.height
    requires c.src % 4 == 0 && c.src + 4 * (c.height * c.width) <= 0x1_0000_0000
    requires c.stream || (c.dst % 4 == 0 && c.dst + 4 * (c.height * c.width) <= 0x1_0000_0000)
    ensures Conv2d.Legal(c) && Conv2d.Total(c) == c.height * c.width && Conv2d.Area(c) == c.height * c.width
  {
  }

  /** Valid mode, any line buffer content at GO: output (r, k) is the 3 x 3 sum over the image at (r, k). */
  lemma Conv2dValid(c: Conv2d.Config, r0: Conv2d.Regs, m0: Memory, q0: Request, schedule: seq<Cycle>,
                    p: (int, int) -> Int8)
    requires !c.zeroPad && c.kernelSize == 3 && 3 <= c.width <= 64 && 3 <= c.height
    requires c.src % 4 == 0 && c.src + 4 * (c.height * c.width) <= 0x1_0000_0000
    requires c.stream || (c.dst % 4 == 0 && c.dst + 4 * ((c.height - 2) * (c.width - 2)) <= 0x1_0000_0000)
    requires c.stream || c.dst <= c.src + 4 * (2 * c.width + 2) || c.src + 4 * (c.height * c.width) <= c.dst
    requires Image8(c, m0, p)
    ensures var s := Conv2d.Run(c, Conv2d.Start(c, r0, m0, q0), schedule);
            s.regs.done ==> forall r, k :: 0 <= r < c.height - 2 && 0 <= k < c.width - 2 ==>
              Delivers(c.stream, c.dst, s.mem, s.beats, Cell(r, k, c.width - 2), Window(p, c.kernel, r, k))
  {
    hide Conv2d.Run, Conv2d.Start, Conv2d.Outputs, Finished, Delivers, Image8, Window, Cell, S8, U32, Conv2d.Legal,
         Conv2d.Area, Conv2d.Total, Conv2d.NoClobber, Conv2d.Loaded, Conv2d.ValidTaps, Conv2d.Latency, Conv2d.Pe;
    ValidIsLegal(c);
    ImageLoaded(c, m0, p);
    if c.stream {
      Streams(c);
    } else {
      Conv2d.WithinSlack(c);
    }
    Conv2d.EveryRunConvolves(c, r0, m0, q0, schedule);
    var s := Conv2d.Run(c, Conv2d.Start(c, r0, m0, q0), schedule);
    if s.regs.done {
      forall r, k | 0 <= r < c.height - 2 && 0 <= k < c.width - 2
        ensures Delivers(c.stream, c.dst, s.mem, s.beats, Cell(r, k, c.width - 2), Window(p, c.kernel, r, k))
      {
        Conv2d.ValidModeConvolves(c, m0, r0.lines, r, k);
        ValidWindow(c, m0, p, r, k);
        DeliveredIs(c.stream, c.dst, m0, Conv2d.Outputs(c, m0, r0.lines), s.mem, s.beats, Cell(r, k, c.width - 2),
                    Window(p, c.kernel, r, k));
      }
    }
  }

  lemma Streams(c: Conv2d.Config)
    requires c.stream
    ensures Conv2d.NoClobber(c)
  {
  }

  /** Same mode from a cleared line buffer, up to 63 columns: output (r, k) is the 3 x 3 sum around (r, k), with zeros
      outside the image. */
  lemma Conv2dSame(c: Conv2d.Config, r0: Conv2d.Regs, m0: Memory, q0: Request, schedule: seq<Cycle>,
                   p: (int, int) -> Int8)
    requires c.zeroPad && c.kernelSize == 3 && 1 <= c.width <= 63 && 1 <= c.height
    requires c.src % 4 == 0 && c.src + 4 * (c.height * c.width) <= 0x1_0000_0000
    requires c.stream || (c.dst % 4 == 0 && c.dst + 4 * (c.height * c.width) <= 0x1_0000_0000)
    requires c.stream || c.dst <= c.src + 4 * c.width || c.src + 4 * (c.height * c.width) <= c.dst
    requires Image8(c, m0, p) && forall y, x :: !(0 <= y < c.height && 0 <= x < c.width) ==> p(y, x) == 0
    requires forall i :: 0 <= i < 192 ==> r0.lines[i] == 0
    ensures var s := Conv2d.Run(c, Conv2d.Start(c, r0, m0, q0), schedule);
            s.regs.done ==> forall r, k :: 0 <= r < c.height && 0 <= k < c.width ==>
              Delivers(c.stream, c.dst, s.mem, s.beats, Cell(r, k, c.width), Window(p, c.kernel, r - 1, k - 1))
  {
    hide Conv2d.Run, Conv2d.Start, Conv2d.Outputs, Finished, Delivers, Image8, Window, Cell, S8, U32, Conv2d.Legal,
         Conv2d.Area, Conv2d.Total, Conv2d.NoClobber, Conv2d.Loaded, Conv2d.SameTaps, Conv2d.Latency, Conv2d.Pe,
         Conv2d.PaddingIsZero;
    SameIsLegal(c);
    ImageLoaded(c, m0, p);
    if c.stream {
      Streams(c);
    } else {
      Conv2d.WithinSlack(c);
    }
    Conv2d.EveryRunConvolves(c, r0, m0, q0, schedule);
    Conv2d.AfterReset(c, m0, r0.lines);
    var s := Conv2d.Run(c, Conv2d.Start(c, r0, m0, q0), schedule);
    if s.regs.done {
      forall r, k | 0 <= r < c.height && 0 <= k < c.width
        ensures Delivers(c.stream, c.dst, s.mem, s.beats, Cell(r, k, c.width), Window(p, c.kernel, r - 1, k - 1))
      {
        CellBound(r, k, c.height, c.width);
        Conv2d.AreaIs(c);
        Conv2d.SameModeConvolves(c, m0, r0.lines, r, k);
        SameWindow(c, m0, p, r, k);
        DeliveredIs(c.stream, c.dst, m0, Conv2d.Outputs(c, m0, r0.lines), s.mem, s.beats, Cell(r, k, c.width),
                    Window(p, c.kernel, r - 1, k - 1));
      }
    }
  }

  // ---------------------------------------------------------------- gemm

  /** The sum of a(m, k) * b(k, n) over k below K. */
  function Product8(a: (int, int) -> Int8, b: (int, int) -> Int8, depth: nat, m: int, n: int): int {
    Sum(k => a(m, k) * b(k, n), depth)
  }

  /** Element (m, k) of A is in memory, and the weight of cell (k, n) is element (k, n) of B. */
  predicate Element8(c: Gemm.Config, m0: Memory, a: (int, int) -> Int8, m: int, k: int) {
    Holds8(m0, c.src + 4 * Cell(m, k, c.matK), a(m, k))
  }

  predicate Matrices8(c: Gemm.Config, m0: Memory, a: (int, int) -> Int8, b: (int, int) -> Int8) {
    && (forall m, k :: 0 <= m < Gemm.Rows(c) && 0 <= k < c.matK ==> Element8(c, m0, a, m, k))
    && (forall k, n :: 0 <= k < c.matK && 0 <= n < c.matN && k < 8 && n < 8 ==> c.weights[8 * k + n] == b(k, n))
  }

  lemma MatrixLoaded(c: Gemm.Config, m0: Memory, a: (int, int) -> Int8, b: (int, int) -> Int8)
    requires c.matK > 0 && Matrices8(c, m0, a, b)
    ensures Gemm.Loaded(c, m0)
  {
    hide Cell;
    forall i | 0 <= i < Cell(Gemm.Rows(c), 0, c.matK)
      ensures c.src + 4 * i in m0
    {
      DivisionBound(i, Gemm.Rows(c), c.matK);
      Recompose(i, c.matK);
      assert Element8(c, m0, a, i / c.matK, i % c.matK);
    }
  }

  lemma ElementIsSum(c: Gemm.Config, m0: Memory, a: (int, int) -> Int8, b: (int, int) -> Int8, m: nat, n: nat)
    requires Gemm.Loaded(c, m0) && Matrices8(c, m0, a, b) && m < Gemm.Rows(c) && n < c.matN <= 8 && c.matK <= 8
    ensures Gemm.Element(c, m0, m, n) == Product8(a, b, c.matK, m, n)
  {
    hide Cell, S8, Sum, Dot;
    var row, col := Gemm.RowOf(c, m0, m), Gemm.ColumnOf(c, n);
    forall k | 0 <= k < c.matK
      ensures row[k] == a(m, k) && col[k] == b(k, n)
    {
      CellBound(m, k, Gemm.Rows(c), c.matK);
      assert Element8(c, m0, a, m, k);
      LowByte(m0[c.src + 4 * Cell(m, k, c.matK)], a(m, k));
    }
    SumIsDot(k => a(m, k) * b(k, n), row, col, c.matK);
  }

  /** Any leftovers in the datapath: element (m, n) of the result is the sum of a(m, k) * b(k, n); MAT_M = 0 stands for
      16 rows. */
  lemma GemmProduct(c: Gemm.Config, r0: Gemm.Regs, m0: Memory, q0: Request, schedule: seq<Cycle>,
                    a: (int, int) -> Int8, b: (int, int) -> Int8)
    requires 1 <= c.matK <= 8 && 1 <= c.matN <= 8
    requires var rows := if c.matM == 0 then 16 else c.matM;
             && c.src % 4 == 0 && c.src + 4 * (rows * c.matK) <= 0x1_0000_0000
             && c.dst % 4 == 0 && c.dst + 4 * (rows * c.matN) <= 0x1_0000_0000
             && (c.src + 4 * (rows * c.matK) <= c.dst || c.dst + 4 * (rows * c.matN) <= c.src)
    requires Matrices8(c, m0, a, b)
    ensures var s := Gemm.Run(c, Gemm.Start(r0, m0, q0), schedule);
            var rows := if c.matM == 0 then 16 else c.matM;
            && (rows * (9 + 2 * c.matK + 2 * c.matN) <= ReadyCycles(schedule) ==> s.regs.done)
            && (s.regs.done ==> forall m, n :: 0 <= m < rows && 0 <= n < c.matN ==>
                  Delivers(false, c.dst, s.mem, [], Cell(m, n, c.matN), Product8(a, b, c.matK, m, n)))
  {
    hide Gemm.Run, Gemm.Start, Gemm.Outputs, Finished, Delivers, Matrices8, Product8, S8, U32, Gemm.NoClobber, Gemm.Loaded;
    MatrixLoaded(c, m0, a, b);
    assert Gemm.Legal(c);
    DisjointIsSafe(c);
    Gemm.EveryRunMultiplies(c, r0, m0, q0, schedule);
    var s := Gemm.Run(c, Gemm.Start(r0, m0, q0), schedule);
    hide Cell, Gemm.Legal;
    if s.regs.done {
      forall m, n | 0 <= m < Gemm.Rows(c) && 0 <= n < c.matN
        ensures Delivers(false, c.dst, s.mem, [], Cell(m, n, c.matN), Product8(a, b, c.matK, m, n))
      {
        Gemm.OutputAt(c, m0, m, n);
        ElementIsSum(c, m0, a, b, m, n);
        DeliveredIs(false, c.dst, m0, Gemm.Outputs(c, m0), s.mem, [], Cell(m, n, c.matN), Product8(a, b, c.matK, m, n));
      }
    }
  }

  lemma DisjointIsSafe(c: Gemm.Config)
    requires Gemm.Legal(c)
    requires c.src + 4 * Cell(Gemm.Rows(c), 0, c.matK) <= c.dst || c.dst + 4 * Cell(Gemm.Rows(c), 0, c.matN) <= c.src
    ensures Gemm.NoClobber(c)
  {
    hide Cell;
    forall o, y, k | 0 <= y < Gemm.Rows(c) && 0 <= k < c.matK && 0 <= o < Cell(y, 0, c.matN)
      ensures !Gemm.Lands(c, o, y, k)
    {
      CellBound(y, k, Gemm.Rows(c), c.matK);
      Gemm.CellUpTo(y, Gemm.Rows(c), c.matN);
    }
  }
}
