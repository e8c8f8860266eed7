/** Machine words, the memory behind the DMA port, and finite sums: what the accelerator models share. */
module Words {

  const TWO32: int := 0x1_0000_0000

  type Word = x: int | 0 <= x < 0x1_0000_0000

  type Int8 = x: int | -128 <= x < 128

  /** The low 32 bits of an integer: what a 32-bit register holds after an addition. */
  function U32(x: int): Word {
    x % TWO32
  }

  /** 32-bit register addition and subtraction. */
  function Add32(a: Word, b: Word): Word {
    if a + b < TWO32 then a + b else a + b - TWO32
  }

  function Sub32(a: Word, b: Word): Word {
    if b <= a then a - b else a - b + TWO32
  }

  /** An integer read back through a signed register of 32, 16 or 8 bits. */
  function S32(x: int): int {
    if U32(x) < 0x8000_0000 then U32(x) else U32(x) - TWO32
  }

  function S16(x: int): int {
    if x % 0x1_0000 < 0x8000 then x % 0x1_0000 else x % 0x1_0000 - 0x1_0000
  }

  function S8(x: int): Int8 {
    if x % 0x100 < 0x80 then x % 0x100 else x % 0x100 - 0x100
  }

  /** The eight-bit cast keeps the low byte: what it gives is the one int8 congruent to the word. */
  lemma LowByte(x: int, v: Int8)
    ensures (S8(x) - x) % 0x100 == 0
    ensures (x - v) % 0x100 == 0 ==> S8(x) == v
  {
  }

  /** The number that a sequence of bits, lowest first, spells. */
  function Value(w: seq<bool>): nat {
    if w == [] then 0 else (if w[0] then 1 else 0) + 2 * Value(w[1..])
  }

  datatype Option<+T> = None | Some(value: T)

  // ---------------------------------------------------------------- products and sums

  function Product(a: int, b: int): int {
    a * b
  }

  /** The product of two int8 values: at most 2^14 in magnitude, so a 16-bit register holds it. */
  lemma ProductFits(a: Int8, b: Int8)
    ensures -16384 <= Product(a, b) <= 16384
    ensures S16(Product(a, b)) == Product(a, b)
  {
    ProductAtMost(a, b);
  }

  lemma ProductAtMost(a: int, b: int)
    requires -128 <= a <= 128 && -128 <= b <= 128
    ensures -16384 <= a * b <= 16384
  {
    var p, q, r, t := 128 - a, 128 + a, 128 - b, 128 + b;
    NonNegative(p, t);
    NonNegative(q, r);
    NonNegative(p, r);
    NonNegative(q, t);
    assert p * t == 16384 + 128 * b - 128 * a - a * b;
    assert q * r == 16384 - 128 * b + 128 * a - a * b;
    assert p * r == 16384 - 128 * b - 128 * a + a * b;
    assert q * t == 16384 + 128 * b + 128 * a + a * b;
  }

  lemma NonNegative(x: int, y: int)
    requires x >= 0 && y >= 0
    ensures x * y >= 0
  {
  }

  /** Sum of a[i] * b[i] for i below n. */
  function Dot(a: seq<int>, b: seq<int>, n: nat): int
    requires n <= |a| && n <= |b|
  {
    if n == 0 then 0 else Dot(a, b, n - 1) + Product(a[n - 1], b[n - 1])
  }

  lemma {:induction false} DotBound(a: seq<int>, b: seq<int>, n: nat)
    requires n <= |a| && n <= |b|
    requires forall i :: 0 <= i < n ==> -128 <= a[i] < 128 && -128 <= b[i] < 128
    ensures -16384 * n <= Dot(a, b, n) <= 16384 * n
  {
    if n > 0 {
      DotBound(a, b, n - 1);
      ProductAtMost(a[n - 1], b[n - 1]);
    }
  }

  /** The kernel with a single 1 at tap i. */
  function Unit(n: nat, i: nat): (u: seq<Int8>)
    ensures |u| == n && forall j :: 0 <= j < n ==> u[j] == if j == i then 1 else 0
  {
    seq(n, j => if j == i then 1 else 0)
  }

  lemma {:induction false} DotUnit(v: seq<int>, m: nat, i: nat, n: nat)
    requires n <= m && n <= |v|
    ensures Dot(v, Unit(m, i), n) == if i < n then v[i] else 0
  {
    if n > 0 {
      DotUnit(v, m, i, n - 1);
    }
  }

  lemma U32Injective(x: int, y: int)
    requires -0x4000_0000 <= x < 0x4000_0000 && -0x4000_0000 <= y < 0x4000_0000
    ensures U32(x) == U32(y) ==> x == y
    ensures S32(U32(x)) == x
  {
  }

  // ---------------------------------------------------------------- memory

  /** Word-addressed memory, keyed by byte address; an address that is not a key answers a read with anything. */
  type Memory = map<int, Word>

  datatype Request = Request(addr: Word, write: bool, data: Word)

  datatype Beat = Beat(data: Word, last: bool)

  /** What the environment does in one clock cycle: grant, response, stream ready, and the
      data an unmapped address returns. All four are unconstrained. */
  datatype Cycle = Cycle(gnt: bool, rvalid: bool, tready: bool, stray: Word)

  function Load(m: Memory, a: int, stray: Word): Word {
    if a in m then m[a] else stray
  }

  /** Memory after storing the words ws at a, a+4, a+8, ... */
  function Store(m: Memory, a: int, ws: seq<Word>): Memory {
    if ws == [] then m else Store(m, a, ws[..|ws| - 1])[a + 4 * (|ws| - 1) := ws[|ws| - 1]]
  }

  predicate InBlock(x: int, a: int, n: nat) {
    a <= x < a + 4 * n && (x - a) % 4 == 0
  }

  /** Store changes exactly the words of its block. */
  lemma {:induction false} StoreLookup(m: Memory, a: int, ws: seq<Word>, x: int)
    ensures x in Store(m, a, ws) <==> x in m || InBlock(x, a, |ws|)
    ensures InBlock(x, a, |ws|) ==> Store(m, a, ws)[x] == ws[(x - a) / 4]
    ensures !InBlock(x, a, |ws|) && x in m ==> Store(m, a, ws)[x] == m[x]
  {
    if ws != [] {
      StoreLookup(m, a, ws[..|ws| - 1], x);
    }
  }

  /** A block just stored can be read back. */
  lemma StoreHolds(m: Memory, a: int, ws: seq<Word>)
    ensures Mapped(Store(m, a, ws), a, |ws|)
    ensures forall q: nat :: q < |ws| ==> Store(m, a, ws)[a + 4 * q] == ws[q]
  {
    hide Store;
    forall q: nat | q < |ws|
      ensures a + 4 * q in Store(m, a, ws) && Store(m, a, ws)[a + 4 * q] == ws[q]
    {
      StoreLookup(m, a, ws, a + 4 * q);
      assert InBlock(a + 4 * q, a, |ws|);
    }
  }

  lemma StoreSnoc(m: Memory, a: int, ws: seq<Word>, k: nat)
    requires k < |ws|
    ensures Store(m, a, ws[..k + 1]) == Store(m, a, ws[..k])[a + 4 * k := ws[k]]
  {
    assert ws[..k + 1][..k] == ws[..k];
  }

  /** The state a finished run leaves: ws written to consecutive words and nothing else, or ws streamed. */
  ghost predicate Finished(stream: bool, dst: int, m0: Memory, ws: seq<Word>, mem: Memory, beats: seq<Beat>) {
    if stream then mem == m0 && beats == Beats(ws, |ws|)
    else
      && beats == []
      && (forall o :: 0 <= o < |ws| ==> dst + 4 * o in mem && mem[dst + 4 * o] == ws[o])
      && (forall a :: a in mem <==> a in m0 || InBlock(a, dst, |ws|))
      && (forall a :: a in m0 && !InBlock(a, dst, |ws|) ==> mem[a] == m0[a])
  }

  lemma FinishedAt(dst: int, m0: Memory, ws: seq<Word>, mem: Memory, beats: seq<Beat>, o: nat)
    requires Finished(false, dst, m0, ws, mem, beats) && o < |ws|
    ensures dst + 4 * o in mem && mem[dst + 4 * o] == ws[o]
  {
  }

  lemma AllDelivered(stream: bool, dst: int, m0: Memory, ws: seq<Word>, mem: Memory, beats: seq<Beat>)
    requires mem == if stream then m0 else Store(m0, dst, ws)
    requires beats == if stream then Beats(ws, |ws|) else []
    ensures Finished(stream, dst, m0, ws, mem, beats)
  {
    hide Store, Beats;
    forall a ensures !stream ==> (a in mem <==> a in m0 || InBlock(a, dst, |ws|))
      ensures !stream && a in m0 && !InBlock(a, dst, |ws|) ==> mem[a] == m0[a]
    {
      StoreLookup(m0, dst, ws, a);
    }
    forall o | 0 <= o < |ws| && !stream ensures dst + 4 * o in mem && mem[dst + 4 * o] == ws[o] {
      StoreLookup(m0, dst, ws, dst + 4 * o);
      assert InBlock(dst + 4 * o, dst, |ws|);
    }
  }

  /** The 32-bit register that points n words past a. */
  function Pointer(a: Word, n: int): int {
    if a + 4 * n == TWO32 then 0 else a + 4 * n
  }

  /** The whole of ws delivered as stream beats, with the last-beat flag on the final one only. */
  function Beats(ws: seq<Word>, k: nat): seq<Beat>
    requires k <= |ws|
  {
    seq(k, i requires 0 <= i < |ws| => Beat(ws[i], i == |ws| - 1))
  }

  lemma NothingDelivered(m: Memory, a: int, ws: seq<Word>)
    ensures Store(m, a, ws[..0]) == m && Store(m, a, []) == m && Beats(ws, 0) == []
  {
  }

  lemma BeatsSnoc(ws: seq<Word>, k: nat)
    requires k < |ws|
    ensures Beats(ws, k + 1) == Beats(ws, k) + [Beat(ws[k], k == |ws| - 1)]
  {
  }

  // ---------------------------------------------------------------- input that outputs may overwrite

  /** The first k words, or as many as there are. */
  function Upto(ws: seq<Word>, k: int): seq<Word> {
    if k <= 0 then [] else if k <= |ws| then ws[..k] else ws
  }

  /** What a read of address a finds once the words ws have been stored at dst. */
  function ReadBack(m0: Memory, dst: int, ws: seq<Word>, a: int): Word {
    Load(Store(m0, dst, ws), a, 0)
  }

  /** The outputs due before word q of the input is read depend only on the words read before it. */
  ghost predicate Causal(outputs: seq<Word> -> seq<Word>, due: nat -> nat, n: nat) {
    forall z, z', q: nat :: |z| == n && |z'| == n && q < n && z[..q] == z'[..q] ==>
      && due(q) <= |outputs(z)| && due(q) <= |outputs(z')|
      && outputs(z)[..due(q)] == outputs(z')[..due(q)]
  }

  /** There is an input every word of which is what is found when its turn to be read comes. */
  lemma {:induction false} ReadsExist(m0: Memory, src: int, dst: int, outputs: seq<Word> -> seq<Word>,
                                      due: nat -> nat, n: nat, k: nat) returns (z: seq<Word>)
    requires Causal(outputs, due, n) && k <= n
    ensures |z| == n
    ensures forall q: nat :: q < k ==>
              due(q) <= |outputs(z)| && z[q] == ReadBack(m0, dst, outputs(z)[..due(q)], src + 4 * q)
  {
    hide ReadBack;
    if k == 0 {
      z := seq(n, _ => 0);
    } else {
      var y := ReadsExist(m0, src, dst, outputs, due, n, k - 1);
      assert y[..k - 1] == y[..k - 1];
      z := y[k - 1 := ReadBack(m0, dst, outputs(y)[..due(k - 1)], src + 4 * (k - 1))];
      forall q: nat | q < k
        ensures due(q) <= |outputs(z)| && z[q] == ReadBack(m0, dst, outputs(z)[..due(q)], src + 4 * q)
      {
        assert z[..q] == y[..q];
      }
    }
  }

  lemma ReadBackAt(m0: Memory, dst: int, ws: seq<Word>, o: nat)
    requires o < |ws|
    ensures ReadBack(m0, dst, ws, dst + 4 * o) == ws[o]
  {
    StoreLookup(m0, dst, ws, dst + 4 * o);
    assert InBlock(dst + 4 * o, dst, |ws|);
  }

  lemma One()
    ensures U32(S8(1)) == 1 && U32(S8(0)) == 0
  {
  }

  /** A schedule in which the environment is ready n times. */
  function Ready(n: nat): (schedule: seq<Cycle>)
    ensures |schedule| == n
  {
    seq(n, _ => Cycle(true, true, true, 0))
  }

  lemma {:induction false} ReadyAlways(n: nat)
    ensures ReadyCycles(Ready(n)) == n
  {
    if n > 0 {
      ReadyAlways(n - 1);
      assert Ready(n)[..n - 1] == Ready(n - 1);
    }
  }

  /** Every address of the block of n words at a is mapped. */
  predicate Mapped(m: Memory, a: int, n: int) {
    forall i :: 0 <= i < n ==> a + 4 * i in m
  }

  /** Cycles in which the environment is ready for anything. */
  function ReadyCycles(schedule: seq<Cycle>): nat {
    if schedule == [] then 0
    else
      var i := schedule[|schedule| - 1];
      ReadyCycles(schedule[..|schedule| - 1]) + if i.gnt && i.rvalid && i.tready then 1 else 0
  }

  // ---------------------------------------------------------------- row-major positions

  /** Row-major index of (row, col) in rows of width w. */
  function Cell(row: int, col: int, w: int): int {
    row * w + col
  }

  lemma CellBound(row: int, col: int, h: int, w: int)
    requires 0 <= row < h && 0 <= col < w
    ensures 0 <= Cell(row, col, w) < Cell(h, 0, w)
    ensures Cell(row, col, w) == Cell(h, 0, w) - 1 <==> row == h - 1 && col == w - 1
  {
    Monotone(row, h - 1, w);
    if row < h - 1 {
      Monotone(row, h - 2, w);
    }
    assert h * w == (h - 1) * w + w;
  }

  lemma Monotone(x: int, y: int, w: int)
    requires x <= y && 0 <= w
    ensures x * w <= y * w
    ensures 0 <= x ==> 0 <= x * w
  {
  }

  lemma CellNext(row: int, col: int, w: int)
    ensures Cell(row, col + 1, w) == Cell(row, col, w) + 1
    ensures Cell(row + 1, 0, w) == Cell(row, w - 1, w) + 1
    ensures Cell(0, col, w) == col
  {
  }

  lemma CellDecode(row: int, col: int, w: int)
    requires 0 <= col < w
    ensures Cell(row, col, w) / w == row && Cell(row, col, w) % w == col
  {
    var n, q := Cell(row, col, w), Cell(row, col, w) / w;
    assert n == q * w + n % w;
    if q < row {
      Monotone(q + 1, row, w);
    } else if q > row {
      Monotone(row + 1, q, w);
    }
  }

  lemma Recompose(o: nat, w: int)
    requires 0 < w
    ensures Cell(o / w, o % w, w) == o && 0 <= o % w < w
    ensures Cell(o / w, 0, w) == o - o % w
  {
  }

  lemma DivisionBound(o: nat, h: int, w: int)
    requires 0 < w && o < Cell(h, 0, w)
    ensures 0 <= o / w < h
  {
    if h <= o / w {
      Monotone(h, o / w, w);
    }
  }

  lemma DivMod(x: int, a: int, p: int, b: int)
    requires p > 0 && 0 <= a < p && x == a + p * b
    ensures x / p == b && x % p == a
  {
    var q := x / p;
    assert x == p * q + x % p;
    if q < b {
      Monotone(q + 1, b, p);
    } else if b < q {
      Monotone(b + 1, q, p);
    }
  }
}
