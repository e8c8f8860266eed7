/** The fixed-point softmax references: table of exponentials, reciprocal of the sum, normalisation. */
module Softmax {
  import opened Words

  type Byte = x: int | 0 <= x < 256

  // ---------------------------------------------------------------- the exponential table

  /** exp_lut_table, sixteen entries to a row. */
  function Row(r: int): (s: seq<Byte>)
    requires 0 <= r < 16
    ensures |s| == 16
  {
    match r
    case 0 => [255, 250, 244, 239, 234, 229, 224, 219, 214, 210, 205, 201, 196, 192, 188, 184]
    case 1 => [180, 176, 172, 169, 165, 162, 158, 155, 151, 148, 145, 142, 139, 136, 133, 130]
    case 2 => [127, 124, 122, 119, 117, 114, 112, 109, 107, 105, 102, 100, 98, 96, 94, 92]
    case 3 => [90, 88, 86, 84, 82, 81, 79, 77, 75, 74, 72, 71, 69, 68, 66, 65]
    case 4 => [63, 62, 61, 59, 58, 57, 56, 54, 53, 52, 51, 50, 49, 48, 47, 46]
    case 5 => [45, 44, 43, 42, 41, 40, 39, 38, 38, 37, 36, 35, 35, 34, 33, 32]
    case 6 => [32, 31, 30, 30, 29, 28, 28, 27, 27, 26, 25, 25, 24, 24, 23, 23]
    case 7 => [22, 22, 21, 21, 20, 20, 20, 19, 19, 18, 18, 18, 17, 17, 16, 16]
    case 8 => [16, 15, 15, 15, 14, 14, 14, 14, 13, 13, 13, 12, 12, 12, 12, 11]
    case 9 => [11, 11, 11, 10, 10, 10, 10, 10, 9, 9, 9, 9, 9, 8, 8, 8]
    case 10 => [8, 8, 8, 7, 7, 7, 7, 7, 7, 6, 6, 6, 6, 6, 6, 6]
    case 11 => [6, 5, 5, 5, 5, 5, 5, 5, 5, 5, 4, 4, 4, 4, 4, 4]
    case 12 => [4, 4, 4, 4, 4, 4, 3, 3, 3, 3, 3, 3, 3, 3, 3, 3]
    case 13 => [3, 3, 3, 3, 3, 2, 2, 2, 2, 2, 2, 2, 2, 2, 2, 2]
    case 14 => [2, 2, 2, 2, 2, 2, 2, 2, 2, 2, 2, 2, 2, 1, 1, 1]
    case _ => [1, 1, 1, 1, 1, 1, 1, 1, 1, 1, 1, 1, 1, 1, 1, 1]
  }

  predicate Falling(s: seq<Byte>) {
    && |s| == 16
    && s[0] >= s[1] >= s[2] >= s[3] >= s[4] >= s[5] >= s[6] >= s[7]
    && s[7] >= s[8] >= s[9] >= s[10] >= s[11] >= s[12] >= s[13] >= s[14] >= s[15]
  }

  lemma RowFalls(r: int)
    requires 0 <= r < 16
    ensures Falling(Row(r))
  {
    hide Row, Falling;
    if r < 4 {
      EarlyRowFalls(r);
    } else if r < 8 {
      MiddleRowFalls(r);
    } else if r < 12 {
      LateRowFalls(r);
    } else {
      LastRowFalls(r);
    }
  }

  lemma EarlyRowFalls(r: int)
    requires 0 <= r < 4
    ensures Falling(Row(r))
  {
  }

  lemma MiddleRowFalls(r: int)
    requires 4 <= r < 8
    ensures Falling(Row(r))
  {
  }

  lemma LateRowFalls(r: int)
    requires 8 <= r < 12
    ensures Falling(Row(r))
  {
  }

  lemma LastRowFalls(r: int)
    requires 12 <= r < 16
    ensures Falling(Row(r))
  {
  }

  /** The last entry of a row is at least the first of the next. */
  lemma RowsMeet(r: int)
    requires 0 <= r < 15
    ensures Row(r)[15] >= Row(r + 1)[0]
  {
  }

  lemma Ends()
    ensures Row(0)[0] == 255
    ensures Row(15)[15] == 1
  {
  }

  lemma {:induction false} FallingPair(s: seq<Byte>, i: int, j: int)
    requires Falling(s) && 0 <= i <= j < 16
    ensures s[i] >= s[j]
    decreases j - i
  {
    if i < j {
      FallingPair(s, i, j - 1);
    }
  }

  /** Entries of row a are at least those of a later row b. */
  lemma {:induction false} RowsOrdered(a: int, b: int, j: int)
    requires 0 <= a < b < 16 && 0 <= j < 16
    ensures Row(a)[15] >= Row(b)[j]
    decreases b
  {
    hide Row;
    RowFalls(a);
    RowFalls(b);
    FallingPair(Row(b), 0, j);
    RowsMeet(b - 1);
    if a < b - 1 {
      RowsOrdered(a, b - 1, 15);
    }
  }

  /** The table entry for a distance from the maximum. */
  function Exp(d: Byte): Byte {
    Row(d / 16)[d % 16]
  }

  /** The further from the maximum, the smaller the entry; it is 255 at the maximum and never 0. */
  lemma ExpFalls(d: Byte, e: Byte)
    requires d <= e
    ensures Exp(d) >= Exp(e)
  {
    hide Row;
    var a, i, b, j := d / 16, d % 16, e / 16, e % 16;
    RowFalls(a);
    RowFalls(b);
    if a == b {
      FallingPair(Row(a), i, j);
    } else {
      FallingPair(Row(a), i, 15);
      RowsOrdered(a, b, j);
    }
  }

  lemma ExpRange(d: Byte)
    ensures 1 <= Exp(d) <= 255 && Exp(0) == 255
  {
    hide Row;
    ExpFalls(d, 255);
    Ends();
    assert Exp(255) == Row(15)[15] && Exp(0) == Row(0)[0];
  }

  // ---------------------------------------------------------------- the table is the exponential

  function Power(q: real, d: nat): real {
    if d == 0 then 1.0 else Power(q, d - 1) * q
  }

  /** The base of the table: e to the -1/46, to six places. */
  predicate IsBase(q: real) {
    0.978495 <= q <= 0.978496
  }

  /** Bounds of the powers 0 to 16 of the base, and of its powers 16 r. */
  function LowStep(j: int): real {
    match j
    case 0 => 1.0000000
    case 1 => 0.9784950
    case 2 => 0.9574524
    case 3 => 0.9368623
    case 4 => 0.9167150
    case 5 => 0.8970010
    case 6 => 0.8777109
    case 7 => 0.8588357
    case 8 => 0.8403664
    case 9 => 0.8222943
    case 10 => 0.8046108
    case 11 => 0.7873076
    case 12 => 0.7703765
    case 13 => 0.7538095
    case 14 => 0.7375988
    case 15 => 0.7217367
    case _ => 0.7062157
  }

  function HighStep(j: int): real {
    match j
    case 0 => 1.0000000
    case 1 => 0.9784960
    case 2 => 0.9574545
    case 3 => 0.9368654
    case 4 => 0.9167191
    case 5 => 0.8970060
    case 6 => 0.8777168
    case 7 => 0.8588424
    case 8 => 0.8403739
    case 9 => 0.8223025
    case 10 => 0.8046198
    case 11 => 0.7873173
    case 12 => 0.7703869
    case 13 => 0.7538206
    case 14 => 0.7376105
    case 15 => 0.7217490
    case _ => 0.7062286
  }

  function LowRow(r: int): real {
    match r
    case 0 => 1.0000000
    case 1 => 0.7062157
    case 2 => 0.4987406
    case 3 => 0.3522184
    case 4 => 0.2487421
    case 5 => 0.1756655
    case 6 => 0.1240577
    case 7 => 0.0876114
    case 8 => 0.0618725
    case 9 => 0.0436953
    case 10 => 0.0308583
    case 11 => 0.0217926
    case 12 => 0.0153902
    case 13 => 0.0108688
    case 14 => 0.0076757
    case _ => 0.0054206
  }

  function HighRow(r: int): real {
    match r
    case 0 => 1.0000000
    case 1 => 0.7062286
    case 2 => 0.4987589
    case 3 => 0.3522378
    case 4 => 0.2487605
    case 5 => 0.1756818
    case 6 => 0.1240716
    case 7 => 0.0876230
    case 8 => 0.0618819
    case 9 => 0.0437028
    case 10 => 0.0308642
    case 11 => 0.0217972
    case 12 => 0.0153939
    case 13 => 0.0108717
    case 14 => 0.0076780
    case _ => 0.0054225
  }

  lemma Between(x: real, y: real, a: real, b: real, c: real, d: real)
    requires 0.0 <= a <= x <= b && 0.0 <= c <= y <= d
    ensures a * c <= x * y <= b * d
  {
    assert a * c <= x * c <= x * y;
    assert x * y <= b * y <= b * d;
  }

  lemma StepsChain(j: int)
    requires 1 <= j <= 16
    ensures 0.0 <= LowStep(j) <= LowStep(j - 1) * 0.978495 && HighStep(j - 1) * 0.978496 <= HighStep(j)
    ensures 0.0 <= LowStep(j - 1)
  {
  }

  lemma RowsChain(r: int)
    requires 1 <= r <= 15
    ensures 0.0 <= LowRow(r) <= LowRow(r - 1) * LowStep(16) && HighRow(r - 1) * HighStep(16) <= HighRow(r)
    ensures 0.0 <= LowRow(r - 1) && 0.0 <= LowStep(16)
  {
  }

  lemma {:induction false} StepPower(q: real, j: nat)
    requires IsBase(q) && j <= 16
    ensures LowStep(j) <= Power(q, j) <= HighStep(j)
  {
    hide LowStep, HighStep;
    if j == 0 {
      FirstBounds();
    } else {
      StepPower(q, j - 1);
      StepsChain(j);
      Between(Power(q, j - 1), q, LowStep(j - 1), HighStep(j - 1), 0.978495, 0.978496);
    }
  }

  lemma FirstBounds()
    ensures LowStep(0) == HighStep(0) == LowRow(0) == HighRow(0) == 1.0
  {
  }

  lemma {:induction false} PowerSplit(q: real, a: nat, b: nat)
    ensures Power(q, a + b) == Power(q, a) * Power(q, b)
    decreases b
  {
    if b > 0 {
      PowerSplit(q, a, b - 1);
      assert (Power(q, a) * Power(q, b - 1)) * q == Power(q, a) * (Power(q, b - 1) * q);
    }
  }

  lemma {:induction false} RowPower(q: real, r: nat)
    requires IsBase(q) && r <= 15
    ensures LowRow(r) <= Power(q, 16 * r) <= HighRow(r)
  {
    hide LowStep, HighStep, LowRow, HighRow, Power;
    if r == 0 {
      FirstBounds();
      ZerothPower(q);
    } else {
      RowPower(q, r - 1);
      StepPower(q, 16);
      PowerSplit(q, 16 * (r - 1), 16);
      RowsChain(r);
      Between(Power(q, 16 * (r - 1)), Power(q, 16), LowRow(r - 1), HighRow(r - 1), LowStep(16), HighStep(16));
    }
  }

  lemma ZerothPower(q: real)
    ensures Power(q, 0) == 1.0
  {
  }

  /** Entry j of row r is within a half of 255 times anything between the bounds. */
  predicate Near(r: int, j: int)
    requires 0 <= r < 16 && 0 <= j < 16
  {
    && Row(r)[j] as real - 0.5 <= 255.0 * (LowRow(r) * LowStep(j))
    && 255.0 * (HighRow(r) * HighStep(j)) <= Row(r)[j] as real + 0.5
    && 0.0 <= LowRow(r) && 0.0 <= LowStep(j)
  }

  lemma EntryNear(r: int, j: int)
    requires 0 <= r < 16 && 0 <= j < 16
    ensures Near(r, j)
  {
    match r {
      case 0 => Row0Near(j);
      case 1 => Row1Near(j);
      case 2 => Row2Near(j);
      case 3 => Row3Near(j);
      case 4 => Row4Near(j);
      case 5 => Row5Near(j);
      case 6 => Row6Near(j);
      case 7 => Row7Near(j);
      case 8 => Row8Near(j);
      case 9 => Row9Near(j);
      case 10 => Row10Near(j);
      case 11 => Row11Near(j);
      case 12 => Row12Near(j);
      case 13 => Row13Near(j);
      case 14 => Row14Near(j);
      case _ => Row15Near(j);
    }
  }

  lemma Row0Near(j: int)
    requires 0 <= j < 16
    ensures Near(0, j)
  {
  }

  lemma Row1Near(j: int)
    requires 0 <= j < 16
    ensures Near(1, j)
  {
  }

  lemma Row2Near(j: int)
    requires 0 <= j < 16
    ensures Near(2, j)
  {
  }

  lemma Row3Near(j: int)
    requires 0 <= j < 16
    ensures Near(3, j)
  {
  }

  lemma Row4Near(j: int)
    requires 0 <= j < 16
    ensures Near(4, j)
  {
  }

  lemma Row5Near(j: int)
    requires 0 <= j < 16
    ensures Near(5, j)
  {
  }

  lemma Row6Near(j: int)
    requires 0 <= j < 16
    ensures Near(6, j)
  {
  }

  lemma Row7Near(j: int)
    requires 0 <= j < 16
    ensures Near(7, j)
  {
  }

  lemma Row8Near(j: int)
    requires 0 <= j < 16
    ensures Near(8, j)
  {
  }

  lemma Row9Near(j: int)
    requires 0 <= j < 16
    ensures Near(9, j)
  {
  }

  lemma Row10Near(j: int)
    requires 0 <= j < 16
    ensures Near(10, j)
  {
  }

  lemma Row11Near(j: int)
    requires 0 <= j < 16
    ensures Near(11, j)
  {
  }

  lemma Row12Near(j: int)
    requires 0 <= j < 16
    ensures Near(12, j)
  {
  }

  lemma Row13Near(j: int)
    requires 0 <= j < 16
    ensures Near(13, j)
  {
  }

  lemma Row14Near(j: int)
    requires 0 <= j < 16
    ensures Near(14, j)
  {
  }

  lemma Row15Near(j: int)
    requires 0 <= j < 16
    ensures Near(15, j)
  {
  }

  /** Every entry is 255 * q^d to the nearest whole number, for e to the -1/46 and everything that agrees with it to six
      places: the table is the rounded exponential its generator says it is. */
  lemma NearestExponential(d: Byte, q: real)
    requires IsBase(q)
    ensures -0.5 <= Exp(d) as real - 255.0 * Power(q, d) <= 0.5
  {
    hide Row, Power;
    EntryNearest(d / 16, d % 16, q);
    assert 16 * (d / 16) + d % 16 == d;
  }

  lemma EntryNearest(r: nat, j: nat, q: real)
    requires IsBase(q) && r < 16 && j < 16
    ensures -0.5 <= Row(r)[j] as real - 255.0 * Power(q, 16 * r + j) <= 0.5
  {
    hide Row, LowStep, HighStep, LowRow, HighRow, Power, Near;
    RowPower(q, r);
    StepPower(q, j);
    EntryNear(r, j);
    PowerSplit(q, 16 * r, j);
    Rounds(r, j, Power(q, 16 * r), Power(q, j));
  }

  lemma Rounds(r: int, j: int, x: real, y: real)
    requires 0 <= r < 16 && 0 <= j < 16 && Near(r, j)
    requires LowRow(r) <= x <= HighRow(r) && LowStep(j) <= y <= HighStep(j)
    ensures -0.5 <= Row(r)[j] as real - 255.0 * (x * y) <= 0.5
  {
    hide Row, LowStep, HighStep, LowRow, HighRow;
    Between(x, y, LowRow(r), HighRow(r), LowStep(j), HighStep(j));
  }

  // ---------------------------------------------------------------- what is computed

  function Max(x: seq<Int8>): Int8
    requires x != []
  {
    if |x| == 1 then x[0]
    else if x[|x| - 1] > Max(x[..|x| - 1]) then x[|x| - 1] else Max(x[..|x| - 1])
  }

  lemma {:induction false} MaxIsLargest(x: seq<Int8>)
    requires x != []
    ensures Max(x) in x && forall i :: 0 <= i < |x| ==> x[i] <= Max(x)
  {
    if |x| > 1 {
      var y := x[..|x| - 1];
      MaxIsLargest(y);
      assert forall i :: 0 <= i < |y| ==> x[i] == y[i];
    }
  }

  /** The maximum is the only element no other exceeds. */
  lemma MaxIsUnique(x: seq<Int8>, m: int)
    requires m in x && forall i :: 0 <= i < |x| ==> x[i] <= m
    ensures Max(x) == m
  {
    MaxIsLargest(x);
  }

  /** The exponential of element i. */
  function Weight(x: seq<Int8>, i: nat): Byte
    requires i < |x|
  {
    MaxIsLargest(x);
    Exp(Max(x) - x[i])
  }

  function Weights(x: seq<Int8>): (w: seq<Byte>)
    ensures |w| == |x|
  {
    seq<Byte>(|x|, i requires 0 <= i < |x| => Weight(x, i))
  }

  function Sum(s: seq<int>): int {
    if s == [] then 0 else Sum(s[..|s| - 1]) + s[|s| - 1]
  }

  /** (exp * recip) >> 8, kept in eight bits. */
  function Normalised(w: Byte, recip: nat): Byte {
    (Product(w, recip) / 256) % 256
  }

  /** 65536 / sum; the sum is never 0 (TotalAtLeast). */
  function Recip(x: seq<Int8>): nat {
    if Sum(Weights(x)) > 0 then 0x1_0000 / Sum(Weights(x)) else 0
  }

  function Softmax(x: seq<Int8>): (out: seq<Byte>)
    requires x != []
    ensures |out| == |x|
  {
    seq<Byte>(|x|, i requires 0 <= i < |x| => Normalised(Weight(x, i), Recip(x)))
  }

  lemma {:induction false} SumAtLeast(s: seq<Byte>, i: nat)
    requires i < |s|
    ensures s[i] <= Sum(s)
  {
    SumNonNegative(s[..|s| - 1]);
    if i < |s| - 1 {
      SumAtLeast(s[..|s| - 1], i);
    }
  }

  lemma {:induction false} SumNonNegative(s: seq<Byte>)
    ensures 0 <= Sum(s) <= 255 * |s|
  {
    if s != [] {
      SumNonNegative(s[..|s| - 1]);
    }
  }

  /** The largest element contributes 255, so the divisor is never small. */
  lemma TotalAtLeast(x: seq<Int8>)
    requires x != []
    ensures 255 <= Sum(Weights(x)) <= 255 * |x|
  {
    hide Sum, Max, Exp;
    MaxIsLargest(x);
    var i :| 0 <= i < |x| && x[i] == Max(x);
    ExpRange(0);
    SumAtLeast(Weights(x), i);
    SumNonNegative(Weights(x));
  }

  // ---------------------------------------------------------------- properties

  /** The reciprocal is at most 257, and it times the sum misses 65536 by less than the sum. */
  lemma RecipBounds(x: seq<Int8>)
    requires x != []
    ensures 0x1_0000 - Sum(Weights(x)) < Product(Sum(Weights(x)), Recip(x)) <= 0x1_0000
    ensures Recip(x) <= 257
  {
    hide Sum, Weights;
    TotalAtLeast(x);
    QuotientBounds(Sum(Weights(x)));
  }

  lemma QuotientBounds(n: int)
    requires 255 <= n
    ensures 0x1_0000 - n < Product(n, 0x1_0000 / n) <= 0x1_0000
    ensures 0x1_0000 / n <= 257
  {
    var q := 0x1_0000 / n;
    assert q * n + 0x1_0000 % n == 0x1_0000;
    if q >= 258 {
      Monotone(258, q, n);
    }
  }

  /** The eight-bit cast loses nothing: the output is the product divided by 256. */
  lemma NoTruncation(x: seq<Int8>, i: nat)
    requires i < |x|
    ensures var p: int, o: int := Product(Weights(x)[i], Recip(x)), Softmax(x)[i];
            0 <= p < 0x1_0000 && 256 * o <= p < 256 * o + 256
  {
    hide Weight, Recip, Product, Normalised;
    RecipBounds(x);
    ByteProduct(Weight(x, i), Recip(x));
  }

  lemma ByteProduct(w: Byte, r: nat)
    requires r <= 257
    ensures 0 <= Product(w, r) < 0x1_0000
    ensures 256 * Normalised(w, r) <= Product(w, r) < 256 * Normalised(w, r) + 256
  {
    ProductFits16(w, r);
    var p := Product(w, r);
    hide Product;
    HighByte(p);
  }

  lemma ProductFits16(w: Byte, r: nat)
    requires r <= 257
    ensures 0 <= Product(w, r) <= 65535
  {
    Monotone(w, 255, r);
  }

  lemma HighByte(p: int)
    requires 0 <= p <= 65535
    ensures 256 * ((p / 256) % 256) <= p < 256 * ((p / 256) % 256) + 256
  {
    assert p / 256 < 256;
  }

  lemma {:induction false} PartialTotal(x: seq<Int8>, k: nat)
    requires x != [] && k <= |x|
    ensures var p := Product(Sum(Weights(x)[..k]), Recip(x));
            p - 255 * k <= 256 * Sum(Softmax(x)[..k]) <= p
  {
    hide Weights, Softmax, Recip, Product;
    var w, out := Weights(x), Softmax(x);
    if k == 0 {
      ProductZero(Recip(x));
    } else {
      PartialTotal(x, k - 1);
      NoTruncation(x, k - 1);
      assert w[..k][..k - 1] == w[..k - 1] && out[..k][..k - 1] == out[..k - 1];
      ProductSplit(Sum(w[..k - 1]), w[k - 1], Recip(x));
    }
  }

  lemma ProductZero(r: int)
    ensures Product(0, r) == 0
  {
  }

  lemma ProductSplit(a: int, b: int, r: int)
    ensures Product(a + b, r) == Product(a, r) + Product(b, r)
  {
  }

  /** The outputs add up to one, in units of 1/256, less the rounding: one part for the reciprocal and at most
      255/256 for each output. */
  lemma OutputsSumToOne(x: seq<Int8>)
    requires x != []
    ensures 0x1_0001 - Sum(Weights(x)) - 255 * |x| <= 256 * Sum(Softmax(x)) <= 0x1_0000
  {
    hide Weights, Softmax, Recip, Product, Sum;
    PartialTotal(x, |x|);
    assert Weights(x)[..|x|] == Weights(x) && Softmax(x)[..|x|] == Softmax(x);
    RecipBounds(x);
  }

  /** Larger inputs never get smaller outputs. */
  lemma OrderPreserved(x: seq<Int8>, i: nat, j: nat)
    requires i < |x| && j < |x| && x[i] >= x[j]
    ensures Softmax(x)[i] >= Softmax(x)[j]
  {
    hide Recip, Exp, Max, Sum;
    MaxIsLargest(x);
    ExpFalls(Max(x) - x[i], Max(x) - x[j]);
    RecipBounds(x);
    SmallerProduct(Weight(x, j), Weight(x, i), Recip(x));
  }

  lemma SmallerProduct(v: Byte, w: Byte, r: nat)
    requires v <= w && r <= 257
    ensures Normalised(v, r) <= Normalised(w, r)
  {
    hide Normalised;
    ByteProduct(v, r);
    ByteProduct(w, r);
    Monotone(v, w, r);
    assert Product(v, r) <= Product(w, r);
  }

  /** Adding a constant to every input, within int8, changes no output. */
  lemma ShiftInvariant(x: seq<Int8>, y: seq<Int8>, c: int)
    requires x != [] && |y| == |x|
    requires forall i :: 0 <= i < |x| ==> y[i] == x[i] + c
    ensures Softmax(y) == Softmax(x)
  {
    hide Max, Exp, Sum, Normalised;
    MaxIsLargest(x);
    var i :| 0 <= i < |x| && x[i] == Max(x);
    assert y[i] == Max(x) + c;
    MaxIsUnique(y, Max(x) + c);
    assert Weights(y) == Weights(x);
  }

  // ---------------------------------------------------------------- the two reference programs

  /** 1 << b. */
  function Bit(b: nat): nat {
    if b == 0 then 1 else 2 * Bit(b - 1)
  }

  /** quot | (1 << b). */
  function SetBit(quot: nat, b: nat): nat {
    Positive(b);
    if (quot / Bit(b)) % 2 == 1 then quot else quot + Bit(b)
  }

  lemma {:induction false} Positive(b: nat)
    ensures Bit(b) > 0
  {
    if b > 0 {
      Positive(b - 1);
    }
  }

  /** The leading bits of 65536, bit 16 down to bit b + 1. */
  function Dividend(b: int): nat
    requires -1 <= b <= 16
  {
    if b == 16 then 0 else Bit(15 - b)
  }

  lemma DividendStep(b: int)
    requires 0 <= b <= 16
    ensures Dividend(b - 1) == 2 * Dividend(b) + if b == 16 then 1 else 0
    ensures Dividend(b - 1) <= 0x1_0000
  {
    BitAtMost(15 - (b - 1));
  }

  lemma {:induction false} BitGrows(k: nat, j: nat)
    requires k <= j
    ensures Bit(k) <= Bit(j)
  {
    if k < j {
      BitGrows(k, j - 1);
      Positive(j - 1);
    }
  }

  lemma BitAtMost(k: nat)
    requires k <= 16
    ensures Bit(k) <= 0x1_0000 && Bit(16) == 0x1_0000
  {
    BitGrows(k, 16);
    assert Bit(2) == 4 && Bit(4) == 16 && Bit(6) == 64 && Bit(8) == 256;
    assert Bit(10) == 1024 && Bit(12) == 4096 && Bit(14) == 16384;
  }

  /** Bit b of q << (b + 1) is clear, so setting it adds it. */
  lemma SetBitAdds(q: nat, b: nat)
    ensures SetBit(Product(q, Bit(b + 1)), b) == Product(2 * q + 1, Bit(b))
    ensures Product(q, Bit(b + 1)) == Product(2 * q, Bit(b))
  {
    Positive(b);
    assert q * (2 * Bit(b)) == (2 * q) * Bit(b);
    CellDecode(2 * q, 0, Bit(b));
    assert (2 * q + 1) * Bit(b) == (2 * q) * Bit(b) + Bit(b);
  }

  /** One step of the division keeps quotient * sum + remainder equal to the bits brought down. */
  lemma DivisionStep(q: nat, rem: nat, sum: nat, bit: nat)
    ensures Cell(2 * q, 2 * rem + bit, sum) == 2 * Cell(q, rem, sum) + bit
    ensures Cell(2 * q + 1, 2 * rem + bit - sum, sum) == 2 * Cell(q, rem, sum) + bit
    ensures rem <= Cell(q, rem, sum) && Cell(0, 0, sum) == 0 && Product(0, Bit(17)) == 0
  {
    assert (2 * q) * sum == 2 * (q * sum);
    assert (2 * q + 1) * sum == 2 * (q * sum) + sum;
    assert 0 <= q * sum;
  }

  /** The loop, seventeen steps from bit 16 down; `q` is the number its quotient bits so far spell. */
  method RestoringReciprocal(sum: Word) returns (quot: nat)
    requires sum >= 1
    ensures quot == 0x1_0000 / sum
  {
    hide Bit, SetBit, Cell, Dividend, Product;
    var rem: Word := 0;
    quot := 0;
    var b := 16;
    ghost var q: nat := 0;
    DivisionStep(0, 0, sum, 0);
    FirstDividend();
    while b >= 0
      invariant -1 <= b <= 16 && rem < sum
      invariant Cell(q, rem, sum) == Dividend(b)
      invariant quot == Product(q, Bit(b + 1))
    {
      DivisionStep(q, rem, sum, if b == 16 then 1 else 0);
      DividendStep(b);
      SetBitAdds(q, b);
      var newRem: Word := 2 * rem + if b == 16 then 1 else 0;
      if newRem >= sum {
        rem := newRem - sum;
        quot := SetBit(quot, b);
        q := 2 * q + 1;
      } else {
        rem := newRem;
        q := 2 * q;
      }
      b := b - 1;
    }
    LastQuotient(q, rem, sum);
  }

  lemma FirstDividend()
    ensures Dividend(16) == 0
  {
  }

  lemma LastQuotient(q: nat, rem: nat, sum: nat)
    requires rem < sum && Cell(q, rem, sum) == Dividend(-1)
    ensures Product(q, Bit(0)) == q == 0x1_0000 / sum
  {
    BitAtMost(16);
    CellDecode(q, rem, sum);
  }

  /** Both programs' first loop. */
  method FindMax(x: seq<Int8>) returns (m: Int8)
    requires x != []
    ensures m == Max(x)
  {
    hide Max;
    m := x[0];
    for i := 1 to |x|
      invariant m in x && forall j :: 0 <= j < i ==> x[j] <= m
    {
      if x[i] > m {
        m := x[i];
      }
    }
    MaxIsUnique(x, m);
  }

  /** Their second: the table entries and their sum. */
  method Exponentials(x: seq<Int8>, m: Int8, vals: array<Byte>) returns (sum: Word)
    requires 0 < |x| <= 256 && m == Max(x) && vals.Length == 256
    modifies vals
    ensures vals[..|x|] == Weights(x) && sum == Sum(Weights(x))
  {
    hide Exp, Max;
    sum := 0;
    MaxIsLargest(x);
    for i := 0 to |x|
      invariant vals[..i] == Weights(x)[..i] && sum == Sum(Weights(x)[..i])
    {
      vals[i] := Exp(m - x[i]);
      assert Weights(x)[..i + 1] == Weights(x)[..i] + [vals[i]];
      SumNonNegative(Weights(x)[..i]);
      sum := sum + vals[i];
    }
    assert Weights(x)[..|x|] == Weights(x);
  }

  /** The reference of the softmax test, by direct division. */
  method Reference(x: seq<Int8>, out: array<Byte>)
    requires 0 < |x| <= 256 && out.Length >= |x|
    modifies out
    ensures out[..|x|] == Softmax(x)
    ensures out[|x|..] == old(out[|x|..])
  {
    hide Softmax, Weights, Recip, Normalised;
    var m := FindMax(x);
    var vals := new Byte[256];
    var sum := Exponentials(x, m, vals);
    RecipIs(x);
    var recip := 0x1_0000 / sum;
    for i := 0 to |x|
      invariant out[..i] == Softmax(x)[..i]
      invariant out[|x|..] == old(out[|x|..])
      invariant vals[..|x|] == Weights(x)
    {
      assert vals[i] == vals[..|x|][i];
      SoftmaxAt(x, i);
      out[i] := Normalised(vals[i], recip);
    }
  }

  /** The reference of the stream test, by restoring division. */
  method StreamReference(x: seq<Int8>, out: array<Byte>)
    requires 0 < |x| <= 256 && out.Length >= |x|
    modifies out
    ensures out[..|x|] == Softmax(x)
    ensures out[|x|..] == old(out[|x|..])
  {
    hide Softmax, Weights, Recip, Normalised;
    var m := FindMax(x);
    var vals := new Byte[256];
    var sum := Exponentials(x, m, vals);
    RecipIs(x);
    var recip := RestoringReciprocal(sum);
    for i := 0 to |x|
      invariant out[..i] == Softmax(x)[..i]
      invariant out[|x|..] == old(out[|x|..])
      invariant vals[..|x|] == Weights(x)
    {
      assert vals[i] == vals[..|x|][i];
      SoftmaxAt(x, i);
      out[i] := Normalised(vals[i], recip);
    }
  }

  lemma RecipIs(x: seq<Int8>)
    requires x != []
    ensures Sum(Weights(x)) >= 1 && Recip(x) == 0x1_0000 / Sum(Weights(x))
  {
    TotalAtLeast(x);
  }

  lemma SoftmaxAt(x: seq<Int8>, i: nat)
    requires i < |x|
    ensures Softmax(x)[i] == Normalised(Weights(x)[i], Recip(x))
  {
  }
}
