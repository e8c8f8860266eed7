/** The inverted 39-bit Hsiao code: 32 data bits and 7 check bits. A word is the sequence of its bits, lowest first. */
module Secded {
  import opened EccBits
  import opened Words

  type Word32 = s: seq<bool> | |s| == 32 witness seq(32, _ => false)

  /** Parity of, and number of ones among, the lowest n bits. */
  predicate OddTo(w: seq<bool>, n: nat)
    requires n <= |w|
  {
    if n == 0 then false else OddTo(w, n - 1) != w[n - 1]
  }

  function WeightTo(w: seq<bool>, n: nat): nat
    requires n <= |w|
  {
    if n == 0 then 0 else WeightTo(w, n - 1) + if w[n - 1] then 1 else 0
  }

  predicate Odd(w: seq<bool>) {
    OddTo(w, |w|)
  }

  function Weight(w: seq<bool>): nat {
    WeightTo(w, |w|)
  }

  lemma {:induction false} OddIsWeight(w: seq<bool>, n: nat)
    requires n <= |w|
    ensures OddTo(w, n) == (WeightTo(w, n) % 2 == 1)
  {
    if n > 0 {
      OddIsWeight(w, n - 1);
    }
  }

  /** calc_parity: test the lowest bit and shift right until nothing is left. */
  method CalcParity(word: seq<bool>, invert: bool) returns (r: bool)
    ensures r == (Odd(word) != invert)
  {
    var parity, w := false, word;
    ghost var i := 0;
    while true in w
      invariant 0 <= i <= |word| && w == word[i..] && parity == OddTo(word, i)
      decreases |w|
    {
      if w[0] {
        parity := !parity;
      }
      w := w[1..];
      i := i + 1;
    }
    assert forall k :: i <= k < |word| ==> word[k] == w[k - i];
    NoMoreOnes(word, i, |word|);
    r := parity != invert;
  }

  lemma {:induction false} NoMoreOnes(w: seq<bool>, i: nat, n: nat)
    requires i <= n <= |w| && forall k :: i <= k < |w| ==> !w[k]
    ensures OddTo(w, n) == OddTo(w, i)
  {
    if i < n {
      NoMoreOnes(w, i, n - 1);
    }
  }

  function And(a: Word32, b: Word32): Word32 {
    seq(32, p requires 0 <= p < 32 => a[p] && b[p])
  }

  function XorWord(a: Word32, b: Word32): Word32 {
    seq(32, p requires 0 <= p < 32 => a[p] != b[p])
  }

  // ---------------------------------------------------------------- the code

  /** Bit p of the mask of row r. */
  predicate InMask(r: nat, p: nat)
    requires r < 7
  {
    match r
    case 0 => p in {0, 2, 5, 8, 10, 11, 12, 13, 15, 17, 18, 25, 26, 29}
    case 1 => p in {4, 6, 15, 17, 19, 20, 21, 23, 25, 26, 27, 28, 30, 31}
    case 2 => p in {1, 3, 5, 7, 8, 11, 15, 16, 18, 19, 20, 21, 24, 30}
    case 3 => p in {0, 4, 6, 7, 9, 10, 11, 14, 16, 17, 21, 24, 28, 29}
    case 4 => p in {0, 1, 3, 4, 5, 9, 12, 13, 16, 22, 23, 25, 30, 31}
    case 5 => p in {2, 3, 6, 9, 13, 14, 18, 19, 22, 23, 24, 26, 27, 29}
    case _ => p in {1, 2, 7, 8, 10, 12, 14, 20, 22, 27, 28, 31}
  }

  function Mask(r: nat): Word32
    requires r < 7
  {
    seq(32, p => 0 <= p && InMask(r, p))
  }

  /** The masks as the program writes them. */
  function MaskLiteral(r: nat): nat {
    match r
    case 0 => 0x2606bd25
    case 1 => 0xdeba8050
    case 2 => 0x413d89aa
    case 3 => 0x31234ed1
    case 4 => 0xc2c1323b
    case 5 => 0x2dcc624c
    case _ => 0x98505586
  }

  /** Bits n .. n + 3 as a hexadecimal digit. */
  function Digit(r: nat, n: nat): nat
    requires r < 7
  {
    (if InMask(r, n) then 1 else 0) + (if InMask(r, n + 1) then 2 else 0)
    + (if InMask(r, n + 2) then 4 else 0) + if InMask(r, n + 3) then 8 else 0
  }

  lemma NextBit(w: Word32, n: nat)
    requires n < 32
    ensures Value(w[n..]) == (if w[n] then 1 else 0) + 2 * Value(w[n + 1..])
  {
    assert w[n..][1..] == w[n + 1..];
  }

  lemma NextDigit(r: nat, n: nat)
    requires r < 7 && n <= 28
    ensures Value(Mask(r)[n..]) == Digit(r, n) + 16 * Value(Mask(r)[n + 4..])
  {
    hide InMask, Value;
    var w := Mask(r);
    NextBit(w, n);
    NextBit(w, n + 1);
    NextBit(w, n + 2);
    NextBit(w, n + 3);
  }

  /** The rows of the code are the program's masks. */
  lemma MaskIsLiteral(r: nat)
    requires r < 7
    ensures Value(Mask(r)) == MaskLiteral(r)
  {
    hide Mask, InMask, Digit;
    assert Mask(r)[0..] == Mask(r) && Mask(r)[32..] == [];
    NextDigit(r, 0);
    NextDigit(r, 4);
    NextDigit(r, 8);
    NextDigit(r, 12);
    NextDigit(r, 16);
    NextDigit(r, 20);
    NextDigit(r, 24);
    NextDigit(r, 28);
    LowDigits(r);
    HighDigits(r);
  }

  lemma LowDigits(r: nat)
    requires r < 7
    ensures Digit(r, 0) + 16 * Digit(r, 4) + 256 * Digit(r, 8) + 4096 * Digit(r, 12) == MaskLiteral(r) % 0x1_0000
  {
    hide Digit, MaskLiteral;
    if r < 4 {
      EarlyDigits(r);
    } else {
      LateDigits(r);
    }
  }

  lemma EarlyDigits(r: nat)
    requires r < 4
    ensures Digit(r, 0) + 16 * Digit(r, 4) + 256 * Digit(r, 8) + 4096 * Digit(r, 12) == MaskLiteral(r) % 0x1_0000
  {
    hide Digit, MaskLiteral;
    if r < 2 {
      FirstDigits(r);
    } else {
      SecondDigits(r);
    }
  }

  lemma FirstDigits(r: nat)
    requires r < 2
    ensures Digit(r, 0) + 16 * Digit(r, 4) + 256 * Digit(r, 8) + 4096 * Digit(r, 12) == MaskLiteral(r) % 0x1_0000
  {
  }

  lemma SecondDigits(r: nat)
    requires 2 <= r < 4
    ensures Digit(r, 0) + 16 * Digit(r, 4) + 256 * Digit(r, 8) + 4096 * Digit(r, 12) == MaskLiteral(r) % 0x1_0000
  {
  }

  lemma LateDigits(r: nat)
    requires 4 <= r < 7
    ensures Digit(r, 0) + 16 * Digit(r, 4) + 256 * Digit(r, 8) + 4096 * Digit(r, 12) == MaskLiteral(r) % 0x1_0000
  {
  }

  lemma HighDigits(r: nat)
    requires r < 7
    ensures Digit(r, 16) + 16 * Digit(r, 20) + 256 * Digit(r, 24) + 4096 * Digit(r, 28) == MaskLiteral(r) / 0x1_0000
  {
  }

  /** The rows whose parity the encoder inverts. */
  predicate Inverted(r: nat) {
    r == 1 || r == 3 || r == 5
  }

  predicate RowParity(w: Word32, r: nat)
    requires r < 7
  {
    Odd(And(w, Mask(r)))
  }

  /** The check bits of a data word, in the low seven bits of a byte. */
  function Encode(w: Word32): Byte {
    seq(8, r => 0 <= r < 7 && RowParity(w, r) != Inverted(r))
  }

  /** The same without the inversions. */
  function Linear(w: Word32): Byte {
    seq(8, r => 0 <= r < 7 && RowParity(w, r))
  }

  /** The four data bytes as a word, lowest first. */
  function WordOf(bytes: seq<Byte>): Word32
    requires |bytes| == 4
  {
    seq(32, p requires 0 <= p < 32 => bytes[p / 8][p % 8])
  }

  /** enc_secded_inv_39_32. */
  method EncSecdedInv(bytes: seq<Byte>) returns (check: Byte)
    requires |bytes| == 4
    ensures check == Encode(WordOf(bytes))
  {
    hide Odd, WordOf, And, Mask;
    var word := WordOf(bytes);
    var p0 := CalcParity(And(word, Mask(0)), false);
    var p1 := CalcParity(And(word, Mask(1)), true);
    var p2 := CalcParity(And(word, Mask(2)), false);
    var p3 := CalcParity(And(word, Mask(3)), true);
    var p4 := CalcParity(And(word, Mask(4)), false);
    var p5 := CalcParity(And(word, Mask(5)), true);
    var p6 := CalcParity(And(word, Mask(6)), false);
    check := [p0, p1, p2, p3, p4, p5, p6, false];
  }

  /** The masks in the program's own digits. */
  lemma MasksAre()
    ensures Value(Mask(0)) == 0x2606bd25 && Value(Mask(1)) == 0xdeba8050 && Value(Mask(2)) == 0x413d89aa
    ensures Value(Mask(3)) == 0x31234ed1 && Value(Mask(4)) == 0xc2c1323b && Value(Mask(5)) == 0x2dcc624c
    ensures Value(Mask(6)) == 0x98505586
  {
    hide Mask, Value;
    MaskIsLiteral(0);
    MaskIsLiteral(1);
    MaskIsLiteral(2);
    MaskIsLiteral(3);
    MaskIsLiteral(4);
    MaskIsLiteral(5);
    MaskIsLiteral(6);
  }

  /** The check bits of the zero word: 0x2A. With EncodeXor and MasksAre this fixes the code. */
  lemma ZeroWord(w: Word32)
    requires forall p :: 0 <= p < 32 ==> !w[p]
    ensures Encode(w) == [false, true, false, true, false, true, false, false]
  {
    hide OddTo, Mask;
    forall r: nat | r < 7
      ensures !RowParity(w, r)
    {
      NoMoreOnes(And(w, Mask(r)), 0, 32);
      NoneYet(And(w, Mask(r)));
    }
  }

  lemma NoneYet(w: Word32)
    ensures !OddTo(w, 0)
  {
  }

  lemma FourMore(w: Word32, n: nat)
    requires n + 4 <= 32
    ensures OddTo(w, n + 4) == (OddTo(w, n) != (w[n] != (w[n + 1] != (w[n + 2] != w[n + 3]))))
  {
    assert OddTo(w, n + 2) == ((OddTo(w, n) != w[n]) != w[n + 1]);
  }

  /** Row 0 covers an even number of data bits, so the word of ones has check bit 0 clear. */
  lemma OnesWord(w: Word32)
    requires forall p :: 0 <= p < 32 ==> w[p]
    ensures !Encode(w)[0]
  {
    hide OddTo, InMask;
    var a := And(w, Mask(0));
    assert IsRowZero(a);
    hide Mask, And, IsRowZero;
    LowHalf(a);
    HighHalf(a);
  }

  predicate IsRowZero(a: Word32) {
    forall p: nat :: p < 32 ==> a[p] == InMask(0, p)
  }

  lemma LowHalf(a: Word32)
    requires IsRowZero(a)
    ensures OddTo(a, 16)
  {
    hide OddTo;
    NoneYet(a);
    FourMore(a, 0);
    FourMore(a, 4);
    FourMore(a, 8);
    FourMore(a, 12);
  }

  lemma HighHalf(a: Word32)
    requires IsRowZero(a) && OddTo(a, 16)
    ensures !OddTo(a, 32)
  {
    hide OddTo;
    FourMore(a, 16);
    FourMore(a, 20);
    FourMore(a, 24);
    FourMore(a, 28);
  }

  // ---------------------------------------------------------------- linearity

  lemma {:induction false} RowXor(a: Word32, b: Word32, r: nat, n: nat)
    requires r < 7 && n <= 32
    ensures OddTo(And(XorWord(a, b), Mask(r)), n) == (OddTo(And(a, Mask(r)), n) != OddTo(And(b, Mask(r)), n))
  {
    hide Mask;
    if n > 0 {
      RowXor(a, b, r, n - 1);
    }
  }

  /** The code is affine: changing the data by d changes the check bits by Linear(d), whatever the data. */
  lemma EncodeXor(w: Word32, d: Word32)
    ensures Encode(XorWord(w, d)) == Xor(Encode(w), Linear(d))
  {
    hide OddTo, And, XorWord, Mask;
    forall r: nat | r < 7 ensures RowParity(XorWord(w, d), r) == (RowParity(w, r) != RowParity(d, r)) {
      RowXor(w, d, r, 32);
    }
  }

  // ---------------------------------------------------------------- the columns

  datatype Rows = Rows(a: nat, b: nat, c: nat)

  /** The three rows that data bit p is part of. */
  function Column(p: nat): Rows
    requires p < 32
  {
    if p == 0 then Rows(0, 3, 4) else if p == 1 then Rows(2, 4, 6)
    else if p == 2 then Rows(0, 5, 6) else if p == 3 then Rows(2, 4, 5)
    else if p == 4 then Rows(1, 3, 4) else if p == 5 then Rows(0, 2, 4)
    else if p == 6 then Rows(1, 3, 5) else if p == 7 then Rows(2, 3, 6)
    else if p == 8 then Rows(0, 2, 6) else if p == 9 then Rows(3, 4, 5)
    else if p == 10 then Rows(0, 3, 6) else if p == 11 then Rows(0, 2, 3)
    else if p == 12 then Rows(0, 4, 6) else if p == 13 then Rows(0, 4, 5)
    else if p == 14 then Rows(3, 5, 6) else if p == 15 then Rows(0, 1, 2)
    else if p == 16 then Rows(2, 3, 4) else if p == 17 then Rows(0, 1, 3)
    else if p == 18 then Rows(0, 2, 5) else if p == 19 then Rows(1, 2, 5)
    else if p == 20 then Rows(1, 2, 6) else if p == 21 then Rows(1, 2, 3)
    else if p == 22 then Rows(4, 5, 6) else if p == 23 then Rows(1, 4, 5)
    else if p == 24 then Rows(2, 3, 5) else if p == 25 then Rows(0, 1, 4)
    else if p == 26 then Rows(0, 1, 5) else if p == 27 then Rows(1, 5, 6)
    else if p == 28 then Rows(1, 3, 6) else if p == 29 then Rows(0, 3, 5)
    else if p == 30 then Rows(1, 2, 4) else Rows(1, 4, 6)
  }

  lemma ColumnIs(p: nat, r: nat)
    requires p < 32 && r < 7
    ensures InMask(r, p) <==> r == Column(p).a || r == Column(p).b || r == Column(p).c
    ensures Column(p).a < Column(p).b < Column(p).c < 7
  {
  }

  /** Parity of the number of rows below k that data bit p is part of. */
  predicate OddRows(p: nat, k: nat)
    requires k <= 7
  {
    if k == 0 then false else OddRows(p, k - 1) != InMask(k - 1, p)
  }

  lemma {:induction false} OddRowsIs(p: nat, k: nat)
    requires p < 32 && k <= 7
    ensures OddRows(p, k) == (((Column(p).a < k) != (Column(p).b < k)) != (Column(p).c < k))
  {
    hide Column, InMask;
    if k > 0 {
      OddRowsIs(p, k - 1);
      ColumnIs(p, k - 1);
    } else {
      ColumnIs(p, 0);
    }
  }

  lemma ColumnOdd(p: nat)
    requires p < 32
    ensures OddRows(p, 7)
  {
    hide Column, InMask, OddRows;
    OddRowsIs(p, 7);
    ColumnIs(p, 0);
  }

  /** Parity, over the rows below k, of the parities of the first n data bits. */
  predicate RowsTo(d: Word32, n: nat, k: nat)
    requires n <= 32 && k <= 7
  {
    if k == 0 then false else RowsTo(d, n, k - 1) != OddTo(And(d, Mask(k - 1)), n)
  }

  lemma {:induction false} RowsStep(d: Word32, n: nat, k: nat)
    requires n < 32 && k <= 7
    ensures RowsTo(d, n + 1, k) == (RowsTo(d, n, k) != (d[n] && OddRows(n, k)))
  {
    hide InMask;
    if k > 0 {
      RowsStep(d, n, k - 1);
      assert And(d, Mask(k - 1))[n] == (d[n] && InMask(k - 1, n));
    }
  }

  lemma {:induction false} NoBitsNoRows(d: Word32, k: nat)
    requires k <= 7
    ensures !RowsTo(d, 0, k)
  {
    if k > 0 {
      NoBitsNoRows(d, k - 1);
    }
  }

  /** Every column has odd weight: the row parities add up to the parity of the data. */
  lemma {:induction false} RowsAddUp(d: Word32, n: nat)
    requires n <= 32
    ensures RowsTo(d, n, 7) == OddTo(d, n)
  {
    hide OddRows, RowsTo;
    if n > 0 {
      RowsAddUp(d, n - 1);
      RowsStep(d, n - 1, 7);
      ColumnOdd(n - 1);
    } else {
      NoBitsNoRows(d, 7);
    }
  }

  lemma {:induction false} ChecksAddUp(d: Word32, k: nat)
    requires k <= 7
    ensures OddTo(Linear(d), k) == RowsTo(d, 32, k)
  {
    hide And, Mask;
    if k > 0 {
      ChecksAddUp(d, k - 1);
    }
  }

  // ---------------------------------------------------------------- what the code detects

  /** Flip pattern: d over the 32 data bits, c over the 7 check bits. */
  function Flips(d: Word32, c: Byte): nat {
    Weight(d) + WeightTo(c, 7)
  }

  /** A flipped word passes the check exactly when the flips form a codeword of the linear code. */
  lemma PassesExactly(w: Word32, d: Word32, c: Byte)
    requires !c[7]
    ensures Encode(XorWord(w, d)) == Xor(Encode(w), c) <==> c == Linear(d)
  {
    EncodeXor(w, d);
    hide Encode, Linear, XorWord;
    var e, l := Encode(w), Linear(d);
    if Xor(e, l) == Xor(e, c) {
      forall k | 0 <= k < 8 ensures l[k] == c[k] {
        assert Xor(e, l)[k] == Xor(e, c)[k];
      }
    }
  }

  /** Codewords have even weight. */
  lemma CodewordsAreEven(d: Word32)
    ensures Flips(d, Linear(d)) % 2 == 0
  {
    hide Linear, OddTo, WeightTo;
    RowsAddUp(d, 32);
    ChecksAddUp(d, 7);
    OddIsWeight(d, 32);
    OddIsWeight(Linear(d), 7);
  }

  lemma {:induction false} NoOnes(w: seq<bool>, n: nat)
    requires n <= |w|
    ensures WeightTo(w, n) == 0 <==> forall k :: 0 <= k < n ==> !w[k]
  {
    if n > 0 {
      NoOnes(w, n - 1);
    }
  }

  lemma {:induction false} OneOne(w: seq<bool>, n: nat) returns (p: nat)
    requires n <= |w| && WeightTo(w, n) == 1
    ensures p < n && w[p] && forall k :: 0 <= k < n && k != p ==> !w[k]
  {
    if w[n - 1] {
      NoOnes(w, n - 1);
      p := n - 1;
    } else {
      p := OneOne(w, n - 1);
    }
  }

  lemma {:induction false} TwoOnes(w: seq<bool>, n: nat) returns (p: nat, q: nat)
    requires n <= |w| && WeightTo(w, n) == 2
    ensures p < q < n && w[p] && w[q] && forall k :: 0 <= k < n && k != p && k != q ==> !w[k]
  {
    if w[n - 1] {
      p := OneOne(w, n - 1);
      q := n - 1;
    } else {
      p, q := TwoOnes(w, n - 1);
    }
  }

  /** Row parities of a data pattern with ones at p and q only. */
  lemma {:induction false} SparseRow(d: Word32, r: nat, n: nat, p: nat, q: nat)
    requires r < 7 && n <= 32 && p < q
    requires forall k :: 0 <= k < n ==> d[k] == (k == p || k == q)
    ensures OddTo(And(d, Mask(r)), n) == ((p < n && InMask(r, p)) != (q < n && InMask(r, q)))
  {
    hide InMask;
    if n > 0 {
      SparseRow(d, r, n - 1, p, q);
      assert And(d, Mask(r))[n - 1] == (d[n - 1] && InMask(r, n - 1));
    }
  }

  /** Which data bit has these three rows. */
  function BitOf(c: Rows): nat {
    if c == Rows(0, 3, 4) then 0 else if c == Rows(2, 4, 6) then 1
    else if c == Rows(0, 5, 6) then 2 else if c == Rows(2, 4, 5) then 3
    else if c == Rows(1, 3, 4) then 4 else if c == Rows(0, 2, 4) then 5
    else if c == Rows(1, 3, 5) then 6 else if c == Rows(2, 3, 6) then 7
    else if c == Rows(0, 2, 6) then 8 else if c == Rows(3, 4, 5) then 9
    else if c == Rows(0, 3, 6) then 10 else if c == Rows(0, 2, 3) then 11
    else if c == Rows(0, 4, 6) then 12 else if c == Rows(0, 4, 5) then 13
    else if c == Rows(3, 5, 6) then 14 else if c == Rows(0, 1, 2) then 15
    else if c == Rows(2, 3, 4) then 16 else if c == Rows(0, 1, 3) then 17
    else if c == Rows(0, 2, 5) then 18 else if c == Rows(1, 2, 5) then 19
    else if c == Rows(1, 2, 6) then 20 else if c == Rows(1, 2, 3) then 21
    else if c == Rows(4, 5, 6) then 22 else if c == Rows(1, 4, 5) then 23
    else if c == Rows(2, 3, 5) then 24 else if c == Rows(0, 1, 4) then 25
    else if c == Rows(0, 1, 5) then 26 else if c == Rows(1, 5, 6) then 27
    else if c == Rows(1, 3, 6) then 28 else if c == Rows(0, 3, 5) then 29 else if c == Rows(1, 2, 4) then 30 else 31
  }

  lemma BitOfColumn(p: nat)
    requires p < 32
    ensures BitOf(Column(p)) == p
  {
  }

  /** Different data bits differ in some row. */
  lemma ColumnsDiffer(p: nat, q: nat) returns (r: nat)
    requires p < q < 32
    ensures r < 7 && InMask(r, p) != InMask(r, q)
  {
    hide Column, InMask, BitOf;
    BitOfColumn(p);
    BitOfColumn(q);
    var x, y := Column(p), Column(q);
    ColumnIs(p, 0);
    ColumnIs(q, 0);
    ColumnIs(p, x.a);
    ColumnIs(q, x.a);
    ColumnIs(p, x.b);
    ColumnIs(q, x.b);
    ColumnIs(p, x.c);
    ColumnIs(q, x.c);
    r := if !InMask(x.a, q) then x.a else if !InMask(x.b, q) then x.b else x.c;
  }

  lemma LinearAt(d: Word32, r: nat)
    requires r < 7
    ensures Linear(d)[r] == OddTo(And(d, Mask(r)), 32)
  {
  }

  /** A codeword never has exactly two ones. */
  lemma NoCodewordOfTwo(d: Word32)
    ensures Flips(d, Linear(d)) != 2
  {
    hide InMask, OddTo, WeightTo, And, Mask, Linear;
    var c := Linear(d);
    if Flips(d, c) == 2 {
      if WeightTo(d, 32) == 2 {
        var p, q := TwoOnes(d, 32);
        NoOnes(c, 7);
        var r := ColumnsDiffer(p, q);
        LinearAt(d, r);
        SparseRow(d, r, 32, p, q);
      } else if WeightTo(d, 32) == 1 {
        var p := OneOne(d, 32);
        var x := OneOne(c, 7);
        var r := OtherRow(p, x);
        LinearAt(d, r);
        SparseRow(d, r, 32, p, 32);
      } else {
        NoOnes(d, 32);
        var x, y := TwoOnes(c, 7);
        LinearAt(d, x);
        SparseRow(d, x, 32, 32, 33);
      }
    }
  }

  /** Every data bit is part of a row other than x. */
  lemma OtherRow(p: nat, x: nat) returns (r: nat)
    requires p < 32
    ensures r < 7 && r != x && InMask(r, p)
  {
    hide Column, InMask;
    var c := Column(p);
    ColumnIs(p, 0);
    ColumnIs(p, c.a);
    ColumnIs(p, c.b);
    r := if c.a != x then c.a else c.b;
  }

  /** One, two or three flipped bits, or any odd number, never pass the check, whatever the data. */
  lemma Detects(w: Word32, d: Word32, c: Byte)
    requires !c[7] && (1 <= Flips(d, c) <= 3 || Flips(d, c) % 2 == 1)
    ensures Encode(XorWord(w, d)) != Xor(Encode(w), c)
  {
    hide Flips, Linear, Encode;
    PassesExactly(w, d, c);
    CodewordsAreEven(d);
    NoCodewordOfTwo(d);
  }

  /** Four flips can pass: data bit 0 together with its three check bits. */
  lemma FourCanPass(w: Word32) returns (d: Word32, c: Byte)
    ensures !c[7] && Flips(d, c) == 4 && Encode(XorWord(w, d)) == Xor(Encode(w), c)
  {
    hide InMask, OddTo, And, Mask, Encode;
    d := seq(32, k => k == 0);
    c := Linear(d);
    PassesExactly(w, d, c);
    forall r: nat | r < 7 ensures c[r] == InMask(r, 0) {
      SparseRow(d, r, 32, 0, 32);
    }
    FourOnes(d, c);
  }

  lemma FourOnes(d: Word32, c: Byte)
    requires forall k :: 0 <= k < 32 ==> d[k] == (k == 0)
    requires forall r: nat :: r < 7 ==> c[r] == InMask(r, 0)
    ensures Flips(d, c) == 4
  {
    WeightStays(d, 1, 32);
    assert c[0] && !c[1] && !c[2] && c[3] && c[4] && !c[5] && !c[6];
    assert WeightTo(d, 1) == 1 && WeightTo(c, 1) == 1;
    assert WeightTo(c, 3) == 1;
    assert WeightTo(c, 5) == 3;
    assert WeightTo(c, 7) == 3;
  }

  lemma {:induction false} WeightStays(w: seq<bool>, i: nat, n: nat)
    requires i <= n <= |w| && forall k :: i <= k < n ==> !w[k]
    ensures WeightTo(w, n) == WeightTo(w, i)
  {
    if i < n {
      WeightStays(w, i, n - 1);
    }
  }
}
