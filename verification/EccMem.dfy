/** Memory rows of 39-bit code words packed back to back, written and read through a 40-byte buffer. */
module EccMem {
  import opened EccBits
  import opened Secded
  import opened Words

  const BUF_BYTES := 40

  /** The n bits of the buffer from bit `at`. */
  function BitsAt(buf: seq<Byte>, at: nat, n: nat): (bits: seq<bool>)
    requires at + n <= 8 * |buf|
    ensures |bits| == n
  {
    seq(n, p requires 0 <= p < n => BitAt(buf, at + p))
  }

  /** A data word with check bits, as stored. */
  function Stored(w: Word32, check: Byte): (bits: seq<bool>)
    ensures |bits| == 39
  {
    w + check[..7]
  }

  /** `after` is `before` with the given bits OR-ed in at bit `at`. */
  predicate OredIn(before: seq<Byte>, after: seq<Byte>, at: nat, bits: seq<bool>) {
    && |after| == |before|
    && forall q :: 0 <= q < 8 * |before| ==>
         BitAt(after, q) == (BitAt(before, q) || (at <= q < at + |bits| && bits[q - at]))
  }

  lemma OredTwice(before: seq<Byte>, middle: seq<Byte>, after: seq<Byte>, at: nat, x: seq<bool>, y: seq<bool>)
    requires OredIn(before, middle, at, x) && OredIn(middle, after, at + |x|, y)
    ensures OredIn(before, after, at, x + y)
  {
    hide BitAt;
  }

  lemma InsertedIsOred(before: seq<Byte>, after: seq<Byte>, at: nat, v: Byte, n: nat)
    requires n <= 8 && Inserted(before, after, at, v, n)
    ensures OredIn(before, after, at, v[..n])
  {
    hide BitAt;
  }

  /** insert_word: four data bytes and seven check bits. */
  method InsertWord(buf: array<Byte>, bitIdx: nat, bytes: seq<Byte>, check: Byte)
    requires |bytes| == 4 && bitIdx + 39 <= 8 * buf.Length
    modifies buf
    ensures OredIn(old(buf[..]), buf[..], bitIdx, Stored(WordOf(bytes), check))
  {
    hide BitAt, OredIn, Inserted, WordOf;
    ghost var before, done := buf[..], [];
    NothingOred(before, bitIdx);
    for i := 0 to 4
      invariant done == BytesOf(bytes, i) && OredIn(before, buf[..], bitIdx, done)
    {
      ghost var middle := buf[..];
      InsertBits(buf, bitIdx + 8 * i, bytes[i], 8);
      InsertedIsOred(middle, buf[..], bitIdx + 8 * i, bytes[i], 8);
      OredTwice(before, middle, buf[..], bitIdx, done, bytes[i][..8]);
      done := done + bytes[i][..8];
    }
    ghost var middle := buf[..];
    InsertBits(buf, bitIdx + 8 * 4, check, 7);
    InsertedIsOred(middle, buf[..], bitIdx + 32, check, 7);
    OredTwice(before, middle, buf[..], bitIdx, done, check[..7]);
    AllBytes(bytes);
  }

  lemma NothingOred(before: seq<Byte>, at: nat)
    ensures OredIn(before, before, at, [])
  {
  }

  function BytesOf(bytes: seq<Byte>, i: nat): (bits: seq<bool>)
    requires i <= |bytes|
    ensures |bits| == 8 * i
  {
    if i == 0 then [] else BytesOf(bytes, i - 1) + bytes[i - 1][..8]
  }

  lemma AllBytes(bytes: seq<Byte>)
    requires |bytes| == 4
    ensures BytesOf(bytes, 4) == WordOf(bytes)
  {
    var b0: seq<bool>, b1: seq<bool>, b2: seq<bool>, b3: seq<bool> := bytes[0], bytes[1], bytes[2], bytes[3];
    assert BytesOf(bytes, 1) == b0;
    assert BytesOf(bytes, 2) == b0 + b1;
    assert BytesOf(bytes, 3) == b0 + b1 + b2;
    assert BytesOf(bytes, 4) == b0 + b1 + b2 + b3;
  }

  /** zero_buffer: enough bytes for width32 words of 39 bits. */
  method ZeroBuffer(buf: array<Byte>, width32: nat)
    requires 1 <= width32 <= 8 && buf.Length == BUF_BYTES
    modifies buf
    ensures forall q :: 0 <= q < 39 * width32 ==> !BitAt(buf[..], q)
  {
    var physSizeBytes := (39 * width32 + 7) / 8;
    for i := 0 to physSizeBytes
      invariant forall k :: 0 <= k < i ==> buf[k] == ZERO
    {
      buf[i] := ZERO;
    }
  }

  /** Words 0 .. n-1 of the row are stored; the bits of the words after them are still zero. */
  ghost predicate RowTo(buf: seq<Byte>, codes: seq<seq<bool>>, n: nat)
    requires n <= |codes| && 39 * |codes| <= 8 * |buf|
  {
    && (forall i :: 0 <= i < n ==> BitsAt(buf, 39 * i, 39) == codes[i])
    && (forall q :: 39 * n <= q < 39 * |codes| ==> !BitAt(buf, q))
  }

  lemma RowGrows(before: seq<Byte>, after: seq<Byte>, codes: seq<seq<bool>>, n: nat)
    requires n < |codes| && 39 * |codes| <= 8 * |before| && |codes[n]| == 39
    requires RowTo(before, codes, n) && OredIn(before, after, 39 * n, codes[n])
    ensures RowTo(after, codes, n + 1)
  {
    hide BitAt;
    forall i | 0 <= i < n + 1 ensures BitsAt(after, 39 * i, 39) == codes[i] {
      if i < n {
        assert BitsAt(after, 39 * i, 39) == BitsAt(before, 39 * i, 39);
      }
    }
  }

  /** The word at byte `start` of data. */
  function DataWord(data: seq<Byte>, start: nat): Word32
    requires start + 4 <= |data|
  {
    WordOf(data[start..start + 4])
  }

  /** Code words of the row that starts at byte `start` of data. */
  function RowCodes(data: seq<Byte>, start: nat, width32: nat): seq<seq<bool>>
    requires start + 4 * width32 <= |data|
  {
    seq(width32, i requires 0 <= i < width32 => Code(DataWord(data, start + 4 * i)))
  }

  function Code(w: Word32): (bits: seq<bool>)
    ensures |bits| == 39
  {
    Stored(w, Encode(w))
  }

  /** WriteBuffer: the row is the code words of its data, whatever the buffer held before. */
  method WriteBuffer(buf: array<Byte>, data: seq<Byte>, start: nat, width32: nat)
    requires 1 <= width32 <= 8 && buf.Length == BUF_BYTES && start + 4 * width32 <= |data|
    modifies buf
    ensures RowTo(buf[..], RowCodes(data, start, width32), width32)
  {
    hide BitAt, OredIn, RowTo, Code, Stored, Encode, WordOf;
    ghost var codes := RowCodes(data, start, width32);
    ZeroBuffer(buf, width32);
    RowEmpty(buf[..], codes);
    for i := 0 to width32
      invariant RowTo(buf[..], codes, i)
    {
      ghost var before := buf[..];
      var srcData := data[start + 4 * i..start + 4 * i + 4];
      var check := EncSecdedInv(srcData);
      InsertWord(buf, 39 * i, srcData, check);
      assert codes[i] == Code(WordOf(srcData));
      CodeIs(WordOf(srcData));
      RowGrows(before, buf[..], codes, i);
    }
  }

  lemma CodeIs(w: Word32)
    ensures Code(w) == Stored(w, Encode(w)) && |Code(w)| == 39
  {
  }

  lemma RowEmpty(buf: seq<Byte>, codes: seq<seq<bool>>)
    requires 39 * |codes| <= 8 * |buf| && forall q :: 0 <= q < 39 * |codes| ==> !BitAt(buf, q)
    ensures RowTo(buf, codes, 0)
  {
  }

  /** A data word with its validity: the check bits of an invalid one are stored inverted. */
  datatype EccWord = EccWord(good: bool, data: Word32)

  function Complement(check: Byte): Byte {
    seq(8, r requires 0 <= r < 8 => r < 7 && !check[r])
  }

  function EccCode(e: EccWord): (bits: seq<bool>)
    ensures |bits| == 39
  {
    Stored(e.data, if e.good then Encode(e.data) else Complement(Encode(e.data)))
  }

  function EccRow(data: seq<EccWord>, start: nat, width32: nat): seq<seq<bool>>
    requires start + width32 <= |data|
  {
    seq(width32, i requires 0 <= i < width32 => EccCode(data[start + i]))
  }

  function ByteOf(w: Word32, j: nat): Byte
    requires j < 4
  {
    w[8 * j..8 * j + 8]
  }

  method WriteBufferWithIntegrity(buf: array<Byte>, data: seq<EccWord>, start: nat, width32: nat)
    requires 1 <= width32 <= 8 && buf.Length == BUF_BYTES && start + width32 <= |data|
    modifies buf
    ensures RowTo(buf[..], EccRow(data, start, width32), width32)
  {
    hide BitAt, OredIn, RowTo, EccCode, Stored, Encode, WordOf, Complement;
    ghost var codes := EccRow(data, start, width32);
    ZeroBuffer(buf, width32);
    RowEmpty(buf[..], codes);
    for i := 0 to width32
      invariant RowTo(buf[..], codes, i)
    {
      ghost var before := buf[..];
      var word := data[start + i];
      var srcData := seq(4, j requires 0 <= j < 4 => ByteOf(word.data, j));
      Split(word.data, srcData);
      var check := EncSecdedInv(srcData);
      if !word.good {
        check := Complement(check);
      }
      InsertWord(buf, 39 * i, srcData, check);
      assert codes[i] == EccCode(word);
      EccCodeIs(word);
      RowGrows(before, buf[..], codes, i);
    }
  }

  lemma Split(w: Word32, bytes: seq<Byte>)
    requires |bytes| == 4 && forall j :: 0 <= j < 4 ==> bytes[j] == ByteOf(w, j)
    ensures WordOf(bytes) == w
  {
  }

  lemma EccCodeIs(e: EccWord)
    ensures EccCode(e) == Stored(e.data, if e.good then Encode(e.data) else Complement(Encode(e.data)))
  {
  }

  lemma ExtractedIs(buf: seq<Byte>, at: nat, ret: Byte)
    requires at + 8 <= 8 * |buf| && Extracted(buf, at, 8, ret)
    ensures ret == BitsAt(buf, at, 8)
  {
    hide BitAt;
    forall k | 0 <= k < 8 ensures ret[k] == BitsAt(buf, at, 8)[k] {
      assert Bit(ret, k) == BitAt(buf, at + k);
    }
  }

  /** ReadBuffer: byte j of word i is the eight bits at 39 i + 8 j. */
  method ReadBuffer(buf: seq<Byte>, width32: nat) returns (data: seq<Byte>)
    requires 1 <= width32 <= 8 && |buf| == BUF_BYTES
    ensures |data| == 4 * width32
    ensures forall i, j :: 0 <= i < width32 && 0 <= j < 4 ==> data[4 * i + j] == BitsAt(buf, 39 * i + 8 * j, 8)
  {
    hide BitAt, Extracted, BitsAt;
    data := [];
    for i := 0 to width32
      invariant |data| == 4 * i
      invariant forall x, j :: 0 <= x < i && 0 <= j < 4 ==> data[4 * x + j] == BitsAt(buf, 39 * x + 8 * j, 8)
    {
      for j := 0 to 4
        invariant |data| == 4 * i + j
        invariant forall x, y :: 0 <= x < i && 0 <= y < 4 ==> data[4 * x + y] == BitsAt(buf, 39 * x + 8 * y, 8)
        invariant forall y :: 0 <= y < j ==> data[4 * i + y] == BitsAt(buf, 39 * i + 8 * y, 8)
      {
        var byte := ExtractBits(buf, 39 * i + 8 * j, 8);
        ExtractedIs(buf, 39 * i + 8 * j, byte);
        data := data + [byte];
      }
    }
  }

  /** What the reader makes of 39 stored bits: the data, and whether the check bits are the right ones. */
  function Judged(bits: seq<bool>): EccWord
    requires |bits| == 39
  {
    var w: Word32 := bits[..32];
    EccWord(Encode(w)[..7] == bits[32..], w)
  }

  method ReadBufferWithIntegrity(buf: seq<Byte>, width32: nat) returns (data: seq<EccWord>)
    requires 1 <= width32 <= 8 && |buf| == BUF_BYTES
    ensures |data| == width32
    ensures forall i :: 0 <= i < width32 ==> data[i] == Judged(BitsAt(buf, 39 * i, 39))
  {
    hide BitAt, Extracted, Judged, Encode, WordOf;
    data := [];
    for i := 0 to width32
      invariant |data| == i
      invariant forall x :: 0 <= x < i ==> data[x] == Judged(BitsAt(buf, 39 * x, 39))
    {
      var word := ReadWord(buf, 39 * i);
      data := data + [word];
    }
  }

  method ReadWord(buf: seq<Byte>, at: nat) returns (word: EccWord)
    requires at + 39 <= 8 * |buf|
    ensures word == Judged(BitsAt(buf, at, 39))
  {
    hide BitAt, Extracted, Judged, Encode, WordOf, BitsAt;
    var b0 := ExtractBits(buf, at, 8);
    var b1 := ExtractBits(buf, at + 8, 8);
    var b2 := ExtractBits(buf, at + 16, 8);
    var b3 := ExtractBits(buf, at + 24, 8);
    var buf32 := [b0, b1, b2, b3];
    var exp := EncSecdedInv(buf32);
    var check := ExtractBits(buf, at + 32, 7);
    word := EccWord(check == exp, WordOf(buf32));
    ReadWordIs(buf, at, buf32, check);
  }

  lemma ReadWordIs(buf: seq<Byte>, at: nat, bytes: seq<Byte>, check: Byte)
    requires at + 39 <= 8 * |buf| && |bytes| == 4
    requires forall j :: 0 <= j < 4 ==> Extracted(buf, at + 8 * j, 8, bytes[j])
    requires Extracted(buf, at + 32, 7, check)
    ensures Judged(BitsAt(buf, at, 39)) == EccWord(check == Encode(WordOf(bytes)), WordOf(bytes))
  {
    hide BitAt, RowParity, Bit;
    var bits, w, e := BitsAt(buf, at, 39), WordOf(bytes), Encode(WordOf(bytes));
    forall p | 0 <= p < 32 ensures bits[p] == w[p] {
      BitOf(buf, at + 8 * (p / 8), 8, bytes[p / 8], p % 8);
    }
    assert bits[..32] == w;
    forall k | 0 <= k < 8 ensures check[k] == (k < 7 && bits[32 + k]) && (k == 7 ==> !e[k]) {
      BitOf(buf, at + 32, 7, check, k);
    }
    SameChecks(check, e, bits[32..]);
  }

  lemma BitOf(buf: seq<Byte>, at: nat, n: nat, b: Byte, k: nat)
    requires n <= 8 && at + n <= 8 * |buf| && k < 8 && Extracted(buf, at, n, b)
    ensures b[k] == (k < n && BitAt(buf, at + k))
  {
    hide BitAt;
    assert Bit(b, k) == (k < n && BitAt(buf, at + k));
  }

  lemma SameChecks(check: Byte, e: Byte, stored: seq<bool>)
    requires |stored| == 7 && !check[7] && !e[7] && forall k :: 0 <= k < 7 ==> check[k] == stored[k]
    ensures check == e <==> e[..7] == stored
  {
    if e[..7] == stored {
      forall k | 0 <= k < 8 ensures check[k] == e[k] {
        assert k < 7 ==> e[..7][k] == stored[k];
      }
    }
  }

  // ---------------------------------------------------------------- what reading makes of what was written

  /** Byte j of a stored data word. */
  lemma StoredByte(data: seq<Byte>, start: nat, j: nat)
    requires start + 4 <= |data| && j < 4
    ensures Code(DataWord(data, start))[8 * j..8 * j + 8] == data[start + j]
  {
    hide RowParity;
    var w := DataWord(data, start);
    var b := data[start + j];
    assert data[start..start + 4][j] == b;
    forall k | 0 <= k < 8 ensures w[8 * j + k] == b[k] {
    }
  }

  /** The bytes of a written row are found again at their unaligned offsets. */
  lemma RowBytes(buf: seq<Byte>, data: seq<Byte>, start: nat, width32: nat, i: nat, j: nat)
    requires start + 4 * width32 <= |data| && 39 * width32 <= 8 * |buf| && i < width32 && j < 4
    requires RowTo(buf, RowCodes(data, start, width32), width32)
    ensures BitsAt(buf, 39 * i + 8 * j, 8) == data[start + 4 * i + j]
  {
    hide BitAt, Code, DataWord;
    StoredByte(data, start + 4 * i, j);
    var code := BitsAt(buf, 39 * i, 39);
    assert code == RowCodes(data, start, width32)[i] == Code(DataWord(data, start + 4 * i));
    assert BitsAt(buf, 39 * i + 8 * j, 8) == code[8 * j..8 * j + 8];
  }

  /** A stored word is judged as it was written, whether good or deliberately corrupted. */
  lemma JudgedAsWritten(e: EccWord)
    ensures Judged(EccCode(e)) == e
  {
    hide RowParity;
    var check := Encode(e.data);
    assert EccCode(e)[..32] == e.data;
    assert EccCode(e)[32..] == (if e.good then check else Complement(check))[..7];
    assert Complement(check)[..7][0] == !check[0];
    assert check[..7][0] == check[0];
  }

  lemma {:induction false} WeightSplit(e: seq<bool>, n: nat)
    requires n + 32 <= |e|
    ensures WeightTo(e, 32 + n) == WeightTo(e[..32], 32) + WeightTo(e[32..], n)
  {
    if n > 0 {
      WeightSplit(e, n - 1);
    } else {
      WeightPrefix(e, 32);
    }
  }

  lemma {:induction false} WeightPrefix(e: seq<bool>, n: nat)
    requires n <= 32 <= |e|
    ensures WeightTo(e, n) == WeightTo(e[..32], n)
  {
    if n > 0 {
      WeightPrefix(e, n - 1);
    }
  }

  /** bits with those flipped that e marks. */
  function Flipped(bits: seq<bool>, e: seq<bool>): (f: seq<bool>)
    requires |bits| == |e|
    ensures |f| == |e|
  {
    seq(|e|, p requires 0 <= p < |e| => bits[p] != e[p])
  }

  /** Flipping one, two, three, or any odd number of the 39 stored bits of a word makes the reader report it bad. */
  lemma FlipsAreReported(w: Word32, e: seq<bool>)
    requires |e| == 39 && (1 <= Weight(e) <= 3 || Weight(e) % 2 == 1)
    ensures !Judged(Flipped(Code(w), e)).good
  {
    hide Encode, WeightTo;
    var d: Word32, c: Byte := e[..32], e[32..] + [false];
    WeightSplit(e, 7);
    SameWeight(e[32..], c, 7);
    Detects(w, d, c);
    FlippedParts(w, e, d, c);
  }

  lemma {:induction false} SameWeight(x: seq<bool>, y: seq<bool>, n: nat)
    requires n <= |x| && n <= |y| && forall k :: 0 <= k < n ==> x[k] == y[k]
    ensures WeightTo(x, n) == WeightTo(y, n)
  {
    if n > 0 {
      SameWeight(x, y, n - 1);
    }
  }

  lemma FlippedParts(w: Word32, e: seq<bool>, d: Word32, c: Byte)
    requires |e| == 39 && d == e[..32] && c == e[32..] + [false]
    ensures Judged(Flipped(Code(w), e)) ==
      EccWord(Encode(XorWord(w, d)) == Xor(Encode(w), c), XorWord(w, d))
  {
    hide RowParity;
    var f, x, y := Flipped(Code(w), e), Encode(XorWord(w, d)), Xor(Encode(w), c);
    assert f[..32] == XorWord(w, d);
    forall k | 0 <= k < 7 ensures y[k] == f[32..][k] {
      assert Code(w)[32 + k] == Encode(w)[k] && e[32 + k] == c[k];
    }
    SameChecks(y, x, f[32..]);
  }

  /** `after` is `before` with those bits of word i flipped that e marks. */
  predicate FlippedIn(before: seq<Byte>, after: seq<Byte>, i: nat, e: seq<bool>) {
    && |after| == |before|
    && forall q :: 0 <= q < 8 * |before| ==>
         BitAt(after, q) == (BitAt(before, q) != (39 * i <= q < 39 * i + |e| && e[q - 39 * i]))
  }

  lemma WordFlipped(before: seq<Byte>, after: seq<Byte>, i: nat, e: seq<bool>)
    requires FlippedIn(before, after, i, e) && |e| == 39 && 39 * i + 39 <= 8 * |before|
    ensures BitsAt(after, 39 * i, 39) == Flipped(BitsAt(before, 39 * i, 39), e)
  {
    hide BitAt;
  }

  lemma OthersKept(before: seq<Byte>, after: seq<Byte>, i: nat, e: seq<bool>, k: nat)
    requires FlippedIn(before, after, i, e) && |e| == 39 && k != i && 39 * k + 39 <= 8 * |before|
    ensures BitsAt(after, 39 * k, 39) == BitsAt(before, 39 * k, 39)
  {
    hide BitAt;
  }

  lemma GoodCode(e: EccWord)
    requires e.good
    ensures EccCode(e) == Code(e.data)
  {
    hide Encode;
  }

  /** A stored row with one, two, three, or any odd number of bits flipped in one good word: that word is reported bad
      and every other word of the row comes back as it was written. */
  method ReadDamaged(buf: seq<Byte>, width32: nat, ghost stored: seq<Byte>, ghost data: seq<EccWord>, ghost start: nat,
                     ghost i: nat, ghost e: seq<bool>)
    returns (ret: seq<EccWord>)
    requires 1 <= width32 <= 8 && |stored| == |buf| == BUF_BYTES && start + width32 <= |data| && i < width32
    requires RowTo(stored, EccRow(data, start, width32), width32) && FlippedIn(stored, buf, i, e)
    requires |e| == 39 && (1 <= Weight(e) <= 3 || Weight(e) % 2 == 1) && data[start + i].good
    ensures |ret| == width32 && !ret[i].good
    ensures forall k :: 0 <= k < width32 && k != i ==> ret[k] == data[start + k]
  {
    hide BitsAt, Judged, EccCode, FlippedIn, Weight, RowTo, Code;
    ret := ReadBufferWithIntegrity(buf, width32);
    WordFlipped(stored, buf, i, e);
    RowWord(stored, data, start, width32, i);
    GoodCode(data[start + i]);
    FlipsAreReported(data[start + i].data, e);
    forall k | 0 <= k < width32 && k != i
      ensures ret[k] == data[start + k]
    {
      OthersKept(stored, buf, i, e, k);
      RowWord(stored, data, start, width32, k);
      JudgedAsWritten(data[start + k]);
    }
  }

  /** A word whose 39 bits are all 0, or all 1, is not a code word: what the inverted rows are for. */
  lemma StuckIsBad(bits: seq<bool>)
    requires |bits| == 39 && ((forall p :: 0 <= p < 39 ==> !bits[p]) || forall p :: 0 <= p < 39 ==> bits[p])
    ensures !Judged(bits).good
  {
    hide Encode;
    var w: Word32 := bits[..32];
    if bits[0] {
      OnesWord(w);
      assert Encode(w)[..7][0] != bits[32..][0];
    } else {
      ZeroWord(w);
      assert Encode(w)[..7][1] != bits[32..][1];
    }
  }

  /** Reading a row in which the 39 bits of word i are stuck at 0, or at 1, reports that word bad. */
  method ReadStuck(buf: seq<Byte>, width32: nat, ghost i: nat, ghost level: bool) returns (ret: seq<EccWord>)
    requires 1 <= width32 <= 8 && |buf| == BUF_BYTES && i < width32
    requires forall q :: 39 * i <= q < 39 * i + 39 ==> BitAt(buf, q) == level
    ensures |ret| == width32 && !ret[i].good
  {
    hide Judged, BitAt;
    ret := ReadBufferWithIntegrity(buf, width32);
    ghost var bits := BitsAt(buf, 39 * i, 39);
    forall p | 0 <= p < 39
      ensures bits[p] == level
    {
      assert bits[p] == BitAt(buf, 39 * i + p);
    }
    StuckIsBad(bits);
  }

  lemma RowWord(buf: seq<Byte>, data: seq<EccWord>, start: nat, width32: nat, k: nat)
    requires start + width32 <= |data| && 39 * width32 <= 8 * |buf| && k < width32
    requires RowTo(buf, EccRow(data, start, width32), width32)
    ensures BitsAt(buf, 39 * k, 39) == EccCode(data[start + k])
  {
    hide BitsAt, EccCode, BitAt;
  }

  // ---------------------------------------------------------------- the memory area

  class Ecc32MemArea {
    const numWords: nat
    const width32: nat
    const mem: array<seq<Byte>>

    ghost predicate Valid()
      reads mem
    {
      && 1 <= width32 <= 8 && mem.Length == numWords
      && forall r :: 0 <= r < numWords ==> |mem[r]| == BUF_BYTES
    }

    constructor (numWords: nat, width32: nat)
      requires 1 <= width32 <= 8
      ensures Valid() && fresh(mem) && this.numWords == numWords && this.width32 == width32
    {
      this.numWords, this.width32 := numWords, width32;
      mem := new seq<Byte>[numWords](_ => seq<Byte>(BUF_BYTES, _ => ZERO));
    }

    /** Rows first, first + 1, ... hold the code words of data, a whole number of rows; no other row changes. */
    method Write(first: nat, data: seq<Byte>)
      requires Valid() && |data| % (4 * width32) == 0 && first + |data| / (4 * width32) <= numWords
      modifies mem
      ensures Valid()
      ensures forall r :: 0 <= r < |data| / (4 * width32) ==> RowIs(mem[first + r], data, Cell(r, 0, 4 * width32), width32)
      ensures forall r :: 0 <= r < numWords && !(first <= r < first + |data| / (4 * width32)) ==> mem[r] == old(mem[r])
    {
      hide RowTo, RowCodes, Cell;
      var minibuf := new Byte[BUF_BYTES](_ => ZERO);
      var rows := |data| / (4 * width32);
      for i := 0 to rows
        invariant Valid()
        invariant forall r :: 0 <= r < i ==> RowIs(mem[first + r], data, Cell(r, 0, 4 * width32), width32)
        invariant forall r :: 0 <= r < numWords && !(first <= r < first + i) ==> mem[r] == old(mem[r])
      {
        RowFits(|data|, 4 * width32, i);
        WriteBuffer(minibuf, data, Cell(i, 0, 4 * width32), width32);
        mem[first + i] := minibuf[..];
      }
    }

    /** The data bytes of `rows` rows; check bits are ignored. */
    method Read(first: nat, rows: nat) returns (ret: seq<Byte>)
      requires Valid() && first + rows <= numWords
      ensures |ret| == Cell(rows, 0, 4 * width32)
      ensures forall r, t :: 0 <= r < rows && 0 <= t < 4 * width32 ==>
        ByteIs(ret, Cell(r, t, 4 * width32), mem[first + r], t)
    {
      hide Cell, BitsAt;
      ret := [];
      CellNext(0, 0, 4 * width32);
      for r := 0 to rows
        invariant |ret| == Cell(r, 0, 4 * width32)
        invariant forall x, t :: 0 <= x < r && 0 <= t < 4 * width32 ==>
          ByteIs(ret, Cell(x, t, 4 * width32), mem[first + x], t)
      {
        var row := ReadBuffer(mem[first + r], width32);
        AppendRow(mem[first..first + r], mem[first + r], ret, row, r, width32);
        ret := ret + row;
      }
    }

    /** Writing data and reading the same rows back gives data. */
    method WriteThenRead(first: nat, data: seq<Byte>) returns (ret: seq<Byte>)
      requires Valid() && |data| % (4 * width32) == 0 && first + |data| / (4 * width32) <= numWords
      modifies mem
      ensures Valid() && ret == data
    {
      hide RowTo, RowCodes, Cell, ByteIs, RowIs;
      Write(first, data);
      var rows := |data| / (4 * width32);
      ret := Read(first, rows);
      RowFits(|data|, 4 * width32, 0);
      forall n | 0 <= n < |data| ensures ret[n] == data[n] {
        Decompose(n, |data|, 4 * width32);
        SameBack(mem[first + n / (4 * width32)], data, ret, n / (4 * width32), n % (4 * width32), width32);
      }
    }

    /** As Write, for words with a validity flag. */
    method WriteWithIntegrity(first: nat, data: seq<EccWord>)
      requires Valid() && |data| % width32 == 0 && first + |data| / width32 <= numWords
      modifies mem
      ensures Valid()
      ensures forall r :: 0 <= r < |data| / width32 ==> EccRowIs(mem[first + r], data, Cell(r, 0, width32), width32)
      ensures forall r :: 0 <= r < numWords && !(first <= r < first + |data| / width32) ==> mem[r] == old(mem[r])
    {
      hide RowTo, EccRow, Cell;
      var minibuf := new Byte[BUF_BYTES](_ => ZERO);
      var toWrite := |data| / width32;
      for i := 0 to toWrite
        invariant Valid()
        invariant forall r :: 0 <= r < i ==> EccRowIs(mem[first + r], data, Cell(r, 0, width32), width32)
        invariant forall r :: 0 <= r < numWords && !(first <= r < first + i) ==> mem[r] == old(mem[r])
      {
        RowFits(|data|, width32, i);
        WriteBufferWithIntegrity(minibuf, data, Cell(i, 0, width32), width32);
        mem[first + i] := minibuf[..];
      }
    }

    /** Every word of `rows` rows, with the verdict on its check bits. */
    method ReadWithIntegrity(first: nat, rows: nat) returns (ret: seq<EccWord>)
      requires Valid() && first + rows <= numWords
      ensures |ret| == Cell(rows, 0, width32)
      ensures forall r, i :: 0 <= r < rows && 0 <= i < width32 ==> WordIs(ret, Cell(r, i, width32), mem[first + r], i)
    {
      hide Cell, BitsAt, Judged;
      ret := [];
      CellNext(0, 0, width32);
      for r := 0 to rows
        invariant |ret| == Cell(r, 0, width32)
        invariant forall x, i :: 0 <= x < r && 0 <= i < width32 ==> WordIs(ret, Cell(x, i, width32), mem[first + x], i)
      {
        var row := ReadBufferWithIntegrity(mem[first + r], width32);
        AppendWords(mem[first..first + r], mem[first + r], ret, row, r, width32);
        ret := ret + row;
      }
    }

    /** Every (validity, word) pair comes back, deliberately corrupted ones included. */
    method WriteThenReadWithIntegrity(first: nat, data: seq<EccWord>) returns (ret: seq<EccWord>)
      requires Valid() && |data| % width32 == 0 && first + |data| / width32 <= numWords
      modifies mem
      ensures Valid() && ret == data
    {
      hide RowTo, EccRow, Cell, WordIs, EccRowIs;
      WriteWithIntegrity(first, data);
      var rows := |data| / width32;
      ret := ReadWithIntegrity(first, rows);
      RowFits(|data|, width32, 0);
      forall n | 0 <= n < |data| ensures ret[n] == data[n] {
        Decompose(n, |data|, width32);
        SameWordBack(mem[first + n / width32], data, ret, n / width32, n % width32, width32);
      }
    }
  }

  /** The row holds the code words of the data bytes from `start`. */
  ghost predicate RowIs(buf: seq<Byte>, data: seq<Byte>, start: int, width32: nat) {
    && 0 <= start && start + 4 * width32 <= |data| && 39 * width32 <= 8 * |buf|
    && RowTo(buf, RowCodes(data, start, width32), width32)
  }

  ghost predicate EccRowIs(buf: seq<Byte>, data: seq<EccWord>, start: int, width32: nat) {
    && 0 <= start && start + width32 <= |data| && 39 * width32 <= 8 * |buf|
    && RowTo(buf, EccRow(data, start, width32), width32)
  }

  /** Byte n of the result is data byte t of the row. */
  predicate ByteIs(ret: seq<Byte>, n: int, buf: seq<Byte>, t: nat) {
    0 <= n < |ret| && 39 * (t / 4) + 8 * (t % 4) + 8 <= 8 * |buf| && ret[n] == BitsAt(buf, 39 * (t / 4) + 8 * (t % 4), 8)
  }

  predicate WordIs(ret: seq<EccWord>, n: int, buf: seq<Byte>, i: nat) {
    0 <= n < |ret| && 39 * i + 39 <= 8 * |buf| && ret[n] == Judged(BitsAt(buf, 39 * i, 39))
  }

  lemma RowFits(n: nat, w: nat, i: nat)
    requires 0 < w && n % w == 0
    ensures n == Cell(n / w, 0, w)
    ensures i < n / w ==> 0 <= Cell(i, 0, w) && Cell(i, 0, w) + w <= n
  {
    Recompose(n, w);
    if i < n / w {
      Monotone(i + 1, n / w, w);
    }
  }

  lemma Decompose(n: nat, total: nat, w: nat)
    requires 0 < w && total % w == 0 && n < total
    ensures 0 <= n / w < total / w && 0 <= n % w < w && n == Cell(n / w, n % w, w)
  {
    hide Cell;
    Recompose(n, w);
    RowFits(total, w, 0);
    DivisionBound(n, total / w, w);
  }

  lemma AppendRow(rows: seq<seq<Byte>>, buf: seq<Byte>, ret: seq<Byte>, row: seq<Byte>, r: nat, width32: nat)
    requires |rows| == r && |row| == 4 * width32 && |ret| == Cell(r, 0, 4 * width32) && 39 * width32 <= 8 * |buf|
    requires forall x, t :: 0 <= x < r && 0 <= t < 4 * width32 ==> ByteIs(ret, Cell(x, t, 4 * width32), rows[x], t)
    requires forall i, j :: 0 <= i < width32 && 0 <= j < 4 ==> row[4 * i + j] == BitsAt(buf, 39 * i + 8 * j, 8)
    ensures |ret + row| == Cell(r + 1, 0, 4 * width32)
    ensures forall x, t :: 0 <= x < r + 1 && 0 <= t < 4 * width32 ==>
      ByteIs(ret + row, Cell(x, t, 4 * width32), (rows + [buf])[x], t)
  {
    hide Cell, BitsAt;
    var w := 4 * width32;
    CellNext(r, w - 1, w);
    CellAdd(r, w, w);
    forall x, t | 0 <= x < r + 1 && 0 <= t < w ensures ByteIs(ret + row, Cell(x, t, w), (rows + [buf])[x], t) {
      CellAdd(x, t, w);
      if x == r {
        assert row[4 * (t / 4) + t % 4] == BitsAt(buf, 39 * (t / 4) + 8 * (t % 4), 8);
      } else {
        assert ByteIs(ret, Cell(x, t, w), rows[x], t);
      }
    }
  }

  lemma CellAdd(row: int, col: int, w: int)
    ensures Cell(row, col, w) == Cell(row, 0, w) + col
    ensures Cell(row + 1, 0, w) == Cell(row, 0, w) + w
  {
  }

  lemma AppendWords(rows: seq<seq<Byte>>, buf: seq<Byte>, ret: seq<EccWord>, row: seq<EccWord>, r: nat, width32: nat)
    requires |rows| == r && |row| == width32 && |ret| == Cell(r, 0, width32) && 39 * width32 <= 8 * |buf|
    requires forall x, i :: 0 <= x < r && 0 <= i < width32 ==> WordIs(ret, Cell(x, i, width32), rows[x], i)
    requires forall i :: 0 <= i < width32 ==> row[i] == Judged(BitsAt(buf, 39 * i, 39))
    ensures |ret + row| == Cell(r + 1, 0, width32)
    ensures forall x, i :: 0 <= x < r + 1 && 0 <= i < width32 ==>
      WordIs(ret + row, Cell(x, i, width32), (rows + [buf])[x], i)
  {
    hide Cell, BitsAt, Judged;
    CellAdd(r, width32, width32);
    forall x, i | 0 <= x < r + 1 && 0 <= i < width32
      ensures WordIs(ret + row, Cell(x, i, width32), (rows + [buf])[x], i)
    {
      CellAdd(x, i, width32);
      if x < r {
        assert WordIs(ret, Cell(x, i, width32), rows[x], i);
      }
    }
  }

  lemma SameBack(buf: seq<Byte>, data: seq<Byte>, ret: seq<Byte>, r: nat, t: nat, width32: nat)
    requires 0 < width32 && t < 4 * width32 && RowIs(buf, data, Cell(r, 0, 4 * width32), width32)
    requires ByteIs(ret, Cell(r, t, 4 * width32), buf, t)
    ensures 0 <= Cell(r, t, 4 * width32) < |ret| && Cell(r, t, 4 * width32) < |data|
    ensures ret[Cell(r, t, 4 * width32)] == data[Cell(r, t, 4 * width32)]
  {
    hide RowTo, RowCodes, Cell, BitsAt;
    CellAdd(r, t, 4 * width32);
    RowBytes(buf, data, Cell(r, 0, 4 * width32), width32, t / 4, t % 4);
  }

  lemma SameWordBack(buf: seq<Byte>, data: seq<EccWord>, ret: seq<EccWord>, r: nat, i: nat, width32: nat)
    requires i < width32 && EccRowIs(buf, data, Cell(r, 0, width32), width32)
    requires WordIs(ret, Cell(r, i, width32), buf, i)
    ensures 0 <= Cell(r, i, width32) < |ret| && Cell(r, i, width32) < |data|
    ensures ret[Cell(r, i, width32)] == data[Cell(r, i, width32)]
  {
    hide Cell, BitsAt, Judged, EccCode;
    CellAdd(r, i, width32);
    JudgedAsWritten(data[Cell(r, i, width32)]);
  }
}
