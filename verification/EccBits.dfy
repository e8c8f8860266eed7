/** Bit fields at unaligned offsets of a byte buffer. A byte is the sequence of its bits, lowest first, and bit q of
    a buffer is bit q mod 8 of byte q / 8; the C operators are the bitwise functions below. */
module EccBits {

  type Byte = s: seq<bool> | |s| == 8 witness seq(8, _ => false)

  const ZERO: Byte := seq(8, _ => false)

  predicate Bit(b: Byte, k: nat)
    requires k < 8
  {
    b[k]
  }

  predicate BitAt(buf: seq<Byte>, q: nat)
    requires q < 8 * |buf|
  {
    Bit(buf[q / 8], q % 8)
  }

  /** ((1 << t) - 1) & b: the lowest t bits of b, and nothing else. */
  function Low(b: Byte, t: nat): Byte
    requires t <= 8
  {
    seq(8, k requires 0 <= k < 8 => k < t && b[k])
  }

  /** b << n and b >> n in eight bits. */
  function Shl(b: Byte, n: nat): Byte {
    seq(8, k requires 0 <= k < 8 => n <= k && b[k - n])
  }

  function Shr(b: Byte, n: nat): Byte {
    seq(8, k requires 0 <= k < 8 => k + n < 8 && b[k + n])
  }

  function Or(a: Byte, b: Byte): Byte {
    seq(8, k requires 0 <= k < 8 => a[k] || b[k])
  }

  function Xor(a: Byte, b: Byte): Byte {
    seq(8, k requires 0 <= k < 8 => a[k] != b[k])
  }

  /** A field of t bits of v placed at bit o of byte b. */
  lemma PlacedBit(b: Byte, v: Byte, o: nat, t: nat, k: nat)
    requires o + t <= 8 && k < 8
    ensures Bit(Or(b, Shl(Low(v, t), o)), k) == (Bit(b, k) || (o <= k < o + t && Bit(v, k - o)))
  {
  }

  // ---------------------------------------------------------------- insert_bits and extract_bits

  /** `after` is `before` with the low n bits of v OR-ed in at bit `at`. */
  predicate Inserted(before: seq<Byte>, after: seq<Byte>, at: nat, v: Byte, n: nat)
    requires n <= 8
  {
    && |after| == |before|
    && forall q :: 0 <= q < 8 * |before| ==> BitAt(after, q) == (BitAt(before, q) || (at <= q < at + n && Bit(v, q - at)))
  }

  /** The low `count` bits of newBits are OR-ed into the buffer at bitIdx; every other bit is unchanged. */
  method InsertBits(buf: array<Byte>, bitIdx: nat, newBits: Byte, count: nat)
    requires count <= 8 && bitIdx + count <= 8 * buf.Length
    modifies buf
    ensures Inserted(old(buf[..]), buf[..], bitIdx, newBits, count)
  {
    hide Bit, Shl, Shr, Or, Low, BitAt, Inserted;
    var i, o, left, v := bitIdx / 8, bitIdx % 8, count, newBits;
    ghost var before := buf[..];
    NothingInserted(before, bitIdx, newBits);
    DropNone(newBits, count);
    while left > 0
      invariant 0 <= left <= count && 0 <= i && (left > 0 ==> 0 <= o < 8 && 8 * i + o == bitIdx + (count - left))
      invariant Dropped(newBits, v, count - left, left)
      invariant Inserted(before, buf[..], bitIdx, newBits, count - left)
    {
      var spaceAvail := 8 - o;
      var toTake := if spaceAvail < left then spaceAvail else left;
      ghost var previous := buf[..];
      OrField(buf, i, o, v, toTake);
      InsertedMore(before, previous, buf[..], bitIdx, newBits, count - left, v, toTake);
      DropMore(newBits, v, count - left, left, toTake, Shr(v, toTake));
      i, o, left, v := i + 1, 0, left - toTake, Shr(v, toTake);
    }
  }

  /** *buf |= masked << bit_idx. */
  method OrField(buf: array<Byte>, i: nat, o: nat, v: Byte, t: nat)
    requires i < buf.Length && o + t <= 8
    modifies buf
    ensures Inserted(old(buf[..]), buf[..], 8 * i + o, v, t)
  {
    hide Low, Shl, Or, Inserted;
    buf[i] := Or(buf[i], Shl(Low(v, t), o));
    PlacedAt(old(buf[..]), i, v, o, t, buf[..]);
  }

  lemma NothingInserted(before: seq<Byte>, at: nat, v: Byte)
    ensures Inserted(before, before, at, v, 0)
  {
  }

  lemma InsertedMore(before: seq<Byte>, middle: seq<Byte>, after: seq<Byte>, at: nat, v: Byte, n: nat, w: Byte, t: nat)
    requires n + t <= 8 && Inserted(before, middle, at, v, n) && Inserted(middle, after, at + n, w, t)
    requires Dropped(v, w, n, t)
    ensures Inserted(before, after, at, v, n + t)
  {
    hide Bit, Shl, Shr, Or, Low, BitAt;
  }

  /** The first `left` bits of w are those of v from bit n. */
  predicate Dropped(v: Byte, w: Byte, n: nat, left: nat)
    requires n + left <= 8
  {
    forall k :: 0 <= k < left ==> Bit(w, k) == Bit(v, n + k)
  }

  lemma DropNone(v: Byte, left: nat)
    requires left <= 8
    ensures Dropped(v, v, 0, left)
  {
  }

  lemma DropMore(v: Byte, w: Byte, n: nat, left: nat, t: nat, w': Byte)
    requires t <= left && n + left <= 8 && Dropped(v, w, n, left) && w' == Shr(w, t)
    ensures Dropped(v, w', n + t, left - t) && Dropped(v, w, n, t)
  {
    forall k | 0 <= k < left - t ensures Bit(w', k) == Bit(v, n + t + k) {
      assert Bit(w', k) == Bit(w, t + k);
    }
  }

  lemma PlacedAt(before: seq<Byte>, i: nat, v: Byte, o: nat, t: nat, after: seq<Byte>)
    requires i < |before| && o + t <= 8 && after == before[i := Or(before[i], Shl(Low(v, t), o))]
    ensures Inserted(before, after, 8 * i + o, v, t)
  {
    hide Bit, Shl, Shr, Or, Low;
    forall q | 0 <= q < 8 * |before|
      ensures BitAt(after, q) == (BitAt(before, q) || (8 * i + o <= q < 8 * i + o + t && Bit(v, q - (8 * i + o))))
    {
      PlacedBit(before[i], v, o, t, q % 8);
    }
  }

  /** ret is the n bits of the buffer at bit `at`, zero-extended. */
  predicate Extracted(buf: seq<Byte>, at: nat, n: nat, ret: Byte)
    requires n <= 8 && at + n <= 8 * |buf|
  {
    forall k :: 0 <= k < 8 ==> Bit(ret, k) == (k < n && BitAt(buf, at + k))
  }

  /** The `count` bits at bitIdx, low bit first, zero-extended to a byte. */
  method ExtractBits(buf: seq<Byte>, bitIdx: nat, count: nat) returns (ret: Byte)
    requires count <= 8 && bitIdx + count <= 8 * |buf|
    ensures Extracted(buf, bitIdx, count, ret)
  {
    hide Bit, Shl, Shr, Or, Low, BitAt, Extracted;
    var i, o, left, outIdx := bitIdx / 8, bitIdx % 8, count, 0;
    ret := ZERO;
    NothingExtracted(buf, bitIdx);
    while left > 0
      invariant outIdx + left == count && 0 <= left && 0 <= outIdx && 0 <= i
      invariant left > 0 ==> 0 <= o < 8 && 8 * i + o == bitIdx + outIdx
      invariant Extracted(buf, bitIdx, outIdx, ret)
    {
      var bitsAvail := 8 - o;
      var toTake := if bitsAvail < left then bitsAvail else left;
      var masked := Low(Shr(buf[i], o), toTake);
      TakenAt(buf, i, o, toTake, ret, bitIdx, outIdx);
      ret := Or(ret, Shl(masked, outIdx));
      i, o, left, outIdx := i + 1, 0, left - toTake, outIdx + toTake;
    }
  }

  lemma NothingExtracted(buf: seq<Byte>, at: nat)
    requires at <= 8 * |buf|
    ensures Extracted(buf, at, 0, ZERO)
  {
  }

  lemma TakenAt(buf: seq<Byte>, i: nat, o: nat, t: nat, ret: Byte, at: nat, n: nat)
    requires i < |buf| && o + t <= 8 && n + t <= 8 && 8 * i + o == at + n && Extracted(buf, at, n, ret)
    ensures Extracted(buf, at, n + t, Or(ret, Shl(Low(Shr(buf[i], o), t), n)))
  {
    hide Bit, Shl, Shr, Or, Low, BitAt;
    var r := Or(ret, Shl(Low(Shr(buf[i], o), t), n));
    forall k | 0 <= k < 8 ensures Bit(r, k) == (k < n + t && BitAt(buf, at + k)) {
      TakenOne(buf, i, o, t, ret, n, k);
    }
  }

  lemma TakenOne(buf: seq<Byte>, i: nat, o: nat, t: nat, ret: Byte, n: nat, k: nat)
    requires i < |buf| && o + t <= 8 && n + t <= 8 && k < 8
    ensures Bit(Or(ret, Shl(Low(Shr(buf[i], o), t), n)), k) ==
      (Bit(ret, k) || (n <= k < n + t && BitAt(buf, 8 * i + o + (k - n))))
  {
    hide BitAt;
    if n <= k < n + t {
      BitOfByte(buf, i, o + (k - n));
    }
  }

  lemma BitOfByte(buf: seq<Byte>, i: nat, x: nat)
    requires i < |buf| && x < 8
    ensures BitAt(buf, 8 * i + x) == Bit(buf[i], x)
  {
    hide Bit;
  }
}
