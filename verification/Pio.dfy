/** The PIO state machine: shift and pin helpers, the nine-instruction interpreter, and the program counter.

    A 32-bit register is the sequence of its bits, lowest first; an instruction is given by its fields. */
module Pio {
  import opened Words

  type Bits32 = s: seq<bool> | |s| == 32 witness seq(32, _ => false)

  type Bits8 = s: seq<bool> | |s| == 8 witness seq(8, _ => false)

  type Int2 = x: int | 0 <= x < 4

  type Int3 = x: int | 0 <= x < 8

  type Int5 = x: int | 0 <= x < 32

  type Int6 = x: int | 0 <= x < 64

  type Int16 = x: int | 0 <= x < 0x1_0000

  function ZeroBits(n: nat): (w: seq<bool>)
    ensures |w| == n
  {
    seq(n, _ => false)
  }

  const ZERO: Bits32 := ZeroBits(32)

  const NO_FLAGS: Bits8 := ZeroBits(8)

  /** The low k bits of a number. */
  function ToBits(n: nat, k: nat): (w: seq<bool>)
    ensures |w| == k
  {
    if k == 0 then [] else [n % 2 == 1] + ToBits(n / 2, k - 1)
  }

  function ToBits32(n: nat): Bits32 {
    ToBits(n, 32)
  }

  function Pow2(k: nat): nat {
    if k == 0 then 1 else 2 * Pow2(k - 1)
  }

  lemma {:induction false} ValueBelow(w: seq<bool>)
    ensures Value(w) < Pow2(|w|)
  {
    if w != [] {
      ValueBelow(w[1..]);
    }
  }

  /** Writing a number in k bits and reading it back gives it modulo 2^k: the number itself when it fits. */
  lemma {:induction false} ToBitsValue(n: nat, k: nat)
    requires n < Pow2(k)
    ensures Value(ToBits(n, k)) == n
  {
    if k > 0 {
      ToBitsValue(n / 2, k - 1);
    }
  }

  function Low5(w: Bits32): (n: Int5) {
    ValueBelow(w[..5]);
    Value(w[..5])
  }

  function Low16(w: Bits32): (n: Int16) {
    ValueBelow(w[..16]);
    Pow16();
    Value(w[..16])
  }

  lemma Pow16()
    ensures Pow2(16) == 0x1_0000
  {
    assert Pow2(8) == 256;
  }

  /** Subtracting one: the borrow runs through the zeros at the low end. */
  function Borrow(w: seq<bool>): (d: seq<bool>)
    ensures |d| == |w|
  {
    if w == [] then [] else if w[0] then [false] + w[1..] else [true] + Borrow(w[1..])
  }

  function Dec(w: Bits32): Bits32 {
    Borrow(w)
  }

  /** Decrementing a register is subtraction of one, wrapping from zero to all ones. */
  lemma {:induction false} BorrowSubtracts(w: seq<bool>)
    ensures Value(Borrow(w)) == if Value(w) == 0 then Pow2(|w|) - 1 else Value(w) - 1
  {
    if w != [] {
      BorrowSubtracts(w[1..]);
      if w[0] {
        assert Borrow(w)[1..] == w[1..];
      } else {
        assert Borrow(w)[1..] == Borrow(w[1..]);
      }
    }
  }

  lemma DecSubtracts(w: Bits32)
    ensures Value(Dec(w)) == if Value(w) == 0 then Pow2(32) - 1 else Value(w) - 1
  {
    hide Value, Pow2, Borrow;
    BorrowSubtracts(w);
  }

  lemma {:induction false} ZeroValue(w: seq<bool>)
    ensures Value(w) == 0 <==> forall k :: 0 <= k < |w| ==> !w[k]
  {
    if w != [] {
      ZeroValue(w[1..]);
      assert forall k :: 0 <= k < |w| - 1 ==> w[1..][k] == w[k + 1];
      assert forall k :: 1 <= k < |w| ==> w[k] == w[1..][k - 1];
    }
  }

  function Not(w: Bits32): Bits32 {
    seq(32, k requires 0 <= k < 32 => !w[k])
  }

  // ---------------------------------------------------------------- shift helpers

  function Shr(w: Bits32, n: nat): Bits32 {
    seq(32, k requires 0 <= k < 32 => k + n < 32 && w[k + n])
  }

  function Shl(w: Bits32, n: nat): Bits32 {
    seq(32, k requires 0 <= k < 32 => n <= k && w[k - n])
  }

  function Or(a: Bits32, b: Bits32): Bits32 {
    seq(32, k requires 0 <= k < 32 => a[k] || b[k])
  }

  /** w & ((1 << n) - 1). */
  function Low(w: Bits32, n: nat): Bits32 {
    seq(32, k requires 0 <= k < 32 => k < n && w[k])
  }

  /** A 5-bit count field: 0 means 32. */
  function Count(field: Int5): nat {
    if field == 0 then 32 else field
  }

  function ShiftIn(isr: Bits32, data: Bits32, field: Int5, right: bool): Bits32 {
    var n := Count(field);
    if right then Or(Shr(isr, n), Shl(data, 32 - n)) else Or(Shl(isr, n), Low(data, n))
  }

  function ShiftOutData(osr: Bits32, field: Int5, right: bool): Bits32 {
    var n := Count(field);
    if right then Low(osr, n) else Shr(osr, 32 - n)
  }

  function ShiftOutRemain(osr: Bits32, field: Int5, right: bool): Bits32 {
    if right then Shr(osr, Count(field)) else Shl(osr, Count(field))
  }

  // ---------------------------------------------------------------- pin helpers

  /** `count` pins from `base`, wrapping at 32, as the low bits of the result. */
  function ReadPins(pins: Bits32, base: Int5, count: nat): Bits32 {
    seq(32, k requires 0 <= k < 32 => k < count && pins[(base + k) % 32])
  }

  function WritePins(cur: Bits32, data: Bits32, base: Int5, count: nat): Bits32 {
    seq(32, i requires 0 <= i < 32 => if (32 + i - base) % 32 < count then data[(32 + i - base) % 32] else cur[i])
  }

  /** write_pins, by its loop over the pins. */
  method WritePinsLoop(cur: Bits32, data: Bits32, base: Int5, count: nat) returns (result: Bits32)
    ensures result == WritePins(cur, data, base, count)
  {
    var mask: Bits32 := seq(32, k => k < count);
    result := cur;
    for i := 0 to 32
      invariant forall k :: 0 <= k < i ==> result[k] == WritePins(cur, data, base, count)[k]
      invariant forall k :: i <= k < 32 ==> result[k] == cur[k]
    {
      if mask[(32 + i - base) % 32] {
        result := result[i := data[(32 + i - base) % 32]];
      }
    }
  }

  /** The index in the written group of pin (base + k) is k. */
  lemma PinIndex(base: Int5, k: nat)
    requires k < 32
    ensures 0 <= (base + k) % 32 < 32
    ensures (32 + (base + k) % 32 - base) % 32 == k
  {
  }

  lemma PinWritten(cur: Bits32, data: Bits32, base: Int5, count: nat, k: nat)
    requires k < 32
    ensures 0 <= (base + k) % 32 < 32
    ensures WritePins(cur, data, base, count)[(base + k) % 32] == if k < count then data[k] else cur[(base + k) % 32]
  {
    PinIndex(base, k);
  }

  /** Reading back the pins just written gives the data. */
  lemma PinsRoundTrip(cur: Bits32, data: Bits32, base: Int5, count: nat)
    ensures ReadPins(WritePins(cur, data, base, count), base, count) == Low(data, count)
  {
    hide WritePins;
    var back := ReadPins(WritePins(cur, data, base, count), base, count);
    forall k | 0 <= k < 32
      ensures back[k] == Low(data, count)[k]
    {
      PinWritten(cur, data, base, count, k);
    }
  }

  // ---------------------------------------------------------------- serialising a word

  /** The OSR after m bits of `word` have been shifted out. */
  function Drained(word: Bits32, m: nat, right: bool): Bits32 {
    if right then Shr(word, m) else Shl(word, m)
  }

  /** The ISR once m bits of `word` have been shifted in: its newest m bits are the m bits that left the OSR. */
  ghost predicate Collected(isr: Bits32, word: Bits32, m: nat, right: bool)
    requires m <= 32
  {
    if right then forall k :: 32 - m <= k < 32 ==> isr[k] == word[k - (32 - m)]
    else forall k :: 0 <= k < m ==> isr[k] == word[k + (32 - m)]
  }

  /** What IN of the n bits just taken by OUT n leaves in the ISR. */
  function Moved(isr: Bits32, osr: Bits32, field: Int5, right: bool): Bits32 {
    ShiftIn(isr, Low(ShiftOutData(osr, field, right), Count(field)), field, right)
  }

  lemma MovedRight(isr: Bits32, osr: Bits32, field: Int5, k: nat)
    requires k < 32
    ensures Moved(isr, osr, field, true)[k] ==
            if k < 32 - Count(field) then isr[k + Count(field)] else osr[k - (32 - Count(field))]
  {
  }

  lemma MovedLeft(isr: Bits32, osr: Bits32, field: Int5, k: nat)
    requires k < 32
    ensures Moved(isr, osr, field, false)[k] ==
            if k < Count(field) then osr[k + (32 - Count(field))] else isr[k - Count(field)]
  {
  }

  lemma NothingDrained(word: Bits32, right: bool)
    ensures Drained(word, 0, right) == word
  {
    assert Drained(word, 0, right) == word;
  }

  lemma DrainMore(word: Bits32, m: nat, field: Int5, right: bool)
    ensures ShiftOutRemain(Drained(word, m, right), field, right) == Drained(word, m + Count(field), right)
  {
  }

  lemma CollectMore(isr: Bits32, word: Bits32, m: nat, field: Int5, right: bool)
    requires m + Count(field) <= 32
    requires Collected(isr, word, m, right)
    ensures Collected(Moved(isr, Drained(word, m, right), field, right), word, m + Count(field), right)
  {
    hide Moved;
    var osr := Drained(word, m, right);
    forall k: nat | k < 32
      ensures Moved(isr, osr, field, right)[k] ==
              if right then if k < 32 - Count(field) then isr[k + Count(field)] else osr[k - (32 - Count(field))]
              else if k < Count(field) then osr[k + (32 - Count(field))] else isr[k - Count(field)]
    {
      if right {
        MovedRight(isr, osr, field, k);
      } else {
        MovedLeft(isr, osr, field, k);
      }
    }
  }

  lemma AllCollected(isr: Bits32, word: Bits32, right: bool)
    requires Collected(isr, word, 32, right)
    ensures isr == word
  {
    forall k | 0 <= k < 32
      ensures isr[k] == word[k]
    {
    }
  }
}
