/** Registers as numbers: the shifts of the PIO state machine as division, remainder and sum, and groups of pins as the
    bits of a number. */
module PioNumbers {
  import opened Words
  import opened Pio

  // ---------------------------------------------------------------- bits and numbers

  lemma {:induction false} ValueOfJoined(a: seq<bool>, b: seq<bool>)
    ensures Value(a + b) == Value(a) + Pow2(|a|) * Value(b)
  {
    if a == [] {
      assert a + b == b;
    } else {
      ValueOfJoined(a[1..], b);
      assert (a + b)[1..] == a[1..] + b;
      Doubled(Pow2(|a| - 1), Value(b));
    }
  }

  lemma Doubled(p: int, v: int)
    ensures (2 * p) * v == 2 * (p * v)
  {
  }

  lemma {:induction false} ValueOfZeros(n: nat)
    ensures Value(ZeroBits(n)) == 0
  {
    if n > 0 {
      ValueOfZeros(n - 1);
      assert ZeroBits(n)[1..] == ZeroBits(n - 1);
    }
  }

  lemma Padded(a: seq<bool>, n: nat)
    ensures Value(a + ZeroBits(n)) == Value(a)
  {
    hide Value;
    ValueOfJoined(a, ZeroBits(n));
    ValueOfZeros(n);
  }

  lemma {:induction false} PowPositive(n: nat)
    ensures Pow2(n) > 0
  {
    if n > 0 {
      PowPositive(n - 1);
    }
  }

  /** A number cut at bit n. */
  lemma Cut(w: seq<bool>, n: nat)
    requires n <= |w|
    ensures Pow2(n) > 0 && Value(w) / Pow2(n) == Value(w[n..]) && Value(w) % Pow2(n) == Value(w[..n])
  {
    hide Value, Pow2;
    assert w == w[..n] + w[n..];
    ValueOfJoined(w[..n], w[n..]);
    ValueBelow(w[..n]);
    PowPositive(n);
    DivMod(Value(w), Value(w[..n]), Pow2(n), Value(w[n..]));
  }

  /** 2 to the n. */
  function P(n: nat): (p: nat)
    ensures p > 0
  {
    PowPositive(n);
    Pow2(n)
  }

  /** Bit k of a number. */
  predicate NumberBit(x: nat, k: nat) {
    (x / P(k)) % 2 == 1
  }

  lemma BitIs(w: seq<bool>, k: nat)
    requires k < |w|
    ensures NumberBit(Value(w), k) == w[k]
  {
    hide Value, Pow2, P;
    Cut(w, k);
    PowerIs(k);
    LowestBit(w[k..]);
    assert w[k..][0] == w[k];
  }

  lemma LowestBit(w: seq<bool>)
    requires w != []
    ensures Value(w) % 2 == 1 <==> w[0]
  {
    var low, high := if w[0] then 1 else 0, Value(w[1..]);
    assert Value(w) == low + 2 * high;
    hide Value;
    DivMod(Value(w), low, 2, high);
  }

  /** Two words with the same number are the same. */
  lemma {:induction false} SameNumber(a: seq<bool>, b: seq<bool>)
    requires |a| == |b|
    ensures Value(a) == Value(b) <==> a == b
  {
    if a != [] {
      SameNumber(a[1..], b[1..]);
      assert a == [a[0]] + a[1..] && b == [b[0]] + b[1..];
    }
  }

  // ---------------------------------------------------------------- shifts as arithmetic

  /** A number without its low n bits, and its low n bits. */
  function High(x: nat, n: nat): nat {
    Quotient(x, P(n))
  }

  function Rest(x: nat, n: nat): nat {
    Remainder(x, P(n))
  }

  function Quotient(x: nat, p: nat): nat
    requires p > 0
  {
    x / p
  }

  function Remainder(x: nat, p: nat): nat
    requires p > 0
  {
    x % p
  }

  /** n bits of data enter at the top (right shift) or at the bottom. */
  function InShift(isr: nat, data: nat, n: nat, right: bool): nat
    requires 1 <= n <= 32
  {
    if right then Join(High(isr, n), 32 - n, Rest(data, n)) else Join(Rest(data, n), n, Rest(isr, 32 - n))
  }

  /** low below bit n, high from there on. */
  function Join(low: nat, n: nat, high: nat): nat {
    NonNegative(P(n), high);
    low + P(n) * high
  }

  /** The n bits that leave: the low ones (right shift), or the high ones. */
  function OutTaken(osr: nat, n: nat, right: bool): nat
    requires 1 <= n <= 32
  {
    if right then Rest(osr, n) else High(osr, 32 - n)
  }

  function OutLeft(osr: nat, n: nat, right: bool): nat
    requires 1 <= n <= 32
  {
    if right then High(osr, n) else Join(0, n, Rest(osr, 32 - n))
  }

  lemma LowIs(w: Bits32, n: nat)
    requires n <= 32
    ensures Value(Low(w, n)) == Rest(Value(w), n)
  {
    hide Value, Pow2;
    Cut(w, n);
    assert Low(w, n) == w[..n] + ZeroBits(32 - n);
    Padded(w[..n], 32 - n);
  }

  lemma ShrIs(w: Bits32, n: nat)
    requires n <= 32
    ensures Value(Shr(w, n)) == High(Value(w), n)
  {
    hide Value, Pow2;
    Cut(w, n);
    assert Shr(w, n) == w[n..] + ZeroBits(n);
    Padded(w[n..], n);
  }

  lemma JoinedIs(a: seq<bool>, b: seq<bool>)
    ensures Value(a + b) == Join(Value(a), |a|, Value(b))
  {
    hide Value, Pow2;
    ValueOfJoined(a, b);
  }

  lemma ShiftInIs(isr: Bits32, data: Bits32, field: Int5, right: bool)
    ensures Value(ShiftIn(isr, data, field, right)) == InShift(Value(isr), Value(data), Count(field), right)
  {
    hide Value, Pow2, P, Join;
    var n := Count(field);
    if right {
      Cut(isr, n);
      Cut(data, n);
      ShiftedRight(isr, data, field);
      JoinedIs(isr[n..], data[..n]);
    } else {
      Cut(isr, 32 - n);
      Cut(data, n);
      ShiftedLeft(isr, data, field);
      JoinedIs(data[..n], isr[..32 - n]);
    }
    PowerIs(n);
    PowerIs(32 - n);
  }

  lemma PowerIs(n: nat)
    ensures P(n) == Pow2(n)
  {
  }

  lemma ShiftedRight(isr: Bits32, data: Bits32, field: Int5)
    ensures ShiftIn(isr, data, field, true) == isr[Count(field)..] + data[..Count(field)]
  {
    var n, s, t := Count(field), ShiftIn(isr, data, field, true), isr[Count(field)..] + data[..Count(field)];
    forall k | 0 <= k < 32
      ensures s[k] == t[k]
    {
    }
  }

  lemma ShiftedLeft(isr: Bits32, data: Bits32, field: Int5)
    ensures ShiftIn(isr, data, field, false) == data[..Count(field)] + isr[..32 - Count(field)]
  {
    var n, s, t := Count(field), ShiftIn(isr, data, field, false), data[..Count(field)] + isr[..32 - Count(field)];
    forall k | 0 <= k < 32
      ensures s[k] == t[k]
    {
    }
  }

  lemma ShiftOutIs(osr: Bits32, field: Int5, right: bool)
    ensures Value(ShiftOutData(osr, field, right)) == OutTaken(Value(osr), Count(field), right)
    ensures Value(ShiftOutRemain(osr, field, right)) == OutLeft(Value(osr), Count(field), right)
  {
    hide Value, Pow2, P, Join, Low, Shr, Shl;
    var n := Count(field);
    if right {
      LowIs(osr, n);
      ShrIs(osr, n);
    } else {
      ShrIs(osr, 32 - n);
      ShlIs(osr, n);
    }
  }

  lemma ShlIs(w: Bits32, n: nat)
    requires n <= 32
    ensures Value(Shl(w, n)) == Join(0, n, Rest(Value(w), 32 - n))
  {
    hide Value, Pow2, Join;
    Cut(w, 32 - n);
    assert Shl(w, n) == ZeroBits(n) + w[..32 - n];
    JoinedIs(ZeroBits(n), w[..32 - n]);
    ValueOfZeros(n);
  }

  // ---------------------------------------------------------------- pins as bits of numbers

  /** The number whose bit k is pin base + k, counted round the 32 pins. */
  function PinsFrom(pins: seq<bool>, base: int, n: nat): nat
    requires |pins| == 32
  {
    if n == 0 then 0 else Join(PinsFrom(pins, base, n - 1), n - 1, if pins[(base + n - 1) % 32] then 1 else 0)
  }

  lemma {:induction false} PinsAre(pins: Bits32, base: Int5, n: nat)
    requires n <= 32
    ensures Value(ReadPins(pins, base, 32)[..n]) == PinsFrom(pins, base, n)
  {
    hide Pow2;
    if n > 0 {
      PinsAre(pins, base, n - 1);
      var w := ReadPins(pins, base, 32);
      assert w[..n] == w[..n - 1] + [w[n - 1]];
      hide Value, ReadPins, Join;
      JoinedIs(w[..n - 1], [w[n - 1]]);
      OneBit(w[n - 1]);
      PinHere(pins, base, n - 1);
    }
  }

  lemma OneBit(b: bool)
    ensures Value([b]) == if b then 1 else 0
  {
    assert [b][1..] == [];
  }

  lemma PinHere(pins: Bits32, base: Int5, k: nat)
    requires k < 32
    ensures ReadPins(pins, base, 32)[k] == pins[(base + k) % 32]
  {
  }

  lemma AllPins(pins: Bits32, base: Int5)
    ensures Value(ReadPins(pins, base, 32)) == PinsFrom(pins, base, 32)
  {
    hide Value, ReadPins, PinsFrom;
    PinsAre(pins, base, 32);
    assert ReadPins(pins, base, 32)[..32] == ReadPins(pins, base, 32);
  }

  /** count pins from base take the low bits of x; the others stay. */
  function PinGroup(cur: seq<bool>, x: nat, base: int, count: int): (r: seq<bool>)
    requires |cur| == 32
    ensures |r| == 32
  {
    seq(32, p requires 0 <= p < 32 => if (p - base) % 32 < count then NumberBit(x, (p - base) % 32) else cur[p])
  }

  lemma GroupIs(cur: Bits32, data: Bits32, base: Int5, count: nat)
    ensures WritePins(cur, data, base, count) == PinGroup(cur, Value(data), base, count)
  {
    hide Value, NumberBit;
    var a, b := WritePins(cur, data, base, count), PinGroup(cur, Value(data), base, count);
    forall p | 0 <= p < 32
      ensures a[p] == b[p]
    {
      BitIs(data, (p - base) % 32);
      Round(p, base);
    }
  }

  lemma Round(p: int, base: int)
    ensures (32 + p - base) % 32 == (p - base) % 32
  {
  }

  lemma NotIs(w: Bits32)
    ensures Value(Not(w)) == 0xFFFF_FFFF - Value(w)
  {
    hide Value, Pow2;
    ValueBelow(w);
    NotPrefix(w, 32);
    assert Not(w)[..32] == Not(w) && w[..32] == w;
    AllOnes();
  }

  lemma AllOnes()
    ensures Pow2(32) == 0x1_0000_0000
  {
    Pow16();
    assert Pow2(20) == 16 * Pow2(16);
    assert Pow2(24) == 16 * Pow2(20);
    assert Pow2(28) == 16 * Pow2(24);
    assert Pow2(32) == 16 * Pow2(28);
  }

  lemma OneMoreBit(w: seq<bool>, b: bool)
    ensures Value(w + [b]) == Value(w) + if b then Pow2(|w|) else 0
  {
    hide Value, Pow2;
    ValueOfJoined(w, [b]);
    OneBit(b);
    if b {
      Once(Pow2(|w|), Value([b]));
    } else {
      Never(Pow2(|w|), Value([b]));
    }
  }

  lemma Once(p: int, v: int)
    requires v == 1
    ensures p * v == p
  {
  }

  lemma Never(p: int, v: int)
    requires v == 0
    ensures p * v == 0
  {
  }

  lemma {:induction false} NotPrefix(w: Bits32, n: nat)
    requires n <= 32
    ensures Value(Not(w)[..n]) + Value(w[..n]) == Pow2(n) - 1
  {
    if n > 0 {
      NotPrefix(w, n - 1);
      var flipped := Not(w);
      assert flipped[..n] == flipped[..n - 1] + [flipped[n - 1]] && w[..n] == w[..n - 1] + [w[n - 1]];
      assert flipped[n - 1] == !w[n - 1];
      hide Value, Not;
      OneMoreBit(flipped[..n - 1], flipped[n - 1]);
      OneMoreBit(w[..n - 1], w[n - 1]);
    }
  }
}
