/** The staging area for a memory image: byte segments merged newest-wins, and the memory they are written to. */
module Staging {
  import opened Words
  import opened RangedMap

  type Byte = x: int | 0 <= x < 256

  type Segment = Entry<seq<Byte>>

  predicate WellFormed(s: Segment) {
    s.lo <= s.hi && |s.val| == s.hi - s.lo + 1
  }

  /** The byte a segment holds at address a. */
  function Get(s: Segment, a: int): Option<Byte> {
    if Covers(s, a) && a - s.lo < |s.val| then Some(s.val[a - s.lo]) else None
  }

  function Over(newer: Option<Byte>, older: Option<Byte>): Option<Byte> {
    if newer.Some? then newer else older
  }

  /** The byte map of a list of segments, the earlier one first where two overlap. */
  function ByteAt(segs: seq<Segment>, a: int): Option<Byte> {
    if segs == [] then None else Over(ByteAt(segs[..|segs| - 1], a), Get(segs[|segs| - 1], a))
  }

  predicate AllWellFormed(segs: seq<Segment>) {
    forall i :: 0 <= i < |segs| ==> WellFormed(segs[i])
  }

  /** The bytes of `older` with those of `newer` written over them. */
  function Overlay(older: Segment, newer: Segment): seq<Byte> {
    var lo: int, hi: int := Min(older.lo, newer.lo), Max(older.hi, newer.hi);
    seq<Byte>(if lo <= hi then hi - lo + 1 else 0, i => OverlayByte(older, newer, lo + i))
  }

  function OverlayByte(older: Segment, newer: Segment, a: int): Byte {
    Filled(Over(Get(newer, a), Get(older, a)))
  }

  function Filled(b: Option<Byte>): Byte {
    if b.Some? then b.value else 0
  }

  /** MergeSegments, by its three cases: newer covers older, older sticks out on the right only, older sticks out on
      the left. */
  method MergeSegments(older: Segment, newer: Segment) returns (ret: seq<Byte>)
    requires WellFormed(older) && WellFormed(newer) && Touches(older, newer.lo, newer.hi)
    ensures ret == Overlay(older, newer)
  {
    var newBot: int, newTop: int := Min(older.lo, newer.lo), Max(older.hi, newer.hi);
    var newLen := 1 + (newTop - newBot);
    if newer.lo <= older.lo && older.hi <= newer.hi {
      ret := newer.val;
    } else if newer.lo <= older.lo {
      var oldLen := |newer.val|;
      ret := Resize(newer.val, newLen);
      var srcOff := 1 + (newer.hi - older.lo);
      ret := Memcpy(ret, oldLen, older.val[srcOff..srcOff + (older.hi - newer.hi)]);
    } else {
      ret := Resize(older.val, newLen);
      ret := Memcpy(ret, newer.lo - older.lo, newer.val);
    }
    forall i | 0 <= i < newLen ensures ret[i] == Overlay(older, newer)[i] {
      assert ret[i] == OverlayByte(older, newer, newBot + i);
    }
  }

  /** vector::resize to a size no smaller: new elements are zero. */
  function Resize(v: seq<Byte>, n: nat): seq<Byte>
    requires |v| <= n
  {
    v + seq(n - |v|, _ => 0)
  }

  function Memcpy(v: seq<Byte>, off: nat, src: seq<Byte>): seq<Byte>
    requires off + |src| <= |v|
  {
    v[..off] + src + v[off + |src|..]
  }

  lemma OverlayGet(older: Segment, newer: Segment, a: int)
    requires WellFormed(older) && WellFormed(newer) && Touches(older, newer.lo, newer.hi)
    ensures WellFormed(Joined(Overlay, older, newer))
    ensures Get(Joined(Overlay, older, newer), a) == Over(Get(newer, a), Get(older, a))
  {
    var j := Joined(Overlay, older, newer);
    assert j.val == Overlay(older, newer);
    if Covers(j, a) {
      assert j.val[a - j.lo] == OverlayByte(older, newer, a);
    }
  }

  /** Merging a run of touched segments under e gives e's bytes, and theirs elsewhere. */
  lemma {:induction false} FoldGet(hits: seq<Segment>, e: Segment, a: int)
    requires Ordered(hits) && AllWellFormed(hits) && WellFormed(e)
    requires forall i :: 0 <= i < |hits| ==> Touches(hits[i], e.lo, e.hi)
    ensures WellFormed(Fold(Overlay, hits, e))
    ensures Get(Fold(Overlay, hits, e), a) == Over(Get(e, a), ByteAt(hits, a))
  {
    hide Overlay, Get;
    if hits != [] {
      var n := |hits| - 1;
      FoldGet(hits[..n], e, a);
      FoldRange(Overlay, hits[..n], e);
      OverlayGet(hits[n], Fold(Overlay, hits[..n], e), a);
    }
  }

  lemma {:induction false} ByteAtConcat(s: seq<Segment>, t: seq<Segment>, a: int)
    ensures ByteAt(s + t, a) == Over(ByteAt(s, a), ByteAt(t, a))
  {
    hide Get;
    if t == [] {
      assert s + t == s;
    } else {
      var n := |t| - 1;
      assert (s + t)[..|s| + n] == s + t[..n];
      ByteAtConcat(s, t[..n], a);
    }
  }

  /** A byte is mapped exactly where a segment covers it. */
  lemma {:induction false} Mapping(segs: seq<Segment>, a: int)
    requires AllWellFormed(segs)
    ensures ByteAt(segs, a).Some? <==> exists i :: 0 <= i < |segs| && Covers(segs[i], a)
  {
    if segs != [] {
      var n := |segs| - 1;
      Mapping(segs[..n], a);
      assert forall i :: 0 <= i < n ==> segs[..n][i] == segs[i];
      assert Get(segs[n], a).Some? <==> Covers(segs[n], a);
    }
  }

  /** One Emplace, seen as a byte map: the old map overridden by the new segment. */
  lemma Emplaced(segs: seq<Segment>, first: nat, end: nat, e: Segment, a: int)
    requires Ordered(segs) && AllWellFormed(segs) && WellFormed(e) && Hit(segs, first, end, e.lo, e.hi)
    ensures AllWellFormed(Placed(Overlay, segs, first, end, e))
    ensures ByteAt(Placed(Overlay, segs, first, end, e), a) == Over(Get(e, a), ByteAt(segs, a))
  {
    hide Overlay, Get, ByteAt, Fold, WellFormed, Ordered, Touches, Hit;
    HitParts(segs, first, end, e);
    var p, m, q := segs[..first], segs[first..end], segs[end..];
    FoldGet(m, e, a);
    BelowIsUnmapped(p, e, a);
    assert segs == p + m + q;
    Spliced(p, m, q, Fold(Overlay, m, e), e, a);
  }

  lemma HitParts(segs: seq<Segment>, first: nat, end: nat, e: Segment)
    requires Ordered(segs) && Hit(segs, first, end, e.lo, e.hi)
    ensures first <= end <= |segs| && Ordered(segs[first..end])
    ensures forall i :: 0 <= i < end - first ==> Touches(segs[first..end][i], e.lo, e.hi)
    ensures forall i :: 0 <= i < first ==> !Touches(segs[..first][i], e.lo, e.hi)
  {
    hide Touches;
    assert forall i :: 0 <= i < end - first ==> segs[first..end][i] == segs[first + i];
  }

  lemma Spliced(p: seq<Segment>, m: seq<Segment>, q: seq<Segment>, f: Segment, e: Segment, a: int)
    requires Get(f, a) == Over(Get(e, a), ByteAt(m, a)) && (Get(e, a).Some? ==> ByteAt(p, a).None?)
    ensures ByteAt(p + [f] + q, a) == Over(Get(e, a), ByteAt(p + m + q, a))
  {
    hide Get, ByteAt;
    ByteAtConcat(p + m, q, a);
    ByteAtConcat(p, m, a);
    ByteAtConcat(p + [f], q, a);
    ByteAtConcat(p, [f], a);
    ByteAtOne(f, a);
  }

  lemma ByteAtOne(s: Segment, a: int)
    ensures ByteAt([s], a) == Get(s, a)
  {
    hide Get;
    assert [s][..0] == [];
  }

  lemma BelowIsUnmapped(p: seq<Segment>, e: Segment, a: int)
    requires AllWellFormed(p) && forall i :: 0 <= i < |p| ==> !Touches(p[i], e.lo, e.hi)
    ensures Get(e, a).Some? ==> ByteAt(p, a).None?
  {
    Mapping(p, a);
  }

  // ---------------------------------------------------------------- the staging area

  ghost function Starts(segs: seq<Segment>): set<Word> {
    set i | 0 <= i < |segs| :: segs[i].lo
  }

  lemma PlacedStarts(segs: seq<Segment>, first: nat, end: nat, e: Segment)
    requires Ordered(segs) && WellFormed(e) && Hit(segs, first, end, e.lo, e.hi)
    ensures Starts(Placed(Overlay, segs, first, end, e)) <= Starts(segs) + {e.lo}
  {
    hide Fold, Overlay;
    var hits := segs[first..end];
    FoldRange(Overlay, hits, e);
    if first < end {
      assert hits[0] == segs[first];
    }
  }

  /** The bounds of the whole. */
  lemma PlacedBottom(segs: seq<Segment>, first: nat, end: nat, e: Segment)
    requires Ordered(segs) && WellFormed(e) && Hit(segs, first, end, e.lo, e.hi)
    ensures Placed(Overlay, segs, first, end, e)[0].lo == if segs == [] then e.lo else Min(segs[0].lo, e.lo)
  {
    hide Fold, Overlay, Touches;
    FoldRange(Overlay, segs[first..end], e);
    if first > 0 {
      assert segs[0].hi <= segs[first - 1].hi;
    }
  }

  lemma PlacedLast(segs: seq<Segment>, first: nat, end: nat, e: Segment)
    requires first <= end <= |segs|
    ensures var t := Placed(Overlay, segs, first, end, e);
      t[|t| - 1] == if end < |segs| then segs[|segs| - 1] else Fold(Overlay, segs[first..end], e)
  {
    hide Fold, Overlay;
  }

  lemma PlacedTop(segs: seq<Segment>, first: nat, end: nat, e: Segment)
    requires Ordered(segs) && WellFormed(e) && Hit(segs, first, end, e.lo, e.hi)
    ensures var t := Placed(Overlay, segs, first, end, e);
      t[|t| - 1].hi == if segs == [] then e.hi else Max(segs[|segs| - 1].hi, e.hi)
  {
    hide Fold, Overlay, Touches, Placed;
    PlacedLast(segs, first, end, e);
    FoldRange(Overlay, segs[first..end], e);
    if end < |segs| {
      assert segs[end].lo <= segs[|segs| - 1].hi;
    }
  }

  const NO_ADDRESS: Word := 0xFFFF_FFFF

  /** The byte at a once seg has been staged at offset over b. */
  function Staged(offset: Word, seg: seq<Byte>, b: Option<Byte>, a: int): Option<Byte> {
    if offset <= a < offset + |seg| then Some(seg[a - offset]) else b
  }

  lemma Added(segs: seq<Segment>, first: nat, end: nat, e: Segment)
    requires Ordered(segs) && AllWellFormed(segs) && WellFormed(e) && Hit(segs, first, end, e.lo, e.hi)
    ensures AllWellFormed(Placed(Overlay, segs, first, end, e))
    ensures forall a :: ByteAt(Placed(Overlay, segs, first, end, e), a) == Staged(e.lo, e.val, ByteAt(segs, a), a)
    ensures Starts(Placed(Overlay, segs, first, end, e)) <= Starts(segs) + {e.lo}
    ensures var t := Placed(Overlay, segs, first, end, e);
      && t != []
      && t[0].lo == (if segs == [] then e.lo else Min(segs[0].lo, e.lo))
      && t[|t| - 1].hi == (if segs == [] then e.hi else Max(segs[|segs| - 1].hi, e.hi))
  {
    hide Placed, Overlay, ByteAt, Starts, Ordered;
    PlacedStarts(segs, first, end, e);
    PlacedBottom(segs, first, end, e);
    PlacedTop(segs, first, end, e);
    forall a ensures ByteAt(Placed(Overlay, segs, first, end, e), a) == Staged(e.lo, e.val, ByteAt(segs, a), a)
      ensures AllWellFormed(Placed(Overlay, segs, first, end, e))
    {
      Emplaced(segs, first, end, e, a);
    }
    Emplaced(segs, first, end, e, 0);
  }

  class StagedMem {
    const segs: RangedMap<seq<Byte>>
    var minAddr: Word
    var maxAddr: Word

    /** Ordered disjoint segments, each as long as its range, and the bounds of the whole once there is one. */
    ghost predicate Valid()
      reads this, segs
    {
      && segs.Valid() && AllWellFormed(segs.entries)
      && (if segs.entries == [] then minAddr == NO_ADDRESS && maxAddr == 0
          else minAddr == segs.entries[0].lo && maxAddr == segs.entries[|segs.entries| - 1].hi)
    }

    ghost function Map(a: int): Option<Byte>
      reads this, segs
    {
      ByteAt(segs.entries, a)
    }

    constructor ()
      ensures Valid() && fresh(segs) && segs.entries == []
    {
      segs := new RangedMap<seq<Byte>>();
      minAddr, maxAddr := NO_ADDRESS, 0;
    }

    /** Newest wins: afterwards the byte map is the old one overridden by the segment. */
    method AddSegment(offset: Word, seg: seq<Byte>)
      requires Valid() && offset + |seg| <= TWO32
      modifies this, segs
      ensures Valid()
      ensures forall a :: Map(a) == Staged(offset, seg, old(Map(a)), a)
      ensures Starts(segs.entries) <= Starts(old(segs.entries)) + {offset}
    {
      hide Placed, Overlay, ByteAt, Starts, Ordered, Get;
      if |seg| == 0 {
        return;
      }
      ghost var before := segs.entries;
      var e := Entry(offset, offset + |seg| - 1, seg);
      minAddr := Min(minAddr, offset);
      maxAddr := Max(maxAddr, e.hi);
      var first, end := segs.Emplace(e, Overlay);
      Added(before, first, end, e);
    }
  }

  /** GetFlat: the bytes from the lowest to the highest staged address, gaps filled with zero. An empty stage has
      bounds 0xFFFFFFFF and 0, whose 32-bit difference makes the result two zero bytes long. */
  method GetFlat(s: StagedMem) returns (ret: seq<Byte>)
    requires s.Valid()
    ensures s.segs.entries == [] ==> ret == [0, 0]
    ensures s.segs.entries != [] ==> |ret| == s.maxAddr - s.minAddr + 1
    ensures s.segs.entries != [] ==> forall i :: 0 <= i < |ret| ==> ret[i] == Filled(s.Map(s.minAddr + i))
  {
    hide ByteAt, Filled;
    var segs, base := s.segs.entries, s.minAddr;
    var len: int := 1 + Sub32(s.maxAddr, base);
    if segs != [] {
      Within(segs);
    }
    ret := seq<Byte>(len, _ => 0);
    NoneStaged(base, ret);
    for k := 0 to |segs|
      invariant |ret| == len
      invariant segs == [] ==> len == 2 && ret == [0, 0]
      invariant forall i :: 0 <= i < len ==> ret[i] == Filled(ByteAt(segs[..k], base + i))
    {
      ghost var before := ret;
      ret := Memcpy(ret, segs[k].lo - base, segs[k].val);
      FlatStep(segs, k, base, before, ret);
    }
    assert segs[..|segs|] == segs;
  }

  lemma Within(segs: seq<Segment>)
    requires Ordered(segs) && segs != []
    ensures forall k :: 0 <= k < |segs| ==> segs[0].lo <= segs[k].lo && segs[k].hi <= segs[|segs| - 1].hi
  {
    forall k | 0 <= k < |segs| ensures segs[0].lo <= segs[k].lo && segs[k].hi <= segs[|segs| - 1].hi {
      assert k > 0 ==> segs[0].hi < segs[k].lo;
      assert k < |segs| - 1 ==> segs[k].hi < segs[|segs| - 1].lo;
    }
  }

  lemma NoneStaged(base: int, ret: seq<Byte>)
    requires forall i :: 0 <= i < |ret| ==> ret[i] == 0
    ensures forall segs: seq<Segment>, i :: 0 <= i < |ret| ==> ret[i] == Filled(ByteAt(segs[..0], base + i))
  {
  }

  lemma FlatStep(segs: seq<Segment>, k: nat, base: int, before: seq<Byte>, after: seq<Byte>)
    requires Ordered(segs) && AllWellFormed(segs) && k < |segs| && base <= segs[k].lo
    requires segs[k].lo - base + |segs[k].val| <= |before| && after == Memcpy(before, segs[k].lo - base, segs[k].val)
    requires forall i :: 0 <= i < |before| ==> before[i] == Filled(ByteAt(segs[..k], base + i))
    ensures |after| == |before|
    ensures forall i :: 0 <= i < |before| ==> after[i] == Filled(ByteAt(segs[..k + 1], base + i))
  {
    assert segs[..k + 1][..k] == segs[..k];
    forall i | 0 <= i < |before| ensures after[i] == Filled(ByteAt(segs[..k + 1], base + i)) {
      Mapping(segs[..k], base + i);
    }
  }
}
