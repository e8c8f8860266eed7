/** RangedMap: values attached to disjoint address ranges, kept in address order. */
module RangedMap {
  import opened Words

  /** The value val covers addresses lo .. hi, both included. */
  datatype Entry<+V> = Entry(lo: Word, hi: Word, val: V)

  predicate Covers<V>(e: Entry<V>, a: int) {
    e.lo <= a <= e.hi
  }

  predicate Touches<V>(e: Entry<V>, lo: int, hi: int) {
    e.lo <= hi && lo <= e.hi
  }

  predicate Ordered<V>(entries: seq<Entry<V>>) {
    && (forall i :: 0 <= i < |entries| ==> entries[i].lo <= entries[i].hi)
    && (forall i, j :: 0 <= i < j < |entries| ==> entries[i].hi < entries[j].lo)
  }

  /** Replacing entries i .. j-1 by one that reaches past neither neighbour keeps the order. */
  lemma ReplacedOrdered<V>(entries: seq<Entry<V>>, i: nat, j: nat, e: Entry<V>)
    requires Ordered(entries) && i <= j <= |entries| && e.lo <= e.hi
    requires i > 0 ==> entries[i - 1].hi < e.lo
    requires j < |entries| ==> e.hi < entries[j].lo
    ensures Ordered(entries[..i] + [e] + entries[j..])
  {
    var s := entries[..i] + [e] + entries[j..];
    forall x, y | 0 <= x < y < |s| ensures s[x].hi < s[y].lo {
      assert x < i ==> entries[x].hi <= entries[i - 1].hi;
      assert y > i ==> entries[j].lo <= s[y].lo;
    }
  }

  function Min(a: Word, b: Word): Word {
    if a < b then a else b
  }

  function Max(a: Word, b: Word): Word {
    if a < b then b else a
  }

  /** The older entry e0 merged under the newer e1. */
  function Joined<V>(merge: (Entry<V>, Entry<V>) -> V, e0: Entry<V>, e1: Entry<V>): Entry<V> {
    Entry(Min(e0.lo, e1.lo), Max(e0.hi, e1.hi), merge(e0, e1))
  }

  /** All of hits merged, in order, under e. */
  function Fold<V>(merge: (Entry<V>, Entry<V>) -> V, hits: seq<Entry<V>>, e: Entry<V>): Entry<V> {
    if hits == [] then e else Joined(merge, hits[|hits| - 1], Fold(merge, hits[..|hits| - 1], e))
  }

  /** The merged entry reaches from the lower of the two bottoms to the higher of the two tops. */
  lemma {:induction false} FoldRange<V>(merge: (Entry<V>, Entry<V>) -> V, hits: seq<Entry<V>>, e: Entry<V>)
    requires Ordered(hits) && e.lo <= e.hi
    ensures Fold(merge, hits, e).lo == if hits == [] then e.lo else Min(hits[0].lo, e.lo)
    ensures Fold(merge, hits, e).hi == if hits == [] then e.hi else Max(hits[|hits| - 1].hi, e.hi)
  {
    if hits != [] {
      FoldRange(merge, hits[..|hits| - 1], e);
    }
  }

  /** The merged entry still lies between the neighbours of the entries it replaces. */
  lemma FoldFits<V>(merge: (Entry<V>, Entry<V>) -> V, entries: seq<Entry<V>>, first: nat, end: nat, e: Entry<V>)
    requires Ordered(entries) && e.lo <= e.hi && first <= end <= |entries|
    requires first > 0 ==> entries[first - 1].hi < e.lo
    requires end < |entries| ==> e.hi < entries[end].lo
    ensures var f := Fold(merge, entries[first..end], e);
      && f.lo <= f.hi
      && (first > 0 ==> entries[first - 1].hi < f.lo)
      && (end < |entries| ==> f.hi < entries[end].lo)
  {
    hide Fold;
    FoldRange(merge, entries[first..end], e);
  }

  /** Entries first .. end-1 are those that lo .. hi touches; the ones before lie below, the ones after above. */
  predicate Hit<V>(entries: seq<Entry<V>>, first: nat, end: nat, lo: int, hi: int) {
    && first <= end <= |entries|
    && (forall i :: 0 <= i < |entries| ==> (Touches(entries[i], lo, hi) <==> first <= i < end))
    && (first > 0 ==> entries[first - 1].hi < lo)
    && (end < |entries| ==> hi < entries[end].lo)
  }

  lemma HitBetween<V>(entries: seq<Entry<V>>, first: nat, end: nat, lo: int, hi: int)
    requires Ordered(entries) && first <= end <= |entries|
    requires forall i :: first <= i < end ==> lo <= entries[i].hi && entries[i].lo <= hi
    requires first > 0 ==> entries[first - 1].hi < lo
    requires end < |entries| ==> hi < entries[end].lo
    ensures Hit(entries, first, end, lo, hi)
  {
    forall i | 0 <= i < |entries| ensures Touches(entries[i], lo, hi) <==> first <= i < end {
      assert i < first ==> entries[i].hi <= entries[first - 1].hi;
      assert end <= i ==> entries[end].lo <= entries[i].lo;
    }
  }

  /** entries with e merged over entries first .. end-1. */
  function Placed<V>(merge: (Entry<V>, Entry<V>) -> V, entries: seq<Entry<V>>, first: nat, end: nat, e: Entry<V>)
    : (t: seq<Entry<V>>)
    requires first <= end <= |entries|
    ensures t != []
  {
    entries[..first] + [Fold(merge, entries[first..end], e)] + entries[end..]
  }

  class RangedMap<V> {
    var entries: seq<Entry<V>>

    ghost predicate Valid()
      reads this
    {
      Ordered(entries)
    }

    constructor ()
      ensures Valid() && entries == []
    {
      entries := [];
    }

    /** std::map::upper_bound on ranges: the first entry that starts strictly above a. */
    method UpperBound(a: int) returns (k: nat)
      requires Valid()
      ensures k <= |entries|
      ensures forall i :: 0 <= i < k ==> entries[i].lo <= a
      ensures forall i :: k <= i < |entries| ==> a < entries[i].lo
    {
      k := 0;
      while k < |entries| && entries[k].lo <= a
        invariant k <= |entries|
        invariant forall i :: 0 <= i < k ==> entries[i].lo <= a
      {
        k := k + 1;
      }
    }

    /** The entries that touch lo .. hi are exactly those from the first result up to the second. */
    method Hits(lo: Word, hi: Word) returns (first: nat, end: nat)
      requires Valid() && lo <= hi
      ensures Hit(entries, first, end, lo, hi)
    {
      hide Touches;
      var right := UpperBound(lo);
      end := right;
      while end < |entries| && entries[end].lo <= hi
        invariant right <= end <= |entries|
        invariant forall i :: right <= i < end ==> entries[i].lo <= hi && lo <= entries[i].hi
      {
        end := end + 1;
      }
      first := right;
      while first > 0 && lo <= entries[first - 1].hi
        invariant 0 <= first <= right
        invariant forall i :: first <= i < right ==> lo <= entries[i].hi && entries[i].lo <= hi
      {
        first := first - 1;
      }
      HitBetween(entries, first, end, lo, hi);
    }

    /** The entry that covers a, if there is one. */
    method Find(a: int) returns (r: Option<Entry<V>>)
      requires Valid()
      ensures r.Some? ==> r.value in entries && Covers(r.value, a)
      ensures r.None? <==> forall i :: 0 <= i < |entries| ==> !Covers(entries[i], a)
    {
      if |entries| == 0 {
        return None;
      }
      var k := UpperBound(a);
      if k == 0 {
        return None;
      }
      assert forall i :: 0 <= i < k - 1 ==> entries[i].hi < entries[k - 1].lo;
      r := if a <= entries[k - 1].hi then Some(entries[k - 1]) else None;
    }

    /** Inserts e unless it would overlap an entry; then the map stays as it is and that entry's value is returned. */
    method EmplaceDisjoint(e: Entry<V>) returns (clash: Option<V>)
      requires Valid() && e.lo <= e.hi
      modifies this
      ensures Valid()
      ensures clash.None? <==> forall i :: 0 <= i < |old(entries)| ==> !Touches(old(entries)[i], e.lo, e.hi)
      ensures clash.Some? ==>
        && entries == old(entries)
        && exists i :: 0 <= i < |entries| && Touches(entries[i], e.lo, e.hi) && entries[i].val == clash.value
      ensures clash.None? ==>
        exists k :: 0 <= k <= |old(entries)| && entries == old(entries)[..k] + [e] + old(entries)[k..]
    {
      var k := 0;
      if |entries| != 0 {
        k := UpperBound(e.lo);
        if k != |entries| && entries[k].lo <= e.hi {
          assert Touches(entries[k], e.lo, e.hi);
          return Some(entries[k].val);
        }
        if k != 0 && e.lo <= entries[k - 1].hi {
          assert Touches(entries[k - 1], e.lo, e.hi);
          return Some(entries[k - 1].val);
        }
      }
      assert forall i :: 0 <= i < |entries| ==> !Touches(entries[i], e.lo, e.hi) by { Apart(entries, k, e.lo, e.hi); }
      ReplacedOrdered(entries, k, k, e);
      entries := entries[..k] + [e] + entries[k..];
      clash := None;
    }

    /** Inserts e, merging it over every entry it touches; the two results say which those were. */
    method Emplace(e: Entry<V>, merge: (Entry<V>, Entry<V>) -> V) returns (first: nat, end: nat)
      requires Valid() && e.lo <= e.hi
      modifies this
      ensures Valid() && Hit(old(entries), first, end, e.lo, e.hi)
      ensures entries == Placed(merge, old(entries), first, end, e)
    {
      hide Fold, Ordered;
      first, end := Hits(e.lo, e.hi);
      var acc := MergeHits(entries[first..end], e, merge);
      FoldFits(merge, entries, first, end, e);
      ReplacedOrdered(entries, first, end, acc);
      entries := entries[..first] + [acc] + entries[end..];
    }
  }

  /** Merges the entries a new one touches, accumulating value and range. */
  method MergeHits<V>(hits: seq<Entry<V>>, e: Entry<V>, merge: (Entry<V>, Entry<V>) -> V) returns (acc: Entry<V>)
    ensures acc == Fold(merge, hits, e)
  {
    if hits == [] {
      return e;
    }
    acc := Joined(merge, hits[0], e);
    assert hits[..1][..0] == [];
    for k := 1 to |hits|
      invariant acc == Fold(merge, hits[..k], e)
    {
      assert hits[..k + 1][..k] == hits[..k];
      acc := Joined(merge, hits[k], acc);
    }
    assert hits[..|hits|] == hits;
  }

  lemma Apart<V>(entries: seq<Entry<V>>, k: nat, lo: int, hi: int)
    requires Ordered(entries) && k <= |entries|
    requires k > 0 ==> entries[k - 1].hi < lo
    requires k < |entries| ==> hi < entries[k].lo
    ensures forall i :: 0 <= i < |entries| ==> !Touches(entries[i], lo, hi)
  {
    forall i | 0 <= i < |entries| ensures !Touches(entries[i], lo, hi) {
      assert i < k ==> entries[i].hi <= entries[k - 1].hi;
      assert i >= k ==> entries[k].lo <= entries[i].lo;
    }
  }
}
