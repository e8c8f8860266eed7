/** The PIO instruction memory: programs placed and removed under a bit mask of the slots in use. */
module PioAlloc {
  import opened Words
  import opened Pio
  import PioSm

  /** A program asks for a fixed place (`origin` not negative) or for any place. */
  datatype Program = Program(instructions: seq<Int16>, origin: int)

  datatype Loaded = Loaded(program: Program, offset: Int5)

  const FAILED: int := -1

  /** Lengths and places the mask arithmetic of the SDK is defined for: `1u << 32` is not. */
  predicate Usable(p: Program) {
    1 <= |p.instructions| <= 31 && p.origin <= 31
  }

  function Length(p: Program): nat {
    |p.instructions|
  }

  /** ((1 << length) - 1) << offset. */
  function Mask(length: nat, offset: nat): Bits32 {
    seq(32, k requires 0 <= k < 32 => offset <= k < offset + length)
  }

  function And(a: Bits32, b: Bits32): Bits32 {
    seq(32, k requires 0 <= k < 32 => a[k] && b[k])
  }

  /** pio_can_add_program_at_offset. */
  predicate Fits(used: Bits32, p: Program, offset: nat) {
    offset + Length(p) <= 32 && And(used, Mask(Length(p), offset)) == ZERO
  }

  // ---------------------------------------------------------------- what the mask stands for

  predicate Covers(l: Loaded, k: int) {
    l.offset <= k < l.offset + Length(l.program)
  }

  predicate Apart(a: Loaded, b: Loaded) {
    a.offset + Length(a.program) <= b.offset || b.offset + Length(b.program) <= a.offset
  }

  /** The live programs lie in the memory, each whole, no two sharing a slot. */
  ghost predicate Placed(mem: seq<Int16>, live: set<Loaded>) {
    && |mem| == 32
    && (forall l :: l in live ==>
          Usable(l.program) && PioSm.Holds(mem, l.program.instructions, l.offset))
    && (forall a, b :: a in live && b in live && a != b ==> Apart(a, b))
  }

  /** The mask is exactly the union of the live programs' slots. */
  ghost predicate Exact(used: Bits32, live: set<Loaded>) {
    forall k :: 0 <= k < 32 ==> (used[k] <==> exists l :: l in live && Covers(l, k))
  }

  /** A slot is free of live programs. */
  ghost predicate Free(live: set<Loaded>, offset: Int5, length: nat) {
    forall l :: l in live ==> l.offset + Length(l.program) <= offset || offset + length <= l.offset
  }

  lemma FitsAt(used: Bits32, p: Program, offset: Int5, k: int)
    requires Fits(used, p, offset) && offset <= k < offset + Length(p)
    ensures !used[k]
  {
    assert And(used, Mask(Length(p), offset))[k] == ZERO[k];
  }

  /** The mask test finds room exactly where no live program lies. */
  lemma FitsMeans(mem: seq<Int16>, used: Bits32, live: set<Loaded>, p: Program, offset: Int5)
    requires Placed(mem, live) && Exact(used, live) && Usable(p)
    ensures Fits(used, p, offset) <==> offset + Length(p) <= 32 && Free(live, offset, Length(p))
  {
    if Fits(used, p, offset) {
      FitsFree(mem, used, live, p, offset);
    } else if offset + Length(p) <= 32 && Free(live, offset, Length(p)) {
      FreeFits(used, live, p, offset);
    }
  }

  lemma FitsFree(mem: seq<Int16>, used: Bits32, live: set<Loaded>, p: Program, offset: Int5)
    requires Placed(mem, live) && Exact(used, live) && Usable(p) && Fits(used, p, offset)
    ensures Free(live, offset, Length(p))
  {
    hide Fits, Mask, And;
    forall l | l in live
      ensures l.offset + Length(l.program) <= offset || offset + Length(p) <= l.offset
    {
      if l.offset < offset + Length(p) && offset < l.offset + Length(l.program) {
        var k: int := if l.offset < offset then offset else l.offset;
        assert Covers(l, k);
        FitsAt(used, p, offset, k);
      }
    }
  }

  lemma FreeFits(used: Bits32, live: set<Loaded>, p: Program, offset: Int5)
    requires Exact(used, live) && offset + Length(p) <= 32 && Free(live, offset, Length(p))
    ensures Fits(used, p, offset)
  {
    var both := And(used, Mask(Length(p), offset));
    forall k | 0 <= k < 32
      ensures both[k] == ZERO[k]
    {
      if offset <= k < offset + Length(p) {
        assert forall l :: l in live ==> !Covers(l, k);
      }
    }
  }

  /** The memory with a program's words at an offset. */
  function Written(mem: seq<Int16>, words: seq<Int16>, offset: nat): seq<Int16>
    requires offset + |words| <= |mem|
  {
    mem[..offset] + words + mem[offset + |words|..]
  }

  lemma WrittenHolds(mem: seq<Int16>, words: seq<Int16>, offset: Int5)
    requires |mem| == 32 && offset + |words| <= 32
    ensures PioSm.Holds(Written(mem, words, offset), words, offset)
  {
  }

  lemma WrittenElsewhere(mem: seq<Int16>, words: seq<Int16>, offset: Int5, other: seq<Int16>, at: Int5)
    requires |mem| == 32 && offset + |words| <= 32 && PioSm.Holds(mem, other, at)
    requires at + |other| <= offset || offset + |words| <= at
    ensures PioSm.Holds(Written(mem, words, offset), other, at)
  {
    var after, before := Written(mem, words, offset)[at..at + |other|], mem[at..at + |other|];
    assert |after| == |before|;
    forall k | 0 <= k < |other|
      ensures after[k] == before[k]
    {
    }
  }

  /** Adding a program where it fits: the live programs are those before and this one, all whole and apart. */
  lemma AddKeeps(mem: seq<Int16>, live: set<Loaded>, p: Program, offset: Int5)
    requires Placed(mem, live) && Usable(p)
    requires offset + Length(p) <= 32 && Free(live, offset, Length(p))
    ensures Placed(Written(mem, p.instructions, offset), live + {Loaded(p, offset)})
    ensures Loaded(p, offset) !in live
  {
    hide Written, PioSm.Holds;
    var mem' := Written(mem, p.instructions, offset);
    WrittenHolds(mem, p.instructions, offset);
    forall l | l in live
      ensures PioSm.Holds(mem', l.program.instructions, l.offset)
    {
      WrittenElsewhere(mem, p.instructions, offset, l.program.instructions, l.offset);
    }
    HoldsLength(mem', p.instructions, offset);
  }

  lemma HoldsLength(mem: seq<Int16>, words: seq<Int16>, offset: Int5)
    requires PioSm.Holds(mem, words, offset)
    ensures |mem| == 32
  {
  }

  lemma AddExact(used: Bits32, live: set<Loaded>, p: Program, offset: Int5)
    requires Exact(used, live)
    ensures Exact(Or(used, Mask(Length(p), offset)), live + {Loaded(p, offset)})
  {
    var now := Or(used, Mask(Length(p), offset));
    var live' := live + {Loaded(p, offset)};
    forall k | 0 <= k < 32
      ensures now[k] <==> exists l :: l in live' && Covers(l, k)
    {
      assert now[k] <==> used[k] || Covers(Loaded(p, offset), k);
      if used[k] {
        var l :| l in live && Covers(l, k);
        assert l in live';
      }
      if Covers(Loaded(p, offset), k) {
        assert Loaded(p, offset) in live';
      }
    }
  }

  function Without(used: Bits32, mask: Bits32): Bits32 {
    And(used, Not(mask))
  }

  lemma RemoveExact(mem: seq<Int16>, used: Bits32, live: set<Loaded>, l: Loaded)
    requires Placed(mem, live) && Exact(used, live) && l in live
    ensures Exact(Without(used, Mask(Length(l.program), l.offset)), live - {l})
  {
    var now := Without(used, Mask(Length(l.program), l.offset));
    var live' := live - {l};
    forall k | 0 <= k < 32
      ensures now[k] <==> exists o :: o in live' && Covers(o, k)
    {
      assert now[k] <==> used[k] && !Covers(l, k);
      if now[k] {
        var o :| o in live && Covers(o, k);
        assert o in live';
      }
      if o :| o in live' && Covers(o, k) {
        assert o in live && Apart(o, l);
      }
    }
  }

  // ---------------------------------------------------------------- the SDK's calls

  /** The place a program goes to: its own if it asks for one, else the first that fits. */
  ghost predicate Chosen(live: set<Loaded>, p: Program, offset: Int5) {
    && offset + Length(p) <= 32 && Free(live, offset, Length(p))
    && (p.origin >= 0 ==> offset == p.origin)
    && (p.origin < 0 ==> forall i: Int5 :: i < offset ==> !Free(live, i, Length(p)))
  }

  /** No place will do. */
  ghost predicate NoRoom(live: set<Loaded>, p: Program) {
    forall i: Int5 :: Free(live, i, Length(p)) && i + Length(p) <= 32 ==> p.origin >= 0 && i != p.origin
  }

  class Space {
    const instrMem: array<Int16>
    var used: Bits32
    ghost var live: set<Loaded>

    ghost predicate Valid()
      reads this, instrMem
    {
      Placed(instrMem[..], live) && Exact(used, live)
    }

    /** pio_clear_instruction_memory: every slot a jump to itself, nothing live. */
    constructor ()
      ensures Valid() && fresh(instrMem) && live == {}
      ensures forall i :: 0 <= i < 32 ==> instrMem[i] == i
    {
      instrMem := new Int16[32](i => if 0 <= i < 32 then i else 0);
      used := ZERO;
      live := {};
    }

    method CanAdd(p: Program) returns (can: bool)
      requires Valid() && Usable(p)
      ensures can <==> !NoRoom(live, p)
    {
      hide Placed, Exact, Fits, Free, Usable;
      FitsEverywhere(instrMem[..], used, live, p);
      if p.origin >= 0 {
        return Fits(used, p, p.origin);
      }
      var i := 0;
      while i + Length(p) <= 32
        invariant 0 <= i
        invariant forall j: Int5 :: j < i ==> !Fits(used, p, j)
      {
        if Fits(used, p, i) {
          return true;
        }
        i := i + 1;
      }
      return false;
    }

    /** The words are copied in place, slot by slot. */
    method Copy(words: seq<Int16>, offset: Int5)
      requires instrMem.Length == 32 && offset + |words| <= 32
      modifies instrMem
      ensures instrMem[..] == Written(old(instrMem[..]), words, offset)
    {
      for i := 0 to |words|
        invariant instrMem[..] == Written(old(instrMem[..]), words[..i], offset)
      {
        instrMem[offset + i] := words[i];
        WrittenOneMore(old(instrMem[..]), words, offset, i);
      }
      assert words[..|words|] == words;
    }

    /** Fails, changing nothing, unless the place is free; else the program is live there and no live program changed. */
    method AddAt(p: Program, offset: Int5) returns (r: int)
      requires Valid() && Usable(p)
      modifies this, instrMem
      ensures Valid()
      ensures offset + Length(p) <= 32 && old(Free(live, offset, Length(p))) ==>
                r == offset && live == old(live) + {Loaded(p, offset)} && Loaded(p, offset) !in old(live)
      ensures !(offset + Length(p) <= 32 && old(Free(live, offset, Length(p)))) ==>
                r == FAILED && live == old(live) && used == old(used) && instrMem[..] == old(instrMem[..])
    {
      hide Placed, Exact, Fits, Free, Usable, Mask, Or, Written;
      FitsMeans(instrMem[..], used, live, p, offset);
      PlacedLength(instrMem[..], live);
      if !Fits(used, p, offset) {
        return FAILED;
      }
      AddKeeps(instrMem[..], live, p, offset);
      AddExact(used, live, p, offset);
      Copy(p.instructions, offset);
      used := Or(used, Mask(Length(p), offset));
      live := live + {Loaded(p, offset)};
      return offset;
    }

    /** First fit: the program goes to its chosen place, and fails only when there is no room for it. */
    method Add(p: Program) returns (r: int)
      requires Valid() && Usable(p)
      modifies this, instrMem
      ensures Valid()
      ensures old(NoRoom(live, p)) ==>
                r == FAILED && live == old(live) && used == old(used) && instrMem[..] == old(instrMem[..])
      ensures !old(NoRoom(live, p)) ==>
                && 0 <= r < 32 && old(live) !! {Loaded(p, r)} && live == old(live) + {Loaded(p, r)}
                && Chosen(old(live), p, r)
    {
      hide Placed, Exact, Fits, Free, Usable;
      FitsEverywhere(instrMem[..], used, live, p);
      if p.origin >= 0 {
        r := AddAt(p, p.origin);
        return;
      }
      var i := 0;
      while i + Length(p) <= 32
        invariant 0 <= i
        invariant forall j: Int5 :: j < i ==> !Fits(used, p, j)
        invariant live == old(live) && used == old(used) && instrMem[..] == old(instrMem[..])
      {
        if Fits(used, p, i) {
          r := AddAt(p, i);
          return;
        }
        i := i + 1;
      }
      return FAILED;
    }

    /** Removing a live program frees exactly its slots; the others stay live and whole. */
    method Remove(p: Program, offset: Int5)
      requires Valid() && Loaded(p, offset) in live
      modifies this
      ensures Valid() && live == old(live) - {Loaded(p, offset)}
    {
      RemoveExact(instrMem[..], used, live, Loaded(p, offset));
      RemovePlaced(instrMem[..], live, Loaded(p, offset));
      hide Placed, Exact, Without, Mask;
      used := Without(used, Mask(Length(p), offset));
      live := live - {Loaded(p, offset)};
    }
  }

  lemma WrittenOneMore(mem: seq<Int16>, words: seq<Int16>, offset: Int5, i: nat)
    requires |mem| == 32 && offset + |words| <= 32 && i < |words|
    ensures Written(mem, words[..i], offset)[offset + i := words[i]] == Written(mem, words[..i + 1], offset)
  {
  }

  lemma PlacedLength(mem: seq<Int16>, live: set<Loaded>)
    requires Placed(mem, live)
    ensures |mem| == 32
  {
  }

  lemma RemovePlaced(mem: seq<Int16>, live: set<Loaded>, l: Loaded)
    requires Placed(mem, live)
    ensures Placed(mem, live - {l})
  {
  }

  lemma FitsEverywhere(mem: seq<Int16>, used: Bits32, live: set<Loaded>, p: Program)
    requires Placed(mem, live) && Exact(used, live) && Usable(p)
    ensures forall i: Int5 :: Fits(used, p, i) <==> i + Length(p) <= 32 && Free(live, i, Length(p))
    ensures 1 <= Length(p) <= 31 && p.origin <= 31
  {
    hide Fits, Free, Exact, Placed;
    forall i: Int5
      ensures Fits(used, p, i) <==> i + Length(p) <= 32 && Free(live, i, Length(p))
    {
      FitsMeans(mem, used, live, p, i);
    }
  }

  // ---------------------------------------------------------------- placement and confinement together

  /** The instruction memory and its live programs at one time. */
  datatype Layout = Layout(mem: seq<Int16>, live: set<Loaded>)

  ghost function Memories(spaces: seq<Layout>): (m: seq<seq<Int16>>)
    ensures |m| == |spaces|
  {
    if spaces == [] then [] else [spaces[0].mem] + Memories(spaces[1..])
  }

  /** The state machine runs while programs come and go around `l`, which stays live; it sees the memory's word at its
      program counter, and forced words are confined to `l`. */
  ghost predicate RunsAmid(c: PioSm.Config, vs: seq<PioSm.Inputs>, spaces: seq<Layout>, l: Loaded, r: PioSm.Regs)
    requires Usable(l.program) && l.offset + Length(l.program) <= 32
  {
    if vs == [] then true
    else
      && spaces != [] && Placed(spaces[0].mem, spaces[0].live) && l in spaces[0].live
      && vs[0].instr == spaces[0].mem[r.pc]
      && PioSm.Confined(vs[0].forceInstr, l.offset, l.offset + Length(l.program) - 1)
      && RunsAmid(c, vs[1..], spaces[1..], l, PioSm.Clock(c, vs[0], r))
  }

  lemma {:induction false} AmidFetches(c: PioSm.Config, vs: seq<PioSm.Inputs>, spaces: seq<Layout>, l: Loaded,
                                       r: PioSm.Regs)
    requires Usable(l.program) && l.offset + Length(l.program) <= 32
    requires RunsAmid(c, vs, spaces, l, r)
    ensures PioSm.Fetches(c, vs, Memories(spaces), l.program.instructions, l.offset, r)
  {
    hide PioSm.Clock, PioSm.Confined, PioSm.Holds;
    if vs != [] {
      AmidFetches(c, vs[1..], spaces[1..], l, PioSm.Clock(c, vs[0], r));
      assert Memories(spaces)[1..] == Memories(spaces[1..]);
    }
  }

  /** While a program is live, a state machine wrapped to it and confined by it only ever fetches that program's own
      words, whatever other programs are added and removed meanwhile. */
  lemma LiveProgramConfined(c: PioSm.Config, vs: seq<PioSm.Inputs>, spaces: seq<Layout>, l: Loaded, r: PioSm.Regs)
    requires Usable(l.program) && l.offset + Length(l.program) <= 32
    requires var last := l.offset + Length(l.program) - 1;
             && PioSm.WrapsInside(c, l.offset, last) && PioSm.Within(r, l.offset, last)
             && forall k :: 0 <= k < Length(l.program) ==>
                  PioSm.Confined(l.program.instructions[k], l.offset, last)
    requires RunsAmid(c, vs, spaces, l, r)
    ensures forall t :: 0 <= t < |vs| ==>
              0 <= PioSm.Pcs(c, vs, r)[t] - l.offset < Length(l.program)
              && vs[t].instr == l.program.instructions[PioSm.Pcs(c, vs, r)[t] - l.offset]
  {
    hide PioSm.Clock, PioSm.Confined, PioSm.Fetches, RunsAmid, PioSm.Pcs;
    AmidFetches(c, vs, spaces, l, r);
    PioSm.EveryRunConfined(c, vs, Memories(spaces), l.program.instructions, l.offset, r);
  }
}
