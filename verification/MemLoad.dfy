/** Memory areas, written a word at a time, and the loading of an ELF file's segments into them. */
module MemLoad {
  import opened Words
  import opened RangedMap
  import opened Staging

  const MEM_WIDTH_BYTES := 40

  /** The word that starts at byte `start` of data, zero-extended past its end. */
  function WordAt(data: seq<Byte>, start: int, width: nat): seq<Byte> {
    seq<Byte>(width, j => if 0 <= start + j < |data| then data[start + j] else 0)
  }

  /** Words needed for n bytes. */
  function WordCount(n: nat, width: nat): nat
    requires 0 < width
  {
    (n + width - 1) / width
  }

  lemma WordCountIs(n: nat, width: nat)
    requires 0 < width
    ensures n <= Cell(WordCount(n, width), 0, width) < n + width
  {
    Recompose(n + width - 1, width);
  }

  class MemArea {
    const numWords: nat
    const width: nat
    const mem: array<seq<Byte>>

    ghost predicate Valid()
      reads mem
    {
      && 0 < numWords && 0 < width <= MEM_WIDTH_BYTES && mem.Length == numWords
      && forall w :: 0 <= w < numWords ==> |mem[w]| == width
    }

    constructor (numWords: nat, width: nat)
      requires 0 < numWords && 0 < width <= MEM_WIDTH_BYTES
      ensures Valid() && fresh(mem) && this.numWords == numWords && this.width == width
    {
      this.numWords, this.width := numWords, width;
      mem := new seq<Byte>[numWords](_ => seq<Byte>(width, _ => 0));
    }

    method WriteBuffer(buf: array<Byte>, data: seq<Byte>, start: nat)
      requires Valid() && buf.Length == MEM_WIDTH_BYTES && start < |data|
      modifies buf
      ensures buf[..width] == WordAt(data, start, width)
    {
      var wordsLeft := |data| - start;
      var toCopy := if wordsLeft < width then wordsLeft else width;
      if toCopy < width {
        for j := 0 to MEM_WIDTH_BYTES
          invariant forall x :: 0 <= x < j ==> buf[x] == 0
        {
          buf[j] := 0;
        }
      }
      for j := 0 to toCopy
        invariant forall x :: 0 <= x < j ==> buf[x] == data[start + x]
        invariant toCopy < width ==> forall x :: j <= x < width ==> buf[x] == 0
      {
        buf[j] := data[start + j];
      }
    }

    /** Words wordOffset, wordOffset + 1, ... become the words of data, the last one zero-extended; no other word changes. */
    method Write(wordOffset: nat, data: seq<Byte>)
      requires Valid() && wordOffset + WordCount(|data|, width) <= numWords
      modifies mem
      ensures Valid()
      ensures forall w :: 0 <= w < numWords ==>
        mem[w] == if wordOffset <= w < wordOffset + WordCount(|data|, width)
                  then WordAt(data, Cell(w - wordOffset, 0, width), width) else old(mem[w])
    {
      hide WordAt, Cell;
      var minibuf := new Byte[MEM_WIDTH_BYTES](_ => 0);
      var dataWords := WordCount(|data|, width);
      for i := 0 to dataWords
        invariant Valid()
        invariant forall w :: 0 <= w < numWords ==>
          mem[w] == if wordOffset <= w < wordOffset + i
                    then WordAt(data, Cell(w - wordOffset, 0, width), width) else old(mem[w])
      {
        WordStarts(|data|, width, i);
        WriteBuffer(minibuf, data, Cell(i, 0, width));
        mem[wordOffset + i] := minibuf[..width];
      }
    }
  }

  lemma WordStarts(n: nat, width: nat, i: nat)
    requires 0 < width && i < WordCount(n, width)
    ensures 0 <= Cell(i, 0, width) < n
  {
    WordCountIs(n, width);
    Monotone(i, WordCount(n, width) - 1, width);
  }

  // ---------------------------------------------------------------- loading a staging area

  /** Some byte of word w is staged. */
  predicate Touched(segs: seq<Segment>, w: int, width: nat) {
    exists j :: 0 <= j < width && ByteAt(segs, Cell(w, j, width)).Some?
  }

  /** Word w after loading: the staged bytes with zeros where nothing is staged, or as it was if untouched. */
  function WordImage(segs: seq<Segment>, w: int, width: nat, old_: seq<Byte>): seq<Byte> {
    if Touched(segs, w, width) then seq<Byte>(width, j => Filled(ByteAt(segs, Cell(w, j, width)))) else old_
  }

  predicate Aligned(segs: seq<Segment>, width: nat)
    requires 0 < width
  {
    forall i :: 0 <= i < |segs| ==> segs[i].lo % width == 0
  }

  /** Every segment ends inside the area. */
  predicate Inside(segs: seq<Segment>, numWords: nat, width: nat) {
    forall i :: 0 <= i < |segs| ==> segs[i].hi < Cell(numWords, 0, width)
  }

  /** Word w holds a byte of segment s. */
  predicate InWords(s: Segment, w: int, width: nat)
    requires 0 < width
  {
    s.lo / width <= w < s.lo / width + WordCount(|s.val|, width)
  }

  /** An aligned segment has a byte in exactly the words written for it, among them the first byte of each. */
  lemma SegmentWords(s: Segment, w: int, j: int, width: nat)
    requires 0 < width && WellFormed(s) && s.lo % width == 0 && 0 <= j < width
    ensures Covers(s, Cell(w, j, width)) ==> InWords(s, w, width)
    ensures InWords(s, w, width) ==> Covers(s, Cell(w, 0, width))
    ensures InWords(s, w, width) ==> Cell(w, 0, width) - s.lo == Cell(w - s.lo / width, 0, width)
  {
    hide Cell;
    var lw, n := s.lo / width, WordCount(|s.val|, width);
    Recompose(s.lo, width);
    WordCountIs(|s.val|, width);
    Split(w, j, lw, width);
    if InWords(s, w, width) {
      WordStarts(|s.val|, width, w - lw);
    } else if w < lw {
      Ahead(w, lw, j, width);
    } else {
      Ahead'(lw + n, w, j, width);
      Split(lw + n, 0, lw, width);
    }
  }

  lemma Split(w: int, j: int, lw: int, width: nat)
    ensures Cell(w, j, width) == Cell(lw, 0, width) + Cell(w - lw, 0, width) + j
    ensures Cell(w, j, width) == Cell(w, 0, width) + j
  {
  }

  lemma Ahead(w: int, lw: int, j: int, width: nat)
    requires w < lw && 0 <= j < width
    ensures Cell(w, j, width) < Cell(lw, 0, width)
  {
    Monotone(w + 1, lw, width);
  }

  lemma Ahead'(w: int, lw: int, j: int, width: nat)
    requires w <= lw && 0 <= j < width
    ensures Cell(w, 0, width) <= Cell(lw, j, width)
  {
    Monotone(w, lw, width);
  }

  /** Segments below an aligned segment have no byte in its words, so its zero-extended last word clobbers nothing. */
  lemma WordsApart(segs: seq<Segment>, s: Segment, w: int, j: int, width: nat)
    requires 0 < width && AllWellFormed(segs) && WellFormed(s) && s.lo % width == 0 && 0 <= j < width
    requires forall i :: 0 <= i < |segs| ==> segs[i].hi < s.lo
    ensures InWords(s, w, width) ==> ByteAt(segs, Cell(w, j, width)).None?
  {
    hide Cell, ByteAt;
    SegmentWords(s, w, j, width);
    Split(w, j, w, width);
    Mapping(segs, Cell(w, j, width));
  }

  lemma ByteAtSnoc(segs: seq<Segment>, k: nat, a: int)
    requires k < |segs|
    ensures ByteAt(segs[..k + 1], a) == Over(ByteAt(segs[..k], a), Get(segs[k], a))
  {
    hide Get;
    assert segs[..k + 1][..k] == segs[..k];
  }

  /** Writing segment k on top of the first k: its words become their image, the others keep theirs. */
  lemma WordLoaded(segs: seq<Segment>, k: nat, w: int, width: nat, old_: seq<Byte>)
    requires Ordered(segs) && AllWellFormed(segs) && 0 < width && Aligned(segs, width) && k < |segs|
    ensures InWords(segs[k], w, width) ==>
      WordAt(segs[k].val, Cell(w - segs[k].lo / width, 0, width), width) == WordImage(segs[..k + 1], w, width, old_)
    ensures !InWords(segs[k], w, width) ==>
      WordImage(segs[..k], w, width, old_) == WordImage(segs[..k + 1], w, width, old_)
  {
    hide Cell, ByteAt, InWords, Ordered, WellFormed, Get;
    var s := segs[k];
    forall j | 0 <= j < width
      ensures ByteAt(segs[..k + 1], Cell(w, j, width)) ==
        if InWords(s, w, width) then Get(s, Cell(w, j, width)) else ByteAt(segs[..k], Cell(w, j, width))
      ensures InWords(s, w, width) ==> Get(s, Cell(w, 0, width)).Some?
      ensures InWords(s, w, width) ==>
        WordAt(s.val, Cell(w - s.lo / width, 0, width), width)[j] == Filled(Get(s, Cell(w, j, width)))
    {
      ByteOfWord(segs, k, w, j, width);
    }
    if InWords(s, w, width) {
      assert ByteAt(segs[..k + 1], Cell(w, 0, width)).Some?;
    } else {
      assert Touched(segs[..k], w, width) == Touched(segs[..k + 1], w, width);
    }
  }

  lemma ByteOfWord(segs: seq<Segment>, k: nat, w: int, j: int, width: nat)
    requires Ordered(segs) && AllWellFormed(segs) && 0 < width && Aligned(segs, width) && k < |segs| && 0 <= j < width
    ensures ByteAt(segs[..k + 1], Cell(w, j, width)) ==
      if InWords(segs[k], w, width) then Get(segs[k], Cell(w, j, width)) else ByteAt(segs[..k], Cell(w, j, width))
    ensures InWords(segs[k], w, width) ==> Get(segs[k], Cell(w, 0, width)).Some?
    ensures InWords(segs[k], w, width) ==>
      WordAt(segs[k].val, Cell(w - segs[k].lo / width, 0, width), width)[j] == Filled(Get(segs[k], Cell(w, j, width)))
  {
    hide Cell, ByteAt, InWords;
    ByteAtSnoc(segs, k, Cell(w, j, width));
    SegmentWords(segs[k], w, j, width);
    WordsApart(segs[..k], segs[k], w, j, width);
    Split(w, j, w, width);
  }

  lemma SegmentFits(s: Segment, numWords: nat, width: nat)
    requires 0 < width && WellFormed(s) && s.lo % width == 0 && s.hi < Cell(numWords, 0, width)
    ensures s.lo / width + WordCount(|s.val|, width) <= numWords
  {
    hide Cell, WordCount;
    Recompose(s.lo, width);
    WordsFit(s.lo / width, |s.val|, numWords, width);
  }

  lemma WordsFit(lw: int, len: nat, numWords: nat, width: nat)
    requires 0 < width && 0 < len && Cell(lw, 0, width) + len <= Cell(numWords, 0, width)
    ensures lw + WordCount(len, width) <= numWords
  {
    hide Cell, WordCount;
    var n := WordCount(len, width);
    CountPositive(len, width);
    WordStarts(len, width, n - 1);
    Split(lw + n - 1, 0, lw, width);
    if numWords <= lw + n - 1 {
      Ahead'(numWords, lw + n - 1, 0, width);
    }
  }

  lemma CountPositive(len: nat, width: nat)
    requires 0 < width && 0 < len
    ensures 0 < WordCount(len, width)
  {
    hide WordCount;
    WordCountIs(len, width);
    if WordCount(len, width) == 0 {
      CellNext(0, 0, width);
    }
  }

  /** Writes every staged segment to the area: each touched word holds the staged bytes, zero where nothing is staged,
      and every other word is unchanged. */
  method LoadStaged(area: MemArea, staged: StagedMem)
    requires area.Valid() && staged.Valid()
    requires Aligned(staged.segs.entries, area.width) && Inside(staged.segs.entries, area.numWords, area.width)
    modifies area.mem
    ensures area.Valid()
    ensures forall w :: 0 <= w < area.numWords ==>
      area.mem[w] == WordImage(staged.segs.entries, w, area.width, old(area.mem[w]))
  {
    hide WordImage, WordAt, Cell, Ordered, WellFormed;
    var segs, width := staged.segs.entries, area.width;
    ghost var before := area.mem[..];
    Untouched(segs, width);
    for k := 0 to |segs|
      invariant area.Valid()
      invariant forall w :: 0 <= w < area.numWords ==> area.mem[w] == WordImage(segs[..k], w, width, before[w])
    {
      SegmentFits(segs[k], area.numWords, width);
      ghost var previous := area.mem[..];
      area.Write(segs[k].lo / width, segs[k].val);
      forall w | 0 <= w < area.numWords ensures area.mem[w] == WordImage(segs[..k + 1], w, width, before[w]) {
        WordLoaded(segs, k, w, width, before[w]);
      }
    }
    assert segs[..|segs|] == segs;
  }

  lemma Untouched(segs: seq<Segment>, width: nat)
    ensures forall w: int, old_: seq<Byte> :: WordImage(segs[..0], w, width, old_) == old_
  {
  }

  // ---------------------------------------------------------------- staging the segments of an ELF file

  datatype Error = NoRegion | TopOverflows | TooLong | Misaligned | FileTooShort

  datatype Result<+T> = Ok(value: T) | Err(error: Error)

  /** The fields of a 32-bit program header that the loader reads. */
  datatype Phdr = Phdr(load: bool, offset: Word, paddr: Word, filesz: Word)

  predicate Skipped(p: Phdr) {
    !p.load || p.filesz == 0
  }

  /** GetRegionForSegment and StageElf's own checks for one segment and one memory area of `size` bytes at `base`,
      in the order the errors are raised. */
  function Check(p: Phdr, fileSize: nat, base: Word, size: nat, width: nat): Option<Error>
    requires 0 < width
  {
    if p.paddr < base || base + size <= p.paddr then Some(NoRegion)
    else if TWO32 < p.paddr + p.filesz then Some(TopOverflows)
    else if size < p.paddr - base + p.filesz then Some(TooLong)
    else if (p.paddr - base) % width != 0 then Some(Misaligned)
    else if fileSize < p.offset + p.filesz then Some(FileTooShort)
    else None
  }

  /** The byte at offset a of the area once the first n headers have been staged: the last segment to cover it decides. */
  function Newest(file: seq<Byte>, phdrs: seq<Phdr>, base: Word, n: nat, a: int): Option<Byte>
    requires n <= |phdrs|
  {
    if n == 0 then None
    else
      var p := phdrs[n - 1];
      if !Skipped(p) && base + a - p.paddr >= 0 && base + a - p.paddr < p.filesz && p.offset + (base + a - p.paddr) < |file|
      then Some(file[p.offset + (base + a - p.paddr)])
      else Newest(file, phdrs, base, n - 1, a)
  }

  // ---------------------------------------------------------------- the registered areas

  /** Where a memory area lies. */
  datatype Place = Place(base: Word, numWords: nat, width: nat)

  function Size(q: Place): nat {
    Monotone(0, q.numWords, q.width);
    Cell(q.numWords, 0, q.width)
  }

  predicate Proper(q: Place) {
    0 < q.numWords && 0 < q.width <= MEM_WIDTH_BYTES && 0 < Size(q) && q.base + Size(q) <= TWO32
  }

  predicate AllProper(places: seq<Place>) {
    forall k :: 0 <= k < |places| ==> Proper(places[k])
  }

  predicate Contains(q: Place, a: int) {
    q.base <= a < q.base + Size(q)
  }

  predicate Clear(q: Place, q': Place) {
    q.base + Size(q) <= q'.base || q'.base + Size(q') <= q.base
  }

  /** No address lies in two of the areas. */
  predicate Disjoint(places: seq<Place>) {
    forall i, j :: 0 <= i < j < |places| ==> Clear(places[i], places[j])
  }

  lemma ClearExcludes(q: Place, q': Place, a: int)
    requires Clear(q, q')
    ensures !(Contains(q, a) && Contains(q', a))
  {
    hide Size;
  }

  lemma OnlyOne(places: seq<Place>, i: nat, j: nat, a: int)
    requires Disjoint(places) && i < |places| && j < |places|
    requires Contains(places[i], a) && Contains(places[j], a)
    ensures i == j
  {
    hide Contains, Clear;
    if i < j {
      ClearExcludes(places[i], places[j], a);
    } else if j < i {
      ClearExcludes(places[j], places[i], a);
    }
  }

  function CheckAt(file: seq<Byte>, p: Phdr, q: Place): Option<Error>
    requires Proper(q)
  {
    Check(p, |file|, q.base, Size(q), q.width)
  }

  /** The header is skipped, or passes the checks of an area. */
  predicate Accepted(file: seq<Byte>, p: Phdr, places: seq<Place>)
    requires AllProper(places)
  {
    Skipped(p) || exists k :: 0 <= k < |places| && CheckAt(file, p, places[k]).None?
  }

  /** The header starts in no area, or fails a check of the one it starts in. */
  predicate Refused(file: seq<Byte>, p: Phdr, places: seq<Place>, e: Error)
    requires AllProper(places)
  {
    && !Skipped(p)
    && ((e == NoRegion && forall k :: 0 <= k < |places| ==> !Contains(places[k], p.paddr))
        || exists k :: 0 <= k < |places| && Contains(places[k], p.paddr) && CheckAt(file, p, places[k]) == Some(e))
  }

  lemma PassedInside(file: seq<Byte>, p: Phdr, q: Place)
    requires Proper(q) && CheckAt(file, p, q).None?
    ensures Contains(q, p.paddr)
  {
    hide Size;
  }

  lemma NotBoth(file: seq<Byte>, p: Phdr, places: seq<Place>, e: Error)
    requires AllProper(places) && Disjoint(places) && Refused(file, p, places, e)
    ensures !Accepted(file, p, places)
  {
    hide Size, Disjoint, CheckAt, Contains;
    if Accepted(file, p, places) {
      var k :| 0 <= k < |places| && CheckAt(file, p, places[k]).None?;
      PassedInside(file, p, places[k]);
      if j :| 0 <= j < |places| && Contains(places[j], p.paddr) && CheckAt(file, p, places[j]) == Some(e) {
        OnlyOne(places, k, j, p.paddr);
      }
    }
  }

  // ---------------------------------------------------------------- staging one segment

  /** The staged bytes of an area once the first n headers have been staged. */
  function Kept(file: seq<Byte>, phdrs: seq<Phdr>, q: Place, n: nat, a: int): Option<Byte>
    requires n <= |phdrs|
  {
    if 0 <= a < Size(q) then Newest(file, phdrs, q.base, n, a) else None
  }

  lemma StartsAligned(segs: seq<Segment>, segs': seq<Segment>, offset: Word, width: nat)
    requires 0 < width && Aligned(segs, width) && offset % width == 0 && Starts(segs') <= Starts(segs) + {offset}
    ensures Aligned(segs', width)
  {
    forall i | 0 <= i < |segs'| ensures segs'[i].lo % width == 0 {
      assert segs'[i].lo in Starts(segs');
    }
  }

  /** A header that passes an area's checks adds its bytes to that area on top of what was staged. */
  lemma KeptStep(file: seq<Byte>, phdrs: seq<Phdr>, q: Place, n: nat, a: int)
    requires n < |phdrs| && Proper(q) && !Skipped(phdrs[n]) && CheckAt(file, phdrs[n], q).None?
    ensures var p := phdrs[n];
      && 0 <= p.paddr - q.base && p.paddr - q.base + p.filesz <= TWO32 && p.offset + p.filesz <= |file|
      && Kept(file, phdrs, q, n + 1, a) ==
           Staged(p.paddr - q.base, file[p.offset..p.offset + p.filesz], Kept(file, phdrs, q, n, a), a)
  {
    hide Size;
  }

  /** A header that is skipped, or lies inside another area, adds nothing. */
  lemma KeptElsewhere(file: seq<Byte>, phdrs: seq<Phdr>, q: Place, q': Place, n: nat, a: int)
    requires n < |phdrs| && Proper(q) && Proper(q')
    requires Skipped(phdrs[n]) || (CheckAt(file, phdrs[n], q').None? && (Clear(q, q') || Clear(q', q)))
    ensures Kept(file, phdrs, q, n + 1, a) == Kept(file, phdrs, q, n, a)
  {
    hide Size;
  }

  lemma NothingKept(file: seq<Byte>, phdrs: seq<Phdr>, q: Place)
    ensures forall a :: ByteAt([], a) == Kept(file, phdrs, q, 0, a)
  {
    hide Size;
  }

  /** What the stage of an area holds once n headers have been staged. */
  ghost predicate StagedTo(s: StagedMem, file: seq<Byte>, phdrs: seq<Phdr>, q: Place, n: nat)
    requires n <= |phdrs| && Proper(q)
    reads s, s.segs
  {
    s.Valid() && Aligned(s.segs.entries, q.width) && forall a :: s.Map(a) == Kept(file, phdrs, q, n, a)
  }

  method StageOne(file: seq<Byte>, phdrs: seq<Phdr>, q: Place, n: nat, staged: StagedMem)
    requires n < |phdrs| && Proper(q) && !Skipped(phdrs[n]) && CheckAt(file, phdrs[n], q).None?
    requires StagedTo(staged, file, phdrs, q, n)
    modifies staged, staged.segs
    ensures StagedTo(staged, file, phdrs, q, n + 1)
  {
    hide ByteAt, Kept, Starts, Staged;
    var p := phdrs[n];
    ghost var before := staged.segs.entries;
    PassesMeans(file, p, q);
    staged.AddSegment(p.paddr - q.base, file[p.offset..p.offset + p.filesz]);
    StartsAligned(before, staged.segs.entries, p.paddr - q.base, q.width);
    forall a ensures staged.Map(a) == Kept(file, phdrs, q, n + 1, a) {
      KeptStep(file, phdrs, q, n, a);
    }
  }

  lemma PassesMeans(file: seq<Byte>, p: Phdr, q: Place)
    requires Proper(q) && !Skipped(p) && CheckAt(file, p, q).None?
    ensures q.base <= p.paddr && p.paddr - q.base + p.filesz <= TWO32
    ensures (p.paddr - q.base) % q.width == 0 && p.offset + p.filesz <= |file|
  {
    hide Size;
  }

  /** Word w of an area after loading phdrs: the newest bytes with zeros where no segment lies, or as it was. */
  ghost function LoadedWord(file: seq<Byte>, phdrs: seq<Phdr>, base: Word, w: int, width: nat, old_: seq<Byte>): seq<Byte> {
    if exists j :: 0 <= j < width && Newest(file, phdrs, base, |phdrs|, Cell(w, j, width)).Some?
    then seq<Byte>(width, j => Filled(Newest(file, phdrs, base, |phdrs|, Cell(w, j, width))))
    else old_
  }

  lemma LoadedWordIs(segs: seq<Segment>, file: seq<Byte>, phdrs: seq<Phdr>, q: Place, w: int, old_: seq<Byte>)
    requires 0 <= w < q.numWords && forall a :: ByteAt(segs, a) == Kept(file, phdrs, q, |phdrs|, a)
    ensures WordImage(segs, w, q.width, old_) == LoadedWord(file, phdrs, q.base, w, q.width, old_)
  {
    hide ByteAt, Newest, Cell, Filled;
    forall j | 0 <= j < q.width
      ensures ByteAt(segs, Cell(w, j, q.width)) == Newest(file, phdrs, q.base, |phdrs|, Cell(w, j, q.width))
    {
      CellBound(w, j, q.numWords, q.width);
    }
  }

  /** If everything staged lies below size, so does every segment. */
  lemma StagedInside(segs: seq<Segment>, numWords: nat, width: nat)
    requires AllWellFormed(segs) && forall a :: ByteAt(segs, a).Some? ==> a < Cell(numWords, 0, width)
    ensures Inside(segs, numWords, width)
  {
    hide ByteAt, Cell;
    forall i | 0 <= i < |segs| ensures segs[i].hi < Cell(numWords, 0, width) {
      Mapping(segs, segs[i].hi);
      assert Covers(segs[i], segs[i].hi);
    }
  }

  /** The entries of the address map are the areas, each with its index. */
  predicate Registered(entries: seq<Entry<nat>>, places: seq<Place>)
    requires AllProper(places)
  {
    && (forall e :: e in entries ==> Indexes(e, places))
    && (forall k :: 0 <= k < |places| ==> EntryOf(places[k], k) in entries)
  }

  function EntryOf(q: Place, k: nat): Entry<nat>
    requires Proper(q)
  {
    Entry(q.base, q.base + Size(q) - 1, k)
  }

  predicate Indexes(e: Entry<nat>, places: seq<Place>)
    requires AllProper(places)
  {
    e.val < |places| && e == EntryOf(places[e.val], e.val)
  }

  lemma EntriesGrow(entries: seq<Entry<nat>>, k: nat, places: seq<Place>, q: Place)
    requires AllProper(places) && Proper(q) && Registered(entries, places) && k <= |entries|
    ensures AllProper(places + [q])
    ensures Registered(entries[..k] + [EntryOf(q, |places|)] + entries[k..], places + [q])
  {
    hide EntryOf;
    var e, after := EntryOf(q, |places|), places + [q];
    EntryIndex(q, |places|);
    forall x | x in entries[..k] + [e] + entries[k..]
      ensures Indexes(x, after)
    {
      assert x == e || x in entries;
    }
    forall i | 0 <= i < |after|
      ensures EntryOf(after[i], i) in entries[..k] + [e] + entries[k..]
    {
      if i < |places| {
        assert entries == entries[..k] + entries[k..];
        assert EntryOf(places[i], i) in entries;
      }
    }
  }

  lemma EntryIndex(q: Place, k: nat)
    requires Proper(q)
    ensures EntryOf(q, k).val == k
  {
  }

  lemma StillDisjoint(entries: seq<Entry<nat>>, places: seq<Place>, q: Place)
    requires AllProper(places) && Proper(q) && Registered(entries, places) && Disjoint(places)
    requires forall i :: 0 <= i < |entries| ==> !Touches(entries[i], q.base, q.base + Size(q) - 1)
    ensures Disjoint(places + [q])
  {
    hide Size;
    forall k | 0 <= k < |places|
      ensures Clear(places[k], q)
    {
      assert EntryOf(places[k], k) in entries;
    }
  }

  lemma Clashes(entries: seq<Entry<nat>>, places: seq<Place>, q: Place)
    requires AllProper(places) && Proper(q) && Registered(entries, places)
    requires exists i :: 0 <= i < |entries| && Touches(entries[i], q.base, q.base + Size(q) - 1)
    ensures exists k :: 0 <= k < |places| && !Clear(places[k], q)
  {
    hide Size;
    var i :| 0 <= i < |entries| && Touches(entries[i], q.base, q.base + Size(q) - 1);
    assert entries[i] in entries;
    assert !Clear(places[entries[i].val], q);
  }

  /** An area whose entry was inserted: everything is as it should be with one area more. */
  lemma TakenUp(entries: seq<Entry<nat>>, after: seq<Entry<nat>>, places: seq<Place>, q: Place)
    requires AllProper(places) && Proper(q) && Registered(entries, places) && Disjoint(places)
    requires forall i :: 0 <= i < |entries| ==> !Touches(entries[i], q.base, q.base + Size(q) - 1)
    requires exists k :: 0 <= k <= |entries| && after == entries[..k] + [EntryOf(q, |places|)] + entries[k..]
    ensures AllProper(places + [q]) && Registered(after, places + [q]) && Disjoint(places + [q])
    ensures forall k :: 0 <= k < |places| ==> Clear(places[k], q)
  {
    hide Size, Registered, Disjoint, Touches, Clear, Proper, EntryOf;
    var k :| 0 <= k <= |entries| && after == entries[..k] + [EntryOf(q, |places|)] + entries[k..];
    EntriesGrow(entries, k, places, q);
    StillDisjoint(entries, places, q);
    NewestIsClear(places, q);
  }

  function PlaceOf(area: MemArea, base: Word): Place {
    Place(base, area.numWords, area.width)
  }

  function PlacesOf(areas: seq<MemArea>, bases: seq<Word>): (places: seq<Place>)
    requires |bases| == |areas|
    ensures |places| == |areas|
  {
    seq(|areas|, k requires 0 <= k < |areas| => PlaceOf(areas[k], bases[k]))
  }

  lemma ProperPlace(area: MemArea, base: Word)
    requires area.Valid() && 0 < Size(PlaceOf(area, base)) && base + Size(PlaceOf(area, base)) <= TWO32
    ensures Proper(PlaceOf(area, base))
  {
    hide Size;
  }

  lemma OneMorePlace(areas: seq<MemArea>, bases: seq<Word>, area: MemArea, base: Word)
    requires |bases| == |areas|
    ensures PlacesOf(areas + [area], bases + [base]) == PlacesOf(areas, bases) + [PlaceOf(area, base)]
  {
  }

  /** The loader: memory areas, their base addresses, and the address map that routes a segment to its area. */
  class DpiMemUtil {
    var areas: seq<MemArea>
    var bases: seq<Word>
    const addrs: RangedMap<nat>

    ghost function Mems(): set<object>
      reads this
    {
      set k | 0 <= k < |areas| :: areas[k].mem
    }

    ghost predicate Valid()
      reads this, addrs, Mems()
    {
      && |bases| == |areas| && addrs.Valid()
      && (forall k :: 0 <= k < |areas| ==> areas[k].Valid())
      && (forall i, j :: 0 <= i < j < |areas| ==> areas[i].mem != areas[j].mem)
      && AllProper(Places()) && Disjoint(Places()) && Registered(addrs.entries, Places())
    }

    ghost function Places(): (places: seq<Place>)
      requires |bases| == |areas|
      reads this
      ensures |places| == |areas|
    {
      PlacesOf(areas, bases)
    }

    constructor ()
      ensures Valid() && areas == [] && fresh(addrs)
    {
      areas, bases := [], [];
      addrs := new RangedMap<nat>();
    }

    /** RegisterMemoryArea, names aside: an area is taken up exactly when its addresses fit 32 bits and none of them
        belongs to another area. */
    method RegisterMemoryArea(base: Word, area: MemArea) returns (ok: bool)
      requires Valid() && area.Valid() && forall k :: 0 <= k < |areas| ==> areas[k].mem != area.mem
      requires 0 < Size(PlaceOf(area, base)) <= TWO32
      modifies this, addrs
      ensures Valid()
      ensures ok <==>
        var q := PlaceOf(area, base);
        base + Size(q) <= TWO32 && forall k :: 0 <= k < |old(areas)| ==> Clear(old(Places())[k], q)
      ensures areas == old(areas) + (if ok then [area] else [])
      ensures bases == old(bases) + (if ok then [base] else [])
    {
      hide Size, Registered, Disjoint, Touches, Clear, PlacesOf, Proper, AllProper, Ordered;
      ghost var q, places, entries := PlaceOf(area, base), Places(), addrs.entries;
      var size := Size(PlaceOf(area, base));
      var top := Add32(base, size - 1);
      if top < base {
        return false;
      }
      ProperPlace(area, base);
      var clash := addrs.EmplaceDisjoint(Entry(base, top, |areas|));
      if clash.Some? {
        Clashes(entries, places, q);
        return false;
      }
      TakenUp(entries, addrs.entries, places, q);
      OneMorePlace(areas, bases, area, base);
      areas := areas + [area];
      bases := bases + [base];
      ok := true;
    }

    /** The area that a segment's first address lies in, or why the segment does not fit it. */
    method GetRegionForSegment(p: Phdr) returns (r: Result<nat>)
      requires Valid() && p.filesz > 0
      ensures r.Ok? ==>
        && r.value < |areas| && Contains(Places()[r.value], p.paddr)
        && p.paddr + p.filesz <= bases[r.value] + Size(Places()[r.value])
      ensures r.Err? ==> forall file: seq<Byte> :: !Skipped(p) ==> Refused(file, p, Places(), r.error)
    {
      hide Size, Disjoint, Contains, Refused, EntryOf;
      var hit := addrs.Find(p.paddr);
      if hit.None? {
        NoneContains(addrs.entries, Places(), p.paddr);
        NoRegionFor(p, Places());
        return Err(NoRegion);
      }
      var idx := hit.value.val;
      assert Indexes(hit.value, Places());
      ContainsIs(Places()[idx], idx, p.paddr);
      var top := Add32(p.paddr, p.filesz - 1);
      if top < p.paddr {
        RefusedAt(p, Places(), idx, TopOverflows);
        return Err(TopOverflows);
      }
      if Size(PlaceOf(areas[idx], bases[idx])) <= top - bases[idx] {
        RefusedAt(p, Places(), idx, TooLong);
        return Err(TooLong);
      }
      r := Ok(idx);
    }

    /** StageElf: an empty stage for every area, then the headers in order until one is refused. If none is, every
        stage holds the newest bytes of its own area. */
    method StageElf(file: seq<Byte>, phdrs: seq<Phdr>) returns (r: Option<Error>, staging: seq<StagedMem>)
      requires Valid()
      ensures |staging| == |areas| && forall k :: 0 <= k < |staging| ==> fresh(staging[k]) && fresh(staging[k].segs)
      ensures r.None? ==>
        && (forall i :: 0 <= i < |phdrs| ==> Accepted(file, phdrs[i], Places()))
        && (forall k :: 0 <= k < |staging| ==> StagedTo(staging[k], file, phdrs, Places()[k], |phdrs|))
      ensures r.Some? ==>
        exists n :: 0 <= n < |phdrs| && Refused(file, phdrs[n], Places(), r.value)
          && forall i :: 0 <= i < n ==> Accepted(file, phdrs[i], Places())
    {
      hide Size, Disjoint, StagedTo, Accepted, Refused, Contains, Registered, CheckAt;
      staging := EmptyStages(file, phdrs);
      for n := 0 to |phdrs|
        invariant Stages(staging, file, phdrs, Places(), n)
        invariant forall k :: 0 <= k < |staging| ==> fresh(staging[k]) && fresh(staging[k].segs)
        invariant forall i :: 0 <= i < n ==> Accepted(file, phdrs[i], Places())
      {
        r := StageHeader(file, phdrs, n, staging);
        if r.Some? {
          return;
        }
      }
      r := None;
    }

    method EmptyStages(file: seq<Byte>, phdrs: seq<Phdr>) returns (staging: seq<StagedMem>)
      requires Valid()
      ensures Stages(staging, file, phdrs, Places(), 0)
      ensures forall k :: 0 <= k < |staging| ==> fresh(staging[k]) && fresh(staging[k].segs)
    {
      hide Size, Disjoint, Registered, ByteAt, Kept, Proper;
      staging := [];
      for k := 0 to |areas|
        invariant |staging| == k && Separate(staging)
        invariant forall j :: 0 <= j < k ==> fresh(staging[j]) && fresh(staging[j].segs)
        invariant forall j :: 0 <= j < k ==> StagedTo(staging[j], file, phdrs, Places()[j], 0)
      {
        var s := new StagedMem();
        NothingKept(file, phdrs, Places()[k]);
        staging := staging + [s];
      }
    }

    /** One header: skipped, refused, or staged in the area it starts in. */
    method StageHeader(file: seq<Byte>, phdrs: seq<Phdr>, n: nat, staging: seq<StagedMem>) returns (r: Option<Error>)
      requires Valid() && n < |phdrs| && Stages(staging, file, phdrs, Places(), n)
      modifies set k | 0 <= k < |staging| :: staging[k], set k | 0 <= k < |staging| :: staging[k].segs
      ensures r.None? ==> Accepted(file, phdrs[n], Places()) && Stages(staging, file, phdrs, Places(), n + 1)
      ensures r.Some? ==> Refused(file, phdrs[n], Places(), r.value)
    {
      hide Size, Disjoint, StagedTo, Accepted, Refused, Contains, Registered, CheckAt, Proper;
      var p := phdrs[n];
      if Skipped(p) {
        SkippedByAll(file, phdrs, Places(), n, staging);
        return None;
      }
      var region := GetRegionForSegment(p);
      if region.Err? {
        return Some(region.error);
      }
      var k := region.value;
      var q := PlaceOf(areas[k], bases[k]);
      var e := if (p.paddr - q.base) % q.width != 0 then Some(Misaligned)
               else if |file| < p.offset + p.filesz then Some(FileTooShort) else None;
      LastChecks(file, p, Places(), k, e);
      if e.Some? {
        return e;
      }
      StageOne(file, phdrs, q, n, staging[k]);
      OthersStaged(file, phdrs, Places(), n, staging, k);
      r := None;
    }

    /** LoadElfToMemories: either a header is refused and no memory changes, or in every area each word with a staged
        byte holds the newest bytes, zero-filled, and every other word is as it was. */
    method LoadElfToMemories(file: seq<Byte>, phdrs: seq<Phdr>) returns (r: Option<Error>)
      requires Valid()
      modifies Mems()
      ensures Valid() && areas == old(areas) && bases == old(bases)
      ensures r.None? <==> forall i :: 0 <= i < |phdrs| ==> Accepted(file, phdrs[i], Places())
      ensures r.Some? ==>
        exists n :: 0 <= n < |phdrs| && Refused(file, phdrs[n], Places(), r.value)
          && forall i :: 0 <= i < n ==> Accepted(file, phdrs[i], Places())
      ensures r.None? ==> forall k :: 0 <= k < |areas| ==>
        AreaLoaded(file, phdrs, areas[k], bases[k], old(areas[k].mem[..]))
      ensures r.Some? ==> forall k :: 0 <= k < |areas| ==> areas[k].mem[..] == old(areas[k].mem[..])
      ensures r.None? <==>
        forall i :: 0 <= i < |phdrs| && phdrs[i].load && phdrs[i].filesz > 0 ==>
          exists k :: 0 <= k < |areas| && FitsIn(file, phdrs[i], Places()[k])
      ensures r.None? ==> forall k, w, j :: 0 <= k < |areas| && 0 <= w < areas[k].numWords && 0 <= j < areas[k].width ==>
        ByteRight(file, phdrs, areas[k], bases[k], old(areas[k].mem[..]), w, j)
    {
      hide Size, Disjoint, StagedTo, Accepted, Refused, Contains, Registered, CheckAt, Proper, AreaLoaded, ByteRight, FitsIn;
      AllAcceptedMeans(file, phdrs, Places());
      var staging;
      r, staging := StageElf(file, phdrs);
      if r.Some? {
        SomeRefused(file, phdrs, Places(), r.value);
        return;
      }
      for k := 0 to |areas|
        invariant forall j :: 0 <= j < |areas| ==> areas[j].Valid()
        invariant forall j :: 0 <= j < |areas| ==> StagedTo(staging[j], file, phdrs, Places()[j], |phdrs|)
        invariant forall j :: 0 <= j < k ==> AreaLoaded(file, phdrs, areas[j], bases[j], old(areas[j].mem[..]))
        invariant forall j :: k <= j < |areas| ==> areas[j].mem[..] == old(areas[j].mem[..])
      {
        LoadArea(file, phdrs, areas[k], bases[k], staging[k]);
      }
      forall k, w, j | 0 <= k < |areas| && 0 <= w < areas[k].numWords && 0 <= j < areas[k].width
        ensures ByteRight(file, phdrs, areas[k], bases[k], old(areas[k].mem[..]), w, j)
      {
        BytesRight(file, phdrs, areas[k], bases[k], old(areas[k].mem[..]), w, j, Places());
      }
    }
  }

  /** Every word of the area is as loading leaves it, `before` being what it was. */
  ghost predicate AreaLoaded(file: seq<Byte>, phdrs: seq<Phdr>, area: MemArea, base: Word, before: seq<seq<Byte>>)
    reads area.mem
  {
    && area.mem.Length == area.numWords == |before|
    && forall w :: 0 <= w < area.numWords ==>
         area.mem[w] == LoadedWord(file, phdrs, base, w, area.width, before[w])
  }

  method LoadArea(file: seq<Byte>, phdrs: seq<Phdr>, area: MemArea, base: Word, staged: StagedMem)
    requires area.Valid() && Proper(PlaceOf(area, base))
    requires StagedTo(staged, file, phdrs, PlaceOf(area, base), |phdrs|)
    modifies area.mem
    ensures area.Valid() && AreaLoaded(file, phdrs, area, base, old(area.mem[..]))
  {
    hide Cell, ByteAt, Kept, WordImage, LoadedWord, Size;
    ghost var q, segs, before := PlaceOf(area, base), staged.segs.entries, area.mem[..];
    StageInside(segs, file, phdrs, q);
    LoadStaged(area, staged);
    forall w | 0 <= w < area.numWords
      ensures area.mem[w] == LoadedWord(file, phdrs, base, w, area.width, before[w])
    {
      LoadedWordIs(segs, file, phdrs, q, w, before[w]);
    }
  }

  lemma StageInside(segs: seq<Segment>, file: seq<Byte>, phdrs: seq<Phdr>, q: Place)
    requires AllWellFormed(segs) && forall a :: ByteAt(segs, a) == Kept(file, phdrs, q, |phdrs|, a)
    ensures Inside(segs, q.numWords, q.width)
  {
    hide ByteAt, Newest, Cell;
    forall a | ByteAt(segs, a).Some? ensures a < Cell(q.numWords, 0, q.width) {
      assert ByteAt(segs, a) == Kept(file, phdrs, q, |phdrs|, a);
    }
    StagedInside(segs, q.numWords, q.width);
  }

  lemma SomeRefused(file: seq<Byte>, phdrs: seq<Phdr>, places: seq<Place>, e: Error)
    requires AllProper(places) && Disjoint(places)
    requires exists n :: 0 <= n < |phdrs| && Refused(file, phdrs[n], places, e)
    ensures exists n :: 0 <= n < |phdrs| && !Accepted(file, phdrs[n], places)
  {
    hide Refused, Accepted, Disjoint, Proper;
    var n :| 0 <= n < |phdrs| && Refused(file, phdrs[n], places, e);
    NotBoth(file, phdrs[n], places, e);
  }

  lemma SkippedByAll(file: seq<Byte>, phdrs: seq<Phdr>, places: seq<Place>, n: nat, staging: seq<StagedMem>)
    requires n < |phdrs| && AllProper(places) && Skipped(phdrs[n]) && Stages(staging, file, phdrs, places, n)
    ensures Accepted(file, phdrs[n], places) && Stages(staging, file, phdrs, places, n + 1)
  {
    hide StagedTo, Proper;
    forall k | 0 <= k < |staging|
      ensures StagedTo(staging[k], file, phdrs, places[k], n + 1)
    {
      StagedElsewhere(staging[k], file, phdrs, places[k], places[k], n);
    }
  }

  lemma StagedElsewhere(s: StagedMem, file: seq<Byte>, phdrs: seq<Phdr>, q: Place, q': Place, n: nat)
    requires n < |phdrs| && Proper(q) && Proper(q') && StagedTo(s, file, phdrs, q, n)
    requires Skipped(phdrs[n]) || (CheckAt(file, phdrs[n], q').None? && (Clear(q, q') || Clear(q', q)))
    ensures StagedTo(s, file, phdrs, q, n + 1)
  {
    hide Kept, CheckAt, Clear, Proper, ByteAt;
    forall a
      ensures s.Map(a) == Kept(file, phdrs, q, n + 1, a)
    {
      KeptElsewhere(file, phdrs, q, q', n, a);
    }
  }

  lemma OthersStaged(file: seq<Byte>, phdrs: seq<Phdr>, places: seq<Place>, n: nat, staging: seq<StagedMem>, k: nat)
    requires n < |phdrs| && AllProper(places) && Disjoint(places) && |staging| == |places| && k < |places|
    requires Separate(staging) && CheckAt(file, phdrs[n], places[k]).None?
    requires forall j :: 0 <= j < |staging| ==> StagedTo(staging[j], file, phdrs, places[j], if j == k then n + 1 else n)
    ensures Stages(staging, file, phdrs, places, n + 1)
  {
    hide StagedTo, Proper, CheckAt, Clear;
    forall j | 0 <= j < |staging|
      ensures StagedTo(staging[j], file, phdrs, places[j], n + 1)
    {
      if j != k {
        Apart(places, j, k);
        StagedElsewhere(staging[j], file, phdrs, places[j], places[k], n);
      }
    }
  }

  lemma Apart(places: seq<Place>, j: nat, k: nat)
    requires Disjoint(places) && j < |places| && k < |places| && j != k
    ensures Clear(places[j], places[k]) || Clear(places[k], places[j])
  {
    hide Clear;
  }

  /** The checks StageElf makes itself, once the segment is known to fit its area. */
  lemma LastChecks(file: seq<Byte>, p: Phdr, places: seq<Place>, k: nat, e: Option<Error>)
    requires AllProper(places) && k < |places| && Contains(places[k], p.paddr) && !Skipped(p)
    requires p.paddr + p.filesz <= places[k].base + Size(places[k])
    requires e == if (p.paddr - places[k].base) % places[k].width != 0 then Some(Misaligned)
                  else if |file| < p.offset + p.filesz then Some(FileTooShort) else None
    ensures CheckAt(file, p, places[k]) == e
    ensures if e.Some? then Refused(file, p, places, e.value) else Accepted(file, p, places)
  {
    hide Size;
    assert CheckAt(file, p, places[k]) == e;
    hide CheckAt, Contains;
  }

  /** No two areas share a stage. */
  ghost predicate Separate(staging: seq<StagedMem>) {
    forall i, j :: 0 <= i < j < |staging| ==> staging[i] != staging[j] && staging[i].segs != staging[j].segs
  }

  ghost predicate Stages(staging: seq<StagedMem>, file: seq<Byte>, phdrs: seq<Phdr>, places: seq<Place>, n: nat)
    requires n <= |phdrs| && AllProper(places)
    reads set k | 0 <= k < |staging| :: staging[k], set k | 0 <= k < |staging| :: staging[k].segs
  {
    && |staging| == |places| && Separate(staging)
    && forall k :: 0 <= k < |staging| ==> StagedTo(staging[k], file, phdrs, places[k], n)
  }

  lemma ContainsIs(q: Place, k: nat, a: int)
    requires Proper(q)
    ensures Covers(EntryOf(q, k), a) <==> Contains(q, a)
    ensures Contains(q, a) ==> q.base <= a && EntryOf(q, k).val == k
  {
    hide Size;
  }

  lemma NoRegionFor(p: Phdr, places: seq<Place>)
    requires AllProper(places) && forall k :: 0 <= k < |places| ==> !Contains(places[k], p.paddr)
    ensures forall file: seq<Byte> :: !Skipped(p) ==> Refused(file, p, places, NoRegion)
  {
    hide Contains;
  }

  lemma RefusedAt(p: Phdr, places: seq<Place>, k: nat, e: Error)
    requires AllProper(places) && k < |places| && Contains(places[k], p.paddr)
    requires (e == TopOverflows && TWO32 < p.paddr + p.filesz)
          || (e == TooLong && p.paddr + p.filesz <= TWO32 && Size(places[k]) < p.paddr - places[k].base + p.filesz)
    ensures forall file: seq<Byte> :: !Skipped(p) ==> Refused(file, p, places, e)
  {
    hide Size;
    forall file: seq<Byte>
      ensures CheckAt(file, p, places[k]) == Some(e)
    {
    }
  }

  lemma NewestIsClear(places: seq<Place>, q: Place)
    requires Disjoint(places + [q])
    ensures forall k :: 0 <= k < |places| ==> Clear(places[k], q)
  {
    var after := places + [q];
    forall k | 0 <= k < |places|
      ensures Clear(places[k], q)
    {
      assert Clear(after[k], after[|places|]);
    }
  }

  lemma NoneContains(entries: seq<Entry<nat>>, places: seq<Place>, a: int)
    requires AllProper(places) && Registered(entries, places)
    requires forall i :: 0 <= i < |entries| ==> !Covers(entries[i], a)
    ensures forall k :: 0 <= k < |places| ==> !Contains(places[k], a)
  {
    hide Contains, EntryOf, Covers;
    forall k | 0 <= k < |places|
      ensures !Contains(places[k], a)
    {
      assert EntryOf(places[k], k) in entries;
      ContainsIs(places[k], k, a);
    }
  }

  // ---------------------------------------------------------------- loading, in the fields of the headers

  /** The bytes of a PT_LOAD header lie whole inside the area, at the start of a word, and inside the file. */
  predicate FitsIn(file: seq<Byte>, p: Phdr, q: Place) {
    && q.base <= p.paddr && p.paddr + p.filesz <= q.base + Size(q)
    && (q.width > 0 ==> (p.paddr - q.base) % q.width == 0)
    && p.offset + p.filesz <= |file|
  }

  /** A PT_LOAD header that covers address a. */
  predicate Puts(p: Phdr, a: int) {
    p.load && p.filesz > 0 && p.paddr <= a < p.paddr + p.filesz
  }

  /** No PT_LOAD header among the first n covers address a. */
  predicate Uncovered(phdrs: seq<Phdr>, n: nat, a: int)
    requires n <= |phdrs|
  {
    forall i :: 0 <= i < n ==> !Puts(phdrs[i], a)
  }

  /** Header i is the last of the first n to cover address a. */
  predicate LastPut(phdrs: seq<Phdr>, n: nat, i: nat, a: int)
    requires n <= |phdrs|
  {
    i < n && Puts(phdrs[i], a) && forall j :: i < j < n ==> !Puts(phdrs[j], a)
  }

  /** Byte j of word w of the area: that of the last PT_LOAD header to cover its address; if none does, zero in a word
      that some header reaches, and otherwise what it was. */
  ghost predicate ByteRight(file: seq<Byte>, phdrs: seq<Phdr>, area: MemArea, base: Word, before: seq<seq<Byte>>,
                            w: nat, j: nat)
    reads area.mem
  {
    var a := base + Cell(w, j, area.width);
    && area.mem.Length == |before| && w < |before| && j < |area.mem[w]|
    && (forall i: nat :: LastPut(phdrs, |phdrs|, i, a) ==>
          0 <= phdrs[i].offset + a - phdrs[i].paddr < |file|
          && area.mem[w][j] == file[phdrs[i].offset + a - phdrs[i].paddr])
    && (Uncovered(phdrs, |phdrs|, a) ==> area.mem[w][j] == 0 || area.mem[w] == before[w])
    && ((forall x :: 0 <= x < area.width ==> Uncovered(phdrs, |phdrs|, base + Cell(w, x, area.width))) ==>
          area.mem[w] == before[w])
  }

  /** Acceptance in the fields of the header: one that is not PT_LOAD, or has no bytes, is always accepted. */
  lemma AcceptedMeans(file: seq<Byte>, p: Phdr, places: seq<Place>)
    requires AllProper(places)
    ensures Accepted(file, p, places) <==>
      (p.load && p.filesz > 0 ==> exists k :: 0 <= k < |places| && FitsIn(file, p, places[k]))
  {
    hide Size;
    forall k | 0 <= k < |places|
      ensures p.filesz > 0 ==> (CheckAt(file, p, places[k]).None? <==> FitsIn(file, p, places[k]))
    {
      assert Proper(places[k]);
    }
    hide CheckAt, FitsIn;
  }

  lemma AllAcceptedMeans(file: seq<Byte>, phdrs: seq<Phdr>, places: seq<Place>)
    requires AllProper(places)
    ensures (forall i :: 0 <= i < |phdrs| ==> Accepted(file, phdrs[i], places)) <==>
      forall i :: 0 <= i < |phdrs| && phdrs[i].load && phdrs[i].filesz > 0 ==>
        exists k :: 0 <= k < |places| && FitsIn(file, phdrs[i], places[k])
  {
    hide Accepted, FitsIn, Proper;
    forall i | 0 <= i < |phdrs|
      ensures Accepted(file, phdrs[i], places) <==>
        (phdrs[i].load && phdrs[i].filesz > 0 ==> exists k :: 0 <= k < |places| && FitsIn(file, phdrs[i], places[k]))
    {
      AcceptedMeans(file, phdrs[i], places);
    }
  }

  /** Which error a refused header gives, in its fields: only PT_LOAD headers with bytes are refused. */
  lemma RefusedMeans(file: seq<Byte>, p: Phdr, places: seq<Place>, e: Error)
    requires AllProper(places) && Refused(file, p, places, e)
    ensures p.load && p.filesz > 0
    ensures e == NoRegion ==> forall k :: 0 <= k < |places| ==> !(places[k].base <= p.paddr < places[k].base + Size(places[k]))
    ensures e != NoRegion ==>
      exists k :: 0 <= k < |places| && places[k].base <= p.paddr < places[k].base + Size(places[k]) && places[k].width > 0 &&
        match e
        case NoRegion => false
        case TopOverflows => 0x1_0000_0000 < p.paddr + p.filesz
        case TooLong => p.paddr + p.filesz <= 0x1_0000_0000 && places[k].base + Size(places[k]) < p.paddr + p.filesz
        case Misaligned => p.paddr + p.filesz <= places[k].base + Size(places[k])
                           && (p.paddr - places[k].base) % places[k].width != 0
        case FileTooShort => p.paddr + p.filesz <= places[k].base + Size(places[k])
                             && (p.paddr - places[k].base) % places[k].width == 0 && |file| < p.offset + p.filesz
  {
    hide Size;
    if k :| 0 <= k < |places| && Contains(places[k], p.paddr) && CheckAt(file, p, places[k]) == Some(e) {
      assert Proper(places[k]);
    }
  }

  lemma {:induction false} NewestIs(file: seq<Byte>, phdrs: seq<Phdr>, base: Word, n: nat, a: int)
    requires n <= |phdrs|
    requires forall i :: 0 <= i < n && phdrs[i].load && phdrs[i].filesz > 0 ==> phdrs[i].offset + phdrs[i].filesz <= |file|
    ensures Uncovered(phdrs, n, base + a) <==> Newest(file, phdrs, base, n, a).None?
    ensures forall i: nat :: LastPut(phdrs, n, i, base + a) ==> NewestFrom(file, phdrs, base, n, a, i)
  {
    hide Newest, NewestFrom;
    if n == 0 {
      NothingNewest(file, phdrs, base, a);
    } else {
      NewestIs(file, phdrs, base, n - 1, a);
      NewestHere(file, phdrs, base, n, a);
      hide Puts;
      forall i: nat | LastPut(phdrs, n, i, base + a)
        ensures NewestFrom(file, phdrs, base, n, a, i)
      {
        if i < n - 1 {
          assert LastPut(phdrs, n - 1, i, base + a);
          SameFrom(file, phdrs, base, n, a, i);
        }
      }
    }
  }

  /** The newest byte at offset a is that of header i. */
  predicate NewestFrom(file: seq<Byte>, phdrs: seq<Phdr>, base: Word, n: nat, a: int, i: nat)
    requires n <= |phdrs|
  {
    && i < |phdrs| && 0 <= phdrs[i].offset + base + a - phdrs[i].paddr < |file|
    && Newest(file, phdrs, base, n, a) == Some(file[phdrs[i].offset + base + a - phdrs[i].paddr])
  }

  lemma SameFrom(file: seq<Byte>, phdrs: seq<Phdr>, base: Word, n: nat, a: int, i: nat)
    requires 0 < n <= |phdrs| && NewestFrom(file, phdrs, base, n - 1, a, i)
    requires Newest(file, phdrs, base, n, a) == Newest(file, phdrs, base, n - 1, a)
    ensures NewestFrom(file, phdrs, base, n, a, i)
  {
    hide Newest;
  }

  lemma NothingNewest(file: seq<Byte>, phdrs: seq<Phdr>, base: Word, a: int)
    ensures Newest(file, phdrs, base, 0, a).None?
  {
  }

  lemma NewestHere(file: seq<Byte>, phdrs: seq<Phdr>, base: Word, n: nat, a: int)
    requires 0 < n <= |phdrs|
    requires phdrs[n - 1].load && phdrs[n - 1].filesz > 0 ==> phdrs[n - 1].offset + phdrs[n - 1].filesz <= |file|
    ensures if Puts(phdrs[n - 1], base + a) then
              Newest(file, phdrs, base, n, a).Some? && NewestFrom(file, phdrs, base, n, a, n - 1)
            else Newest(file, phdrs, base, n, a) == Newest(file, phdrs, base, n - 1, a)
  {
  }

  lemma InFile(file: seq<Byte>, phdrs: seq<Phdr>, places: seq<Place>)
    requires AllProper(places) && forall i :: 0 <= i < |phdrs| ==> Accepted(file, phdrs[i], places)
    ensures forall i :: 0 <= i < |phdrs| && phdrs[i].load && phdrs[i].filesz > 0 ==>
              phdrs[i].offset + phdrs[i].filesz <= |file|
  {
    hide Accepted, Size, Proper;
    forall i | 0 <= i < |phdrs| && phdrs[i].load && phdrs[i].filesz > 0
      ensures phdrs[i].offset + phdrs[i].filesz <= |file|
    {
      AcceptedMeans(file, phdrs[i], places);
    }
  }

  lemma BytesRight(file: seq<Byte>, phdrs: seq<Phdr>, area: MemArea, base: Word, before: seq<seq<Byte>>, w: nat, j: nat,
                   places: seq<Place>)
    requires AllProper(places) && forall i :: 0 <= i < |phdrs| ==> Accepted(file, phdrs[i], places)
    requires area.Valid() && |before| == area.numWords && w < area.numWords && j < area.width
    requires AreaLoaded(file, phdrs, area, base, before)
    ensures ByteRight(file, phdrs, area, base, before, w, j)
  {
    hide Newest, Cell, Accepted, AllProper, Puts, Uncovered, LoadedWord;
    InFile(file, phdrs, places);
    var n, old_ := |phdrs|, before[w];
    NewestIs(file, phdrs, base, n, Cell(w, j, area.width));
    if forall x :: 0 <= x < area.width ==> Uncovered(phdrs, n, base + Cell(w, x, area.width)) {
      forall x | 0 <= x < area.width
        ensures Newest(file, phdrs, base, n, Cell(w, x, area.width)).None?
      {
        NewestIs(file, phdrs, base, n, Cell(w, x, area.width));
      }
      WordUntouched(file, phdrs, base, w, area.width, old_);
    }
    ByteLoaded(file, phdrs, base, w, area.width, old_, j);
    assert area.mem[w] == LoadedWord(file, phdrs, base, w, area.width, old_);
    var a := base + Cell(w, j, area.width);
    forall i: nat | LastPut(phdrs, n, i, a)
      ensures 0 <= phdrs[i].offset + a - phdrs[i].paddr < |file|
      ensures area.mem[w][j] == file[phdrs[i].offset + a - phdrs[i].paddr]
    {
      assert NewestFrom(file, phdrs, base, n, Cell(w, j, area.width), i);
    }
  }

  lemma WordUntouched(file: seq<Byte>, phdrs: seq<Phdr>, base: Word, w: int, width: nat, old_: seq<Byte>)
    requires forall x :: 0 <= x < width ==> Newest(file, phdrs, base, |phdrs|, Cell(w, x, width)).None?
    ensures LoadedWord(file, phdrs, base, w, width, old_) == old_
  {
    hide Newest, Cell;
  }

  lemma ByteLoaded(file: seq<Byte>, phdrs: seq<Phdr>, base: Word, w: int, width: nat, old_: seq<Byte>, j: nat)
    requires j < width
    ensures var l, b := LoadedWord(file, phdrs, base, w, width, old_), Newest(file, phdrs, base, |phdrs|, Cell(w, j, width));
            (b.Some? ==> j < |l| && l[j] == b.value) && (b.None? ==> l == old_ || (j < |l| && l[j] == 0))
  {
    hide Newest, Cell;
  }
}
