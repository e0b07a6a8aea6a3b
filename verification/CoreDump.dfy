/**
The core file a dying program leaves (kernel/coredump.c): headers that say where
everything is, the notes, and the writable memory, cut off at a limit.
*/
module CoreDump {
  import opened Basics
  import opened BigEndian

  const PAGE: nat := 4096
  const EHDR: nat := 52
  const PHDR: nat := 32
  const PT_LOAD: u32 := 1
  const PT_NOTE: u32 := 4

  datatype Protection = NoAccess | ReadOnly | Writable

  /** A run of pages with one protection. */
  datatype Region = Region(start: u32, pages: nat, prot: Protection)

  /** What is in a page of memory, if it can be read. */
  type Reader = nat -> Option<seq<byte>>

  function PageAt(read: Reader, va: nat): (p: seq<byte>)
    ensures |p| == PAGE
  {
    match read(va)
    case None => Repeat(0, PAGE)
    case Some(p) => if |p| == PAGE then p else Repeat(0, PAGE)
  }

  /** The bytes of `n` pages from `va` on. */
  function Pages(read: Reader, va: nat, n: nat): (m: seq<byte>)
    ensures |m| == PAGE * n
  {
    if n == 0 then [] else Pages(read, va, n - 1) + PageAt(read, va + PAGE * (n - 1))
  }

  function Size(r: Region): nat {
    PAGE * r.pages
  }

  /** How much of a region is in the file. */
  function Dumped(r: Region): nat {
    if r.prot == Writable then Size(r) else 0
  }

  function DumpedAll(rs: seq<Region>): nat {
    if rs == [] then 0 else DumpedAll(rs[..|rs| - 1]) + Dumped(rs[|rs| - 1])
  }

  function RoundUp(x: nat): (r: nat)
    ensures x <= r < x + PAGE && r % PAGE == 0
  {
    (x + PAGE - 1) / PAGE * PAGE
  }

  // ------------------------------------------------------------------
  // The file, whole
  // ------------------------------------------------------------------

  /** A program header. */
  datatype Segment = Segment(kind: u32, offset: u32, vaddr: u32, filesz: u32, memsz: u32, flags: u32, align: u32)

  function Written(s: Segment): (b: seq<byte>)
    ensures |b| == PHDR
  {
    var b0 := Put32(Repeat(0, PHDR), 0, s.kind);
    var b1 := Put32(b0, 4, s.offset);
    var b2 := Put32(b1, 8, s.vaddr);
    var b3 := Put32(b2, 16, s.filesz);
    var b4 := Put32(b3, 20, s.memsz);
    var b5 := Put32(b4, 24, s.flags);
    Put32(b5, 28, s.align)
  }

  /** The program header at a place in a file, as a debugger reads it. */
  function SegmentAt(b: seq<byte>, o: nat): Segment {
    if o + PHDR > |b| then Segment(0, 0, 0, 0, 0, 0, 0)
    else Segment(Be32(b, o), Be32(b, o + 4), Be32(b, o + 8), Be32(b, o + 16), Be32(b, o + 20), Be32(b, o + 24), Be32(b, o + 28))
  }

  /** How program headers are written and how they are read. */
  datatype Form = Form(write: Segment -> seq<byte>, read: (seq<byte>, nat) -> Segment)

  ghost predicate Sound(form: Form) {
    && (forall s :: |form.write(s)| == PHDR)
    && (forall b: seq<byte>, o: nat, s {:trigger form.read(b, o), form.write(s)} ::
          o + PHDR <= |b| && b[o..o + PHDR] == form.write(s) ==> form.read(b, o) == s)
  }

  /** The 32-bit big-endian headers of this machine. */
  function Elf32(): Form {
    Form(Written, SegmentAt)
  }

  function Flags(p: Protection): u32 {
    match p case NoAccess => 0 case ReadOnly => 5 case Writable => 6
  }

  /** A size or an offset as the 32 bits it is kept in. */
  function Word32(x: nat): u32 {
    x % WORD
  }

  function LoadSegment(r: Region, off: nat): Segment {
    var dumped := r.prot == Writable;
    Segment(PT_LOAD, if dumped then Word32(off) else 0, r.start, Word32(Dumped(r)), Word32(Size(r)), Flags(r.prot), PAGE)
  }

  /** The program headers of regions whose memory goes from `off` on. */
  function Headers(form: Form, rs: seq<Region>, off: nat): seq<byte> {
    if rs == [] then []
    else
      var n := |rs| - 1;
      Headers(form, rs[..n], off) + form.write(LoadSegment(rs[n], off + DumpedAll(rs[..n])))
  }

  lemma {:induction false} HeadersSize(form: Form, rs: seq<Region>, off: nat)
    requires Sound(form)
    ensures |Headers(form, rs, off)| == PHDR * |rs|
  {
    if rs != [] {
      HeadersSize(form, rs[..|rs| - 1], off);
    }
  }

  function Memory(rs: seq<Region>, read: Reader): (m: seq<byte>)
    ensures |m| == DumpedAll(rs)
  {
    if rs == [] then [] else Memory(rs[..|rs| - 1], read) + Contents(rs[|rs| - 1], read)
  }

  /** What of a region's memory is dumped. */
  function Contents(r: Region, read: Reader): (m: seq<byte>)
    ensures |m| == Dumped(r)
  {
    if r.prot == Writable then Pages(read, r.start, r.pages) else []
  }

  function NotesAt(n: nat): nat {
    EHDR + (n + 1) * PHDR
  }

  /** Where memory begins: at the page after the notes. */
  function Base(n: nat, notes: nat): nat {
    RoundUp(NotesAt(n) + notes)
  }

  /** The core of a program with these regions, notes and memory; `elf` is its ELF header. */
  function Front(form: Form, elf: seq<byte>, rs: seq<Region>, notes: seq<byte>): seq<byte> {
    elf + form.write(NoteSegment(|rs|, |notes|)) + Headers(form, rs, Base(|rs|, |notes|)) + notes
  }

  function NoteSegment(n: nat, notes: nat): Segment {
    Segment(PT_NOTE, Word32(NotesAt(n)), 0, Word32(notes), 0, 0, 0)
  }

  function Padding(n: nat, notes: nat): seq<byte> {
    Repeat(0, Base(n, notes) - (NotesAt(n) + notes))
  }

  function Core(form: Form, elf: seq<byte>, rs: seq<Region>, notes: seq<byte>, read: Reader): seq<byte> {
    Front(form, elf, rs, notes) + Padding(|rs|, |notes|) + Memory(rs, read)
  }

  // ------------------------------------------------------------------
  // Reading it
  // ------------------------------------------------------------------

  lemma WrittenReads(s: Segment)
    ensures SegmentAt(Written(s), 0) == s
  {
    var b0 := Put32(Repeat(0, PHDR), 0, s.kind);
    var b1 := Put32(b0, 4, s.offset);
    var b2 := Put32(b1, 8, s.vaddr);
    var b3 := Put32(b2, 16, s.filesz);
    var b4 := Put32(b3, 20, s.memsz);
    var b5 := Put32(b4, 24, s.flags);
    var b := Written(s);
    BeSame(b0, b, 0, 4);
    BeSame(b1, b, 4, 4);
    BeSame(b2, b, 8, 4);
    BeSame(b3, b, 16, 4);
    BeSame(b4, b, 20, 4);
    BeSame(b5, b, 24, 4);
  }

  /** Where in the 32 bytes of a program header its fields are; the physical address, at 12, is 0. */
  lemma SegmentBytes(s: Segment)
    ensures var b := Written(s);
            && |b| == 32 && Be32(b, 0) == s.kind && Be32(b, 4) == s.offset && Be32(b, 8) == s.vaddr
            && b[12] == b[13] == b[14] == b[15] == 0
            && Be32(b, 16) == s.filesz && Be32(b, 20) == s.memsz && Be32(b, 24) == s.flags && Be32(b, 28) == s.align
  {
    WrittenReads(s);
  }

  lemma SegmentReads(b: seq<byte>, o: nat, s: Segment)
    requires o + PHDR <= |b| && b[o..o + PHDR] == Written(s)
    ensures SegmentAt(b, o) == s
  {
    var w := Written(s);
    WrittenReads(s);
    BeWithin(b, 0, w, o, 4);
    BeWithin(b, 4, w, o, 4);
    BeWithin(b, 8, w, o, 4);
    BeWithin(b, 16, w, o, 4);
    BeWithin(b, 20, w, o, 4);
    BeWithin(b, 24, w, o, 4);
    BeWithin(b, 28, w, o, 4);
  }

  lemma Elf32IsSound()
    ensures Sound(Elf32())
  {
    forall b: seq<byte>, o: nat, s | o + PHDR <= |b| && b[o..o + PHDR] == Written(s)
      ensures SegmentAt(b, o) == s
    {
      SegmentReads(b, o, s);
    }
  }

  lemma {:induction false} HeaderAt(form: Form, rs: seq<Region>, off: nat, i: nat)
    requires Sound(form) && i < |rs|
    ensures PHDR * i + PHDR <= |Headers(form, rs, off)|
    ensures Headers(form, rs, off)[PHDR * i..PHDR * i + PHDR] == form.write(LoadSegment(rs[i], off + DumpedAll(rs[..i])))
  {
    var n := |rs| - 1;
    HeadersSize(form, rs, off);
    HeadersSize(form, rs[..n], off);
    Slices(Headers(form, rs[..n], off), form.write(LoadSegment(rs[n], off + DumpedAll(rs[..n]))), PHDR * i, PHDR);
    if i < n {
      HeaderAt(form, rs[..n], off, i);
      assert rs[..n][..i] == rs[..i] && rs[..n][i] == rs[i];
    }
  }

  /** A slice of the first of two parts, and the second whole. */
  lemma Slices(a: seq<byte>, b: seq<byte>, o: nat, n: nat)
    ensures o + n <= |a| ==> (a + b)[o..o + n] == a[o..o + n]
    ensures (a + b)[|a|..|a| + |b|] == b
  {
  }

  ghost predicate Found(m: seq<byte>, at: nat, x: seq<byte>) {
    at + |x| <= |m| && m[at..at + |x|] == x
  }

  lemma StillFound(m: seq<byte>, at: nat, x: seq<byte>, more: seq<byte>)
    requires Found(m, at, x)
    ensures Found(m + more, at, x)
  {
    Slices(m, more, at, |x|);
  }

  lemma FoundLast(m: seq<byte>, x: seq<byte>)
    ensures Found(m + x, |m|, x)
  {
  }

  lemma {:induction false} MemoryAt(rs: seq<Region>, read: Reader, i: nat)
    requires i < |rs|
    ensures Found(Memory(rs, read), DumpedAll(rs[..i]), Contents(rs[i], read))
  {
    if i < |rs| - 1 {
      var front := rs[..|rs| - 1];
      FrontHas(rs, front, i);
      MemoryAt(front, read, i);
      MemoryStill(rs, front, read, DumpedAll(front[..i]), Contents(front[i], read));
    } else {
      LastMemoryAt(rs, read);
    }
  }

  lemma FrontHas(rs: seq<Region>, front: seq<Region>, i: nat)
    requires rs != [] && front == rs[..|rs| - 1] && i < |front|
    ensures front[..i] == rs[..i] && front[i] == rs[i]
  {
  }

  lemma MemoryStill(rs: seq<Region>, front: seq<Region>, read: Reader, at: nat, x: seq<byte>)
    requires rs != [] && front == rs[..|rs| - 1] && Found(Memory(front, read), at, x)
    ensures Found(Memory(rs, read), at, x)
  {
    StillFound(Memory(front, read), at, x, Contents(rs[|rs| - 1], read));
  }

  lemma LastMemoryAt(rs: seq<Region>, read: Reader)
    requires rs != []
    ensures Found(Memory(rs, read), DumpedAll(rs[..|rs| - 1]), Contents(rs[|rs| - 1], read))
  {
    FoundLast(Memory(rs[..|rs| - 1], read), Contents(rs[|rs| - 1], read));
  }

  /** A slice of a part is a slice of the whole. */
  lemma SliceWithin(b: seq<byte>, a: seq<byte>, m: seq<byte>, c: seq<byte>, o: nat, n: nat)
    requires b == a + m + c && o + n <= |m|
    ensures |a| + o + n <= |b| && b[|a| + o..|a| + o + n] == m[o..o + n]
  {
  }

  /** What the program headers of a core say is where they say it. */
  ghost predicate Describes(form: Form, file: seq<byte>, rs: seq<Region>, notes: seq<byte>, read: Reader) {
    && DescribesNotes(form.read(file, 52), file, notes)
    && (forall i :: 0 <= i < |rs| ==> DescribesRegion(form.read(file, 52 + 32 * (i + 1)), file, rs[i], read))
  }

  ghost predicate DescribesNotes(s: Segment, file: seq<byte>, notes: seq<byte>) {
    s.kind == 4 && s.filesz == |notes| && s.offset + s.filesz <= |file| && file[s.offset..s.offset + s.filesz] == notes
  }

  /** The flags' bits: 4 for reading, 2 for writing, 1 for executing, which is what cannot be written. */
  predicate Allows(flags: u32, p: Protection) {
    && flags < 8 && (flags / 4 % 2 == 1 <==> p != NoAccess)
    && (flags / 2 % 2 == 1 <==> p == Writable) && (flags % 2 == 1 <==> p == ReadOnly)
  }

  ghost predicate DescribesRegion(s: Segment, file: seq<byte>, r: Region, read: Reader) {
    && s.kind == 1 && s.vaddr == r.start && s.memsz == 4096 * r.pages && s.align == 4096 && Allows(s.flags, r.prot)
    && (if r.prot == Writable then
          s.filesz == s.memsz && s.offset % 4096 == 0 && s.offset + s.filesz <= |file|
          && file[s.offset..s.offset + s.filesz] == Pages(read, r.start, r.pages)
        else s.filesz == 0)
  }

  lemma {:induction false} DumpedAligned(rs: seq<Region>)
    ensures DumpedAll(rs) % PAGE == 0
  {
    if rs != [] {
      DumpedAligned(rs[..|rs| - 1]);
    }
  }

  lemma Regroup(a: seq<byte>, b: seq<byte>, c: seq<byte>, d: seq<byte>, e: seq<byte>, f: seq<byte>)
    ensures var all := a + b + c + d + e + f;
            && all == a + b + (c + d + e + f) && all == (a + b) + c + (d + e + f)
            && all == (a + b + c) + d + (e + f) && all == (a + b + c + d + e) + f + []
  {
  }

  /** A core's headers are right, as long as the file is one 32-bit offsets can describe. */
  lemma CoreDescribes(form: Form, elf: seq<byte>, rs: seq<Region>, notes: seq<byte>, read: Reader)
    requires Sound(form) && |elf| == EHDR && |Core(form, elf, rs, notes, read)| < WORD
    requires forall i :: 0 <= i < |rs| ==> Size(rs[i]) < WORD
    ensures Describes(form, Core(form, elf, rs, notes, read), rs, notes, read)
  {
    var note, base := form.write(NoteSegment(|rs|, |notes|)), Base(|rs|, |notes|);
    var heads, pad, mem := Headers(form, rs, base), Padding(|rs|, |notes|), Memory(rs, read);
    var file := Core(form, elf, rs, notes, read);
    HeadersSize(form, rs, base);
    Regroup(elf, note, heads, notes, pad, mem);
    FrontSize(elf, note, heads, notes, |rs|);
    NotesDescribed(form, file, elf, note, heads, notes, pad + mem, |rs|);
    RegionsDescribed(form, file, elf + note, notes + pad + mem, elf + note + heads + notes + pad, rs, base, read);
  }

  lemma FrontSize(elf: seq<byte>, note: seq<byte>, heads: seq<byte>, notes: seq<byte>, n: nat)
    requires |elf| == EHDR && |note| == PHDR && |heads| == PHDR * n
    ensures |elf + note| == EHDR + PHDR && |elf + note + heads + notes + Padding(n, |notes|)| == Base(n, |notes|)
    ensures Base(n, |notes|) % PAGE == 0
  {
    assert |elf + note + heads + notes| == NotesAt(n) + |notes|;
  }

  lemma RegionsDescribed(form: Form, file: seq<byte>, top: seq<byte>, rest: seq<byte>, front: seq<byte>, rs: seq<Region>, base: nat, read: Reader)
    requires Sound(form) && |file| < WORD && (forall i :: 0 <= i < |rs| ==> Size(rs[i]) < WORD)
    requires |top| == EHDR + PHDR && file == top + Headers(form, rs, base) + rest
    requires |front| == base && base % PAGE == 0 && file == front + Memory(rs, read) + []
    ensures forall i :: 0 <= i < |rs| ==> DescribesRegion(form.read(file, EHDR + PHDR * (i + 1)), file, rs[i], read)
  {
    forall i | 0 <= i < |rs|
      ensures DescribesRegion(form.read(file, EHDR + PHDR * (i + 1)), file, rs[i], read)
    {
      RegionHeader(form, file, top, rest, rs, i, base);
      RegionThere(file, front, rs, i, base + DumpedAll(rs[..i]), read);
    }
  }

  /** A header found where it was put. */
  lemma HeaderFound(form: Form, file: seq<byte>, top: seq<byte>, heads: seq<byte>, rest: seq<byte>, o: nat, s: Segment)
    requires Sound(form) && file == top + heads + rest && o + PHDR <= |heads| && heads[o..o + PHDR] == form.write(s)
    ensures form.read(file, |top| + o) == s
  {
    SliceWithin(file, top, heads, rest, o, PHDR);
  }

  lemma SmallEnough(x: nat)
    requires x < WORD
    ensures Word32(x) == x
  {
  }

  lemma NotesDescribed(form: Form, file: seq<byte>, elf: seq<byte>, note: seq<byte>, heads: seq<byte>, notes: seq<byte>, rest: seq<byte>, n: nat)
    requires Sound(form) && |elf| == EHDR && note == form.write(NoteSegment(n, |notes|)) && |heads| == PHDR * n
    requires |file| < WORD && file == elf + note + (heads + notes + rest) && file == (elf + note + heads) + notes + rest
    ensures DescribesNotes(form.read(file, EHDR), file, notes)
  {
    assert note[0..0 + PHDR] == note;
    HeaderFound(form, file, elf, note, heads + notes + rest, 0, NoteSegment(n, |notes|));
    var at := NotesAt(n);
    assert |elf + note + heads| == at;
    SliceWithin(file, elf + note + heads, notes, rest, 0, |notes|);
    SmallEnough(at);
    SmallEnough(|notes|);
  }

  lemma RegionHeader(form: Form, file: seq<byte>, top: seq<byte>, rest: seq<byte>, rs: seq<Region>, i: nat, base: nat)
    requires Sound(form) && |top| == EHDR + PHDR && file == top + Headers(form, rs, base) + rest && i < |rs|
    ensures form.read(file, EHDR + PHDR * (i + 1)) == LoadSegment(rs[i], base + DumpedAll(rs[..i]))
  {
    HeaderAt(form, rs, base, i);
    HeaderFound(form, file, top, Headers(form, rs, base), rest, PHDR * i, LoadSegment(rs[i], base + DumpedAll(rs[..i])));
  }

  lemma RegionThere(file: seq<byte>, front: seq<byte>, rs: seq<Region>, i: nat, off: nat, read: Reader)
    requires i < |rs| && Size(rs[i]) < WORD && |file| < WORD && |front| % PAGE == 0 && off == |front| + DumpedAll(rs[..i])
    requires file == front + Memory(rs, read) + []
    ensures DescribesRegion(LoadSegment(rs[i], off), file, rs[i], read)
  {
    if rs[i].prot == Writable {
      DumpedAligned(rs[..i]);
      MemoryAt(rs, read, i);
      LoadDescribes(file, front, Memory(rs, read), rs[i], DumpedAll(rs[..i]), off, read);
    } else {
      OtherDescribes(file, rs[i], off, read);
    }
  }

  lemma OtherDescribes(file: seq<byte>, r: Region, off: nat, read: Reader)
    requires r.prot != Writable && Size(r) < WORD
    ensures DescribesRegion(LoadSegment(r, off), file, r, read)
  {
    SmallEnough(Size(r));
  }

  /** The header of a region says where in the file its memory is. */
  lemma LoadDescribes(file: seq<byte>, front: seq<byte>, mem: seq<byte>, r: Region, at: nat, off: nat, read: Reader)
    requires off == |front| + at && |file| < WORD && file == front + mem + [] && |front| % PAGE == 0 && at % PAGE == 0
    requires r.prot == Writable && at + Size(r) <= |mem| && mem[at..at + Size(r)] == Pages(read, r.start, r.pages)
    ensures DescribesRegion(LoadSegment(r, off), file, r, read)
  {
    var s := LoadSegment(r, off);
    SliceWithin(file, front, mem, [], at, Size(r));
    SmallEnough(|front| + at);
    SmallEnough(Size(r));
    BothAligned(|front|, at);
    assert s.offset == |front| + at && s.filesz == Size(r);
  }

  lemma BothAligned(a: nat, b: nat)
    requires a % PAGE == 0 && b % PAGE == 0
    ensures (a + b) % PAGE == 0
  {
  }

  // ------------------------------------------------------------------
  // The ELF header and the notes
  // ------------------------------------------------------------------

  const MAGIC: seq<byte> := [127, 69, 76, 70, 1, 2, 1]
  const CORE_NAME: seq<byte> := [67, 79, 82, 69, 0, 0, 0, 0]

  /** The ELF header of a core with `n` program headers. */
  function ElfHeader(n: nat): (b: seq<byte>)
    ensures |b| == EHDR
  {
    var b0 := Put(Repeat(0, EHDR), 0, MAGIC);
    var b1 := Put16(b0, 16, 4);
    var b2 := Put16(b1, 18, 4);
    var b3 := Put32(b2, 20, 1);
    var b4 := Put32(b3, 28, EHDR);
    var b5 := Put16(b4, 40, EHDR);
    var b6 := Put16(b5, 42, PHDR);
    Put16(b6, 44, n % 65536)
  }

  /** The header says this is a big-endian 32-bit 68k core and where its program headers are. */
  ghost predicate HeaderSays(file: seq<byte>, n: nat) {
    && |file| >= 52 && file[..7] == [127, 69, 76, 70, 1, 2, 1] && Be16(file, 16) == 4 && Be16(file, 18) == 4
    && Be32(file, 28) == 52 && Be16(file, 42) == 32 && Be16(file, 44) == n
  }

  lemma ElfHeaderReads(n: nat)
    requires n < 65536
    ensures HeaderSays(ElfHeader(n), n)
  {
    var b0 := Put(Repeat(0, EHDR), 0, MAGIC);
    var b1 := Put16(b0, 16, 4);
    var b2 := Put16(b1, 18, 4);
    var b3 := Put32(b2, 20, 1);
    var b4 := Put32(b3, 28, EHDR);
    var b5 := Put16(b4, 40, EHDR);
    var b6 := Put16(b5, 42, PHDR);
    var b := ElfHeader(n);
    BeSame(b1, b, 16, 2);
    BeSame(b2, b, 18, 2);
    BeSame(b4, b, 28, 4);
    BeSame(b6, b, 42, 2);
    assert b[..7] == b0[..7] == MAGIC;
  }

  lemma HeaderKept(head: seq<byte>, rest: seq<byte>, n: nat)
    requires HeaderSays(head, n)
    ensures HeaderSays(head + rest, n)
  {
    var file := head + rest;
    assert file[0..|head|] == head;
    BeWithin(file, 16, head, 0, 2);
    BeWithin(file, 18, head, 0, 2);
    BeWithin(file, 28, head, 0, 4);
    BeWithin(file, 42, head, 0, 2);
    BeWithin(file, 44, head, 0, 2);
    assert file[..7] == head[..7];
  }

  datatype Note = Note(kind: u32, desc: seq<byte>)

  function Pad4(n: nat): nat {
    (4 - n % 4) % 4
  }

  function NoteHead(size: u32, kind: u32): (b: seq<byte>)
    ensures |b| == 20
  {
    Put(Put32(Put32(Put32(Repeat(0, 20), 0, 5), 4, size), 8, kind), 12, CORE_NAME)
  }

  function NoteBytes(n: Note): seq<byte> {
    NoteHead(Word32(|n.desc|), n.kind) + n.desc + Repeat(0, Pad4(|n.desc|))
  }

  /** A note is as long as its writer counts it to be. */
  lemma NoteLength(n: Note)
    ensures |NoteBytes(n)| == 20 + (|n.desc| + 3) / 4 * 4
  {
    var size := |n.desc|;
    Padded(size, size / 4, size % 4);
  }

  lemma Padded(size: nat, q: nat, r: nat)
    requires size == 4 * q + r && r < 4
    ensures size + Pad4(size) == (size + 3) / 4 * 4
  {
  }

  function NotesBytes(ns: seq<Note>): seq<byte> {
    if ns == [] then [] else NoteBytes(ns[0]) + NotesBytes(ns[1..])
  }

  /** The notes of a note segment, by the sizes in their own headers. */
  function NotesIn(b: seq<byte>): seq<Note>
    decreases |b|
  {
    if |b| < 12 then []
    else
      var at := 12 + Be32(b, 0) + Pad4(Be32(b, 0));
      var end := at + Be32(b, 4) + Pad4(Be32(b, 4));
      if end > |b| then [] else [Note(Be32(b, 8), b[at..at + Be32(b, 4)])] + NotesIn(b[end..])
  }

  lemma HeadReads(size: u32, kind: u32)
    ensures var b := NoteHead(size, kind); Be32(b, 0) == 5 && Be32(b, 4) == size && Be32(b, 8) == kind
  {
    var b0 := Put32(Repeat(0, 20), 0, 5);
    var b1 := Put32(b0, 4, size);
    var b2 := Put32(b1, 8, kind);
    var b := NoteHead(size, kind);
    BeSame(b0, b, 0, 4);
    BeSame(b1, b, 4, 4);
    BeSame(b2, b, 8, 4);
  }

  lemma NoteParts(head: seq<byte>, desc: seq<byte>, pad: seq<byte>, rest: seq<byte>)
    ensures var b := head + desc + pad + rest;
            b[0..|head|] == head && b[|head|..|head| + |desc|] == desc && b[|head| + |desc| + |pad|..] == rest
  {
  }

  /** A note, byte by byte: three words, the name CORE in eight bytes, and the descriptor with zeros up to a multiple of four. */
  lemma NoteIs(n: Note)
    requires |n.desc| < WORD
    ensures var b, size := NoteBytes(n), |n.desc|;
            && |b| == 20 + (size + 3) / 4 * 4 && Be32(b, 0) == 5 && Be32(b, 4) == size && Be32(b, 8) == n.kind
            && b[12..20] == [67, 79, 82, 69, 0, 0, 0, 0] && b[20..20 + size] == n.desc && forall i :: 20 + size <= i < |b| ==> b[i] == 0
  {
    var head, pad, b := NoteHead(|n.desc|, n.kind), Repeat(0, Pad4(|n.desc|)), NoteBytes(n);
    SmallEnough(|n.desc|);
    NoteLength(n);
    HeadReads(|n.desc|, n.kind);
    NoteParts(head, n.desc, pad, []);
    assert b == head + n.desc + pad + [];
    BeWithin(b, 0, head, 0, 4);
    BeWithin(b, 4, head, 0, 4);
    BeWithin(b, 8, head, 0, 4);
    assert b[12..20] == head[12..20] == CORE_NAME;
  }

  lemma NoteStep(b: seq<byte>, size: u32)
    requires 20 + size + Pad4(size) <= |b| && Be32(b, 0) == 5 && Be32(b, 4) == size
    ensures NotesIn(b) == [Note(Be32(b, 8), b[20..20 + size])] + NotesIn(b[20 + size + Pad4(size)..])
  {
    assert Pad4(5) == 3;
  }

  lemma NoteReads(n: Note, rest: seq<byte>)
    requires |n.desc| < WORD
    ensures NotesIn(NoteBytes(n) + rest) == [n] + NotesIn(rest)
  {
    var head, pad := NoteHead(|n.desc|, n.kind), Repeat(0, Pad4(|n.desc|));
    var b := NoteBytes(n) + rest;
    SmallEnough(|n.desc|);
    NoteParts(head, n.desc, pad, rest);
    HeadReads(|n.desc|, n.kind);
    BeWithin(b, 0, head, 0, 4);
    BeWithin(b, 4, head, 0, 4);
    BeWithin(b, 8, head, 0, 4);
    NoteStep(b, |n.desc|);
  }

  lemma {:induction false} NotesRead(ns: seq<Note>)
    requires forall i :: 0 <= i < |ns| ==> |ns[i].desc| < WORD
    ensures NotesIn(NotesBytes(ns)) == ns
  {
    if ns != [] {
      NotesRead(ns[1..]);
      NoteReads(ns[0], NotesBytes(ns[1..]));
    }
  }

  function CoreFile(rs: seq<Region>, ns: seq<Note>, read: Reader): seq<byte> {
    Core(Elf32(), ElfHeader(|rs| + 1), rs, NotesBytes(ns), read)
  }

  /** What a debugger makes of a core: what the program was when it died. */
  ghost predicate Tells(file: seq<byte>, rs: seq<Region>, ns: seq<Note>, read: Reader) {
    && HeaderSays(file, |rs| + 1)
    && (exists notes :: Describes(Elf32(), file, rs, notes, read) && NotesIn(notes) == ns)
  }

  lemma CoreTells(rs: seq<Region>, ns: seq<Note>, read: Reader)
    requires |rs| + 1 < 65536 && |CoreFile(rs, ns, read)| < WORD
    requires forall i :: 0 <= i < |rs| ==> Size(rs[i]) < WORD
    requires forall i :: 0 <= i < |ns| ==> |ns[i].desc| < WORD
    ensures Tells(CoreFile(rs, ns, read), rs, ns, read)
  {
    var elf, notes := ElfHeader(|rs| + 1), NotesBytes(ns);
    Elf32IsSound();
    ElfHeaderReads(|rs| + 1);
    HeaderKept(elf, CoreFile(rs, ns, read)[|elf|..], |rs| + 1);
    Headed(Elf32(), elf, rs, notes, read);
    NotesRead(ns);
    CoreDescribes(Elf32(), elf, rs, notes, read);
  }

  lemma Headed(form: Form, elf: seq<byte>, rs: seq<Region>, notes: seq<byte>, read: Reader)
    ensures var file := Core(form, elf, rs, notes, read); |elf| <= |file| && elf + file[|elf|..] == file
  {
  }

  // ------------------------------------------------------------------
  // Writing it
  // ------------------------------------------------------------------

  /** As much of a file as the limit lets through; `None` is no limit. */
  function Clipped(file: seq<byte>, limit: Option<nat>): seq<byte> {
    if limit.None? || |file| <= limit.value then file else file[..limit.value]
  }

  class Out {
    const limit: Option<nat>
    var file: seq<byte>
    var pos: nat
    var err: bool

    /** So far the file is `all`, clipped; when something was refused there is nothing more to come. */
    ghost predicate Holds(all: seq<byte>)
      reads this
    {
      && file == Clipped(all, limit) && pos == |file|
      && (err ==> limit.Some? && pos == limit.value <= |all|)
    }

    constructor (limit: Option<nat>)
      ensures Holds([]) && this.limit == limit
    {
      this.limit := limit;
      file, pos, err := [], 0, false;
    }

    method Write(buf: seq<byte>, ghost all: seq<byte>)
      requires Holds(all)
      modifies this
      ensures Holds(all + buf)
    {
      if err {
        return;
      }
      var len := |buf|;
      if limit.Some? {
        if pos >= limit.value {
          err := true;
          return;
        }
        if len > limit.value - pos {
          len := limit.value - pos;
        }
      }
      file := file + buf[..len];
      pos := pos + len;
    }
  }

  /** core_dump from the notes on: everything that is written to the file, in order. */
  method WriteCore(form: Form, elf: seq<byte>, rs: seq<Region>, notes: seq<byte>, read: Reader, limit: Option<nat>)
    returns (file: seq<byte>)
    requires Sound(form) && |elf| == EHDR
    ensures file == Clipped(Core(form, elf, rs, notes, read), limit)
  {
    var o := new Out(limit);
    var n := |rs|;
    HeadersSize(form, rs, Base(n, |notes|));
    WriteHeaders(o, form, elf, rs, |notes|);
    ghost var all := elf + form.write(NoteSegment(n, |notes|)) + Headers(form, rs, Base(n, |notes|));
    o.Write(notes, all);
    all := all + notes;
    assert all == Front(form, elf, rs, notes) && |all| == NotesAt(n) + |notes|;
    // When the file is cut short already the padding counted from its end is not written.
    var pad := RoundUp(o.pos) - o.pos;
    WritePadding(o, pad, all, Base(n, |notes|) - |all|);
    all := all + Padding(n, |notes|);
    WriteMemory(o, rs, read, all);
    file := o.file;
  }

  method DumpCore(rs: seq<Region>, ns: seq<Note>, read: Reader, limit: Option<nat>) returns (file: seq<byte>)
    ensures file == Clipped(CoreFile(rs, ns, read), limit)
  {
    Elf32IsSound();
    file := WriteCore(Elf32(), ElfHeader(|rs| + 1), rs, NotesBytes(ns), read, limit);
  }

  method WriteHeaders(o: Out, form: Form, elf: seq<byte>, rs: seq<Region>, notes: nat)
    requires o.Holds([])
    modifies o
    ensures o.Holds(elf + form.write(NoteSegment(|rs|, notes)) + Headers(form, rs, Base(|rs|, notes)))
  {
    var n := |rs|;
    o.Write(elf, []);
    assert [] + elf == elf;
    var off := NotesAt(n);
    o.Write(form.write(NoteSegment(n, notes)), elf);
    off := RoundUp(off + notes);
    WriteLoads(o, form, rs, off, elf + form.write(NoteSegment(n, notes)));
  }

  method WriteLoads(o: Out, form: Form, rs: seq<Region>, base: nat, ghost top: seq<byte>)
    requires o.Holds(top)
    modifies o
    ensures o.Holds(top + Headers(form, rs, base))
  {
    var off := base;
    assert top + Headers(form, rs[..0], base) == top;
    for i := 0 to |rs|
      invariant o.Holds(top + Headers(form, rs[..i], base)) && off == base + DumpedAll(rs[..i])
    {
      OneMore(form, rs, i, base, top);
      o.Write(form.write(LoadSegment(rs[i], off)), top + Headers(form, rs[..i], base));
      if rs[i].prot == Writable {
        off := off + Size(rs[i]);
      }
    }
    assert rs[..|rs|] == rs;
  }

  /** One more region's header, and where the next region's memory goes. */
  lemma OneMore(form: Form, rs: seq<Region>, i: nat, base: nat, top: seq<byte>)
    requires i < |rs|
    ensures top + Headers(form, rs[..i + 1], base) == top + Headers(form, rs[..i], base) + form.write(LoadSegment(rs[i], base + DumpedAll(rs[..i])))
    ensures DumpedAll(rs[..i + 1]) == DumpedAll(rs[..i]) + Dumped(rs[i])
  {
    assert rs[..i + 1][..i] == rs[..i];
    Append(top, Headers(form, rs[..i], base), form.write(LoadSegment(rs[i], base + DumpedAll(rs[..i]))));
  }

  lemma Append(a: seq<byte>, b: seq<byte>, c: seq<byte>)
    ensures a + b + c == a + (b + c)
  {
  }

  method WritePadding(o: Out, pad: nat, ghost all: seq<byte>, ghost due: nat)
    requires o.Holds(all) && pad == RoundUp(o.pos) - o.pos && due == RoundUp(|all|) - |all|
    modifies o
    ensures o.Holds(all + Repeat(0, due))
  {
    o.Write(Repeat(0, pad), all);
    if o.limit.Some? && |all| > o.limit.value {
      Beyond(o, all, Repeat(0, pad), Repeat(0, due));
    }
  }

  /** Past the limit it makes no difference what was to follow. */
  lemma Beyond(o: Out, all: seq<byte>, x: seq<byte>, y: seq<byte>)
    requires o.Holds(all + x) && o.limit.Some? && |all| > o.limit.value
    ensures o.Holds(all + y)
  {
    assert (all + x)[..o.limit.value] == (all + y)[..o.limit.value];
  }

  method WriteMemory(o: Out, rs: seq<Region>, read: Reader, ghost all: seq<byte>)
    requires o.Holds(all)
    modifies o
    ensures o.Holds(all + Memory(rs, read))
  {
    assert all + Memory(rs[..0], read) == all;
    var i := 0;
    while i < |rs| && !o.err
      invariant i <= |rs| && o.Holds(all + Memory(rs[..i], read))
    {
      MoreMemory(rs, read, i, all);
      WriteRegion(o, rs[i], read, all + Memory(rs[..i], read));
      i := i + 1;
    }
    assert rs[..|rs|] == rs;
    MemoryPrefix(rs, read, i);
    StoppedShort(o, all, Memory(rs[..i], read), Memory(rs, read));
  }

  lemma MoreMemory(rs: seq<Region>, read: Reader, i: nat, all: seq<byte>)
    requires i < |rs|
    ensures all + Memory(rs[..i + 1], read) == all + Memory(rs[..i], read) + Contents(rs[i], read)
  {
    assert rs[..i + 1][..i] == rs[..i];
    Append(all, Memory(rs[..i], read), Contents(rs[i], read));
  }

  method WriteRegion(o: Out, r: Region, read: Reader, ghost all: seq<byte>)
    requires o.Holds(all)
    modifies o
    ensures o.Holds(all + Contents(r, read))
  {
    if r.prot == Writable {
      WritePages(o, r.start, r.pages, read, all);
    } else {
      assert all + Contents(r, read) == all;
    }
  }

  method WritePages(o: Out, start: nat, pages: nat, read: Reader, ghost all: seq<byte>)
    requires o.Holds(all)
    modifies o
    ensures o.Holds(all + Pages(read, start, pages))
  {
    var va, end := start, start + PAGE * pages;
    ghost var n := 0;
    assert all + Pages(read, start, 0) == all;
    while va < end && !o.err
      invariant n <= pages && va == start + PAGE * n && o.Holds(all + Pages(read, start, n))
      decreases pages - n
    {
      MorePages(read, start, n, va, all);
      o.Write(PageAt(read, va), all + Pages(read, start, n));
      va, n := va + PAGE, n + 1;
    }
    PagesPrefix(read, start, n, pages);
    StoppedShort(o, all, Pages(read, start, n), Pages(read, start, pages));
  }

  lemma MorePages(read: Reader, start: nat, n: nat, va: nat, all: seq<byte>)
    requires va == start + PAGE * n
    ensures all + Pages(read, start, n + 1) == all + Pages(read, start, n) + PageAt(read, va)
  {
    Append(all, Pages(read, start, n), PageAt(read, va));
  }

  /** Once something was refused, what would have followed makes no difference. */
  lemma StoppedShort(o: Out, all: seq<byte>, part: seq<byte>, whole: seq<byte>)
    requires o.Holds(all + part) && part <= whole && (o.err || part == whole)
    ensures o.Holds(all + whole)
  {
    if part != whole {
      assert all + part == (all + whole)[..|all + part|];
      assert (all + part)[..o.limit.value] == (all + whole)[..o.limit.value];
    }
  }

  lemma {:induction false} MemoryPrefix(rs: seq<Region>, read: Reader, i: nat)
    requires i <= |rs|
    ensures Memory(rs[..i], read) <= Memory(rs, read)
  {
    if i == |rs| {
      assert rs[..i] == rs;
    } else {
      assert rs[..|rs| - 1][..i] == rs[..i];
      MemoryPrefix(rs[..|rs| - 1], read, i);
    }
  }

  lemma {:induction false} PagesPrefix(read: Reader, va: nat, i: nat, n: nat)
    requires i <= n
    ensures Pages(read, va, i) <= Pages(read, va, n)
  {
    if i < n {
      PagesPrefix(read, va, i, n - 1);
    }
  }
}
