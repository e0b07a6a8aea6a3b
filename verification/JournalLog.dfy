/**
What a JBD log says, independent of who reads it: the circular log of
bootrom/bootrom.c and kernel/fs/ext2.c as a sequence of records, which of them
are committed, which copies are revoked, and the disk that writing the
surviving copies home would leave.
*/
module JournalLog {
  import opened JournalFormat
  import opened Basics
  import opened BigEndian

  /** The blocks that read without error. */
  type Disk = map<u32, Block>

  /** The log's geometry; `where[p]` is the disk block behind log block `p`, 0 for a hole. */
  datatype Log = Log(bs: nat, first: u32, maxlen: u32, where: seq<u32>)

  const LOG_BLOCKS: nat := 0x40_0000    // more than an inode's direct to double-indirect blocks

  predicate Geometry(L: Log) {
    1024 <= L.bs <= 4096 && 0 < L.first < L.maxlen && |L.where| <= LOG_BLOCKS
  }

  predicate Formatted(L: Log, d: Disk) {
    forall k :: k in d ==> |d[k]| == L.bs
  }

  function Home(L: Log, pos: nat): u32 {
    if pos < |L.where| then L.where[pos] else 0
  }

  function ReadLog(L: Log, d: Disk, pos: nat): Option<Block> {
    var b := Home(L, pos);
    if b != 0 && b in d then Some(d[b]) else None
  }

  function Next(L: Log, pos: nat): nat {
    if pos + 1 >= L.maxlen then L.first else pos + 1
  }

  function After(L: Log, pos: nat, n: nat): nat {
    if n == 0 then pos else Next(L, After(L, pos, n - 1))
  }

  // ------------------------------------------------------------------
  // Sequence numbers: 32 bits, compared by the sign of their difference
  // ------------------------------------------------------------------

  function Inc(s: u32): u32 {
    if s == WORD - 1 then 0 else s + 1
  }

  function Plus(s: u32, n: nat): u32 {
    if n == 0 then s else Inc(Plus(s, n - 1))
  }

  /** (long)(a - b) < 0 on a 32-bit machine. */
  predicate Before(a: u32, b: u32) {
    if a >= b then a - b >= 0x8000_0000 else b - a <= 0x8000_0000
  }

  lemma {:induction false} PlusPlus(s: u32, m: nat, n: nat)
    ensures Plus(Plus(s, m), n) == Plus(s, m + n)
    decreases n
  {
    if n > 0 {
      PlusPlus(s, m, n - 1);
    }
  }

  lemma {:induction false} PlusWraps(s: u32, n: nat)
    requires n < WORD
    ensures Plus(s, n) == if s + n < WORD then s + n else s + n - WORD
    decreases n
  {
    if n > 0 {
      PlusWraps(s, n - 1);
    }
  }

  lemma BeforeInWindow(s: u32, m: nat, n: nat)
    requires m < 0x8000_0000 && n < 0x8000_0000
    ensures Before(Plus(s, m), Plus(s, n)) <==> m < n
  {
    PlusWraps(s, m);
    PlusWraps(s, n);
  }

  // ------------------------------------------------------------------
  // Records
  // ------------------------------------------------------------------

  /** A copy of home block `blk` at log position `at`, logged by transaction `seqno`. */
  datatype Copy = Copy(blk: u32, at: nat, escape: bool, seqno: u32)

  datatype Record =
    | Descriptor(seqno: u32, copies: seq<Copy>)
    | Commit(seqno: u32)
    | Revoke(seqno: u32, blks: seq<u32>)

  /** Where a descriptor's copies are: one after another from `pos` on. */
  function Place(L: Log, tags: seq<Tag>, pos: nat, seqno: u32): (copies: seq<Copy>)
    ensures |copies| == |tags|
  {
    if tags == [] then []
    else
      var n := |tags| - 1;
      Place(L, tags[..n], pos, seqno) + [Copy(tags[n].blk, After(L, pos, n), tags[n].escape, seqno)]
  }

  lemma {:induction false} PlaceAt(L: Log, tags: seq<Tag>, pos: nat, seqno: u32, i: nat)
    requires i < |tags|
    ensures Place(L, tags, pos, seqno)[i] == Copy(tags[i].blk, After(L, pos, i), tags[i].escape, seqno)
    decreases |tags|
  {
    if i < |tags| - 1 {
      PlaceAt(L, tags[..|tags| - 1], pos, seqno, i);
    }
  }

  lemma {:induction false} AfterCons(L: Log, pos: nat, n: nat)
    ensures After(L, Next(L, pos), n) == After(L, pos, n + 1)
    decreases n
  {
    if n > 0 {
      AfterCons(L, pos, n - 1);
    }
  }

  lemma PlaceCons(L: Log, tag: Tag, rest: seq<Tag>, pos: nat, seqno: u32)
    ensures Place(L, [tag] + rest, pos, seqno)
         == [Copy(tag.blk, pos, tag.escape, seqno)] + Place(L, rest, Next(L, pos), seqno)
  {
    var all, later := Place(L, [tag] + rest, pos, seqno), Place(L, rest, Next(L, pos), seqno);
    forall i | 0 <= i < |all|
      ensures all[i] == ([Copy(tag.blk, pos, tag.escape, seqno)] + later)[i]
    {
      PlaceAt(L, [tag] + rest, pos, seqno, i);
      if i > 0 {
        PlaceAt(L, rest, Next(L, pos), seqno, i - 1);
        AfterCons(L, pos, i - 1);
      }
    }
  }

  /** What a log block is, to a reader at `pos` expecting transaction `seqno`. */
  function Decode(L: Log, b: Block, pos: nat, seqno: u32): Option<Record>
  {
    if |b| < HEADER + 4 then None
    else if HasHeader(b, DESCRIPTOR, seqno) then
      Some(Descriptor(seqno, Place(L, TagList(b, HEADER), Next(L, pos), seqno)))
    else if HasHeader(b, COMMIT, seqno) then Some(Commit(seqno))
    else if HasHeader(b, REVOKE, seqno) then Some(Revoke(seqno, RevokedIn(b)))
    else None
  }

  /** Byte by byte: the magic, three zeros, what kind of block it is, and the number. */
  lemma DecodeBytes(L: Log, b: Block, pos: nat, seqno: u32)
    requires |b| >= 16
    ensures var r := Decode(L, b, pos, seqno);
            && (r.Some? <==> b[..7] == [0xC0, 0x3B, 0x39, 0x98, 0, 0, 0] && b[7] in {1, 2, 5} && Be32(b, 8) == seqno)
            && (r.Some? ==> && r.value.seqno == seqno
                            && (r.value.Descriptor? <==> b[7] == 1) && (r.value.Commit? <==> b[7] == 2)
                            && (r.value.Revoke? <==> b[7] == 5))
  {
    HeaderBytes(b, 1, seqno);
    HeaderBytes(b, 2, seqno);
    HeaderBytes(b, 5, seqno);
    assert b[..8] == b[..7] + [b[7]];
  }

  function ReadRecord(L: Log, d: Disk, pos: nat, seqno: u32): Option<Record>
  {
    match ReadLog(L, d, pos)
    case None => None
    case Some(b) => Decode(L, b, pos, seqno)
  }

  function Ahead(L: Log, pos: nat, r: Record): nat {
    After(L, Next(L, pos), if r.Descriptor? then |r.copies| else 0)
  }

  function SeqAfter(r: Record): u32 {
    if r.Commit? then Inc(r.seqno) else r.seqno
  }

  /** How a log answers: the record at a position, to a reader expecting a sequence number. */
  type Reader = (nat, u32) -> Option<Record>

  function ReaderOf(L: Log, d: Disk): Reader
  {
    (pos: nat, seqno: u32) => ReadRecord(L, d, pos, seqno)
  }

  /** `read` answers as this log on this disk does. */
  ghost predicate Speaks(read: Reader, L: Log, d: Disk)
  {
    forall pos: nat, s: u32 {:trigger ReadRecord(L, d, pos, s)} :: ReadRecord(L, d, pos, s) == read(pos, s)
  }

  lemma ReaderSpeaks(L: Log, d: Disk)
    ensures Speaks(ReaderOf(L, d), L, d)
  {
  }

  /** Everything the log says from `pos` on: the records up to the first block that is none. */
  function Scan(L: Log, read: Reader, pos: nat, seqno: u32, steps: nat): (recs: seq<Record>)
    decreases L.maxlen + 1 - steps
  {
    if steps > L.maxlen then []
    else match read(pos, seqno)
      case None => []
      case Some(r) => [r] + Scan(L, read, Ahead(L, pos, r), SeqAfter(r), steps + 1)
  }

  function Commits(recs: seq<Record>): nat {
    if recs == [] then 0 else Commits(recs[..|recs| - 1]) + if recs[|recs| - 1].Commit? then 1 else 0
  }

  /** The records of committed transactions: everything up to the last commit. */
  function Committed(recs: seq<Record>): seq<Record> {
    if recs == [] || recs[|recs| - 1].Commit? then recs else Committed(recs[..|recs| - 1])
  }

  datatype Revocation = Revocation(blk: u32, seqno: u32)

  function Stamp(blks: seq<u32>, seqno: u32): seq<Revocation> {
    seq(|blks|, i requires 0 <= i < |blks| => Revocation(blks[i], seqno))
  }

  function Revocations(recs: seq<Record>): seq<Revocation> {
    if recs == [] then []
    else
      var r := recs[|recs| - 1];
      Revocations(recs[..|recs| - 1]) + if r.Revoke? then Stamp(r.blks, r.seqno) else []
  }

  function Copies(recs: seq<Record>): seq<Copy> {
    if recs == [] then []
    else
      var r := recs[|recs| - 1];
      Copies(recs[..|recs| - 1]) + if r.Descriptor? then r.copies else []
  }

  /** Some entry of the table names the block, in transaction `seqno` or a later one. */
  predicate Revoked(table: seq<Revocation>, blk: u32, seqno: u32) {
    exists i :: 0 <= i < |table| && table[i].blk == blk && !Before(table[i].seqno, seqno)
  }

  /** The copies that no entry of the table revokes, in log order. */
  function Live(table: seq<Revocation>, copies: seq<Copy>): seq<Copy> {
    if copies == [] then []
    else
      var c := copies[|copies| - 1];
      Live(table, copies[..|copies| - 1]) + if Revoked(table, c.blk, c.seqno) then [] else [c]
  }

  /** The committed copies that are not revoked: what recovery is to write home. */
  function Survivors(L: Log, d: Disk, start: nat, seqno: u32): seq<Copy>
  {
    var recs := Scan(L, ReaderOf(L, d), start, seqno, 0);
    Live(Revocations(recs), Copies(Committed(recs)))
  }

  // ------------------------------------------------------------------
  // Writing copies home
  // ------------------------------------------------------------------

  function Unescape(b: Block, escape: bool): (r: Block)
    ensures |r| == |b|
  {
    if escape && |b| >= 4 then Put32(b, 0, MAGIC) else b
  }

  predicate Readable(L: Log, d: Disk, copies: seq<Copy>) {
    forall i :: 0 <= i < |copies| ==> ReadLog(L, d, copies[i].at).Some?
  }

  /** What a copy in the log restores. */
  function Content(L: Log, d: Disk, c: Copy): Block {
    match ReadLog(L, d, c.at)
    case None => []
    case Some(b) => Unescape(b, c.escape)
  }

  /** The disk after every copy, in order, is written to its home block. */
  function Replay(L: Log, d: Disk, copies: seq<Copy>): Disk {
    if copies == [] then d
    else
      var c := copies[|copies| - 1];
      Replay(L, d, copies[..|copies| - 1])[c.blk := Content(L, d, c)]
  }

  /** The newest copy of a block, if the log has one. */
  function Newest(copies: seq<Copy>, blk: u32): Option<Copy> {
    if copies == [] then None
    else if copies[|copies| - 1].blk == blk then Some(copies[|copies| - 1])
    else Newest(copies[..|copies| - 1], blk)
  }

  lemma {:induction false} NewestIsThere(copies: seq<Copy>, blk: u32)
    ensures Newest(copies, blk).Some? ==> Newest(copies, blk).value in copies && Newest(copies, blk).value.blk == blk
    ensures Newest(copies, blk).None? ==> forall i :: 0 <= i < |copies| ==> copies[i].blk != blk
    decreases |copies|
  {
    if copies != [] {
      NewestIsThere(copies[..|copies| - 1], blk);
    }
  }

  /** What a read of the block finds. */
  function Holding(d: Disk, blk: u32): Option<Block> {
    if blk in d then Some(d[blk]) else None
  }

  lemma SameDisk(a: Disk, b: Disk)
    requires forall blk: u32 :: Holding(a, blk) == Holding(b, blk)
    ensures a == b
  {
    forall blk | blk in a
      ensures blk in b && a[blk] == b[blk]
    {
      assert Holding(a, blk) == Holding(b, blk);
    }
    forall blk | blk in b
      ensures blk in a
    {
      assert Holding(a, blk) == Holding(b, blk);
    }
  }

  function AfterReplay(L: Log, d: Disk, copies: seq<Copy>, blk: u32): Option<Block>
  {
    match Newest(copies, blk)
    case None => Holding(d, blk)
    case Some(c) => Some(Content(L, d, c))
  }

  /** After replay a block holds its newest copy, or what it held before. */
  lemma {:induction false} ReplayReads(L: Log, d: Disk, copies: seq<Copy>, blk: u32)
    ensures Holding(Replay(L, d, copies), blk) == AfterReplay(L, d, copies, blk)
    decreases |copies|
  {
    if copies != [] {
      ReplayReads(L, d, copies[..|copies| - 1], blk);
    }
  }

  // ------------------------------------------------------------------
  // How far a scan can go
  // ------------------------------------------------------------------

  lemma {:induction false} AfterStays(L: Log, pos: nat, n: nat)
    requires Geometry(L) && pos < L.maxlen
    ensures After(L, pos, n) < L.maxlen
    decreases n
  {
    if n > 0 {
      AfterStays(L, pos, n - 1);
    }
  }

  lemma {:induction false} AfterNoWrap(L: Log, pos: nat, n: nat)
    requires pos + n < L.maxlen
    ensures After(L, pos, n) == pos + n
    decreases n
  {
    if n > 0 {
      AfterNoWrap(L, pos, n - 1);
    }
  }

  lemma {:induction false} ScanCounted(L: Log, read: Reader, pos: nat, seqno: u32, steps: nat)
    requires steps <= L.maxlen + 1
    ensures |Scan(L, read, pos, seqno, steps)| <= L.maxlen + 1 - steps
    decreases L.maxlen + 1 - steps
  {
    if steps <= L.maxlen && read(pos, seqno).Some? {
      var r := read(pos, seqno).value;
      ScanCounted(L, read, Ahead(L, pos, r), SeqAfter(r), steps + 1);
    }
  }

  /** Every record leads forwards, and there is none past `bound`. */
  ghost predicate MovesOn(L: Log, read: Reader, bound: nat) {
    forall pos: nat, s: u32 :: read(pos, s).Some? ==> pos < bound && Ahead(L, pos, read(pos, s).value) > pos
  }

  lemma {:induction false} ScanRunsOut(L: Log, read: Reader, pos: nat, seqno: u32, steps: nat, bound: nat)
    requires MovesOn(L, read, bound)
    ensures |Scan(L, read, pos, seqno, steps)| <= if pos < bound then bound - pos else 0
    decreases L.maxlen + 1 - steps
  {
    if steps <= L.maxlen && read(pos, seqno).Some? {
      var r := read(pos, seqno).value;
      ScanRunsOut(L, read, Ahead(L, pos, r), SeqAfter(r), steps + 1, bound);
    }
  }

  lemma RecordMovesOn(L: Log, d: Disk, pos: nat, seqno: u32)
    requires Geometry(L) && Formatted(L, d) && L.maxlen > LOG_BLOCKS + 8192
    requires ReadRecord(L, d, pos, seqno).Some?
    ensures pos < LOG_BLOCKS && Ahead(L, pos, ReadRecord(L, d, pos, seqno).value) > pos
  {
    var r, b := ReadRecord(L, d, pos, seqno).value, ReadLog(L, d, pos).value;
    var n := if r.Descriptor? then |r.copies| else 0;
    TagsCount(b, HEADER);
    assert n <= 4096;
    AfterNoWrap(L, pos + 1, n);
    assert Ahead(L, pos, r) == After(L, pos + 1, n);
  }

  /** Whatever the disk holds, a scan ends, and well inside half the sequence numbers. */
  lemma ScanIsShort(L: Log, d: Disk, pos: nat, seqno: u32)
    requires Geometry(L) && Formatted(L, d)
    ensures |Scan(L, ReaderOf(L, d), pos, seqno, 0)| < 0x8000_0000
    ensures |Scan(L, ReaderOf(L, d), pos, seqno, 0)| <= L.maxlen + 1
  {
    var read := ReaderOf(L, d);
    ScanCounted(L, read, pos, seqno, 0);
    if L.maxlen > LOG_BLOCKS + 8192 {
      forall p: nat, s: u32 | read(p, s).Some?
        ensures p < LOG_BLOCKS && Ahead(L, p, read(p, s).value) > p
      {
        RecordMovesOn(L, d, p, s);
      }
      ScanRunsOut(L, read, pos, seqno, 0, LOG_BLOCKS);
    }
  }

  // ------------------------------------------------------------------
  // Sequence numbers along a scan, and where the committed part ends
  // ------------------------------------------------------------------

  lemma {:induction false} CommitsBound(recs: seq<Record>)
    ensures Commits(recs) <= |recs|
    decreases |recs|
  {
    if recs != [] {
      CommitsBound(recs[..|recs| - 1]);
    }
  }

  lemma {:induction false} CommitsCons(r: Record, rest: seq<Record>)
    ensures Commits([r] + rest) == (if r.Commit? then 1 else 0) + Commits(rest)
    decreases |rest|
  {
    var n := |rest| - 1;
    if rest == [] {
      assert [r] + rest == [r] && [r][..0] == [];
    } else {
      assert ([r] + rest)[..n + 1] == [r] + rest[..n];
      CommitsCons(r, rest[..n]);
    }
  }

  /** Every record carries the number its place in the log calls for. */
  ghost predicate Numbered(recs: seq<Record>, seqno: u32) {
    forall i :: 0 <= i < |recs| ==>
      Carries(recs[i], Plus(seqno, Commits(recs[..i])))
  }

  /** A record read for a sequence number carries it, and so do its copies. */
  predicate Carries(r: Record, seqno: u32) {
    r.seqno == seqno && (r.Descriptor? ==> forall c :: c in r.copies ==> c.seqno == seqno)
  }

  ghost predicate Truthful(read: Reader) {
    forall pos: nat, s: u32 :: read(pos, s).Some? ==> Carries(read(pos, s).value, s)
  }

  lemma ReaderIsTruthful(L: Log, d: Disk)
    ensures Truthful(ReaderOf(L, d))
  {
    forall pos: nat, s: u32 | ReadRecord(L, d, pos, s).Some?
      ensures Carries(ReadRecord(L, d, pos, s).value, s)
    {
      var r := ReadRecord(L, d, pos, s).value;
      if r.Descriptor? {
        var tags := TagList(ReadLog(L, d, pos).value, HEADER);
        forall i | 0 <= i < |r.copies|
          ensures r.copies[i].seqno == s
        {
          PlaceAt(L, tags, Next(L, pos), s, i);
        }
      }
    }
  }

  lemma {:induction false} ScanNumbered(L: Log, read: Reader, pos: nat, seqno: u32, steps: nat)
    requires Truthful(read)
    ensures Numbered(Scan(L, read, pos, seqno, steps), seqno)
    decreases L.maxlen + 1 - steps
  {
    if steps <= L.maxlen && read(pos, seqno).Some? {
      var r := read(pos, seqno).value;
      ScanNumbered(L, read, Ahead(L, pos, r), SeqAfter(r), steps + 1);
      NumberedCons(r, Scan(L, read, Ahead(L, pos, r), SeqAfter(r), steps + 1), seqno);
    }
  }

  lemma NumberedCons(r: Record, rest: seq<Record>, seqno: u32)
    requires Carries(r, seqno) && Numbered(rest, SeqAfter(r))
    ensures Numbered([r] + rest, seqno)
  {
    var recs := [r] + rest;
    forall i | 0 <= i < |recs|
      ensures Carries(recs[i], Plus(seqno, Commits(recs[..i])))
    {
      if i > 0 {
        assert Carries(rest[i - 1], Plus(SeqAfter(r), Commits(rest[..i - 1])));
        NumberedLater(r, rest, seqno, i - 1);
      } else {
        assert recs[..0] == [];
      }
    }
  }

  lemma NumberedLater(r: Record, rest: seq<Record>, seqno: u32, i: nat)
    requires Carries(r, seqno) && i < |rest| && Carries(rest[i], Plus(SeqAfter(r), Commits(rest[..i])))
    ensures Carries(rest[i], Plus(seqno, Commits(([r] + rest)[..i + 1])))
  {
    assert ([r] + rest)[..i + 1] == [r] + rest[..i];
    CommitsCons(r, rest[..i]);
    PlusPlus(seqno, if r.Commit? then 1 else 0, Commits(rest[..i]));
  }

  /** The records a pass visits when it runs while its number is before `end`. */
  function Until(recs: seq<Record>, seqno: u32, end: u32): seq<Record> {
    if recs == [] || !Before(seqno, end) then []
    else [recs[0]] + Until(recs[1..], SeqAfter(recs[0]), end)
  }

  lemma {:induction false} CommittedCons(r: Record, rest: seq<Record>)
    ensures Committed([r] + rest)
         == if r.Commit? || Commits(rest) > 0 then [r] + Committed(rest) else []
    decreases |rest|
  {
    var n := |rest| - 1;
    if rest == [] {
      assert [r] + rest == [r] && [r][..0] == [];
    } else if !rest[n].Commit? {
      assert ([r] + rest)[..n + 1] == [r] + rest[..n];
      CommittedCons(r, rest[..n]);
    }
  }

  /** Stopping at the first number with no commit is stopping at the last commit. */
  lemma {:induction false} UntilIsCommitted(recs: seq<Record>, seqno: u32)
    requires |recs| < 0x8000_0000 && Numbered(recs, seqno)
    ensures Until(recs, seqno, Plus(seqno, Commits(recs))) == Committed(recs)
    decreases |recs|
  {
    CommitsBound(recs);
    BeforeInWindow(seqno, 0, Commits(recs));
    if recs != [] {
      var r, rest := recs[0], recs[1..];
      assert recs == [r] + rest;
      CommittedCons(r, rest);
      EndFromTail(recs, seqno);
      NumberedTail(recs, seqno);
      if Commits(recs) > 0 {
        UntilIsCommitted(rest, SeqAfter(r));
      }
    }
  }

  lemma EndFromTail(recs: seq<Record>, seqno: u32)
    requires recs != [] && recs[0].seqno == seqno
    ensures Commits(recs) == (if recs[0].Commit? then 1 else 0) + Commits(recs[1..])
    ensures Plus(seqno, Commits(recs)) == Plus(SeqAfter(recs[0]), Commits(recs[1..]))
  {
    assert recs == [recs[0]] + recs[1..];
    CommitsCons(recs[0], recs[1..]);
    PlusPlus(seqno, if recs[0].Commit? then 1 else 0, Commits(recs[1..]));
  }

  lemma NumberedTail(recs: seq<Record>, seqno: u32)
    requires recs != [] && Numbered(recs, seqno)
    ensures recs[0].seqno == seqno && Numbered(recs[1..], SeqAfter(recs[0]))
  {
    var r, rest := recs[0], recs[1..];
    assert recs[..0] == [];
    forall i | 0 <= i < |rest|
      ensures Carries(rest[i], Plus(SeqAfter(r), Commits(rest[..i])))
    {
      assert recs[..i + 1] == [r] + rest[..i];
      CommitsCons(r, rest[..i]);
      var one := if r.Commit? then 1 else 0;
      PlusPlus(seqno, one, Commits(rest[..i]));
      assert rest[i] == recs[i + 1];
    }
  }

  // ------------------------------------------------------------------
  // Revocations the log has not committed
  // ------------------------------------------------------------------

  lemma {:induction false} CommittedIsPrefix(recs: seq<Record>)
    ensures |Committed(recs)| <= |recs| && Committed(recs) == recs[..|Committed(recs)|]
    ensures Commits(Committed(recs)) == Commits(recs)
    ensures forall i :: |Committed(recs)| <= i < |recs| ==> !recs[i].Commit?
    decreases |recs|
  {
    if recs != [] && !recs[|recs| - 1].Commit? {
      CommittedIsPrefix(recs[..|recs| - 1]);
    }
  }

  /** The records after the last commit. */
  function Tail(recs: seq<Record>): seq<Record> {
    CommittedIsPrefix(recs);
    recs[|Committed(recs)|..]
  }

  lemma {:induction false} RevocationsConcat(a: seq<Record>, b: seq<Record>)
    ensures Revocations(a + b) == Revocations(a) + Revocations(b)
    decreases |b|
  {
    if b == [] {
      assert a + b == a;
    } else {
      var n := |b| - 1;
      assert (a + b)[..|a + b| - 1] == a + b[..n];
      RevocationsConcat(a, b[..n]);
    }
  }

  lemma {:induction false} LiveIs(table: seq<Revocation>, copies: seq<Copy>, c: Copy)
    ensures c in Live(table, copies) <==> c in copies && !Revoked(table, c.blk, c.seqno)
    decreases |copies|
  {
    if copies != [] {
      LiveIs(table, copies[..|copies| - 1], c);
      assert copies == copies[..|copies| - 1] + [copies[|copies| - 1]];
    }
  }

  lemma RevokedConcat(a: seq<Revocation>, b: seq<Revocation>, blk: u32, seqno: u32)
    ensures Revoked(a + b, blk, seqno) <==> Revoked(a, blk, seqno) || Revoked(b, blk, seqno)
  {
    if Revoked(a, blk, seqno) {
      var i :| 0 <= i < |a| && a[i].blk == blk && !Before(a[i].seqno, seqno);
      assert (a + b)[i] == a[i];
    }
    if Revoked(b, blk, seqno) {
      var i :| 0 <= i < |b| && b[i].blk == blk && !Before(b[i].seqno, seqno);
      assert (a + b)[|a| + i] == b[i];
    }
  }

  lemma {:induction false} LiveUnchanged(a: seq<Revocation>, b: seq<Revocation>, copies: seq<Copy>)
    requires forall c :: c in copies ==> (Revoked(a, c.blk, c.seqno) <==> Revoked(b, c.blk, c.seqno))
    ensures Live(a, copies) == Live(b, copies)
    decreases |copies|
  {
    if copies != [] {
      LiveUnchanged(a, b, copies[..|copies| - 1]);
      assert copies[|copies| - 1] in copies;
    }
  }

  /**
  Both readers take revocations from the whole scan, before they know where the
  committed part ends. That is the same as honouring committed revocations only
  exactly when no revocation left over from the uncommitted tail hits a copy
  that would otherwise survive.
  */
  lemma TailRevocations(recs: seq<Record>, copies: seq<Copy>)
    ensures Live(Revocations(recs), copies) == Live(Revocations(Committed(recs)), copies)
       <==> forall c :: c in Live(Revocations(Committed(recs)), copies)
                        ==> !Revoked(Revocations(Tail(recs)), c.blk, c.seqno)
  {
    RevocationsSplit(recs);
    LiveOfBothIs(Revocations(Committed(recs)), Revocations(Tail(recs)), copies);
  }

  lemma RevocationsSplit(recs: seq<Record>)
    ensures Revocations(recs) == Revocations(Committed(recs)) + Revocations(Tail(recs))
  {
    CommittedIsPrefix(recs);
    assert recs == Committed(recs) + Tail(recs);
    RevocationsConcat(Committed(recs), Tail(recs));
  }

  lemma LiveOfBothIs(a: seq<Revocation>, b: seq<Revocation>, copies: seq<Copy>)
    ensures Live(a + b, copies) == Live(a, copies) <==> forall c :: c in Live(a, copies) ==> !Revoked(b, c.blk, c.seqno)
  {
    if forall c :: c in Live(a, copies) ==> !Revoked(b, c.blk, c.seqno) {
      LiveWithBoth(a, b, copies);
    } else {
      var c :| c in Live(a, copies) && Revoked(b, c.blk, c.seqno);
      LiveOfBoth(a, b, copies, c);
    }
  }

  lemma LiveWithBoth(a: seq<Revocation>, b: seq<Revocation>, copies: seq<Copy>)
    requires forall c :: c in Live(a, copies) ==> !Revoked(b, c.blk, c.seqno)
    ensures Live(a + b, copies) == Live(a, copies)
  {
    forall c | c in copies
      ensures Revoked(a + b, c.blk, c.seqno) <==> Revoked(a, c.blk, c.seqno)
    {
      RevokedConcat(a, b, c.blk, c.seqno);
      LiveIs(a, copies, c);
    }
    LiveUnchanged(a + b, a, copies);
  }

  lemma LiveOfBoth(a: seq<Revocation>, b: seq<Revocation>, copies: seq<Copy>, c: Copy)
    ensures c in Live(a + b, copies) <==> c in Live(a, copies) && !Revoked(b, c.blk, c.seqno)
  {
    RevokedConcat(a, b, c.blk, c.seqno);
    LiveIs(a, copies, c);
    LiveIs(a + b, copies, c);
  }

  /** A revoke record after the last commit names the block. */
  ghost predicate TailRevokes(recs: seq<Record>, blk: u32) {
    exists i :: 0 <= i < |Tail(recs)| && Tail(recs)[i].Revoke? && blk in Tail(recs)[i].blks
  }

  lemma {:induction false} RevocationFrom(recs: seq<Record>, x: Revocation) returns (i: nat)
    requires x in Revocations(recs)
    ensures i < |recs| && recs[i].Revoke? && x.blk in recs[i].blks && x.seqno == recs[i].seqno
  {
    var n := |recs| - 1;
    if x in Revocations(recs[..n]) {
      i := RevocationFrom(recs[..n], x);
    } else {
      i := n;
    }
  }

  lemma {:induction false} RevocationOf(recs: seq<Record>, i: nat, blk: u32)
    requires i < |recs| && recs[i].Revoke? && blk in recs[i].blks
    ensures Revocation(blk, recs[i].seqno) in Revocations(recs)
  {
    var n := |recs| - 1;
    if i < n {
      RevocationOf(recs[..n], i, blk);
    } else {
      var k :| 0 <= k < |recs[n].blks| && recs[n].blks[k] == blk;
      assert Stamp(recs[n].blks, recs[n].seqno)[k] == Revocation(blk, recs[n].seqno);
    }
  }

  lemma {:induction false} CopyFrom(recs: seq<Record>, c: Copy) returns (i: nat)
    requires c in Copies(recs)
    ensures i < |recs| && recs[i].Descriptor? && c in recs[i].copies
  {
    var n := |recs| - 1;
    if c in Copies(recs[..n]) {
      i := CopyFrom(recs[..n], c);
    } else {
      i := n;
    }
  }

  lemma {:induction false} CommitsGrow(recs: seq<Record>, i: nat, j: nat)
    requires i <= j <= |recs|
    ensures Commits(recs[..i]) <= Commits(recs[..j]) <= |recs|
    decreases j
  {
    CommitsBound(recs[..j]);
    if i < j {
      assert recs[..j][..j - 1] == recs[..j - 1];
      CommitsGrow(recs, i, j - 1);
    }
  }

  /** The tail is later than every committed copy, so its revocations are too. */
  lemma TailIsLater(recs: seq<Record>, seqno: u32, c: Copy, j: nat)
    requires |recs| < 0x8000_0000 && Numbered(recs, seqno) && c in Copies(Committed(recs))
    requires |Committed(recs)| <= j < |recs|
    ensures !Before(recs[j].seqno, c.seqno)
  {
    CommittedIsPrefix(recs);
    var i := CopyFrom(Committed(recs), c);
    assert recs[i] == Committed(recs)[i];
    assert Carries(recs[i], Plus(seqno, Commits(recs[..i]))) && Carries(recs[j], Plus(seqno, Commits(recs[..j])));
    CommitsGrow(recs, i, j);
    BeforeInWindow(seqno, Commits(recs[..j]), Commits(recs[..i]));
  }

  lemma TailRevokesIs(recs: seq<Record>, seqno: u32, c: Copy)
    requires |recs| < 0x8000_0000 && Numbered(recs, seqno) && c in Copies(Committed(recs))
    ensures Revoked(Revocations(Tail(recs)), c.blk, c.seqno) <==> TailRevokes(recs, c.blk)
  {
    var tail, table, n := Tail(recs), Revocations(Tail(recs)), |Committed(recs)|;
    CommittedIsPrefix(recs);
    if Revoked(table, c.blk, c.seqno) {
      var k :| 0 <= k < |table| && table[k].blk == c.blk && !Before(table[k].seqno, c.seqno);
      var i := RevocationFrom(tail, table[k]);
    }
    if TailRevokes(recs, c.blk) {
      var i :| 0 <= i < |tail| && tail[i].Revoke? && c.blk in tail[i].blks;
      RevocationOf(tail, i, c.blk);
      assert tail[i] == recs[n + i];
      TailIsLater(recs, seqno, c, n + i);
    }
  }

  /** What writing home would be if only committed revocations counted. */
  function CommittedSurvivors(recs: seq<Record>): seq<Copy> {
    Live(Revocations(Committed(recs)), Copies(Committed(recs)))
  }

  lemma {:induction false} NewestOfBoth(a: seq<Revocation>, b: seq<Revocation>, copies: seq<Copy>, blk: u32)
    ensures var n := Newest(Live(a, copies), blk);
            n.Some? && !Revoked(b, blk, n.value.seqno) ==> Newest(Live(a + b, copies), blk) == n
    ensures Newest(Live(a, copies), blk).None? ==> Newest(Live(a + b, copies), blk).None?
    decreases |copies|
  {
    if copies != [] {
      var before, c := copies[..|copies| - 1], copies[|copies| - 1];
      NewestOfBoth(a, b, before, blk);
      RevokedConcat(a, b, c.blk, c.seqno);
      LiveSnoc(a, copies);
      LiveSnoc(a + b, copies);
      NewestLast(Live(a, before), c, blk);
      NewestLast(Live(a + b, before), c, blk);
    }
  }

  lemma LiveSnoc(table: seq<Revocation>, copies: seq<Copy>)
    requires copies != []
    ensures var before, c := copies[..|copies| - 1], copies[|copies| - 1];
            Live(table, copies) == if Revoked(table, c.blk, c.seqno) then Live(table, before) else Live(table, before) + [c]
  {
  }

  lemma NewestLast(before: seq<Copy>, c: Copy, blk: u32)
    ensures Newest(before + [c], blk) == if c.blk == blk then Some(c) else Newest(before, blk)
  {
    assert (before + [c])[..|before|] == before;
  }

  /**
  Block by block: the copy found is the one committed revocations alone would leave
  if and only if there is none, or no revoke record after the last commit names the
  block.
  */
  lemma TailRevocationsOf(recs: seq<Record>, seqno: u32, blk: u32)
    requires |recs| < 0x8000_0000 && Numbered(recs, seqno)
    ensures var n := Newest(CommittedSurvivors(recs), blk);
            Newest(Live(Revocations(recs), Copies(Committed(recs))), blk) == n <==> n.None? || !TailRevokes(recs, blk)
  {
    RevocationsSplit(recs);
    NewestOfBothIs(Revocations(Committed(recs)), Revocations(Tail(recs)), Copies(Committed(recs)), blk);
    TailRevokesNewest(recs, seqno, blk);
  }

  lemma TailRevokesNewest(recs: seq<Record>, seqno: u32, blk: u32)
    requires |recs| < 0x8000_0000 && Numbered(recs, seqno)
    ensures var n := Newest(CommittedSurvivors(recs), blk);
            n.Some? ==> (Revoked(Revocations(Tail(recs)), blk, n.value.seqno) <==> TailRevokes(recs, blk))
  {
    var a, copies := Revocations(Committed(recs)), Copies(Committed(recs));
    NewestIsThere(Live(a, copies), blk);
    var n := Newest(Live(a, copies), blk);
    if n.Some? {
      LiveIs(a, copies, n.value);
      TailRevokesIs(recs, seqno, n.value);
    }
  }

  lemma NewestOfBothIs(a: seq<Revocation>, b: seq<Revocation>, copies: seq<Copy>, blk: u32)
    ensures var n := Newest(Live(a, copies), blk);
            Newest(Live(a + b, copies), blk) == n <==> n.None? || !Revoked(b, blk, n.value.seqno)
  {
    NewestOfBoth(a, b, copies, blk);
    NewestIsThere(Live(a, copies), blk);
    NewestIsThere(Live(a + b, copies), blk);
    var n := Newest(Live(a, copies), blk);
    if n.Some? {
      LiveOfBoth(a, b, copies, n.value);
    }
  }

  // ------------------------------------------------------------------
  // Reading undoes writing
  // ------------------------------------------------------------------

  /** What a writer lays down: a descriptor followed by its copies, a revoke record, or a commit. */
  datatype Item = Describing(tags: seq<Tag>) | Revoking(blks: seq<u32>) | Ending

  /** The block a writer puts in the log for an item of transaction `seqno`. */
  predicate Encodes(L: Log, b: Block, seqno: u32, item: Item) {
    |b| == L.bs >= HEADER + 4 &&
    match item
    case Describing(tags) => HasHeader(b, DESCRIPTOR, seqno) && Terminated(tags) && Holds(b, HEADER, tags)
    case Revoking(blks) => HEADER + 4 + 4 * |blks| <= L.bs < WORD && b == RevokeBlock(L.bs, seqno, blks)
    case Ending => HasHeader(b, COMMIT, seqno)
  }

  function RecordOf(L: Log, pos: nat, seqno: u32, item: Item): Record {
    match item
    case Describing(tags) => Descriptor(seqno, Place(L, tags, Next(L, pos), seqno))
    case Revoking(blks) => Revoke(seqno, blks)
    case Ending => Commit(seqno)
  }

  lemma DecodesItem(L: Log, b: Block, pos: nat, seqno: u32, item: Item)
    requires Encodes(L, b, seqno, item)
    ensures Decode(L, b, pos, seqno) == Some(RecordOf(L, pos, seqno, item))
  {
    match item
    case Describing(tags) => TagsRoundTrip(b, HEADER, tags);
    case Revoking(blks) => RevokeRoundTrip(L.bs, seqno, blks);
    case Ending =>
  }

  /** How many blocks of the log an item takes: its own, and one for every copy. */
  function Extent(item: Item): nat {
    if item.Describing? then 1 + |item.tags| else 1
  }

  function Extents(items: seq<Item>): nat {
    if items == [] then 0 else Extents(items[..|items| - 1]) + Extent(items[|items| - 1])
  }

  function Endings(items: seq<Item>): nat {
    if items == [] then 0 else Endings(items[..|items| - 1]) + if items[|items| - 1].Ending? then 1 else 0
  }

  /** Where item `i` stands, of items that follow one another round the log from `pos` on. */
  function Spot(L: Log, pos: nat, items: seq<Item>, i: nat): nat
    requires i <= |items|
  {
    After(L, pos, Extents(items[..i]))
  }

  /** The transaction it belongs to: one more for every ending before it. */
  function Number(seqno: u32, items: seq<Item>, i: nat): u32
    requires i <= |items|
  {
    Plus(seqno, Endings(items[..i]))
  }

  ghost predicate Stands(L: Log, d: Disk, pos: nat, seqno: u32, items: seq<Item>, i: nat)
    requires i < |items|
  {
    var b := ReadLog(L, d, Spot(L, pos, items, i));
    b.Some? && Encodes(L, b.value, Number(seqno, items, i), items[i])
  }

  /** Every item stands where it should, and then there is a block that does not go on from them. */
  ghost predicate LaidOut(L: Log, d: Disk, pos: nat, seqno: u32, items: seq<Item>) {
    && (forall i :: 0 <= i < |items| ==> Stands(L, d, pos, seqno, items, i))
    && ReadRecord(L, d, Spot(L, pos, items, |items|), Number(seqno, items, |items|)).None?
  }

  function RecordsTo(L: Log, pos: nat, seqno: u32, items: seq<Item>, n: nat): (recs: seq<Record>)
    requires n <= |items|
    ensures |recs| == n
    ensures forall i :: 0 <= i < n ==> recs[i] == RecordOf(L, Spot(L, pos, items, i), Number(seqno, items, i), items[i])
  {
    if n == 0 then []
    else RecordsTo(L, pos, seqno, items, n - 1)
         + [RecordOf(L, Spot(L, pos, items, n - 1), Number(seqno, items, n - 1), items[n - 1])]
  }

  /** The records of all the items. */
  function RecordsOf(L: Log, pos: nat, seqno: u32, items: seq<Item>): (recs: seq<Record>)
    ensures |recs| == |items|
  {
    RecordsTo(L, pos, seqno, items, |items|)
  }

  lemma {:induction false} AfterAfter(L: Log, pos: nat, m: nat, n: nat)
    ensures After(L, After(L, pos, m), n) == After(L, pos, m + n)
    decreases n
  {
    if n > 0 {
      AfterAfter(L, pos, m, n - 1);
    }
  }

  /** Where the positions of a log go: round from its first block to its last. */
  lemma {:induction false} AfterIsRound(L: Log, pos: nat, n: nat)
    requires 0 < L.first <= pos < L.maxlen
    ensures After(L, pos, n) == L.first + (pos - L.first + n) % (L.maxlen - L.first)
    decreases n
  {
    if n == 0 {
      Divided(pos - L.first, L.maxlen - L.first, 0, pos - L.first);
    } else {
      AfterIsRound(L, pos, n - 1);
      OneFurther(pos - L.first + n - 1, L.maxlen - L.first);
    }
  }

  lemma OneFurther(k: nat, size: nat)
    requires size > 0
    ensures k % size < size && (k + 1) % size == if k % size + 1 < size then k % size + 1 else 0
  {
    var q, r := k / size, k % size;
    if r + 1 < size {
      Divided(k + 1, size, q, r + 1);
    } else {
      assert (q + 1) * size == q * size + size;
      Divided(k + 1, size, q + 1, 0);
    }
  }

  /** A reader that has read an item goes on where the next one stands, expecting its number. */
  lemma GoesOn(L: Log, pos: nat, seqno: u32, items: seq<Item>, i: nat)
    requires i < |items|
    ensures var r := RecordOf(L, Spot(L, pos, items, i), Number(seqno, items, i), items[i]);
            Ahead(L, Spot(L, pos, items, i), r) == Spot(L, pos, items, i + 1) && SeqAfter(r) == Number(seqno, items, i + 1)
  {
    var at := Spot(L, pos, items, i);
    assert items[..i + 1][..i] == items[..i];
    AfterAfter(L, pos, Extents(items[..i]), Extent(items[i]));
    AfterCons(L, at, Extent(items[i]) - 1);
  }

  /** A reader that finds these records one after the other, at places and with numbers that go on from each other. */
  ghost predicate Finds(L: Log, read: Reader, recs: seq<Record>, spot: nat -> nat, number: nat -> u32) {
    && (forall i: nat {:trigger recs[i]} :: i < |recs| ==> read(spot(i), number(i)) == Some(recs[i]))
    && (forall i: nat {:trigger recs[i]} ::
          i < |recs| ==> Ahead(L, spot(i), recs[i]) == spot(i + 1) && SeqAfter(recs[i]) == number(i + 1))
    && read(spot(|recs|), number(|recs|)).None?
  }

  lemma {:induction false} ScanFinds(L: Log, read: Reader, recs: seq<Record>, spot: nat -> nat, number: nat -> u32, i: nat, steps: nat)
    requires Finds(L, read, recs, spot, number) && i <= |recs| && steps + |recs| - i <= L.maxlen + 1
    ensures Scan(L, read, spot(i), number(i), steps) == recs[i..]
    decreases |recs| - i
  {
    if i < |recs| {
      ScanFinds(L, read, recs, spot, number, i + 1, steps + 1);
      assert recs[i..] == [recs[i]] + recs[i + 1..];
    }
  }

  lemma ReadsItem(L: Log, d: Disk, pos: nat, seqno: u32, items: seq<Item>, i: nat)
    requires i < |items| && Stands(L, d, pos, seqno, items, i)
    ensures var at, num := Spot(L, pos, items, i), Number(seqno, items, i);
            ReadRecord(L, d, at, num) == Some(RecordOf(L, at, num, items[i]))
  {
    var at, num := Spot(L, pos, items, i), Number(seqno, items, i);
    DecodesItem(L, ReadLog(L, d, at).value, at, num, items[i]);
  }

  lemma FindsItem(L: Log, d: Disk, read: Reader, pos: nat, seqno: u32, items: seq<Item>, recs: seq<Record>, i: nat)
    requires i < |items| == |recs| && Stands(L, d, pos, seqno, items, i) && read == ReaderOf(L, d)
    requires recs[i] == RecordOf(L, Spot(L, pos, items, i), Number(seqno, items, i), items[i])
    ensures read(Spot(L, pos, items, i), Number(seqno, items, i)) == Some(recs[i])
    ensures Ahead(L, Spot(L, pos, items, i), recs[i]) == Spot(L, pos, items, i + 1) && SeqAfter(recs[i]) == Number(seqno, items, i + 1)
  {
    ReadsItem(L, d, pos, seqno, items, i);
    GoesOn(L, pos, seqno, items, i);
  }

  lemma FindsItems(L: Log, d: Disk, read: Reader, pos: nat, seqno: u32, items: seq<Item>, recs: seq<Record>, spot: nat -> nat, number: nat -> u32)
    requires LaidOut(L, d, pos, seqno, items) && read == ReaderOf(L, d) && recs == RecordsOf(L, pos, seqno, items)
    requires forall i: nat :: i <= |items| ==> spot(i) == Spot(L, pos, items, i)
    requires forall i: nat :: i <= |items| ==> number(i) == Number(seqno, items, i)
    ensures Finds(L, read, recs, spot, number)
  {
    forall i: nat | i < |recs|
      ensures read(spot(i), number(i)) == Some(recs[i])
      ensures Ahead(L, spot(i), recs[i]) == spot(i + 1) && SeqAfter(recs[i]) == number(i + 1)
    {
      FindsItem(L, d, read, pos, seqno, items, recs, i);
    }
  }

  /** A scan of a log finds exactly the records of the items that were laid out in it, wherever it wraps. */
  lemma ReadsBack(L: Log, d: Disk, pos: nat, seqno: u32, items: seq<Item>)
    requires LaidOut(L, d, pos, seqno, items) && |items| <= L.maxlen + 1
    ensures Scan(L, ReaderOf(L, d), pos, seqno, 0) == RecordsOf(L, pos, seqno, items)
  {
    var recs, read := RecordsOf(L, pos, seqno, items), ReaderOf(L, d);
    var spot := (i: nat) => if i <= |items| then Spot(L, pos, items, i) else 0;
    var number := (i: nat) => if i <= |items| then Number(seqno, items, i) else 0;
    FindsItems(L, d, read, pos, seqno, items, recs, spot, number);
    ScanFinds(L, read, recs, spot, number, 0, 0);
    assert items[..0] == [];
  }

  lemma {:induction false} CommitsTo(L: Log, pos: nat, seqno: u32, items: seq<Item>, n: nat)
    requires n <= |items|
    ensures Commits(RecordsTo(L, pos, seqno, items, n)) == Endings(items[..n])
  {
    if n > 0 {
      CommitsTo(L, pos, seqno, items, n - 1);
      assert items[..n][..n - 1] == items[..n - 1];
      var recs := RecordsTo(L, pos, seqno, items, n);
      assert recs[..n - 1] == RecordsTo(L, pos, seqno, items, n - 1);
    }
  }

  lemma CommitsAreEndings(L: Log, pos: nat, seqno: u32, items: seq<Item>)
    ensures Commits(RecordsOf(L, pos, seqno, items)) == Endings(items)
  {
    CommitsTo(L, pos, seqno, items, |items|);
    assert items[..|items|] == items;
  }

  /** A revocation counts for copies of its block in its own transaction and earlier ones. */
  lemma RevokedIs(s: u32, blk: u32, m: nat, other: u32, n: nat)
    requires m < 0x8000_0000 && n < 0x8000_0000
    ensures Revoked([Revocation(blk, Plus(s, m))], other, Plus(s, n)) <==> blk == other && n <= m
  {
    BeforeInWindow(s, m, n);
    var table := [Revocation(blk, Plus(s, m))];
    assert table[0].blk == blk;
  }
}
