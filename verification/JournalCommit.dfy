/**
Committing a transaction (kernel/fs/ext2.c, journal_commit): the order in which
its blocks reach the log, the journal superblock and their homes, and what
recovery makes of a power cut after any of those writes.
*/
module JournalCommit {
  import opened Basics
  import opened BigEndian
  import opened JournalFormat
  import opened JournalLog
  import opened BootRom
  import opened KernelReplay

  const NBUF: nat := 64       // buffers a transaction can pin

  /** A block and what is to be written there. */
  datatype Update = Update(blk: u32, data: Block)

  /** The disk after these writes, in order. */
  function Flush(d: Disk, ws: seq<Update>): Disk {
    if ws == [] then d else Flush(d, ws[..|ws| - 1])[ws[|ws| - 1].blk := ws[|ws| - 1].data]
  }

  /** What the last of these writes to a block leaves there. */
  function LastWrite(ws: seq<Update>, blk: u32): Option<Block> {
    if ws == [] then None
    else if ws[|ws| - 1].blk == blk then Some(ws[|ws| - 1].data)
    else LastWrite(ws[..|ws| - 1], blk)
  }

  lemma {:induction false} FlushReads(d: Disk, ws: seq<Update>, blk: u32)
    ensures Holding(Flush(d, ws), blk) == if LastWrite(ws, blk).Some? then LastWrite(ws, blk) else Holding(d, blk)
    decreases |ws|
  {
    if ws != [] {
      FlushReads(d, ws[..|ws| - 1], blk);
    }
  }

  lemma {:induction false} LastWriteConcat(a: seq<Update>, b: seq<Update>, blk: u32)
    ensures LastWrite(a + b, blk) == if LastWrite(b, blk).Some? then LastWrite(b, blk) else LastWrite(a, blk)
    decreases |b|
  {
    if b == [] {
      assert a + b == a;
    } else {
      assert (a + b)[..|a + b| - 1] == a + b[..|b| - 1];
      LastWriteConcat(a, b[..|b| - 1], blk);
    }
  }

  lemma {:induction false} LastWriteWhere(ws: seq<Update>, blk: u32)
    ensures LastWrite(ws, blk).None? <==> forall i :: 0 <= i < |ws| ==> ws[i].blk != blk
    decreases |ws|
  {
    if ws != [] {
      LastWriteWhere(ws[..|ws| - 1], blk);
    }
  }

  lemma {:induction false} FlushConcat(d: Disk, a: seq<Update>, b: seq<Update>)
    ensures Flush(d, a + b) == Flush(Flush(d, a), b)
    decreases |b|
  {
    if b == [] {
      assert a + b == a;
    } else {
      assert (a + b)[..|a + b| - 1] == a + b[..|b| - 1];
      FlushConcat(d, a, b[..|b| - 1]);
    }
  }

  // ------------------------------------------------------------------
  // What a commit writes
  // ------------------------------------------------------------------

  /** A block that begins with the journal's magic is logged with it zeroed. */
  predicate Clashes(b: Block) {
    |b| >= 4 && Be32(b, 0) == MAGIC
  }

  function Logged(b: Block): Block {
    if Clashes(b) then Put32(b, 0, 0) else b
  }

  function TagFor(txn: seq<Update>, i: nat): Tag
    requires i < |txn|
  {
    Tag(txn[i].blk, Clashes(txn[i].data), i != 0, i == |txn| - 1)
  }

  function TagsFor(txn: seq<Update>, k: nat): (tags: seq<Tag>)
    requires k <= |txn|
    ensures |tags| == k
  {
    if k == 0 then [] else TagsFor(txn, k - 1) + [TagFor(txn, k - 1)]
  }

  lemma {:induction false} TagsForAt(txn: seq<Update>, k: nat, i: nat)
    requires i < k <= |txn|
    ensures TagsFor(txn, k)[i] == TagFor(txn, i)
    decreases k
  {
    if i < k - 1 {
      TagsForAt(txn, k - 1, i);
    }
  }

  lemma TagsTerminated(txn: seq<Update>)
    requires txn != []
    ensures Terminated(TagsFor(txn, |txn|))
  {
    forall i | 0 <= i < |txn|
      ensures TagsFor(txn, |txn|)[i].last <==> i == |txn| - 1
    {
      TagsForAt(txn, |txn|, i);
    }
  }

  lemma {:induction false} TagsWidthConcat(a: seq<Tag>, b: seq<Tag>)
    ensures TagsWidth(a + b) == TagsWidth(a) + TagsWidth(b)
    decreases |a|
  {
    if a == [] {
      assert a + b == b;
    } else {
      assert (a + b)[0] == a[0] && (a + b)[1..] == a[1..] + b;
      TagsWidthConcat(a[1..], b);
    }
  }

  /** The first tag carries a UUID, so the descriptor of a full cache still fits the smallest block. */
  lemma {:induction false} TagsFit(txn: seq<Update>, k: nat)
    requires k <= |txn|
    ensures TagsWidth(TagsFor(txn, k)) <= TAG_BYTES * k + UUID_BYTES
    ensures k == 0 ==> TagsWidth(TagsFor(txn, k)) == 0
    decreases k
  {
    if k > 0 {
      TagsFit(txn, k - 1);
      TagsWidthConcat(TagsFor(txn, k - 1), [TagFor(txn, k - 1)]);
      assert [TagFor(txn, k - 1)][1..] == [];
    }
  }

  function CommitBlock(bs: nat, seqno: u32, secs: u32): (b: Block)
    requires bs >= 1024
    ensures |b| == bs && HasHeader(b, COMMIT, seqno)
  {
    var h := Header(bs, COMMIT, seqno);
    var b := Put32(h, 52, secs);
    SameHeader(h, b);
    b
  }

  /** The log's blocks are mapped, each to a block of its own, and there is room for a full cache. */
  predicate Usable(L: Log, d: Disk) {
    && Geometry(L) && Formatted(L, d) && L.maxlen == |L.where| && L.first + NBUF + 8 <= L.maxlen
    && (forall p :: 0 <= p < |L.where| ==> L.where[p] != 0 && L.where[p] in d)
    && (forall p, q :: 0 <= p < q < |L.where| ==> L.where[p] != L.where[q])
  }

  /** What the cache hands a commit: metadata blocks of the volume, and perhaps the superblock's. */
  predicate Transaction(L: Log, blocks: u32, txn: seq<Update>) {
    && 1 <= |txn| <= NBUF + 1
    && forall i :: 0 <= i < |txn| ==> |txn[i].data| == L.bs && txn[i].blk < blocks && txn[i].blk !in L.where
  }

  /** The first `k` copies, in the log after the descriptor's place. */
  function CopyWrites(L: Log, txn: seq<Update>, k: nat): (ws: seq<Update>)
    requires k <= |txn|
    ensures |ws| == k
  {
    if k == 0 then []
    else CopyWrites(L, txn, k - 1) + [Update(Home(L, L.first + k), Logged(txn[k - 1].data))]
  }

  /** A commit: the transaction, and the blocks that describe and end it in the log. */
  datatype Progress = Progress(L: Log, seqno: u32, txn: seq<Update>, sb: Block, desc: Block, commit: Block)

  predicate Sound(c: Progress) {
    && Geometry(c.L) && 1 <= |c.txn| <= NBUF + 1 && |c.sb| == |c.desc| == |c.commit| == c.L.bs
    && HasHeader(c.desc, DESCRIPTOR, c.seqno) && Holds(c.desc, HEADER, TagsFor(c.txn, |c.txn|))
    && HasHeader(c.commit, COMMIT, c.seqno)
  }

  function CommitAt(c: Progress): nat {
    c.L.first + |c.txn| + 1
  }

  /** The copies, then the descriptor in front of them. */
  function IntoLog(c: Progress): seq<Update> {
    CopyWrites(c.L, c.txn, |c.txn|) + [Update(Home(c.L, c.L.first), c.desc)]
  }

  /** With the mark in the superblock that there is something to recover. */
  function Marking(c: Progress): seq<Update>
    requires |c.sb| >= 1024
  {
    IntoLog(c) + [Update(Home(c.L, 0), Marked(c.sb, c.L.first, c.seqno))]
  }

  /** With the block that makes it count. */
  function Committing(c: Progress): seq<Update>
    requires |c.sb| >= 1024
  {
    Marking(c) + [Update(Home(c.L, CommitAt(c)), c.commit)]
  }

  function LastMark(c: Progress): Update
    requires |c.sb| >= 1024
  {
    Update(Home(c.L, 0), Marked(Marked(c.sb, c.L.first, c.seqno), 0, Inc(c.seqno)))
  }

  /** Every write of a commit, in the order it is made: the log, then home, then the log marked empty. */
  function CommitWrites(c: Progress): seq<Update>
    requires |c.sb| >= 1024
  {
    Committing(c) + c.txn + [LastMark(c)]
  }

  // ------------------------------------------------------------------
  // What the log shows once those writes are down
  // ------------------------------------------------------------------

  predicate IsHeaderOf(b: Block, seqno: u32) {
    |b| >= HEADER && Be32(b, 0) == MAGIC && Be32(b, 8) == seqno
  }

  /** No block of the log after the first is headed with any of the next `k` sequence numbers. */
  ghost predicate Fresh(L: Log, d: Disk, seqno: u32, k: nat) {
    forall p: nat, j: nat ::
      L.first < p < L.maxlen && j < k && ReadLog(L, d, p).Some? ==> !IsHeaderOf(ReadLog(L, d, p).value, Plus(seqno, j))
  }

  lemma {:induction false} CopyWritesReach(L: Log, txn: seq<Update>, k: nat, p: nat)
    requires k <= |txn| && p < |L.where| && L.first + k < |L.where|
    requires forall p, q :: 0 <= p < q < |L.where| ==> L.where[p] != L.where[q]
    ensures LastWrite(CopyWrites(L, txn, k), L.where[p])
         == if L.first < p <= L.first + k then Some(Logged(txn[p - L.first - 1].data)) else None
    decreases k
  {
    if k > 0 {
      CopyWritesReach(L, txn, k - 1, p);
      var ws := CopyWrites(L, txn, k);
      assert ws[..k - 1] == CopyWrites(L, txn, k - 1);
    }
  }

  /** What the log block at `p` holds once the commit's writes up to the mark, or the commit block, are down. */
  function Shown(c: Progress, d: Disk, committed: bool, p: nat): Option<Block>
    requires Sound(c)
  {
    if p == 0 then Some(Marked(c.sb, c.L.first, c.seqno))
    else if p == c.L.first then Some(c.desc)
    else if c.L.first < p < CommitAt(c) then Some(Logged(c.txn[p - c.L.first - 1].data))
    else if p == CommitAt(c) && committed then Some(c.commit)
    else ReadLog(c.L, d, p)
  }

  function Down(c: Progress, committed: bool): seq<Update>
    requires Sound(c)
  {
    if committed then Committing(c) else Marking(c)
  }

  lemma LastOfOne(u: Update, blk: u32)
    ensures LastWrite([u], blk) == if u.blk == blk then Some(u.data) else None
  {
    assert [u][..0] == [];
  }

  lemma IntoLogReach(c: Progress, d: Disk, p: nat)
    requires Sound(c) && Usable(c.L, d) && p < c.L.maxlen
    ensures LastWrite(IntoLog(c), c.L.where[p])
         == if c.L.first <= p < CommitAt(c) then Shown(c, d, false, p) else None
  {
    var L, blk := c.L, c.L.where[p];
    var desc := Update(Home(L, L.first), c.desc);
    CopyWritesReach(L, c.txn, |c.txn|, p);
    LastWriteConcat(CopyWrites(L, c.txn, |c.txn|), [desc], blk);
    LastOfOne(desc, blk);
    assert desc.blk == blk <==> p == L.first;
  }

  lemma LogShows(c: Progress, d: Disk, committed: bool, p: nat)
    requires Sound(c) && Usable(c.L, d) && p < c.L.maxlen
    ensures ReadLog(c.L, Flush(d, Down(c, committed)), p) == Shown(c, d, committed, p)
  {
    var L, blk := c.L, c.L.where[p];
    var mark := Update(Home(L, 0), Marked(c.sb, L.first, c.seqno));
    var commit := Update(Home(L, CommitAt(c)), c.commit);
    IntoLogReach(c, d, p);
    LastWriteConcat(IntoLog(c), [mark], blk);
    LastWriteConcat(Marking(c), [commit], blk);
    LastOfOne(mark, blk);
    LastOfOne(commit, blk);
    FlushReads(d, Down(c, committed), blk);
  }

  predicate AllIn(L: Log, ws: seq<Update>) {
    forall i :: 0 <= i < |ws| ==> ws[i].blk in L.where
  }

  lemma AllInConcat(L: Log, a: seq<Update>, u: Update)
    requires AllIn(L, a) && u.blk in L.where
    ensures AllIn(L, a + [u])
  {
  }

  lemma DownInLog(c: Progress, committed: bool)
    requires Sound(c) && |c.L.where| == c.L.maxlen && c.L.first + NBUF + 8 <= c.L.maxlen
    ensures AllIn(c.L, IntoLog(c)) && AllIn(c.L, Down(c, committed))
  {
    var L := c.L;
    CopyWritesInLog(L, c.txn, |c.txn|);
    var desc := Update(Home(L, L.first), c.desc);
    var mark := Update(Home(L, 0), Marked(c.sb, L.first, c.seqno));
    var commit := Update(Home(L, CommitAt(c)), c.commit);
    AllInConcat(L, CopyWrites(L, c.txn, |c.txn|), desc);
    AllInConcat(L, IntoLog(c), mark);
    AllInConcat(L, Marking(c), commit);
  }

  /** Writes to the log touch no block of the volume. */
  lemma LogWritesStay(L: Log, d: Disk, ws: seq<Update>, blk: u32)
    requires AllIn(L, ws) && blk !in L.where
    ensures Holding(Flush(d, ws), blk) == Holding(d, blk)
  {
    LastWriteWhere(ws, blk);
    FlushReads(d, ws, blk);
  }

  lemma {:induction false} CopyWritesInLog(L: Log, txn: seq<Update>, k: nat)
    requires k <= |txn| && L.first + k < |L.where|
    ensures AllIn(L, CopyWrites(L, txn, k))
    decreases k
  {
    if k > 0 {
      CopyWritesInLog(L, txn, k - 1);
    }
  }

  // ------------------------------------------------------------------
  // What a reader makes of that log
  // ------------------------------------------------------------------

  /** The log as a commit leaves it: `d` is the disk now, `d0` the disk before. */
  ghost predicate Showing(c: Progress, d0: Disk, d: Disk, committed: bool)
    requires Sound(c)
  {
    forall p: nat :: p < c.L.maxlen ==> ReadLog(c.L, d, p) == Shown(c, d0, committed, p)
  }

  function LoggedCopies(c: Progress): seq<Copy> {
    Place(c.L, TagsFor(c.txn, |c.txn|), c.L.first + 1, c.seqno)
  }

  lemma ReadsDescriptor(c: Progress, d0: Disk, d: Disk, committed: bool)
    requires Sound(c) && Usable(c.L, d0) && Showing(c, d0, d, committed)
    ensures ReadRecord(c.L, d, c.L.first, c.seqno) == Some(Descriptor(c.seqno, LoggedCopies(c)))
  {
    assert ReadLog(c.L, d, c.L.first) == Some(c.desc);
    TagsTerminated(c.txn);
    TagsRoundTrip(c.desc, HEADER, TagsFor(c.txn, |c.txn|));
  }

  lemma ReadsCommit(c: Progress, d0: Disk, d: Disk, committed: bool)
    requires Sound(c) && Usable(c.L, d0) && Fresh(c.L, d0, c.seqno, 2) && Showing(c, d0, d, committed)
    ensures ReadRecord(c.L, d, CommitAt(c), c.seqno) == if committed then Some(Commit(c.seqno)) else None
    ensures ReadRecord(c.L, d, CommitAt(c) + 1, Inc(c.seqno)) == None
  {
    var L, p := c.L, CommitAt(c);
    if committed {
      assert ReadLog(L, d, p) == Some(c.commit);
    } else {
      assert ReadLog(L, d, p) == ReadLog(L, d0, p);
      assert Plus(c.seqno, 0) == c.seqno;
      NoHeaderNoRecord(L, d, p, c.seqno);
    }
    assert ReadLog(L, d, p + 1) == ReadLog(L, d0, p + 1);
    assert Plus(c.seqno, 1) == Inc(Plus(c.seqno, 0)) == Inc(c.seqno);
    NoHeaderNoRecord(L, d, p + 1, Inc(c.seqno));
  }

  lemma NoHeaderNoRecord(L: Log, d: Disk, p: nat, seqno: u32)
    requires ReadLog(L, d, p).Some? ==> !IsHeaderOf(ReadLog(L, d, p).value, seqno)
    ensures ReadRecord(L, d, p, seqno) == None
  {
  }

  function TheRecords(c: Progress, committed: bool): seq<Record> {
    [Descriptor(c.seqno, LoggedCopies(c))] + if committed then [Commit(c.seqno)] else []
  }

  /** Reading the log undoes writing it: one descriptor, then the commit if it is there. */
  lemma ScanFinds(c: Progress, d0: Disk, d: Disk, committed: bool)
    requires Sound(c) && Usable(c.L, d0) && Fresh(c.L, d0, c.seqno, 2) && Showing(c, d0, d, committed)
    ensures Scan(c.L, ReaderOf(c.L, d), c.L.first, c.seqno, 0) == TheRecords(c, committed)
  {
    var L, read, n := c.L, ReaderOf(c.L, d), |c.txn|;
    var desc := Descriptor(c.seqno, LoggedCopies(c));
    ReadsDescriptor(c, d0, d, committed);
    ReadsCommit(c, d0, d, committed);
    AfterNoWrap(L, L.first + 1, n);
    assert read(L.first, c.seqno) == Some(desc) && Ahead(L, L.first, desc) == CommitAt(c);
    ScanTwo(L, read, c.seqno, desc, CommitAt(c));
  }

  lemma ScanTwo(L: Log, read: Reader, seqno: u32, desc: Record, p: nat)
    requires L.maxlen > 4 && p + 1 < L.maxlen && desc.Descriptor? && desc.seqno == seqno
    requires read(L.first, seqno) == Some(desc) && Ahead(L, L.first, desc) == p
    requires read(p, seqno) == None || (read(p, seqno) == Some(Commit(seqno)) && read(p + 1, Inc(seqno)) == None)
    ensures Scan(L, read, L.first, seqno, 0) == [desc] + if read(p, seqno).Some? then [Commit(seqno)] else []
  {
    assert Ahead(L, p, Commit(seqno)) == p + 1;
    assert read(p, seqno).Some? ==> Scan(L, read, p + 1, Inc(seqno), 2) == [];
    assert read(p, seqno).Some? ==> Scan(L, read, p, seqno, 1) == [Commit(seqno)];
    assert read(p, seqno).None? ==> Scan(L, read, p, seqno, 1) == [];
  }

  // ------------------------------------------------------------------
  // What recovery makes of it
  // ------------------------------------------------------------------

  /** Restoring the magic undoes hiding it. */
  lemma EscapeRoundTrip(b: Block)
    requires |b| >= 4
    ensures Unescape(Logged(b), Clashes(b)) == b
  {
    if Clashes(b) {
      var r := Put32(Put32(b, 0, 0), 0, MAGIC);
      BeInjective(r, b, 0, 4);
    }
  }

  /** Byte by byte: a block that begins with the magic is logged with zeros there and marked, no other is; a marked one gets the magic back. */
  lemma LoggedBytes(b: Block)
    requires |b| >= 4
    ensures Clashes(b) <==> b[..4] == [0xC0, 0x3B, 0x39, 0x98]
    ensures Logged(b) == if b[..4] == [0xC0, 0x3B, 0x39, 0x98] then [0, 0, 0, 0] + b[4..] else b
    ensures Unescape(b, true) == [0xC0, 0x3B, 0x39, 0x98] + b[4..] && Unescape(b, false) == b
  {
    var z, m := Put32(b, 0, 0), Put32(b, 0, MAGIC);
    Be32Bytes(b, 0, 0xC0, 0x3B, 0x39, 0x98);
    Be32Bytes(z, 0, 0, 0, 0, 0);
    Be32Bytes(m, 0, 0xC0, 0x3B, 0x39, 0x98);
    assert z == z[0..4] + z[4..] && z[4..] == b[4..];
    assert m == m[0..4] + m[4..] && m[4..] == b[4..];
    assert b[0..4] == b[..4];
  }

  lemma LoggedCopyAt(c: Progress, i: nat)
    requires Sound(c) && c.L.first + NBUF + 8 <= c.L.maxlen && i < |c.txn|
    ensures |LoggedCopies(c)| == |c.txn|
    ensures LoggedCopies(c)[i] == Copy(c.txn[i].blk, c.L.first + 1 + i, Clashes(c.txn[i].data), c.seqno)
  {
    PlaceAt(c.L, TagsFor(c.txn, |c.txn|), c.L.first + 1, c.seqno, i);
    TagsForAt(c.txn, |c.txn|, i);
    AfterNoWrap(c.L, c.L.first + 1, i);
  }

  lemma CopyRestores(c: Progress, d0: Disk, d: Disk, committed: bool, i: nat)
    requires Sound(c) && Usable(c.L, d0) && Showing(c, d0, d, committed) && i < |c.txn| && |c.txn[i].data| == c.L.bs
    ensures |LoggedCopies(c)| == |c.txn| && LoggedCopies(c)[i].blk == c.txn[i].blk
    ensures Content(c.L, d, LoggedCopies(c)[i]) == c.txn[i].data
  {
    LoggedCopyAt(c, i);
    assert ReadLog(c.L, d, c.L.first + 1 + i) == Some(Logged(c.txn[i].data));
    EscapeRoundTrip(c.txn[i].data);
  }

  /** Replaying the logged copies is writing the transaction home. */
  lemma {:induction false} ReplayIsFlush(c: Progress, d0: Disk, d: Disk, committed: bool, blocks: u32, k: nat)
    requires Sound(c) && Usable(c.L, d0) && Showing(c, d0, d, committed) && Transaction(c.L, blocks, c.txn)
    requires k <= |c.txn|
    ensures |LoggedCopies(c)| == |c.txn| && Replay(c.L, d, LoggedCopies(c)[..k]) == Flush(d, c.txn[..k])
    decreases k
  {
    if k > 0 {
      ReplayIsFlush(c, d0, d, committed, blocks, k - 1);
      CopyRestores(c, d0, d, committed, k - 1);
      var copies := LoggedCopies(c);
      assert copies[..k][..k - 1] == copies[..k - 1] && c.txn[..k][..k - 1] == c.txn[..k - 1];
    }
  }

  lemma TheRecordsSum(c: Progress, committed: bool)
    ensures var recs := TheRecords(c, committed);
            && Revocations(recs) == [] && Commits(recs) == (if committed then 1 else 0)
            && Committed(recs) == (if committed then recs else [])
            && Copies(recs) == LoggedCopies(c)
  {
    var desc := Descriptor(c.seqno, LoggedCopies(c));
    var rest: seq<Record> := if committed then [Commit(c.seqno)] else [];
    var none: seq<Record> := [];
    assert rest == if committed then [Commit(c.seqno)] + none else none;
    CommitsCons(desc, rest);
    CommittedCons(desc, rest);
    CopiesCons(desc, rest);
    RevocationsConcat([desc], rest);
    assert [desc][..0] == [] && (committed ==> rest[..0] == []);
  }

  lemma {:induction false} NothingRevoked(copies: seq<Copy>)
    ensures Live([], copies) == copies
    decreases |copies|
  {
    if copies != [] {
      NothingRevoked(copies[..|copies| - 1]);
    }
  }

  lemma {:induction false} NothingPastTheEnd(blocks: u32, copies: seq<Copy>)
    requires forall i :: 0 <= i < |copies| ==> copies[i].blk < blocks
    ensures Within(blocks, copies) == copies
    decreases |copies|
  {
    if copies != [] {
      NothingPastTheEnd(blocks, copies[..|copies| - 1]);
    }
  }

  lemma LoggedBlocks(c: Progress, blocks: u32)
    requires Sound(c) && c.L.first + NBUF + 8 <= c.L.maxlen && Transaction(c.L, blocks, c.txn)
    ensures Outside(c.L, LoggedCopies(c)) && forall i :: 0 <= i < |LoggedCopies(c)| ==> LoggedCopies(c)[i].blk < blocks
  {
    LoggedCopyAt(c, 0);
    forall i | 0 <= i < |LoggedCopies(c)|
      ensures LoggedCopies(c)[i].blk == c.txn[i].blk
    {
      LoggedCopyAt(c, i);
    }
  }

  lemma RecordsOutside(c: Progress, committed: bool)
    requires Outside(c.L, LoggedCopies(c))
    ensures OutsideAll(c.L, TheRecords(c, committed))
  {
  }

  lemma LogIsRecoverable(c: Progress, d0: Disk, d: Disk, committed: bool, blocks: u32)
    requires Sound(c) && Usable(c.L, d0) && Fresh(c.L, d0, c.seqno, 2) && Showing(c, d0, d, committed)
    requires Transaction(c.L, blocks, c.txn) && Formatted(c.L, d)
    ensures Recoverable(c.L, d, c.L.first, c.seqno)
  {
    ScanFinds(c, d0, d, committed);
    TheRecordsSum(c, committed);
    LoggedBlocks(c, blocks);
    RecordsOutside(c, committed);
    LogIsWhole(c, d0, d, committed);
  }

  lemma LogIsWhole(c: Progress, d0: Disk, d: Disk, committed: bool)
    requires Sound(c) && Usable(c.L, d0) && Showing(c, d0, d, committed)
    ensures Whole(c.L, d)
  {
    forall p: nat | p < c.L.maxlen
      ensures ReadLog(c.L, d, p).Some?
    {
      assert ReadLog(c.L, d, p) == Shown(c, d0, committed, p);
    }
  }

  /** The survivors of the log a commit leaves: all of its copies, or none without the commit block. */
  lemma WhatSurvives(c: Progress, d0: Disk, d: Disk, committed: bool, blocks: u32)
    requires Sound(c) && Usable(c.L, d0) && Fresh(c.L, d0, c.seqno, 2) && Showing(c, d0, d, committed)
    requires Transaction(c.L, blocks, c.txn)
    ensures ToWrite(c.L, blocks, d, c.L.first, c.seqno) == if committed then LoggedCopies(c) else []
    ensures Commits(Scan(c.L, ReaderOf(c.L, d), c.L.first, c.seqno, 0)) == if committed then 1 else 0
  {
    ScanFinds(c, d0, d, committed);
    TheRecordsSum(c, committed);
    LoggedBlocks(c, blocks);
    var copies: seq<Copy> := if committed then LoggedCopies(c) else [];
    NothingRevoked(copies);
    NothingPastTheEnd(blocks, copies);
  }

  /** Recovery of that log writes the transaction home, or leaves everything alone, and marks the log empty. */
  lemma Recovers(c: Progress, d0: Disk, d: Disk, committed: bool, blocks: u32)
    requires Sound(c) && Usable(c.L, d0) && Fresh(c.L, d0, c.seqno, 2) && Showing(c, d0, d, committed)
    requires Transaction(c.L, blocks, c.txn) && Formatted(c.L, d)
    ensures var home := if committed then Flush(d, c.txn) else d;
            var next := if committed then Inc(c.seqno) else c.seqno;
            && Sane(c.L, d)
            && Recovered(c.L, blocks, d)
               == Some(home[Home(c.L, 0) := Marked(Marked(c.sb, c.L.first, c.seqno), 0, next)])
  {
    var L, marked := c.L, Marked(c.sb, c.L.first, c.seqno);
    var writes := ToWrite(L, blocks, d, L.first, c.seqno);
    LogIsRecoverable(c, d0, d, committed, blocks);
    WhatSurvives(c, d0, d, committed, blocks);
    PassesReplay(L, blocks, d, L.first, c.seqno);
    assert ReadLog(L, d, 0) == Some(marked);
    MarkedReads(c.sb, L.first, c.seqno);
    LoggedBlocks(c, blocks);
    ReplayKeepsLog(L, d, writes, 0);
    if committed {
      ReplayIsFlush(c, d0, d, committed, blocks, |c.txn|);
      assert LoggedCopies(c)[..|c.txn|] == LoggedCopies(c) && c.txn[..|c.txn|] == c.txn;
    }
    assert Plus(c.seqno, 1) == Inc(Plus(c.seqno, 0)) == Inc(c.seqno);
  }

  // ------------------------------------------------------------------
  // A power cut anywhere
  // ------------------------------------------------------------------

  /**
  Between commits: the log is marked empty and expects `seqno`, and no block in
  it could be taken for one of the next `room` transactions.
  */
  ghost predicate Idle(L: Log, d: Disk, seqno: u32, room: nat) {
    && Usable(L, d) && Fresh(L, d, seqno, room)
    && Be32(d[L.where[0]], JS_START) == 0 && Be32(d[L.where[0]], JS_SEQUENCE) == seqno
  }

  /** The two disks hold the same volume: they differ at most in the journal's own blocks. */
  ghost predicate SameVolume(L: Log, a: Disk, b: Disk) {
    forall blk: u32 :: blk !in L.where ==> Holding(a, blk) == Holding(b, blk)
  }

  predicate Sized(bs: nat, ws: seq<Update>) {
    forall i :: 0 <= i < |ws| ==> |ws[i].data| == bs
  }

  lemma {:induction false} FlushUsable(L: Log, d: Disk, ws: seq<Update>)
    requires Usable(L, d) && Sized(L.bs, ws)
    ensures Usable(L, Flush(d, ws))
    decreases |ws|
  {
    if ws != [] {
      FlushUsable(L, d, ws[..|ws| - 1]);
    }
  }

  lemma {:induction false} CopyWritesSized(c: Progress, blocks: u32, k: nat)
    requires Transaction(c.L, blocks, c.txn) && k <= |c.txn|
    ensures Sized(c.L.bs, CopyWrites(c.L, c.txn, k))
    decreases k
  {
    if k > 0 {
      CopyWritesSized(c, blocks, k - 1);
    }
  }

  lemma DownSized(c: Progress, blocks: u32, committed: bool)
    requires Sound(c) && Transaction(c.L, blocks, c.txn)
    ensures Sized(c.L.bs, IntoLog(c)) && Sized(c.L.bs, Down(c, committed))
  {
    var L := c.L;
    CopyWritesSized(c, blocks, |c.txn|);
    var desc := Update(Home(L, L.first), c.desc);
    var mark := Update(Home(L, 0), Marked(c.sb, L.first, c.seqno));
    var commit := Update(Home(L, CommitAt(c)), c.commit);
    SizedConcat(L.bs, CopyWrites(L, c.txn, |c.txn|), desc);
    SizedConcat(L.bs, IntoLog(c), mark);
    SizedConcat(L.bs, Marking(c), commit);
  }

  lemma SizedConcat(bs: nat, a: seq<Update>, u: Update)
    requires Sized(bs, a) && |u.data| == bs
    ensures Sized(bs, a + [u])
  {
  }

  /** Writing a transaction home again, after part of it is there, changes nothing more. */
  lemma FlushAgain(d: Disk, txn: seq<Update>, m: nat)
    requires m <= |txn|
    ensures Flush(Flush(d, txn[..m]), txn) == Flush(d, txn)
  {
    var a, b := Flush(Flush(d, txn[..m]), txn), Flush(d, txn);
    forall blk: u32
      ensures Holding(a, blk) == Holding(b, blk)
    {
      FlushReads(Flush(d, txn[..m]), txn, blk);
      FlushReads(d, txn[..m], blk);
      FlushReads(d, txn, blk);
      LastWriteWhere(txn, blk);
      LastWriteWhere(txn[..m], blk);
    }
    SameDisk(a, b);
  }

  lemma NeverAHeader(b: Block, seqno: u32)
    ensures !IsHeaderOf(Logged(b), seqno)
  {
  }

  /** Every number but its own is still unused in the log a commit leaves. */
  lemma StillFresh(c: Progress, d0: Disk, r: Disk, committed: bool, room: nat)
    requires Sound(c) && Usable(c.L, d0) && Fresh(c.L, d0, c.seqno, room + 1) && room + 1 < WORD
    requires forall p: nat :: c.L.first < p < c.L.maxlen ==> ReadLog(c.L, r, p) == Shown(c, d0, committed, p)
    ensures Fresh(c.L, r, if committed then Inc(c.seqno) else c.seqno, room)
  {
    var L := c.L;
    var next := if committed then Inc(c.seqno) else c.seqno;
    forall p: nat, j: nat | L.first < p < L.maxlen && j < room && ReadLog(L, r, p).Some?
      ensures !IsHeaderOf(ReadLog(L, r, p).value, Plus(next, j))
    {
      assert ReadLog(L, r, p) == Shown(c, d0, committed, p);
      PlusPlus(c.seqno, 1, j);
      assert Plus(c.seqno, 1) == Inc(Plus(c.seqno, 0));
      var i := if committed then j + 1 else j;
      assert Plus(next, j) == Plus(c.seqno, i);
      if p < CommitAt(c) {
        NeverAHeader(c.txn[p - L.first - 1].data, Plus(next, j));
      } else if p == CommitAt(c) && committed {
        PlusWraps(c.seqno, i);
      }
    }
  }

  /** Recovery of `d` succeeds, leaves the volume `v`, and leaves the journal ready for transaction `next`. */
  ghost predicate RecoversTo(L: Log, blocks: u32, d: Disk, v: Disk, next: u32, room: nat) {
    && Sane(L, d)
    && match Recovered(L, blocks, d)
       case None => false
       case Some(r) => SameVolume(L, r, v) && Idle(L, r, next, room)
  }

  /** The progress of a commit on a disk that was idle. */
  ghost predicate Begun(c: Progress, d: Disk, blocks: u32, room: nat) {
    && Sound(c) && Transaction(c.L, blocks, c.txn) && 1 <= room < WORD - 1
    && Idle(c.L, d, c.seqno, room + 1) && c.sb == d[c.L.where[0]]
  }

  lemma {:induction false} CopyWritesPrefix(L: Log, txn: seq<Update>, k: nat, n: nat)
    requires k <= n <= |txn|
    ensures CopyWrites(L, txn, n)[..k] == CopyWrites(L, txn, k)
    decreases n
  {
    if k < n {
      CopyWritesPrefix(L, txn, k, n - 1);
    } else {
      assert CopyWrites(L, txn, n)[..k] == CopyWrites(L, txn, n);
    }
  }

  /** What the first writes of a commit may have put in a block of the log. */
  predicate Filling(c: Progress, p: nat, w: Option<Block>) {
    w == None || (c.L.first < p < CommitAt(c) && w == Some(Logged(c.txn[p - c.L.first - 1].data)))
  }

  lemma FillingReach(c: Progress, d: Disk, k: nat, p: nat)
    requires Sound(c) && Usable(c.L, d) && k <= |c.txn| + 1 && p < c.L.maxlen && p != c.L.first
    ensures Filling(c, p, LastWrite(IntoLog(c)[..k], c.L.where[p]))
  {
    IntoLogPrefix(c, k);
    if k <= |c.txn| {
      FillingCopies(c, d, k, p);
    } else {
      FilledReach(c, d, p);
    }
  }

  lemma FillingCopies(c: Progress, d: Disk, k: nat, p: nat)
    requires Sound(c) && Usable(c.L, d) && k <= |c.txn| && p < c.L.maxlen
    ensures Filling(c, p, LastWrite(CopyWrites(c.L, c.txn, k), c.L.where[p]))
  {
    CopyWritesReach(c.L, c.txn, k, p);
  }

  lemma FilledReach(c: Progress, d: Disk, p: nat)
    requires Sound(c) && Usable(c.L, d) && p < c.L.maxlen && p != c.L.first
    ensures Filling(c, p, LastWrite(IntoLog(c), c.L.where[p]))
  {
    IntoLogReach(c, d, p);
  }

  lemma IntoLogPrefix(c: Progress, k: nat)
    requires Sound(c) && k <= |c.txn| + 1
    ensures var ws := IntoLog(c);
            |ws| == |c.txn| + 1 && ws[..k] == if k <= |c.txn| then CopyWrites(c.L, c.txn, k) else ws
  {
    if k <= |c.txn| {
      CopyWritesPrefix(c.L, c.txn, k, |c.txn|);
    }
  }

  /** While copies are going into the log, it still shows the superblock and none of the new headers. */
  lemma FillingShows(c: Progress, d: Disk, k: nat, p: nat)
    requires Sound(c) && Usable(c.L, d) && k <= |c.txn| + 1 && p < c.L.maxlen && p != c.L.first
    ensures var b := ReadLog(c.L, Flush(d, IntoLog(c)[..k]), p);
            b == ReadLog(c.L, d, p) || (b != None && Filling(c, p, b))
  {
    FillingReach(c, d, k, p);
    FlushReads(d, IntoLog(c)[..k], c.L.where[p]);
  }

  lemma CutWhileFilling(c: Progress, d: Disk, blocks: u32, room: nat, k: nat)
    requires Begun(c, d, blocks, room) && k <= |c.txn| + 1
    ensures RecoversTo(c.L, blocks, Flush(d, IntoLog(c)[..k]), d, c.seqno, room)
  {
    var L, ws := c.L, IntoLog(c)[..k];
    var r := Flush(d, ws);
    DownSized(c, blocks, false);
    DownInLog(c, false);
    FlushUsable(L, d, ws);
    forall blk: u32 | blk !in L.where
      ensures Holding(r, blk) == Holding(d, blk)
    {
      LogWritesStay(L, d, ws, blk);
    }
    FillingShows(c, d, k, 0);
    FreshWhileFilling(c, d, blocks, room, k);
  }

  lemma FreshWhileFilling(c: Progress, d: Disk, blocks: u32, room: nat, k: nat)
    requires Begun(c, d, blocks, room) && k <= |c.txn| + 1
    ensures Fresh(c.L, Flush(d, IntoLog(c)[..k]), c.seqno, room)
  {
    var L, r := c.L, Flush(d, IntoLog(c)[..k]);
    forall p: nat, j: nat | L.first < p < L.maxlen && j < room && ReadLog(L, r, p).Some?
      ensures !IsHeaderOf(ReadLog(L, r, p).value, Plus(c.seqno, j))
    {
      FillingShows(c, d, k, p);
      if p < CommitAt(c) {
        NeverAHeader(c.txn[p - L.first - 1].data, Plus(c.seqno, j));
      }
    }
  }

  lemma DownShows(c: Progress, d: Disk, blocks: u32, room: nat, committed: bool)
    requires Begun(c, d, blocks, room)
    ensures Showing(c, d, Flush(d, Down(c, committed)), committed)
    ensures Usable(c.L, Flush(d, Down(c, committed)))
  {
    forall p: nat | p < c.L.maxlen
      ensures ReadLog(c.L, Flush(d, Down(c, committed)), p) == Shown(c, d, committed, p)
    {
      LogShows(c, d, committed, p);
    }
    DownSized(c, blocks, committed);
    FlushUsable(c.L, d, Down(c, committed));
  }

  /** The disk recovery leaves once the log shows the commit, or does not: `v` is the volume on it. */
  lemma LeftIdle(c: Progress, d: Disk, blocks: u32, room: nat, committed: bool, x: Disk, v: Disk)
    requires Begun(c, d, blocks, room) && Usable(c.L, x) && Showing(c, d, x, committed) && SameVolume(c.L, x, v)
    ensures var next := if committed then Inc(c.seqno) else c.seqno;
            var r := x[Home(c.L, 0) := Marked(Marked(c.sb, c.L.first, c.seqno), 0, next)];
            SameVolume(c.L, r, v) && Idle(c.L, r, next, room)
  {
    var L := c.L;
    var next := if committed then Inc(c.seqno) else c.seqno;
    var sb := Marked(Marked(c.sb, L.first, c.seqno), 0, next);
    var r := x[Home(L, 0) := sb];
    MarkedReads(Marked(c.sb, L.first, c.seqno), 0, next);
    forall p: nat | L.first < p < L.maxlen
      ensures ReadLog(L, r, p) == Shown(c, d, committed, p)
    {
      assert L.where[p] != L.where[0];
      assert ReadLog(L, x, p) == Shown(c, d, committed, p);
    }
    StillFresh(c, d, r, committed, room);
    assert L.where[0] in L.where;
    forall blk: u32 | blk !in L.where
      ensures Holding(r, blk) == Holding(v, blk)
    {
    }
  }

  lemma CutBeforeCommit(c: Progress, d: Disk, blocks: u32, room: nat)
    requires Begun(c, d, blocks, room)
    ensures RecoversTo(c.L, blocks, Flush(d, Marking(c)), d, c.seqno, room)
  {
    var x := Flush(d, Marking(c));
    DownShows(c, d, blocks, room, false);
    FreshFewer(c.L, d, c.seqno, room + 1, 2);
    Recovers(c, d, x, false, blocks);
    DownInLog(c, false);
    forall blk: u32 | blk !in c.L.where
      ensures Holding(x, blk) == Holding(d, blk)
    {
      LogWritesStay(c.L, d, Marking(c), blk);
    }
    LeftIdle(c, d, blocks, room, false, x, d);
  }

  lemma FreshFewer(L: Log, d: Disk, seqno: u32, k: nat, m: nat)
    requires Fresh(L, d, seqno, k) && m <= k
    ensures Fresh(L, d, seqno, m)
  {
  }

  /** Home writes leave the log as it is. */
  lemma HomeWritesShow(c: Progress, d: Disk, blocks: u32, room: nat, x: Disk, ws: seq<Update>)
    requires Begun(c, d, blocks, room) && Usable(c.L, x) && Showing(c, d, x, true) && Sized(c.L.bs, ws)
    requires forall i :: 0 <= i < |ws| ==> ws[i].blk !in c.L.where
    ensures Showing(c, d, Flush(x, ws), true) && Usable(c.L, Flush(x, ws))
  {
    FlushUsable(c.L, x, ws);
    forall p: nat | p < c.L.maxlen
      ensures ReadLog(c.L, Flush(x, ws), p) == Shown(c, d, true, p)
    {
      assert c.L.where[p] in c.L.where;
      LastWriteWhere(ws, c.L.where[p]);
      FlushReads(x, ws, c.L.where[p]);
      assert ReadLog(c.L, x, p) == Shown(c, d, true, p);
    }
  }

  /** The volume with the transaction home, whatever the log on the same disk holds. */
  lemma TransactionHome(c: Progress, d: Disk, x: Disk)
    requires SameVolume(c.L, x, d)
    ensures SameVolume(c.L, Flush(x, c.txn), Flush(d, c.txn))
  {
    forall blk: u32 | blk !in c.L.where
      ensures Holding(Flush(x, c.txn), blk) == Holding(Flush(d, c.txn), blk)
    {
      FlushReads(x, c.txn, blk);
      FlushReads(d, c.txn, blk);
      assert Holding(x, blk) == Holding(d, blk);
    }
  }

  lemma CommittedDisk(c: Progress, d: Disk, blocks: u32, room: nat)
    requires Begun(c, d, blocks, room)
    ensures var x := Flush(d, Committing(c));
            Usable(c.L, x) && Showing(c, d, x, true) && SameVolume(c.L, x, d)
  {
    DownShows(c, d, blocks, room, true);
    DownInLog(c, true);
    forall blk: u32 | blk !in c.L.where
      ensures Holding(Flush(d, Committing(c)), blk) == Holding(d, blk)
    {
      LogWritesStay(c.L, d, Committing(c), blk);
    }
  }

  lemma CutAfterCommit(c: Progress, d: Disk, blocks: u32, room: nat, m: nat)
    requires Begun(c, d, blocks, room) && m <= |c.txn|
    ensures RecoversTo(c.L, blocks, Flush(d, Committing(c) + c.txn[..m]), Flush(d, c.txn), Inc(c.seqno), room)
  {
    var x := Flush(d, Committing(c));
    CommittedDisk(c, d, blocks, room);
    FlushConcat(d, Committing(c), c.txn[..m]);
    HomeWritesShow(c, d, blocks, room, x, c.txn[..m]);
    FreshFewer(c.L, d, c.seqno, room + 1, 2);
    Recovers(c, d, Flush(x, c.txn[..m]), true, blocks);
    FlushAgain(x, c.txn, m);
    HomeWritesShow(c, d, blocks, room, x, c.txn);
    TransactionHome(c, d, x);
    LeftIdle(c, d, blocks, room, true, Flush(x, c.txn), Flush(d, c.txn));
  }

  /** The whole commit, done: the log marked empty for the next transaction. */
  lemma CommitCompletes(c: Progress, d: Disk, blocks: u32, room: nat)
    requires Begun(c, d, blocks, room)
    ensures var r := Flush(d, Committing(c) + c.txn + [LastMark(c)]);
            SameVolume(c.L, r, Flush(d, c.txn)) && Idle(c.L, r, Inc(c.seqno), room)
  {
    var x := Flush(d, Committing(c));
    CommittedDisk(c, d, blocks, room);
    HomeWritesShow(c, d, blocks, room, x, c.txn);
    TransactionHome(c, d, x);
    LeftIdle(c, d, blocks, room, true, Flush(x, c.txn), Flush(d, c.txn));
    FlushConcat(d, Committing(c), c.txn);
    FlushConcat(d, Committing(c) + c.txn, [LastMark(c)]);
    FlushOne(Flush(x, c.txn), LastMark(c));
  }

  lemma FlushOne(d: Disk, u: Update)
    ensures Flush(d, [u]) == d[u.blk := u.data]
  {
    assert [u][..0] == [];
  }

  /** Recovery leaves a disk whose log is marked empty as it is. */
  lemma IdleRecovers(L: Log, blocks: u32, d: Disk, v: Disk, seqno: u32, room: nat)
    requires Idle(L, d, seqno, room) && SameVolume(L, d, v)
    ensures RecoversTo(L, blocks, d, v, seqno, room)
  {
  }

  /**
  A power cut after any write of a commit: recovery gives the old volume if the
  commit block is not down, the new one if it is, and never anything between.
  */
  lemma PowerCut(c: Progress, d: Disk, blocks: u32, room: nat, k: nat)
    requires Begun(c, d, blocks, room)
    requires k <= |CommitWrites(c)|
    ensures var cut := Flush(d, CommitWrites(c)[..k]);
            if k <= |c.txn| + 2 then RecoversTo(c.L, blocks, cut, d, c.seqno, room)
            else RecoversTo(c.L, blocks, cut, Flush(d, c.txn), Inc(c.seqno), room)
  {
    var n := |c.txn|;
    CommitPrefixes(c, k);
    if k <= n + 1 {
      CutWhileFilling(c, d, blocks, room, k);
    } else if k == n + 2 {
      CutBeforeCommit(c, d, blocks, room);
    } else if k <= 2 * n + 3 {
      CutAfterCommit(c, d, blocks, room, k - n - 3);
    } else {
      CommitCompletes(c, d, blocks, room);
      IdleRecovers(c.L, blocks, Flush(d, Committing(c) + c.txn + [LastMark(c)]), Flush(d, c.txn), Inc(c.seqno), room);
    }
  }

  /** The stages a cut-off commit can be at. */
  lemma CommitPrefixes(c: Progress, k: nat)
    requires Sound(c) && k <= |CommitWrites(c)|
    ensures var ws, n := CommitWrites(c), |c.txn|;
            && |ws| == 2 * n + 4
            && ws[..k] == if k <= n + 1 then IntoLog(c)[..k]
                          else if k == n + 2 then Marking(c)
                          else if k <= 2 * n + 3 then Committing(c) + c.txn[..k - n - 3]
                          else Committing(c) + c.txn + [LastMark(c)]
  {
    var into, mark := IntoLog(c), Update(Home(c.L, 0), Marked(c.sb, c.L.first, c.seqno));
    var commit := Update(Home(c.L, CommitAt(c)), c.commit);
    IntoLogPrefix(c, 0);
    Prefixes(into, mark, commit, c.txn, LastMark(c), k);
  }

  lemma Prefixes(a: seq<Update>, m: Update, x: Update, t: seq<Update>, l: Update, k: nat)
    requires k <= |a| + |t| + 3
    ensures (a + [m] + [x] + t + [l])[..k]
         == if k <= |a| then a[..k]
            else if k == |a| + 1 then a + [m]
            else if k <= |a| + 2 + |t| then a + [m] + [x] + t[..k - |a| - 2]
            else a + [m] + [x] + t + [l]
  {
  }

  // ------------------------------------------------------------------
  // Any number of commits
  // ------------------------------------------------------------------

  /** A transaction, with the descriptor and commit blocks made for it. */
  datatype Job = Job(txn: seq<Update>, desc: Block, commit: Block)

  function FirstCommit(L: Log, sb: Block, seqno: u32, job: Job): Progress {
    Progress(L, seqno, job.txn, sb, job.desc, job.commit)
  }

  /** The jobs are transactions numbered `seqno` on. */
  predicate Jobs(L: Log, blocks: u32, seqno: u32, jobs: seq<Job>)
    decreases |jobs|
  {
    jobs == [] ||
    (&& Transaction(L, blocks, jobs[0].txn) && Sound(FirstCommit(L, seq(L.bs, _ => 0), seqno, jobs[0]))
     && Jobs(L, blocks, Inc(seqno), jobs[1..]))
  }

  /** Every write of a run of commits, in order. */
  function RunWrites(L: Log, sb: Block, seqno: u32, jobs: seq<Job>): seq<Update>
    requires |sb| >= 1024
    decreases |jobs|
  {
    if jobs == [] then []
    else
      var c := FirstCommit(L, sb, seqno, jobs[0]);
      CommitWrites(c) + RunWrites(L, LastMark(c).data, Inc(seqno), jobs[1..])
  }

  /** How many of the transactions have their commit block among the first `k` writes. */
  function DoneBy(jobs: seq<Job>, k: nat): nat
    decreases |jobs|
  {
    if jobs == [] then 0
    else
      var n := |jobs[0].txn|;
      if k <= n + 2 then 0
      else if k <= 2 * n + 4 then 1
      else 1 + DoneBy(jobs[1..], k - (2 * n + 4))
  }

  /** The volume after these transactions. */
  function VolumeAfter(d: Disk, jobs: seq<Job>): Disk
    decreases |jobs|
  {
    if jobs == [] then d else VolumeAfter(Flush(d, jobs[0].txn), jobs[1..])
  }

  lemma {:induction false} VolumeAfterSame(L: Log, a: Disk, b: Disk, jobs: seq<Job>)
    requires SameVolume(L, a, b)
    ensures SameVolume(L, VolumeAfter(a, jobs), VolumeAfter(b, jobs))
    decreases |jobs|
  {
    if jobs != [] {
      var c := Progress(L, 0, jobs[0].txn, [], [], []);
      TransactionHome(c, b, a);
      VolumeAfterSame(L, Flush(a, jobs[0].txn), Flush(b, jobs[0].txn), jobs[1..]);
    }
  }

  lemma {:induction false} DoneByBound(jobs: seq<Job>, k: nat)
    ensures DoneBy(jobs, k) <= |jobs|
    decreases |jobs|
  {
    if jobs != [] && k > 2 * |jobs[0].txn| + 4 {
      DoneByBound(jobs[1..], k - (2 * |jobs[0].txn| + 4));
    }
  }

  /**
  What a disk is to recover to when `k` writes of a run of commits were made to `d`:
  the volume after the transactions done by then, with the journal ready for the next.
  */
  ghost predicate SafeAt(L: Log, blocks: u32, d: Disk, seqno: u32, ws: seq<Update>, jobs: seq<Job>, k: nat, room: nat)
    requires k <= |ws|
  {
    Recoups(L, blocks, Flush(d, ws[..k]), d, seqno, jobs, DoneBy(jobs, k), room)
  }

  ghost predicate Recoups(L: Log, blocks: u32, x: Disk, d: Disk, seqno: u32, jobs: seq<Job>, t: nat, room: nat) {
    t <= |jobs| && RecoversTo(L, blocks, x, VolumeAfter(d, jobs[..t]), Plus(seqno, t), room)
  }

  lemma SafeInFirst(c: Progress, blocks: u32, d: Disk, rest: seq<Update>, jobs: seq<Job>, k: nat, room: nat, less: nat)
    requires jobs != [] && c.txn == jobs[0].txn && Begun(c, d, blocks, room) && k <= 2 * |c.txn| + 4 && less <= room
    ensures var ws := CommitWrites(c) + rest;
            k <= |ws| && SafeAt(c.L, blocks, d, c.seqno, ws, jobs, k, less)
  {
    var cw := CommitWrites(c);
    CommitPrefixes(c, 0);
    assert (cw + rest)[..k] == cw[..k];
    PowerCut(c, d, blocks, room, k);
    VolumeOfOne(d, jobs, DoneBy(jobs, k));
    assert Plus(c.seqno, 1) == Inc(Plus(c.seqno, 0)) == Inc(c.seqno);
    RecoversFewer(c.L, blocks, Flush(d, cw[..k]), VolumeAfter(d, jobs[..DoneBy(jobs, k)]), Plus(c.seqno, DoneBy(jobs, k)), room, less);
  }

  lemma RecoversFewer(L: Log, blocks: u32, x: Disk, v: Disk, next: u32, room: nat, less: nat)
    requires RecoversTo(L, blocks, x, v, next, room) && less <= room
    ensures RecoversTo(L, blocks, x, v, next, less)
  {
    FreshFewer(L, Recovered(L, blocks, x).value, next, room, less);
  }

  lemma SafeLater(L: Log, blocks: u32, d: Disk, seqno: u32, cw: seq<Update>, rest: seq<Update>, jobs: seq<Job>, k: nat, room: nat)
    requires jobs != [] && |cw| == 2 * |jobs[0].txn| + 4 && |cw| < k <= |cw| + |rest|
    requires SameVolume(L, Flush(d, cw), Flush(d, jobs[0].txn))
    requires SafeAt(L, blocks, Flush(d, cw), Inc(seqno), rest, jobs[1..], k - |cw|, room)
    ensures SafeAt(L, blocks, d, seqno, cw + rest, jobs, k, room)
  {
    FlushedLater(d, cw, rest, k);
    var x, t := Flush(d, (cw + rest)[..k]), DoneBy(jobs[1..], k - |cw|);
    assert x == Flush(Flush(d, cw), rest[..k - |cw|]);
    RecoupsLater(L, blocks, x, d, Flush(d, cw), seqno, jobs, t, room);
    assert DoneBy(jobs, k) == t + 1;
  }

  lemma FlushedLater(d: Disk, cw: seq<Update>, rest: seq<Update>, k: nat)
    requires |cw| <= k <= |cw| + |rest|
    ensures Flush(d, (cw + rest)[..k]) == Flush(Flush(d, cw), rest[..k - |cw|])
  {
    assert (cw + rest)[..k] == cw + rest[..k - |cw|];
    FlushConcat(d, cw, rest[..k - |cw|]);
  }

  lemma RecoupsLater(L: Log, blocks: u32, x: Disk, d: Disk, d1: Disk, seqno: u32, jobs: seq<Job>, t: nat, room: nat)
    requires jobs != [] && SameVolume(L, d1, Flush(d, jobs[0].txn))
    requires Recoups(L, blocks, x, d1, Inc(seqno), jobs[1..], t, room)
    ensures Recoups(L, blocks, x, d, seqno, jobs, t + 1, room)
  {
    VolumeLater(L, d, d1, jobs, t);
    SameVolumeTrans(L, Recovered(L, blocks, x).value, VolumeAfter(d1, jobs[1..][..t]), VolumeAfter(d, jobs[..t + 1]));
    PlusPlus(seqno, 1, t);
    assert Plus(seqno, 1) == Inc(Plus(seqno, 0)) == Inc(seqno);
  }

  lemma VolumeLater(L: Log, d: Disk, d1: Disk, jobs: seq<Job>, t: nat)
    requires jobs != [] && t <= |jobs[1..]| && SameVolume(L, d1, Flush(d, jobs[0].txn))
    ensures SameVolume(L, VolumeAfter(d1, jobs[1..][..t]), VolumeAfter(d, jobs[..t + 1]))
  {
    VolumeAfterSame(L, d1, Flush(d, jobs[0].txn), jobs[1..][..t]);
    assert jobs[..t + 1][1..] == jobs[1..][..t];
  }

  lemma SameVolumeTrans(L: Log, a: Disk, b: Disk, c: Disk)
    requires SameVolume(L, a, b) && SameVolume(L, b, c)
    ensures SameVolume(L, a, c)
  {
    forall blk: u32 | blk !in L.where
      ensures Holding(a, blk) == Holding(c, blk)
    {
      assert Holding(a, blk) == Holding(b, blk);
    }
  }

  /**
  Safety of whole runs: however many transactions are committed and wherever the
  power fails, recovery succeeds and leaves the volume exactly as it was after
  the transactions whose commit block had been written, and the journal ready for
  the next one.
  */
  lemma {:induction false} RunIsCrashSafe(L: Log, blocks: u32, d: Disk, seqno: u32, jobs: seq<Job>, k: nat, room: nat)
    requires Jobs(L, blocks, seqno, jobs) && |jobs| <= room < WORD - 1 && Idle(L, d, seqno, room + 1)
    requires k <= |RunWrites(L, d[L.where[0]], seqno, jobs)|
    ensures SafeAt(L, blocks, d, seqno, RunWrites(L, d[L.where[0]], seqno, jobs), jobs, k, room + 1 - |jobs|)
    decreases |jobs|
  {
    var sb := d[L.where[0]];
    if jobs == [] {
      IdleRecovers(L, blocks, d, d, seqno, room + 1);
      assert jobs[..0] == [];
    } else {
      var c := FirstCommit(L, sb, seqno, jobs[0]);
      var rest := RunWrites(L, LastMark(c).data, Inc(seqno), jobs[1..]);
      if k <= 2 * |c.txn| + 4 {
        SafeInFirst(c, blocks, d, rest, jobs, k, room, room + 1 - |jobs|);
      } else {
        var cw := CommitWrites(c);
        CommitPrefixes(c, 0);
        AfterFirst(c, d, blocks, room);
        RunIsCrashSafe(L, blocks, Flush(d, cw), Inc(seqno), jobs[1..], k - |cw|, room - 1);
        SafeLater(L, blocks, d, seqno, cw, rest, jobs, k, room + 1 - |jobs|);
      }
    }
  }

  lemma VolumeOfOne(d: Disk, jobs: seq<Job>, t: nat)
    requires jobs != [] && t <= 1
    ensures VolumeAfter(d, jobs[..t]) == if t == 0 then d else Flush(d, jobs[0].txn)
  {
    if t == 1 {
      assert jobs[..1][1..] == [];
    }
  }

  /** What the next commit of a run starts from. */
  lemma AfterFirst(c: Progress, d: Disk, blocks: u32, room: nat)
    requires Begun(c, d, blocks, room)
    ensures var d1 := Flush(d, CommitWrites(c));
            && SameVolume(c.L, d1, Flush(d, c.txn)) && Idle(c.L, d1, Inc(c.seqno), room)
            && d1[c.L.where[0]] == LastMark(c).data
  {
    var ws := CommitWrites(c);
    CommitPrefixes(c, 2 * |c.txn| + 4);
    assert ws == ws[..|ws|] == Committing(c) + c.txn + [LastMark(c)];
    CommitCompletes(c, d, blocks, room);
    FlushConcat(d, Committing(c) + c.txn, [LastMark(c)]);
    FlushOne(Flush(d, Committing(c) + c.txn), LastMark(c));
  }

  /** A journal with nothing in its log can take as many transactions as there are sequence numbers. */
  lemma BlankLogIsIdle(L: Log, d: Disk, seqno: u32, room: nat)
    requires Usable(L, d)
    requires Be32(d[L.where[0]], JS_START) == 0 && Be32(d[L.where[0]], JS_SEQUENCE) == seqno
    requires forall p: nat :: L.first < p < L.maxlen ==> Be32(d[L.where[p]], 0) != MAGIC
    ensures Idle(L, d, seqno, room)
  {
    forall p: nat, j: nat | L.first < p < L.maxlen && j < room && ReadLog(L, d, p).Some?
      ensures !IsHeaderOf(ReadLog(L, d, p).value, Plus(seqno, j))
    {
      assert ReadLog(L, d, p).value == d[L.where[p]];
    }
  }

  // ------------------------------------------------------------------
  // The kernel's code
  // ------------------------------------------------------------------

  lemma Append(o: seq<Update>, a: seq<Update>, b: seq<Update>)
    ensures o + (a + b) == o + a + b
  {
  }

  lemma CommittingParts(c: Progress, o: seq<Update>)
    requires Sound(c)
    ensures o + Committing(c)
         == o + CopyWrites(c.L, c.txn, |c.txn|) + [Update(Home(c.L, c.L.first), c.desc)]
            + [Update(Home(c.L, 0), Marked(c.sb, c.L.first, c.seqno))] + [Update(Home(c.L, CommitAt(c)), c.commit)]
  {
    var copies, desc := CopyWrites(c.L, c.txn, |c.txn|), [Update(Home(c.L, c.L.first), c.desc)];
    var mark, commit := [Update(Home(c.L, 0), Marked(c.sb, c.L.first, c.seqno))], [Update(Home(c.L, CommitAt(c)), c.commit)];
    Append(o, copies, desc);
    Append(o, copies + desc, mark);
    Append(o, copies + desc + mark, commit);
  }

  lemma CommitWritesParts(c: Progress, o: seq<Update>)
    requires Sound(c)
    ensures o + CommitWrites(c) == o + Committing(c) + c.txn + [LastMark(c)]
  {
    Append(o, Committing(c), c.txn);
    Append(o, Committing(c) + c.txn, [LastMark(c)]);
  }

  /** What the loop over the pinned blocks comes to, from block `i` on: everything issued by then. */
  ghost function TraceFrom(L: Log, txn: seq<Update>, i: nat, trace: seq<Update>): seq<Update>
    requires i <= |txn|
    decreases |txn| - i
  {
    if i == |txn| then trace
    else TraceFrom(L, txn, i + 1, trace + [Update(Home(L, L.first + 1 + i), Logged(txn[i].data))])
  }

  lemma {:induction false} CopyWritesAt(L: Log, txn: seq<Update>, k: nat, i: nat)
    requires i < k <= |txn|
    ensures CopyWrites(L, txn, k)[i] == Update(Home(L, L.first + 1 + i), Logged(txn[i].data))
    decreases k
  {
    if i < k - 1 {
      CopyWritesAt(L, txn, k - 1, i);
    }
  }

  lemma {:induction false} TraceFromIs(L: Log, txn: seq<Update>, i: nat, trace: seq<Update>)
    requires i <= |txn|
    ensures TraceFrom(L, txn, i, trace) == trace + CopyWrites(L, txn, |txn|)[i..]
    decreases |txn| - i
  {
    var copies := CopyWrites(L, txn, |txn|);
    if i < |txn| {
      var u := Update(Home(L, L.first + 1 + i), Logged(txn[i].data));
      CopyWritesAt(L, txn, |txn|, i);
      assert copies[i..] == [u] + copies[i + 1..];
      Append(trace, [u], copies[i + 1..]);
      TraceFromIs(L, txn, i + 1, trace + [u]);
    }
  }

  /** One more tag, after those a descriptor block already holds. */
  lemma {:induction false} HoldsMore(b: Block, r: Block, t: nat, tags: seq<Tag>, tag: Tag)
    requires Holds(b, t, tags) && SameBelow(b, r, t + TagsWidth(tags))
    requires t + TagsWidth(tags) + TAG_BYTES <= |r| && TagAt(r, t + TagsWidth(tags)) == tag
    ensures Holds(r, t, tags + [tag])
    decreases |tags|
  {
    if tags == [] {
      assert tags + [tag] == [tag] && [tag][1..] == [];
    } else {
      assert (tags + [tag])[0] == tags[0] && (tags + [tag])[1..] == tags[1..] + [tag];
      TagBelow(b, r, t, t + TagsWidth(tags));
      HoldsMore(b, r, t + TagWidth(tags[0]), tags[1..], tag);
    }
  }

  /** A descriptor block with the first `i` tags in it. */
  ghost predicate Filled(b: Block, t: nat, txn: seq<Update>, i: nat, seqno: u32) {
    && i <= |txn| && HasHeader(b, DESCRIPTOR, seqno) && Holds(b, HEADER, TagsFor(txn, i))
    && t == HEADER + TagsWidth(TagsFor(txn, i))
  }

  lemma FilledMore(b: Block, t: nat, txn: seq<Update>, i: nat, seqno: u32, uuid: Block)
    requires Filled(b, t, txn, i, seqno) && i < |txn| <= NBUF + 1 && |b| >= 1024 && |uuid| == UUID_BYTES
    ensures t + TagWidth(TagFor(txn, i)) <= |b|
    ensures Filled(PutTag(b, t, TagFor(txn, i), uuid), t + TagWidth(TagFor(txn, i)), txn, i + 1, seqno)
  {
    var tag := TagFor(txn, i);
    TagsFit(txn, i);
    TagsWidthConcat(TagsFor(txn, i), [tag]);
    assert [tag][1..] == [];
    var r := PutTag(b, t, tag, uuid);
    HoldsMore(b, r, HEADER, TagsFor(txn, i), tag);
    SameHeader(b, r);
  }

  /** The journal as a commit drives it: what it issues to the disk, in order. */
  class Journal {
    const log: Log
    const uuid: Block
    var sb: Block               // the journal superblock, as it is on the disk
    var seqno: u32              // the next transaction's number
    var issued: seq<Update>     // every block write so far

    ghost predicate Valid()
      reads this
    {
      && Geometry(log) && |log.where| == log.maxlen && log.first + NBUF + 8 <= log.maxlen
      && |uuid| == UUID_BYTES && |sb| == log.bs
    }

    constructor (log: Log, uuid: Block, sb: Block, seqno: u32)
      requires Geometry(log) && |log.where| == log.maxlen && log.first + NBUF + 8 <= log.maxlen
      requires |uuid| == UUID_BYTES && |sb| == log.bs
      ensures Valid() && this.log == log && this.uuid == uuid && this.sb == sb && this.seqno == seqno && issued == []
    {
      this.log, this.uuid, this.sb, this.seqno, issued := log, uuid, sb, seqno, [];
    }

    method Write(blk: u32, data: Block)
      modifies this`issued
      ensures issued == old(issued) + [Update(blk, data)]
    {
      issued := issued + [Update(blk, data)];
    }

    /** A block of the log, the magic hidden if it begins with it. */
    method LogBlock(pos: nat, data: Block) returns (escaped: bool)
      requires Valid() && |data| == log.bs && pos < log.maxlen
      modifies this`issued
      ensures escaped == Clashes(data) && issued == old(issued) + [Update(Home(log, pos), Logged(data))]
    {
      var b := data;
      escaped := false;
      if Be32(b, 0) == MAGIC {
        b := Put32(b, 0, 0);
        escaped := true;
      }
      Write(log.where[pos], b);
    }

    method SetSuper(start: u32, next: u32)
      requires Valid()
      modifies this`issued, this`sb
      ensures Valid() && sb == Marked(old(sb), start, next) && issued == old(issued) + [Update(Home(log, 0), sb)]
    {
      sb := Marked(sb, start, next);
      Write(log.where[0], sb);
    }

    /** One pinned block: its copy into the log and its tag into the descriptor. */
    method LogOne(b: Block, t: nat, pos: nat, txn: seq<Update>, i: nat) returns (b': Block, t': nat)
      requires Valid() && i < |txn| && |txn[i].data| == log.bs && pos < log.maxlen
      requires |b| == log.bs && t + TagWidth(TagFor(txn, i)) <= |b|
      modifies this`issued
      ensures issued == old(issued) + [Update(Home(log, pos), Logged(txn[i].data))]
      ensures b' == PutTag(b, t, TagFor(txn, i), uuid) && t' == t + TagWidth(TagFor(txn, i))
    {
      var escaped := LogBlock(pos, txn[i].data);
      var tag := Tag(txn[i].blk, escaped, i != 0, i == |txn| - 1);
      b' := PutTag(b, t, tag, uuid);
      t' := t + TAG_BYTES;
      if i == 0 {
        t' := t' + UUID_BYTES;
      }
    }

    /** Copies of the transaction into the log; `b` is the descriptor that lists them. */
    method LogCopies(txn: seq<Update>, ghost blocks: u32) returns (b: Block, pos: nat)
      requires Valid() && Transaction(log, blocks, txn)
      modifies this`issued
      ensures pos == log.first + |txn| + 1 && |b| == log.bs && issued == TraceFrom(log, txn, 0, old(issued))
      ensures HasHeader(b, DESCRIPTOR, seqno) && Holds(b, HEADER, TagsFor(txn, |txn|))
    {
      var t: nat := HEADER;
      b, pos := Header(log.bs, DESCRIPTOR, seqno), Next(log, log.first);
      ghost var all := TraceFrom(log, txn, 0, issued);
      for i := 0 to |txn|
        invariant |b| == log.bs && pos == log.first + 1 + i
        invariant Filled(b, t, txn, i, seqno)
        invariant all == TraceFrom(log, txn, i, issued)
      {
        FilledMore(b, t, txn, i, seqno, uuid);
        b, t := LogOne(b, t, pos, txn, i);
        pos := Next(log, pos);
      }
    }

    /** Every pinned block home. */
    method Checkpoint(txn: seq<Update>)
      modifies this`issued
      ensures issued == old(issued) + txn
    {
      for i := 0 to |txn|
        invariant issued == old(issued) + txn[..i]
      {
        Write(txn[i].blk, txn[i].data);
      }
      assert txn[..|txn|] == txn;
    }

    /** journal_commit, once the file data it depends on is home: the log, the mark, the commit block, home, empty. */
    method JournalCommit(txn: seq<Update>, secs: u32, ghost blocks: u32) returns (ghost c: Progress)
      requires Valid() && Transaction(log, blocks, txn)
      modifies this
      ensures Valid() && seqno == Inc(old(seqno))
      ensures Sound(c) && sb == LastMark(c).data && c.L == log && c.seqno == old(seqno) && c.txn == txn && c.sb == old(sb)
      ensures issued == old(issued) + CommitWrites(c)
    {
      c := LogTransaction(txn, secs, blocks);
      CommitWritesParts(c, old(issued));
      Checkpoint(txn);
      seqno := Inc(seqno);
      SetSuper(0, seqno);
    }

    /** The copies, the descriptor, the mark and the commit block. */
    method LogTransaction(txn: seq<Update>, secs: u32, ghost blocks: u32) returns (ghost c: Progress)
      requires Valid() && Transaction(log, blocks, txn)
      modifies this
      ensures Valid() && seqno == old(seqno) && Sound(c)
      ensures c.L == log && c.seqno == seqno && c.txn == txn && c.sb == old(sb)
      ensures sb == Marked(c.sb, log.first, seqno) && issued == old(issued) + Committing(c)
    {
      TraceFromIs(log, txn, 0, issued);
      var b, pos := LogCopies(txn, blocks);
      assert CopyWrites(log, txn, |txn|)[0..] == CopyWrites(log, txn, |txn|);
      var end := CommitBlock(log.bs, seqno, secs);
      c := Progress(log, seqno, txn, sb, b, end);
      CommittingParts(c, old(issued));
      Write(log.where[log.first], b);
      SetSuper(log.first, seqno);
      Write(log.where[pos], end);
    }
  }
}
