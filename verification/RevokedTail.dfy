/**
A disk on which a revocation that was never committed counts: the boot ROM
(bootrom/bootrom.c) and the kernel (kernel/fs/ext2.c) both gather revocations
before they know where the committed part of the log ends.
*/
module RevokedTail {
  import opened Basics
  import opened BigEndian
  import opened JournalFormat
  import opened JournalLog
  import opened BootRom

  const BS: nat := 1024
  const WHERE: seq<u32> := [10, 11, 12, 13, 14]
  const LOG := Log(BS, 1, 6, WHERE)
  const TAG := Tag(7, false, false, true)
  const LOGGED := Copy(7, 2, false, 1)

  function Super(): (b: Block)
    ensures |b| == BS
  {
    var b1 := Put32(Repeat(0, BS), 0, MAGIC);
    var b2 := Put32(b1, 4, SB_V2);
    var b3 := Put32(b2, JS_BLOCKSIZE, BS);
    var b4 := Put32(b3, JS_MAXLEN, 6);
    var b5 := Put32(b4, JS_FIRST, 1);
    var b6 := Put32(b5, JS_SEQUENCE, 1);
    var b7 := Put32(b6, JS_START, 1);
    Put32(b7, JS_FEATURE_INCOMPAT, 0)
  }

  lemma SuperReads()
    ensures SuperOk(BS, Super()) && LogOf(BS, WHERE, Super()) == LOG
    ensures Be32(Super(), JS_START) == 1 && Be32(Super(), JS_SEQUENCE) == 1
  {
    var b1 := Put32(Repeat(0, BS), 0, MAGIC);
    var b2 := Put32(b1, 4, SB_V2);
    var b3 := Put32(b2, JS_BLOCKSIZE, BS);
    var b4 := Put32(b3, JS_MAXLEN, 6);
    var b5 := Put32(b4, JS_FIRST, 1);
    var b6 := Put32(b5, JS_SEQUENCE, 1);
    var b7 := Put32(b6, JS_START, 1);
    var b := Super();
    BeSame(b1, b, 0, 4);
    BeSame(b2, b, 4, 4);
    BeSame(b3, b, JS_BLOCKSIZE, 4);
    BeSame(b4, b, JS_MAXLEN, 4);
    BeSame(b5, b, JS_FIRST, 4);
    BeSame(b6, b, JS_SEQUENCE, 4);
    BeSame(b7, b, JS_START, 4);
  }

  function Describer(): (b: Block)
    ensures |b| == BS && HasHeader(b, DESCRIPTOR, 1) && Holds(b, HEADER, [TAG])
  {
    assert [TAG][1..] == [];
    var top := Header(BS, DESCRIPTOR, 1);
    var b := PutTags(top, HEADER, [TAG], Repeat(0, UUID_BYTES));
    SameHeader(top, b);
    b
  }

  /** Block 7 holds `home`; transaction 1 logged `copy` for it and committed; transaction 2 revoked it and did not. */
  function TheDisk(home: Block, copy: Block): Disk {
    map[7 := home, 10 := Super(), 11 := Describer(), 12 := copy, 13 := Header(BS, COMMIT, 1), 14 := RevokeBlock(BS, 2, [7])]
  }

  const ITEMS := [Describing([TAG]), Ending, Revoking([7])]
  const RECORDS := [Descriptor(1, [LOGGED]), Commit(1), Revoke(2, [7])]

  /** Where the three items stand, and their numbers. */
  lemma Spots()
    ensures Spot(LOG, 1, ITEMS, 0) == 1 && Spot(LOG, 1, ITEMS, 1) == 3 && Spot(LOG, 1, ITEMS, 2) == 4 && Spot(LOG, 1, ITEMS, 3) == 5
    ensures Number(1, ITEMS, 0) == 1 && Number(1, ITEMS, 1) == 1 && Number(1, ITEMS, 2) == 2 && Number(1, ITEMS, 3) == 2
  {
    var i1, i2, i3 := ITEMS[..1], ITEMS[..2], ITEMS[..3];
    assert ITEMS[..0] == [] && i1[..0] == [] && i2[..1] == i1 && i3[..2] == i2;
    assert Extents(i1) == 2 && Extents(i2) == 3 && Extents(i3) == 4;
    assert Endings(i1) == 0 && Endings(i2) == 1 && Endings(i3) == 1;
    AfterNoWrap(LOG, 1, 2);
    AfterNoWrap(LOG, 1, 3);
    AfterNoWrap(LOG, 1, 4);
  }

  lemma Laid(home: Block, copy: Block)
    ensures LaidOut(LOG, TheDisk(home, copy), 1, 1, ITEMS)
  {
    var d := TheDisk(home, copy);
    Spots();
    assert ReadLog(LOG, d, 1) == Some(Describer()) && ReadLog(LOG, d, 3) == Some(Header(BS, COMMIT, 1));
    assert ReadLog(LOG, d, 4) == Some(RevokeBlock(BS, 2, [7])) && ReadLog(LOG, d, 5) == None;
    assert Stands(LOG, d, 1, 1, ITEMS, 0) && Stands(LOG, d, 1, 1, ITEMS, 1) && Stands(LOG, d, 1, 1, ITEMS, 2);
  }

  lemma Read(home: Block, copy: Block)
    ensures Scan(LOG, ReaderOf(LOG, TheDisk(home, copy)), 1, 1, 0) == RECORDS
  {
    Laid(home, copy);
    ReadsBack(LOG, TheDisk(home, copy), 1, 1, ITEMS);
    Spots();
    assert [TAG][..0] == [];
    assert Place(LOG, [TAG], 2, 1) == [LOGGED];
  }

  lemma Counts(copy: Copy, s1: u32, s2: u32, blks: seq<u32>)
    ensures var recs := [Descriptor(s1, [copy]), Commit(s1), Revoke(s2, blks)];
            && Committed(recs) == recs[..2] && Copies(Committed(recs)) == [copy]
            && Revocations(Committed(recs)) == [] && Revocations(recs) == Stamp(blks, s2)
  {
    var r1, r2, r3 := [Descriptor(s1, [copy])], [Descriptor(s1, [copy]), Commit(s1)], [Descriptor(s1, [copy]), Commit(s1), Revoke(s2, blks)];
    assert r3[..2] == r2 && r2[..1] == r1 && r1[..0] == [];
    assert Committed(r3) == Committed(r2) == r2;
    assert Copies(r1) == [] + [copy] == [copy];
    assert Revocations(r1) == [] + [] == [];
    assert Revocations(r2) == [] && Copies(r2) == [copy];
  }

  /** One committed copy, revoked after the last commit: nothing is mapped, though it survives committed revocations. */
  lemma RevokedLater(L: Log, d: Disk, start: nat, seqno: u32, copy: Copy, s1: u32, s2: u32)
    requires Scan(L, ReaderOf(L, d), start, seqno, 0) == [Descriptor(s1, [copy]), Commit(s1), Revoke(s2, [copy.blk])]
    requires !Before(s2, copy.seqno)
    ensures OverlaidFrom(L, d, start, seqno) == []
    ensures CommittedSurvivors(Scan(L, ReaderOf(L, d), start, seqno, 0)) == [copy]
  {
    Counts(copy, s1, s2, [copy.blk]);
    NoneLost(copy);
    NothingMapped(L, Stamp([copy.blk], s2), copy);
  }

  lemma NoneLost(copy: Copy)
    ensures Live([], [copy]) == [copy]
  {
    assert [copy][..0] == [];
    assert Live([], [copy]) == Live([], []) + [copy];
  }

  lemma NothingMapped(L: Log, table: seq<Revocation>, copy: Copy)
    requires |table| == 1 && table[0].blk == copy.blk && !Before(table[0].seqno, copy.seqno)
    ensures Overlay(L, table, [], [copy]) == []
  {
    assert [copy][..0] == [];
  }

  lemma ReplayedIs(L: Log, d: Disk, copy: Copy, b: Block)
    requires ReadLog(L, d, copy.at) == Some(b) && !copy.escape
    ensures Holding(Replay(L, d, [copy]), copy.blk) == Some(b)
  {
    ReplayReads(L, d, [copy], copy.blk);
  }

  lemma DiskHas(home: Block, copy: Block)
    requires |home| == |copy| == BS
    ensures var d := TheDisk(home, copy);
            && (forall k :: k in d ==> |d[k]| == BS) && WHERE[0] in d && d[WHERE[0]] == Super()
            && Holding(d, 7) == Some(home) && ReadLog(LOG, d, LOGGED.at) == Some(copy)
  {
  }

  /** The ROM reads the old block, where the committed transactions alone leave the new one. */
  lemma OldBlockRead(home: Block, copy: Block)
    requires |home| == |copy| == BS
    ensures var d := TheDisk(home, copy);
            && Through(Overlaid(BS, WHERE, d), d, 7) == Some(home)
            && Holding(Replay(LOG, d, CommittedSurvivors(Scan(LOG, ReaderOf(LOG, d), 1, 1, 0))), 7) == Some(copy)
  {
    DiskHas(home, copy);
    Read(home, copy);
    OldReadOf(TheDisk(home, copy), home, copy);
  }

  lemma OldReadOf(d: Disk, home: Block, copy: Block)
    requires (forall k :: k in d ==> |d[k]| == BS) && WHERE[0] in d && d[WHERE[0]] == Super()
    requires Holding(d, 7) == Some(home) && ReadLog(LOG, d, LOGGED.at) == Some(copy)
    requires Scan(LOG, ReaderOf(LOG, d), 1, 1, 0) == RECORDS
    ensures Through(Overlaid(BS, WHERE, d), d, 7) == Some(home)
    ensures Holding(Replay(LOG, d, CommittedSurvivors(Scan(LOG, ReaderOf(LOG, d), 1, 1, 0))), 7) == Some(copy)
  {
    SuperReads();
    RevokedLater(LOG, d, 1, 1, LOGGED, 1, 2);
    ReplayedIs(LOG, d, LOGGED, copy);
  }
}
