/**
Recovery (kernel/fs/ext2.c, journal_recover) stopped by another power cut after any
of its own writes, and started over.
*/
module RecoveryCut {
  import opened Basics
  import opened BigEndian
  import opened JournalFormat
  import opened JournalLog
  import opened BootRom
  import opened KernelReplay

  /** The disk after the first `n` writes of recovering `d`: copies home in log order, and then the mark. */
  function CutAfter(L: Log, blocks: u32, d: Disk, n: nat): Disk
    requires Sane(L, d)
  {
    var sb := KRead(L, d, 0).value;
    if Be32(sb, JS_START) == 0 then d
    else
      var writes := ToWrite(L, blocks, d, Be32(sb, JS_START), Be32(sb, JS_SEQUENCE));
      if n <= |writes| then Replay(L, d, writes[..n])
      else match Recovered(L, blocks, d) case None => d case Some(r) => r
  }

  /** Both disks have the same log. */
  ghost predicate SameLog(L: Log, a: Disk, b: Disk) {
    forall pos: nat :: ReadLog(L, a, pos) == ReadLog(L, b, pos)
  }

  lemma {:induction false} ScanSame(L: Log, a: Disk, b: Disk, pos: nat, seqno: u32, steps: nat)
    requires SameLog(L, a, b)
    ensures Scan(L, ReaderOf(L, a), pos, seqno, steps) == Scan(L, ReaderOf(L, b), pos, seqno, steps)
    decreases L.maxlen + 1 - steps
  {
    assert ReadLog(L, a, pos) == ReadLog(L, b, pos);
    assert ReaderOf(L, a)(pos, seqno) == ReadRecord(L, a, pos, seqno) == ReaderOf(L, b)(pos, seqno);
    if steps <= L.maxlen && ReadRecord(L, a, pos, seqno).Some? {
      var r := ReadRecord(L, a, pos, seqno).value;
      ScanSame(L, a, b, Ahead(L, pos, r), SeqAfter(r), steps + 1);
    }
  }

  lemma {:induction false} ReplaySized(L: Log, d: Disk, copies: seq<Copy>)
    requires Formatted(L, d) && Readable(L, d, copies)
    ensures Formatted(L, Replay(L, d, copies))
    decreases |copies|
  {
    if copies != [] {
      ReplaySized(L, d, copies[..|copies| - 1]);
      assert ReadLog(L, d, copies[|copies| - 1].at).Some?;
    }
  }

  /** Writing copies home again, after some of them are there, changes nothing more. */
  lemma ReplayAgain(L: Log, d: Disk, writes: seq<Copy>, n: nat)
    requires n <= |writes| && Outside(L, writes)
    ensures Replay(L, Replay(L, d, writes[..n]), writes) == Replay(L, d, writes)
  {
    var part := Replay(L, d, writes[..n]);
    var a, b := Replay(L, part, writes), Replay(L, d, writes);
    forall blk: u32
      ensures Holding(a, blk) == Holding(b, blk)
    {
      ReplayReads(L, part, writes, blk);
      ReplayReads(L, d, writes[..n], blk);
      ReplayReads(L, d, writes, blk);
      NewestIsThere(writes, blk);
      NewestIsThere(writes[..n], blk);
      var c := Newest(writes, blk);
      if c.Some? {
        ReplayKeepsLog(L, d, writes[..n], c.value.at);
      }
    }
    SameDisk(a, b);
  }

  /** What recovery is to write, and that none of it goes into the log. */
  lemma WritesOutside(L: Log, blocks: u32, d: Disk, start: u32, seqno: u32)
    requires Recoverable(L, d, start, seqno)
    ensures var writes := ToWrite(L, blocks, d, start, seqno); Outside(L, writes) && Readable(L, d, writes)
  {
    var recs := Scan(L, ReaderOf(L, d), start, seqno, 0);
    CommittedOutside(L, Committed(recs));
    LiveOutside(L, Revocations(recs), Copies(Committed(recs)));
    WithinOutside(L, blocks, Survivors(L, d, start, seqno));
    SurvivorsReadable(L, d, start, seqno);
    WithinReadable(L, d, blocks, Survivors(L, d, start, seqno));
  }

  lemma {:induction false} WithinReadable(L: Log, d: Disk, blocks: u32, copies: seq<Copy>)
    requires Readable(L, d, copies)
    ensures Readable(L, d, Within(blocks, copies))
    decreases |copies|
  {
    if copies != [] {
      WithinReadable(L, d, blocks, copies[..|copies| - 1]);
    }
  }

  /** Partly replayed, a disk still has all of its recovery before it. */
  lemma PartlyReplayed(L: Log, blocks: u32, d: Disk, start: u32, seqno: u32, n: nat)
    requires Recoverable(L, d, start, seqno) && n <= |ToWrite(L, blocks, d, start, seqno)|
    ensures var writes := ToWrite(L, blocks, d, start, seqno);
            var part := Replay(L, d, writes[..n]);
            && SameLog(L, part, d) && Recoverable(L, part, start, seqno) && ToWrite(L, blocks, part, start, seqno) == writes
            && Replay(L, part, writes) == Replay(L, d, writes)
  {
    var writes := ToWrite(L, blocks, d, start, seqno);
    var part := Replay(L, d, writes[..n]);
    WritesOutside(L, blocks, d, start, seqno);
    forall pos: nat
      ensures ReadLog(L, part, pos) == ReadLog(L, d, pos)
    {
      ReplayKeepsLog(L, d, writes[..n], pos);
    }
    ReplaySized(L, d, writes[..n]);
    ScanSame(L, part, d, start, seqno, 0);
    ReplayAgain(L, d, writes, n);
    WholeStill(L, d, part);
  }

  lemma WholeStill(L: Log, d: Disk, part: Disk)
    requires Whole(L, d) && SameLog(L, part, d)
    ensures Whole(L, part)
  {
    forall pos: nat | pos < L.maxlen
      ensures ReadLog(L, part, pos).Some?
    {
      assert ReadLog(L, part, pos) == ReadLog(L, d, pos);
    }
  }

  /** What recovery of such a disk leaves. */
  lemma RecoveredIs(L: Log, blocks: u32, d: Disk, start: u32, seqno: u32)
    requires Recoverable(L, d, start, seqno) && start != 0
    requires KRead(L, d, 0).Some? && |KRead(L, d, 0).value| >= 1024
    requires Be32(KRead(L, d, 0).value, JS_START) == start && Be32(KRead(L, d, 0).value, JS_SEQUENCE) == seqno
    ensures var end := Plus(seqno, Commits(Scan(L, ReaderOf(L, d), start, seqno, 0)));
            Recovered(L, blocks, d)
            == Some(Replay(L, d, ToWrite(L, blocks, d, start, seqno))[Home(L, 0) := Marked(KRead(L, d, 0).value, 0, end)])
  {
    PassesReplay(L, blocks, d, start, seqno);
    WritesOutside(L, blocks, d, start, seqno);
    ReplayKeepsLog(L, d, ToWrite(L, blocks, d, start, seqno), 0);
  }

  /** Recovery cut off after any of its writes and started over ends as if it had not been. */
  lemma RecoveryResumes(L: Log, blocks: u32, d: Disk, n: nat)
    requires Sane(L, d)
    ensures var cut := CutAfter(L, blocks, d, n);
            Sane(L, cut) && Recovered(L, blocks, d).Some? && Recovered(L, blocks, cut) == Recovered(L, blocks, d)
  {
    var sb := KRead(L, d, 0).value;
    var start, seqno := Be32(sb, JS_START), Be32(sb, JS_SEQUENCE);
    if start != 0 {
      RecoveredIs(L, blocks, d, start, seqno);
      if n <= |ToWrite(L, blocks, d, start, seqno)| {
        PartResumes(L, blocks, d, start, seqno, n);
      } else {
        DoneResumes(L, blocks, d, start, seqno);
      }
    }
  }

  lemma PartResumes(L: Log, blocks: u32, d: Disk, start: u32, seqno: u32, n: nat)
    requires Recoverable(L, d, start, seqno) && start != 0
    requires KRead(L, d, 0).Some? && |KRead(L, d, 0).value| >= 1024
    requires Be32(KRead(L, d, 0).value, JS_START) == start && Be32(KRead(L, d, 0).value, JS_SEQUENCE) == seqno
    requires n <= |ToWrite(L, blocks, d, start, seqno)|
    ensures var cut := Replay(L, d, ToWrite(L, blocks, d, start, seqno)[..n]);
            Sane(L, cut) && Recovered(L, blocks, cut) == Recovered(L, blocks, d)
  {
    var cut := Replay(L, d, ToWrite(L, blocks, d, start, seqno)[..n]);
    PartlyReplayed(L, blocks, d, start, seqno, n);
    assert ReadLog(L, cut, 0) == ReadLog(L, d, 0);
    ScanSame(L, cut, d, start, seqno, 0);
    RecoveredIs(L, blocks, d, start, seqno);
    RecoveredIs(L, blocks, cut, start, seqno);
  }

  lemma DoneResumes(L: Log, blocks: u32, d: Disk, start: u32, seqno: u32)
    requires Recoverable(L, d, start, seqno) && start != 0
    requires KRead(L, d, 0).Some? && |KRead(L, d, 0).value| >= 1024
    requires Be32(KRead(L, d, 0).value, JS_START) == start && Be32(KRead(L, d, 0).value, JS_SEQUENCE) == seqno
    ensures var r := Recovered(L, blocks, d); r.Some? && Sane(L, r.value) && Recovered(L, blocks, r.value) == r
  {
    RecoveredIs(L, blocks, d, start, seqno);
    var sb := KRead(L, d, 0).value;
    MarkedReads(sb, 0, Plus(seqno, Commits(Scan(L, ReaderOf(L, d), start, seqno, 0))));
  }

  /** A disk after any number of recoveries that were cut off. */
  function Retried(L: Log, blocks: u32, d: Disk, cuts: seq<nat>): Disk
    decreases |cuts|
  {
    if cuts == [] || !Sane(L, d) then d else Retried(L, blocks, CutAfter(L, blocks, d, cuts[0]), cuts[1..])
  }

  lemma {:induction false} RecoveryRetries(L: Log, blocks: u32, d: Disk, cuts: seq<nat>)
    requires Sane(L, d)
    ensures Recovered(L, blocks, Retried(L, blocks, d, cuts)) == Recovered(L, blocks, d)
    decreases |cuts|
  {
    if cuts != [] {
      RecoveryResumes(L, blocks, d, cuts[0]);
      RecoveryRetries(L, blocks, CutAfter(L, blocks, d, cuts[0]), cuts[1..]);
    }
  }
}
