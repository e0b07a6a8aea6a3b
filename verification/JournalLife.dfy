/**
The life of a journalled volume (kernel/fs/ext2.c): runs of commits, each ended by a
power cut, each cut followed by recoveries that may be cut off themselves before one
gets through, and then the next run.
*/
module JournalLife {
  import opened Basics
  import opened BigEndian
  import opened JournalFormat
  import opened JournalLog
  import opened BootRom
  import opened KernelReplay
  import opened JournalCommit
  import opened RecoveryCut

  /** Transactions to commit, the write the power fails after, and the writes recoveries were cut off after. */
  datatype Session = Session(jobs: seq<Job>, k: nat, cuts: seq<nat>)

  /** How many writes these commits make. */
  function Writes(jobs: seq<Job>): nat {
    if jobs == [] then 0 else 2 * |jobs[0].txn| + 4 + Writes(jobs[1..])
  }

  lemma {:induction false} RunWritesCount(L: Log, blocks: u32, sb: Block, seqno: u32, jobs: seq<Job>)
    requires Jobs(L, blocks, seqno, jobs) && |sb| == L.bs >= 1024
    ensures |RunWrites(L, sb, seqno, jobs)| == Writes(jobs)
    decreases |jobs|
  {
    if jobs != [] {
      var c := FirstCommit(L, sb, seqno, jobs[0]);
      CommitPrefixes(c, 0);
      RunWritesCount(L, blocks, LastMark(c).data, Inc(seqno), jobs[1..]);
    }
  }

  /** The transactions of a session whose commit blocks get written. */
  function Done(s: Session): seq<Job> {
    DoneByBound(s.jobs, s.k);
    s.jobs[..DoneBy(s.jobs, s.k)]
  }

  /** Every session goes on from the number the one before it got to. */
  predicate Sessions(L: Log, blocks: u32, seqno: u32, ss: seq<Session>)
    decreases |ss|
  {
    ss == [] ||
    (&& Jobs(L, blocks, seqno, ss[0].jobs) && ss[0].k <= Writes(ss[0].jobs)
     && Sessions(L, blocks, Plus(seqno, |Done(ss[0])|), ss[1..]))
  }

  function Attempts(ss: seq<Session>): nat {
    if ss == [] then 0 else |ss[0].jobs| + Attempts(ss[1..])
  }

  function AllDone(ss: seq<Session>): seq<Job> {
    if ss == [] then [] else Done(ss[0]) + AllDone(ss[1..])
  }

  /** The disk when the power fails in a session. */
  function Cut(L: Log, d: Disk, seqno: u32, s: Session): Option<Disk> {
    if Home(L, 0) !in d || |d[Home(L, 0)]| < 1024 then None
    else
      var ws := RunWrites(L, d[Home(L, 0)], seqno, s.jobs);
      if s.k > |ws| then None else Some(Flush(d, ws[..s.k]))
  }

  /** And when it has been recovered. */
  function Survived(L: Log, blocks: u32, d: Disk, seqno: u32, s: Session): Option<Disk> {
    match Cut(L, d, seqno, s)
    case None => None
    case Some(x) => Recovered(L, blocks, Retried(L, blocks, x, s.cuts))
  }

  function Lived(L: Log, blocks: u32, d: Disk, seqno: u32, ss: seq<Session>): Option<Disk>
    decreases |ss|
  {
    if ss == [] then Some(d)
    else match Survived(L, blocks, d, seqno, ss[0])
      case None => None
      case Some(r) => Lived(L, blocks, r, Plus(seqno, |Done(ss[0])|), ss[1..])
  }

  lemma {:induction false} VolumeAfterBoth(d: Disk, a: seq<Job>, b: seq<Job>)
    ensures VolumeAfter(d, a + b) == VolumeAfter(VolumeAfter(d, a), b)
    decreases |a|
  {
    if a == [] {
      assert a + b == b;
    } else {
      assert (a + b)[1..] == a[1..] + b;
      VolumeAfterBoth(Flush(d, a[0].txn), a[1..], b);
    }
  }

  /** One session, whatever cut its recoveries off. */
  lemma SessionIsSafe(L: Log, blocks: u32, d: Disk, seqno: u32, s: Session, room: nat)
    requires Jobs(L, blocks, seqno, s.jobs) && s.k <= Writes(s.jobs)
    requires |s.jobs| <= room < WORD - 1 && Idle(L, d, seqno, room + 1)
    ensures var r := Survived(L, blocks, d, seqno, s);
            && r.Some? && SameVolume(L, r.value, VolumeAfter(d, Done(s)))
            && Idle(L, r.value, Plus(seqno, |Done(s)|), room + 1 - |s.jobs|)
  {
    var sb := d[L.where[0]];
    assert Home(L, 0) == L.where[0];
    RunWritesCount(L, blocks, sb, seqno, s.jobs);
    RunIsCrashSafe(L, blocks, d, seqno, s.jobs, s.k, room);
    RecoveryRetries(L, blocks, Flush(d, RunWrites(L, sb, seqno, s.jobs)[..s.k]), s.cuts);
  }

  /**
  However often the power fails, in commits or in recoveries from earlier failures,
  the volume is in the end what the transactions that got their commit blocks
  written make of it, in order, and nothing else.
  */
  lemma {:induction false} LifeIsCrashSafe(L: Log, blocks: u32, d: Disk, seqno: u32, ss: seq<Session>, room: nat)
    requires Sessions(L, blocks, seqno, ss) && Attempts(ss) <= room < WORD - 1 && Idle(L, d, seqno, room + 1)
    ensures var r := Lived(L, blocks, d, seqno, ss);
            r.Some? && SameVolume(L, r.value, VolumeAfter(d, AllDone(ss)))
    decreases |ss|
  {
    if ss != [] {
      var s, rest := ss[0], ss[1..];
      var next := Plus(seqno, |Done(s)|);
      SessionIsSafe(L, blocks, d, seqno, s, room);
      var r := Survived(L, blocks, d, seqno, s).value;
      LifeIsCrashSafe(L, blocks, r, next, rest, room - |s.jobs|);
      VolumeAfterSame(L, r, VolumeAfter(d, Done(s)), AllDone(rest));
      VolumeAfterBoth(d, Done(s), AllDone(rest));
      SameVolumeTrans(L, Lived(L, blocks, r, next, rest).value, VolumeAfter(r, AllDone(rest)), VolumeAfter(d, AllDone(ss)));
    }
  }
}
