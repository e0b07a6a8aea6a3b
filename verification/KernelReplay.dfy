/**
The kernel's own replay of the journal (kernel/fs/ext2.c, journal_pass and
journal_recover): the same two passes as the boot ROM's, but the second writes
every surviving copy home, and the log is then marked empty.
*/
module KernelReplay {
  import opened Basics
  import opened BigEndian
  import opened JournalFormat
  import opened JournalLog
  import opened BootRom

  const REVOKE_ROOM: nat := 8192      // sixteen pages of 512 entries

  // ------------------------------------------------------------------
  // The kernel's table of revocations: one entry a block, the latest
  // ------------------------------------------------------------------

  function Find(t: seq<Revocation>, blk: u32): (i: nat)
    ensures i <= |t| && (i < |t| ==> t[i].blk == blk)
    ensures forall k :: 0 <= k < i ==> t[k].blk != blk
  {
    if t == [] || t[0].blk == blk then 0 else 1 + Find(t[1..], blk)
  }

  /** (s32)(a - b) > 0. */
  predicate Later(a: u32, b: u32) {
    a != b && !Before(a, b)
  }

  function Kept(t: seq<Revocation>, e: Revocation): seq<Revocation> {
    var i := Find(t, e.blk);
    if i < |t| then (if Later(e.seqno, t[i].seqno) then t[i := e] else t)
    else if |t| < REVOKE_ROOM then t + [e]
    else t
  }

  function KeptAll(t: seq<Revocation>, es: seq<Revocation>): seq<Revocation> {
    if es == [] then t else Kept(KeptAll(t, es[..|es| - 1]), es[|es| - 1])
  }

  /** How many transactions after `s0` a sequence number is. */
  function Offset(s0: u32, s: u32): nat {
    if s >= s0 then s - s0 else s - s0 + WORD
  }

  predicate InWindow(s0: u32, s: u32) {
    Offset(s0, s) < 0x8000_0000
  }

  lemma OffsetOrders(s0: u32, a: u32, b: u32)
    requires InWindow(s0, a) && InWindow(s0, b)
    ensures Before(a, b) <==> Offset(s0, a) < Offset(s0, b)
  {
  }

  function Max(a: int, b: int): int {
    if a >= b then a else b
  }

  /** How late the latest revocation of a block is, or -1. */
  function Latest(s0: u32, es: seq<Revocation>, blk: u32): int {
    if es == [] then -1
    else
      var e := es[|es| - 1];
      Max(Latest(s0, es[..|es| - 1], blk), if e.blk == blk then Offset(s0, e.seqno) else -1)
  }

  predicate AllInWindow(s0: u32, es: seq<Revocation>) {
    forall i :: 0 <= i < |es| ==> InWindow(s0, es[i].seqno)
  }

  lemma {:induction false} RevokedByLatest(s0: u32, es: seq<Revocation>, blk: u32, seqno: u32)
    requires AllInWindow(s0, es) && InWindow(s0, seqno)
    ensures Revoked(es, blk, seqno) <==> Latest(s0, es, blk) >= Offset(s0, seqno)
    decreases |es|
  {
    if es != [] {
      var n := |es| - 1;
      RevokedByLatest(s0, es[..n], blk, seqno);
      OffsetOrders(s0, es[n].seqno, seqno);
      assert es == es[..n] + [es[n]];
      RevokedConcat(es[..n], [es[n]], blk, seqno);
      assert Revoked([es[n]], blk, seqno) <==> [es[n]][0].blk == blk && !Before([es[n]][0].seqno, seqno);
    }
  }

  lemma {:induction false} LatestAtLeast(s0: u32, t: seq<Revocation>, i: nat)
    requires i < |t|
    ensures Latest(s0, t, t[i].blk) >= Offset(s0, t[i].seqno)
    decreases |t|
  {
    if i < |t| - 1 {
      LatestAtLeast(s0, t[..|t| - 1], i);
    }
  }

  lemma {:induction false} LatestUpdate(s0: u32, t: seq<Revocation>, i: nat, e: Revocation, blk: u32)
    requires i < |t| && t[i].blk == e.blk && Offset(s0, e.seqno) >= Offset(s0, t[i].seqno)
    ensures Latest(s0, t[i := e], blk) == Max(Latest(s0, t, blk), if blk == e.blk then Offset(s0, e.seqno) else -1)
    decreases |t|
  {
    var n := |t| - 1;
    LatestBounds(s0, t, blk);
    if i == n {
      assert t[i := e][..n] == t[..n];
    } else {
      assert t[i := e][..n] == t[..n][i := e];
      LatestUpdate(s0, t[..n], i, e, blk);
    }
  }

  lemma {:induction false} LatestBounds(s0: u32, t: seq<Revocation>, blk: u32)
    ensures Latest(s0, t, blk) >= -1
    decreases |t|
  {
    if t != [] {
      LatestBounds(s0, t[..|t| - 1], blk);
    }
  }

  lemma LatestKept(s0: u32, t: seq<Revocation>, e: Revocation, blk: u32)
    requires AllInWindow(s0, t) && InWindow(s0, e.seqno) && |t| < REVOKE_ROOM
    ensures AllInWindow(s0, Kept(t, e)) && |Kept(t, e)| <= |t| + 1
    ensures Latest(s0, Kept(t, e), blk) == Max(Latest(s0, t, blk), if blk == e.blk then Offset(s0, e.seqno) else -1)
  {
    var i := Find(t, e.blk);
    LatestBounds(s0, t, blk);
    if i < |t| {
      OffsetOrders(s0, e.seqno, t[i].seqno);
      if Later(e.seqno, t[i].seqno) {
        LatestUpdate(s0, t, i, e, blk);
      } else {
        LatestAtLeast(s0, t, i);
      }
    } else {
      assert (t + [e])[..|t|] == t;
    }
  }

  /** Keeping only the latest revocation of each block loses nothing. */
  lemma {:induction false} LatestKeptAll(s0: u32, es: seq<Revocation>, blk: u32)
    requires |es| <= REVOKE_ROOM && AllInWindow(s0, es)
    ensures |KeptAll([], es)| <= |es| && AllInWindow(s0, KeptAll([], es))
    ensures Latest(s0, KeptAll([], es), blk) == Latest(s0, es, blk)
    decreases |es|
  {
    if es != [] {
      var n := |es| - 1;
      LatestKeptAll(s0, es[..n], blk);
      LatestBounds(s0, es[..n], blk);
      LatestKept(s0, KeptAll([], es[..n]), es[n], blk);
    }
  }

  /** The kernel's table revokes exactly the copies that the ROM's list of every revocation does. */
  lemma SameRevoked(s0: u32, es: seq<Revocation>, blk: u32, seqno: u32)
    requires |es| <= REVOKE_ROOM && AllInWindow(s0, es) && InWindow(s0, seqno)
    ensures Revoked(KeptAll([], es), blk, seqno) <==> Revoked(es, blk, seqno)
  {
    LatestKeptAll(s0, es, blk);
    RevokedByLatest(s0, es, blk, seqno);
    RevokedByLatest(s0, KeptAll([], es), blk, seqno);
  }

  // ------------------------------------------------------------------
  // A pass of the kernel's, as a function of the disk it runs on
  // ------------------------------------------------------------------

  datatype State = State(disk: Disk, table: seq<Revocation>)

  datatype Outcome = IoError | Done(seqno: u32, st: State)

  /** jread: the log ends at `maxlen`. */
  function KRead(L: Log, d: Disk, pos: nat): Option<Block> {
    if pos < L.maxlen then ReadLog(L, d, pos) else None
  }

  /** One tag of a replay: its copy read from the log and written home. */
  function WriteHome(L: Log, blocks: u32, table: seq<Revocation>, d: Disk, c: Copy): Option<Disk> {
    if Revoked(table, c.blk, c.seqno) || c.blk >= blocks then Some(d)
    else match KRead(L, d, c.at)
      case None => None
      case Some(b) => Some(d[c.blk := Unescape(b, c.escape)])
  }

  function WriteAll(L: Log, blocks: u32, table: seq<Revocation>, d: Disk, copies: seq<Copy>): Option<Disk>
    decreases |copies|
  {
    if copies == [] then Some(d)
    else match WriteHome(L, blocks, table, d, copies[0])
      case None => None
      case Some(d') => WriteAll(L, blocks, table, d', copies[1..])
  }

  function Apply(L: Log, blocks: u32, replay: bool, st: State, r: Record): Option<State> {
    if replay && r.Descriptor? then
      match WriteAll(L, blocks, st.table, st.disk, r.copies)
      case None => None
      case Some(d) => Some(st.(disk := d))
    else if !replay && r.Revoke? then
      Some(st.(table := KeptAll(st.table, Stamp(r.blks, r.seqno))))
    else Some(st)
  }

  /** What reading the log at a position comes to. */
  datatype Answer = Unreadable | NoRecord | Is(r: Record)

  type Asker = (Disk, nat, u32) -> Answer

  function Ask(L: Log, d: Disk, pos: nat, seqno: u32): Answer {
    match KRead(L, d, pos)
    case None => Unreadable
    case Some(b) =>
      match Decode(L, b, pos, seqno)
      case None => NoRecord
      case Some(r) => Is(r)
  }

  function AskerOf(L: Log): Asker {
    (d: Disk, pos: nat, seqno: u32) => Ask(L, d, pos, seqno)
  }

  /** `ask` answers as this log does, on whatever disk. */
  ghost predicate Answers(ask: Asker, L: Log) {
    forall d: Disk, pos: nat, s: u32 {:trigger Ask(L, d, pos, s)} :: Ask(L, d, pos, s) == ask(d, pos, s)
  }

  /** Where a pass standing at `pos` leads. */
  function Continue(L: Log, ask: Asker, blocks: u32, replay: bool, end: u32, pos: nat, seqno: u32, steps: nat, st: State): Outcome
    decreases L.maxlen + 1 - steps
  {
    if steps > L.maxlen || (replay && !Before(seqno, end)) then Done(seqno, st)
    else match ask(st.disk, pos, seqno)
      case Unreadable => IoError
      case NoRecord => Done(seqno, st)
      case Is(r) =>
        match Apply(L, blocks, replay, st, r)
        case None => IoError
        case Some(st') => Continue(L, ask, blocks, replay, end, Ahead(L, pos, r), SeqAfter(r), steps + 1, st')
  }

  // ------------------------------------------------------------------
  // Replaying is writing the survivors home
  // ------------------------------------------------------------------

  /** Copies of blocks the volume has. */
  function Within(blocks: u32, copies: seq<Copy>): seq<Copy> {
    if copies == [] then []
    else Within(blocks, copies[..|copies| - 1]) + if copies[|copies| - 1].blk < blocks then [copies[|copies| - 1]] else []
  }

  lemma {:induction false} WithinConcat(blocks: u32, a: seq<Copy>, b: seq<Copy>)
    ensures Within(blocks, a + b) == Within(blocks, a) + Within(blocks, b)
    decreases |b|
  {
    if b == [] {
      assert a + b == a;
    } else {
      assert (a + b)[..|a + b| - 1] == a + b[..|b| - 1];
      WithinConcat(blocks, a, b[..|b| - 1]);
    }
  }

  lemma {:induction false} LiveConcat(table: seq<Revocation>, a: seq<Copy>, b: seq<Copy>)
    ensures Live(table, a + b) == Live(table, a) + Live(table, b)
    decreases |b|
  {
    if b == [] {
      assert a + b == a;
    } else {
      assert (a + b)[..|a + b| - 1] == a + b[..|b| - 1];
      LiveConcat(table, a, b[..|b| - 1]);
    }
  }

  /** What recovery writes: the copies that are not revoked, of blocks the volume has. */
  function Chosen(blocks: u32, table: seq<Revocation>, copies: seq<Copy>): seq<Copy> {
    Within(blocks, Live(table, copies))
  }

  lemma ChosenConcat(blocks: u32, table: seq<Revocation>, a: seq<Copy>, b: seq<Copy>)
    ensures Chosen(blocks, table, a + b) == Chosen(blocks, table, a) + Chosen(blocks, table, b)
  {
    LiveConcat(table, a, b);
    WithinConcat(blocks, Live(table, a), Live(table, b));
  }

  lemma ChosenOne(blocks: u32, table: seq<Revocation>, c: Copy)
    ensures Chosen(blocks, table, [c]) == if Revoked(table, c.blk, c.seqno) || c.blk >= blocks then [] else [c]
  {
    assert [c][..0] == [];
    assert Live(table, [c]) == Live(table, []) + if Revoked(table, c.blk, c.seqno) then [] else [c];
    assert Within(blocks, [c]) == Within(blocks, []) + if c.blk < blocks then [c] else [];
  }

  /** No copy is of one of the journal's own blocks. */
  predicate Outside(L: Log, copies: seq<Copy>) {
    forall i :: 0 <= i < |copies| ==> copies[i].blk !in L.where
  }

  predicate InLog(L: Log, copies: seq<Copy>) {
    forall i :: 0 <= i < |copies| ==> copies[i].at < L.maxlen
  }

  /** Every block of the log reads. */
  predicate Whole(L: Log, d: Disk) {
    forall pos: nat :: pos < L.maxlen ==> ReadLog(L, d, pos).Some?
  }

  lemma {:induction false} ReplayKeepsLog(L: Log, d: Disk, acc: seq<Copy>, pos: nat)
    requires Outside(L, acc)
    ensures ReadLog(L, Replay(L, d, acc), pos) == ReadLog(L, d, pos)
    decreases |acc|
  {
    if acc != [] {
      ReplayKeepsLog(L, d, acc[..|acc| - 1], pos);
    }
  }

  lemma WriteHomeReplays(L: Log, blocks: u32, table: seq<Revocation>, d: Disk, acc: seq<Copy>, c: Copy)
    requires ReadLog(L, d, c.at).Some? && c.at < L.maxlen && Outside(L, acc)
    ensures WriteHome(L, blocks, table, Replay(L, d, acc), c) == Some(Replay(L, d, acc + Chosen(blocks, table, [c])))
  {
    ChosenOne(blocks, table, c);
    ReplayKeepsLog(L, d, acc, c.at);
    if Revoked(table, c.blk, c.seqno) || c.blk >= blocks {
      assert acc + [] == acc;
    } else {
      assert (acc + [c])[..|acc|] == acc;
    }
  }

  lemma OutsideMore(L: Log, blocks: u32, table: seq<Revocation>, acc: seq<Copy>, c: Copy)
    requires Outside(L, acc) && c.blk !in L.where
    ensures Outside(L, acc + Chosen(blocks, table, [c]))
  {
    ChosenOne(blocks, table, c);
  }

  /** The copies `acc` are home already; a descriptor's are written after them. */
  lemma {:induction false} WriteAllReplays(L: Log, blocks: u32, table: seq<Revocation>, d: Disk, acc: seq<Copy>, copies: seq<Copy>)
    requires Whole(L, d) && Outside(L, acc) && Outside(L, copies) && InLog(L, copies)
    ensures Outside(L, acc + Chosen(blocks, table, copies))
    ensures WriteAll(L, blocks, table, Replay(L, d, acc), copies)
         == Some(Replay(L, d, acc + Chosen(blocks, table, copies)))
    decreases |copies|
  {
    if copies == [] {
      assert acc + Chosen(blocks, table, copies) == acc;
    } else {
      var c, rest := copies[0], copies[1..];
      var acc' := acc + Chosen(blocks, table, [c]);
      assert copies == [c] + rest;
      OutsideMore(L, blocks, table, acc, c);
      WriteHomeReplays(L, blocks, table, d, acc, c);
      WriteAllReplays(L, blocks, table, d, acc', rest);
      ChosenMore(blocks, table, acc, [c], rest);
    }
  }

  lemma AskIs(L: Log, d: Disk, acc: seq<Copy>, pos: nat, seqno: u32)
    requires Whole(L, d) && Outside(L, acc) && pos < L.maxlen
    ensures Ask(L, Replay(L, d, acc), pos, seqno)
         == var r := ReadRecord(L, d, pos, seqno); if r.None? then NoRecord else Is(r.value)
  {
    ReplayKeepsLog(L, d, acc, pos);
  }

  /** What a record read inside the log promises. */
  ghost predicate StaysInLog(L: Log, pos: nat, r: Record) {
    Ahead(L, pos, r) < L.maxlen && (r.Descriptor? ==> InLog(L, r.copies))
  }

  lemma RecordStaysInLog(L: Log, d: Disk, pos: nat, seqno: u32)
    requires Geometry(L) && pos < L.maxlen && ReadRecord(L, d, pos, seqno).Some?
    ensures StaysInLog(L, pos, ReadRecord(L, d, pos, seqno).value)
  {
    var r, b := ReadRecord(L, d, pos, seqno).value, ReadLog(L, d, pos).value;
    AfterStays(L, Next(L, pos), if r.Descriptor? then |r.copies| else 0);
    if r.Descriptor? {
      forall i | 0 <= i < |r.copies|
        ensures r.copies[i].at < L.maxlen
      {
        PlaceAt(L, TagList(b, HEADER), Next(L, pos), seqno, i);
        AfterStays(L, Next(L, pos), i);
      }
    }
  }

  /** All that the passes need to know of how the log is read while copies are being written home. */
  ghost predicate Faithful(L: Log, d: Disk, ask: Asker, read: Reader) {
    && Truthful(read)
    && (forall acc: seq<Copy>, pos: nat, s: u32 ::
          Outside(L, acc) && pos < L.maxlen
          ==> ask(Replay(L, d, acc), pos, s) == if read(pos, s).None? then NoRecord else Is(read(pos, s).value))
    && (forall pos: nat, s: u32 :: pos < L.maxlen && read(pos, s).Some? ==> StaysInLog(L, pos, read(pos, s).value))
  }

  lemma FaithfulReaders(L: Log, d: Disk)
    requires Geometry(L) && Whole(L, d)
    ensures Faithful(L, d, AskerOf(L), ReaderOf(L, d))
  {
    ReaderIsTruthful(L, d);
    var ask, read := AskerOf(L), ReaderOf(L, d);
    forall acc: seq<Copy>, pos: nat, s: u32 | Outside(L, acc) && pos < L.maxlen
      ensures ask(Replay(L, d, acc), pos, s) == if read(pos, s).None? then NoRecord else Is(read(pos, s).value)
    {
      AskIs(L, d, acc, pos, s);
    }
    forall pos: nat, s: u32 | pos < L.maxlen && read(pos, s).Some?
      ensures StaysInLog(L, pos, read(pos, s).value)
    {
      RecordStaysInLog(L, d, pos, s);
    }
  }

  lemma {:induction false} CopiesCons(r: Record, rest: seq<Record>)
    ensures Copies([r] + rest) == CopiesIn(r) + Copies(rest)
    decreases |rest|
  {
    if rest == [] {
      assert [r] + rest == [r] && [r][..0] == [];
    } else {
      var n := |rest| - 1;
      var front, last := Copies(rest[..n]), CopiesIn(rest[n]);
      assert ([r] + rest)[..n + 1] == [r] + rest[..n];
      CopiesCons(r, rest[..n]);
      assert CopiesIn(r) + front + last == CopiesIn(r) + (front + last);
    }
  }

  lemma {:induction false} KeptConcat(t: seq<Revocation>, a: seq<Revocation>, b: seq<Revocation>)
    ensures KeptAll(t, a + b) == KeptAll(KeptAll(t, a), b)
    decreases |b|
  {
    if b == [] {
      assert a + b == a;
    } else {
      assert (a + b)[..|a + b| - 1] == a + b[..|b| - 1];
      KeptConcat(t, a, b[..|b| - 1]);
    }
  }

  // Running totals along a list of records.

  function EndOf(seqno: u32, recs: seq<Record>): u32
    decreases |recs|
  {
    if recs == [] then seqno else EndOf(SeqAfter(recs[0]), recs[1..])
  }

  function Gathered(t: seq<Revocation>, recs: seq<Record>): seq<Revocation>
    decreases |recs|
  {
    if recs == [] then t else Gathered(KeptAll(t, RevocationsIn(recs[0])), recs[1..])
  }

  function Written(blocks: u32, t: seq<Revocation>, acc: seq<Copy>, recs: seq<Record>): seq<Copy>
    decreases |recs|
  {
    if recs == [] then acc else Written(blocks, t, acc + Chosen(blocks, t, CopiesIn(recs[0])), recs[1..])
  }

  lemma {:induction false} EndOfIs(seqno: u32, recs: seq<Record>)
    requires Numbered(recs, seqno)
    ensures EndOf(seqno, recs) == Plus(seqno, Commits(recs))
    decreases |recs|
  {
    if recs != [] {
      NumberedTail(recs, seqno);
      EndFromTail(recs, seqno);
      EndOfIs(SeqAfter(recs[0]), recs[1..]);
    }
  }

  lemma {:induction false} GatheredIs(t: seq<Revocation>, recs: seq<Record>)
    ensures Gathered(t, recs) == KeptAll(t, Revocations(recs))
    decreases |recs|
  {
    if recs != [] {
      var r, rest := recs[0], recs[1..];
      GatheredIs(KeptAll(t, RevocationsIn(r)), rest);
      assert recs == [r] + rest;
      RevocationsConcat([r], rest);
      assert [r][..0] == [] && Revocations([r]) == RevocationsIn(r);
      KeptConcat(t, RevocationsIn(r), Revocations(rest));
    }
  }

  lemma {:induction false} WrittenIs(blocks: u32, t: seq<Revocation>, acc: seq<Copy>, recs: seq<Record>)
    ensures Written(blocks, t, acc, recs) == acc + Chosen(blocks, t, Copies(recs))
    decreases |recs|
  {
    if recs == [] {
      assert acc + Chosen(blocks, t, []) == acc;
    } else {
      var r, rest := recs[0], recs[1..];
      WrittenIs(blocks, t, acc + Chosen(blocks, t, CopiesIn(r)), rest);
      assert recs == [r] + rest;
      CopiesCons(r, rest);
      ChosenMore(blocks, t, acc, CopiesIn(r), Copies(rest));
    }
  }

  /** Pass 0 reaches the end of the log and has seen every revocation in it. */
  lemma {:induction false} ScanPass(L: Log, ask: Asker, blocks: u32, d: Disk, read: Reader, pos: nat, seqno: u32,
                                    steps: nat, t: seq<Revocation>)
    requires pos < L.maxlen && Faithful(L, d, ask, read)
    ensures var recs := Scan(L, read, pos, seqno, steps);
            Continue(L, ask, blocks, false, 0, pos, seqno, steps, State(d, t))
            == Done(EndOf(seqno, recs), State(d, Gathered(t, recs)))
    decreases L.maxlen + 1 - steps
  {
    AskFirst(L, d, ask, read, pos, seqno);
    if steps <= L.maxlen && read(pos, seqno).Some? {
      var r := read(pos, seqno).value;
      ApplyScans(L, blocks, d, t, r);
      ScanPass(L, ask, blocks, d, read, Ahead(L, pos, r), SeqAfter(r), steps + 1, KeptAll(t, RevocationsIn(r)));
    }
  }

  function RevocationsIn(r: Record): seq<Revocation> {
    if r.Revoke? then Stamp(r.blks, r.seqno) else []
  }

  lemma ApplyScans(L: Log, blocks: u32, d: Disk, t: seq<Revocation>, r: Record)
    ensures Apply(L, blocks, false, State(d, t), r) == Some(State(d, KeptAll(t, RevocationsIn(r))))
  {
  }

  lemma AskFirst(L: Log, d: Disk, ask: Asker, read: Reader, pos: nat, seqno: u32)
    requires pos < L.maxlen && Faithful(L, d, ask, read)
    ensures ask(d, pos, seqno) == if read(pos, seqno).None? then NoRecord else Is(read(pos, seqno).value)
    ensures read(pos, seqno).Some? ==>
              Carries(read(pos, seqno).value, seqno) && StaysInLog(L, pos, read(pos, seqno).value)
  {
    assert ask(Replay(L, d, []), pos, seqno) == ask(d, pos, seqno);
  }

  lemma UntilStep(L: Log, read: Reader, end: u32, pos: nat, seqno: u32, steps: nat)
    requires steps <= L.maxlen && Before(seqno, end) && read(pos, seqno).Some?
    ensures var r, recs := read(pos, seqno).value, Until(Scan(L, read, pos, seqno, steps), seqno, end);
            recs != [] && recs[0] == r
            && recs[1..] == Until(Scan(L, read, Ahead(L, pos, r), SeqAfter(r), steps + 1), SeqAfter(r), end)
  {
  }

  lemma OutsideTail(L: Log, recs: seq<Record>)
    requires OutsideAll(L, recs) && recs != []
    ensures Outside(L, CopiesIn(recs[0])) && OutsideAll(L, recs[1..])
  {
  }

  predicate OutsideAll(L: Log, recs: seq<Record>) {
    forall i :: 0 <= i < |recs| ==> Outside(L, CopiesIn(recs[i]))
  }

  /** Pass 1 writes home, after `acc`, the chosen copies of the records it visits. */
  lemma {:induction false} ReplayPass(L: Log, ask: Asker, blocks: u32, d: Disk, read: Reader, t: seq<Revocation>,
                                      acc: seq<Copy>, end: u32, pos: nat, seqno: u32, steps: nat)
    requires Whole(L, d) && pos < L.maxlen && Faithful(L, d, ask, read) && Outside(L, acc)
    requires OutsideAll(L, Until(Scan(L, read, pos, seqno, steps), seqno, end))
    ensures var recs := Until(Scan(L, read, pos, seqno, steps), seqno, end);
            Continue(L, ask, blocks, true, end, pos, seqno, steps, State(Replay(L, d, acc), t))
            == Done(EndOf(seqno, recs), State(Replay(L, d, Written(blocks, t, acc, recs)), t))
    decreases L.maxlen + 1 - steps
  {
    AskLater(L, d, ask, read, acc, pos, seqno);
    if steps <= L.maxlen && Before(seqno, end) && read(pos, seqno).Some? {
      var r := read(pos, seqno).value;
      UntilStep(L, read, end, pos, seqno, steps);
      OutsideTail(L, Until(Scan(L, read, pos, seqno, steps), seqno, end));
      ApplyReplays(L, blocks, t, d, acc, r);
      var all := acc + Chosen(blocks, t, CopiesIn(r));
      assert Continue(L, ask, blocks, true, end, pos, seqno, steps, State(Replay(L, d, acc), t))
          == Continue(L, ask, blocks, true, end, Ahead(L, pos, r), SeqAfter(r), steps + 1, State(Replay(L, d, all), t));
      ReplayPass(L, ask, blocks, d, read, t, all, end, Ahead(L, pos, r), SeqAfter(r), steps + 1);
    }
  }

  function CopiesIn(r: Record): seq<Copy> {
    if r.Descriptor? then r.copies else []
  }

  lemma ChosenMore(blocks: u32, t: seq<Revocation>, acc: seq<Copy>, a: seq<Copy>, b: seq<Copy>)
    ensures acc + Chosen(blocks, t, a) + Chosen(blocks, t, b) == acc + Chosen(blocks, t, a + b)
  {
    ChosenConcat(blocks, t, a, b);
  }

  lemma ApplyReplays(L: Log, blocks: u32, t: seq<Revocation>, d: Disk, acc: seq<Copy>, r: Record)
    requires Whole(L, d) && Outside(L, acc) && Outside(L, CopiesIn(r)) && (r.Descriptor? ==> InLog(L, r.copies))
    ensures var all := acc + Chosen(blocks, t, CopiesIn(r));
            && Outside(L, all)
            && Apply(L, blocks, true, State(Replay(L, d, acc), t), r) == Some(State(Replay(L, d, all), t))
  {
    WriteAllReplays(L, blocks, t, d, acc, CopiesIn(r));
  }

  lemma AskLater(L: Log, d: Disk, ask: Asker, read: Reader, acc: seq<Copy>, pos: nat, seqno: u32)
    requires pos < L.maxlen && Faithful(L, d, ask, read) && Outside(L, acc)
    ensures ask(Replay(L, d, acc), pos, seqno) == if read(pos, seqno).None? then NoRecord else Is(read(pos, seqno).value)
    ensures read(pos, seqno).Some? ==>
              Carries(read(pos, seqno).value, seqno) && StaysInLog(L, pos, read(pos, seqno).value)
  {
  }

  // ------------------------------------------------------------------
  // Recovery
  // ------------------------------------------------------------------

  /** A superblock with another start of the log and another transaction expected there. */
  function Marked(b: Block, start: u32, seqno: u32): (r: Block)
    requires |b| >= 1024
    ensures |r| == |b|
  {
    Put32(Put32(b, JS_START, start), JS_SEQUENCE, seqno)
  }

  /** A mark is two words, the number and then the start, and nothing else is touched. */
  lemma MarkedReads(sb: Block, start: u32, seqno: u32)
    requires |sb| >= 1024
    ensures Be32(Marked(sb, start, seqno), 28) == start && Be32(Marked(sb, start, seqno), 24) == seqno
    ensures Marked(sb, start, seqno)[..24] == sb[..24] && Marked(sb, start, seqno)[32..] == sb[32..]
  {
    BeSame(Put32(sb, JS_START, start), Marked(sb, start, seqno), JS_START, 4);
  }

  /** Both passes over the log, as values. */
  function Passes(L: Log, ask: Asker, blocks: u32, d: Disk, start: nat, seqno: u32): Outcome {
    match Continue(L, ask, blocks, false, 0, start, seqno, 0, State(d, []))
    case IoError => IoError
    case Done(end, st) =>
      if end == seqno then Done(end, st)
      else match Continue(L, ask, blocks, true, end, start, seqno, 0, st)
        case IoError => IoError
        case Done(_, st') => Done(end, st')
  }

  /** Everything recovery is to write home. */
  function ToWrite(L: Log, blocks: u32, d: Disk, start: nat, seqno: u32): seq<Copy> {
    Within(blocks, Survivors(L, d, start, seqno))
  }

  lemma {:induction false} NumberedRevocations(recs: seq<Record>, all: seq<Record>, seqno: u32, n: nat)
    requires Numbered(all, seqno) && |all| < 0x8000_0000 && n <= |all| && recs == all[..n]
    ensures AllInWindow(seqno, Revocations(recs))
    ensures forall c :: c in Copies(recs) ==> InWindow(seqno, c.seqno)
    decreases n
  {
    if n > 0 {
      var before := all[..n - 1];
      assert recs[..n - 1] == before;
      NumberedRevocations(before, all, seqno, n - 1);
      var r := all[n - 1];
      assert Carries(r, Plus(seqno, Commits(before)));
      CommitsBound(before);
      PlusWraps(seqno, Commits(before));
      assert InWindow(seqno, r.seqno);
    }
  }

  /** The kernel's own table chooses the copies that the list of all revocations would. */
  lemma SameChoice(L: Log, blocks: u32, d: Disk, start: nat, seqno: u32)
    requires Geometry(L) && Formatted(L, d) && |Revocations(Scan(L, ReaderOf(L, d), start, seqno, 0))| <= REVOKE_ROOM
    ensures var recs := Scan(L, ReaderOf(L, d), start, seqno, 0);
            Chosen(blocks, KeptAll([], Revocations(recs)), Copies(Committed(recs))) == ToWrite(L, blocks, d, start, seqno)
  {
    var recs := Scan(L, ReaderOf(L, d), start, seqno, 0);
    var es := Revocations(recs);
    ScanIsShort(L, d, start, seqno);
    ReaderIsTruthful(L, d);
    ScanNumbered(L, ReaderOf(L, d), start, seqno, 0);
    CommittedIsPrefix(recs);
    assert recs[..|recs|] == recs;
    NumberedRevocations(recs, recs, seqno, |recs|);
    NumberedRevocations(Committed(recs), recs, seqno, |Committed(recs)|);
    forall c | c in Copies(Committed(recs))
      ensures Revoked(KeptAll([], es), c.blk, c.seqno) <==> Revoked(es, c.blk, c.seqno)
    {
      SameRevoked(seqno, es, c.blk, c.seqno);
    }
    LiveUnchanged(KeptAll([], es), es, Copies(Committed(recs)));
  }

  /** A log recovery can read whole, with room for its revocations and no copy of the journal itself. */
  predicate Recoverable(L: Log, d: Disk, start: nat, seqno: u32) {
    var recs := Scan(L, ReaderOf(L, d), start, seqno, 0);
    && Geometry(L) && Formatted(L, d) && Whole(L, d) && start < L.maxlen
    && |Revocations(recs)| <= REVOKE_ROOM
    && OutsideAll(L, Committed(recs))
  }

  /** The kernel's two passes write home exactly the committed, unrevoked copies, in log order. */
  lemma PassesReplay(L: Log, blocks: u32, d: Disk, start: nat, seqno: u32)
    requires Recoverable(L, d, start, seqno)
    ensures var recs := Scan(L, ReaderOf(L, d), start, seqno, 0);
            Passes(L, AskerOf(L), blocks, d, start, seqno)
            == Done(Plus(seqno, Commits(recs)),
                    State(Replay(L, d, ToWrite(L, blocks, d, start, seqno)), KeptAll([], Revocations(recs))))
  {
    var ask, read := AskerOf(L), ReaderOf(L, d);
    FaithfulReaders(L, d);
    CommittedPart(L, d, start, seqno);
    SameChoice(L, blocks, d, start, seqno);
    ScanNumbered(L, read, start, seqno, 0);
    TwoPasses(L, ask, blocks, d, read, start, seqno);
  }

  lemma TwoPasses(L: Log, ask: Asker, blocks: u32, d: Disk, read: Reader, start: nat, seqno: u32)
    requires Whole(L, d) && start < L.maxlen && Faithful(L, d, ask, read)
    requires var recs := Scan(L, read, start, seqno, 0);
             var end := Plus(seqno, Commits(recs));
             && OutsideAll(L, Committed(recs)) && Numbered(recs, seqno)
             && Until(recs, seqno, end) == Committed(recs) && Commits(Committed(recs)) == Commits(recs)
             && (end == seqno ==> Committed(recs) == [])
    ensures var recs := Scan(L, read, start, seqno, 0);
            var t := KeptAll([], Revocations(recs));
            Passes(L, ask, blocks, d, start, seqno)
            == Done(Plus(seqno, Commits(recs)), State(Replay(L, d, Chosen(blocks, t, Copies(Committed(recs)))), t))
  {
    var recs := Scan(L, read, start, seqno, 0);
    var end, t := Plus(seqno, Commits(recs)), KeptAll([], Revocations(recs));
    ScanPass(L, ask, blocks, d, read, start, seqno, 0, []);
    EndOfIs(seqno, recs);
    GatheredIs([], recs);
    var writes := Chosen(blocks, t, Copies(Committed(recs)));
    if end == seqno {
      assert writes == [];
    } else {
      ReplayPass(L, ask, blocks, d, read, t, [], end, start, seqno, 0);
      WrittenIs(blocks, t, [], Committed(recs));
      assert [] + writes == writes;
      CommittedNumbered(recs, seqno);
      EndOfIs(seqno, Committed(recs));
    }
  }

  lemma CommittedNumbered(recs: seq<Record>, seqno: u32)
    requires Numbered(recs, seqno)
    ensures Numbered(Committed(recs), seqno)
  {
    CommittedIsPrefix(recs);
    var n := |Committed(recs)|;
    assert forall i :: 0 <= i < n ==> recs[..n][..i] == recs[..i];
  }

  /** What recovery makes of the volume: the outcome of the passes, with the log marked empty. */
  function Recovered(L: Log, blocks: u32, d: Disk): Option<Disk> {
    match KRead(L, d, 0)
    case None => None
    case Some(sb) =>
      if |sb| < 1024 then None
      else if Be32(sb, JS_START) == 0 then Some(d)
      else RecoveredFrom(L, blocks, d, Be32(sb, JS_START), Be32(sb, JS_SEQUENCE))
  }

  function RecoveredFrom(L: Log, blocks: u32, d: Disk, start: nat, seqno: u32): Option<Disk> {
    match Passes(L, AskerOf(L), blocks, d, start, seqno)
    case IoError => None
    case Done(end, st) => MarkLog(L, st.disk, 0, end)
  }

  /** jsb_set: the superblock read, marked and written back. */
  function MarkLog(L: Log, d: Disk, start: u32, seqno: u32): Option<Disk> {
    match KRead(L, d, 0)
    case None => None
    case Some(sb) => if |sb| >= 1024 then Some(d[Home(L, 0) := Marked(sb, start, seqno)]) else None
  }

  /** A disk recovery has nothing to do on, or can do all of it. */
  predicate Sane(L: Log, d: Disk) {
    var sb := KRead(L, d, 0);
    && sb.Some? && |sb.value| >= 1024
    && (Be32(sb.value, JS_START) == 0 || Recoverable(L, d, Be32(sb.value, JS_START), Be32(sb.value, JS_SEQUENCE)))
  }

  /**
  The boot ROM and the kernel agree: where the ROM builds its map and the
  kernel's recovery succeeds, every block of the volume reads through the map
  as it reads from the disk the kernel leaves.
  */
  lemma RomMatchesKernel(L: Log, blocks: u32, d: Disk, start: u32, seqno: u32, blk: u32)
    requires Recoverable(L, d, start, seqno) && start != 0 && !TooMuchToRead(L, d, start, seqno)
    requires KRead(L, d, 0).Some? && Be32(KRead(L, d, 0).value, JS_START) == start
    requires Be32(KRead(L, d, 0).value, JS_SEQUENCE) == seqno
    requires blk < blocks && blk !in L.where
    ensures Recovered(L, blocks, d).Some?
    ensures Through(OverlaidFrom(L, d, start, seqno), d, blk) == Holding(Recovered(L, blocks, d).value, blk)
  {
    var recs := Scan(L, ReaderOf(L, d), start, seqno, 0);
    var all, writes := Survivors(L, d, start, seqno), ToWrite(L, blocks, d, start, seqno);
    PassesReplay(L, blocks, d, start, seqno);
    CommittedOutside(L, Committed(recs));
    LiveOutside(L, Revocations(recs), Copies(Committed(recs)));
    WithinOutside(L, blocks, all);
    ReplayKeepsLog(L, d, writes, 0);
    SurvivorsReadable(L, d, start, seqno);
    NewestIsThere(all, blk);
    OverlayEqualsReplay(L, d, start, seqno, blk);
    ReplayReads(L, d, all, blk);
    ReplayReads(L, d, writes, blk);
    WithinNewest(blocks, all, blk);
  }

  lemma {:induction false} WithinNewest(blocks: u32, copies: seq<Copy>, blk: u32)
    requires blk < blocks
    ensures Newest(Within(blocks, copies), blk) == Newest(copies, blk)
    decreases |copies|
  {
    if copies != [] {
      var before, c := copies[..|copies| - 1], copies[|copies| - 1];
      WithinNewest(blocks, before, blk);
      if c.blk < blocks {
        NewestLast(Within(blocks, before), c, blk);
      } else {
        assert Within(blocks, copies) == Within(blocks, before);
      }
    }
  }

  lemma {:induction false} CommittedOutside(L: Log, recs: seq<Record>)
    requires OutsideAll(L, recs)
    ensures Outside(L, Copies(recs))
    decreases |recs|
  {
    if recs != [] {
      CommittedOutside(L, recs[..|recs| - 1]);
      assert Outside(L, CopiesIn(recs[|recs| - 1]));
    }
  }

  lemma {:induction false} LiveOutside(L: Log, t: seq<Revocation>, copies: seq<Copy>)
    requires Outside(L, copies)
    ensures Outside(L, Live(t, copies))
    decreases |copies|
  {
    if copies != [] {
      LiveOutside(L, t, copies[..|copies| - 1]);
    }
  }

  lemma {:induction false} WithinOutside(L: Log, blocks: u32, copies: seq<Copy>)
    requires Outside(L, copies)
    ensures Outside(L, Within(blocks, copies))
    decreases |copies|
  {
    if copies != [] {
      WithinOutside(L, blocks, copies[..|copies| - 1]);
    }
  }

  lemma SurvivorsReadable(L: Log, d: Disk, start: nat, seqno: u32)
    requires Geometry(L) && Whole(L, d) && start < L.maxlen
    ensures Readable(L, d, Survivors(L, d, start, seqno))
  {
    var read := ReaderOf(L, d);
    var recs := Scan(L, read, start, seqno, 0);
    FaithfulReaders(L, d);
    ScanInLog(L, d, AskerOf(L), read, start, seqno, 0);
    CommittedIsPrefix(recs);
    CopiesInLog(L, Committed(recs));
    forall i | 0 <= i < |Survivors(L, d, start, seqno)|
      ensures ReadLog(L, d, Survivors(L, d, start, seqno)[i].at).Some?
    {
      var c := Survivors(L, d, start, seqno)[i];
      assert c in Survivors(L, d, start, seqno);
      LiveIs(Revocations(recs), Copies(Committed(recs)), c);
    }
  }

  predicate InLogAll(L: Log, recs: seq<Record>) {
    forall i :: 0 <= i < |recs| ==> InLog(L, CopiesIn(recs[i]))
  }

  lemma {:induction false} ScanInLog(L: Log, d: Disk, ask: Asker, read: Reader, pos: nat, seqno: u32, steps: nat)
    requires pos < L.maxlen && Faithful(L, d, ask, read)
    ensures InLogAll(L, Scan(L, read, pos, seqno, steps))
    decreases L.maxlen + 1 - steps
  {
    if steps <= L.maxlen && read(pos, seqno).Some? {
      AskFirst(L, d, ask, read, pos, seqno);
      var r := read(pos, seqno).value;
      ScanInLog(L, d, ask, read, Ahead(L, pos, r), SeqAfter(r), steps + 1);
    }
  }

  lemma {:induction false} CopiesInLog(L: Log, recs: seq<Record>)
    requires InLogAll(L, recs)
    ensures InLog(L, Copies(recs))
    decreases |recs|
  {
    if recs != [] {
      CopiesInLog(L, recs[..|recs| - 1]);
      assert InLog(L, CopiesIn(recs[|recs| - 1]));
    }
  }

  // ------------------------------------------------------------------
  // The kernel's code
  // ------------------------------------------------------------------

  /** The copies still to come in a descriptor block, from the tag at byte `t` on. */
  lemma CopiesFrom(L: Log, b: Block, t: nat, pos: nat, seqno: u32)
    requires t + TAG_BYTES <= |b|
    ensures var tag := TagAt(b, t);
            Place(L, TagList(b, t), pos, seqno)
            == [Copy(tag.blk, pos, tag.escape, seqno)]
               + (if tag.last then [] else Place(L, TagList(b, t + TagWidth(tag)), Next(L, pos), seqno))
  {
    TagStep(b, t);
    var tags := TagList(b, t);
    assert tags == [tags[0]] + tags[1..];
    PlaceCons(L, tags[0], tags[1..], pos, seqno);
  }

  /** A copy written home by the pass that replays, and only looked at by the one that does not. */
  function MaybeWrite(L: Log, blocks: u32, t: seq<Revocation>, replay: bool, d: Disk, c: Copy): Option<Disk> {
    if replay then WriteHome(L, blocks, t, d, c) else Some(d)
  }

  function MaybeWriteAll(L: Log, blocks: u32, t: seq<Revocation>, replay: bool, d: Disk, cs: seq<Copy>): Option<Disk>
    decreases |cs|
  {
    if cs == [] then Some(d)
    else match MaybeWrite(L, blocks, t, replay, d, cs[0])
      case None => None
      case Some(d') => MaybeWriteAll(L, blocks, t, replay, d', cs[1..])
  }

  lemma {:induction false} MaybeWriteAllIs(L: Log, blocks: u32, t: seq<Revocation>, replay: bool, d: Disk, cs: seq<Copy>)
    ensures MaybeWriteAll(L, blocks, t, replay, d, cs) == if replay then WriteAll(L, blocks, t, d, cs) else Some(d)
    decreases |cs|
  {
    if cs != [] {
      var o := MaybeWrite(L, blocks, t, replay, d, cs[0]);
      if o.Some? {
        MaybeWriteAllIs(L, blocks, t, replay, o.value, cs[1..]);
      }
    }
  }

  class Volume {
    const log: Log
    const blocks: u32
    var disk: Disk
    var revokes: seq<Revocation>

    ghost predicate Valid()
      reads this
    {
      Geometry(log) && Formatted(log, disk) && |revokes| <= REVOKE_ROOM
    }

    constructor (log: Log, blocks: u32, disk: Disk)
      requires Geometry(log) && Formatted(log, disk)
      ensures Valid() && this.log == log && this.blocks == blocks && this.disk == disk && revokes == []
    {
      this.log, this.blocks, this.disk, revokes := log, blocks, disk, [];
    }

    method RevokeAdd(blk: u32, seqno: u32)
      requires Valid()
      modifies this`revokes
      ensures Valid() && revokes == Kept(old(revokes), Revocation(blk, seqno))
    {
      var i := 0;
      while i < |revokes|
        invariant i <= |revokes| && forall k :: 0 <= k < i ==> revokes[k].blk != blk
        invariant revokes == old(revokes)
      {
        if revokes[i].blk == blk {
          if Later(seqno, revokes[i].seqno) {
            revokes := revokes[i := Revocation(blk, seqno)];
          }
          return;
        }
        i := i + 1;
      }
      if |revokes| >= REVOKE_ROOM {
        return;
      }
      revokes := revokes + [Revocation(blk, seqno)];
    }

    method IsRevoked(blk: u32, seqno: u32) returns (r: bool)
      ensures r == Revoked(revokes, blk, seqno)
    {
      for i := 0 to |revokes|
        invariant forall k :: 0 <= k < i ==> !(revokes[k].blk == blk && !Before(revokes[k].seqno, seqno))
      {
        if revokes[i].blk == blk && !Before(revokes[i].seqno, seqno) {
          return true;
        }
      }
      return false;
    }

    method ReplayCopy(blk: u32, pos: nat, escape: bool, seqno: u32) returns (ok: bool)
      requires Valid()
      modifies this`disk
      ensures Valid()
      ensures WriteHome(log, blocks, revokes, old(disk), Copy(blk, pos, escape, seqno)) == if ok then Some(disk) else None
    {
      var gone := IsRevoked(blk, seqno);
      if !gone && blk < blocks {
        if pos >= log.maxlen || Home(log, pos) == 0 || Home(log, pos) !in disk {
          return false;
        }
        disk := disk[blk := Unescape(disk[Home(log, pos)], escape)];
      }
      return true;
    }

    method VisitCopy(blk: u32, pos: nat, escape: bool, seqno: u32, replay: bool) returns (ok: bool)
      requires Valid()
      modifies this`disk
      ensures Valid()
      ensures MaybeWrite(log, blocks, revokes, replay, old(disk), Copy(blk, pos, escape, seqno)) == if ok then Some(disk) else None
    {
      ok := true;
      if replay {
        ok := ReplayCopy(blk, pos, escape, seqno);
      }
    }

    method ReadTag(b: Block, t: nat, pos: nat, seqno: u32, replay: bool) returns (t': nat, last: bool, ok: bool)
      requires Valid() && t + TAG_BYTES <= |b|
      modifies this`disk
      ensures Valid() && t' == t + TagWidth(TagAt(b, t)) && last == TagAt(b, t).last
      ensures var c := Copy(TagAt(b, t).blk, pos, TagAt(b, t).escape, seqno);
              MaybeWrite(log, blocks, revokes, replay, old(disk), c) == if ok then Some(disk) else None
    {
      var tag := TagAt(b, t);
      t', last := t + TAG_BYTES, tag.last;
      if !tag.sameUuid {
        t' := t' + UUID_BYTES;
      }
      ok := VisitCopy(tag.blk, pos, tag.escape, seqno, replay);
    }

    method ReadTags(b: Block, start: nat, seqno: u32, replay: bool) returns (pos: nat, ok: bool)
      requires Valid() && |b| == log.bs
      modifies this`disk
      ensures Valid()
      ensures var copies := Place(log, TagList(b, HEADER), start, seqno);
              && (ok ==> pos == After(log, start, |copies|))
              && (if replay then WriteAll(log, blocks, revokes, old(disk), copies) == (if ok then Some(disk) else None)
                  else ok && disk == old(disk))
    {
      ghost var rest := Place(log, TagList(b, HEADER), start, seqno);
      ghost var goal, outcome := After(log, start, |rest|), MaybeWriteAll(log, blocks, revokes, replay, disk, rest);
      MaybeWriteAllIs(log, blocks, revokes, replay, disk, rest);
      var t, last := HEADER, false;
      pos, ok := start, true;
      while !last && t + TAG_BYTES <= log.bs
        invariant Valid() && ok && After(log, pos, |rest|) == goal
        invariant rest == if last then [] else Place(log, TagList(b, t), pos, seqno)
        invariant outcome == MaybeWriteAll(log, blocks, revokes, replay, disk, rest)
        decreases |b| - t
      {
        AfterRest(log, b, t, pos, seqno);
        t, last, ok := OneTag(b, t, pos, seqno, replay, rest, outcome);
        if !ok {
          return;
        }
        pos, rest := Next(log, pos), rest[1..];
      }
    }

    lemma AfterRest(L: Log, b: Block, t: nat, pos: nat, seqno: u32)
      requires t + TAG_BYTES <= |b|
      ensures var rest := Place(L, TagList(b, t), pos, seqno); rest != [] && After(L, Next(L, pos), |rest| - 1) == After(L, pos, |rest|)
    {
      CopiesFrom(L, b, t, pos, seqno);
      AfterCons(L, pos, |Place(L, TagList(b, t), pos, seqno)| - 1);
    }

    /** One tag of those still to come. */
    method OneTag(b: Block, t: nat, pos: nat, seqno: u32, replay: bool, ghost rest: seq<Copy>, ghost outcome: Option<Disk>)
      returns (t': nat, last: bool, ok: bool)
      requires Valid() && |b| == log.bs && t + TAG_BYTES <= |b| && rest == Place(log, TagList(b, t), pos, seqno)
      requires outcome == MaybeWriteAll(log, blocks, revokes, replay, disk, rest)
      modifies this`disk
      ensures Valid() && t' > t && rest != []
      ensures ok ==> && rest[1..] == (if last then [] else Place(log, TagList(b, t'), Next(log, pos), seqno))
                     && outcome == MaybeWriteAll(log, blocks, revokes, replay, disk, rest[1..])
      ensures !ok ==> outcome == None
    {
      CopiesFrom(log, b, t, pos, seqno);
      t', last, ok := ReadTag(b, t, pos, seqno, replay);
    }

    method GatherRevokes(b: Block, seqno: u32)
      requires Valid() && |b| == log.bs
      modifies this`revokes
      ensures Valid() && revokes == KeptAll(old(revokes), Stamp(RevokedIn(b), seqno))
    {
      var used := Be32(b, HEADER);
      var r := HEADER + 4;
      ghost var blks := RevokedIn(b);
      ghost var es := Stamp(blks, seqno);
      ghost var done := 0;
      assert es[..0] == [];
      while r + 4 <= used && r + 4 <= log.bs
        invariant Valid() && done <= |blks| && blks[done..] == RevokedFrom(b, r, used)
        invariant revokes == KeptAll(old(revokes), es[..done])
        decreases log.bs - r
      {
        assert blks[done] == Be32(b, r);
        assert es[..done + 1][..done] == es[..done];
        RevokeAdd(Be32(b, r), seqno);
        done := done + 1;
        r := r + 4;
      }
      assert es[..done] == es;
    }

    /** The body of the pass. */
    method Visit(pos: nat, seqno: u32, replay: bool, ghost ask: Asker)
      returns (answer: Option<bool>, pos': nat, seqno': u32)
      requires Valid() && Answers(ask, log)
      modifies this`disk, this`revokes
      ensures Valid()
      ensures match ask(old(disk), pos, seqno)
              case Unreadable => answer == None
              case NoRecord => answer == Some(false) && pos' == pos && seqno' == seqno
                               && disk == old(disk) && revokes == old(revokes)
              case Is(r) =>
                var o := Apply(log, blocks, replay, old(State(disk, revokes)), r);
                if o.None? then answer == None
                else answer == Some(true) && State(disk, revokes) == o.value
                     && pos' == Ahead(log, pos, r) && seqno' == SeqAfter(r)
    {
      pos', seqno' := pos, seqno;
      assert Ask(log, disk, pos, seqno) == ask(disk, pos, seqno);
      if pos >= log.maxlen || Home(log, pos) == 0 || Home(log, pos) !in disk {
        return None, pos', seqno';
      }
      var b := disk[Home(log, pos)];
      if Be32(b, 0) != MAGIC || Be32(b, 8) != seqno {
        return Some(false), pos', seqno';
      }
      var kind := Be32(b, 4);
      if kind == DESCRIPTOR {
        var ok;
        pos', ok := ReadTags(b, Next(log, pos), seqno, replay);
        answer := if ok then Some(true) else None;
      } else if kind == COMMIT {
        seqno', pos', answer := Inc(seqno), Next(log, pos), Some(true);
      } else if kind == REVOKE {
        if !replay {
          GatherRevokes(b, seqno);
        }
        pos', answer := Next(log, pos), Some(true);
      } else {
        answer := Some(false);
      }
    }

    /** journal_pass: once through the log, with `replay` to write copies home, without it to see how far they go. */
    method JournalPass(start: nat, seq0: u32, end: u32, replay: bool, ghost ask: Asker) returns (seqno: Option<u32>)
      requires Valid() && Answers(ask, log)
      modifies this`disk, this`revokes
      ensures Valid()
      ensures Continue(log, ask, blocks, replay, end, start, seq0, 0, old(State(disk, revokes)))
           == if seqno.None? then IoError else Done(seqno.value, State(disk, revokes))
    {
      ghost var outcome := Continue(log, ask, blocks, replay, end, start, seq0, 0, State(disk, revokes));
      var pos, s, steps, more := start, seq0, 0, true;
      while more && (if replay then Before(s, end) else true)
        invariant Valid()
        invariant outcome == if more then Continue(log, ask, blocks, replay, end, pos, s, steps, State(disk, revokes))
                             else Done(s, State(disk, revokes))
        decreases more, log.maxlen + 1 - steps
      {
        if steps > log.maxlen {
          break;
        }
        var answer;
        answer, pos, s := Visit(pos, s, replay, ask);
        if answer.None? {
          return None;
        }
        steps, more := steps + 1, answer.value;
      }
      return Some(s);
    }

    /** journal_recover: both passes and the mark that there is nothing left to do. */
    method JournalRecover() returns (ok: bool)
      requires Valid()
      modifies this
      ensures Valid()
      ensures ok ==> Recovered(log, blocks, old(disk)) == Some(disk)
      ensures !ok ==> Recovered(log, blocks, old(disk)) == None
    {
      if Home(log, 0) == 0 || Home(log, 0) !in disk {
        return false;
      }
      var sb := disk[Home(log, 0)];
      var start, seqno := Be32(sb, JS_START), Be32(sb, JS_SEQUENCE);
      if start == 0 {
        return true;
      }
      revokes := [];
      ghost var ask := AskerOf(log);
      assert Answers(ask, log);
      var end := JournalPass(start, seqno, 0, false, ask);
      if end.None? {
        return false;
      }
      if end.value != seqno {
        var e := JournalPass(start, seqno, end.value, true, ask);
        if e.None? {
          return false;
        }
      }
      revokes := [];
      ok := SetSuper(0, end.value);
    }

    method SetSuper(start: u32, seqno: u32) returns (ok: bool)
      requires Valid()
      modifies this`disk
      ensures Valid()
      ensures MarkLog(log, old(disk), start, seqno) == if ok then Some(disk) else None
    {
      if Home(log, 0) == 0 || Home(log, 0) !in disk {
        return false;
      }
      disk := disk[Home(log, 0) := Marked(disk[Home(log, 0)], start, seqno)];
      return true;
    }
  }
}
