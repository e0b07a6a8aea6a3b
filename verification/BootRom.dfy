/**
The boot ROM's reading of a journal that still needs replaying
(bootrom/bootrom.c). It runs before the kernel and writes nothing: two passes
over the log build a map of the blocks the log has newer copies of, and every
later read goes through the map.
*/
module BootRom {
  import opened Basics
  import opened BigEndian
  import opened JournalFormat
  import opened JournalLog

  const JMAP_MAX: nat := 2048
  const JREVOKE_MAX: nat := 1024

  const JS_BLOCKSIZE: nat := 12
  const JS_MAXLEN: nat := 16
  const JS_FIRST: nat := 20
  const JS_SEQUENCE: nat := 24
  const JS_START: nat := 28
  const JS_FEATURE_INCOMPAT: nat := 40

  /** One slot of the map: the copy of `blk` is at disk block `at`. */
  datatype Entry = Entry(blk: u32, at: u32, escape: bool)

  // ------------------------------------------------------------------
  // The map as a value
  // ------------------------------------------------------------------

  function IndexOf(m: seq<Entry>, blk: u32): (i: nat)
    ensures i <= |m| && (i < |m| ==> m[i].blk == blk)
    ensures forall k :: 0 <= k < i ==> m[k].blk != blk
  {
    if m == [] then 0
    else if m[0].blk == blk then 0
    else 1 + IndexOf(m[1..], blk)
  }

  function Noted(m: seq<Entry>, e: Entry): seq<Entry> {
    var i := IndexOf(m, e.blk);
    if i < |m| then m[i := e] else m + [e]
  }

  function MapStep(L: Log, table: seq<Revocation>, m: seq<Entry>, c: Copy): seq<Entry> {
    if Revoked(table, c.blk, c.seqno) then m else Noted(m, Entry(c.blk, Home(L, c.at), c.escape))
  }

  /** The map after the copies, in log order, that the table does not revoke. */
  function Overlay(L: Log, table: seq<Revocation>, m: seq<Entry>, copies: seq<Copy>): seq<Entry> {
    if copies == [] then m
    else MapStep(L, table, Overlay(L, table, m, copies[..|copies| - 1]), copies[|copies| - 1])
  }

  datatype TagOutcome = NoRoom | Tagged(pos: nat, m: seq<Entry>)

  /** Where reading the tags from byte `t` on leads, with the next copy at `pos`. */
  function FinishTags(L: Log, map_: bool, table: seq<Revocation>, b: Block, t: nat, pos: nat, seqno: u32,
                      m: seq<Entry>): TagOutcome
    decreases |b| - t
  {
    if t + TAG_BYTES > |b| then Tagged(pos, m)
    else
      var tag := TagAt(b, t);
      var m' := WithTag(L, map_, table, m, tag, pos, seqno);
      if |m'| > JMAP_MAX then NoRoom
      else if tag.last then Tagged(Next(L, pos), m')
      else FinishTags(L, map_, table, b, t + TagWidth(tag), Next(L, pos), seqno, m')
  }

  function Mapped(L: Log, map_: bool, table: seq<Revocation>, m: seq<Entry>, copies: seq<Copy>): seq<Entry> {
    if map_ then Overlay(L, table, m, copies) else m
  }

  /** The same, once the tags have been read off the block. */
  function TagAll(L: Log, map_: bool, table: seq<Revocation>, tags: seq<Tag>, pos: nat, seqno: u32,
                  m: seq<Entry>): TagOutcome
    decreases |tags|
  {
    if tags == [] then Tagged(pos, m)
    else
      var m' := WithTag(L, map_, table, m, tags[0], pos, seqno);
      if |m'| > JMAP_MAX then NoRoom
      else TagAll(L, map_, table, tags[1..], Next(L, pos), seqno, m')
  }

  lemma {:induction false} FinishTagsReads(L: Log, map_: bool, table: seq<Revocation>, b: Block, t: nat, pos: nat,
                                           seqno: u32, m: seq<Entry>, tags: seq<Tag>)
    requires tags == TagList(b, t)
    ensures FinishTags(L, map_, table, b, t, pos, seqno, m) == TagAll(L, map_, table, tags, pos, seqno, m)
    decreases |b| - t
  {
    if t + TAG_BYTES <= |b| {
      TagStep(b, t);
      var m' := WithTag(L, map_, table, m, tags[0], pos, seqno);
      if !tags[0].last {
        FinishTagsReads(L, map_, table, b, t + TagWidth(tags[0]), Next(L, pos), seqno, m', tags[1..]);
      }
      FinishTagsFirst(L, map_, table, b, t, pos, seqno, m, tags, m');
    }
  }

  function WithTag(L: Log, map_: bool, table: seq<Revocation>, m: seq<Entry>, tag: Tag, pos: nat, seqno: u32): seq<Entry> {
    if map_ then MapStep(L, table, m, Copy(tag.blk, pos, tag.escape, seqno)) else m
  }

  /** The first tag, given what the others come to. */
  lemma FinishTagsFirst(L: Log, map_: bool, table: seq<Revocation>, b: Block, t: nat, pos: nat, seqno: u32, m: seq<Entry>,
                        tags: seq<Tag>, m': seq<Entry>)
    requires t + TAG_BYTES <= |b| && tags != [] && tags[0] == TagAt(b, t) && m' == WithTag(L, map_, table, m, tags[0], pos, seqno)
    requires tags[0].last ==> tags[1..] == []
    requires !tags[0].last ==>
               FinishTags(L, map_, table, b, t + TagWidth(tags[0]), Next(L, pos), seqno, m')
               == TagAll(L, map_, table, tags[1..], Next(L, pos), seqno, m')
    ensures FinishTags(L, map_, table, b, t, pos, seqno, m) == TagAll(L, map_, table, tags, pos, seqno, m)
  {
  }

  lemma {:induction false} TagAllIs(L: Log, map_: bool, table: seq<Revocation>, tags: seq<Tag>, pos: nat,
                                    seqno: u32, m: seq<Entry>)
    requires |m| <= JMAP_MAX
    ensures var copies := Place(L, tags, pos, seqno);
            var all := Mapped(L, map_, table, m, copies);
            TagAll(L, map_, table, tags, pos, seqno, m)
            == if |all| > JMAP_MAX then NoRoom else Tagged(After(L, pos, |copies|), all)
    decreases |tags|
  {
    if tags != [] {
      var c := Copy(tags[0].blk, pos, tags[0].escape, seqno);
      var m' := if map_ then MapStep(L, table, m, c) else m;
      var later := Place(L, tags[1..], Next(L, pos), seqno);
      assert tags == [tags[0]] + tags[1..];
      PlaceCons(L, tags[0], tags[1..], pos, seqno);
      OverlayCons(L, table, m, c, later);
      AfterCons(L, pos, |tags[1..]|);
      if |m'| > JMAP_MAX {
        OverlayGrows(L, table, m', later, 0);
      } else {
        TagAllIs(L, map_, table, tags[1..], Next(L, pos), seqno, m');
      }
    }
  }

  /** Which is the map with all of the descriptor's live copies, if they fit. */
  lemma FinishTagsIs(L: Log, map_: bool, table: seq<Revocation>, b: Block, pos: nat, seqno: u32, m: seq<Entry>)
    requires |m| <= JMAP_MAX
    ensures var copies := Place(L, TagList(b, HEADER), pos, seqno);
            var all := Mapped(L, map_, table, m, copies);
            FinishTags(L, map_, table, b, HEADER, pos, seqno, m)
            == if |all| > JMAP_MAX then NoRoom else Tagged(After(L, pos, |copies|), all)
  {
    FinishTagsReads(L, map_, table, b, HEADER, pos, seqno, m, TagList(b, HEADER));
    TagAllIs(L, map_, table, TagList(b, HEADER), pos, seqno, m);
  }

  lemma OverlayCons(L: Log, table: seq<Revocation>, m: seq<Entry>, c: Copy, rest: seq<Copy>)
    ensures Overlay(L, table, m, [c] + rest) == Overlay(L, table, MapStep(L, table, m, c), rest)
  {
    OverlayConcat(L, table, m, [c], rest);
    assert [c][..0] == [];
  }

  function Lookup(m: seq<Entry>, blk: u32): Option<Entry> {
    var i := IndexOf(m, blk);
    if i < |m| then Some(m[i]) else None
  }

  lemma LookupNoted(m: seq<Entry>, e: Entry, blk: u32)
    ensures Lookup(Noted(m, e), blk) == if blk == e.blk then Some(e) else Lookup(m, blk)
  {
    var i, j := IndexOf(m, blk), IndexOf(Noted(m, e), blk);
    var k := IndexOf(m, e.blk);
    if blk == e.blk {
      assert Noted(m, e)[k].blk == blk;
    } else {
      assert forall x :: 0 <= x < |m| ==> Noted(m, e)[x].blk == m[x].blk;
      if i < |m| {
        assert i == j;
      } else {
        assert j == |Noted(m, e)|;
      }
    }
  }

  /** A lookup in the map is the newest live copy of the block. */
  lemma {:induction false} OverlayHoldsNewest(L: Log, table: seq<Revocation>, copies: seq<Copy>, blk: u32)
    ensures var n := Newest(Live(table, copies), blk);
            Lookup(Overlay(L, table, [], copies), blk)
            == if n.None? then None else Some(Entry(blk, Home(L, n.value.at), n.value.escape))
    decreases |copies|
  {
    if copies != [] {
      var c := copies[|copies| - 1];
      var before := copies[..|copies| - 1];
      OverlayHoldsNewest(L, table, before, blk);
      if !Revoked(table, c.blk, c.seqno) {
        LookupNoted(Overlay(L, table, [], before), Entry(c.blk, Home(L, c.at), c.escape), blk);
        var live := Live(table, copies);
        assert live == Live(table, before) + [c];
        assert live[..|live| - 1] == Live(table, before);
      } else {
        assert Live(table, copies) == Live(table, before);
      }
    }
  }

  lemma {:induction false} OverlayGrows(L: Log, table: seq<Revocation>, m: seq<Entry>, copies: seq<Copy>, n: nat)
    requires n <= |copies|
    ensures |Overlay(L, table, m, copies[..n])| <= |Overlay(L, table, m, copies)|
    decreases |copies|
  {
    if n == |copies| {
      assert copies[..n] == copies;
    } else {
      OverlayGrows(L, table, m, copies[..|copies| - 1], n);
      assert copies[..|copies| - 1][..n] == copies[..n];
    }
  }

  lemma {:induction false} OverlayConcat(L: Log, table: seq<Revocation>, m: seq<Entry>, a: seq<Copy>, b: seq<Copy>)
    ensures Overlay(L, table, m, a + b) == Overlay(L, table, Overlay(L, table, m, a), b)
    decreases |b|
  {
    if b == [] {
      assert a + b == a;
    } else {
      var n := |b| - 1;
      assert (a + b)[..|a + b| - 1] == a + b[..n];
      OverlayConcat(L, table, m, a, b[..n]);
    }
  }

  // ------------------------------------------------------------------
  // What the two passes are to find
  // ------------------------------------------------------------------

  /** The records a pass visits: all of them, or with `map` those before `end`. */
  function Visits(map_: bool, recs: seq<Record>, seqno: u32, end: u32): seq<Record> {
    if map_ then Until(recs, seqno, end) else recs
  }

  /** The ROM's two tables. */
  datatype Tables = Tables(m: seq<Entry>, t: seq<Revocation>) {
    predicate Overfull() {
      |m| > JMAP_MAX || |t| > JREVOKE_MAX
    }
  }

  function Absorb(L: Log, map_: bool, tb: Tables, r: Record): Tables {
    if map_ && r.Descriptor? then tb.(m := Overlay(L, tb.t, tb.m, r.copies))
    else if !map_ && r.Revoke? then tb.(t := tb.t + Stamp(r.blks, r.seqno))
    else tb
  }

  /** The tables once these records have been visited. */
  function AbsorbAll(L: Log, map_: bool, tb: Tables, recs: seq<Record>): Tables {
    if recs == [] then tb
    else Absorb(L, map_, AbsorbAll(L, map_, tb, recs[..|recs| - 1]), recs[|recs| - 1])
  }

  lemma {:induction false} AbsorbCons(L: Log, map_: bool, tb: Tables, r: Record, rest: seq<Record>)
    ensures AbsorbAll(L, map_, tb, [r] + rest) == AbsorbAll(L, map_, Absorb(L, map_, tb, r), rest)
    decreases |rest|
  {
    if rest == [] {
      assert [r] + rest == [r] && [r][..0] == [];
    } else {
      var n := |rest| - 1;
      assert ([r] + rest)[..n + 1] == [r] + rest[..n];
      AbsorbCons(L, map_, tb, r, rest[..n]);
    }
  }

  /** Pass 0 gathers the revocations and leaves the map alone; pass 1 the other way about. */
  lemma {:induction false} AbsorbIs(L: Log, map_: bool, tb: Tables, recs: seq<Record>)
    ensures AbsorbAll(L, map_, tb, recs)
         == if map_ then Tables(Overlay(L, tb.t, tb.m, Copies(recs)), tb.t)
            else Tables(tb.m, tb.t + Revocations(recs))
    decreases |recs|
  {
    if recs == [] {
      assert tb.t + Revocations(recs) == tb.t;
    } else {
      var n := |recs| - 1;
      AbsorbIs(L, map_, tb, recs[..n]);
      if recs[n].Descriptor? {
        OverlayConcat(L, tb.t, tb.m, Copies(recs[..n]), recs[n].copies);
      } else {
        assert Copies(recs) == Copies(recs[..n]);
      }
      if !recs[n].Revoke? {
        assert Revocations(recs) == Revocations(recs[..n]);
      }
    }
  }

  lemma {:induction false} OverfullStays(L: Log, map_: bool, tb: Tables, recs: seq<Record>)
    requires tb.Overfull()
    ensures AbsorbAll(L, map_, tb, recs).Overfull()
    decreases |recs|
  {
    if recs != [] {
      var k := |recs| - 1;
      OverfullStays(L, map_, tb, recs[..k]);
      if recs[k].Descriptor? {
        var before := AbsorbAll(L, map_, tb, recs[..k]);
        OverlayGrows(L, before.t, before.m, recs[k].copies, 0);
      }
    }
  }

  datatype PassOutcome = Spilled | Passed(seqno: u32, tb: Tables)

  /** Where a pass standing at `pos` leads. */
  function Finish(L: Log, read: Reader, map_: bool, end: u32, pos: nat, seqno: u32, steps: nat, tb: Tables): PassOutcome
    decreases L.maxlen + 1 - steps
  {
    if steps > L.maxlen || (map_ && !Before(seqno, end)) then Passed(seqno, tb)
    else match read(pos, seqno)
      case None => Passed(seqno, tb)
      case Some(r) =>
        var tb' := Absorb(L, map_, tb, r);
        if tb'.Overfull() then Spilled
        else Finish(L, read, map_, end, Ahead(L, pos, r), SeqAfter(r), steps + 1, tb')
  }

  /** Which is the tables with all of the records it is to visit, if they fit. */
  lemma {:induction false} FinishIs(L: Log, read: Reader, map_: bool, end: u32, pos: nat, seqno: u32, steps: nat, tb: Tables)
    requires Truthful(read) && !tb.Overfull()
    ensures var recs := Visits(map_, Scan(L, read, pos, seqno, steps), seqno, end);
            var all := AbsorbAll(L, map_, tb, recs);
            Finish(L, read, map_, end, pos, seqno, steps, tb)
            == if all.Overfull() then Spilled else Passed(Plus(seqno, Commits(recs)), all)
    decreases L.maxlen + 1 - steps
  {
    if steps <= L.maxlen && (map_ ==> Before(seqno, end)) && read(pos, seqno).Some? {
      var r := read(pos, seqno).value;
      var tb' := Absorb(L, map_, tb, r);
      var rest := Scan(L, read, Ahead(L, pos, r), SeqAfter(r), steps + 1);
      var later := Visits(map_, rest, SeqAfter(r), end);
      assert Scan(L, read, pos, seqno, steps) == [r] + rest;
      assert Visits(map_, [r] + rest, seqno, end) == [r] + later;
      AbsorbCons(L, map_, tb, r, later);
      CommitsCons(r, later);
      PlusPlus(seqno, if r.Commit? then 1 else 0, Commits(later));
      if tb'.Overfull() {
        OverfullStays(L, map_, tb', later);
      } else {
        FinishIs(L, read, map_, end, Ahead(L, pos, r), SeqAfter(r), steps + 1, tb');
      }
    } else {
      assert Visits(map_, Scan(L, read, pos, seqno, steps), seqno, end) == [];
    }
  }

  /** What makes a block acceptable as the superblock of a journal. */
  predicate SuperOk(bs: nat, b: Block)
    requires |b| == bs >= 1024
  {
    && Be32(b, 0) == MAGIC
    && (Be32(b, 4) == SB_V1 || Be32(b, 4) == SB_V2)
    && Be32(b, JS_BLOCKSIZE) == bs
    && (Be32(b, 4) == SB_V2 ==> KnownFeatures(Be32(b, JS_FEATURE_INCOMPAT)))
    && 0 < Be32(b, JS_FIRST) < Be32(b, JS_MAXLEN)
  }

  /** Only the revoke (1) and async-commit (4) bits may be set. */
  predicate KnownFeatures(f: u32) {
    f == 0 || f == 1 || f == 4 || f == 5
  }

  /** Byte by byte: a superblock of either kind, of this block size, with a log of two blocks or more and no feature but two. */
  lemma SuperBytes(bs: nat, b: Block)
    requires |b| == bs >= 1024
    ensures SuperOk(bs, b)
       <==> && b[..7] == [0xC0, 0x3B, 0x39, 0x98, 0, 0, 0] && b[7] in {3, 4}
            && Be32(b, 12) == bs && 1 <= Be32(b, 20) && Be32(b, 20) + 1 <= Be32(b, 16)
            && (b[7] == 4 ==> b[40..43] == [0, 0, 0] && b[43] in {0, 1, 4, 5})
  {
    Be32Bytes(b, 0, 0xC0, 0x3B, 0x39, 0x98);
    Be32Bytes(b, 4, 0, 0, 0, 3);
    Be32Bytes(b, 4, 0, 0, 0, 4);
    FeatureBytes(b, 40);
  }

  lemma FeatureBytes(b: Block, o: nat)
    requires o + 4 <= |b|
    ensures KnownFeatures(Be32(b, o)) <==> b[o..o + 3] == [0, 0, 0] && b[o + 3] in {0, 1, 4, 5}
  {
    Be32Is(b, o);
    FeaturesOf(b[o], b[o + 1], b[o + 2], b[o + 3]);
    assert b[o..o + 3] == [b[o], b[o + 1], b[o + 2]];
  }

  lemma FeaturesOf(b0: byte, b1: byte, b2: byte, b3: byte)
    ensures var f := OfFour(b0, b1, b2, b3); 0 <= f < WORD && (KnownFeatures(f) <==> b0 == b1 == b2 == 0 && b3 in {0, 1, 4, 5})
  {
  }

  function LogOf(bs: nat, where: seq<u32>, b: Block): Log
    requires |b| == bs >= 1024
  {
    Log(bs, Be32(b, JS_FIRST), Be32(b, JS_MAXLEN), where)
  }

  function SuperBlock(bs: nat, where: seq<u32>, d: Disk): Option<Block>
    requires bs >= 1024 && forall k :: k in d ==> |d[k]| == bs
  {
    var at := if |where| > 0 then where[0] else 0;
    if at != 0 && at in d && SuperOk(bs, d[at]) then Some(d[at]) else None
  }

  /** What two good passes leave in the map, however much that is. */
  function FullMap(L: Log, d: Disk, start: nat, seqno: u32): seq<Entry>
  {
    var recs := Scan(L, ReaderOf(L, d), start, seqno, 0);
    Overlay(L, Revocations(recs), [], Copies(Committed(recs)))
  }

  predicate TooMuchToRead(L: Log, d: Disk, start: nat, seqno: u32)
  {
    |Revocations(Scan(L, ReaderOf(L, d), start, seqno, 0))| > JREVOKE_MAX || |FullMap(L, d, start, seqno)| > JMAP_MAX
  }

  /** The map of a mounted volume: empty if the log cannot be read, is empty, or holds too much. */
  function Overlaid(bs: nat, where: seq<u32>, d: Disk): seq<Entry>
    requires 1024 <= bs <= 4096 && |where| <= LOG_BLOCKS && forall k :: k in d ==> |d[k]| == bs
  {
    match SuperBlock(bs, where, d)
    case None => []
    case Some(b) => OverlaidFrom(LogOf(bs, where, b), d, Be32(b, JS_START), Be32(b, JS_SEQUENCE))
  }

  function OverlaidFrom(L: Log, d: Disk, start: nat, seqno: u32): seq<Entry>
  {
    if start == 0 || TooMuchToRead(L, d, start, seqno) then [] else FullMap(L, d, start, seqno)
  }

  /** A read of a block through the map. */
  function Through(m: seq<Entry>, d: Disk, blk: u32): Option<Block>
  {
    match Lookup(m, blk)
    case None => Holding(d, blk)
    case Some(e) => if e.at in d then Some(Unescape(d[e.at], e.escape)) else None
  }

  lemma EscapeBytes(b: Block)
    requires |b| >= 4
    ensures b[0 := 0xC0][1 := 0x3B][2 := 0x39][3 := 0x98] == Unescape(b, true)
  {
    var b1 := PutBe(b, 0, 1, 0xC0);
    assert PutBe(b, 0, 4, 0xC03B3998) == PutBe(b, 0, 3, 0xC03B39)[3 := 0x98];
    assert PutBe(b, 0, 3, 0xC03B39) == PutBe(b, 0, 2, 0xC03B)[2 := 0x39];
    assert PutBe(b, 0, 2, 0xC03B) == b1[1 := 0x3B];
    assert b1 == b[0 := 0xC0];
  }

  /** What pass 0 and then pass 1 do, starting with empty tables, in terms of the whole log. */
  lemma PassesFind(L: Log, d: Disk, start: nat, seqno: u32)
    requires Geometry(L) && Formatted(L, d)
    ensures var read := ReaderOf(L, d);
            var t := Revocations(Scan(L, read, start, seqno, 0));
            var m := FullMap(L, d, start, seqno);
            var end := Plus(seqno, Commits(Scan(L, read, start, seqno, 0)));
            && Finish(L, read, false, 0, start, seqno, 0, Tables([], []))
               == (if |t| > JREVOKE_MAX then Spilled else Passed(end, Tables([], t)))
            && (|t| <= JREVOKE_MAX ==>
                  Finish(L, read, true, end, start, seqno, 0, Tables([], t))
                  == if |m| > JMAP_MAX then Spilled else Passed(end, Tables(m, t)))
            && (end == seqno ==> m == [])
  {
    var read := ReaderOf(L, d);
    var recs := Scan(L, read, start, seqno, 0);
    var t := Revocations(recs);
    ReaderIsTruthful(L, d);
    FinishIs(L, read, false, 0, start, seqno, 0, Tables([], []));
    AbsorbIs(L, false, Tables([], []), recs);
    assert [] + t == t;
    CommittedPart(L, d, start, seqno);
    if |t| <= JREVOKE_MAX {
      FinishIs(L, read, true, Plus(seqno, Commits(recs)), start, seqno, 0, Tables([], t));
      AbsorbIs(L, true, Tables([], t), Committed(recs));
    }
  }

  /** Of a log with these items laid out in it: pass 0 ends at the number after their endings, with all they revoke. */
  lemma PassesReadItems(L: Log, d: Disk, start: nat, seqno: u32, items: seq<Item>)
    requires Geometry(L) && Formatted(L, d) && LaidOut(L, d, start, seqno, items) && |items| <= L.maxlen + 1
    ensures var recs := RecordsOf(L, start, seqno, items);
            var end, t, m := Plus(seqno, Endings(items)), Revocations(recs), Overlay(L, Revocations(recs), [], Copies(Committed(recs)));
            && Finish(L, ReaderOf(L, d), false, 0, start, seqno, 0, Tables([], []))
               == (if |t| > JREVOKE_MAX then Spilled else Passed(end, Tables([], t)))
            && (|t| <= JREVOKE_MAX ==>
                  Finish(L, ReaderOf(L, d), true, end, start, seqno, 0, Tables([], t))
                  == if |m| > JMAP_MAX then Spilled else Passed(end, Tables(m, t)))
  {
    ReadsBack(L, d, start, seqno, items);
    CommitsAreEndings(L, start, seqno, items);
    PassesFind(L, d, start, seqno);
  }

  /** Pass 1, told where pass 0 ended, visits exactly the committed records. */
  lemma CommittedPart(L: Log, d: Disk, start: nat, seqno: u32)
    requires Geometry(L) && Formatted(L, d)
    ensures var recs := Scan(L, ReaderOf(L, d), start, seqno, 0);
            var end := Plus(seqno, Commits(recs));
            && Until(recs, seqno, end) == Committed(recs)
            && Commits(Committed(recs)) == Commits(recs)
            && (end == seqno ==> Committed(recs) == [])
  {
    var recs := Scan(L, ReaderOf(L, d), start, seqno, 0);
    ScanIsShort(L, d, start, seqno);
    ReaderIsTruthful(L, d);
    ScanNumbered(L, ReaderOf(L, d), start, seqno, 0);
    UntilIsCommitted(recs, seqno);
    CommitsBound(recs);
    PlusWraps(seqno, Commits(recs));
    CommittedIsPrefix(recs);
    if Commits(recs) == 0 {
      NoCommits(recs);
    }
  }

  lemma {:induction false} NoCommits(recs: seq<Record>)
    requires Commits(recs) == 0
    ensures Committed(recs) == []
    decreases |recs|
  {
    if recs != [] {
      NoCommits(recs[..|recs| - 1]);
    }
  }

  /**
  The map stands in for the replay it avoids: a block read through it is what
  the disk would hold had every committed, unrevoked copy been written home in
  log order, with an escaped magic restored.
  */
  lemma OverlayEqualsReplay(L: Log, d: Disk, start: nat, seqno: u32, blk: u32)
    requires start != 0 && !TooMuchToRead(L, d, start, seqno)
    requires ReadableFor(L, d, Survivors(L, d, start, seqno), blk)
    ensures Through(OverlaidFrom(L, d, start, seqno), d, blk)
         == Holding(Replay(L, d, Survivors(L, d, start, seqno)), blk)
  {
    var recs := Scan(L, ReaderOf(L, d), start, seqno, 0);
    var copies := Copies(Committed(recs));
    OverlayHoldsNewest(L, Revocations(recs), copies, blk);
    ReplayReads(L, d, Survivors(L, d, start, seqno), blk);
  }

  /** The copy of the block that replay would leave reads without error. */
  predicate ReadableFor(L: Log, d: Disk, copies: seq<Copy>, blk: u32) {
    var n := Newest(copies, blk);
    n.Some? ==> ReadLog(L, d, n.value.at).Some?
  }

  /**
  What the ROM is to read of a block: the block at home when there is no journal to
  read, or an empty one, or one too big for either table; and otherwise what replay
  would leave there, if the copy can be read.
  */
  ghost predicate BootReads(bs: nat, where: seq<u32>, d: Disk, blk: u32, r: Option<Block>)
    requires 1024 <= bs <= 4096 && |where| <= LOG_BLOCKS && forall k :: k in d ==> |d[k]| == bs
  {
    match SuperBlock(bs, where, d)
    case None => r == Holding(d, blk)
    case Some(b) =>
      var L, start, seqno := LogOf(bs, where, b), Be32(b, JS_START), Be32(b, JS_SEQUENCE);
      if start == 0 || TooMuchToRead(L, d, start, seqno) then r == Holding(d, blk)
      else ReadableFor(L, d, Survivors(L, d, start, seqno), blk)
           ==> r == Holding(Replay(L, d, Survivors(L, d, start, seqno)), blk)
  }

  lemma OverlaidReads(bs: nat, where: seq<u32>, d: Disk, blk: u32)
    requires 1024 <= bs <= 4096 && |where| <= LOG_BLOCKS && forall k :: k in d ==> |d[k]| == bs
    ensures BootReads(bs, where, d, blk, Through(Overlaid(bs, where, d), d, blk))
  {
    var sb := SuperBlock(bs, where, d);
    if sb.Some? {
      var L, start, seqno := LogOf(bs, where, sb.value), Be32(sb.value, JS_START), Be32(sb.value, JS_SEQUENCE);
      if start != 0 && !TooMuchToRead(L, d, start, seqno) && ReadableFor(L, d, Survivors(L, d, start, seqno), blk) {
        OverlayEqualsReplay(L, d, start, seqno, blk);
      }
    }
  }

  /**
  A block reads as if committed revocations alone counted unless a revoke record
  after the last commit names it.
  */
  lemma CommittedOnlyReads(L: Log, d: Disk, start: nat, seqno: u32, blk: u32)
    requires Geometry(L) && Formatted(L, d) && start != 0 && !TooMuchToRead(L, d, start, seqno)
    requires ReadableFor(L, d, CommittedSurvivors(Scan(L, ReaderOf(L, d), start, seqno, 0)), blk)
    requires var recs := Scan(L, ReaderOf(L, d), start, seqno, 0);
             Newest(CommittedSurvivors(recs), blk).None? || !TailRevokes(recs, blk)
    ensures Through(OverlaidFrom(L, d, start, seqno), d, blk)
         == Holding(Replay(L, d, CommittedSurvivors(Scan(L, ReaderOf(L, d), start, seqno, 0))), blk)
  {
    var recs := Scan(L, ReaderOf(L, d), start, seqno, 0);
    ScanIsShort(L, d, start, seqno);
    ReaderIsTruthful(L, d);
    ScanNumbered(L, ReaderOf(L, d), start, seqno, 0);
    TailRevocationsOf(recs, seqno, blk);
    OverlayEqualsReplay(L, d, start, seqno, blk);
    ReplayReads(L, d, CommittedSurvivors(recs), blk);
    ReplayReads(L, d, Survivors(L, d, start, seqno), blk);
  }

  class Rom {
    const bs: nat
    const where: seq<u32>       // the journal inode's block map
    const disk: Disk
    var first: u32
    var maxlen: u32
    var jmap: seq<Entry>
    var jrevoke: seq<Revocation>

    ghost predicate Mounted()
    {
      1024 <= bs <= 4096 && |where| <= LOG_BLOCKS && forall k :: k in disk ==> |disk[k]| == bs
    }

    ghost predicate Fits()
      reads this
    {
      |jmap| <= JMAP_MAX && |jrevoke| <= JREVOKE_MAX
    }

    function TheLog(): Log
      reads this
    {
      Log(bs, first, maxlen, where)
    }

    ghost predicate Ready()
      reads this
    {
      Mounted() && Fits() && 0 < first < maxlen
    }

    /** ext2_mount: both tables empty. */
    constructor (bs: nat, where: seq<u32>, disk: Disk)
      requires 1024 <= bs <= 4096 && |where| <= LOG_BLOCKS && forall k :: k in disk ==> |disk[k]| == bs
      ensures this.bs == bs && this.where == where && this.disk == disk
      ensures Mounted() && Fits() && jmap == [] && jrevoke == []
    {
      this.bs, this.where, this.disk := bs, where, disk;
      first, maxlen := 1, 2;
      jmap, jrevoke := [], [];
    }

    method IsRevoked(blk: u32, seqno: u32) returns (r: bool)
      ensures r == Revoked(jrevoke, blk, seqno)
    {
      for i := 0 to |jrevoke|
        invariant forall k :: 0 <= k < i ==> !(jrevoke[k].blk == blk && !Before(jrevoke[k].seqno, seqno))
      {
        if jrevoke[i].blk == blk && !Before(jrevoke[i].seqno, seqno) {
          return true;
        }
      }
      return false;
    }

    method Find(blk: u32) returns (i: nat)
      ensures i == IndexOf(jmap, blk)
    {
      i := 0;
      while i < |jmap| && jmap[i].blk != blk
        invariant i <= |jmap| && forall k :: 0 <= k < i ==> jmap[k].blk != blk
      {
        i := i + 1;
      }
    }

    /** One copy into the map; `bad` if there is no room for it. */
    method Note(e: Entry) returns (bad: bool)
      requires Fits()
      modifies this`jmap
      ensures Fits() && bad == (|Noted(old(jmap), e)| > JMAP_MAX)
      ensures jmap == if bad then old(jmap) else Noted(old(jmap), e)
    {
      var i := Find(e.blk);
      if i == |jmap| {
        if |jmap| == JMAP_MAX {
          return true;
        }
        jmap := jmap + [e];
      } else {
        jmap := jmap[i := e];
      }
      return false;
    }

    /** A copy at log position `pos`, unless it is revoked. */
    method MapCopy(blk: u32, pos: nat, escape: bool, seqno: u32) returns (bad: bool)
      requires Ready()
      modifies this`jmap
      ensures Fits()
      ensures var m := MapStep(TheLog(), jrevoke, old(jmap), Copy(blk, pos, escape, seqno));
              bad == (|m| > JMAP_MAX) && (!bad ==> jmap == m)
    {
      var gone := IsRevoked(blk, seqno);
      if gone {
        return false;
      }
      bad := Note(Entry(blk, Home(TheLog(), pos), escape));
    }

    /** One tag of a descriptor block, at byte `t`; its copy is at log position `pos`. */
    method ReadTag(b: Block, t: nat, pos: nat, seqno: u32, map_: bool) returns (t': nat, last: bool, bad: bool)
      requires Ready() && |b| == bs && t + TAG_BYTES <= |b|
      modifies this`jmap
      ensures Fits()
      ensures var tag := TagAt(b, t);
              var m := MapStep(TheLog(), jrevoke, old(jmap), Copy(tag.blk, pos, tag.escape, seqno));
              && bad == (map_ && |m| > JMAP_MAX)
              && (!bad ==> jmap == if map_ then m else old(jmap))
              && t' == t + TagWidth(tag) && last == tag.last
    {
      var tag := TagAt(b, t);
      t' := t + TAG_BYTES;
      if !tag.sameUuid {
        t' := t' + UUID_BYTES;
      }
      bad := false;
      if map_ {
        bad := MapCopy(tag.blk, pos, tag.escape, seqno);
      }
      last := tag.last;
    }

    /** The tags of a descriptor block whose copies are in the log from `start` on. */
    method ReadTags(b: Block, start: nat, seqno: u32, map_: bool) returns (pos: nat, bad: bool)
      requires Ready() && |b| == bs
      modifies this`jmap
      ensures Fits()
      ensures FinishTags(TheLog(), map_, jrevoke, b, HEADER, start, seqno, old(jmap))
           == if bad then NoRoom else Tagged(pos, jmap)
    {
      ghost var outcome := FinishTags(TheLog(), map_, jrevoke, b, HEADER, start, seqno, jmap);
      var t, last := HEADER, false;
      pos, bad := start, false;
      while !last && t + TAG_BYTES <= bs
        invariant Fits() && !bad
        invariant outcome == if last then Tagged(pos, jmap)
                             else FinishTags(TheLog(), map_, jrevoke, b, t, pos, seqno, jmap)
        decreases |b| - t
      {
        t, last, bad := ReadTag(b, t, pos, seqno, map_);
        if bad {
          return;
        }
        pos := Next(TheLog(), pos);
      }
    }

    method GatherRevokes(b: Block, seqno: u32) returns (bad: bool)
      requires Ready() && |b| == bs
      modifies this`jrevoke
      ensures Fits()
      ensures bad == (|old(jrevoke)| + |RevokedIn(b)| > JREVOKE_MAX)
      ensures !bad ==> jrevoke == old(jrevoke) + Stamp(RevokedIn(b), seqno)
    {
      var used := Be32(b, HEADER);
      var r := HEADER + 4;
      ghost var blks := RevokedIn(b);
      ghost var done := 0;
      while r + 4 <= used && r + 4 <= bs
        invariant Fits() && done <= |blks| && blks[done..] == RevokedFrom(b, r, used)
        invariant jrevoke == old(jrevoke) + Stamp(blks[..done], seqno)
        decreases bs - r
      {
        if |jrevoke| == JREVOKE_MAX {
          return true;
        }
        jrevoke := jrevoke + [Revocation(Be32(b, r), seqno)];
        assert blks[done] == Be32(b, r);
        assert Stamp(blks[..done + 1], seqno) == Stamp(blks[..done], seqno) + [Revocation(blks[done], seqno)];
        done := done + 1;
        r := r + 4;
      }
      assert blks[..done] == blks;
      return false;
    }

    /** The body of the pass: the log block at `pos`, if it is one of transaction `seqno`. */
    method Visit(pos: nat, seqno: u32, map_: bool, ghost read: Reader)
      returns (more: bool, pos': nat, seqno': u32, bad: bool)
      requires Ready() && Speaks(read, TheLog(), disk)
      modifies this`jmap, this`jrevoke
      ensures Fits() && more == read(pos, seqno).Some?
      ensures !more ==> !bad && pos' == pos && seqno' == seqno && jmap == old(jmap) && jrevoke == old(jrevoke)
      ensures more ==> var r := read(pos, seqno).value;
                       var tb := Absorb(TheLog(), map_, old(Tables(jmap, jrevoke)), r);
                       && bad == tb.Overfull()
                       && (!bad ==> && Tables(jmap, jrevoke) == tb
                                    && pos' == Ahead(TheLog(), pos, r) && seqno' == SeqAfter(r))
    {
      more, pos', seqno', bad := false, pos, seqno, false;
      assert ReadRecord(TheLog(), disk, pos, seqno) == read(pos, seqno);
      var at := Home(TheLog(), pos);
      if at == 0 || at !in disk {
        return;
      }
      var b := disk[at];
      if Be32(b, 0) != MAGIC || Be32(b, 8) != seqno {
        return;
      }
      var kind := Be32(b, 4);
      if kind == DESCRIPTOR {
        more := true;
        FinishTagsIs(TheLog(), map_, jrevoke, b, Next(TheLog(), pos), seqno, jmap);
        pos', bad := ReadTags(b, Next(TheLog(), pos), seqno, map_);
      } else if kind == COMMIT {
        more, seqno', pos' := true, Inc(seqno), Next(TheLog(), pos);
      } else if kind == REVOKE {
        more := true;
        if !map_ {
          bad := GatherRevokes(b, seqno);
        }
        pos' := Next(TheLog(), pos);
      }
    }

    /**
    Goes through the log once: without `map_` for its end and its revocations, with
    `map_` for the copies of transactions before `end`.
    */
    method JPass(start: nat, seq0: u32, end: u32, map_: bool, ghost read: Reader) returns (seqno: u32, bad: bool)
      requires Ready() && Speaks(read, TheLog(), disk)
      modifies this`jmap, this`jrevoke
      ensures Fits()
      ensures Finish(TheLog(), read, map_, end, start, seq0, 0, old(Tables(jmap, jrevoke)))
           == if bad then Spilled else Passed(seqno, Tables(jmap, jrevoke))
    {
      ghost var outcome := Finish(TheLog(), read, map_, end, start, seq0, 0, Tables(jmap, jrevoke));
      var pos, steps, more := start, 0, true;
      seqno, bad := seq0, false;
      while more && (if map_ then Before(seqno, end) else true)
        invariant Fits() && !bad
        invariant outcome == if more then Finish(TheLog(), read, map_, end, pos, seqno, steps, Tables(jmap, jrevoke))
                             else Passed(seqno, Tables(jmap, jrevoke))
        decreases more, maxlen + 1 - steps
      {
        if steps > maxlen {
          break;
        }
        more, pos, seqno, bad := Visit(pos, seqno, map_, read);
        steps := steps + 1;
        if bad {
          return;
        }
      }
    }

    /** The superblock of the journal, if there is an acceptable one. */
    method ReadSuper() returns (b: Option<Block>)
      requires Mounted()
      modifies this`first, this`maxlen
      ensures b == SuperBlock(bs, where, disk)
      ensures b.Some? ==> TheLog() == LogOf(bs, where, b.value)
    {
      var at := if |where| > 0 then where[0] else 0;
      if at == 0 || at !in disk {
        return None;
      }
      var s := disk[at];
      var kind := Be32(s, 4);
      if Be32(s, 0) != MAGIC || (kind != SB_V1 && kind != SB_V2) || Be32(s, JS_BLOCKSIZE) != bs {
        return None;
      }
      if kind == SB_V2 && !KnownFeatures(Be32(s, JS_FEATURE_INCOMPAT)) {
        return None;
      }
      maxlen := Be32(s, JS_MAXLEN);
      first := Be32(s, JS_FIRST);
      if first == 0 || first >= maxlen {
        return None;
      }
      return Some(s);
    }

    /** Fills the map, when there is anything to fill it from. */
    method JournalOverlay()
      requires Mounted() && jmap == [] && jrevoke == []
      modifies this
      ensures Fits() && jmap == Overlaid(bs, where, disk)
    {
      var sb := ReadSuper();
      if sb.None? {
        return;
      }
      var start, seqno := Be32(sb.value, JS_START), Be32(sb.value, JS_SEQUENCE);
      if start == 0 {
        return;
      }
      ghost var read := ReaderOf(TheLog(), disk);
      ReaderSpeaks(TheLog(), disk);
      PassesFind(TheLog(), disk, start, seqno);
      var end, bad := JPass(start, seqno, 0, false, read);
      if !bad && end != seqno {
        end, bad := JPass(start, seqno, end, true, read);
      }
      if bad {
        jmap := [];
      }
    }

    /** A block, from wherever the map has it. */
    method ReadBlock(blk: u32) returns (r: Option<Block>)
      requires Mounted()
      ensures r == Through(jmap, disk, blk)
    {
      var i := Find(blk);
      if i < |jmap| {
        if jmap[i].at !in disk {
          return None;
        }
        var b := disk[jmap[i].at];
        if jmap[i].escape {
          b := b[0 := 0xC0][1 := 0x3B][2 := 0x39][3 := 0x98];
          EscapeBytes(disk[jmap[i].at]);
        }
        return Some(b);
      }
      return if blk in disk then Some(disk[blk]) else None;
    }

    /** Mounting a volume and then reading a block of it. */
    method BootRead(blk: u32) returns (r: Option<Block>)
      requires Mounted() && jmap == [] && jrevoke == []
      modifies this
      ensures BootReads(bs, where, disk, blk, r)
    {
      JournalOverlay();
      r := ReadBlock(blk);
      OverlaidReads(bs, where, disk, blk);
    }
  }
}
