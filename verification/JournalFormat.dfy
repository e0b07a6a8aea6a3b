/**
Bytes of the JBD journal (ext3's), as kernel/fs/ext2.c writes them and as both
it and bootrom/bootrom.c read them: big-endian words, block headers, the tags
of a descriptor block and the block numbers of a revoke block.
*/
module JournalFormat {
  import opened Basics
  import opened BigEndian

  type Block = seq<byte>

  const MAGIC: u32 := 0xC03B3998
  const DESCRIPTOR: u32 := 1
  const COMMIT: u32 := 2
  const SB_V1: u32 := 3
  const SB_V2: u32 := 4
  const REVOKE: u32 := 5
  const HEADER: nat := 12
  const TAG_BYTES: nat := 8
  const UUID_BYTES: nat := 16

  /** Bytes before `n` are the same in both. */
  predicate SameBelow(a: Block, b: Block, n: nat) {
    |a| == |b| && n <= |a| && forall k :: 0 <= k < n ==> a[k] == b[k]
  }

  // ------------------------------------------------------------------
  // Headers
  // ------------------------------------------------------------------

  /** A log block's header: the magic, a type, and its transaction's sequence number. */
  predicate HasHeader(b: Block, kind: u32, seqno: u32) {
    |b| >= HEADER && Be32(b, 0) == MAGIC && Be32(b, 4) == kind && Be32(b, 8) == seqno
  }

  lemma SameHeader(a: Block, b: Block)
    requires SameBelow(a, b, HEADER)
    ensures forall kind, seqno :: HasHeader(a, kind, seqno) <==> HasHeader(b, kind, seqno)
  {
    BeSame(a, b, 0, 4);
    BeSame(a, b, 4, 4);
    BeSame(a, b, 8, 4);
  }

  function Header(bs: nat, kind: u32, seqno: u32): (b: Block)
    requires bs >= HEADER
    ensures |b| == bs && HasHeader(b, kind, seqno)
    ensures forall k :: HEADER <= k < bs ==> b[k] == 0
  {
    var b1 := Put32(seq(bs, _ => 0), 0, MAGIC);
    var b2 := Put32(b1, 4, kind);
    var b := Put32(b2, 8, seqno);
    BeSame(b1, b, 0, 4);
    BeSame(b2, b, 4, 4);
    b
  }

  // ------------------------------------------------------------------
  // Descriptor tags
  // ------------------------------------------------------------------

  /** One tag: the home block of a copy, and its flags. */
  datatype Tag = Tag(blk: u32, escape: bool, sameUuid: bool, last: bool)

  /** Bit `k` of a flag word. */
  function Bit(v: nat, k: nat): bool {
    if k == 0 then v % 2 == 1 else Bit(v / 2, k - 1)
  }

  function TagAt(b: Block, t: nat): Tag
    requires t + TAG_BYTES <= |b|
  {
    var fl := Be16(b, t + 6);
    Tag(Be32(b, t), Bit(fl, 0), Bit(fl, 1), Bit(fl, 3))
  }

  function TagWidth(tag: Tag): nat {
    TAG_BYTES + if tag.sameUuid then 0 else UUID_BYTES
  }

  /** The tags of a descriptor block from byte `t` on, up to the last tag or the end of the block. */
  function TagList(b: Block, t: nat): seq<Tag>
    decreases |b| - t
  {
    if t + TAG_BYTES > |b| then []
    else
      var tag := TagAt(b, t);
      if tag.last then [tag] else [tag] + TagList(b, t + TagWidth(tag))
  }

  lemma TagStep(b: Block, t: nat)
    requires t + TAG_BYTES <= |b|
    ensures var tags, tag := TagList(b, t), TagAt(b, t);
            tags != [] && tags[0] == tag && tags[1..] == if tag.last then [] else TagList(b, t + TagWidth(tag))
  {
  }

  /** A descriptor block has far fewer tags than bytes. */
  lemma {:induction false} TagsCount(b: Block, t: nat)
    ensures |TagList(b, t)| <= |b|
    decreases |b| - t
  {
    TagsCountFrom(b, t);
  }

  lemma {:induction false} TagsCountFrom(b: Block, t: nat)
    ensures |TagList(b, t)| <= if t <= |b| then |b| - t else 0
    decreases |b| - t
  {
    if t + TAG_BYTES <= |b| {
      var later := t + TagWidth(TagAt(b, t));
      TagsCountFrom(b, later);
      assert |TagList(b, t)| <= 1 + |TagList(b, later)|;
    }
  }

  function Flags(tag: Tag): (fl: nat)
    ensures fl < 65536
  {
    (if tag.escape then 1 else 0) + (if tag.sameUuid then 2 else 0) + (if tag.last then 8 else 0)
  }

  lemma FlagsRoundTrip(tag: Tag)
    ensures var fl := Flags(tag);
            Bit(fl, 0) == tag.escape && Bit(fl, 1) == tag.sameUuid && Bit(fl, 3) == tag.last
  {
    var fl := Flags(tag);
    assert Bit(fl, 3) == Bit(fl / 2, 2) == Bit(fl / 2 / 2, 1) == Bit(fl / 2 / 2 / 2, 0);
  }

  function TagsWidth(tags: seq<Tag>): nat {
    if tags == [] then 0 else TagWidth(tags[0]) + TagsWidth(tags[1..])
  }

  /** What a writer leaves: every tag but the last unmarked, the last one marked. */
  predicate Terminated(tags: seq<Tag>) {
    tags != [] && forall i :: 0 <= i < |tags| ==> (tags[i].last <==> i == |tags| - 1)
  }

  function PutTag(b: Block, t: nat, tag: Tag, uuid: Block): (r: Block)
    requires t + TagWidth(tag) <= |b| && |uuid| == UUID_BYTES
    ensures |r| == |b| && SameBelow(b, r, t)
    ensures TagAt(r, t) == tag
  {
    FlagsRoundTrip(tag);
    var b1 := Put32(b, t, tag.blk);
    var b2 := Put16(Put16(b1, t + 4, 0), t + 6, Flags(tag));
    var r := if tag.sameUuid then b2 else Put(b2, t + TAG_BYTES, uuid);
    BeSame(b1, r, t, 4);
    BeSame(b2, r, t + 6, 2);
    r
  }

  /** The block holds these tags, one after another, from byte `t` on. */
  predicate Holds(b: Block, t: nat, tags: seq<Tag>)
    decreases |tags|
  {
    tags == [] ||
    (t + TAG_BYTES <= |b| && TagAt(b, t) == tags[0] && Holds(b, t + TagWidth(tags[0]), tags[1..]))
  }

  function PutTags(b: Block, t: nat, tags: seq<Tag>, uuid: Block): (r: Block)
    requires t + TagsWidth(tags) <= |b| && |uuid| == UUID_BYTES
    ensures |r| == |b| && SameBelow(b, r, t) && Holds(r, t, tags)
    decreases |tags|
  {
    if tags == [] then b
    else
      var b1 := PutTag(b, t, tags[0], uuid);
      var t1 := t + TagWidth(tags[0]);
      var r := PutTags(b1, t1, tags[1..], uuid);
      TagBelow(b1, r, t, t1);
      r
  }

  /** Reading a descriptor's tags gives back the tags that were written. */
  lemma {:induction false} TagsRoundTrip(b: Block, t: nat, tags: seq<Tag>)
    requires Holds(b, t, tags) && Terminated(tags)
    ensures TagList(b, t) == tags
    decreases |tags|
  {
    TagStep(b, t);
    if |tags| > 1 {
      assert Terminated(tags[1..]);
      TagsRoundTrip(b, t + TagWidth(tags[0]), tags[1..]);
    }
    var read := TagList(b, t);
    assert read == [read[0]] + read[1..] && tags == [tags[0]] + tags[1..];
  }

  lemma TagBelow(a: Block, b: Block, t: nat, n: nat)
    requires SameBelow(a, b, n) && t + TAG_BYTES <= n
    ensures TagAt(a, t) == TagAt(b, t)
  {
    BeSame(a, b, t, 4);
    BeSame(a, b, t + 6, 2);
  }

  // ------------------------------------------------------------------
  // Revoke blocks
  // ------------------------------------------------------------------

  /** The blocks a revoke record names, from byte `r` to the byte count in its header. */
  function RevokedFrom(b: Block, r: nat, used: u32): seq<u32>
    decreases |b| - r
  {
    if r + 4 <= used && r + 4 <= |b| then [Be32(b, r)] + RevokedFrom(b, r + 4, used) else []
  }

  function RevokedIn(b: Block): seq<u32>
    requires |b| >= HEADER + 4
  {
    RevokedFrom(b, HEADER + 4, Be32(b, HEADER))
  }

  function PutWords(b: Block, o: nat, words: seq<u32>): (r: Block)
    requires o + 4 * |words| <= |b|
    ensures |r| == |b| && SameBelow(b, r, o)
    decreases |words|
  {
    if words == [] then b else PutWords(Put32(b, o, words[0]), o + 4, words[1..])
  }

  function RevokeBlock(bs: nat, seqno: u32, words: seq<u32>): (b: Block)
    requires HEADER + 4 + 4 * |words| <= bs < WORD
    ensures |b| == bs && HasHeader(b, REVOKE, seqno)
  {
    var b0 := Put32(Header(bs, REVOKE, seqno), HEADER, HEADER + 4 + 4 * |words|);
    var b := PutWords(b0, HEADER + 4, words);
    SameHeader(Header(bs, REVOKE, seqno), b);
    b
  }

  lemma {:induction false} WordsRoundTrip(b: Block, o: nat, words: seq<u32>)
    requires o + 4 * |words| <= |b| < WORD
    ensures RevokedFrom(PutWords(b, o, words), o, o + 4 * |words|) == words
    decreases |words|
  {
    if words != [] {
      var b1 := Put32(b, o, words[0]);
      var r := PutWords(b1, o + 4, words[1..]);
      BeSame(b1, r, o, 4);
      WordsRoundTrip(b1, o + 4, words[1..]);
      assert o + 4 + 4 * |words[1..]| == o + 4 * |words|;
      assert words == [words[0]] + words[1..];
    }
  }

  /** Reading a revoke record gives back the blocks that were written. */
  lemma RevokeRoundTrip(bs: nat, seqno: u32, words: seq<u32>)
    requires HEADER + 4 + 4 * |words| <= bs < WORD
    ensures RevokedIn(RevokeBlock(bs, seqno, words)) == words
  {
    var b0 := Put32(Header(bs, REVOKE, seqno), HEADER, HEADER + 4 + 4 * |words|);
    WordsRoundTrip(b0, HEADER + 4, words);
    BeSame(b0, RevokeBlock(bs, seqno, words), HEADER, 4);
  }

  // ------------------------------------------------------------------
  // The same, byte by byte
  // ------------------------------------------------------------------

  lemma HeaderBytes(b: Block, kind: byte, seqno: u32)
    requires |b| >= 12
    ensures HasHeader(b, kind, seqno)
       <==> b[..8] == [0xC0, 0x3B, 0x39, 0x98, 0, 0, 0, kind] && Be32(b, 8) == seqno
  {
    Be32Bytes(b, 0, 0xC0, 0x3B, 0x39, 0x98);
    Be32Bytes(b, 4, 0, 0, 0, kind);
  }

  /** A tag is a block number and, in its last byte, the flags. */
  lemma TagBytes(b: Block, t: nat)
    requires t + 8 <= |b|
    ensures var tag := TagAt(b, t);
            && tag.blk == OfFour(b[t], b[t + 1], b[t + 2], b[t + 3])
            && (tag.escape <==> b[t + 7] % 2 == 1) && (tag.sameUuid <==> b[t + 7] / 2 % 2 == 1)
            && (tag.last <==> b[t + 7] / 8 % 2 == 1)
  {
    Be32Is(b, t);
    Be16Is(b, t + 6);
    FlagBits(b[t + 6], b[t + 7]);
  }

  lemma FlagBits(hi: byte, lo: byte)
    ensures var fl: nat := OfFour(0, 0, hi, lo);
            && (Bit(fl, 0) <==> lo % 2 == 1) && (Bit(fl, 1) <==> lo / 2 % 2 == 1) && (Bit(fl, 3) <==> lo / 8 % 2 == 1)
  {
    LowBits(hi, lo);
  }

  lemma LowBits(hi: nat, lo: nat)
    ensures var fl := 256 * hi + lo;
            && (Bit(fl, 0) <==> lo % 2 == 1) && (Bit(fl, 1) <==> lo / 2 % 2 == 1) && (Bit(fl, 3) <==> lo / 8 % 2 == 1)
  {
    var fl := 256 * hi + lo;
    Halved(128 * hi, lo);
    Halved(64 * hi, lo / 2);
    Halved(32 * hi, lo / 4);
    Halved(16 * hi, lo / 8);
    assert Bit(fl, 1) == Bit(fl / 2, 0);
    assert Bit(fl, 3) == Bit(fl / 2, 2) == Bit(fl / 2 / 2, 1) == Bit(fl / 2 / 2 / 2, 0);
    assert lo / 2 / 2 == lo / 4 && lo / 4 / 2 == lo / 8;
  }

  lemma Halved(k: nat, x: nat)
    ensures (2 * k + x) / 2 == k + x / 2 && (2 * k + x) % 2 == x % 2
  {
  }

  /** A tag takes eight bytes, and sixteen more for an identifier of its own. */
  lemma TagTakes(b: Block, t: nat)
    requires t + 8 <= |b|
    ensures TagWidth(TagAt(b, t)) == if b[t + 7] / 2 % 2 == 1 then 8 else 24
  {
    TagBytes(b, t);
  }

  lemma {:induction false} RevokedFromAt(b: Block, r: nat, used: u32, i: nat)
    ensures var blks := RevokedFrom(b, r, used);
            && (i < |blks| <==> r + 4 * i + 4 <= used && r + 4 * i + 4 <= |b|)
            && (i < |blks| ==> blks[i] == Be32(b, r + 4 * i))
    decreases |b| - r
  {
    if r + 4 <= used && r + 4 <= |b| && i > 0 {
      RevokedFromAt(b, r + 4, used, i - 1);
    }
  }

  /** The blocks a revoke record names begin at byte 16 and end at the count in the word before, or with the block. */
  lemma RevokedBytes(b: Block, i: nat)
    requires |b| >= 16
    ensures var blks := RevokedIn(b);
            && (i < |blks| <==> 20 + 4 * i <= Be32(b, 12) && 20 + 4 * i <= |b|)
            && (i < |blks| ==> blks[i] == Be32(b, 16 + 4 * i))
  {
    RevokedFromAt(b, 16, Be32(b, 12), i);
  }
}
