/**
BLAKE2s-256 (kernel/crypto.c) fed a piece at a time, against the hash of the whole
message as section 3.3 of RFC 7693 defines it.
*/
module Blake2s {
  import opened Basics

  type Word = bv32
  type Byte = bv8

  const BLOCK: nat := 64

  const IV: seq<Word> := [
    0x6A09E667, 0xBB67AE85, 0x3C6EF372, 0xA54FF53A,
    0x510E527F, 0x9B05688C, 0x1F83D9AB, 0x5BE0CD19
  ]

  const SIGMA: seq<seq<nat>> := [
    [0, 1, 2, 3, 4, 5, 6, 7, 8, 9, 10, 11, 12, 13, 14, 15],
    [14, 10, 4, 8, 9, 15, 13, 6, 1, 12, 0, 2, 11, 7, 5, 3],
    [11, 8, 12, 0, 5, 2, 15, 13, 10, 14, 3, 6, 7, 1, 9, 4],
    [7, 9, 3, 1, 13, 12, 11, 14, 2, 6, 5, 10, 4, 0, 15, 8],
    [9, 0, 5, 7, 2, 4, 10, 15, 14, 1, 11, 12, 6, 8, 3, 13],
    [2, 12, 6, 10, 0, 11, 8, 3, 4, 13, 7, 5, 15, 14, 1, 9],
    [12, 5, 1, 15, 14, 13, 4, 10, 0, 7, 6, 3, 9, 2, 8, 11],
    [13, 11, 7, 14, 12, 1, 3, 9, 5, 0, 15, 4, 8, 6, 2, 10],
    [6, 15, 14, 9, 11, 3, 0, 8, 12, 2, 13, 7, 1, 4, 10, 5],
    [10, 2, 8, 4, 7, 6, 1, 5, 15, 11, 9, 14, 3, 12, 13, 0]
  ]

  // ------------------------------------------------------------------
  // The hash of a whole message
  // ------------------------------------------------------------------

  function Rotated(x: Word, n: nat): Word
    requires 0 < n < 32
  {
    (x >> n) | (x << (32 - n))
  }

  /** By the amounts used, the two shifts put together are a rotation. */
  lemma RotatedRotates(x: Word)
    ensures Rotated(x, 16) == x.RotateRight(16) && Rotated(x, 12) == x.RotateRight(12)
    ensures Rotated(x, 8) == x.RotateRight(8) && Rotated(x, 7) == x.RotateRight(7)
  {
  }

  /** Words `a`, `b`, `c`, `d` of the work vector. */
  datatype Four = Four(a: Word, b: Word, c: Word, d: Word)

  type Mixing = (Four, Word, Word) -> Four

  /** The two operations on words that mixing is made of: a sum, and an exclusive or turned right. */
  datatype Machine = Machine(sum: (Word, Word) -> Word, turn: (Word, Word, nat) -> Word)

  function Sum(x: Word, y: Word): Word {
    x + y
  }

  function Turn(x: Word, y: Word, n: nat): Word {
    if 0 < n < 32 then Rotated(x ^ y, n) else x ^ y
  }

  /** Words of 32 bits. */
  function Native(): Machine {
    Machine(Sum, Turn)
  }

  /** The mixing function G of section 3.1. */
  function MixBy(m: Machine, f: Four, x: Word, y: Word): Four {
    var a1 := m.sum(m.sum(f.a, f.b), x);
    var d1 := m.turn(f.d, a1, 16);
    var c1 := m.sum(f.c, d1);
    var b1 := m.turn(f.b, c1, 12);
    var a2 := m.sum(m.sum(a1, b1), y);
    var d2 := m.turn(d1, a2, 8);
    var c2 := m.sum(c1, d2);
    Four(a2, m.turn(b1, c2, 7), c2, d2)
  }

  function Mix(f: Four, x: Word, y: Word): Four {
    MixBy(Native(), f, x, y)
  }

  /** What these operations mix is this. */
  ghost predicate Mixes(m: Machine, mix: Mixing) {
    forall f, x, y :: mix(f, x, y) == MixBy(m, f, x, y)
  }

  type Vector = v: seq<Word> | |v| == 16 witness seq(16, _ => 0)
  type Chaining = h: seq<Word> | |h| == 8 witness seq(8, _ => 0)

  predicate Places(a: nat, b: nat, c: nat, d: nat) {
    a < 16 && b < 16 && c < 16 && d < 16 && a != b && a != c && a != d && b != c && b != d && c != d
  }

  function Mixed(mix: Mixing, v: Vector, a: nat, b: nat, c: nat, d: nat, x: Word, y: Word): Vector
    requires Places(a, b, c, d)
  {
    var f := mix(Four(v[a], v[b], v[c], v[d]), x, y);
    v[a := f.a][b := f.b][c := f.c][d := f.d]
  }

  predicate Schedule(s: seq<nat>) {
    |s| == 16 && forall i :: 0 <= i < 16 ==> s[i] < 16
  }

  /** A round: the columns, then the diagonals. */
  function Rounded(mix: Mixing, v: Vector, m: Vector, s: seq<nat>): Vector
    requires Schedule(s)
  {
    Diagonals(mix, Columns(mix, v, m, s), m, s)
  }

  function Columns(mix: Mixing, v: Vector, m: Vector, s: seq<nat>): Vector
    requires Schedule(s)
  {
    var v1 := Mixed(mix, v, 0, 4, 8, 12, m[s[0]], m[s[1]]);
    var v2 := Mixed(mix, v1, 1, 5, 9, 13, m[s[2]], m[s[3]]);
    var v3 := Mixed(mix, v2, 2, 6, 10, 14, m[s[4]], m[s[5]]);
    Mixed(mix, v3, 3, 7, 11, 15, m[s[6]], m[s[7]])
  }

  function Diagonals(mix: Mixing, v: Vector, m: Vector, s: seq<nat>): Vector
    requires Schedule(s)
  {
    var v1 := Mixed(mix, v, 0, 5, 10, 15, m[s[8]], m[s[9]]);
    var v2 := Mixed(mix, v1, 1, 6, 11, 12, m[s[10]], m[s[11]]);
    var v3 := Mixed(mix, v2, 2, 7, 8, 13, m[s[12]], m[s[13]]);
    Mixed(mix, v3, 3, 4, 9, 14, m[s[14]], m[s[15]])
  }

  /** The four words in each column of the vector, which stands as four rows of four. */
  function Grid(f: Four, g: Four, h: Four, i: Four): Vector {
    [f.a, g.a, h.a, i.a, f.b, g.b, h.b, i.b, f.c, g.c, h.c, i.c, f.d, g.d, h.d, i.d]
  }

  /** The four words in each of its diagonals. */
  function Slant(f: Four, g: Four, h: Four, i: Four): Vector {
    [f.a, g.a, h.a, i.a, i.b, f.b, g.b, h.b, h.c, i.c, f.c, g.c, g.d, h.d, i.d, f.d]
  }

  /** The four words at these places are now those of `f`, and the others as they were. */
  predicate Puts(v: Vector, w: Vector, a: nat, b: nat, c: nat, d: nat, f: Four)
    requires Places(a, b, c, d)
  {
    Four(w[a], w[b], w[c], w[d]) == f && forall k :: 0 <= k < 16 && k != a && k != b && k != c && k != d ==> w[k] == v[k]
  }

  lemma MixedPuts(mix: Mixing, v: Vector, a: nat, b: nat, c: nat, d: nat, x: Word, y: Word)
    requires Places(a, b, c, d)
    ensures Puts(v, Mixed(mix, v, a, b, c, d, x, y), a, b, c, d, mix(Four(v[a], v[b], v[c], v[d]), x, y))
  {
  }

  lemma PutsGrid(v: Vector, v1: Vector, v2: Vector, v3: Vector, v4: Vector, f: Four, g: Four, h: Four, i: Four)
    requires Puts(v, v1, 0, 4, 8, 12, f) && Puts(v1, v2, 1, 5, 9, 13, g) && Puts(v2, v3, 2, 6, 10, 14, h) && Puts(v3, v4, 3, 7, 11, 15, i)
    ensures v4 == Grid(f, g, h, i)
  {
  }

  lemma ColumnsApart(v: Vector, v1: Vector, v2: Vector, v3: Vector, f: Four, g: Four, h: Four)
    requires Puts(v, v1, 0, 4, 8, 12, f) && Puts(v1, v2, 1, 5, 9, 13, g) && Puts(v2, v3, 2, 6, 10, 14, h)
    ensures Four(v1[1], v1[5], v1[9], v1[13]) == Four(v[1], v[5], v[9], v[13])
    ensures Four(v2[2], v2[6], v2[10], v2[14]) == Four(v[2], v[6], v[10], v[14])
    ensures Four(v3[3], v3[7], v3[11], v3[15]) == Four(v[3], v[7], v[11], v[15])
  {
  }

  lemma PutsSlant(v: Vector, v1: Vector, v2: Vector, v3: Vector, v4: Vector, f: Four, g: Four, h: Four, i: Four)
    requires Puts(v, v1, 0, 5, 10, 15, f) && Puts(v1, v2, 1, 6, 11, 12, g) && Puts(v2, v3, 2, 7, 8, 13, h) && Puts(v3, v4, 3, 4, 9, 14, i)
    ensures v4 == Slant(f, g, h, i)
  {
  }

  lemma DiagonalsApart(v: Vector, v1: Vector, v2: Vector, v3: Vector, f: Four, g: Four, h: Four)
    requires Puts(v, v1, 0, 5, 10, 15, f) && Puts(v1, v2, 1, 6, 11, 12, g) && Puts(v2, v3, 2, 7, 8, 13, h)
    ensures Four(v1[1], v1[6], v1[11], v1[12]) == Four(v[1], v[6], v[11], v[12])
    ensures Four(v2[2], v2[7], v2[8], v2[13]) == Four(v[2], v[7], v[8], v[13])
    ensures Four(v3[3], v3[4], v3[9], v3[14]) == Four(v[3], v[4], v[9], v[14])
  {
  }

  /** The columns are mixed each on its own, with two words of the message. */
  lemma ColumnsAre(mix: Mixing, v: Vector, m: Vector, s: seq<nat>)
    requires Schedule(s)
    ensures Columns(mix, v, m, s)
            == Grid(mix(Four(v[0], v[4], v[8], v[12]), m[s[0]], m[s[1]]), mix(Four(v[1], v[5], v[9], v[13]), m[s[2]], m[s[3]]),
                    mix(Four(v[2], v[6], v[10], v[14]), m[s[4]], m[s[5]]), mix(Four(v[3], v[7], v[11], v[15]), m[s[6]], m[s[7]]))
  {
    ColumnsOf(mix, v, m[s[0]], m[s[1]], m[s[2]], m[s[3]], m[s[4]], m[s[5]], m[s[6]], m[s[7]]);
  }

  lemma ColumnsOf(mix: Mixing, v: Vector, a: Word, b: Word, c: Word, d: Word, e: Word, f: Word, g: Word, h: Word)
    ensures var v1 := Mixed(mix, v, 0, 4, 8, 12, a, b);
            var v2 := Mixed(mix, v1, 1, 5, 9, 13, c, d);
            var v3 := Mixed(mix, v2, 2, 6, 10, 14, e, f);
            Mixed(mix, v3, 3, 7, 11, 15, g, h)
            == Grid(mix(Four(v[0], v[4], v[8], v[12]), a, b), mix(Four(v[1], v[5], v[9], v[13]), c, d),
                    mix(Four(v[2], v[6], v[10], v[14]), e, f), mix(Four(v[3], v[7], v[11], v[15]), g, h))
  {
    var v1 := Mixed(mix, v, 0, 4, 8, 12, a, b);
    var v2 := Mixed(mix, v1, 1, 5, 9, 13, c, d);
    var v3 := Mixed(mix, v2, 2, 6, 10, 14, e, f);
    var v4 := Mixed(mix, v3, 3, 7, 11, 15, g, h);
    MixedPuts(mix, v, 0, 4, 8, 12, a, b);
    MixedPuts(mix, v1, 1, 5, 9, 13, c, d);
    MixedPuts(mix, v2, 2, 6, 10, 14, e, f);
    MixedPuts(mix, v3, 3, 7, 11, 15, g, h);
    var x, y, z, t := mix(Four(v[0], v[4], v[8], v[12]), a, b), mix(Four(v1[1], v1[5], v1[9], v1[13]), c, d),
                      mix(Four(v2[2], v2[6], v2[10], v2[14]), e, f), mix(Four(v3[3], v3[7], v3[11], v3[15]), g, h);
    ColumnsApart(v, v1, v2, v3, x, y, z);
    PutsGrid(v, v1, v2, v3, v4, x, y, z, t);
  }

  /** So are the diagonals. */
  lemma DiagonalsAre(mix: Mixing, v: Vector, m: Vector, s: seq<nat>)
    requires Schedule(s)
    ensures Diagonals(mix, v, m, s)
            == Slant(mix(Four(v[0], v[5], v[10], v[15]), m[s[8]], m[s[9]]), mix(Four(v[1], v[6], v[11], v[12]), m[s[10]], m[s[11]]),
                     mix(Four(v[2], v[7], v[8], v[13]), m[s[12]], m[s[13]]), mix(Four(v[3], v[4], v[9], v[14]), m[s[14]], m[s[15]]))
  {
    DiagonalsOf(mix, v, m[s[8]], m[s[9]], m[s[10]], m[s[11]], m[s[12]], m[s[13]], m[s[14]], m[s[15]]);
  }

  lemma DiagonalsOf(mix: Mixing, v: Vector, a: Word, b: Word, c: Word, d: Word, e: Word, f: Word, g: Word, h: Word)
    ensures var v1 := Mixed(mix, v, 0, 5, 10, 15, a, b);
            var v2 := Mixed(mix, v1, 1, 6, 11, 12, c, d);
            var v3 := Mixed(mix, v2, 2, 7, 8, 13, e, f);
            Mixed(mix, v3, 3, 4, 9, 14, g, h)
            == Slant(mix(Four(v[0], v[5], v[10], v[15]), a, b), mix(Four(v[1], v[6], v[11], v[12]), c, d),
                     mix(Four(v[2], v[7], v[8], v[13]), e, f), mix(Four(v[3], v[4], v[9], v[14]), g, h))
  {
    var v1 := Mixed(mix, v, 0, 5, 10, 15, a, b);
    var v2 := Mixed(mix, v1, 1, 6, 11, 12, c, d);
    var v3 := Mixed(mix, v2, 2, 7, 8, 13, e, f);
    var v4 := Mixed(mix, v3, 3, 4, 9, 14, g, h);
    MixedPuts(mix, v, 0, 5, 10, 15, a, b);
    MixedPuts(mix, v1, 1, 6, 11, 12, c, d);
    MixedPuts(mix, v2, 2, 7, 8, 13, e, f);
    MixedPuts(mix, v3, 3, 4, 9, 14, g, h);
    var x, y, z, t := mix(Four(v[0], v[5], v[10], v[15]), a, b), mix(Four(v1[1], v1[6], v1[11], v1[12]), c, d),
                      mix(Four(v2[2], v2[7], v2[8], v2[13]), e, f), mix(Four(v3[3], v3[4], v3[9], v3[14]), g, h);
    DiagonalsApart(v, v1, v2, v3, x, y, z);
    PutsSlant(v, v1, v2, v3, v4, x, y, z, t);
  }

  function Rounds(mix: Mixing, v: Vector, m: Vector, n: nat): Vector
    requires n <= |SIGMA|
  {
    if n == 0 then v else Rounded(mix, Rounds(mix, v, m, n - 1), m, Sigma(n - 1))
  }

  function Sigma(i: nat): (s: seq<nat>)
    requires i < |SIGMA|
    ensures Schedule(s)
  {
    SIGMA[i]
  }

  /** The low and high words of a 64-bit counter. */
  function Low(t: nat): nat {
    t % 0x1_0000_0000
  }

  function High(t: nat): nat {
    t / 0x1_0000_0000 % 0x1_0000_0000
  }

  function ToWord(x: nat): Word {
    (x % 0x1_0000_0000) as bv32
  }

  /** The work vector at the start, section 3.2. */
  function Start(h: Chaining, lo: Word, hi: Word, last: bool): Vector {
    var v := h + IV;
    var v1 := v[12 := v[12] ^ lo][13 := v[13] ^ hi];
    if last then v1[14 := !v1[14]] else v1
  }

  /** The first `n` words of the next chaining value. */
  function Folded(h: Chaining, v: Vector, n: nat): (r: seq<Word>)
    requires n <= 8
    ensures |r| == n
  {
    if n == 0 then [] else Folded(h, v, n - 1) + [h[n - 1] ^ (v[n - 1] ^ v[n + 7])]
  }

  /** Little-endian words of a block. */
  function WordAt(b: seq<Byte>, i: nat): Word
    requires 4 * i + 4 <= |b|
  {
    (b[4 * i] as bv32) | ((b[4 * i + 1] as bv32) << 8) | ((b[4 * i + 2] as bv32) << 16) | ((b[4 * i + 3] as bv32) << 24)
  }

  function Words(b: seq<Byte>, n: nat): (m: seq<Word>)
    requires 4 * n <= |b|
    ensures |m| == n && forall i :: 0 <= i < n ==> m[i] == WordAt(b, i)
  {
    if n == 0 then [] else Words(b, n - 1) + [WordAt(b, n - 1)]
  }

  /** The compression function of section 3.2, whatever mixes four words, with the offset counter as its two words. */
  function FBy(mix: Mixing, h: Chaining, block: seq<Byte>, lo: nat, hi: nat, last: bool): Chaining {
    if |block| != BLOCK then h
    else Folded(h, Rounds(mix, Start(h, ToWord(lo), ToWord(hi), last), Words(block, 16), |SIGMA|), |h|)
  }

  function F(h: Chaining, block: seq<Byte>, lo: nat, hi: nat, last: bool): Chaining {
    FBy(Mix, h, block, lo, hi, last)
  }

  type Compression = (Chaining, seq<Byte>, nat, nat, bool) -> Chaining

  /** Depth and fanout 1, no key, a digest of 32 bytes. */
  function First(): Chaining {
    IV[0 := IV[0] ^ 0x01010000 ^ 32]
  }

  /** The chaining value after `n` whole blocks with more to follow them, whatever compresses a block. */
  function Chain(f: Compression, data: seq<Byte>, n: nat): Chaining
    requires BLOCK * n <= |data|
  {
    if n == 0 then First()
    else
      var t := BLOCK * n;
      f(Chain(f, data, n - 1), data[BLOCK * (n - 1)..t], Low(t), High(t), false)
  }

  /** How many blocks a message takes: one even when it is empty. */
  function Blocks(len: nat): (dd: nat)
    ensures dd > 0 && BLOCK * (dd - 1) <= len <= BLOCK * dd
  {
    if len == 0 then 1 else (len + BLOCK - 1) / BLOCK
  }

  function Bytes(w: Word): seq<Byte> {
    [(w & 0xff) as bv8, ((w >> 8) & 0xff) as bv8, ((w >> 16) & 0xff) as bv8, ((w >> 24) & 0xff) as bv8]
  }

  function Output(h: seq<Word>): seq<Byte> {
    if h == [] then [] else Output(h[..|h| - 1]) + Bytes(h[|h| - 1])
  }

  /** Section 3.3: the last block, filled up with zeros, is compressed with the length of the message. */
  function Final(f: Compression, data: seq<Byte>): Chaining {
    FinalAfter(f, data, Blocks(|data|) - 1)
  }

  function FinalAfter(f: Compression, data: seq<Byte>, n: nat): Chaining
    requires BLOCK * n <= |data| <= BLOCK * n + BLOCK
  {
    var rest := data[BLOCK * n..];
    f(Chain(f, data, n), rest + Repeat(0, BLOCK - |rest|), Low(|data|), High(|data|), true)
  }

  function Hash(data: seq<Byte>): seq<Byte> {
    Output(Final(F, data))
  }

  // ------------------------------------------------------------------
  // Words, bytes and tables
  // ------------------------------------------------------------------

  /** The bytes of a word, lowest first, are the four of the message. */
  lemma WordIs(b: seq<Byte>, i: nat)
    requires 4 * i + 4 <= |b|
    ensures WordAt(b, i) & 0xff == b[4 * i] as bv32 && (WordAt(b, i) >> 8) & 0xff == b[4 * i + 1] as bv32
    ensures (WordAt(b, i) >> 16) & 0xff == b[4 * i + 2] as bv32 && WordAt(b, i) >> 24 == b[4 * i + 3] as bv32
  {
    FourBytes(b[4 * i], b[4 * i + 1], b[4 * i + 2], b[4 * i + 3]);
  }

  lemma FourBytes(p: Byte, q: Byte, r: Byte, s: Byte)
    ensures var w := (p as bv32) | ((q as bv32) << 8) | ((r as bv32) << 16) | ((s as bv32) << 24);
            && w & 0xff == p as bv32 && (w >> 8) & 0xff == q as bv32 && (w >> 16) & 0xff == r as bv32 && w >> 24 == s as bv32
            && Bytes(w) == [p, q, r, s]
  {
  }

  /** A word written out is read back, and four bytes read are written back. */
  lemma WordOfBytes(w: Word)
    ensures WordAt(Bytes(w), 0) == w
  {
  }

  lemma BytesOfWord(b: seq<Byte>, i: nat)
    requires 4 * i + 4 <= |b|
    ensures Bytes(WordAt(b, i)) == b[4 * i..4 * i + 4]
  {
    FourBytes(b[4 * i], b[4 * i + 1], b[4 * i + 2], b[4 * i + 3]);
    FourOf(b, i);
  }

  lemma FourOf(b: seq<Byte>, i: nat)
    requires 4 * i + 4 <= |b|
    ensures b[4 * i..4 * i + 4] == [b[4 * i], b[4 * i + 1], b[4 * i + 2], b[4 * i + 3]]
  {
  }

  /** The words of a digest are those written out. */
  lemma {:induction false} OutputReads(h: seq<Word>)
    ensures |Output(h)| == 4 * |h| && Words(Output(h), |h|) == h
  {
    if h != [] {
      var n := |h| - 1;
      OutputReads(h[..n]);
      OneMoreWord(Output(h[..n]), n, h[n]);
      assert h == h[..n] + [h[n]];
    }
  }

  lemma OneMoreWord(b: seq<Byte>, n: nat, w: Word)
    requires |b| == 4 * n
    ensures Words(b + Bytes(w), n + 1) == Words(b, n) + [w]
  {
    WordsPrefix(b, Bytes(w), n);
    WordBehind(b, Bytes(w), n);
    WordOfBytes(w);
  }

  lemma WordBehind(b: seq<Byte>, more: seq<Byte>, n: nat)
    requires |b| == 4 * n && |more| == 4
    ensures WordAt(b + more, n) == WordAt(more, 0)
  {
  }

  lemma {:induction false} WordsPrefix(b: seq<Byte>, more: seq<Byte>, n: nat)
    requires 4 * n <= |b|
    ensures Words(b + more, n) == Words(b, n)
  {
    if n > 0 {
      WordsPrefix(b, more, n - 1);
      assert (b + more)[..4 * n] == b[..4 * n];
      assert WordAt(b + more, n - 1) == WordAt(b, n - 1);
    }
  }

  /** A digest is the words' bytes one after the other. */
  lemma {:induction false} OutputIs(h: seq<Word>, out: seq<Byte>)
    requires |out| == 4 * |h| && forall i :: 0 <= i < |h| ==> Bytes(h[i]) == out[4 * i..4 * i + 4]
    ensures Output(h) == out
  {
    if h != [] {
      var n := |h| - 1;
      forall i | 0 <= i < n
        ensures Bytes(h[..n][i]) == out[..4 * n][4 * i..4 * i + 4]
      {
        assert Bytes(h[i]) == out[4 * i..4 * i + 4];
        FourOf(out, i);
        FourOf(out[..4 * n], i);
      }
      OutputIs(h[..n], out[..4 * n]);
      assert out == out[..4 * n] + out[4 * n..4 * n + 4];
    }
  }

  lemma {:induction false} FoldedAt(h: Chaining, v: Vector, n: nat, i: nat)
    requires i < n <= 8
    ensures Folded(h, v, n)[i] == h[i] ^ v[i] ^ v[8 + i]
  {
    if i < n - 1 {
      FoldedAt(h, v, n - 1, i);
    } else {
      XorGroups(h[i], v[i], v[8 + i]);
    }
  }

  lemma XorGroups(x: Word, y: Word, z: Word)
    ensures x ^ (y ^ z) == x ^ y ^ z
  {
  }

  /** The first eight primes, and the whole part of the square root of each. */
  const PRIMES: seq<nat> := [2, 3, 5, 7, 11, 13, 17, 19]
  const ROOTS: seq<nat> := [1, 1, 2, 2, 3, 3, 4, 4]

  /** Word `i` of the initial value is the first 32 bits of the fraction of the square root of the ith prime. */
  lemma IvIsRoot(i: nat)
    requires i < 8
    ensures var x := ROOTS[i] * 0x1_0000_0000 + IV[i] as nat;
            x * x < PRIMES[i] * 0x1_0000_0000_0000_0000 < (x + 1) * (x + 1)
  {
    assert i == 0 || i == 1 || i == 2 || i == 3 || i == 4 || i == 5 || i == 6 || i == 7;
  }

  /** Where each word of the message goes in each round. */
  const WHERE: seq<seq<nat>> := [
    [0, 1, 2, 3, 4, 5, 6, 7, 8, 9, 10, 11, 12, 13, 14, 15],
    [10, 8, 11, 15, 2, 14, 7, 13, 3, 4, 1, 12, 9, 6, 0, 5],
    [3, 13, 5, 10, 15, 4, 11, 12, 1, 14, 8, 0, 2, 7, 9, 6],
    [13, 3, 8, 2, 12, 10, 9, 0, 15, 1, 11, 6, 5, 4, 7, 14],
    [1, 9, 4, 14, 5, 2, 12, 3, 13, 0, 6, 10, 11, 15, 8, 7],
    [4, 14, 0, 7, 8, 11, 2, 10, 6, 15, 3, 5, 1, 9, 13, 12],
    [8, 2, 13, 11, 6, 1, 10, 9, 14, 12, 7, 15, 0, 5, 4, 3],
    [9, 5, 14, 6, 11, 8, 13, 2, 12, 7, 15, 1, 4, 0, 3, 10],
    [6, 12, 9, 5, 13, 15, 0, 11, 7, 3, 14, 4, 8, 10, 2, 1],
    [15, 6, 1, 12, 3, 7, 5, 4, 2, 10, 0, 9, 13, 14, 11, 8]
  ]

  predicate Undoes(w: seq<nat>, s: seq<nat>)
    requires Schedule(w) && Schedule(s)
  {
    && w[s[0]] == 0 && w[s[1]] == 1 && w[s[2]] == 2 && w[s[3]] == 3 && w[s[4]] == 4 && w[s[5]] == 5 && w[s[6]] == 6 && w[s[7]] == 7
    && w[s[8]] == 8 && w[s[9]] == 9 && w[s[10]] == 10 && w[s[11]] == 11 && w[s[12]] == 12 && w[s[13]] == 13 && w[s[14]] == 14 && w[s[15]] == 15
  }

  lemma RowPermutes(i: nat)
    requires i < 10
    ensures |SIGMA| == |WHERE| == 10 && Schedule(SIGMA[i]) && Schedule(WHERE[i])
    ensures Undoes(WHERE[i], SIGMA[i]) && Undoes(SIGMA[i], WHERE[i])
  {
    if i < 5 {
      EarlyRow(i);
    } else {
      LateRow(i);
    }
  }

  lemma EarlyRow(i: nat)
    requires i < 5
    ensures Schedule(SIGMA[i]) && Schedule(WHERE[i]) && Undoes(WHERE[i], SIGMA[i]) && Undoes(SIGMA[i], WHERE[i])
  {
    assert i == 0 || i == 1 || i == 2 || i == 3 || i == 4;
  }

  lemma LateRow(i: nat)
    requires 5 <= i < 10
    ensures Schedule(SIGMA[i]) && Schedule(WHERE[i]) && Undoes(WHERE[i], SIGMA[i]) && Undoes(SIGMA[i], WHERE[i])
  {
    assert i == 5 || i == 6 || i == 7 || i == 8 || i == 9;
  }

  lemma UndoesAt(w: seq<nat>, s: seq<nat>, x: nat)
    requires Schedule(w) && Schedule(s) && Undoes(w, s) && x < 16
    ensures w[s[x]] == x
  {
    assert x < 8 || x == 8 || x == 9 || x == 10 || x == 11 || x == 12 || x == 13 || x == 14 || x == 15;
  }

  /** Each round takes every word of the message once. */
  lemma SigmaPermutes(i: nat, x: nat)
    requires i < 10 && x < 16
    ensures |SIGMA| == |WHERE| == 10 && Schedule(SIGMA[i]) && Schedule(WHERE[i])
    ensures SIGMA[i][WHERE[i][x]] == x && WHERE[i][SIGMA[i][x]] == x
  {
    RowPermutes(i);
    UndoesAt(WHERE[i], SIGMA[i], x);
    UndoesAt(SIGMA[i], WHERE[i], x);
  }

  /** The work vector: the chaining value, then the initial value with the counter and the last block's mark put in. */
  lemma StartIs(h: Chaining, lo: Word, hi: Word, last: bool, i: nat)
    requires i < 8
    ensures Start(h, lo, hi, last)[i] == h[i]
    ensures i < 4 || i == 7 ==> Start(h, lo, hi, last)[8 + i] == IV[i]
    ensures Start(h, lo, hi, last)[12] == 0x510E527F ^ lo && Start(h, lo, hi, last)[13] == 0x9B05688C ^ hi
    ensures Start(h, lo, hi, last)[14] == if last then 0xE07C2654 else 0x1F83D9AB
  {
  }

  /** A message's blocks are compressed in order, each with the number of bytes up to its end, the last with the mark. */
  lemma BlocksInOrder(f: Compression, data: seq<Byte>, n: nat)
    requires 64 * n <= |data| < 0x1_0000_0000
    ensures n > 0 ==> Chain(f, data, n) == f(Chain(f, data, n - 1), data[64 * n - 64..64 * n], 64 * n, 0, false)
    ensures |data| <= 64 * n + 64 && (n > 0 ==> |data| > 64 * n) ==>
              Final(f, data) == f(Chain(f, data, n), data[64 * n..] + Repeat(0, 64 * n + 64 - |data|), |data|, 0, true)
  {
    if n > 0 {
      SmallCount(64 * n);
    }
    if |data| <= 64 * n + 64 && (n > 0 ==> |data| > 64 * n) {
      LastInOrder(f, data, n);
    }
  }

  lemma LastInOrder(f: Compression, data: seq<Byte>, n: nat)
    requires 64 * n <= |data| < 0x1_0000_0000 && |data| <= 64 * n + 64 && (n > 0 ==> |data| > 64 * n)
    ensures Final(f, data) == f(Chain(f, data, n), data[64 * n..] + Repeat(0, 64 * n + 64 - |data|), |data|, 0, true)
  {
    var at := 64 * n;
    var buf := data[at..];
    SmallCount(|data|);
    LastBlock(f, data, n, |buf|);
    FinishAfter(f, Chain(f, data, n), buf, data, n, at);
    assert BLOCK - |buf| == at + 64 - |data|;
  }

  lemma SmallCount(x: nat)
    requires x < 0x1_0000_0000
    ensures Low(x) == x && High(x) == 0
  {
  }

  /** A message of one block or less, filled up with zeros. */
  lemma OneBlock(f: Compression, data: seq<Byte>)
    requires |data| <= 64
    ensures Final(f, data) == f(First(), data + Repeat(0, 64 - |data|), |data|, 0, true)
  {
    SmallCount(|data|);
    LastBlock(f, data, 0, |data|);
    FinishAfter(f, First(), data, data, 0, 0);
  }

  lemma FIs(h: Chaining, block: seq<Byte>, lo: nat, hi: nat, last: bool, v: Vector, m: Vector, w: Vector)
    requires |block| == 64 && v == Start(h, ToWord(lo), ToWord(hi), last) && m == Words(block, 16) && w == Rounds(Mix, v, m, |SIGMA|)
    ensures F(h, block, lo, hi, last) == Folded(h, w, |h|)
  {
  }

  // ------------------------------------------------------------------
  // The kernel's arithmetic
  // ------------------------------------------------------------------

  /** The parameter word put together with an or. */
  lemma ParameterWord(x: Word)
    ensures x ^ (0x01010000 | 32) == x ^ 0x01010000 ^ 32
  {
  }

  /** Adding to the low word, with the carry its wrapping tells of. */
  lemma CounterCarries(t: nat, n: nat)
    requires n <= BLOCK
    ensures var lo := (Low(t) + n) % WORD;
            && Low(t + n) == lo
            && High(t + n) == if lo < n then (High(t) + 1) % WORD else High(t)
  {
    var q, r := t / WORD, t % WORD;
    assert t == q * WORD + r;
    if r + n < WORD {
      Split(t + n, q, r + n);
    } else {
      assert t + n == (q + 1) * WORD + (r + n - WORD);
      Split(t + n, q + 1, r + n - WORD);
      NextHigh(q);
    }
  }

  lemma Split(x: nat, q: nat, r: nat)
    requires x == q * WORD + r && r < WORD
    ensures x / WORD == q && x % WORD == r
  {
  }

  lemma NextHigh(q: nat)
    ensures (q + 1) % WORD == (q % WORD + 1) % WORD
  {
  }

  // ------------------------------------------------------------------
  // Feeding a message a piece at a time
  // ------------------------------------------------------------------

  /** What the state holds when `data` has been fed to it: whole blocks compressed, but for the last. */
  ghost predicate Absorbed(f: Compression, h: seq<Word>, t0: nat, t1: nat, buf: seq<Byte>, data: seq<Byte>, n: nat) {
    && BLOCK * n + |buf| == |data| && |buf| <= BLOCK && (n > 0 ==> buf != [])
    && h == Chain(f, data, n) && t0 == Low(BLOCK * n) && t1 == High(BLOCK * n) && buf == data[BLOCK * n..]
  }

  lemma {:induction false} ChainPrefix(f: Compression, data: seq<Byte>, more: seq<Byte>, n: nat)
    requires BLOCK * n <= |data|
    ensures Chain(f, data + more, n) == Chain(f, data, n)
  {
    if n > 0 {
      ChainPrefix(f, data, more, n - 1);
      assert (data + more)[BLOCK * (n - 1)..BLOCK * n] == data[BLOCK * (n - 1)..BLOCK * n];
    }
  }

  /** More bytes behind a block that is not full. */
  lemma AbsorbsMore(f: Compression, h: seq<Word>, t0: nat, t1: nat, buf: seq<Byte>, data: seq<Byte>, n: nat, more: seq<Byte>)
    requires Absorbed(f, h, t0, t1, buf, data, n) && |buf| + |more| <= BLOCK
    ensures Absorbed(f, h, t0, t1, buf + more, data + more, n)
  {
    ChainPrefix(f, data, more, n);
    assert (data + more)[BLOCK * n..] == data[BLOCK * n..] + more;
  }

  /** The state once a full block is compressed because more is to follow. */
  ghost predicate Emptied(f: Compression, h: seq<Word>, t0: nat, t1: nat, data: seq<Byte>, n: nat) {
    BLOCK * n == |data| && h == Chain(f, data, n) && t0 == Low(BLOCK * n) && t1 == High(BLOCK * n)
  }

  lemma CompressesFull(f: Compression, h: Chaining, t0: nat, t1: nat, buf: seq<Byte>, data: seq<Byte>, n: nat)
    requires Absorbed(f, h, t0, t1, buf, data, n) && |buf| == BLOCK
    ensures var t := BLOCK * n + BLOCK;
            Emptied(f, f(h, buf, Low(t), High(t), false), Low(t), High(t), data, n + 1)
  {
    assert BLOCK * (n + 1) == BLOCK * n + BLOCK;
    assert data[BLOCK * n..BLOCK * (n + 1)] == buf;
  }

  lemma FillsAgain(f: Compression, h: seq<Word>, t0: nat, t1: nat, data: seq<Byte>, n: nat, more: seq<Byte>)
    requires Emptied(f, h, t0, t1, data, n) && 0 < |more| <= BLOCK
    ensures Absorbed(f, h, t0, t1, more, data + more, n)
  {
    ChainPrefix(f, data, more, n);
    assert (data + more)[BLOCK * n..] == more;
  }

  lemma BlocksAre(len: nat, n: nat, r: nat)
    requires len == BLOCK * n + r && r <= BLOCK && (n > 0 ==> r > 0)
    ensures Blocks(len) == n + 1
  {
  }

  /** The block held back is the last one of the definition. */
  lemma LastBlock(f: Compression, data: seq<Byte>, n: nat, r: nat)
    requires |data| == BLOCK * n + r && r <= BLOCK && (n > 0 ==> r > 0)
    ensures Final(f, data) == FinalAfter(f, data, n)
  {
    BlocksAre(|data|, n, r);
  }

  /** What compressing the block held back, filled up with zeros, comes to. */
  lemma FinishIs(f: Compression, h: Chaining, t0: nat, t1: nat, buf: seq<Byte>, data: seq<Byte>, n: nat)
    requires Absorbed(f, h, t0, t1, buf, data, n)
    ensures f(h, buf + Repeat(0, BLOCK - |buf|), Low(|data|), High(|data|), true) == Final(f, data)
  {
    LastBlock(f, data, n, |buf|);
    FinishAfter(f, h, buf, data, n, BLOCK * n);
  }

  lemma FinishAfter(f: Compression, h: Chaining, buf: seq<Byte>, data: seq<Byte>, n: nat, at: nat)
    requires at == BLOCK * n && at + |buf| == |data| && |buf| <= BLOCK && h == Chain(f, data, n) && buf == data[at..]
    ensures f(h, buf + Repeat(0, BLOCK - |buf|), Low(|data|), High(|data|), true) == FinalAfter(f, data, n)
  {
  }

  // ------------------------------------------------------------------
  // The kernel's code
  // ------------------------------------------------------------------

  /** The macro B2S_G: the four words of the work vector, each written twice. */
  method G(mc: Machine, v: array<Word>, a: nat, b: nat, c: nat, d: nat, x: Word, y: Word, ghost mix: Mixing)
    requires v.Length == 16 && Places(a, b, c, d) && Mixes(mc, mix)
    modifies v
    ensures v[..] == Mixed(mix, old(v[..]), a, b, c, d, x, y)
  {
    v[a] := mc.sum(mc.sum(v[a], v[b]), x);
    v[d] := mc.turn(v[d], v[a], 16);
    v[c] := mc.sum(v[c], v[d]);
    v[b] := mc.turn(v[b], v[c], 12);
    v[a] := mc.sum(mc.sum(v[a], v[b]), y);
    v[d] := mc.turn(v[d], v[a], 8);
    v[c] := mc.sum(v[c], v[d]);
    v[b] := mc.turn(v[b], v[c], 7);
    ghost var was := old(v[..]);
    ghost var f := MixBy(mc, Four(was[a], was[b], was[c], was[d]), x, y);
    IsMixed(was, v[..], a, b, c, d, f);
    assert mix(Four(was[a], was[b], was[c], was[d]), x, y) == f;
  }

  lemma IsMixed(was: Vector, v: seq<Word>, a: nat, b: nat, c: nat, d: nat, f: Four)
    requires |v| == 16 && Places(a, b, c, d) && Four(v[a], v[b], v[c], v[d]) == f
    requires forall k :: 0 <= k < 16 && k != a && k != b && k != c && k != d ==> v[k] == was[k]
    ensures v == was[a := f.a][b := f.b][c := f.c][d := f.d]
  {
  }

  method RoundColumns(mc: Machine, v: array<Word>, m: array<Word>, s: seq<nat>, ghost mix: Mixing)
    requires v.Length == 16 && m.Length == 16 && v != m && Schedule(s) && Mixes(mc, mix)
    modifies v
    ensures v[..] == Columns(mix, old(v[..]), m[..], s)
  {
    G(mc, v, 0, 4, 8, 12, m[s[0]], m[s[1]], mix);
    G(mc, v, 1, 5, 9, 13, m[s[2]], m[s[3]], mix);
    G(mc, v, 2, 6, 10, 14, m[s[4]], m[s[5]], mix);
    G(mc, v, 3, 7, 11, 15, m[s[6]], m[s[7]], mix);
  }

  method RoundDiagonals(mc: Machine, v: array<Word>, m: array<Word>, s: seq<nat>, ghost mix: Mixing)
    requires v.Length == 16 && m.Length == 16 && v != m && Schedule(s) && Mixes(mc, mix)
    modifies v
    ensures v[..] == Diagonals(mix, old(v[..]), m[..], s)
  {
    G(mc, v, 0, 5, 10, 15, m[s[8]], m[s[9]], mix);
    G(mc, v, 1, 6, 11, 12, m[s[10]], m[s[11]], mix);
    G(mc, v, 2, 7, 8, 13, m[s[12]], m[s[13]], mix);
    G(mc, v, 3, 4, 9, 14, m[s[14]], m[s[15]], mix);
  }

  method Round(mc: Machine, v: array<Word>, m: array<Word>, s: seq<nat>, ghost mix: Mixing)
    requires v.Length == 16 && m.Length == 16 && v != m && Schedule(s) && Mixes(mc, mix)
    modifies v
    ensures v[..] == Rounded(mix, old(v[..]), m[..], s)
  {
    RoundColumns(mc, v, m, s, mix);
    RoundDiagonals(mc, v, m, s, mix);
  }

  /** b2s_compress: a block into the chaining value. */
  method Compress(mc: Machine, h: Chaining, block: seq<Byte>, t0: nat, t1: nat, last: bool, ghost mix: Mixing, ghost f: Compression)
    returns (r: Chaining)
    requires |block| == BLOCK && Mixes(mc, mix) && Compresses(f, mix)
    ensures r == f(h, block, t0, t1, last)
  {
    var m := Message(block);
    var v := WorkVector(h, ToWord(t0), ToWord(t1), last);
    AllRounds(mc, v, m, mix);
    r := Fold(h, v);
    assert r == FBy(mix, h, block, t0, t1, last);
  }

  method AllRounds(mc: Machine, v: array<Word>, m: array<Word>, ghost mix: Mixing)
    requires v.Length == 16 && m.Length == 16 && v != m && Mixes(mc, mix)
    modifies v
    ensures v[..] == Rounds(mix, old(v[..]), m[..], |SIGMA|)
  {
    for i := 0 to |SIGMA|
      invariant v[..] == Rounds(mix, old(v[..]), m[..], i)
    {
      Round(mc, v, m, Sigma(i), mix);
    }
  }

  method Message(block: seq<Byte>) returns (m: array<Word>)
    requires |block| == BLOCK
    ensures fresh(m) && m.Length == 16 && m[..] == Words(block, 16)
  {
    m := new Word[16];
    for i := 0 to 16
      invariant m[..i] == Words(block, i)
    {
      m[i] := WordAt(block, i);
      assert m[..i + 1] == m[..i] + [m[i]];
    }
  }

  method WorkVector(h: Chaining, lo: Word, hi: Word, last: bool) returns (v: array<Word>)
    ensures fresh(v) && v.Length == 16 && v[..] == Start(h, lo, hi, last)
  {
    v := Halves(h);
    v[12] := v[12] ^ lo;
    v[13] := v[13] ^ hi;
    if last {
      v[14] := !v[14];
    }
  }

  method Halves(h: Chaining) returns (v: array<Word>)
    ensures fresh(v) && v.Length == 16 && v[..] == h + IV
  {
    v := new Word[16];
    for i := 0 to 8
      invariant forall k :: 0 <= k < i ==> v[k] == h[k]
      invariant forall k :: 8 <= k < 8 + i ==> v[k] == IV[k - 8]
    {
      v[i] := h[i];
      v[i + 8] := IV[i];
    }
  }

  method Fold(h: Chaining, v: array<Word>) returns (r: seq<Word>)
    requires v.Length == 16
    ensures r == Folded(h, v[..], |h|)
  {
    r := [];
    for i := 0 to |h|
      invariant r == Folded(h, v[..], i)
    {
      r := r + [h[i] ^ (v[i] ^ v[i + 8])];
    }
  }

  /** `f` is the compression function made of this mixing. */
  ghost predicate Compresses(f: Compression, mix: Mixing) {
    forall h: Chaining, block: seq<Byte>, lo: nat, hi: nat, last: bool {:trigger FBy(mix, h, block, lo, hi, last)} ::
      f(h, block, lo, hi, last) == FBy(mix, h, block, lo, hi, last)
  }

  /** The hash of what has been fed so far, in the making. */
  class State {
    const mc: Machine
    ghost const mix: Mixing
    ghost const f: Compression
    var h: Chaining
    var t0: nat
    var t1: nat
    const buf: array<Byte>
    var buflen: nat
    ghost var data: seq<Byte>
    ghost var blocks: nat

    ghost predicate Valid()
      reads this, buf
    {
      Made() && buflen <= BLOCK && Absorbed(f, h, t0, t1, buf[..buflen], data, blocks)
    }

    ghost predicate Made() {
      buf.Length == BLOCK && Mixes(mc, mix) && Compresses(f, mix)
    }

    constructor (mc: Machine, ghost mix: Mixing, ghost f: Compression)
      requires Mixes(mc, mix) && Compresses(f, mix)
      ensures Valid() && data == [] && this.f == f && fresh(buf)
    {
      this.mc, this.mix, this.f := mc, mix, f;
      ParameterWord(IV[0]);
      h := IV[0 := IV[0] ^ (0x01010000 | 32)];
      t0, t1, buflen := 0, 0, 0;
      buf := new Byte[BLOCK];
      data, blocks := [], 0;
    }

    /** Counting `n` more bytes in the two words. */
    method Count(n: nat, ghost t: nat)
      requires n <= BLOCK && t0 == Low(t) && t1 == High(t)
      modifies `t0, `t1
      ensures t0 == Low(t + n) && t1 == High(t + n)
    {
      CounterCarries(t, n);
      t0 := (t0 + n) % WORD;
      if t0 < n {
        t1 := (t1 + 1) % WORD;
      }
    }

    method Update(p: seq<Byte>)
      requires Valid()
      modifies this, buf
      ensures Valid() && data == old(data) + p
    {
      var done := 0;
      ghost var before := data;
      assert before + p[..0] == before;
      while done < |p|
        invariant Valid() && done <= |p| && data == before + p[..done]
      {
        var n := Take(p, done);
        assert before + p[..done] + p[done..done + n] == before + p[..done + n];
        done := done + n;
      }
      assert p[..done] == p;
    }

    /** As much of the rest as the block has room for, after a full block is compressed. */
    method Take(p: seq<Byte>, done: nat) returns (n: nat)
      requires Valid() && done < |p|
      modifies this, buf
      ensures 0 < n <= |p| - done && Valid() && data == old(data) + p[done..done + n]
    {
      if buflen == BLOCK {
        Drain();
      }
      n := if BLOCK - buflen > |p| - done then |p| - done else BLOCK - buflen;
      Append(p[done..done + n]);
    }

    /** A full block is compressed because more is to follow it. */
    method Drain()
      requires Valid() && buflen == BLOCK
      modifies `h, `t0, `t1, `buflen, `blocks
      ensures buflen == 0 && Emptied(f, h, t0, t1, data, blocks)
    {
      assert buf[..buflen] == buf[..];
      CompressesFull(f, h, t0, t1, buf[..], data, blocks);
      Count(BLOCK, BLOCK * blocks);
      h := Compress(mc, h, buf[..], t0, t1, false, mix, f);
      buflen, blocks := 0, blocks + 1;
    }

    method Append(p: seq<Byte>)
      requires Made() && 0 < |p| && buflen + |p| <= BLOCK
      requires Valid() || (buflen == 0 && Emptied(f, h, t0, t1, data, blocks))
      modifies buf, `buflen, `data
      ensures Valid() && data == old(data) + p
    {
      if buflen == 0 && Emptied(f, h, t0, t1, data, blocks) {
        FillsAgain(f, h, t0, t1, data, blocks, p);
        assert buf[..buflen] + p == p;
      } else {
        AbsorbsMore(f, h, t0, t1, buf[..buflen], data, blocks, p);
      }
      Copy(p);
      buflen := buflen + |p|;
      data := data + p;
    }

    method Copy(p: seq<Byte>)
      requires buflen + |p| <= buf.Length
      modifies buf
      ensures buf[..buflen + |p|] == old(buf[..buflen]) + p
    {
      for i := 0 to |p|
        invariant buf[..buflen + i] == old(buf[..buflen]) + p[..i]
      {
        buf[buflen + i] := p[i];
        assert buf[..buflen + i + 1] == buf[..buflen + i] + [p[i]];
      }
    }

    method Finish() returns (digest: seq<Byte>)
      requires Valid()
      modifies this, buf
      ensures digest == Output(Final(f, old(data)))
    {
      FinishIs(f, h, t0, t1, buf[..buflen], data, blocks);
      assert |data| == BLOCK * blocks + buflen;
      Count(buflen, BLOCK * blocks);
      Pad();
      h := Compress(mc, h, buf[..], t0, t1, true, mix, f);
      digest := Serialize(h);
    }

    method Pad()
      requires buflen <= buf.Length == BLOCK
      modifies buf
      ensures buf[..] == old(buf[..buflen]) + Repeat(0, BLOCK - buflen)
    {
      for i := buflen to BLOCK
        invariant buf[..buflen] == old(buf[..buflen]) && forall k :: buflen <= k < i ==> buf[k] == 0
      {
        buf[i] := 0;
      }
      assert buf[..] == buf[..buflen] + Repeat(0, BLOCK - buflen);
    }

    method Serialize(h: seq<Word>) returns (out: seq<Byte>)
      ensures out == Output(h)
    {
      out := [];
      assert h[..0] == [];
      for i := 0 to |h|
        invariant out == Output(h[..i])
      {
        assert h[..i + 1][..i] == h[..i];
        out := out + Bytes(h[i]);
      }
      assert h[..|h|] == h;
    }
  }

  function Joined(pieces: seq<seq<Byte>>): seq<Byte> {
    if pieces == [] then [] else Joined(pieces[..|pieces| - 1]) + pieces[|pieces| - 1]
  }

  /** However a message is cut into pieces, its hash is the hash of the whole. */
  method HashPieces(mc: Machine, pieces: seq<seq<Byte>>, ghost mix: Mixing, ghost f: Compression) returns (digest: seq<Byte>)
    requires Mixes(mc, mix) && Compresses(f, mix)
    ensures digest == Output(Final(f, Joined(pieces)))
  {
    var s := new State(mc, mix, f);
    assert pieces[..0] == [];
    for i := 0 to |pieces|
      invariant s.Valid() && fresh(s) && fresh(s.buf) && s.f == f && s.data == Joined(pieces[..i])
    {
      assert pieces[..i + 1][..i] == pieces[..i];
      s.Update(pieces[i]);
    }
    assert pieces[..|pieces|] == pieces;
    digest := s.Finish();
  }

  /** On this machine it is the hash of section 3.3. */
  method Blake2s256(pieces: seq<seq<Byte>>) returns (digest: seq<Byte>)
    ensures digest == Hash(Joined(pieces))
  {
    digest := HashPieces(Native(), pieces, Mix, F);
  }
}
