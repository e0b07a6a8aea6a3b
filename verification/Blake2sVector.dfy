/**
The digest of "abc" (appendix B of RFC 7693), which the kernel's test of its own hash
looks for (kernel/cryptotest.c), worked out round by round.
*/
module Blake2sVector {
  import opened Basics
  import opened Blake2s

  /** The message, the words of its one block, and the digest. */
  const ABC: seq<Byte> := [0x61, 0x62, 0x63]

  const WORDS: Vector := [0x00636261, 0, 0, 0, 0, 0, 0, 0, 0, 0, 0, 0, 0, 0, 0, 0]

  const DIGEST: seq<Byte> := [
    0x50, 0x8c, 0x5e, 0x8c, 0x32, 0x7c, 0x14, 0xe2, 0xe1, 0xa7, 0x2b, 0xa3, 0x4e, 0xeb, 0x45, 0x2f,
    0x37, 0x45, 0x8b, 0x20, 0x9e, 0xd6, 0x3a, 0x29, 0x4d, 0x99, 0x9b, 0x4c, 0x86, 0x67, 0x59, 0x82
  ]

  /** The work vector before the first round, and after each. */
  const V0: Vector := [0x6b08e647, 0xbb67ae85, 0x3c6ef372, 0xa54ff53a, 0x510e527f, 0x9b05688c, 0x1f83d9ab, 0x5be0cd19,
    0x6a09e667, 0xbb67ae85, 0x3c6ef372, 0xa54ff53a, 0x510e527c, 0x9b05688c, 0xe07c2654, 0x5be0cd19]
  const V1: Vector := [0x16a3242e, 0xd7b5e238, 0xce8ce24b, 0x927aede1, 0xa7b430d9, 0x93a4a14e, 0xa44e7c31, 0x41d4759b,
    0x95bf33d3, 0x9a99c181, 0x608a3a6b, 0xb666383e, 0x7a8dd50f, 0xbe378ed7, 0x353d1ee6, 0x3bb44c6b]
  const V2: Vector := [0x3ae30fe3, 0x0982a96b, 0xe88185b4, 0x3e339b16, 0xf24338cd, 0x0e66d326, 0xe005ed0c, 0xd591a277,
    0x180b1f3a, 0xfcf43914, 0x30db62d6, 0x4847831c, 0x7f00c58e, 0xfb847886, 0xc544e836, 0x524ab0e2]
  const V3: Vector := [0x7a3be783, 0x997546c1, 0xd45246df, 0xedb5f821, 0x7f98a742, 0x10e864e2, 0xd4ab70d0, 0xc63cb1ab,
    0x6038da9e, 0x414594b0, 0xf2c218b5, 0x8da0dcb7, 0xd7cd7af5, 0xab4909df, 0x85031a52, 0xc4edfc98]
  const V4: Vector := [0x2a8b8cb7, 0x1aca82b2, 0x14045d7f, 0xcc7258ed, 0x383cf67c, 0xe090e7f9, 0x3025d276, 0x57d04de4,
    0x994bacf0, 0xf0982759, 0xf17ee300, 0xd48fc2d5, 0xdc854c10, 0x523898a9, 0xc03a0f89, 0x47d6cd88]
  const V5: Vector := [0xc4aa2ddb, 0x111343a3, 0xd54a700a, 0x574a00a9, 0x857d5a48, 0xb1e11989, 0x6f5c52df, 0xdd2c53a3,
    0x678e5f8e, 0x9718d4e9, 0x622cb684, 0x92976076, 0x0e41a517, 0x359dc2be, 0x87a87ddd, 0x643f9cec]
  const V6: Vector := [0x3453921c, 0xd7595ee1, 0x592e776d, 0x3ed6a974, 0x4d997cb3, 0xde9212c3, 0x35adf5c9, 0x9916fd65,
    0x96562e89, 0x4ead0792, 0xebfc2712, 0x2385f5b2, 0xf34600fb, 0xd7bc20fb, 0xeb452a7b, 0xece1aa40]
  const V7: Vector := [0xbe851b2d, 0xa85f6358, 0x81e6fc3b, 0x0bb28000, 0xfa55a33a, 0x87be1fad, 0x4119370f, 0x1e2261aa,
    0xa1318fd3, 0xf4329816, 0x071783c2, 0x6e536a8d, 0x9a81a601, 0xe7ec80f1, 0xacc09948, 0xf849a584]
  const V8: Vector := [0x07e5b85a, 0x069cc164, 0xf9de3141, 0xa56f4680, 0x9e440ad2, 0x9ab659ea, 0x3c84b971, 0x21dbd9cf,
    0x46699f8c, 0x765257ec, 0xaf1d998c, 0x75e4c3b6, 0x523878dc, 0x30715015, 0x397fee81, 0x4f1fa799]
  const V9: Vector := [0x435148c4, 0xa5aa2d11, 0x4b354173, 0xd543bc9e, 0xbda2591c, 0xbf1d2569, 0x4fcb3120, 0x707ada48,
    0x565b3fde, 0x32c9c916, 0xeaf4a1ab, 0xb1018f28, 0x8078d978, 0x68ade4b5, 0x9778fda3, 0x2863b92e]
  const V10: Vector := [0xd9c994aa, 0xcfec3aa6, 0x700d0ab2, 0x2c38670e, 0xaf6a1f66, 0x1d023ef3, 0x1d9ec27d, 0x945357a5,
    0x3e9ffebd, 0x969fe811, 0xef485e21, 0xa632797a, 0xdeef082e, 0xaf3d80e1, 0x4e86829b, 0x4deafd3a]

  function Trace(n: nat): Vector
    requires n <= 10
  {
    match n
    case 0 => V0 case 1 => V1 case 2 => V2 case 3 => V3 case 4 => V4 case 5 => V5
    case 6 => V6 case 7 => V7 case 8 => V8 case 9 => V9 case _ => V10
  }


  lemma Round0()
    ensures Rounded(Mix, V0, WORDS, Sigma(0)) == V1
  {
    ColumnsAre(Mix, V0, WORDS, Sigma(0));
    DiagonalsAre(Mix, Columns(Mix, V0, WORDS, Sigma(0)), WORDS, Sigma(0));
  }

  lemma Round1()
    ensures Rounded(Mix, V1, WORDS, Sigma(1)) == V2
  {
    ColumnsAre(Mix, V1, WORDS, Sigma(1));
    DiagonalsAre(Mix, Columns(Mix, V1, WORDS, Sigma(1)), WORDS, Sigma(1));
  }

  lemma Round2()
    ensures Rounded(Mix, V2, WORDS, Sigma(2)) == V3
  {
    ColumnsAre(Mix, V2, WORDS, Sigma(2));
    DiagonalsAre(Mix, Columns(Mix, V2, WORDS, Sigma(2)), WORDS, Sigma(2));
  }

  lemma Round3()
    ensures Rounded(Mix, V3, WORDS, Sigma(3)) == V4
  {
    ColumnsAre(Mix, V3, WORDS, Sigma(3));
    DiagonalsAre(Mix, Columns(Mix, V3, WORDS, Sigma(3)), WORDS, Sigma(3));
  }

  lemma Round4()
    ensures Rounded(Mix, V4, WORDS, Sigma(4)) == V5
  {
    ColumnsAre(Mix, V4, WORDS, Sigma(4));
    DiagonalsAre(Mix, Columns(Mix, V4, WORDS, Sigma(4)), WORDS, Sigma(4));
  }

  lemma Round5()
    ensures Rounded(Mix, V5, WORDS, Sigma(5)) == V6
  {
    ColumnsAre(Mix, V5, WORDS, Sigma(5));
    DiagonalsAre(Mix, Columns(Mix, V5, WORDS, Sigma(5)), WORDS, Sigma(5));
  }

  lemma Round6()
    ensures Rounded(Mix, V6, WORDS, Sigma(6)) == V7
  {
    ColumnsAre(Mix, V6, WORDS, Sigma(6));
    DiagonalsAre(Mix, Columns(Mix, V6, WORDS, Sigma(6)), WORDS, Sigma(6));
  }

  lemma Round7()
    ensures Rounded(Mix, V7, WORDS, Sigma(7)) == V8
  {
    ColumnsAre(Mix, V7, WORDS, Sigma(7));
    DiagonalsAre(Mix, Columns(Mix, V7, WORDS, Sigma(7)), WORDS, Sigma(7));
  }

  lemma Round8()
    ensures Rounded(Mix, V8, WORDS, Sigma(8)) == V9
  {
    ColumnsAre(Mix, V8, WORDS, Sigma(8));
    DiagonalsAre(Mix, Columns(Mix, V8, WORDS, Sigma(8)), WORDS, Sigma(8));
  }

  lemma Round9()
    ensures Rounded(Mix, V9, WORDS, Sigma(9)) == V10
  {
    ColumnsAre(Mix, V9, WORDS, Sigma(9));
    DiagonalsAre(Mix, Columns(Mix, V9, WORDS, Sigma(9)), WORDS, Sigma(9));
  }

  lemma TraceStep(n: nat)
    requires n < 10
    ensures Rounded(Mix, Trace(n), WORDS, Sigma(n)) == Trace(n + 1)
  {
    match n
    case 0 => Round0();
    case 1 => Round1();
    case 2 => Round2();
    case 3 => Round3();
    case 4 => Round4();
    case 5 => Round5();
    case 6 => Round6();
    case 7 => Round7();
    case 8 => Round8();
    case _ => Round9();
  }

  lemma {:induction false} TraceIs(n: nat)
    requires n <= 10
    ensures Rounds(Mix, V0, WORDS, n) == Trace(n)
  {
    if n > 0 {
      TraceIs(n - 1);
      TraceStep(n - 1);
    }
  }

  lemma RoundsOfAbc(v: Vector, m: Vector, n: nat)
    requires v == V0 && m == WORDS && n == 10
    ensures Rounds(Mix, v, m, n) == V10
  {
    TraceIs(n);
  }

  lemma BlockWords(block: seq<Byte>)
    requires block == ABC + Repeat(0, 61)
    ensures Words(block, 16) == WORDS
  {
    assert forall k :: 3 <= k < 64 ==> block[k] == 0;
    forall i | 0 <= i < 16
      ensures WordAt(block, i) == WORDS[i]
    {
      if i > 0 {
        assert block[4 * i] == 0 && block[4 * i + 1] == 0 && block[4 * i + 2] == 0 && block[4 * i + 3] == 0;
      }
    }
  }

  lemma StartOfAbc()
    ensures First() == IV[0 := 0x6b08e647] && Start(First(), 3, 0, true) == V0
  {
  }

  lemma StartsAt(h: Chaining, lo: nat, hi: nat)
    requires h == First() && lo == 3 && hi == 0
    ensures Start(h, ToWord(lo), ToWord(hi), true) == V0
  {
    assert ToWord(lo) == 3 && ToWord(hi) == 0;
    StartOfAbc();
  }

  const LAST: Chaining := [0x8c5e8c50, 0xe2147c32, 0xa32ba7e1, 0x2f45eb4e, 0x208b4537, 0x293ad69e, 0x4c9b994d, 0x82596786]

  lemma FoldOfAbc(h: Chaining, v: Vector, n: nat)
    requires h == First() && v == V10 && n == 8
    ensures Folded(h, v, n) == LAST
  {
    StartOfAbc();
    FoldedAt(h, v, n, 0);
    FoldedAt(h, v, n, 1);
    FoldedAt(h, v, n, 2);
    FoldedAt(h, v, n, 3);
    FoldedAt(h, v, n, 4);
    FoldedAt(h, v, n, 5);
    FoldedAt(h, v, n, 6);
    FoldedAt(h, v, n, 7);
  }

  lemma BlockOfAbc(h: Chaining, block: seq<Byte>, lo: nat, hi: nat)
    requires h == First() && block == ABC + Repeat(0, 61) && lo == 3 && hi == 0
    ensures F(h, block, lo, hi, true) == LAST
  {
    BlockWords(block);
    StartsAt(h, lo, hi);
    RoundsOfAbc(V0, WORDS, |SIGMA|);
    FoldOfAbc(h, V10, |h|);
    FIs(h, block, lo, hi, true, V0, WORDS, V10);
  }

  lemma FinalOfAbc(data: seq<Byte>)
    requires data == ABC
    ensures Final(F, data) == LAST
  {
    OneBlock(F, data);
    assert |data| == 3;
    var h, block, lo, hi := First(), data + Repeat(0, 61), |data|, 0;
    BlockOfAbc(h, block, lo, hi);
    assert Final(F, data) == F(h, block, lo, hi, true);
  }

  lemma DigestOfLast(i: nat)
    requires i < 8
    ensures Bytes(LAST[i]) == [DIGEST[4 * i], DIGEST[4 * i + 1], DIGEST[4 * i + 2], DIGEST[4 * i + 3]]
  {
    assert i == 0 || i == 1 || i == 2 || i == 3 || i == 4 || i == 5 || i == 6 || i == 7;
  }

  /** The digest of "abc". */
  lemma HashOfAbc(data: seq<Byte>)
    requires data == ABC
    ensures Hash(data) == DIGEST
  {
    FinalOfAbc(data);
    DigestIs(LAST);
  }

  lemma DigestIs(h: seq<Word>)
    requires h == LAST
    ensures Output(h) == DIGEST
  {
    forall i | 0 <= i < |h|
      ensures Bytes(h[i]) == DIGEST[4 * i..4 * i + 4]
    {
      DigestOfLast(i);
      FourOf(DIGEST, i);
    }
    OutputIs(h, DIGEST);
  }
}
