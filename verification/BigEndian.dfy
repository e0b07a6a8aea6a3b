/** Big-endian numbers in bytes, as this machine keeps them. */
module BigEndian {
  import opened Basics

  function Limit(n: nat): nat {
    if n == 0 then 1 else 256 * Limit(n - 1)
  }

  /** The `n` bytes at `o` as one big-endian number. */
  function Be(b: seq<byte>, o: nat, n: nat): nat
    requires o + n <= |b|
  {
    if n == 0 then 0 else 256 * Be(b, o, n - 1) + b[o + n - 1] as int
  }

  lemma {:induction false} BeBound(b: seq<byte>, o: nat, n: nat)
    requires o + n <= |b|
    ensures Be(b, o, n) < Limit(n)
    decreases n
  {
    if n > 0 {
      BeBound(b, o, n - 1);
    }
  }

  function Be32(b: seq<byte>, o: nat): u32
    requires o + 4 <= |b|
  {
    BeBound(b, o, 4);
    Be(b, o, 4)
  }

  function Be16(b: seq<byte>, o: nat): nat
    requires o + 2 <= |b|
  {
    Be(b, o, 2)
  }

  lemma {:induction false} BeSame(a: seq<byte>, b: seq<byte>, o: nat, n: nat)
    requires o + n <= |a| && o + n <= |b| && forall k :: o <= k < o + n ==> a[k] == b[k]
    ensures Be(a, o, n) == Be(b, o, n)
    decreases n
  {
    if n > 0 {
      BeSame(a, b, o, n - 1);
    }
  }

  /** The same bytes make the same number wherever they stand. */
  lemma {:induction false} BeWithin(b: seq<byte>, o: nat, m: seq<byte>, at: nat, n: nat)
    requires at + |m| <= |b| && b[at..at + |m|] == m && o + n <= |m|
    ensures Be(b, at + o, n) == Be(m, o, n)
    decreases n
  {
    if n > 0 {
      BeWithin(b, o, m, at, n - 1);
      assert b[at..at + |m|][o + n - 1] == m[o + n - 1];
    }
  }

  /** Equal numbers are equal bytes. */
  lemma {:induction false} BeInjective(a: seq<byte>, b: seq<byte>, o: nat, n: nat)
    requires o + n <= |a| && o + n <= |b| && Be(a, o, n) == Be(b, o, n)
    ensures forall k :: o <= k < o + n ==> a[k] == b[k]
    decreases n
  {
    if n > 0 {
      BeInjective(a, b, o, n - 1);
    }
  }

  function PutBe(b: seq<byte>, o: nat, n: nat, v: nat): (r: seq<byte>)
    requires o + n <= |b| && v < Limit(n)
    ensures |r| == |b| && Be(r, o, n) == v
    ensures forall k :: 0 <= k < |b| && !(o <= k < o + n) ==> r[k] == b[k]
  {
    if n == 0 then b
    else
      var hi := PutBe(b, o, n - 1, v / 256);
      var r := hi[o + n - 1 := v % 256];
      BeSame(hi, r, o, n - 1);
      r
  }

  function Put16(b: seq<byte>, o: nat, v: nat): (r: seq<byte>)
    requires o + 2 <= |b| && v < 65536
    ensures |r| == |b| && Be16(r, o) == v
    ensures forall k :: 0 <= k < |b| && !(o <= k < o + 2) ==> r[k] == b[k]
  {
    PutBe(b, o, 2, v)
  }

  function Put32(b: seq<byte>, o: nat, v: u32): (r: seq<byte>)
    requires o + 4 <= |b|
    ensures |r| == |b| && Be32(r, o) == v
    ensures forall k :: 0 <= k < |b| && !(o <= k < o + 4) ==> r[k] == b[k]
  {
    PutBe(b, o, 4, v)
  }

  function Put(b: seq<byte>, o: nat, data: seq<byte>): (r: seq<byte>)
    requires o + |data| <= |b|
    ensures |r| == |b| && r[o..o + |data|] == data
    ensures forall k :: 0 <= k < |b| && !(o <= k < o + |data|) ==> r[k] == b[k]
  {
    b[..o] + data + b[o + |data|..]
  }

  /** The number four bytes make, the first of them counting most. */
  function OfFour(b0: int, b1: int, b2: int, b3: int): int {
    b0 * 0x100_0000 + b1 * 0x1_0000 + b2 * 0x100 + b3
  }

  /** A word, byte by byte. */
  lemma Be32Is(b: seq<byte>, o: nat)
    requires o + 4 <= |b|
    ensures Be32(b, o) == OfFour(b[o], b[o + 1], b[o + 2], b[o + 3])
  {
    assert Be(b, o, 1) == 256 * Be(b, o, 0) + b[o] as int == b[o] as int;
    assert Be(b, o, 2) == 256 * Be(b, o, 1) + b[o + 1] as int;
    assert Be(b, o, 3) == 256 * Be(b, o, 2) + b[o + 2] as int;
    assert Be(b, o, 4) == 256 * Be(b, o, 3) + b[o + 3] as int;
  }

  lemma Be16Is(b: seq<byte>, o: nat)
    requires o + 2 <= |b|
    ensures Be16(b, o) == OfFour(0, 0, b[o], b[o + 1])
  {
    assert Be(b, o, 1) == 256 * Be(b, o, 0) + b[o] as int == b[o] as int;
  }

  lemma OneOfFour(a0: byte, a1: byte, a2: byte, a3: byte, b0: byte, b1: byte, b2: byte, b3: byte)
    requires OfFour(a0, a1, a2, a3) == OfFour(b0, b1, b2, b3)
    ensures a0 == b0 && a1 == b1 && a2 == b2 && a3 == b3
  {
    assert a0 == b0;
    assert a1 == b1;
    assert a2 == b2;
  }

  /** Four bytes make one number, and a number four bytes. */
  lemma Be32Bytes(b: seq<byte>, o: nat, b0: byte, b1: byte, b2: byte, b3: byte)
    requires o + 4 <= |b|
    ensures Be32(b, o) == OfFour(b0, b1, b2, b3) <==> b[o] == b0 && b[o + 1] == b1 && b[o + 2] == b2 && b[o + 3] == b3
  {
    Be32Is(b, o);
    if Be32(b, o) == OfFour(b0, b1, b2, b3) {
      OneOfFour(b[o], b[o + 1], b[o + 2], b[o + 3], b0, b1, b2, b3);
    }
  }
}
