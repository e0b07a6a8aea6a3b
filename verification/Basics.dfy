/** What several of the models use. */
module Basics {

  datatype Option<+T> = None | Some(value: T)

  const WORD: int := 0x1_0000_0000

  type byte = x: int | 0 <= x < 256
  type u32 = x: int | 0 <= x < WORD

  /** `n` times the same. */
  function Repeat<T>(x: T, n: nat): (s: seq<T>)
    ensures |s| == n && forall i :: 0 <= i < n ==> s[i] == x
  {
    if n == 0 then [] else Repeat(x, n - 1) + [x]
  }

  lemma Scaled(a: nat, b: nat, d: nat)
    requires a <= b
    ensures a * d <= b * d
  {
  }

  /** Quotient and remainder are what they should be. */
  lemma Divided(n: nat, d: nat, q: nat, r: nat)
    requires r < d && n == q * d + r
    ensures n / d == q && n % d == r
  {
    var q', r' := n / d, n % d;
    assert q' * d + r' == n && (q' + 1) * d == q' * d + d && (q + 1) * d == q * d + d;
    if q' < q {
      Scaled(q' + 1, q, d);
    } else if q' > q {
      Scaled(q + 1, q', d);
    }
  }
}
