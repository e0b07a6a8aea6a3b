/** The sorts of the demonstration program (apps/sorts.c), in place on its array. */
module Sorts {

  // ------------------------------------------------------------------
  // What a sort must do
  // ------------------------------------------------------------------

  ghost predicate SortedWithin(s: seq<int>, lo: nat, hi: nat)
    requires hi <= |s|
  {
    forall p, q :: lo <= p < q < hi ==> s[p] <= s[q]
  }

  /** `t` is `s` with what lies from `lo` to `hi` in another order. */
  ghost predicate Shuffled(s: seq<int>, t: seq<int>, lo: nat, hi: nat)
    requires lo <= hi <= |s|
  {
    |s| == |t| && Bag(s, lo, hi) == Bag(t, lo, hi) && forall k :: 0 <= k < |s| && (k < lo || hi <= k) ==> s[k] == t[k]
  }

  /** What lies from `lo` to `hi`, in no order. */
  ghost function Bag(s: seq<int>, lo: nat, hi: nat): multiset<int>
    requires lo <= hi <= |s|
    decreases hi
  {
    if lo == hi then multiset{} else Bag(s, lo, hi - 1) + multiset{s[hi - 1]}
  }

  lemma OneMoreBag(b: multiset<int>, x: seq<int>, v: int, y: seq<int>)
    requires b == multiset(x) && y == x + [v]
    ensures b + multiset{v} == multiset(y)
  {
  }

  lemma {:induction false} BagIs(s: seq<int>, lo: nat, hi: nat)
    requires lo <= hi <= |s|
    ensures Bag(s, lo, hi) == multiset(s[lo..hi])
  {
    if lo < hi {
      BagIs(s, lo, hi - 1);
      assert s[lo..hi] == s[lo..hi - 1] + [s[hi - 1]];
      OneMoreBag(Bag(s, lo, hi - 1), s[lo..hi - 1], s[hi - 1], s[lo..hi]);
    }
  }

  /** `t` is `s`, sorted. */
  ghost predicate SortOf(s: seq<int>, t: seq<int>) {
    SortedWithin(t, 0, |t|) && multiset(s) == multiset(t)
  }

  /** There is only one way to be sorted: all the sorts agree. */
  lemma {:induction false} SortUnique(s: seq<int>, t: seq<int>, u: seq<int>)
    requires SortOf(s, t) && SortOf(s, u)
    ensures t == u
    decreases |t|
  {
    assert |t| == |multiset(t)| == |multiset(u)| == |u|;
    if t != [] {
      var n := |t| - 1;
      SameLast(t, u);
      WithoutLast(t, u);
      SortUnique(t[..n], t[..n], u[..n]);
      assert t == t[..n] + [t[n]] && u == u[..n] + [u[n]];
    }
  }

  lemma WithoutLast(t: seq<int>, u: seq<int>)
    requires t != [] && |t| == |u| && multiset(t) == multiset(u) && t[|t| - 1] == u[|u| - 1]
    ensures multiset(t[..|t| - 1]) == multiset(u[..|u| - 1])
  {
    LastAside(t);
    LastAside(u);
    Cancelled(multiset(t[..|t| - 1]), multiset(u[..|u| - 1]), t[|t| - 1]);
  }

  lemma LastAside(t: seq<int>)
    requires t != []
    ensures multiset(t) == multiset(t[..|t| - 1]) + multiset{t[|t| - 1]}
  {
    assert t == t[..|t| - 1] + [t[|t| - 1]];
  }

  lemma Cancelled(a: multiset<int>, b: multiset<int>, v: int)
    requires a + multiset{v} == b + multiset{v}
    ensures a == b
  {
    assert a == (a + multiset{v}) - multiset{v} && b == (b + multiset{v}) - multiset{v};
  }

  lemma SameLast(t: seq<int>, u: seq<int>)
    requires t != [] && |t| == |u| && multiset(t) == multiset(u) && SortedWithin(t, 0, |t|) && SortedWithin(u, 0, |u|)
    ensures t[|t| - 1] == u[|u| - 1]
  {
    var n := |t| - 1;
    assert t[n] in multiset(u) && u[n] in multiset(t);
    assert t[n] in u && u[n] in t;
  }

  lemma ShuffledTwice(s: seq<int>, t: seq<int>, u: seq<int>, lo: nat, hi: nat)
    requires lo <= hi <= |s| && Shuffled(s, t, lo, hi) && Shuffled(t, u, lo, hi)
    ensures Shuffled(s, u, lo, hi)
  {
  }

  lemma ShuffledWider(s: seq<int>, t: seq<int>, lo: nat, hi: nat, wideLo: nat, wideHi: nat)
    requires wideLo <= lo <= hi <= wideHi <= |s| && Shuffled(s, t, lo, hi)
    ensures Shuffled(s, t, wideLo, wideHi)
  {
    Cut(s, wideLo, lo, hi, wideHi);
    Cut(t, wideLo, lo, hi, wideHi);
    SameSides(s, t, lo, hi, wideLo, wideHi);
  }

  lemma SameSides(s: seq<int>, t: seq<int>, lo: nat, hi: nat, wideLo: nat, wideHi: nat)
    requires wideLo <= lo <= hi <= wideHi <= |s| && Shuffled(s, t, lo, hi)
    ensures s[wideLo..lo] == t[wideLo..lo] && s[hi..wideHi] == t[hi..wideHi]
  {
  }

  lemma Cut(s: seq<int>, a: nat, b: nat, c: nat, d: nat)
    requires a <= b <= c <= d <= |s|
    ensures Bag(s, a, d) == multiset(s[a..b]) + Bag(s, b, c) + multiset(s[c..d])
  {
    BagIs(s, a, d);
    BagIs(s, b, c);
    InThree(s, a, b, c, d);
    BagOfThree(s[a..b], s[b..c], s[c..d]);
  }

  lemma InThree(s: seq<int>, a: nat, b: nat, c: nat, d: nat)
    requires a <= b <= c <= d <= |s|
    ensures s[a..d] == s[a..b] + s[b..c] + s[c..d]
  {
  }

  lemma BagOfThree(x: seq<int>, y: seq<int>, z: seq<int>)
    ensures multiset(x + y + z) == multiset(x) + multiset(y) + multiset(z)
  {
  }

  /** Whatever is at a place of a shuffled range was somewhere in it. */
  lemma CameFrom(s: seq<int>, t: seq<int>, lo: nat, hi: nat, k: nat) returns (m: nat)
    requires lo <= hi <= |s| && Shuffled(s, t, lo, hi) && lo <= k < hi
    ensures lo <= m < hi && s[m] == t[k]
  {
    BagIs(s, lo, hi);
    BagIs(t, lo, hi);
    assert t[k] == t[lo..hi][k - lo];
    assert t[k] in multiset(t[lo..hi]);
    assert t[k] in s[lo..hi];
    var i :| 0 <= i < hi - lo && s[lo..hi][i] == t[k];
    m := lo + i;
  }

  function Swapped(s: seq<int>, i: nat, j: nat): seq<int>
    requires i < |s| && j < |s|
  {
    s[i := s[j]][j := s[i]]
  }

  lemma SwapShuffles(s: seq<int>, i: nat, j: nat, lo: nat, hi: nat)
    requires lo <= i < hi && lo <= j < hi <= |s|
    ensures Shuffled(s, Swapped(s, i, j), lo, hi)
  {
    var t := Swapped(s, i, j);
    BagIs(s, lo, hi);
    BagIs(t, lo, hi);
    SwapSlice(s, i, j, lo, hi);
    SwapBag(s[lo..hi], i - lo, j - lo);
  }

  lemma SwapSlice(s: seq<int>, i: nat, j: nat, lo: nat, hi: nat)
    requires lo <= i < hi && lo <= j < hi <= |s|
    ensures Swapped(s, i, j)[lo..hi] == Swapped(s[lo..hi], i - lo, j - lo)
  {
  }

  lemma SwapBag(s: seq<int>, i: nat, j: nat)
    requires i < |s| && j < |s|
    ensures multiset(Swapped(s, i, j)) == multiset(s)
  {
  }

  lemma SwapMore(s: seq<int>, t: seq<int>, i: nat, j: nat, lo: nat, hi: nat)
    requires lo <= i < hi && lo <= j < hi <= |s| && Shuffled(s, t, lo, hi)
    ensures Shuffled(s, Swapped(t, i, j), lo, hi)
  {
    SwapShuffles(t, i, j, lo, hi);
    ShuffledTwice(s, t, Swapped(t, i, j), lo, hi);
  }

  /** Two places not both inside `lo` to `hi` are in order. */
  ghost predicate Placed(s: seq<int>, from: nat, upto: nat, lo: nat, hi: nat)
    requires upto <= |s|
  {
    forall p, q :: from <= p < q < upto && (p < lo || hi <= q) ==> s[p] <= s[q]
  }

  /** Shuffling what lies inside keeps that. */
  lemma PlacedKept(s: seq<int>, t: seq<int>, from: nat, upto: nat, lo: nat, hi: nat)
    requires from <= lo <= hi <= upto <= |s| && Placed(s, from, upto, lo, hi) && Shuffled(s, t, lo, hi)
    ensures Placed(t, from, upto, lo, hi)
  {
    forall p, q | from <= p < q < upto && (p < lo || hi <= q)
      ensures t[p] <= t[q]
    {
      var p' := Origin(s, t, lo, hi, p);
      var q' := Origin(s, t, lo, hi, q);
      assert s[p'] <= s[q'];
    }
  }

  lemma Origin(s: seq<int>, t: seq<int>, lo: nat, hi: nat, k: nat) returns (m: nat)
    requires lo <= hi <= |s| && Shuffled(s, t, lo, hi) && k < |s|
    ensures m < |s| && s[m] == t[k] && (if lo <= k < hi then lo <= m < hi else m == k)
  {
    if lo <= k < hi {
      m := CameFrom(s, t, lo, hi, k);
    } else {
      m := k;
    }
  }

  /** Once nothing is left to place the whole is sorted. */
  lemma AllPlaced(s: seq<int>, t: seq<int>, lo: nat, hi: nat)
    requires Placed(t, 0, |t|, lo, hi) && hi <= lo + 1 && Shuffled(s, t, 0, |s|)
    ensures SortOf(s, t)
  {
    BagIs(s, 0, |s|);
    BagIs(t, 0, |t|);
    assert s[0..|s|] == s && t[0..|t|] == t;
  }

  method Swap(a: array<int>, i: nat, j: nat)
    requires i < a.Length && j < a.Length
    modifies a
    ensures a[..] == Swapped(old(a[..]), i, j)
  {
    var t := a[i];
    a[i] := a[j];
    a[j] := t;
  }

  /** The same, in a range that is shuffled anyway. */
  method SwapWithin(a: array<int>, i: nat, j: nat, ghost lo: nat, ghost hi: nat, ghost was: seq<int>)
    requires lo <= i < hi && lo <= j < hi <= a.Length == |was| && Shuffled(was, a[..], lo, hi)
    modifies a
    ensures a[..] == Swapped(old(a[..]), i, j) && Shuffled(was, a[..], lo, hi)
  {
    SwapMore(was, a[..], i, j, lo, hi);
    Swap(a, i, j);
  }

  // ------------------------------------------------------------------
  // Bubble, selection
  // ------------------------------------------------------------------

  method Bubble(a: array<int>)
    modifies a
    ensures SortOf(old(a[..]), a[..])
  {
    var i, moved := a.Length - 1, true;
    while i > 0 && moved
      invariant -1 <= i < a.Length && Shuffled(old(a[..]), a[..], 0, a.Length)
      invariant Placed(a[..], 0, a.Length, 0, i + 1)
      invariant moved || SortedWithin(a[..], 0, a.Length)
      decreases i
    {
      ghost var s := a[..];
      moved := Bubbled(a, i);
      BubbledUp(s, a[..], i);
      ShuffledWider(s, a[..], 0, i + 1, 0, a.Length);
      ShuffledTwice(old(a[..]), s, a[..], 0, a.Length);
      if !moved {
        Adjacent(a[..], i + 1);
        Joined(a[..], i + 1);
      }
      i := i - 1;
    }
    AllPlaced(old(a[..]), a[..], 0, if i > 0 then 0 else 1);
  }

  /** The largest of the first `j + 1` is at `j`; if nothing moved they are in order. */
  ghost predicate Risen(s: seq<int>, j: nat, moved: bool)
    requires j < |s|
  {
    (forall p :: 0 <= p < j ==> s[p] <= s[j]) && (!moved ==> forall p :: 0 <= p < j ==> s[p] <= s[p + 1])
  }

  lemma Rises(s: seq<int>, j: nat, moved: bool)
    requires j + 1 < |s| && Risen(s, j, moved)
    ensures if s[j + 1] < s[j] then Risen(Swapped(s, j, j + 1), j + 1, true) else Risen(s, j + 1, moved)
  {
  }

  /** One pass over the first `i + 1`. */
  method Bubbled(a: array<int>, i: nat) returns (moved: bool)
    requires i < a.Length
    modifies a
    ensures Shuffled(old(a[..]), a[..], 0, i + 1) && Risen(a[..], i, moved)
  {
    moved := false;
    for j := 0 to i
      invariant Shuffled(old(a[..]), a[..], 0, i + 1) && Risen(a[..], j, moved)
    {
      Rises(a[..], j, moved);
      if a[j + 1] < a[j] {
        SwapWithin(a, j, j + 1, 0, i + 1, old(a[..]));
        moved := true;
      }
    }
  }

  lemma BubbledUp(s: seq<int>, t: seq<int>, i: nat)
    requires i < |s| && Placed(s, 0, |s|, 0, i + 1) && Shuffled(s, t, 0, i + 1) && Risen(t, i, true)
    ensures Placed(t, 0, |t|, 0, i)
  {
    PlacedKept(s, t, 0, |s|, 0, i + 1);
  }

  /** Neighbours in order are a sorted range. */
  lemma {:induction false} Adjacent(s: seq<int>, n: nat)
    requires n <= |s| && forall p :: 0 <= p < n - 1 ==> s[p] <= s[p + 1]
    ensures SortedWithin(s, 0, n)
  {
    if n > 0 {
      Adjacent(s, n - 1);
      assert n > 1 ==> s[n - 2] <= s[n - 2 + 1];
    }
  }

  lemma Joined(s: seq<int>, n: nat)
    requires n <= |s| && SortedWithin(s, 0, n) && Placed(s, 0, |s|, 0, n)
    ensures SortedWithin(s, 0, |s|)
  {
  }

  method Selection(a: array<int>)
    modifies a
    ensures SortOf(old(a[..]), a[..])
  {
    var i := 0;
    while i < a.Length - 1
      invariant 0 <= i <= a.Length && Shuffled(old(a[..]), a[..], 0, a.Length)
      invariant Placed(a[..], 0, a.Length, i, a.Length)
    {
      ghost var s := a[..];
      var m := Smallest(a, i);
      SwapShuffles(s, i, m, i, a.Length);
      if m != i {
        Swap(a, i, m);
      }
      assert a[..] == Swapped(s, i, m);
      PlacedKept(s, a[..], 0, a.Length, i, a.Length);
      ShuffledWider(s, a[..], i, a.Length, 0, a.Length);
      ShuffledTwice(old(a[..]), s, a[..], 0, a.Length);
      i := i + 1;
    }
    AllPlaced(old(a[..]), a[..], i, a.Length);
  }

  method Smallest(a: array<int>, i: nat) returns (m: nat)
    requires i < a.Length
    ensures i <= m < a.Length && forall k :: i <= k < a.Length ==> a[m] <= a[k]
  {
    m := i;
    for j := i + 1 to a.Length
      invariant i <= m < a.Length && forall k :: i <= k < j ==> a[m] <= a[k]
    {
      if a[j] < a[m] {
        m := j;
      }
    }
  }

  // ------------------------------------------------------------------
  // Insertion, shell
  // ------------------------------------------------------------------

  /** Every element up to `n` is at least the one `gap` before it. */
  ghost predicate GapSorted(s: seq<int>, gap: nat, n: nat)
    requires n <= |s|
  {
    forall k :: gap <= k < n ==> s[k - gap] <= s[k]
  }

  /** Puts a[i] where it belongs among the elements `gap` apart before it. */
  method Insert(a: array<int>, gap: nat, i: nat)
    requires 0 < gap <= i < a.Length && GapSorted(a[..], gap, i)
    modifies a
    ensures GapSorted(a[..], gap, i + 1) && Shuffled(old(a[..]), a[..], 0, a.Length)
  {
    var v, j := a[i], i;
    assert a[..][i := v] == a[..];
    while j >= gap && v < a[j - gap]
      invariant 0 <= j <= i && Shuffled(old(a[..]), a[..][j := v], 0, a.Length) && Hole(a[..], gap, i, j, v)
    {
      MoveHole(old(a[..]), a[..], gap, i, j, v);
      a[j] := a[j - gap];
      j := j - gap;
    }
    FillHole(a[..], gap, i, j, v);
    a[j] := v;
  }

  /** With `v` still to be put at `j`, all else is in order and `v` is below what was moved up. */
  ghost predicate Hole(s: seq<int>, gap: nat, i: nat, j: nat, v: int)
    requires i < |s| && j <= i && 0 < gap
  {
    && (forall k :: gap <= k <= i && k != j && k != j + gap ==> s[k - gap] <= s[k])
    && (j + gap <= i ==> v <= s[j + gap] && (j >= gap ==> s[j - gap] <= s[j + gap]))
  }

  lemma MoveHole(was: seq<int>, s: seq<int>, gap: nat, i: nat, j: nat, v: int)
    requires 0 < gap <= j <= i < |s| == |was| && Hole(s, gap, i, j, v) && v < s[j - gap] && Shuffled(was, s[j := v], 0, |s|)
    ensures var t := s[j := s[j - gap]]; Hole(t, gap, i, j - gap, v) && Shuffled(was, t[j - gap := v], 0, |s|)
  {
    var t := s[j := s[j - gap]];
    SwapMore(was, s[j := v], j, j - gap, 0, |s|);
    assert t[j - gap := v] == Swapped(s[j := v], j, j - gap);
  }

  lemma FillHole(s: seq<int>, gap: nat, i: nat, j: nat, v: int)
    requires 0 < gap && j <= i < |s| && Hole(s, gap, i, j, v) && (j >= gap ==> s[j - gap] <= v)
    ensures GapSorted(s[j := v], gap, i + 1)
  {
  }

  /** Puts a[i] where it belongs among all before it. */
  method InsertNext(a: array<int>, i: nat)
    requires 1 <= i < a.Length && GapSorted(a[..], 1, i)
    modifies a
    ensures GapSorted(a[..], 1, i + 1) && Shuffled(old(a[..]), a[..], 0, a.Length)
  {
    var v, j := a[i], i - 1;
    assert a[..][i := v] == a[..];
    while j >= 0 && v < a[j]
      invariant -1 <= j < i && Shuffled(old(a[..]), a[..][j + 1 := v], 0, a.Length) && Hole(a[..], 1, i, j + 1, v)
    {
      MoveHole(old(a[..]), a[..], 1, i, j + 1, v);
      a[j + 1] := a[j];
      j := j - 1;
    }
    FillHole(a[..], 1, i, j + 1, v);
    a[j + 1] := v;
  }

  method Insertion(a: array<int>)
    modifies a
    ensures SortOf(old(a[..]), a[..])
  {
    var i := 1;
    while i < a.Length
      invariant 1 <= i && GapSorted(a[..], 1, if i < a.Length then i else a.Length)
      invariant Shuffled(old(a[..]), a[..], 0, a.Length)
    {
      ghost var s := a[..];
      InsertNext(a, i);
      ShuffledTwice(old(a[..]), s, a[..], 0, a.Length);
      i := i + 1;
    }
    Adjacent(a[..], a.Length);
    AllPlaced(old(a[..]), a[..], 0, 0);
  }

  method GapPass(a: array<int>, gap: nat)
    requires 0 < gap
    modifies a
    ensures GapSorted(a[..], gap, a.Length) && Shuffled(old(a[..]), a[..], 0, a.Length)
  {
    var i := gap;
    while i < a.Length
      invariant gap <= i && GapSorted(a[..], gap, if i < a.Length then i else a.Length)
      invariant Shuffled(old(a[..]), a[..], 0, a.Length)
    {
      ghost var s := a[..];
      Insert(a, gap, i);
      ShuffledTwice(old(a[..]), s, a[..], 0, a.Length);
      i := i + 1;
    }
  }

  /** The gaps: 0, 1, 4, 13, 40, ... */
  function Gap(k: nat): nat {
    if k == 0 then 0 else Gap(k - 1) * 3 + 1
  }

  method Shell(a: array<int>)
    modifies a
    ensures SortOf(old(a[..]), a[..])
  {
    var gap := 1;
    ghost var k: nat := 1;
    while gap < a.Length / 3
      invariant 1 <= k && 1 <= gap == Gap(k)
      decreases a.Length - gap
    {
      gap, k := gap * 3 + 1, k + 1;
    }
    while gap > 0
      invariant gap == Gap(k) && Shuffled(old(a[..]), a[..], 0, a.Length)
      invariant k == 0 ==> GapSorted(a[..], 1, a.Length)
      decreases k
    {
      ghost var s := a[..];
      GapPass(a, gap);
      ShuffledTwice(old(a[..]), s, a[..], 0, a.Length);
      assert k == 1 ==> gap == 1;
      gap, k := gap / 3, k - 1;
    }
    Adjacent(a[..], a.Length);
    AllPlaced(old(a[..]), a[..], 0, 0);
  }

  // ------------------------------------------------------------------
  // Quick
  // ------------------------------------------------------------------

  /** The pivot of `lo` to `hi` is at `i`. */
  ghost predicate Pivoted(s: seq<int>, lo: nat, i: nat, hi: nat)
    requires lo <= i < hi <= |s|
  {
    (forall p :: lo <= p < i ==> s[p] <= s[i]) && (forall q :: i < q < hi ==> s[i] <= s[q])
  }

  /** Of `lo` to `hi` those before `i` are below the pivot at `hi` and those from there to `j` are not. */
  ghost predicate Split(s: seq<int>, lo: nat, i: nat, j: nat, hi: nat)
    requires lo <= i <= j <= hi < |s|
  {
    (forall k :: lo <= k < i ==> s[k] < s[hi]) && (forall k :: i <= k < j ==> s[hi] <= s[k])
  }

  method Partition(a: array<int>, lo: nat, hi: nat) returns (i: nat)
    requires lo < hi < a.Length
    modifies a
    ensures lo <= i <= hi && Shuffled(old(a[..]), a[..], lo, hi + 1) && Pivoted(a[..], lo, i, hi + 1)
  {
    var p := lo + (hi - lo) / 2;
    SwapShuffles(a[..], p, hi, lo, hi + 1);
    Swap(a, p, hi);
    i := SplitAll(a, lo, hi, old(a[..]));
    PivotPut(a[..], lo, i, hi);
    SwapWithin(a, i, hi, lo, hi + 1, old(a[..]));
  }

  method SplitAll(a: array<int>, lo: nat, hi: nat, ghost was: seq<int>) returns (i: nat)
    requires lo < hi < a.Length == |was| && Shuffled(was, a[..], lo, hi + 1)
    modifies a
    ensures lo <= i <= hi && Shuffled(was, a[..], lo, hi + 1) && Split(a[..], lo, i, hi, hi)
  {
    i := lo;
    for j := lo to hi
      invariant lo <= i <= j && Shuffled(was, a[..], lo, hi + 1) && Split(a[..], lo, i, j, hi)
    {
      i := SplitOne(a, lo, i, j, hi, was);
    }
  }

  method SplitOne(a: array<int>, ghost lo: nat, i: nat, j: nat, hi: nat, ghost was: seq<int>) returns (i': nat)
    requires lo <= i <= j < hi < a.Length == |was| && Shuffled(was, a[..], lo, hi + 1) && Split(a[..], lo, i, j, hi)
    modifies a
    ensures i <= i' <= j + 1 && Shuffled(was, a[..], lo, hi + 1) && Split(a[..], lo, i', j + 1, hi)
  {
    SplitMore(a[..], lo, i, j, hi);
    if a[j] < a[hi] {
      SwapWithin(a, i, j, lo, hi + 1, was);
      return i + 1;
    }
    return i;
  }

  lemma SplitMore(s: seq<int>, lo: nat, i: nat, j: nat, hi: nat)
    requires lo <= i <= j < hi < |s| && Split(s, lo, i, j, hi)
    ensures if s[j] < s[hi] then Split(Swapped(s, i, j), lo, i + 1, j + 1, hi) else Split(s, lo, i, j + 1, hi)
  {
  }

  lemma PivotPut(s: seq<int>, lo: nat, i: nat, hi: nat)
    requires lo <= i <= hi < |s| && Split(s, lo, i, hi, hi)
    ensures Pivoted(Swapped(s, i, hi), lo, i, hi + 1)
  {
  }

  /** Two places with the pivot between them, or not both inside `lo` to `hi`, are in order. */
  ghost predicate Between(s: seq<int>, from: nat, upto: nat, lo: nat, i: nat, hi: nat)
    requires upto <= |s|
  {
    forall p, q :: from <= p < q < upto && (p < lo || hi <= q || p <= i <= q) ==> s[p] <= s[q]
  }

  lemma Within(s: seq<int>, t: seq<int>, from: nat, upto: nat, lo: nat, i: nat, hi: nat)
    requires from <= lo <= i < hi <= upto <= |s| && Placed(s, from, upto, lo, hi) && Shuffled(s, t, lo, hi) && Pivoted(t, lo, i, hi)
    ensures Between(t, from, upto, lo, i, hi)
  {
    PlacedKept(s, t, from, upto, lo, hi);
  }

  lemma LeftDone(t: seq<int>, u: seq<int>, from: nat, upto: nat, lo: nat, i: nat, hi: nat)
    requires from <= lo <= i < hi <= upto <= |t| && Between(t, from, upto, lo, i, hi)
    requires Shuffled(t, u, lo, i) && SortedWithin(u, lo, i)
    ensures Placed(u, from, upto, i + 1, hi)
  {
    forall p, q | from <= p < q < upto && (p < i + 1 || hi <= q)
      ensures u[p] <= u[q]
    {
      var p' := Origin(t, u, lo, i, p);
      var q' := Origin(t, u, lo, i, q);
      assert !(lo <= p && q < i) ==> t[p'] <= t[q'];
    }
  }

  lemma RightDone(t: seq<int>, u: seq<int>, from: nat, upto: nat, lo: nat, i: nat, hi: nat)
    requires from <= lo <= i < hi <= upto <= |t| && Between(t, from, upto, lo, i, hi)
    requires Shuffled(t, u, i + 1, hi) && SortedWithin(u, i + 1, hi)
    ensures Placed(u, from, upto, lo, i)
  {
    forall p, q | from <= p < q < upto && (p < lo || i <= q)
      ensures u[p] <= u[q]
    {
      var p' := Origin(t, u, i + 1, hi, p);
      var q' := Origin(t, u, i + 1, hi, q);
      assert !(i + 1 <= p && q < hi) ==> t[p'] <= t[q'];
    }
  }

  function Pow2(n: nat): nat {
    if n == 0 then 1 else 2 * Pow2(n - 1)
  }

  function Max(x: nat, y: nat): nat {
    if x < y then y else x
  }

  lemma Deeper(depth: nat, d: nat, bound: nat)
    requires Pow2(depth) <= bound && 2 * Pow2(d) <= bound
    ensures Pow2(Max(depth, d + 1)) <= bound
  {
  }

  /** Sorts a[lo..=hi]; `depth` is how many calls deep below this one it went. */
  method Quick(a: array<int>, lo: nat, hi: int) returns (ghost depth: nat)
    requires lo <= hi + 1 <= a.Length
    modifies a
    ensures Shuffled(old(a[..]), a[..], lo, hi + 1) && SortedWithin(a[..], lo, hi + 1)
    ensures Pow2(depth) <= hi - lo + 2
    decreases hi - lo + 1, 1
  {
    var l, h := lo, hi;
    depth := 0;
    while l < h
      invariant lo <= l <= h + 1 <= hi + 1
      invariant Shuffled(old(a[..]), a[..], lo, hi + 1) && Placed(a[..], lo, hi + 1, l, h + 1)
      invariant Pow2(depth) <= hi - lo + 2
      decreases h - l + 1
    {
      ghost var d;
      l, h, d := Round(a, l, h, lo, hi + 1, old(a[..]));
      Deeper(depth, d, hi - lo + 2);
      depth := Max(depth, d + 1);
    }
  }

  /** Puts one pivot in its place, and sorts the smaller side. */
  method Round(a: array<int>, l: nat, h: nat, ghost lo: nat, ghost hi: nat, ghost was: seq<int>)
    returns (l': nat, h': int, ghost depth: nat)
    requires lo <= l < h < hi <= a.Length == |was| && Shuffled(was, a[..], lo, hi) && Placed(a[..], lo, hi, l, h + 1)
    modifies a
    ensures l <= l' <= h' + 1 <= h + 1 && h' - l' < h - l && 2 * Pow2(depth) <= h - l + 2
    ensures Shuffled(was, a[..], lo, hi) && Placed(a[..], lo, hi, l', h' + 1)
    decreases h - l + 1, 0
  {
    ghost var s := a[..];
    var i := Partition(a, l, h);
    Repartitioned(was, s, a[..], lo, hi, l, h + 1);
    Within(s, a[..], lo, hi, l, i, h + 1);
    if i - l < h - i {
      depth := SortLeft(a, l, i, h + 1, lo, hi, was);
      l', h' := i + 1, h;
    } else {
      depth := SortRight(a, l, i, h + 1, lo, hi, was);
      l', h' := l, i - 1;
    }
  }

  method SortLeft(a: array<int>, l: nat, i: nat, h: nat, ghost lo: nat, ghost hi: nat, ghost was: seq<int>) returns (ghost depth: nat)
    requires lo <= l <= i < h <= hi <= a.Length == |was| && Shuffled(was, a[..], lo, hi) && Between(a[..], lo, hi, l, i, h)
    modifies a
    ensures Shuffled(was, a[..], lo, hi) && Placed(a[..], lo, hi, i + 1, h) && Pow2(depth) <= i - l + 1
    decreases i - l, 2
  {
    ghost var t := a[..];
    depth := Quick(a, l, i - 1);
    LeftRound(was, t, a[..], lo, hi, l, i, h);
  }

  lemma LeftRound(was: seq<int>, t: seq<int>, u: seq<int>, lo: nat, hi: nat, l: nat, i: nat, h: nat)
    requires lo <= l <= i < h <= hi <= |t| == |was| && Shuffled(was, t, lo, hi) && Between(t, lo, hi, l, i, h)
    requires Shuffled(t, u, l, i) && SortedWithin(u, l, i)
    ensures Shuffled(was, u, lo, hi) && Placed(u, lo, hi, i + 1, h)
  {
    LeftDone(t, u, lo, hi, l, i, h);
    Repartitioned(was, t, u, lo, hi, l, i);
  }

  method SortRight(a: array<int>, l: nat, i: nat, h: nat, ghost lo: nat, ghost hi: nat, ghost was: seq<int>) returns (ghost depth: nat)
    requires lo <= l <= i < h <= hi <= a.Length == |was| && Shuffled(was, a[..], lo, hi) && Between(a[..], lo, hi, l, i, h)
    modifies a
    ensures Shuffled(was, a[..], lo, hi) && Placed(a[..], lo, hi, l, i) && Pow2(depth) <= h - i
    decreases h - i - 1, 2
  {
    ghost var t := a[..];
    depth := Quick(a, i + 1, h - 1);
    RightRound(was, t, a[..], lo, hi, l, i, h);
  }

  lemma RightRound(was: seq<int>, t: seq<int>, u: seq<int>, lo: nat, hi: nat, l: nat, i: nat, h: nat)
    requires lo <= l <= i < h <= hi <= |t| == |was| && Shuffled(was, t, lo, hi) && Between(t, lo, hi, l, i, h)
    requires Shuffled(t, u, i + 1, h) && SortedWithin(u, i + 1, h)
    ensures Shuffled(was, u, lo, hi) && Placed(u, lo, hi, l, i)
  {
    RightDone(t, u, lo, hi, l, i, h);
    Repartitioned(was, t, u, lo, hi, i + 1, h);
  }

  lemma Repartitioned(was: seq<int>, s: seq<int>, t: seq<int>, lo: nat, hi: nat, l: nat, h: nat)
    requires |was| == |s| && lo <= l <= h <= hi <= |s| && Shuffled(was, s, lo, hi) && Shuffled(s, t, l, h)
    ensures Shuffled(was, t, lo, hi)
  {
    ShuffledWider(s, t, l, h, lo, hi);
    ShuffledTwice(was, s, t, lo, hi);
  }

  method Quicksort(a: array<int>) returns (ghost depth: nat)
    modifies a
    ensures SortOf(old(a[..]), a[..]) && Pow2(depth) <= a.Length + 1
  {
    depth := Quick(a, 0, a.Length - 1);
    AllPlaced(old(a[..]), a[..], 0, 0);
  }

  // ------------------------------------------------------------------
  // Heap
  // ------------------------------------------------------------------

  /** `p` is at least its children, as far as they are in the heap. */
  ghost predicate Over(s: seq<int>, p: nat, size: nat)
    requires p < size <= |s|
  {
    (2 * p + 1 < size ==> s[2 * p + 1] <= s[p]) && (2 * p + 2 < size ==> s[2 * p + 2] <= s[p])
  }

  ghost predicate Heap(s: seq<int>, root: nat, size: nat)
    requires size <= |s|
  {
    forall p :: root <= p < size ==> Over(s, p, size)
  }

  lemma {:induction false} Top(s: seq<int>, size: nat, k: nat)
    requires k < size <= |s| && Heap(s, 0, size)
    ensures s[k] <= s[0]
  {
    if k > 0 {
      var p := (k - 1) / 2;
      assert Over(s, p, size);
      Top(s, size, p);
    }
  }

  /** A heap below `top` but for `root`, which may be too small; what is over it is not. */
  ghost predicate Sinking(s: seq<int>, top: nat, size: nat, root: nat, up: nat)
    requires top <= root < size <= |s|
  {
    && (forall p :: top <= p < size && p != root ==> Over(s, p, size))
    && (root == top || Grand(s, top, size, root, up))
  }

  ghost predicate Grand(s: seq<int>, top: nat, size: nat, root: nat, up: nat)
    requires root < size <= |s|
  {
    && top <= up < root && (root == 2 * up + 1 || root == 2 * up + 2)
    && (2 * root + 1 < size ==> s[2 * root + 1] <= s[up]) && (2 * root + 2 < size ==> s[2 * root + 2] <= s[up])
  }

  lemma Sunk(s: seq<int>, top: nat, size: nat, root: nat, up: nat, c: nat)
    requires top <= root < size <= |s| && Sinking(s, top, size, root, up) && c < size && (c == 2 * root + 1 || c == 2 * root + 2)
    requires s[root] < s[c] && (2 * root + 1 < size ==> s[2 * root + 1] <= s[c]) && (2 * root + 2 < size ==> s[2 * root + 2] <= s[c])
    ensures Sinking(Swapped(s, root, c), top, size, c, root)
  {
    var t := Swapped(s, root, c);
    forall p | top <= p < size && p != c
      ensures Over(t, p, size)
    {
      assert p != root ==> Over(s, p, size);
    }
    assert Over(s, c, size);
  }

  /** Lets a[root] down into the heap a[..size] until it is where it belongs. */
  method Sift(a: array<int>, top: nat, size: nat)
    requires top < size <= a.Length && Heap(a[..], top + 1, size)
    modifies a
    ensures Heap(a[..], top, size) && Shuffled(old(a[..]), a[..], top, size)
  {
    var root := top;
    ghost var up := 0;
    while true
      invariant top <= root < size && Sinking(a[..], top, size, root, up) && Shuffled(old(a[..]), a[..], top, size)
      decreases size - root
    {
      var c := root * 2 + 1;
      if c >= size {
        return;
      }
      if c + 1 < size && a[c] < a[c + 1] {
        c := c + 1;
      }
      if !(a[root] < a[c]) {
        return;
      }
      Sunk(a[..], top, size, root, up, c);
      SwapWithin(a, root, c, top, size, old(a[..]));
      up, root := root, c;
    }
  }

  method Heapsort(a: array<int>)
    modifies a
    ensures SortOf(old(a[..]), a[..])
  {
    MakeHeap(a);
    var i := a.Length - 1;
    while i > 0
      invariant -1 <= i < a.Length && Heap(a[..], 0, i + 1)
      invariant Shuffled(old(a[..]), a[..], 0, a.Length) && Placed(a[..], 0, a.Length, 0, i + 1)
    {
      TakeTop(a, i, old(a[..]));
      i := i - 1;
    }
    AllPlaced(old(a[..]), a[..], 0, i + 1);
  }

  method MakeHeap(a: array<int>)
    modifies a
    ensures Heap(a[..], 0, a.Length) && Shuffled(old(a[..]), a[..], 0, a.Length)
  {
    var i := a.Length / 2 - 1;
    while i >= 0
      invariant -1 <= i < a.Length && Heap(a[..], i + 1, a.Length) && Shuffled(old(a[..]), a[..], 0, a.Length)
    {
      ghost var s := a[..];
      Sift(a, i, a.Length);
      ShuffledWider(s, a[..], i, a.Length, 0, a.Length);
      ShuffledTwice(old(a[..]), s, a[..], 0, a.Length);
      i := i - 1;
    }
  }

  /** The largest of a heap goes after it, and the rest is a heap again. */
  method TakeTop(a: array<int>, i: nat, ghost was: seq<int>)
    requires 0 < i < a.Length == |was| && Heap(a[..], 0, i + 1) && Placed(a[..], 0, a.Length, 0, i + 1) && Shuffled(was, a[..], 0, a.Length)
    modifies a
    ensures Heap(a[..], 0, i) && Placed(a[..], 0, a.Length, 0, i) && Shuffled(was, a[..], 0, a.Length)
  {
    ghost var s := a[..];
    Swap(a, 0, i);
    TopLast(s, i);
    Sift(a, 0, i);
    ghost var t := Swapped(s, 0, i);
    PlacedKept(t, a[..], 0, a.Length, 0, i);
    SwapMore(was, s, 0, i, 0, a.Length);
    ShuffledWider(t, a[..], 0, i, 0, a.Length);
    ShuffledTwice(was, t, a[..], 0, a.Length);
  }

  lemma TopLast(s: seq<int>, i: nat)
    requires 0 < i < |s| && Heap(s, 0, i + 1) && Placed(s, 0, |s|, 0, i + 1)
    ensures var t := Swapped(s, 0, i); Heap(t, 1, i) && Placed(t, 0, |s|, 0, i)
  {
    var t := Swapped(s, 0, i);
    forall p | 1 <= p < i
      ensures Over(t, p, i)
    {
      assert Over(s, p, i + 1);
    }
    forall k | 0 <= k <= i
      ensures s[k] <= s[0]
    {
      Top(s, i + 1, k);
    }
  }

  // ------------------------------------------------------------------
  // Merge
  // ------------------------------------------------------------------

  /** Two sequences merged, the first before the second where they are equal. */
  function Merged(x: seq<int>, y: seq<int>): (m: seq<int>)
    ensures |m| == |x| + |y|
  {
    if x == [] then y
    else if y == [] then x
    else if y[0] < x[0] then [y[0]] + Merged(x, y[1..])
    else [x[0]] + Merged(x[1..], y)
  }

  lemma {:induction false} MergedSame(x: seq<int>, y: seq<int>)
    ensures multiset(Merged(x, y)) == multiset(x) + multiset(y)
  {
    if x != [] && y != [] {
      assert x == [x[0]] + x[1..] && y == [y[0]] + y[1..];
      if y[0] < x[0] {
        MergedSame(x, y[1..]);
      } else {
        MergedSame(x[1..], y);
      }
    }
  }

  ghost predicate AtLeast(s: seq<int>, v: int) {
    forall k :: 0 <= k < |s| ==> v <= s[k]
  }

  lemma {:induction false} MergedAtLeast(x: seq<int>, y: seq<int>, v: int)
    requires AtLeast(x, v) && AtLeast(y, v)
    ensures AtLeast(Merged(x, y), v)
  {
    if x != [] && y != [] {
      if y[0] < x[0] {
        MergedAtLeast(x, y[1..], v);
      } else {
        MergedAtLeast(x[1..], y, v);
      }
    }
  }

  lemma {:induction false} MergedSorted(x: seq<int>, y: seq<int>)
    requires SortedWithin(x, 0, |x|) && SortedWithin(y, 0, |y|)
    ensures var m := Merged(x, y); SortedWithin(m, 0, |m|)
  {
    if x != [] && y != [] {
      if y[0] < x[0] {
        MergedSorted(x, y[1..]);
        MergedAtLeast(x, y[1..], y[0]);
      } else {
        MergedSorted(x[1..], y);
        MergedAtLeast(x[1..], y, x[0]);
      }
    }
  }

  method Merge(a: array<int>, tmp: array<int>, lo: nat, mid: nat, hi: nat)
    requires lo <= mid <= hi <= a.Length <= tmp.Length && a != tmp
    modifies a, tmp
    ensures var s := old(a[..]); a[..] == s[..lo] + Merged(s[lo..mid], s[mid..hi]) + s[hi..]
  {
    var k := MergeOut(a, tmp, lo, mid, hi);
    ghost var s, m := a[..], tmp[..k];
    assert s == CopiedTo(s, lo, m, 0);
    for i := 0 to k
      invariant tmp[..k] == m && a[..] == CopiedTo(s, lo, m, i)
    {
      CopyMore(s, lo, m, i);
      assert tmp[i] == m[i];
      a[lo + i] := tmp[i];
    }
  }

  /** The first `i` of `m` put over `s` at `lo`. */
  function CopiedTo(s: seq<int>, lo: nat, m: seq<int>, i: nat): (t: seq<int>)
    requires i <= |m| && lo + |m| <= |s|
    ensures |t| == |s|
  {
    s[..lo] + m[..i] + s[lo + i..]
  }

  lemma CopyMore(s: seq<int>, lo: nat, m: seq<int>, i: nat)
    requires i < |m| && lo + |m| <= |s|
    ensures CopiedTo(s, lo, m, i + 1) == CopiedTo(s, lo, m, i)[lo + i := m[i]]
  {
  }

  method Append(tmp: array<int>, k: nat, v: int)
    requires k < tmp.Length
    modifies tmp
    ensures tmp[..k + 1] == old(tmp[..k]) + [v]
  {
    tmp[k] := v;
  }

  /** What is written, and what is still to be merged. */
  ghost predicate Merging(done: seq<int>, s: seq<int>, i: nat, mid: nat, j: nat, hi: nat, whole: seq<int>)
    requires i <= mid <= j <= hi <= |s|
  {
    done + Merged(s[i..mid], s[j..hi]) == whole
  }

  lemma TakeFirst(done: seq<int>, s: seq<int>, i: nat, mid: nat, j: nat, hi: nat, whole: seq<int>)
    requires i < mid <= j <= hi <= |s| && Merging(done, s, i, mid, j, hi, whole) && (j == hi || s[i] <= s[j])
    ensures Merging(done + [s[i]], s, i + 1, mid, j, hi, whole)
  {
    var x, y := s[i..mid], s[j..hi];
    assert x[1..] == s[i + 1..mid];
    assert Merged(x, y) == [x[0]] + Merged(x[1..], y);
  }

  lemma TakeSecond(done: seq<int>, s: seq<int>, i: nat, mid: nat, j: nat, hi: nat, whole: seq<int>)
    requires i <= mid <= j < hi <= |s| && Merging(done, s, i, mid, j, hi, whole) && (i == mid || s[j] < s[i])
    ensures Merging(done + [s[j]], s, i, mid, j + 1, hi, whole)
  {
    var x, y := s[i..mid], s[j..hi];
    assert y[1..] == s[j + 1..hi];
    assert Merged(x, y) == [y[0]] + Merged(x, y[1..]);
  }

  /** The smaller of the two in front. */
  method MergeOne(a: array<int>, tmp: array<int>, i: nat, mid: nat, j: nat, hi: nat, k: nat, ghost whole: seq<int>) returns (i': nat, j': nat)
    requires i < mid <= j < hi <= a.Length && k < tmp.Length && a != tmp && Merging(tmp[..k], a[..], i, mid, j, hi, whole)
    modifies tmp
    ensures i <= i' <= mid && j <= j' <= hi && i' + j' == i + j + 1 && Merging(tmp[..k + 1], a[..], i', mid, j', hi, whole)
  {
    if a[j] < a[i] {
      TakeSecond(tmp[..k], a[..], i, mid, j, hi, whole);
      Append(tmp, k, a[j]);
      return i, j + 1;
    } else {
      TakeFirst(tmp[..k], a[..], i, mid, j, hi, whole);
      Append(tmp, k, a[i]);
      return i + 1, j;
    }
  }

  method MergeOut(a: array<int>, tmp: array<int>, lo: nat, mid: nat, hi: nat) returns (k: nat)
    requires lo <= mid <= hi <= a.Length <= tmp.Length && a != tmp
    modifies tmp
    ensures k == hi - lo && tmp[..k] == Merged(a[lo..mid], a[mid..hi])
  {
    var i, j := lo, mid;
    ghost var whole := Merged(a[lo..mid], a[mid..hi]);
    assert a[..][lo..mid] == a[lo..mid] && a[..][mid..hi] == a[mid..hi];
    k := 0;
    while i < mid && j < hi
      invariant lo <= i <= mid <= j <= hi && k == i - lo + j - mid && Merging(tmp[..k], a[..], i, mid, j, hi, whole)
      decreases mid - i + hi - j
    {
      i, j := MergeOne(a, tmp, i, mid, j, hi, k, whole);
      k := k + 1;
    }
    k := MergeRest(a, tmp, lo, i, mid, j, hi, k, whole);
  }

  /** One side is used up; the other follows as it is. */
  method MergeRest(a: array<int>, tmp: array<int>, ghost lo: nat, from: nat, mid: nat, next: nat, hi: nat, len: nat, ghost whole: seq<int>)
    returns (k: nat)
    requires lo <= from <= mid <= next <= hi <= a.Length <= tmp.Length && a != tmp && (from == mid || next == hi)
    requires len == from - lo + next - mid && Merging(tmp[..len], a[..], from, mid, next, hi, whole)
    modifies tmp
    ensures k == hi - lo && tmp[..k] == whole
  {
    var i, j := from, next;
    ghost var s := a[..];
    k := len;
    while i < mid
      invariant lo <= i <= mid <= j <= hi && (i < mid ==> j == hi) && k == i - lo + j - mid && a[..] == s
      invariant Merging(tmp[..k], s, i, mid, j, hi, whole)
    {
      TakeFirst(tmp[..k], s, i, mid, j, hi, whole);
      Append(tmp, k, a[i]);
      k, i := k + 1, i + 1;
    }
    while j < hi
      invariant i == mid <= j <= hi && k == i - lo + j - mid && a[..] == s
      invariant Merging(tmp[..k], s, i, mid, j, hi, whole)
    {
      TakeSecond(tmp[..k], s, i, mid, j, hi, whole);
      Append(tmp, k, a[j]);
      k, j := k + 1, j + 1;
    }
  }

  /** What merging sorted halves leaves. */
  lemma MergedInto(s: seq<int>, t: seq<int>, lo: nat, mid: nat, hi: nat)
    requires lo <= mid <= hi <= |s| && t == s[..lo] + Merged(s[lo..mid], s[mid..hi]) + s[hi..]
    requires SortedWithin(s, lo, mid) && SortedWithin(s, mid, hi)
    ensures Shuffled(s, t, lo, hi) && SortedWithin(t, lo, hi)
  {
    var x, y := s[lo..mid], s[mid..hi];
    SliceSorted(s, lo, mid);
    SliceSorted(s, mid, hi);
    MergedSame(x, y);
    MergedSorted(x, y);
    Cut(s, lo, mid, hi, hi);
    BagIs(s, mid, hi);
    assert s[hi..hi] == [];
    PutBack(s, Merged(x, y), lo, hi);
  }

  lemma SliceSorted(s: seq<int>, lo: nat, hi: nat)
    requires lo <= hi <= |s| && SortedWithin(s, lo, hi)
    ensures SortedWithin(s[lo..hi], 0, hi - lo)
  {
  }

  lemma PutBack(s: seq<int>, m: seq<int>, lo: nat, hi: nat)
    requires lo <= hi <= |s| && |m| == hi - lo && SortedWithin(m, 0, |m|) && multiset(m) == Bag(s, lo, hi)
    ensures var t := s[..lo] + m + s[hi..]; Shuffled(s, t, lo, hi) && SortedWithin(t, lo, hi)
  {
    var t := s[..lo] + m + s[hi..];
    BagIs(t, lo, hi);
    assert t[lo..hi] == m;
    assert forall k :: lo <= k < hi ==> t[k] == m[k - lo];
  }

  /** Both in the same run, when runs are `w` long. */
  predicate SameRun(p: nat, q: nat, w: nat)
    requires 0 < w && p <= q
  {
    if p < w then q < w else SameRun(p - w, q - w, w)
  }

  /** `x` is where a run begins. */
  predicate Begins(x: nat, w: nat)
    requires 0 < w
  {
    x == 0 || (x >= w && Begins(x - w, w))
  }

  lemma {:induction false} InRun(lo: nat, w: nat, p: nat, q: nat)
    requires 0 < w && Begins(lo, w) && lo <= p <= q < lo + w
    ensures SameRun(p, q, w)
  {
    if lo > 0 {
      InRun(lo - w, w, p - w, q - w);
    }
  }

  lemma {:induction false} AcrossRuns(lo: nat, w: nat, p: nat, q: nat)
    requires 0 < w && Begins(lo, w) && p < lo <= q
    ensures !SameRun(p, q, w)
  {
    if p >= w {
      AcrossRuns(lo - w, w, p - w, q - w);
    }
  }

  lemma {:induction false} HalfRuns(lo: nat, w: nat)
    requires 0 < w && Begins(lo, 2 * w)
    ensures Begins(lo, w) && Begins(lo + w, w)
  {
    if lo > 0 {
      HalfRuns(lo - 2 * w, w);
      assert Begins(lo - w, w);
    }
  }

  lemma {:induction false} ShortRuns(p: nat, q: nat)
    requires p < q
    ensures !SameRun(p, q, 1)
  {
    if p > 0 {
      ShortRuns(p - 1, q - 1);
    }
  }

  /** From `lo` to `hi` every run is sorted. */
  ghost predicate Runs(s: seq<int>, lo: nat, hi: nat, w: nat)
    requires 0 < w && hi <= |s|
  {
    forall p, q :: lo <= p < q < hi && SameRun(p, q, w) ==> s[p] <= s[q]
  }

  function Least(x: nat, y: nat): nat {
    if x < y then x else y
  }

  lemma RunSorted(s: seq<int>, from: nat, lo: nat, hi: nat, w: nat)
    requires 0 < w && from <= lo <= hi <= |s| && Runs(s, from, |s|, w) && Begins(lo, w) && hi <= lo + w
    ensures SortedWithin(s, lo, hi)
  {
    forall p, q | lo <= p < q < hi
      ensures s[p] <= s[q]
    {
      InRun(lo, w, p, q);
    }
  }

  lemma TwoRuns(s: seq<int>, t: seq<int>, lo: nat, hi: nat, w: nat)
    requires 0 < w && lo <= hi <= |s| && Shuffled(s, t, lo, hi) && SortedWithin(t, lo, hi) && Begins(lo, 2 * w)
    requires Runs(s, 0, lo, 2 * w) && Runs(s, lo, |s|, w)
    ensures Runs(t, 0, hi, 2 * w) && Runs(t, hi, |t|, w)
  {
    forall p, q | 0 <= p < q < hi && SameRun(p, q, 2 * w)
      ensures t[p] <= t[q]
    {
      if p < lo <= q {
        AcrossRuns(lo, 2 * w, p, q);
      }
    }
  }

  lemma LastRun(s: seq<int>, lo: nat, w: nat)
    requires 0 < w && Begins(lo, 2 * w) && |s| <= lo + w
    requires Runs(s, 0, Least(lo, |s|), 2 * w) && Runs(s, Least(lo, |s|), |s|, w)
    ensures Runs(s, 0, |s|, 2 * w)
  {
    HalfRuns(lo, w);
    forall p, q | 0 <= p < q < |s| && SameRun(p, q, 2 * w)
      ensures s[p] <= s[q]
    {
      if p < lo <= q {
        AcrossRuns(lo, 2 * w, p, q);
      } else if lo <= p {
        InRun(lo, w, p, q);
      }
    }
  }

  method MergeRuns(a: array<int>, tmp: array<int>, lo: nat, w: nat)
    requires 0 < w && lo + w < a.Length <= tmp.Length && a != tmp && Begins(lo, 2 * w)
    requires Runs(a[..], 0, lo, 2 * w) && Runs(a[..], lo, a.Length, w)
    modifies a, tmp
    ensures var hi := Least(lo + 2 * w, a.Length);
            Runs(a[..], 0, hi, 2 * w) && Runs(a[..], hi, a.Length, w) && Shuffled(old(a[..]), a[..], lo, hi)
  {
    ghost var s := a[..];
    var hi := lo + 2 * w;
    hi := if hi < a.Length then hi else a.Length;
    RunsSorted(s, lo, hi, w);
    MergeSorted(a, tmp, lo, lo + w, hi);
    TwoRuns(s, a[..], lo, hi, w);
  }

  lemma RunsSorted(s: seq<int>, lo: nat, hi: nat, w: nat)
    requires 0 < w && lo + w <= hi <= |s| && hi <= lo + 2 * w && Begins(lo, 2 * w) && Runs(s, lo, |s|, w)
    ensures SortedWithin(s, lo, lo + w) && SortedWithin(s, lo + w, hi)
  {
    HalfRuns(lo, w);
    RunSorted(s, lo, lo, lo + w, w);
    RunSorted(s, lo, lo + w, hi, w);
  }

  method MergeSorted(a: array<int>, tmp: array<int>, lo: nat, mid: nat, hi: nat)
    requires lo <= mid <= hi <= a.Length <= tmp.Length && a != tmp && SortedWithin(a[..], lo, mid) && SortedWithin(a[..], mid, hi)
    modifies a, tmp
    ensures Shuffled(old(a[..]), a[..], lo, hi) && SortedWithin(a[..], lo, hi)
  {
    ghost var s := a[..];
    Merge(a, tmp, lo, mid, hi);
    MergedInto(s, a[..], lo, mid, hi);
  }

  method MergePass(a: array<int>, tmp: array<int>, w: nat)
    requires 0 < w && a.Length <= tmp.Length && a != tmp && Runs(a[..], 0, a.Length, w)
    modifies a, tmp
    ensures Runs(a[..], 0, a.Length, 2 * w) && Shuffled(old(a[..]), a[..], 0, a.Length)
  {
    var lo := 0;
    while lo < a.Length - w
      invariant Begins(lo, 2 * w) && Shuffled(old(a[..]), a[..], 0, a.Length)
      invariant Runs(a[..], 0, Least(lo, a.Length), 2 * w) && Runs(a[..], Least(lo, a.Length), a.Length, w)
    {
      ghost var s := a[..];
      MergeRuns(a, tmp, lo, w);
      Repartitioned(old(a[..]), s, a[..], 0, a.Length, lo, Least(lo + 2 * w, a.Length));
      lo := lo + 2 * w;
    }
    LastRun(a[..], lo, w);
  }

  method Mergesort(a: array<int>, tmp: array<int>)
    requires a.Length <= tmp.Length && a != tmp
    modifies a, tmp
    ensures SortOf(old(a[..]), a[..])
  {
    var width := 1;
    forall p, q | 0 <= p < q < a.Length
      ensures !SameRun(p, q, 1)
    {
      ShortRuns(p, q);
    }
    while width < a.Length
      invariant 0 < width && Runs(a[..], 0, a.Length, width) && Shuffled(old(a[..]), a[..], 0, a.Length)
    {
      ghost var s := a[..];
      MergePass(a, tmp, width);
      ShuffledTwice(old(a[..]), s, a[..], 0, a.Length);
      width := width * 2;
    }
    RunSorted(a[..], 0, 0, a.Length, width);
    AllPlaced(old(a[..]), a[..], 0, 0);
  }
}
