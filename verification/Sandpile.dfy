/**
The abelian sandpile of apps/sandpile.c.

Piles of grains on a grid, where one that has grown to four is shared out among
its neighbours. The program shares out whichever is on top of a stack and relies
on any other order coming to the same. The first half of this module states toppling as a
relation on values and proves that claim for every order; the second half is
the program's own stack-driven loop, proved to reach that unique outcome.
*/
module Sandpile {
  import opened Basics

  // ------------------------------------------------------------------
  // Toppling, as a relation on piles
  // ------------------------------------------------------------------

  datatype Grid = Grid(gw: nat, gh: nat) {
    function Size(): nat { gw * gh }
  }

  type Pile = seq<nat>

  predicate Fits(g: Grid, p: Pile) {
    |p| == g.Size()
  }

  function Abs(n: int): nat {
    if n < 0 then -n else n
  }

  /** Squares are neighbours when they are one step apart, north, south, east or west. */
  predicate Adjacent(g: Grid, i: nat, k: nat)
    requires g.gw > 0
  {
    Abs(i % g.gw - k % g.gw) + Abs(i / g.gw - k / g.gw) == 1
  }

  function Gives(g: Grid, i: nat, k: nat): nat {
    if g.gw > 0 && Adjacent(g, i, k) then 1 else 0
  }

  predicate CanTopple(p: Pile, i: nat) {
    i < |p| && p[i] >= 4
  }

  predicate Stable(p: Pile) {
    forall i :: 0 <= i < |p| ==> p[i] < 4
  }

  function Topple(g: Grid, p: Pile, i: nat): (q: Pile)
    requires CanTopple(p, i)
    ensures |q| == |p|
  {
    seq(|p|, k requires 0 <= k < |p| => p[k] + Gives(g, i, k) - (if k == i then 4 else 0))
  }

  /** A sequence of topplings each of which is allowed when its turn comes. */
  predicate Legal(g: Grid, p: Pile, s: seq<nat>)
    decreases |s|
  {
    s == [] || (CanTopple(p, s[0]) && Legal(g, Topple(g, p, s[0]), s[1..]))
  }

  function Run(g: Grid, p: Pile, s: seq<nat>): (q: Pile)
    requires Legal(g, p, s)
    ensures |q| == |p|
    decreases |s|
  {
    if s == [] then p else Run(g, Topple(g, p, s[0]), s[1..])
  }

  /** Two topplings commute. */
  lemma ToppleCommutes(g: Grid, p: Pile, i: nat, j: nat)
    requires CanTopple(p, i) && CanTopple(p, j) && i != j
    ensures CanTopple(Topple(g, p, i), j) && CanTopple(Topple(g, p, j), i)
    ensures Topple(g, Topple(g, p, i), j) == Topple(g, Topple(g, p, j), i)
  {
  }

  /** Toppling elsewhere never makes a square unable to topple. */
  lemma {:induction false} StillFull(g: Grid, p: Pile, s: seq<nat>, i: nat)
    requires Legal(g, p, s) && CanTopple(p, i) && i !in s
    ensures CanTopple(Run(g, p, s), i)
    decreases |s|
  {
    if s != [] {
      StillFull(g, Topple(g, p, s[0]), s[1..], i);
    }
  }

  /** The first toppling of a full square can be brought to the front. */
  lemma {:induction false} BringForward(g: Grid, p: Pile, a: seq<nat>, i: nat, b: seq<nat>)
    requires Legal(g, p, a + [i] + b) && CanTopple(p, i) && i !in a
    ensures Legal(g, Topple(g, p, i), a + b)
    ensures Run(g, Topple(g, p, i), a + b) == Run(g, p, a + [i] + b)
    decreases |a|
  {
    var t := a + [i] + b;
    if a == [] {
      assert t[0] == i && t[1..] == b && a + b == b;
    } else {
      var j := a[0];
      assert t[0] == j && t[1..] == a[1..] + [i] + b;
      assert (a + b)[0] == j && (a + b)[1..] == a[1..] + b;
      ToppleCommutes(g, p, i, j);
      BringForward(g, Topple(g, p, j), a[1..], i, b);
    }
  }

  lemma SplitAtFirst(s: seq<nat>, i: nat) returns (a: seq<nat>, b: seq<nat>)
    requires i in s
    ensures s == a + [i] + b && i !in a
  {
    var k := 0;
    while s[k] != i
      invariant 0 <= k < |s| && i !in s[..k] && i in s[k..]
      decreases |s| - k
    {
      k := k + 1;
    }
    a, b := s[..k], s[k + 1..];
  }

  lemma OneMoreEach(s: seq<nat>, t: seq<nat>, a: seq<nat>, b: seq<nat>, i: nat)
    requires s != [] && s[0] == i && t == a + [i] + b && multiset(s[1..]) <= multiset(a + b)
    ensures multiset(s) <= multiset(t)
  {
    assert s == [i] + s[1..];
    assert multiset(t) == multiset(a) + multiset{i} + multiset(b) && multiset(a + b) == multiset(a) + multiset(b);
  }

  /** Least action: any legal topplings are among those of any run that ends stable. */
  lemma {:induction false} LeastAction(g: Grid, p: Pile, s: seq<nat>, t: seq<nat>)
    requires Legal(g, p, s) && Legal(g, p, t) && Stable(Run(g, p, t))
    ensures multiset(s) <= multiset(t)
    decreases |s|
  {
    if s != [] {
      var i := s[0];
      if i !in t {
        StillFull(g, p, t, i);
        assert false;
      }
      var a, b := SplitAtFirst(t, i);
      BringForward(g, p, a, i, b);
      LeastAction(g, Topple(g, p, i), s[1..], a + b);
      OneMoreEach(s, t, a, b, i);
    }
  }

  /**
  The abelian property: every two legal orders that end stable topple each
  square the same number of times and leave the same pile.
  */
  lemma {:induction false} OrderDoesNotMatter(g: Grid, p: Pile, s: seq<nat>, t: seq<nat>)
    requires Legal(g, p, s) && Stable(Run(g, p, s))
    requires Legal(g, p, t) && Stable(Run(g, p, t))
    ensures multiset(s) == multiset(t)
    ensures Run(g, p, s) == Run(g, p, t)
    decreases |s|
  {
    if s == [] {
      assert t == [];
    } else {
      var i := s[0];
      if i !in t {
        StillFull(g, p, t, i);
        assert false;
      }
      var a, b := SplitAtFirst(t, i);
      BringForward(g, p, a, i, b);
      OrderDoesNotMatter(g, Topple(g, p, i), s[1..], a + b);
      assert s == [i] + s[1..];
      assert multiset(t) == multiset(a + b) + multiset{i};
    }
  }

  // ------------------------------------------------------------------
  // Weighing a pile: grains, and the measure every toppling lowers
  // ------------------------------------------------------------------

  function Weigh(p: Pile, w: nat -> int): int {
    if p == [] then 0 else Weigh(p[..|p| - 1], w) + p[|p| - 1] * w(|p| - 1)
  }

  function Unit(i: nat): int {
    1
  }

  function Grains(p: Pile): int {
    Weigh(p, Unit)
  }

  /** A weight that falls away from the middle column, and is concave along a row. */
  function Bend(gw: int, x: int): int {
    (x + 1) * (gw - x)
  }

  function Height(g: Grid): nat -> int {
    i => if g.gw > 0 then Bend(g.gw, i % g.gw) else 0
  }

  /** What a pile can still spend on topplings. */
  function Potential(g: Grid, p: Pile): int {
    Weigh(p, Height(g))
  }

  lemma {:induction false} WeighUpdate(p: Pile, w: nat -> int, i: nat, v: nat)
    requires i < |p|
    ensures Weigh(p[i := v], w) == Weigh(p, w) + (v - p[i]) * w(i)
    decreases |p|
  {
    var n := |p| - 1;
    if i == n {
      assert p[i := v][..n] == p[..n];
    } else {
      assert p[i := v][..n] == p[..n][i := v];
      WeighUpdate(p[..n], w, i, v);
    }
  }

  lemma {:induction false} WeighNonNegative(p: Pile, w: nat -> int)
    requires forall i :: 0 <= i < |p| ==> w(i) >= 0
    ensures Weigh(p, w) >= 0
    decreases |p|
  {
    if p != [] {
      var n := |p| - 1;
      WeighNonNegative(p[..n], w);
      assert p[n] * w(n) >= 0;
    }
  }

  lemma PotentialNonNegative(g: Grid, p: Pile)
    requires Fits(g, p)
    ensures Potential(g, p) >= 0
  {
    forall i | 0 <= i < |p|
      ensures Height(g)(i) >= 0
    {
      if g.gw > 0 {
        var x := i % g.gw;
        assert 0 <= x < g.gw;
        assert (x + 1) * (g.gw - x) >= 0;
      }
    }
    WeighNonNegative(p, Height(g));
  }

  // ------------------------------------------------------------------
  // Squares by coordinates
  // ------------------------------------------------------------------

  predicate OnGrid(g: Grid, x: int, y: int) {
    0 <= x < g.gw && 0 <= y < g.gh
  }

  /** Where row `y` begins. */
  function Row(gw: nat, y: nat): nat {
    if y == 0 then 0 else Row(gw, y - 1) + gw
  }

  lemma {:induction false} RowIs(gw: nat, y: nat)
    ensures Row(gw, y) == y * gw
  {
    if y > 0 {
      RowIs(gw, y - 1);
      assert y * gw == (y - 1) * gw + gw;
    }
  }

  function Square(g: Grid, x: int, y: int): nat
    requires OnGrid(g, x, y)
  {
    Row(g.gw, y) + x
  }

  /** Coordinates and square numbers determine each other. */
  lemma SquareCoordinates(g: Grid, x: int, y: int)
    requires OnGrid(g, x, y)
    ensures Square(g, x, y) < g.Size()
    ensures Square(g, x, y) % g.gw == x && Square(g, x, y) / g.gw == y
  {
    RowIs(g.gw, y);
    Scaled(y + 1, g.gh, g.gw);
    Divided(Square(g, x, y), g.gw, y, x);
  }

  lemma CoordinatesOf(g: Grid, i: nat)
    requires i < g.Size()
    ensures g.gw > 0 && OnGrid(g, i % g.gw, i / g.gw)
    ensures Square(g, i % g.gw, i / g.gw) == i
  {
    if g.gw > 0 {
      var y := i / g.gw;
      RowIs(g.gw, y);
      assert i == y * g.gw + i % g.gw;
      if y >= g.gh {
        Scaled(g.gh, y, g.gw);
      }
    }
  }

  /** One grain onto (x, y); off the edge it is gone. */
  function Plus(g: Grid, p: Pile, x: int, y: int): (q: Pile)
    requires Fits(g, p)
    ensures Fits(g, q)
  {
    if OnGrid(g, x, y) then
      SquareCoordinates(g, x, y);
      var i := Square(g, x, y);
      p[i := p[i] + 1]
    else p
  }

  /** One grain to each side of (x, y), in the program's order. */
  function Scatter(g: Grid, p: Pile, x: int, y: int): (q: Pile)
    requires Fits(g, p)
    ensures Fits(g, q)
  {
    Plus(g, Plus(g, Plus(g, Plus(g, p, x - 1, y), x + 1, y), x, y - 1), x, y + 1)
  }

  function Lands(g: Grid, x: int, y: int, k: nat): nat
    requires g.gw > 0
  {
    if k % g.gw == x && k / g.gw == y then 1 else 0
  }

  lemma PlusAt(g: Grid, p: Pile, x: int, y: int, k: nat)
    requires Fits(g, p) && k < |p| && g.gw > 0
    ensures Plus(g, p, x, y)[k] == p[k] + Lands(g, x, y, k)
  {
    CoordinatesOf(g, k);
    if OnGrid(g, x, y) {
      SquareCoordinates(g, x, y);
    }
  }

  lemma ScatterAt(g: Grid, p: Pile, x: int, y: int, k: nat)
    requires Fits(g, p) && k < |p| && g.gw > 0
    ensures Scatter(g, p, x, y)[k]
         == p[k] + Lands(g, x - 1, y, k) + Lands(g, x + 1, y, k) + Lands(g, x, y - 1, k) + Lands(g, x, y + 1, k)
  {
    var p1 := Plus(g, p, x - 1, y);
    var p2 := Plus(g, p1, x + 1, y);
    var p3 := Plus(g, p2, x, y - 1);
    PlusAt(g, p, x - 1, y, k);
    PlusAt(g, p1, x + 1, y, k);
    PlusAt(g, p2, x, y - 1, k);
    PlusAt(g, p3, x, y + 1, k);
  }

  /** Taking four and scattering them in turn is the toppling of the definition. */
  lemma ScatterIsTopple(g: Grid, p: Pile, i: nat)
    requires Fits(g, p) && CanTopple(p, i) && g.gw > 0
    ensures Scatter(g, p[i := p[i] - 4], i % g.gw, i / g.gw) == Topple(g, p, i)
  {
    var x, y := i % g.gw, i / g.gw;
    var p0 := p[i := p[i] - 4];
    forall k | 0 <= k < |p|
      ensures Scatter(g, p0, x, y)[k] == Topple(g, p, i)[k]
    {
      ScatterAt(g, p0, x, y, k);
    }
  }

  /** The weight a grain has at (x, y): none, off the edge. */
  function Share(g: Grid, w: nat -> int, x: int, y: int): int {
    if OnGrid(g, x, y) then w(Square(g, x, y)) else 0
  }

  lemma PlusWeighs(g: Grid, p: Pile, w: nat -> int, x: int, y: int)
    requires Fits(g, p)
    ensures Weigh(Plus(g, p, x, y), w) == Weigh(p, w) + Share(g, w, x, y)
  {
    if OnGrid(g, x, y) {
      SquareCoordinates(g, x, y);
      var i := Square(g, x, y);
      WeighUpdate(p, w, i, p[i] + 1);
    }
  }

  function Shares(g: Grid, w: nat -> int, x: int, y: int): int {
    Share(g, w, x - 1, y) + Share(g, w, x + 1, y) + Share(g, w, x, y - 1) + Share(g, w, x, y + 1)
  }

  lemma ScatterWeighs(g: Grid, p: Pile, w: nat -> int, x: int, y: int)
    requires Fits(g, p)
    ensures Weigh(Scatter(g, p, x, y), w) == Weigh(p, w) + Shares(g, w, x, y)
  {
    var p1 := Plus(g, p, x - 1, y);
    var p2 := Plus(g, p1, x + 1, y);
    var p3 := Plus(g, p2, x, y - 1);
    PlusWeighs(g, p, w, x - 1, y);
    PlusWeighs(g, p1, w, x + 1, y);
    PlusWeighs(g, p2, w, x, y - 1);
    PlusWeighs(g, p3, w, x, y + 1);
  }

  /** What a toppling does to any weighing of the pile. */
  lemma ToppleWeighs(g: Grid, p: Pile, w: nat -> int, i: nat)
    requires Fits(g, p) && CanTopple(p, i) && g.gw > 0
    ensures Weigh(Topple(g, p, i), w) == Weigh(p, w) - 4 * w(i) + Shares(g, w, i % g.gw, i / g.gw)
  {
    ScatterIsTopple(g, p, i);
    TakenAndGiven(g, p, w, i, i % g.gw, i / g.gw);
  }

  lemma TakenAndGiven(g: Grid, p: Pile, w: nat -> int, i: nat, x: int, y: int)
    requires Fits(g, p) && CanTopple(p, i)
    ensures Weigh(Scatter(g, p[i := p[i] - 4], x, y), w) == Weigh(p, w) - 4 * w(i) + Shares(g, w, x, y)
  {
    TakenWeighs(p, w, i);
    ScatterWeighs(g, p[i := p[i] - 4], w, x, y);
  }

  lemma TakenWeighs(p: Pile, w: nat -> int, i: nat)
    requires CanTopple(p, i)
    ensures Weigh(p[i := p[i] - 4], w) == Weigh(p, w) - 4 * w(i)
  {
    WeighUpdate(p, w, i, p[i] - 4);
  }

  /** Every toppling lowers the potential by two or more, so no order goes on for ever. */
  lemma ToppleLowersPotential(g: Grid, p: Pile, i: nat)
    requires Fits(g, p) && CanTopple(p, i)
    ensures Potential(g, Topple(g, p, i)) <= Potential(g, p) - 2
  {
    CoordinatesOf(g, i);
    ToppleWeighs(g, p, Height(g), i);
    SidesAreLower(g, i % g.gw, i / g.gw);
    assert Height(g)(i) == Bend(g.gw, i % g.gw);
  }

  /** The four sides together lie lower than four times the square. */
  lemma SidesAreLower(g: Grid, x: int, y: int)
    requires 0 <= x < g.gw
    ensures Shares(g, Height(g), x, y) <= 4 * Bend(g.gw, x) - 2
  {
    BendConcave(g.gw, x);
    HeightShare(g, x - 1, y);
    HeightShare(g, x + 1, y);
    HeightShare(g, x, y - 1);
    HeightShare(g, x, y + 1);
  }

  lemma HeightShare(g: Grid, x: int, y: int)
    requires -1 <= x <= g.gw
    ensures 0 <= Share(g, Height(g), x, y) <= Bend(g.gw, x)
  {
    assert Bend(g.gw, x) >= 0;
    if OnGrid(g, x, y) {
      SquareCoordinates(g, x, y);
    }
  }

  lemma BendConcave(gw: int, x: int)
    ensures Bend(gw, x - 1) + Bend(gw, x + 1) == 2 * Bend(gw, x) - 2
  {
    var q := x * (gw - x);
    assert Bend(gw, x) == q + (gw - x);
    assert Bend(gw, x - 1) == x * (gw - x + 1) == q + x;
    assert Bend(gw, x + 1) == (x + 2) * (gw - x - 1) == x * (gw - x - 1) + 2 * (gw - x - 1) == q - x + 2 * (gw - x - 1);
  }

  /** A bound on every legal run, whatever its order. */
  lemma {:induction false} RunsAreBounded(g: Grid, p: Pile, s: seq<nat>)
    requires Fits(g, p) && Legal(g, p, s)
    ensures 2 * |s| <= Potential(g, p)
    decreases |s|
  {
    if s == [] {
      PotentialNonNegative(g, p);
    } else {
      ToppleLowersPotential(g, p, s[0]);
      RunsAreBounded(g, Topple(g, p, s[0]), s[1..]);
    }
  }

  // ------------------------------------------------------------------
  // The settled pile, by a reference order: lowest-numbered square first
  // ------------------------------------------------------------------

  function FirstFull(p: Pile, from: nat): (i: nat)
    requires from <= |p| && !Stable(p) && forall k :: 0 <= k < from ==> p[k] < 4
    ensures CanTopple(p, i) && from <= i && forall k :: 0 <= k < i ==> p[k] < 4
    decreases |p| - from
  {
    if from < |p| && p[from] >= 4 then from else FirstFull(p, from + 1)
  }

  function SettleOrder(g: Grid, p: Pile): (s: seq<nat>)
    requires Fits(g, p)
    ensures Legal(g, p, s) && Stable(Run(g, p, s))
    decreases Potential(g, p)
  {
    if Stable(p) then []
    else
      var i := FirstFull(p, 0);
      ToppleLowersPotential(g, p, i);
      PotentialNonNegative(g, Topple(g, p, i));
      PotentialNonNegative(g, p);
      var s := [i] + SettleOrder(g, Topple(g, p, i));
      assert s[1..] == SettleOrder(g, Topple(g, p, i));
      s
  }

  function Settled(g: Grid, p: Pile): (q: Pile)
    requires Fits(g, p)
    ensures Fits(g, q) && Stable(q)
  {
    Run(g, p, SettleOrder(g, p))
  }

  /** Whatever legal order reaches a stable pile reaches the settled one. */
  lemma AnyOrderSettles(g: Grid, p: Pile, s: seq<nat>)
    requires Fits(g, p) && Legal(g, p, s) && Stable(Run(g, p, s))
    ensures Run(g, p, s) == Settled(g, p)
    ensures multiset(s) == multiset(SettleOrder(g, p)) && |s| == |SettleOrder(g, p)|
  {
    OrderDoesNotMatter(g, p, s, SettleOrder(g, p));
    assert |multiset(s)| == |s|;
  }

  lemma {:induction false} LegalConcat(g: Grid, p: Pile, s: seq<nat>, t: seq<nat>)
    requires Legal(g, p, s) && Legal(g, Run(g, p, s), t)
    ensures Legal(g, p, s + t) && Run(g, p, s + t) == Run(g, Run(g, p, s), t)
    decreases |s|
  {
    if s == [] {
      assert s + t == t;
    } else {
      assert (s + t)[0] == s[0] && (s + t)[1..] == s[1..] + t;
      LegalConcat(g, Topple(g, p, s[0]), s[1..], t);
    }
  }

  /** A grain that is already there never spoils a legal run, and is still there after it. */
  lemma {:induction false} ExtraGrain(g: Grid, p: Pile, x: int, y: int, s: seq<nat>)
    requires Fits(g, p) && Legal(g, p, s)
    ensures Legal(g, Plus(g, p, x, y), s)
    ensures Run(g, Plus(g, p, x, y), s) == Plus(g, Run(g, p, s), x, y)
    decreases |s|
  {
    if s != [] {
      assert Topple(g, Plus(g, p, x, y), s[0]) == Plus(g, Topple(g, p, s[0]), x, y);
      ExtraGrain(g, Topple(g, p, s[0]), x, y, s[1..]);
    }
  }

  /** Settling before a grain lands changes neither the outcome nor the work. */
  lemma SettleThenDrop(g: Grid, p: Pile, x: int, y: int)
    requires Fits(g, p)
    ensures Settled(g, Plus(g, Settled(g, p), x, y)) == Settled(g, Plus(g, p, x, y))
    ensures |SettleOrder(g, Plus(g, p, x, y))|
         == |SettleOrder(g, p)| + |SettleOrder(g, Plus(g, Settled(g, p), x, y))|
  {
    var s := SettleOrder(g, p);
    var t := SettleOrder(g, Plus(g, Settled(g, p), x, y));
    ExtraGrain(g, p, x, y, s);
    LegalConcat(g, Plus(g, p, x, y), s, t);
    AnyOrderSettles(g, Plus(g, p, x, y), s + t);
  }

  /** `n` grains on (x, y), all at once. */
  function Heap(g: Grid, p: Pile, x: int, y: int, n: nat): (q: Pile)
    requires Fits(g, p)
    ensures Fits(g, q)
  {
    if n == 0 then p else Plus(g, Heap(g, p, x, y, n - 1), x, y)
  }

  // ------------------------------------------------------------------
  // The program
  // ------------------------------------------------------------------

  ghost predicate NoDuplicates(s: seq<nat>) {
    forall a, b :: 0 <= a < b < |s| ==> s[a] != s[b]
  }

  /** The stack holds exactly the full squares, each once, apart from the one being toppled. */
  ghost predicate OnStack(p: Pile, stack: seq<nat>, toppling: int) {
    && NoDuplicates(stack)
    && (forall k :: k in stack ==> k < |p| && p[k] >= 4 && k != toppling)
    && (forall k :: 0 <= k < |p| && p[k] >= 4 && k != toppling ==> k in stack)
  }

  /** Distinct squares of a grid are no more than the grid has. */
  lemma {:induction false} StackFits(s: seq<nat>, bound: nat)
    requires NoDuplicates(s) && forall a :: 0 <= a < |s| ==> s[a] < bound
    ensures |s| <= bound
    decreases bound
  {
    if s != [] {
      assert s[0] < bound;
      if bound - 1 in s {
        var k :| 0 <= k < |s| && s[k] == bound - 1;
        var rest := s[..k] + s[k + 1..];
        assert forall a :: 0 <= a < |rest| ==> rest[a] in s && rest[a] != bound - 1;
        StackFits(rest, bound - 1);
      } else {
        StackFits(s, bound - 1);
      }
    }
  }

  /** The square taken off the stack is the one being toppled. */
  lemma PopsOne(p: Pile, stack: seq<nat>, i: nat)
    requires OnStack(p, stack + [i], -1)
    ensures i < |p| && p[i] >= 4 && OnStack(p, stack, i)
  {
    var all := stack + [i];
    assert all[|stack|] == i && i in all;
    assert forall k :: k in stack ==> k in all;
    forall k: nat | k < |p| && p[k] >= 4 && k != i
      ensures k in stack
    {
      assert k in all;
    }
    forall k | k in stack
      ensures k != i
    {
      var a :| 0 <= a < |stack| && stack[a] == k;
      assert all[a] == k;
    }
    forall a, b | 0 <= a < b < |stack|
      ensures stack[a] != stack[b]
    {
      assert all[a] == stack[a] && all[b] == stack[b];
    }
  }

  lemma SidesAreElsewhere(g: Grid, x: int, y: int)
    requires OnGrid(g, x, y)
    ensures OnGrid(g, x, y - 1) ==> Square(g, x, y - 1) != Square(g, x, y)
    ensures OnGrid(g, x, y + 1) ==> Square(g, x, y + 1) != Square(g, x, y)
  {
    assert y >= 1 ==> Row(g.gw, y) == Row(g.gw, y - 1) + g.gw;
    assert Row(g.gw, y + 1) == Row(g.gw, y) + g.gw;
  }

  class Toppler {
    const g: Grid
    const pile: array<nat>
    const todo: array<nat>      // full squares
    var ntodo: nat
    var dropped: nat
    var topples: nat
    ghost var lost: nat         // grains no longer on the grid, since the last reset

    ghost predicate Shape()
      reads this
    {
      pile != todo && pile.Length == todo.Length == g.Size() && ntodo <= todo.Length
    }

    /** Between settles: nothing waits, and every grain dropped is on the grid or lost. */
    ghost predicate Valid()
      reads this, pile, todo
    {
      Shape() && OnStack(pile[..], todo[..ntodo], -1) && dropped == Grains(pile[..]) + lost
    }

    constructor (gw: nat, gh: nat)
      ensures g == Grid(gw, gh) && fresh(pile) && fresh(todo)
      ensures Valid() && dropped == topples == lost == 0 && pile[..] == seq(g.Size(), i => 0)
    {
      g := Grid(gw, gh);
      pile := new nat[gw * gh];
      todo := new nat[gw * gh];
      ntodo, dropped, topples, lost := 0, 0, 0, 0;
      new;
      Reset();
    }

    method Reset()
      requires Shape()
      modifies this, pile
      ensures Valid() && ntodo == dropped == topples == lost == 0
      ensures pile[..] == seq(g.Size(), i => 0)
    {
      for i := 0 to pile.Length
        invariant forall k :: 0 <= k < i ==> pile[k] == 0
      {
        pile[i] := 0;
      }
      ntodo, dropped, topples, lost := 0, 0, 0, 0;
      ZeroGrains(pile[..]);
    }

    method Add(x: int, y: int, ghost toppling: int)
      requires Shape() && OnStack(pile[..], todo[..ntodo], toppling)
      requires OnGrid(g, x, y) ==> Square(g, x, y) != toppling
      modifies pile, todo, this`ntodo, this`lost
      ensures Shape() && OnStack(pile[..], todo[..ntodo], toppling)
      ensures pile[..] == Plus(g, old(pile[..]), x, y)
      ensures Grains(pile[..]) + lost == old(Grains(pile[..]) + lost) + 1
    {
      PlusWeighs(g, pile[..], Unit, x, y);
      if x < 0 || y < 0 || x >= g.gw || y >= g.gh {
        lost := lost + 1;
        return;
      }
      SquareCoordinates(g, x, y);
      RowIs(g.gw, y);
      var i := y * g.gw + x;
      ghost var before, stack := pile[..], todo[..ntodo];
      pile[i] := pile[i] + 1;
      assert pile[..] == before[i := before[i] + 1];
      if pile[i] == 4 {
        assert i !in stack && forall a :: 0 <= a < |stack| ==> stack[a] in stack;
        StackFits(stack + [i], g.Size());
        todo[ntodo] := i;
        ntodo := ntodo + 1;
        assert todo[..ntodo] == stack + [i];
      }
    }
  
    method Settle() returns (ghost trace: seq<nat>)
      requires Shape() && OnStack(pile[..], todo[..ntodo], -1)
      modifies pile, todo, this`ntodo, this`lost, this`topples
      ensures Shape() && ntodo == 0 && OnStack(pile[..], todo[..ntodo], -1)
      ensures Legal(g, old(pile[..]), trace) && pile[..] == Run(g, old(pile[..]), trace) == Settled(g, old(pile[..]))
      ensures multiset(trace) == multiset(SettleOrder(g, old(pile[..])))
      ensures topples == old(topples) + |trace| == old(topples) + |SettleOrder(g, old(pile[..]))|
      ensures Grains(pile[..]) + lost == old(Grains(pile[..]) + lost)
    {
      ghost var start := pile[..];
      trace := [];
      while ntodo > 0
        invariant Shape() && OnStack(pile[..], todo[..ntodo], -1)
        invariant Legal(g, start, trace) && pile[..] == Run(g, start, trace)
        invariant topples == old(topples) + |trace|
        invariant Grains(pile[..]) + lost == old(Grains(pile[..]) + lost)
        decreases Potential(g, pile[..])
      {
        PotentialNonNegative(g, pile[..]);
        var i := Pop();
        trace := ToppleWhileFull(i, start, trace);
      }
      AnyOrderSettles(g, start, trace);
    }

    method Pop() returns (i: nat)
      requires Shape() && ntodo > 0 && OnStack(pile[..], todo[..ntodo], -1)
      modifies this`ntodo
      ensures Shape() && i < pile.Length && pile[i] >= 4 && OnStack(pile[..], todo[..ntodo], i)
    {
      ntodo := ntodo - 1;
      i := todo[ntodo];
      assert todo[..ntodo + 1] == todo[..ntodo] + [i];
      PopsOne(pile[..], todo[..ntodo], i);
    }

    /** The inner loop of settle: `i` is off the stack and topples until it is no longer full. */
    method ToppleWhileFull(i: nat, ghost start: Pile, ghost trace0: seq<nat>) returns (ghost trace: seq<nat>)
      requires Shape() && i < pile.Length && pile[i] >= 4 && OnStack(pile[..], todo[..ntodo], i)
      requires Legal(g, start, trace0) && pile[..] == Run(g, start, trace0)
      modifies pile, todo, this`ntodo, this`lost, this`topples
      ensures Shape() && OnStack(pile[..], todo[..ntodo], -1)
      ensures Legal(g, start, trace) && pile[..] == Run(g, start, trace)
      ensures topples == old(topples) + |trace| - |trace0|
      ensures Grains(pile[..]) + lost == old(Grains(pile[..]) + lost)
      ensures Potential(g, pile[..]) < Potential(g, old(pile[..]))
    {
      CoordinatesOf(g, i);
      var x, y := i % g.gw, i / g.gw;
      trace := trace0;
      while pile[i] >= 4
        invariant Shape() && OnStack(pile[..], todo[..ntodo], i)
        invariant Legal(g, start, trace) && pile[..] == Run(g, start, trace)
        invariant topples == old(topples) + |trace| - |trace0|
        invariant Grains(pile[..]) + lost == old(Grains(pile[..]) + lost)
        invariant Potential(g, pile[..]) <= Potential(g, old(pile[..]))
        invariant pile[i] < 4 ==> Potential(g, pile[..]) < Potential(g, old(pile[..]))
        decreases pile[i]
      {
        ghost var p := pile[..];
        ToppleOnce(i);
        LegalConcat(g, start, trace, [i]);
        trace := trace + [i];
        ToppleLowersPotential(g, p, i);
      }
    }

    method ToppleOnce(i: nat)
      requires Shape() && i < pile.Length && pile[i] >= 4 && OnStack(pile[..], todo[..ntodo], i)
      modifies pile, todo, this`ntodo, this`lost, this`topples
      ensures Shape() && OnStack(pile[..], todo[..ntodo], i)
      ensures pile[..] == Topple(g, old(pile[..]), i)
      ensures topples == old(topples) + 1
      ensures Grains(pile[..]) + lost == old(Grains(pile[..]) + lost)
    {
      CoordinatesOf(g, i);
      var x, y := i % g.gw, i / g.gw;
      ghost var toppled := Topple(g, pile[..], i);
      ScatterIsTopple(g, pile[..], i);
      TakeFour(i);
      topples := topples + 1;
      assert toppled == Scatter(g, pile[..], x, y);
      GiveToSides(x, y, i);
      assert pile[..] == toppled;
    }

    method TakeFour(i: nat)
      requires Shape() && i < pile.Length && pile[i] >= 4 && OnStack(pile[..], todo[..ntodo], i)
      modifies pile
      ensures pile[..] == old(pile[..])[i := old(pile[i]) - 4] && OnStack(pile[..], todo[..ntodo], i)
      ensures Grains(pile[..]) == old(Grains(pile[..])) - 4
    {
      ghost var p := pile[..];
      WeighUpdate(p, Unit, i, p[i] - 4);
      pile[i] := pile[i] - 4;
      assert pile[..] == p[i := p[i] - 4];
    }

    method GiveToSides(x: int, y: int, ghost i: nat)
      requires Shape() && OnStack(pile[..], todo[..ntodo], i)
      requires OnGrid(g, x, y) && Square(g, x, y) == i
      modifies pile, todo, this`ntodo, this`lost
      ensures Shape() && OnStack(pile[..], todo[..ntodo], i)
      ensures pile[..] == Scatter(g, old(pile[..]), x, y)
      ensures Grains(pile[..]) + lost == old(Grains(pile[..]) + lost) + 4
    {
      SidesAreElsewhere(g, x, y);
      AddTwo(x - 1, y, x + 1, y, i);
      AddTwo(x, y - 1, x, y + 1, i);
    }

    method AddTwo(x: int, y: int, x': int, y': int, ghost i: nat)
      requires Shape() && OnStack(pile[..], todo[..ntodo], i)
      requires (OnGrid(g, x, y) ==> Square(g, x, y) != i) && (OnGrid(g, x', y') ==> Square(g, x', y') != i)
      modifies pile, todo, this`ntodo, this`lost
      ensures Shape() && OnStack(pile[..], todo[..ntodo], i)
      ensures pile[..] == Plus(g, Plus(g, old(pile[..]), x, y), x', y')
      ensures Grains(pile[..]) + lost == old(Grains(pile[..]) + lost) + 2
    {
      Add(x, y, i);
      Add(x', y', i);
    }

    /** One pass of the drop loop: a grain in the middle, then settle. */
    method Drop()
      requires Valid() && ntodo == 0
      modifies this, pile, todo
      ensures Valid() && ntodo == 0 && dropped == old(dropped) + 1
      ensures pile[..] == Settled(g, Plus(g, old(pile[..]), g.gw / 2, g.gh / 2))
      ensures topples == old(topples) + |SettleOrder(g, Plus(g, old(pile[..]), g.gw / 2, g.gh / 2))|
    {
      Add(g.gw / 2, g.gh / 2, -1);
      ghost var trace := Settle();
      dropped := dropped + 1;
    }

    /**
    Dropping `n` grains one at a time, settling after each, leaves the pile that
    dropping them all at once would, after exactly as many topplings.
    */
    method DropMany(n: nat)
      requires Valid() && ntodo == 0 && Stable(pile[..])
      modifies this, pile, todo
      ensures Valid() && ntodo == 0 && dropped == old(dropped) + n
      ensures pile[..] == Settled(g, Heap(g, old(pile[..]), g.gw / 2, g.gh / 2, n))
      ensures topples == old(topples) + |SettleOrder(g, Heap(g, old(pile[..]), g.gw / 2, g.gh / 2, n))|
    {
      ghost var start := pile[..];
      for i := 0 to n
        invariant Valid() && ntodo == 0 && dropped == old(dropped) + i
        invariant pile[..] == Settled(g, Heap(g, start, g.gw / 2, g.gh / 2, i))
        invariant topples == old(topples) + |SettleOrder(g, Heap(g, start, g.gw / 2, g.gh / 2, i))|
      {
        SettleThenDrop(g, Heap(g, start, g.gw / 2, g.gh / 2, i), g.gw / 2, g.gh / 2);
        Drop();
      }
    }
  }

  lemma {:induction false} ZeroGrains(p: Pile)
    requires forall k :: 0 <= k < |p| ==> p[k] == 0
    ensures Grains(p) == 0
    decreases |p|
  {
    if p != [] {
      ZeroGrains(p[..|p| - 1]);
    }
  }
}
