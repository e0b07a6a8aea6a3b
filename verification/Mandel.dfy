/**
The picture of apps/mandel.c, drawn in four passes of blocks that get finer, against
the picture drawn a point at a time.
*/
module Mandel {
  import opened Basics

  type Colour = nat

  /** What a point is coloured, whichever set is drawn. */
  type Points = (nat, nat) -> Colour

  predicate Multiple(st: nat, x: nat)
    requires st > 0
  {
    x == 0 || (x >= st && Multiple(st, x - st))
  }

  lemma {:induction false} MultipleIs(st: nat, x: nat)
    requires st > 0
    ensures Multiple(st, x) <==> x % st == 0
  {
    if x >= st {
      MultipleIs(st, x - st);
      var q, r := (x - st) / st, (x - st) % st;
      assert x == (q + 1) * st + r;
      Divided(x, st, q + 1, r);
    } else if x > 0 {
      Divided(x, st, 0, x);
    }
  }

  /** Between two neighbouring multiples of a step there is no other. */
  lemma {:induction false} OneMultiple(st: nat, x: nat, b: nat)
    requires st > 0 && Multiple(st, x) && Multiple(st, b) && x <= b < x + st
    ensures b == x
    decreases x
  {
    if x >= st {
      OneMultiple(st, x - st, b - st);
    }
  }

  lemma {:induction false} NextMultiple(st: nat, x: nat, b: nat)
    requires st > 0 && Multiple(st, x)
    ensures Multiple(st, x + st) && (x < b < x + st ==> !Multiple(st, b))
  {
    if x < b < x + st && Multiple(st, b) {
      OneMultiple(st, x, b);
    }
  }

  /** A multiple of the coarser step is one of the finer. */
  lemma {:induction false} CoarserIsFiner(st: nat, x: nat)
    requires st > 0 && Multiple(2 * st, x)
    ensures Multiple(st, x)
  {
    if x > 0 {
      CoarserIsFiner(st, x - 2 * st);
    }
  }

  /** The points passes down to this step evaluate: every `st`th of every `st`th row. */
  predicate OnLattice(st: nat, x: nat, y: nat)
    requires st > 0
  {
    Multiple(st, x) && Multiple(st, y)
  }

  class Picture {
    const w: nat
    const h: nat
    const point: Points
    const img: array2<Colour>
    ghost var evaluated: set<(nat, nat)>
    ghost var calls: nat

    ghost predicate Valid()
      reads this
    {
      img.Length0 == h && img.Length1 == w && |evaluated| == calls
    }

    constructor (w: nat, h: nat, point: Points)
      ensures Valid() && this.w == w && this.h == h && this.point == point && fresh(img) && evaluated == {}
    {
      this.w, this.h, this.point := w, h, point;
      img := new Colour[h, w];
      evaluated, calls := {}, 0;
    }

    /** Has the pass got past this point when it stands at (x0, y0), or has an earlier pass evaluated it? */
    ghost predicate Reached(st: nat, fine: bool, x0: nat, y0: nat, x: nat, y: nat)
      requires st > 0
    {
      && x < w && y < h && OnLattice(st, x, y)
      && ((fine && OnLattice(2 * st, x, y)) || y < y0 || (y == y0 && x < x0))
    }

    /** Evaluated so far are just the points reached, each of which has its own colour. */
    ghost predicate Drawing(st: nat, fine: bool, x0: nat, y0: nat)
      requires st > 0
      reads this, img
    {
      && Valid()
      && (forall x: nat, y: nat :: (x, y) in evaluated <==> Reached(st, fine, x0, y0, x, y))
      && (forall x: nat, y: nat :: (x, y) in evaluated && x < w && y < h ==> img[y, x] == point(x, y))
    }

    /** A colour over a block of the picture, as much of it as there is. */
    method Fill(st: nat, x: nat, y: nat, c: Colour)
      requires Valid() && x < w && y < h
      modifies img
      ensures forall i: nat, j: nat :: i < w && j < h ==>
                img[j, i] == if x <= i < x + st && y <= j < y + st then c else old(img[j, i])
    {
      var row := y;
      while row < y + st && row < h
        invariant y <= row <= y + st
        invariant forall i: nat, j: nat :: i < w && j < h ==>
                    img[j, i] == if x <= i < x + st && y <= j < row then c else old(img[j, i])
      {
        var col := x;
        while col < x + st && col < w
          invariant x <= col <= x + st
          invariant forall i: nat, j: nat :: i < w && j < h ==>
                      img[j, i] == if x <= i < x + st && (y <= j < row || (j == row && i < col)) then c else old(img[j, i])
        {
          img[row, col] := c;
          col := col + 1;
        }
        row := row + 1;
      }
    }

    /** The point at (x, y), unless an earlier pass has it, and the block it stands for. */
    method Visit(st: nat, fine: bool, x: nat, y: nat)
      requires st > 0 && Drawing(st, fine, x, y) && x < w && y < h && OnLattice(st, x, y)
      modifies img, `evaluated, `calls
      ensures Drawing(st, fine, x + 1, y)
    {
      MultipleIs(2 * st, x);
      MultipleIs(2 * st, y);
      if fine && x % (st * 2) == 0 && y % (st * 2) == 0 {
        return;
      }
      var c := point(x, y);
      KeepsOthers(st, x, y);
      Fill(st, x, y, c);
      evaluated, calls := evaluated + {(x, y)}, calls + 1;
    }

    /** No other point of the lattice is in the block of this one. */
    lemma KeepsOthers(st: nat, x: nat, y: nat)
      requires st > 0 && OnLattice(st, x, y)
      ensures forall i: nat, j: nat :: OnLattice(st, i, j) && x <= i < x + st && y <= j < y + st ==> i == x && j == y
    {
      forall i: nat, j: nat | OnLattice(st, i, j) && x <= i < x + st && y <= j < y + st
        ensures i == x && j == y
      {
        OneMultiple(st, x, i);
        OneMultiple(st, y, j);
      }
    }

    method Row(st: nat, fine: bool, y: nat)
      requires st > 0 && Drawing(st, fine, 0, y) && y < h && Multiple(st, y)
      modifies img, `evaluated, `calls
      ensures Drawing(st, fine, 0, y + st)
    {
      var x := 0;
      while x < w
        invariant Drawing(st, fine, x, y) && Multiple(st, x)
      {
        Visit(st, fine, x, y);
        Skip(st, fine, x, y);
        x := x + st;
      }
      SkipRows(st, fine, x, y);
    }

    /** There is nothing to evaluate until the next point of the row. */
    lemma Skip(st: nat, fine: bool, x: nat, y: nat)
      requires st > 0 && Drawing(st, fine, x + 1, y) && Multiple(st, x)
      ensures Drawing(st, fine, x + st, y) && Multiple(st, x + st)
    {
      var here, next := x + 1, x + st;
      forall i: nat, j: nat
        ensures Reached(st, fine, next, y, i, j) <==> Reached(st, fine, here, y, i, j)
      {
        NextMultiple(st, x, i);
      }
    }

    /** Nor until the next row. */
    lemma SkipRows(st: nat, fine: bool, x: nat, y: nat)
      requires st > 0 && Drawing(st, fine, x, y) && x >= w && Multiple(st, y)
      ensures Drawing(st, fine, 0, y + st)
    {
      forall i: nat, j: nat
        ensures Reached(st, fine, 0, y + st, i, j) <==> Reached(st, fine, x, y, i, j)
      {
        NextMultiple(st, y, j);
      }
    }

    /** A pass: with a coarser one done, or as the first. */
    method Pass(st: nat, fine: bool)
      requires st > 0 && Drawing(st, fine, 0, 0)
      modifies img, `evaluated, `calls
      ensures Finished(st)
    {
      var y := 0;
      while y < h
        invariant Drawing(st, fine, 0, y) && Multiple(st, y)
      {
        Row(st, fine, y);
        NextMultiple(st, y, y);
        y := y + st;
      }
    }

    /** Every point of the lattice was evaluated and has its colour. */
    ghost predicate Finished(st: nat)
      requires st > 0
      reads this, img
    {
      && Valid()
      && (forall x: nat, y: nat :: (x, y) in evaluated <==> x < w && y < h && OnLattice(st, x, y))
      && (forall x: nat, y: nat :: (x, y) in evaluated && x < w && y < h ==> img[y, x] == point(x, y))
    }

    lemma Refine(st: nat)
      requires st > 0 && Finished(2 * st)
      ensures Drawing(st, true, 0, 0)
    {
      forall x: nat, y: nat
        ensures (x, y) in evaluated <==> Reached(st, true, 0, 0, x, y)
      {
        if OnLattice(2 * st, x, y) {
          CoarserIsFiner(st, x);
          CoarserIsFiner(st, y);
        }
      }
    }

    /** The whole picture, when no key cuts it short: every pixel has its own colour and was evaluated exactly once. */
    method Render()
      requires Valid() && evaluated == {} && calls == 0
      modifies this, img
      ensures forall x: nat, y: nat :: x < w && y < h ==> img[y, x] == point(x, y)
      ensures |evaluated| == calls && forall x: nat, y: nat :: (x, y) in evaluated <==> x < w && y < h
    {
      Pass(8, false);
      Refine(4);
      Pass(4, true);
      Refine(2);
      Pass(2, true);
      Refine(1);
      Pass(1, true);
      forall x: nat, y: nat
        ensures OnLattice(1, x, y)
      {
        MultipleIs(1, x);
        MultipleIs(1, y);
      }
    }
  }
}
