/**
Wa-Tor (apps/wator.c): fish and sharks on a torus, each with one turn a
chronon, taken in a shuffled order.
*/
module WaTor {
  import opened Basics

  datatype Kind = Water | Fish | Shark

  /** A cell: what is in it, its age, its hunger, and when it had its last turn. */
  datatype Cell = Cell(kind: Kind, age: nat, hunger: nat, moved: nat)

  type Cells = seq<Cell>

  /** Where creatures of a kind are. */
  function Population(cells: Cells, k: Kind): set<nat> {
    set c: nat | c < |cells| && cells[c].kind == k
  }

  lemma PopulationSet(cells: Cells, i: nat, cell: Cell, k: Kind)
    requires i < |cells|
    ensures Population(cells[i := cell], k)
            == if cell.kind == k then Population(cells, k) + {i} else Population(cells, k) - {i}
  {
  }

  /** How many of a kind there are. */
  function Count(cells: Cells, k: Kind): nat {
    |Population(cells, k)|
  }

  function One(b: bool): nat {
    if b then 1 else 0
  }

  lemma CountSet(cells: Cells, i: nat, cell: Cell, k: Kind)
    requires i < |cells|
    ensures Count(cells[i := cell], k) == Count(cells, k) + One(cell.kind == k) - One(cells[i].kind == k)
  {
    PopulationSet(cells, i, cell, k);
    WithAndWithout(Population(cells, k), i);
  }

  lemma WithAndWithout(s: set<nat>, i: nat)
    ensures |s + {i}| == |s| + One(i !in s)
    ensures |s - {i}| == |s| - One(i in s)
  {
    if i in s {
      assert s + {i} == s;
    } else {
      assert s - {i} == s;
    }
  }

  // ------------------------------------------------------------------
  // A chronon, with every creature told from the others
  // ------------------------------------------------------------------

  /**
  An ocean in the middle of a chronon. A creature there when the chronon began is known by
  the cell it was in, a newborn by a number past all cells; `acted` has the turns taken, in
  order, and `eaten` who was eaten.
  */
  datatype Sea = Sea(cells: Cells, ids: seq<nat>, next: nat, acted: seq<nat>, eaten: set<nat>)

  predicate Alive(cell: Cell) {
    cell.kind != Water
  }

  predicate Distinct(s: seq<nat>) {
    forall i, j :: 0 <= i < j < |s| ==> s[i] != s[j]
  }

  predicate Told(sea: Sea) {
    && |sea.ids| == |sea.cells| <= sea.next
    && (forall c :: 0 <= c < |sea.cells| && Alive(sea.cells[c]) ==> sea.ids[c] < sea.next)
    && (forall c, d :: 0 <= c < d < |sea.cells| && Alive(sea.cells[c]) && Alive(sea.cells[d]) ==> sea.ids[c] != sea.ids[d])
  }

  /** What is in a cell and bears this chronon's mark has acted or was born in it; what does not bear it is where it was. */
  predicate Marked(sea: Sea, now: nat, was: Cells, c: nat, visited: set<nat>)
    requires c < |sea.cells| == |sea.ids| == |was|
  {
    && sea.cells[c].moved <= now
    && (Alive(sea.cells[c]) ==>
          if sea.cells[c].moved == now then sea.ids[c] in sea.acted || sea.ids[c] >= |sea.cells|
          else sea.ids[c] == c && Alive(was[c]) && (c in sea.acted <==> c in visited))
  }

  /** A creature of the start has acted, or was eaten, or has its turn to come. */
  predicate Due(sea: Sea, now: nat, c: nat, visited: set<nat>)
    requires c < |sea.cells| == |sea.ids|
  {
    || c in sea.acted || c in sea.eaten
    || (c !in visited && Alive(sea.cells[c]) && sea.cells[c].moved != now && sea.ids[c] == c)
  }

  predicate Fair(sea: Sea, now: nat, was: Cells, visited: set<nat>) {
    && Told(sea) && |was| == |sea.cells|
    && (forall c :: 0 <= c < |sea.cells| ==> Marked(sea, now, was, c, visited))
    && (forall c :: 0 <= c < |sea.cells| && Alive(was[c]) ==> Due(sea, now, c, visited))
    && Distinct(sea.acted) && (forall x :: x in sea.acted ==> x < |was| && Alive(was[x]))
  }

  function Identity(n: nat): (s: seq<nat>)
    ensures |s| == n && forall c :: 0 <= c < n ==> s[c] == c
  {
    if n == 0 then [] else Identity(n - 1) + [n - 1]
  }

  /** The start of a chronon: nobody has acted. */
  lemma FairAtFirst(cells: Cells, now: nat)
    requires forall c :: 0 <= c < |cells| ==> cells[c].moved < now
    ensures Fair(Sea(cells, Identity(|cells|), |cells|, [], {}), now, cells, {})
  {
    var sea := Sea(cells, Identity(|cells|), |cells|, [], {});
    assert Told(sea);
    forall c | 0 <= c < |cells|
      ensures Marked(sea, now, cells, c, {}) && (Alive(cells[c]) ==> Due(sea, now, c, {}))
    {
    }
  }

  /** A cell with nothing due in it is passed over. */
  lemma FairSkip(sea: Sea, now: nat, was: Cells, visited: set<nat>, c: nat)
    requires Fair(sea, now, was, visited) && c < |sea.cells| && c !in visited
    requires !Alive(sea.cells[c]) || sea.cells[c].moved == now
    ensures Fair(sea, now, was, visited + {c})
  {
    forall d | 0 <= d < |sea.cells|
      ensures Marked(sea, now, was, d, visited + {c}) && (Alive(was[d]) ==> Due(sea, now, d, visited + {c}))
    {
      assert Marked(sea, now, was, d, visited);
    }
  }

  /** The creature in `c` takes its turn, older by it. */
  function TurnStarted(sea: Sea, c: nat, aged: Cell): Sea
    requires c < |sea.cells| == |sea.ids|
  {
    sea.(cells := sea.cells[c := aged], acted := sea.acted + [sea.ids[c]])
  }

  lemma FairTurn(sea: Sea, now: nat, was: Cells, visited: set<nat>, c: nat, aged: Cell)
    requires Fair(sea, now, was, visited) && c < |sea.cells| && c !in visited
    requires Alive(sea.cells[c]) && sea.cells[c].moved != now && aged.kind == sea.cells[c].kind && aged.moved == sea.cells[c].moved
    ensures c !in sea.acted && TurnStarted(sea, c, aged).acted == sea.acted + [c]
    ensures Fair(TurnStarted(sea, c, aged), now, was, visited + {c})
  {
    assert Marked(sea, now, was, c, visited);
    var sea' := TurnStarted(sea, c, aged);
    assert sea'.acted == sea.acted + [c];
    assert forall x :: x in sea'.acted <==> x in sea.acted || x == c;
    forall d | 0 <= d < |sea.cells|
      ensures Marked(sea', now, was, d, visited + {c}) && (Alive(was[d]) ==> Due(sea', now, d, visited + {c}))
    {
      assert Marked(sea, now, was, d, visited);
    }
  }

  /** What moving leaves: the mover in its new cell, and a newborn or water in the old one. */
  function MovedCells(cells: Cells, now: nat, from: nat, dest: nat, breed: nat): Cells
    requires from < |cells| && dest < |cells|
  {
    var m := cells[from];
    if m.age >= breed then cells[dest := Cell(m.kind, 0, m.hunger, now)][from := Cell(m.kind, 0, 0, now)]
    else cells[dest := m.(moved := now)][from := m.(kind := Water)]
  }

  function MovedSea(sea: Sea, now: nat, from: nat, dest: nat, breed: nat): Sea
    requires from < |sea.cells| == |sea.ids| && dest < |sea.cells|
  {
    var born := sea.cells[from].age >= breed;
    var ids := sea.ids[dest := sea.ids[from]];
    Sea(MovedCells(sea.cells, now, from, dest, breed),
        if born then ids[from := sea.next] else ids,
        if born then sea.next + 1 else sea.next,
        sea.acted,
        if Alive(sea.cells[dest]) then sea.eaten + {sea.ids[dest]} else sea.eaten)
  }

  /** A creature that has just acted moves to a cell that held water or is eaten out. */
  lemma FairMove(sea: Sea, now: nat, was: Cells, visited: set<nat>, from: nat, dest: nat, breed: nat)
    requires Fair(sea, now, was, visited) && from < |sea.cells| && dest < |sea.cells| && from != dest
    requires Alive(sea.cells[from]) && sea.ids[from] in sea.acted && from in visited
    ensures Fair(MovedSea(sea, now, from, dest, breed), now, was, visited)
  {
    var sea' := MovedSea(sea, now, from, dest, breed);
    ToldMove(sea, now, from, dest, breed);
    forall c | 0 <= c < |sea.cells|
      ensures Marked(sea', now, was, c, visited)
    {
      assert Marked(sea, now, was, c, visited);
    }
    forall c | 0 <= c < |sea.cells| && Alive(was[c])
      ensures Due(sea', now, c, visited)
    {
      assert Due(sea, now, c, visited);
    }
  }

  lemma ToldMove(sea: Sea, now: nat, from: nat, dest: nat, breed: nat)
    requires Told(sea) && from < |sea.cells| && dest < |sea.cells| && from != dest && Alive(sea.cells[from])
    ensures Told(MovedSea(sea, now, from, dest, breed))
  {
  }

  lemma FairDeath(sea: Sea, now: nat, was: Cells, visited: set<nat>, c: nat)
    requires Fair(sea, now, was, visited) && c < |sea.cells| && sea.ids[c] in sea.acted && c in visited
    ensures Fair(sea.(cells := sea.cells[c := sea.cells[c].(kind := Water)]), now, was, visited)
  {
    var sea' := sea.(cells := sea.cells[c := sea.cells[c].(kind := Water)]);
    forall d | 0 <= d < |sea.cells|
      ensures Marked(sea', now, was, d, visited) && (Alive(was[d]) ==> Due(sea', now, d, visited))
    {
      assert Marked(sea, now, was, d, visited);
    }
  }

  /** Every cell visited: each creature of the start had exactly one turn or was eaten before it, and nobody else had any. */
  ghost predicate TurnsFair(sea: Sea, was: Cells) {
    && Distinct(sea.acted)
    && (forall x :: x in sea.acted ==> x < |was| && Alive(was[x]))
    && (forall c :: 0 <= c < |was| && Alive(was[c]) ==> c in sea.acted || c in sea.eaten)
  }

  lemma FairInTheEnd(sea: Sea, now: nat, was: Cells, visited: set<nat>)
    requires Fair(sea, now, was, visited) && forall c :: 0 <= c < |was| ==> c in visited
    ensures TurnsFair(sea, was) && forall c :: 0 <= c < |sea.cells| ==> sea.cells[c].moved <= now
  {
    forall c | 0 <= c < |sea.cells|
      ensures sea.cells[c].moved <= now
    {
      assert Marked(sea, now, was, c, visited);
    }
    forall c | 0 <= c < |was| && Alive(was[c])
      ensures c in sea.acted || c in sea.eaten
    {
      assert Due(sea, now, c, visited);
    }
  }

  lemma CountMoved(cells: Cells, now: nat, from: nat, dest: nat, breed: nat, k: Kind)
    requires from < |cells| && dest < |cells| && from != dest && Alive(cells[from])
    ensures Count(MovedCells(cells, now, from, dest, breed), k) + One(cells[dest].kind == k)
            == Count(cells, k) + One(cells[from].age >= breed && cells[from].kind == k) + One(cells[from].age < breed && k == Water)
  {
    var m := cells[from];
    var there := if m.age >= breed then Cell(m.kind, 0, m.hunger, now) else m.(moved := now);
    var here := if m.age >= breed then Cell(m.kind, 0, 0, now) else m.(kind := Water);
    CountSet(cells, dest, there, k);
    CountSet(cells[dest := there], from, here, k);
  }

  // ------------------------------------------------------------------
  // The torus
  // ------------------------------------------------------------------

  /** Cell `x` of row `y`. */
  function At(gw: nat, x: nat, y: nat): nat {
    y * gw + x
  }

  function Before(x: nat, n: nat): nat
    requires n > 0
  {
    if x > 0 then x - 1 else n - 1
  }

  function After(x: nat, n: nat): nat {
    if x + 1 < n then x + 1 else 0
  }

  /** North, south, east, west. */
  function Neighbours(gw: nat, gh: nat, c: nat): seq<nat>
    requires gw > 0 && gh > 0
  {
    var x, y := c % gw, c / gw;
    [At(gw, x, Before(y, gh)), At(gw, x, After(y, gh)), At(gw, After(x, gw), y), At(gw, Before(x, gw), y)]
  }

  lemma AtWithin(gw: nat, gh: nat, x: nat, y: nat)
    requires x < gw && y < gh
    ensures At(gw, x, y) < gw * gh && At(gw, x, y) % gw == x && At(gw, x, y) / gw == y
  {
    Scaled(y + 1, gh, gw);
    Divided(At(gw, x, y), gw, y, x);
  }

  lemma RowWithin(gw: nat, gh: nat, c: nat)
    requires gw > 0 && c < gw * gh
    ensures c / gw < gh && c % gw < gw
  {
    assert c / gw * gw <= c;
    if c / gw >= gh {
      Scaled(gh, c / gw, gw);
    }
  }

  /** North and south are a row away, east and west a column, round the edges. */
  lemma NeighboursAre(gw: nat, gh: nat, x: nat, y: nat)
    requires x < gw && y < gh
    ensures Neighbours(gw, gh, y * gw + x)
            == [(y + gh - 1) % gh * gw + x, (y + 1) % gh * gw + x, y * gw + (x + 1) % gw, y * gw + (x + gw - 1) % gw]
  {
    AtWithin(gw, gh, x, y);
    NextRound(x, gw);
    NextRound(y, gh);
  }

  lemma NextRound(x: nat, n: nat)
    requires x < n
    ensures After(x, n) == (x + 1) % n && Before(x, n) == (x + n - 1) % n
  {
    if x > 0 {
      Divided(x + n - 1, n, 1, x - 1);
    }
    if x + 1 == n {
      Divided(x + 1, n, 1, 0);
    }
  }

  lemma NeighboursWithin(gw: nat, gh: nat, c: nat)
    requires gw > 0 && gh > 0 && c < gw * gh
    ensures forall i :: 0 <= i < 4 ==> Neighbours(gw, gh, c)[i] < gw * gh
  {
    var x, y := c % gw, c / gw;
    RowWithin(gw, gh, c);
    AtWithin(gw, gh, x, Before(y, gh));
    AtWithin(gw, gh, x, After(y, gh));
    AtWithin(gw, gh, After(x, gw), y);
    AtWithin(gw, gh, Before(x, gw), y);
  }

  /** The world is a torus: what is north of a cell has the cell to its south, and so on round every edge. */
  lemma NeighboursMutual(gw: nat, gh: nat, c: nat)
    requires gw > 0 && gh > 0 && c < gw * gh
    ensures var n := Neighbours(gw, gh, c);
            && Neighbours(gw, gh, n[0])[1] == c && Neighbours(gw, gh, n[1])[0] == c
            && Neighbours(gw, gh, n[2])[3] == c && Neighbours(gw, gh, n[3])[2] == c
  {
    var x, y := c % gw, c / gw;
    RowWithin(gw, gh, c);
    assert c == At(gw, x, y);
    AtWithin(gw, gh, x, Before(y, gh));
    AtWithin(gw, gh, x, After(y, gh));
    AtWithin(gw, gh, After(x, gw), y);
    AtWithin(gw, gh, Before(x, gw), y);
  }

  // ------------------------------------------------------------------
  // Orders
  // ------------------------------------------------------------------

  /** Every cell once. */
  ghost predicate Order(order: seq<nat>, n: nat) {
    && |order| == n && Distinct(order) && (forall i :: 0 <= i < n ==> order[i] < n)
    && (forall c: nat :: c < n ==> c in order)
  }

  lemma OrderSwapped(order: seq<nat>, n: nat, i: nat, j: nat)
    requires Order(order, n) && i < n && j < n
    ensures Order(order[i := order[j]][j := order[i]], n)
  {
    var r := order[i := order[j]][j := order[i]];
    forall c: nat | c < n
      ensures c in r
    {
      assert c in order;
      var k :| 0 <= k < |order| && order[k] == c;
      assert r[if k == i then j else if k == j then i else k] == c;
    }
  }

  // ------------------------------------------------------------------
  // The program
  // ------------------------------------------------------------------

  function Older(x: nat): nat {
    if x < 255 then x + 1 else x
  }

  ghost predicate Near(gw: nat, gh: nat, cells: Cells, c: nat, d: nat, k: Kind)
    requires gw > 0 && gh > 0
  {
    d in Neighbours(gw, gh, c) && d < |cells| && cells[d].kind == k
  }

  /** The creature in `c` goes to a side where there is water, and stays when there is none. */
  ghost predicate Wanders(gw: nat, gh: nat, cells: Cells, c: nat, breed: nat, now: nat, cells': Cells)
    requires gw > 0 && gh > 0 && c < |cells|
  {
    || (cells' == cells && forall d :: !Near(gw, gh, cells, c, d, Water))
    || exists d :: Near(gw, gh, cells, c, d, Water) && cells' == MovedCells(cells, now, c, d, breed)
  }

  /** The shark in `c` eats a fish from some side; without one it starves when it is time, or wanders. */
  ghost predicate Hunts(gw: nat, gh: nat, cells: Cells, c: nat, breed: nat, starve: nat, now: nat, cells': Cells)
    requires gw > 0 && gh > 0 && c < |cells|
  {
    if exists d :: Near(gw, gh, cells, c, d, Fish) then
      exists d :: Near(gw, gh, cells, c, d, Fish)
                  && cells' == MovedCells(cells[c := cells[c].(hunger := 0)], now, c, d, breed)
    else if cells[c].hunger >= starve then cells' == cells[c := cells[c].(kind := Water)]
    else Wanders(gw, gh, cells, c, breed, now, cells')
  }

  // ------------------------------------------------------------------
  // What a chronon makes of a creature
  // ------------------------------------------------------------------

  /** The ages fish and sharks breed at, and the hunger sharks starve at. */
  datatype Rules = Rules(fishBreed: nat, sharkBreed: nat, starve: nat)

  predicate Positive(r: Rules) {
    r.fishBreed > 0 && r.sharkBreed > 0 && r.starve > 0
  }

  function BreedsAt(r: Rules, k: Kind): nat {
    if k == Fish then r.fishBreed else r.sharkBreed
  }

  /** Nobody is old enough to breed who has moved, and no shark is hungry enough to starve. */
  predicate Spared(r: Rules, cell: Cell, now: nat) {
    (cell.moved == now ==> cell.age < BreedsAt(r, cell.kind)) && (cell.kind == Shark ==> cell.hunger < r.starve)
  }

  /** `cell` is the creature `start` a turn later, where it was: a chronon older and, a shark, hungrier, up to 255. */
  predicate Stayed(cell: Cell, start: Cell) {
    && cell.kind == start.kind && cell.moved == start.moved
    && cell.age == (if start.age < 255 then start.age + 1 else start.age)
    && cell.hunger == (if start.kind == Shark && start.hunger < 255 then start.hunger + 1 else start.hunger)
  }

  /** The cell `c` of a chronon under way that began as `was`. */
  predicate Settled(r: Rules, cells: Cells, now: nat, was: Cells, visited: set<nat>, c: nat)
    requires c < |cells| == |was|
  {
    Alive(cells[c]) ==>
      && (cells[c].moved == now || c in visited ==> Spared(r, cells[c], now))
      && (cells[c].moved != now ==> if c in visited then Stayed(cells[c], was[c]) else cells[c] == was[c])
  }

  predicate AllSettled(r: Rules, cells: Cells, now: nat, was: Cells, visited: set<nat>) {
    |cells| == |was| && forall c :: 0 <= c < |cells| ==> Settled(r, cells, now, was, visited, c)
  }

  /** The creature whose turn it is, a chronon older and, a shark, hungrier. */
  function Aged(cell: Cell): Cell {
    if cell.kind == Shark then cell.(age := Older(cell.age), hunger := Older(cell.hunger)) else cell.(age := Older(cell.age))
  }

  predicate Pending(r: Rules, cells: Cells, now: nat, was: Cells, visited: set<nat>, c: nat) {
    AllSettled(r, cells, now, was, visited) && c < |cells| && c !in visited && Alive(cells[c]) && cells[c].moved != now
  }

  lemma WanderSettles(r: Rules, gw: nat, gh: nat, cells: Cells, now: nat, was: Cells, visited: set<nat>, c: nat, cells': Cells)
    requires gw > 0 && gh > 0 && Positive(r) && Pending(r, cells, now, was, visited, c)
    requires cells[c].kind == Shark ==> Aged(cells[c]).hunger < r.starve
    requires Wanders(gw, gh, cells[c := Aged(cells[c])], c, BreedsAt(r, cells[c].kind), now, cells')
    ensures AllSettled(r, cells', now, was, visited + {c})
  {
    forall d | 0 <= d < |cells|
      ensures Settled(r, cells', now, was, visited + {c}, d)
    {
      assert Settled(r, cells, now, was, visited, d) && Settled(r, cells, now, was, visited, c);
    }
  }

  /** After a chronon: who has moved is too young to breed, who has not is a chronon older, and no shark is starving. */
  predicate Grown(r: Rules, cells: Cells, now: nat, was: Cells) {
    && |cells| == |was|
    && forall c :: 0 <= c < |cells| && Alive(cells[c]) ==> Spared(r, cells[c], now) && (cells[c].moved != now ==> Stayed(cells[c], was[c]))
  }

  lemma SettledInTheEnd(r: Rules, cells: Cells, now: nat, was: Cells, visited: set<nat>)
    requires AllSettled(r, cells, now, was, visited) && forall c :: 0 <= c < |was| ==> c in visited
    ensures Grown(r, cells, now, was)
  {
    forall c | 0 <= c < |cells| && Alive(cells[c])
      ensures Spared(r, cells[c], now) && (cells[c].moved != now ==> Stayed(cells[c], was[c]))
    {
      assert Settled(r, cells, now, was, visited, c);
    }
  }

  lemma SkipSettles(r: Rules, cells: Cells, now: nat, was: Cells, visited: set<nat>, c: nat)
    requires AllSettled(r, cells, now, was, visited) && c < |cells| && (!Alive(cells[c]) || cells[c].moved == now)
    ensures AllSettled(r, cells, now, was, visited + {c})
  {
    forall d | 0 <= d < |cells|
      ensures Settled(r, cells, now, was, visited + {c}, d)
    {
      assert Settled(r, cells, now, was, visited, d);
    }
  }

  lemma HuntSettles(r: Rules, gw: nat, gh: nat, cells: Cells, now: nat, was: Cells, visited: set<nat>, c: nat, cells': Cells)
    requires gw > 0 && gh > 0 && Positive(r) && Pending(r, cells, now, was, visited, c) && cells[c].kind == Shark
    requires Hunts(gw, gh, cells[c := Aged(cells[c])], c, r.sharkBreed, r.starve, now, cells')
    ensures AllSettled(r, cells', now, was, visited + {c})
  {
    var before := cells[c := Aged(cells[c])];
    if (forall d :: !Near(gw, gh, before, c, d, Fish)) && before[c].hunger < r.starve {
      WanderSettles(r, gw, gh, cells, now, was, visited, c, cells');
    } else {
      forall d | 0 <= d < |cells|
        ensures Settled(r, cells', now, was, visited + {c}, d)
      {
        assert Settled(r, cells, now, was, visited, d) && Settled(r, cells, now, was, visited, c);
      }
    }
  }

  /** A shark's turn: a fish less if and only if one is beside it, a shark less if and only if none is and it is its time to starve. */
  lemma HuntCounts(gw: nat, gh: nat, cells: Cells, c: nat, breed: nat, starve: nat, now: nat, cells': Cells)
    requires gw > 0 && gh > 0 && c < |cells| && cells[c].kind == Shark && starve <= 255
    requires Hunts(gw, gh, cells[c := Aged(cells[c])], c, breed, starve, now, cells')
    ensures var fed := exists d :: Near(gw, gh, cells, c, d, Fish);
            && Count(cells', Fish) == Count(cells, Fish) - One(fed)
            && (Count(cells', Shark) < Count(cells, Shark) <==> !fed && cells[c].hunger + 1 >= starve)
  {
    var before := cells[c := Aged(cells[c])];
    CountSet(cells, c, Aged(cells[c]), Fish);
    CountSet(cells, c, Aged(cells[c]), Shark);
    assert forall d, k :: Near(gw, gh, before, c, d, k) <==> Near(gw, gh, cells, c, d, k);
    if exists d :: Near(gw, gh, before, c, d, Fish) {
      var d :| Near(gw, gh, before, c, d, Fish) && cells' == MovedCells(before[c := before[c].(hunger := 0)], now, c, d, breed);
      CountSet(before, c, before[c].(hunger := 0), Fish);
      CountSet(before, c, before[c].(hunger := 0), Shark);
      CountMoved(before[c := before[c].(hunger := 0)], now, c, d, breed, Fish);
      CountMoved(before[c := before[c].(hunger := 0)], now, c, d, breed, Shark);
    } else if before[c].hunger >= starve {
      CountSet(before, c, before[c].(kind := Water), Fish);
      CountSet(before, c, before[c].(kind := Water), Shark);
    } else {
      WanderCounts(gw, gh, before, c, breed, now, cells');
    }
  }

  lemma WanderCounts(gw: nat, gh: nat, cells: Cells, c: nat, breed: nat, now: nat, cells': Cells)
    requires gw > 0 && gh > 0 && c < |cells| && Alive(cells[c]) && Wanders(gw, gh, cells, c, breed, now, cells')
    ensures forall k :: k != Water ==> Count(cells', k) == Count(cells, k) + One(k == cells[c].kind && cells' != cells && cells[c].age >= breed)
  {
    if cells' != cells {
      var d :| Near(gw, gh, cells, c, d, Water) && cells' == MovedCells(cells, now, c, d, breed);
      forall k | k != Water
        ensures Count(cells', k) == Count(cells, k) + One(k == cells[c].kind && cells[c].age >= breed)
      {
        CountMoved(cells, now, c, d, breed, k);
      }
    }
  }

  /**
  A move, by the creature: it is the same where it goes, but for the age of one that
  breeds; what it leaves is water, or a newborn of its kind. Nothing else changes.
  */
  lemma MoveKeeps(cells: Cells, now: nat, from: nat, dest: nat, breed: nat)
    requires from < |cells| && dest < |cells| && from != dest && Alive(cells[from])
    ensures var cells', m := MovedCells(cells, now, from, dest, breed), cells[from];
            && |cells'| == |cells| && (forall c :: 0 <= c < |cells| && c != from && c != dest ==> cells'[c] == cells[c])
            && cells'[dest].kind == m.kind && cells'[dest].hunger == m.hunger && cells'[dest].moved == now
            && (cells'[dest].age == m.age || (m.age >= breed && cells'[dest].age == 0))
            && (if Alive(cells'[from]) then m.age >= breed && cells'[from] == Cell(m.kind, 0, 0, now) && cells'[dest].age == 0
                else m.age < breed && cells'[dest].age == m.age)
  {
  }

  /** `gfx_rand` as the numbers it will answer, in order. */
  type Numbers = nat -> nat

  class Ocean {
    const gw: nat
    const gh: nat
    const fishBreed: nat
    const sharkBreed: nat
    const starve: nat
    const rand: Numbers
    const cells: array<Cell>
    const order: array<nat>
    var drawn: nat
    var chronon: nat
    var nfish: int
    var nsharks: int
    ghost var sea: Sea

    ghost predicate Shape()
      reads this
    {
      gw > 0 && gh > 0 && cells.Length == order.Length == gw * gh && Positive(Given())
    }

    function Given(): Rules {
      Rules(fishBreed, sharkBreed, starve)
    }

    /** The counters tell what is in the grid. */
    ghost predicate Counted()
      reads this, cells
    {
      nfish == Count(cells[..], Fish) && nsharks == Count(cells[..], Shark)
    }

    ghost predicate Valid()
      reads this, cells, order
    {
      && Shape() && Counted() && Order(order[..], gw * gh)
      && forall c :: 0 <= c < cells.Length ==> cells[c].moved <= chronon
    }

    /** In the middle of a chronon. */
    ghost predicate Running(was: Cells, visited: set<nat>)
      reads this, cells
    {
      Shape() && Counted() && sea.cells == cells[..] && Fair(sea, chronon, was, visited)
    }

    constructor (gw: nat, gh: nat, fishBreed: nat, sharkBreed: nat, starve: nat, rand: Numbers)
      requires gw > 0 && gh > 0 && fishBreed > 0 && sharkBreed > 0 && starve > 0
      ensures Shape() && fresh(cells) && fresh(order)
      ensures this.gw == gw && this.gh == gh && this.rand == rand
      ensures this.fishBreed == fishBreed && this.sharkBreed == sharkBreed && this.starve == starve
    {
      this.gw, this.gh, this.rand := gw, gh, rand;
      this.fishBreed, this.sharkBreed, this.starve := fishBreed, sharkBreed, starve;
      cells := new Cell[gw * gh](_ => Cell(Water, 0, 0, 0));
      order := new nat[gw * gh](_ => 0);
      drawn, chronon, nfish, nsharks := 0, 0, 0, 0;
      sea := Sea([], [], 0, [], {});
    }

    /** Exactly the asked-for numbers, wherever a shuffle puts them. */
    method Stock(fish: nat, sharks: nat)
      requires Shape() && fish + sharks <= 100 && fishBreed > 0 && sharkBreed > 0 && starve > 0
      modifies this, cells, order
      ensures Valid() && nfish == Share(gw * gh, fish) && nsharks == Share(gw * gh, sharks) && chronon == 0
    {
      var n := cells.Length;
      var f, s := Share(n, fish), Share(n, sharks);
      SharesFit(n, fish, sharks);
      Unshuffle();
      Shuffle();
      Deal(f, s);
      nfish, nsharks, chronon := f, s, 0;
    }

    method Unshuffle()
      requires Shape()
      modifies order
      ensures Order(order[..], gw * gh)
    {
      for i := 0 to order.Length
        invariant forall j :: 0 <= j < i ==> order[j] == j
      {
        order[i] := i;
      }
      assert order[..] == Identity(gw * gh);
      IdentityIsOrder(gw * gh);
    }

    method Deal(f: nat, s: nat)
      requires Shape() && Order(order[..], gw * gh) && fishBreed > 0 && sharkBreed > 0 && starve > 0
      modifies cells, `drawn
      ensures f + s <= cells.Length ==> Count(cells[..], Fish) == f && Count(cells[..], Shark) == s
      ensures forall c :: 0 <= c < cells.Length ==> cells[c].moved == 0
    {
      assert forall j :: 0 <= j < order.Length ==> order[j] == order[..][j];
      for i := 0 to order.Length
        invariant forall j :: 0 <= j < i ==> cells[order[j]].kind == Stocked(j, f, s) && cells[order[j]].moved == 0
      {
        var c, k, age, hunger := order[i], Stocked(i, f, s), 0, 0;
        if k == Fish {
          age := Draw();
          age := age % fishBreed;
        } else if k == Shark {
          age := Draw();
          age := age % sharkBreed;
          hunger := Draw();
          hunger := hunger % starve;
        }
        assert forall j :: 0 <= j < i ==> order[..][j] != order[..][i];
        cells[c] := Cell(k, age, hunger, 0);
      }
      if f + s <= cells.Length {
        StockCounts(cells[..], order[..], f, s);
      }
      forall c | 0 <= c < cells.Length
        ensures cells[c].moved == 0
      {
        assert c in order[..];
      }
    }

    method Draw() returns (r: nat)
      modifies `drawn
      ensures r == rand(old(drawn)) && drawn == old(drawn) + 1
    {
      r := rand(drawn);
      drawn := drawn + 1;
    }

    method Pick(c: nat, what: Kind) returns (d: Option<nat>)
      requires Shape() && c < cells.Length
      modifies `drawn
      ensures d.Some? ==> d.value in Neighbours(gw, gh, c) && d.value < cells.Length && cells[d.value].kind == what
      ensures d.Some? ==> Near(gw, gh, cells[..], c, d.value, what)
      ensures d.None? ==> forall n :: !Near(gw, gh, cells[..], c, n, what)
    {
      var n := Neighbours(gw, gh, c);
      NeighboursWithin(gw, gh, c);
      var hit: seq<nat> := [];
      for i := 0 to 4
        invariant forall k :: 0 <= k < |hit| ==> hit[k] in n && hit[k] < cells.Length && cells[hit[k]].kind == what
        invariant hit == [] ==> forall k :: 0 <= k < i ==> cells[n[k]].kind != what
      {
        if cells[n[i]].kind == what {
          hit := hit + [n[i]];
        }
      }
      if hit == [] {
        assert forall d :: d in n ==> exists k :: 0 <= k < 4 && n[k] == d;
        return None;
      }
      var r := Draw();
      return Some(hit[r % |hit|]);
    }

    /** The creature in `from`, which has acted, goes to `dest`, where nothing is left that is counted. */
    method MoveTo(from: nat, dest: nat, breed: nat, ghost was: Cells, ghost visited: set<nat>)
      requires Shape() && from < cells.Length && dest < cells.Length && from != dest && Alive(cells[from])
      requires sea.cells == cells[..] && Fair(sea, chronon, was, visited) && sea.ids[from] in sea.acted && from in visited
      requires nfish + One(cells[dest].kind == Fish) == Count(cells[..], Fish)
      requires nsharks + One(cells[dest].kind == Shark) == Count(cells[..], Shark)
      modifies cells, `nfish, `nsharks, `sea
      ensures Running(was, visited) && cells[..] == MovedCells(old(cells[..]), chronon, from, dest, breed)
    {
      CountMoved(cells[..], chronon, from, dest, breed, Fish);
      CountMoved(cells[..], chronon, from, dest, breed, Shark);
      FairMove(sea, chronon, was, visited, from, dest, breed);
      sea := MovedSea(sea, chronon, from, dest, breed);
      Place(from, dest, breed);
    }

    /** The cells and counters of a move. */
    method Place(from: nat, dest: nat, breed: nat)
      requires Shape() && from < cells.Length && dest < cells.Length && from != dest && Alive(cells[from])
      modifies cells, `nfish, `nsharks
      ensures cells[..] == MovedCells(old(cells[..]), chronon, from, dest, breed)
      ensures var k, more := old(cells[from]).kind, One(old(cells[from]).age >= breed);
              && nfish == old(nfish) + (if k == Fish then more else 0)
              && nsharks == old(nsharks) + (if k == Fish then 0 else more)
    {
      var k := cells[from].kind;
      ghost var before := cells[..];
      cells[dest] := cells[from].(moved := chronon);
      if cells[dest].age >= breed {
        cells[dest] := cells[dest].(age := 0);
        cells[from] := Cell(k, 0, 0, chronon);
        if k == Fish {
          nfish := nfish + 1;
        } else {
          nsharks := nsharks + 1;
        }
      } else {
        cells[from] := cells[from].(kind := Water);
      }
      assert cells[..] == MovedCells(before, chronon, from, dest, breed);
    }

    /** The turn of the creature in `c` begins: it is older, and hungrier. */
    method Begin(c: nat, aged: Cell, ghost was: Cells, ghost visited: set<nat>)
      requires Running(was, visited) && c < cells.Length && c !in visited
      requires Alive(cells[c]) && cells[c].moved != chronon && aged.kind == cells[c].kind && aged.moved == cells[c].moved
      modifies cells, `sea
      ensures Running(was, visited + {c}) && cells[..] == old(cells[..])[c := aged]
      ensures sea.ids[c] in sea.acted
    {
      FairTurn(sea, chronon, was, visited, c, aged);
      CountSet(cells[..], c, aged, Fish);
      CountSet(cells[..], c, aged, Shark);
      sea := TurnStarted(sea, c, aged);
      cells[c] := aged;
      assert sea.acted[|sea.acted| - 1] == sea.ids[c];
    }

    method FishTurn(c: nat, ghost was: Cells, ghost visited: set<nat>)
      requires Running(was, visited) && c < cells.Length && c !in visited
      requires cells[c].kind == Fish && cells[c].moved != chronon
      modifies cells, `nfish, `nsharks, `sea, `drawn
      ensures Running(was, visited + {c})
      ensures Wanders(gw, gh, old(cells[..])[c := old(cells[c]).(age := Older(old(cells[c].age)))], c, fishBreed, chronon, cells[..])
    {
      Begin(c, cells[c].(age := Older(cells[c].age)), was, visited);
      var d := Pick(c, Water);
      if d.Some? {
        MoveTo(c, d.value, fishBreed, was, visited + {c});
      }
    }

    method SharkTurn(c: nat, ghost was: Cells, ghost visited: set<nat>)
      requires Running(was, visited) && c < cells.Length && c !in visited
      requires cells[c].kind == Shark && cells[c].moved != chronon
      modifies cells, `nfish, `nsharks, `sea, `drawn
      ensures Running(was, visited + {c})
      ensures var shark := old(cells[c]).(age := Older(old(cells[c].age)), hunger := Older(old(cells[c].hunger)));
              Hunts(gw, gh, old(cells[..])[c := shark], c, sharkBreed, starve, chronon, cells[..])
    {
      Begin(c, cells[c].(age := Older(cells[c].age), hunger := Older(cells[c].hunger)), was, visited);
      var d := Pick(c, Fish);
      if d.Some? {
        nfish := nfish - 1;
        Feed(c, was, visited + {c});
        MoveTo(c, d.value, sharkBreed, was, visited + {c});
        return;
      }
      if cells[c].hunger >= starve {
        Die(c, was, visited + {c});
        return;
      }
      d := Pick(c, Water);
      if d.Some? {
        MoveTo(c, d.value, sharkBreed, was, visited + {c});
      }
    }

    /** A shark about to eat is hungry no more. */
    method Feed(c: nat, ghost was: Cells, ghost visited: set<nat>)
      requires Shape() && c < cells.Length && sea.cells == cells[..] && Fair(sea, chronon, was, visited)
      modifies cells, `sea
      ensures cells[..] == old(cells[..])[c := old(cells[c]).(hunger := 0)] && sea == old(sea).(cells := cells[..])
      ensures Fair(sea, chronon, was, visited)
      ensures Count(cells[..], Fish) == old(Count(cells[..], Fish)) && Count(cells[..], Shark) == old(Count(cells[..], Shark))
    {
      var fed := cells[c].(hunger := 0);
      CountSet(cells[..], c, fed, Fish);
      CountSet(cells[..], c, fed, Shark);
      FairFed(sea, chronon, was, visited, c, fed);
      sea := sea.(cells := sea.cells[c := fed]);
      cells[c] := fed;
    }

    method Die(c: nat, ghost was: Cells, ghost visited: set<nat>)
      requires Running(was, visited) && c < cells.Length && cells[c].kind == Shark
      requires sea.ids[c] in sea.acted && c in visited
      modifies cells, `sea, `nsharks
      ensures Running(was, visited) && cells[..] == old(cells[..])[c := old(cells[c]).(kind := Water)]
    {
      var dead := cells[c].(kind := Water);
      CountSet(cells[..], c, dead, Fish);
      CountSet(cells[..], c, dead, Shark);
      FairDeath(sea, chronon, was, visited, c);
      sea := sea.(cells := sea.cells[c := dead]);
      cells[c] := dead;
      nsharks := nsharks - 1;
    }

    method Shuffle()
      requires Shape() && Order(order[..], gw * gh)
      modifies order, `drawn
      ensures Order(order[..], gw * gh)
    {
      var i := order.Length - 1;
      while i > 0
        invariant i < order.Length && Order(order[..], gw * gh)
      {
        var r := Draw();
        var j := r % (i + 1);
        OrderSwapped(order[..], gw * gh, i, j);
        ghost var before := order[..];
        order[i], order[j] := order[j], order[i];
        assert order[..] == before[i := before[j]][j := before[i]];
        i := i - 1;
      }
    }

    /** One chronon. */
    method Step()
      requires Valid()
      modifies this, cells, order
      ensures Valid() && chronon == old(chronon) + 1
      ensures TurnsFair(sea, old(cells[..])) && sea.cells == cells[..]
      ensures Grown(Given(), cells[..], chronon, old(cells[..]))
    {
      chronon := chronon + 1;
      Shuffle();
      ghost var was := cells[..];
      FairAtFirst(was, chronon);
      sea := Sea(was, Identity(|was|), |was|, [], {});
      ghost var visited := TakeTurns(was);
      FairInTheEnd(sea, chronon, was, visited);
      SettledInTheEnd(Given(), cells[..], chronon, was, visited);
    }

    method TakeTurns(ghost was: Cells) returns (ghost visited: set<nat>)
      requires Running(was, {}) && Order(order[..], gw * gh) && cells[..] == was
      requires forall c :: 0 <= c < cells.Length ==> cells[c].moved < chronon
      modifies cells, `nfish, `nsharks, `sea, `drawn
      ensures Running(was, visited) && forall c :: 0 <= c < cells.Length ==> c in visited
      ensures AllSettled(Given(), cells[..], chronon, was, visited)
    {
      visited := {};
      for i := 0 to order.Length
        invariant Running(was, visited) && visited == set j | 0 <= j < i :: order[j]
        invariant AllSettled(Given(), cells[..], chronon, was, visited)
      {
        assert order[i] == order[..][i];
        assert order[i] !in visited by {
          Unvisited(order[..], i);
        }
        Visit(order[i], was, visited);
        visited := visited + {order[i]};
      }
      forall c | 0 <= c < cells.Length
        ensures c in visited
      {
        assert c in order[..];
      }
    }

    method Visit(c: nat, ghost was: Cells, ghost visited: set<nat>)
      requires Running(was, visited) && c < cells.Length && c !in visited && AllSettled(Given(), cells[..], chronon, was, visited)
      modifies cells, `nfish, `nsharks, `sea, `drawn
      ensures Running(was, visited + {c}) && AllSettled(Given(), cells[..], chronon, was, visited + {c})
    {
      ghost var before := cells[..];
      if cells[c].moved == chronon || cells[c].kind == Water {
        FairSkip(sea, chronon, was, visited, c);
        SkipSettles(Given(), before, chronon, was, visited, c);
      } else if cells[c].kind == Fish {
        FishTurn(c, was, visited);
        WanderSettles(Given(), gw, gh, before, chronon, was, visited, c, cells[..]);
      } else {
        SharkTurn(c, was, visited);
        HuntSettles(Given(), gw, gh, before, chronon, was, visited, c, cells[..]);
      }
    }
  }

  lemma Unvisited(order: seq<nat>, i: nat)
    requires Distinct(order) && i < |order|
    ensures order[i] !in set j | 0 <= j < i :: order[j]
  {
  }

  lemma {:induction false} SetOfDistinct(order: seq<nat>, a: nat, b: nat)
    requires Distinct(order) && a <= b <= |order|
    ensures |set j | a <= j < b :: order[j]| == b - a
    decreases b - a
  {
    if a < b {
      var s := set j | a <= j < b - 1 :: order[j];
      SetOfDistinct(order, a, b - 1);
      assert order[b - 1] !in s;
      assert (set j | a <= j < b :: order[j]) == s + {order[b - 1]};
    }
  }

  function Stocked(i: nat, f: nat, s: nat): Kind {
    if i < f then Fish else if i < f + s then Shark else Water
  }

  /** Kinds dealt out in order come to the numbers asked for. */
  lemma StockCounts(cells: Cells, order: seq<nat>, f: nat, s: nat)
    requires Order(order, |cells|) && f + s <= |cells|
    requires forall j :: 0 <= j < |order| ==> cells[order[j]].kind == Stocked(j, f, s)
    ensures Count(cells, Fish) == f && Count(cells, Shark) == s
  {
    SetOfDistinct(order, 0, f);
    SetOfDistinct(order, f, f + s);
    PopulationDealt(cells, order, Fish, 0, f);
    PopulationDealt(cells, order, Shark, f, f + s);
  }

  lemma PopulationDealt(cells: Cells, order: seq<nat>, k: Kind, a: nat, b: nat)
    requires Order(order, |cells|) && a <= b <= |order|
    requires forall j :: 0 <= j < |order| ==> (cells[order[j]].kind == k <==> a <= j < b)
    ensures Population(cells, k) == set j | a <= j < b :: order[j]
  {
    forall c | c in Population(cells, k)
      ensures c in set j | a <= j < b :: order[j]
    {
      assert c in order;
      var j :| 0 <= j < |order| && order[j] == c;
    }
  }

  lemma IdentityIsOrder(n: nat)
    ensures Order(Identity(n), n)
  {
    forall c: nat | c < n
      ensures c in Identity(n)
    {
      assert Identity(n)[c] == c;
    }
  }

  /** A share of the ocean, in per cent. */
  function Share(n: nat, percent: nat): nat {
    n * percent / 100
  }

  lemma SharesFit(n: nat, a: nat, b: nat)
    requires a + b <= 100
    ensures Share(n, a) + Share(n, b) <= n
  {
    Scaled(a + b, 100, n);
    assert (a + b) * n == n * a + n * b;
  }

  lemma FairFed(sea: Sea, now: nat, was: Cells, visited: set<nat>, c: nat, fed: Cell)
    requires Fair(sea, now, was, visited) && c < |sea.cells|
    requires fed.kind == sea.cells[c].kind && fed.moved == sea.cells[c].moved
    ensures Fair(sea.(cells := sea.cells[c := fed]), now, was, visited)
  {
    var sea' := sea.(cells := sea.cells[c := fed]);
    forall d | 0 <= d < |sea.cells|
      ensures Marked(sea', now, was, d, visited) && (Alive(was[d]) ==> Due(sea', now, d, visited))
    {
      assert Marked(sea, now, was, d, visited);
    }
  }
}
