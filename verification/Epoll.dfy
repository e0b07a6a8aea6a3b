/**
Epoll sets: descriptors to watch, sets nested in sets, and the scan that
reports what is ready (kernel/events.c).
*/
module Epoll {
  import opened Basics

  const EPOLL_MAX: nat := 16
  const EPOLL_ITEMS: nat := 64

  const POLLIN: bv32 := 0x0001
  const POLLOUT: bv32 := 0x0004
  const EPOLLERR: bv32 := 0x0008
  const EPOLLHUP: bv32 := 0x0010
  const EPOLLRDNORM: bv32 := 0x0040
  const EPOLLWRNORM: bv32 := 0x0100
  const EPOLLEXCLUSIVE: bv32 := 0x1000_0000
  const EPOLLONESHOT: bv32 := 0x4000_0000
  const EPOLLET: bv32 := 0x8000_0000

  const O_CLOEXEC: bv32 := 0x80000

  const EPERM := 1
  const ENOENT := 2
  const EBADF := 9
  const EFAULT := 14
  const EEXIST := 17
  const EINVAL := 22
  const ENFILE := 23
  const ENOSPC := 28
  const ELOOP := 40

  const CTL_ADD := 1
  const CTL_DEL := 2
  const CTL_MOD := 3

  // ------------------------------------------------------------------
  // Graphs
  // ------------------------------------------------------------------

  type Graph = set<(nat, nat)>

  ghost predicate Path(g: Graph, p: seq<nat>) {
    p != [] && forall k :: 0 <= k < |p| - 1 ==> (p[k], p[k + 1]) in g
  }

  ghost predicate Joins(g: Graph, p: seq<nat>, x: nat, y: nat) {
    Path(g, p) && p[0] == x && p[|p| - 1] == y
  }

  ghost predicate Connected(g: Graph, x: nat, y: nat) {
    exists p :: Joins(g, p, x, y)
  }

  /** No path comes back to where it started. */
  ghost predicate Acyclic(g: Graph) {
    forall p :: Path(g, p) && |p| >= 2 ==> p[0] != p[|p| - 1]
  }

  lemma AcyclicSubset(g: Graph, h: Graph)
    requires Acyclic(g) && h <= g
    ensures Acyclic(h)
  {
    forall p | Path(h, p) && |p| >= 2
      ensures p[0] != p[|p| - 1]
    {
      assert Path(g, p);
    }
  }

  lemma JoinPaths(g: Graph, p: seq<nat>, q: seq<nat>)
    requires Path(g, p) && Path(g, q) && p[|p| - 1] == q[0]
    ensures Joins(g, p + q[1..], p[0], q[|q| - 1])
  {
    var r := p + q[1..];
    forall k | 0 <= k < |r| - 1
      ensures (r[k], r[k + 1]) in g
    {
      if k >= |p| - 1 {
        assert r[k] == q[k - (|p| - 1)] && r[k + 1] == q[k + 1 - (|p| - 1)];
      }
    }
  }

  /** A path through a graph with one more link either does without it or takes it. */
  lemma {:induction false} ThroughNewLink(g: Graph, a: nat, b: nat, p: seq<nat>)
    requires Path(g + {(a, b)}, p)
    ensures Path(g, p) || (Connected(g, p[0], a) && Connected(g, b, p[|p| - 1]))
    decreases |p|
  {
    if |p| > 1 && !Path(g, p) {
      var q, last := p[..|p| - 1], p[|p| - 1];
      assert forall k :: 0 <= k < |q| - 1 ==> (q[k], q[k + 1]) == (p[k], p[k + 1]);
      ThroughNewLink(g, a, b, q);
      var from := q[|q| - 1];
      assert (from, last) == (p[|p| - 2], p[|p| - 1]);
      if Path(g, q) {
        assert (from, last) == (a, b) by {
          if (from, last) in g {
            assert forall k :: 0 <= k < |p| - 1 && k < |q| - 1 ==> (p[k], p[k + 1]) == (q[k], q[k + 1]);
            assert Path(g, p);
          }
        }
        assert Joins(g, q, p[0], a);
        assert Joins(g, [b], b, b);
      } else if (from, last) == (a, b) {
        assert Joins(g, [b], b, b);
      } else {
        var r :| Joins(g, r, b, from);
        JoinPaths(g, r, [from, last]);
      }
    }
  }

  /** A link from `a` to `b` closes no loop when `b` does not lead to `a`. */
  lemma AcyclicWithLink(g: Graph, a: nat, b: nat)
    requires Acyclic(g) && !Connected(g, b, a)
    ensures Acyclic(g + {(a, b)})
  {
    forall p | Path(g + {(a, b)}, p) && |p| >= 2
      ensures p[0] != p[|p| - 1]
    {
      ThroughNewLink(g, a, b, p);
      if !Path(g, p) && p[0] == p[|p| - 1] {
        var q :| Joins(g, q, b, p[0]);
        var r :| Joins(g, r, p[0], a);
        JoinPaths(g, q, r);
        assert false;
      }
    }
  }

  /** What the depth-bounded search answers, with `k` levels left to it. */
  ghost predicate Found(g: Graph, x: nat, target: nat, k: nat)
    decreases k
  {
    x == target || k == 0 || exists y :: (x, y) in g && Found(g, y, target, k - 1)
  }

  /** A path that makes the search say yes: to the target, or as long as the search is deep. */
  ghost predicate Tells(g: Graph, p: seq<nat>, x: nat, target: nat, k: nat) {
    Path(g, p) && p[0] == x && |p| <= k + 1 && (p[|p| - 1] == target || |p| == k + 1)
  }

  /** The search says yes exactly when the target is near enough or something is too far down. */
  lemma {:induction false} FoundExactly(g: Graph, x: nat, target: nat, k: nat)
    ensures Found(g, x, target, k) <==> exists p :: Tells(g, p, x, target, k)
    decreases k
  {
    if x == target || k == 0 {
      assert Tells(g, [x], x, target, k);
    } else {
      if Found(g, x, target, k) {
        var y :| (x, y) in g && Found(g, y, target, k - 1);
        FoundExactly(g, y, target, k - 1);
        var p :| Tells(g, p, y, target, k - 1);
        JoinPaths(g, [x, y], p);
        assert Tells(g, [x, y] + p[1..], x, target, k);
      }
      if p :| Tells(g, p, x, target, k) {
        TellsNext(g, p, x, target, k);
        FoundExactly(g, p[1], target, k - 1);
      }
    }
  }

  lemma TellsNext(g: Graph, p: seq<nat>, x: nat, target: nat, k: nat)
    requires Tells(g, p, x, target, k) && x != target && k > 0
    ensures |p| > 1 && (x, p[1]) in g && Tells(g, p[1..], p[1], target, k - 1)
  {
    var q := p[1..];
    assert forall i :: 0 <= i < |q| - 1 ==> (q[i], q[i + 1]) == (p[i + 1], p[i + 2]);
  }

  /** Cutting the search off cannot hide a path to the target. */
  lemma {:induction false} NotFoundNotConnected(g: Graph, x: nat, target: nat, k: nat, p: seq<nat>)
    requires !Found(g, x, target, k)
    ensures !Joins(g, p, x, target)
    decreases |p|
  {
    if Joins(g, p, x, target) {
      assert (p[0], p[1]) in g;
      var q := p[1..];
      assert forall i :: 0 <= i < |q| - 1 ==> (q[i], q[i + 1]) == (p[i + 1], p[i + 2]);
      NotFoundNotConnected(g, p[1], target, k - 1, q);
      assert false;
    }
  }

  // ------------------------------------------------------------------
  // The tables
  // ------------------------------------------------------------------

  /** What a file is to epoll: a regular file or directory, another epoll set, or anything else. */
  datatype Kind = Regular | Other | Nest(e: nat)

  datatype Item = Item(used: bool, fd: int, file: nat, events: bv32, data: int, last: bv32, disabled: bool)

  datatype Set = Set(used: bool, rotor: nat, items: seq<Item>)

  /** Every epoll set, and the open files by identity. */
  datatype World = World(epolls: seq<Set>, files: map<nat, Kind>)

  datatype Event = Event(events: bv32, data: int)

  const NO_ITEM := Item(false, 0, 0, 0, 0, 0, false)

  function Cleared(used: bool): Set {
    Set(used, 0, seq(EPOLL_ITEMS, _ => NO_ITEM))
  }

  predicate SetFits(s: Set) {
    |s.items| == EPOLL_ITEMS && s.rotor < EPOLL_ITEMS
  }

  predicate Sized(w: World) {
    && |w.epolls| == EPOLL_MAX && (forall e :: 0 <= e < EPOLL_MAX ==> SetFits(w.epolls[e]))
  }

  /** Only open files are watched, by sets in use, and no descriptor twice by one set. */
  predicate Watching(files: map<nat, Kind>, s: Set) {
    && (forall i :: 0 <= i < |s.items| && s.items[i].used ==> s.used && s.items[i].file in files)
    && (forall i, j :: 0 <= i < j < |s.items| && s.items[i].used && s.items[j].used
          ==> s.items[i].fd != s.items[j].fd || s.items[i].file != s.items[j].file)
  }

  /** Every file that is an epoll has a set in use of its own. */
  predicate OwnSets(w: World) {
    && (forall f :: f in w.files && w.files[f].Nest? ==> w.files[f].e < |w.epolls| && w.epolls[w.files[f].e].used)
    && (forall f, g :: f in w.files && g in w.files && w.files[f].Nest? && w.files[f] == w.files[g] ==> f == g)
  }

  predicate Tidy(w: World) {
    && Sized(w) && OwnSets(w)
    && (forall e :: 0 <= e < |w.epolls| ==> Watching(w.files, w.epolls[e]))
  }

  /** Slot `i` of set `x` watches set `y`. */
  predicate Nests(w: World, x: nat, i: nat, y: nat) {
    && x < |w.epolls| && i < |w.epolls[x].items| && w.epolls[x].items[i].used
    && w.epolls[x].items[i].file in w.files && w.files[w.epolls[x].items[i].file] == Nest(y)
  }

  ghost predicate Linked(w: World, x: nat, y: nat) {
    exists i :: Nests(w, x, i, y)
  }

  /** Which set watches which. */
  ghost function Links(w: World): Graph {
    set x, y | 0 <= x < EPOLL_MAX && 0 <= y < EPOLL_MAX && Linked(w, x, y) :: (x, y)
  }

  ghost predicate Valid(w: World) {
    Tidy(w) && Acyclic(Links(w))
  }

  lemma LinksWithin(w: World, w': World)
    requires Tidy(w')
    requires forall x: nat, i: nat, y: nat :: Nests(w', x, i, y) ==> Linked(w, x, y)
    ensures Links(w') <= Links(w)
  {
    forall l | l in Links(w')
      ensures l in Links(w)
    {
      var i :| Nests(w', l.0, i, l.1);
    }
  }

  // ------------------------------------------------------------------
  // What is ready
  // ------------------------------------------------------------------

  /** The bits an item reports when its file polls as these. */
  function Got(it: Item, bits: bv32): bv32 {
    var r := bits & 0xffff;
    var r1 := if r & POLLIN != 0 then r | EPOLLRDNORM else r;
    var r2 := if r1 & POLLOUT != 0 then r1 | EPOLLWRNORM else r1;
    r2 & (it.events | EPOLLERR | EPOLLHUP)
  }

  /** What looking at an item reports; 0 for nothing. */
  function Check(it: Item, bits: bv32): bv32 {
    Told(it, Got(it, bits))
  }

  /** What is reported of an item that has these. */
  function Told(it: Item, got: bv32): bv32 {
    if it.disabled || got == 0 then 0
    else if EdgeTriggered(it) && !Adds(it.last, got) then 0
    else got
  }

  predicate EdgeTriggered(it: Item) {
    it.events & EPOLLET != 0
  }

  predicate OneShot(it: Item) {
    it.events & EPOLLONESHOT != 0
  }

  /** Something is there now that was not before. */
  predicate Adds(before: bv32, now: bv32) {
    now & !before != 0
  }

  /** The item with the edges of a look used up. */
  function Consumed(it: Item, bits: bv32): Item {
    Used(it, Got(it, bits))
  }

  function Used(it: Item, got: bv32): Item {
    if it.disabled || got == 0 || EdgeTriggered(it) then it.(last := got) else it
  }

  /** The item once it was looked at, and reported if there was anything to report. */
  function Looked(it: Item, bits: bv32): Item {
    Left(it, Got(it, bits))
  }

  function Left(it: Item, got: bv32): Item {
    if Told(it, got) != 0 && OneShot(it) then Used(it, got).(disabled := true) else Used(it, got)
  }

  /**
  Which bits an item can report, one by one: reading (1) and writing (4), each also
  under its other name (0x40, 0x100); errors (8) and hang-ups (0x10) whether asked for
  or not; everything else only if it was asked for.
  */
  lemma GotIs(it: Item, bits: bv32)
    ensures var got := Got(it, bits);
            && (got & 1 != 0 <==> bits & 1 != 0 && it.events & 1 != 0)
            && (got & 4 != 0 <==> bits & 4 != 0 && it.events & 4 != 0)
            && (got & 0x40 != 0 <==> bits & 0x41 != 0 && it.events & 0x40 != 0)
            && (got & 0x100 != 0 <==> bits & 0x104 != 0 && it.events & 0x100 != 0)
            && got & 0x18 == bits & 0x18
            && got & 0xfea2 == bits & it.events & 0xfea2 && got & 0xffff_0000 == 0
  {
  }

  /** What is reported is all an item has, if it is reported at all: when it has anything, is armed, and, edge-triggered, has something new. */
  lemma CheckIs(it: Item, bits: bv32)
    ensures Check(it, bits) != 0
       <==> Got(it, bits) != 0 && !it.disabled && (EdgeTriggered(it) ==> exists x :: Gained(it.last, Got(it, bits), x))
    ensures Check(it, bits) != 0 ==> Check(it, bits) == Got(it, bits)
  {
    ToldIs(it, Got(it, bits));
  }

  lemma ToldIs(it: Item, got: bv32)
    ensures Told(it, got) != 0
       <==> got != 0 && !it.disabled && (EdgeTriggered(it) ==> exists x :: Gained(it.last, got, x))
    ensures Told(it, got) != 0 ==> Told(it, got) == got
  {
    GainedSome(it.last, got);
  }

  lemma GainedSome(before: bv32, now: bv32)
    ensures Adds(before, now) <==> exists x :: Gained(before, now, x)
  {
    if Adds(before, now) {
      NewBits(before, now);
    }
    if x :| Gained(before, now, x) {
      GainedIs(before, now, x);
    }
  }

  /** The two flags, as numbers. */
  lemma FlagsAre(it: Item)
    ensures EdgeTriggered(it) <==> it.events & 0x8000_0000 != 0
    ensures OneShot(it) <==> it.events & 0x4000_0000 != 0
  {
  }

  /** `x` is something `now` has and `before` had not. */
  predicate Gained(before: bv32, now: bv32, x: bv32) {
    x != 0 && now & x == x && before & x == 0
  }

  lemma NewBits(before: bv32, now: bv32)
    requires Adds(before, now)
    ensures Gained(before, now, now & !before)
  {
  }

  lemma GainedIs(before: bv32, now: bv32, x: bv32)
    requires Gained(before, now, x)
    ensures Adds(before, now) && now != 0
  {
  }

  /** A one-shot item that was reported is not reported again, whatever it has later. */
  lemma OneShotRests(it: Item, got: bv32, later: bv32)
    requires OneShot(it) && Told(it, got) != 0
    ensures Told(Left(it, got), later) == 0 && Left(it, got).disabled
  {
  }

  /** What an item can report, a look does not change. */
  lemma SameGot(it: Item, bits: bv32, later: bv32)
    ensures Got(Looked(it, bits), later) == Got(it, later)
  {
    assert Looked(it, bits).events == it.events;
  }

  /** An edge-triggered item that was looked at is next reported if and only if it has gained something since. */
  lemma EdgeTells(it: Item, got: bv32, later: bv32)
    requires EdgeTriggered(it) && !Left(it, got).disabled
    ensures Told(Left(it, got), later) != 0 <==> exists x :: Gained(got, later, x)
  {
    EdgeTold(it, got, later);
    assert Left(it, got) == it.(last := got);
  }

  lemma EdgeTold(it: Item, got: bv32, now: bv32)
    requires EdgeTriggered(it) && !it.disabled
    ensures Told(it.(last := got), now) != 0 <==> exists x :: Gained(got, now, x)
  {
    ToldIs(it.(last := got), now);
    if x :| Gained(got, now, x) {
      GainedIs(got, now, x);
    }
  }

  type Poll = nat -> bv32

  /** What looking at an item leaves of it, and what it had; 0 for nothing. */
  datatype Seen = Seen(item: Item, bits: bv32)

  type Look = Item -> Seen

  /** Looking while the files answer as `poll` says. */
  function Looking(poll: Poll): Look {
    (it: Item) => Seen(Looked(it, poll(it.file)), Check(it, poll(it.file)))
  }

  predicate Ready(it: Item, look: Look) {
    it.used && look(it).bits != 0
  }

  function ReportOf(it: Item, look: Look): Report {
    Report(look(it).bits, it.data)
  }

  /** Looking does not change what an item watches. */
  ghost predicate Faithful(look: Look) {
    forall it :: SameWatch(look(it).item, it)
  }

  lemma LookingIsFaithful(poll: Poll)
    ensures Faithful(Looking(poll))
  {
    forall it: Item
      ensures SameWatch(Looking(poll)(it).item, it)
    {
      assert Looking(poll)(it).item == Looked(it, poll(it.file));
    }
  }

  /** The slot `k` places on from `from`, round the table. */
  function At(from: nat, k: nat): nat {
    if from + k < EPOLL_ITEMS then from + k else from + k - EPOLL_ITEMS
  }

  /** How far round the table `j` is from `from`. */
  function Distance(from: nat, j: nat): nat
    requires from < EPOLL_ITEMS
  {
    if from <= j then j - from else j + EPOLL_ITEMS - from
  }

  /** The slots ready among the first `k` of a scan that starts at `from`, in its order. */
  function ReadyTo(items: seq<Item>, look: Look, from: nat, k: nat): seq<nat>
    requires |items| == EPOLL_ITEMS && from < EPOLL_ITEMS && k <= EPOLL_ITEMS
  {
    if k == 0 then []
    else
      var r, i := ReadyTo(items, look, from, k - 1), At(from, k - 1);
      if Ready(items[i], look) then r + [i] else r
  }

  function First(s: seq<nat>, n: nat): seq<nat> {
    if |s| <= n then s else s[..n]
  }

  /** One entry of what epoll_wait hands back. */
  datatype Report = Report(events: bv32, data: int)

  /** A pass over the items: how they are left, the slots picked and what is reported of them. */
  datatype Scanned = Scanned(items: seq<Item>, picks: seq<nat>, out: seq<Report>)

  /** A pass so far, after one more slot. */
  function Advance(so: Scanned, look: Look, from: nat, k: nat, room: nat): Scanned
    requires |so.items| == EPOLL_ITEMS && from < EPOLL_ITEMS && k < EPOLL_ITEMS
  {
    var i := At(from, k);
    var it := so.items[i];
    if |so.out| >= room || !it.used then so
    else
      var items := so.items[i := look(it).item];
      if look(it).bits == 0 then Scanned(items, so.picks, so.out)
      else Scanned(items, so.picks + [i], so.out + [ReportOf(it, look)])
  }

  /** A pass after `k` slots. */
  function Scan(was: seq<Item>, look: Look, from: nat, k: nat, room: nat): (so: Scanned)
    requires |was| == EPOLL_ITEMS && from < EPOLL_ITEMS && k <= EPOLL_ITEMS
    ensures |so.items| == EPOLL_ITEMS && |so.out| == |so.picks| <= room
  {
    if k == 0 then Scanned(was, [], []) else Advance(Scan(was, look, from, k - 1, room), look, from, k - 1, room)
  }

  function Clamped(max: nat): nat {
    if max > EPOLL_ITEMS then EPOLL_ITEMS else max
  }

  function Picks(s: Set, look: Look, max: nat): seq<nat>
    requires SetFits(s)
  {
    Scan(s.items, look, s.rotor, |s.items|, Clamped(max)).picks
  }

  /** The rotor after a pass: just past the last item picked. */
  function NextRotor(rotor: nat, picks: seq<nat>): nat {
    if picks == [] then rotor else At(picks[|picks| - 1], 1)
  }

  /** A set after a pass over it. */
  function Passed(s: Set, look: Look, max: nat): Set
    requires SetFits(s)
  {
    var r := Scan(s.items, look, s.rotor, |s.items|, Clamped(max));
    Set(s.used, NextRotor(s.rotor, r.picks), r.items)
  }

  lemma {:induction false} Untouched(was: seq<Item>, look: Look, from: nat, k: nat, room: nat, m: nat)
    requires |was| == EPOLL_ITEMS && from < EPOLL_ITEMS && k <= m < EPOLL_ITEMS
    ensures Scan(was, look, from, k, room).items[At(from, m)] == was[At(from, m)]
  {
    if k > 0 {
      Untouched(was, look, from, k - 1, room, m);
    }
  }

  /** A pass picks the ready items in order from the rotor, as many as there is room for. */
  lemma {:induction false} ScanPicks(was: seq<Item>, look: Look, from: nat, k: nat, room: nat)
    requires |was| == EPOLL_ITEMS && from < EPOLL_ITEMS && k <= EPOLL_ITEMS
    ensures Scan(was, look, from, k, room).picks == First(ReadyTo(was, look, from, k), room)
  {
    if k > 0 {
      ScanPicks(was, look, from, k - 1, room);
      PicksMore(was, look, from, k - 1, room);
    }
  }

  lemma PicksMore(was: seq<Item>, look: Look, from: nat, k: nat, room: nat)
    requires |was| == EPOLL_ITEMS && from < EPOLL_ITEMS && k < EPOLL_ITEMS
    requires Scan(was, look, from, k, room).picks == First(ReadyTo(was, look, from, k), room)
    ensures Scan(was, look, from, k + 1, room).picks == First(ReadyTo(was, look, from, k + 1), room)
  {
    Untouched(was, look, from, k, room, k);
    AdvancePicks(Scan(was, look, from, k, room), ReadyTo(was, look, from, k), look, from, k, room);
  }

  lemma AdvancePicks(so: Scanned, r: seq<nat>, look: Look, from: nat, k: nat, room: nat)
    requires |so.items| == EPOLL_ITEMS && from < EPOLL_ITEMS && k < EPOLL_ITEMS
    requires so.picks == First(r, room) && |so.out| == |so.picks|
    ensures var i := At(from, k);
            Advance(so, look, from, k, room).picks == First(if Ready(so.items[i], look) then r + [i] else r, room)
  {
    FirstSnoc(r, At(from, k), room);
  }

  lemma FirstHas(s: seq<nat>, n: nat, b: nat)
    requires b < |s| && b < n
    ensures s[b] in First(s, n)
  {
    assert First(s, n)[b] == s[b];
  }

  lemma FirstSnoc(s: seq<nat>, x: nat, n: nat)
    ensures First(s + [x], n) == if |First(s, n)| < n then First(s, n) + [x] else First(s, n)
  {
  }

  /**
  Which items a pass looks at, and so uses up the edges of: those in use with
  fewer ready ones before them than there is room for. The others are untouched.
  */
  lemma {:induction false} ScanLooks(was: seq<Item>, look: Look, from: nat, k: nat, room: nat, m: nat)
    requires |was| == EPOLL_ITEMS && from < EPOLL_ITEMS && m < k <= EPOLL_ITEMS
    ensures var it := was[At(from, m)];
            Scan(was, look, from, k, room).items[At(from, m)]
            == if it.used && |ReadyTo(was, look, from, m)| < room then look(it).item else it
  {
    if m == k - 1 {
      Untouched(was, look, from, m, room, m);
      ScanPicks(was, look, from, m, room);
    } else {
      ScanLooks(was, look, from, k - 1, room, m);
    }
  }

  /** Each pick is reported with its own bits and data, as the item was before the pass. */
  ghost predicate ReportsTell(items: seq<Item>, look: Look, picks: seq<nat>, out: seq<Report>) {
    && |out| == |picks|
    && (forall n :: 0 <= n < |picks| ==> picks[n] < |items| && out[n] == ReportOf(items[picks[n]], look))
  }

  lemma {:induction false} ScanReports(was: seq<Item>, look: Look, from: nat, k: nat, room: nat)
    requires |was| == EPOLL_ITEMS && from < EPOLL_ITEMS && k <= EPOLL_ITEMS
    ensures var so := Scan(was, look, from, k, room);
            ReportsTell(was, look, so.picks, so.out)
  {
    if k > 0 {
      ScanReports(was, look, from, k - 1, room);
      Untouched(was, look, from, k - 1, room, k - 1);
    }
  }

  /** Slots at growing distances from `from`, all nearer than `k`. */
  predicate Ordered(r: seq<nat>, from: nat, k: nat)
    requires from < EPOLL_ITEMS
  {
    && (forall a :: 0 <= a < |r| ==> r[a] < EPOLL_ITEMS && Distance(from, r[a]) < k)
    && (forall a, b :: 0 <= a < b < |r| ==> Distance(from, r[a]) < Distance(from, r[b]))
  }

  lemma {:induction false} ReadyOrdered(items: seq<Item>, look: Look, from: nat, k: nat)
    requires |items| == EPOLL_ITEMS && from < EPOLL_ITEMS && k <= EPOLL_ITEMS
    ensures Ordered(ReadyTo(items, look, from, k), from, k)
  {
    if k > 0 {
      ReadyOrdered(items, look, from, k - 1);
      assert Distance(from, At(from, k - 1)) == k - 1;
    }
  }

  lemma {:induction false} ReadyHas(items: seq<Item>, look: Look, from: nat, k: nat, j: nat)
    requires |items| == EPOLL_ITEMS && from < EPOLL_ITEMS && j < EPOLL_ITEMS && Distance(from, j) < k <= EPOLL_ITEMS
    requires Ready(items[j], look)
    ensures j in ReadyTo(items, look, from, k)
  {
    if Distance(from, j) == k - 1 {
      assert At(from, k - 1) == j;
    } else {
      ReadyHas(items, look, from, k - 1, j);
    }
  }

  /** An item passed over by a pass is nearer the rotor after it. */
  lemma PassedOverComesNearer(s: Set, look: Look, max: nat, j: nat)
    requires SetFits(s) && max >= 1 && j < EPOLL_ITEMS && Ready(s.items[j], look)
    requires j !in Picks(s, look, max)
    ensures SetFits(Passed(s, look, max))
    ensures Distance(Passed(s, look, max).rotor, j) < Distance(s.rotor, j)
  {
    var r, n := ReadyTo(s.items, look, s.rotor, |s.items|), Clamped(max);
    ScanPicks(s.items, look, s.rotor, |s.items|, n);
    ReadyHas(s.items, look, s.rotor, |s.items|, j);
    ReadyOrdered(s.items, look, s.rotor, |s.items|);
    var b :| 0 <= b < |r| && r[b] == j;
    if b < n {
      FirstHas(r, n, b);
      assert false;
    }
    assert Picks(s, look, max)[n - 1] == r[n - 1];
  }

  /** A level-triggered item whose file has something it asked for is ready, whatever was reported before. */
  lemma LevelStaysReady(it: Item, poll: Poll)
    requires it.used && !it.disabled && it.events & EPOLLET == 0 && Got(it, poll(it.file)) != 0
    ensures Ready(it, Looking(poll))
    ensures it.events & EPOLLONESHOT == 0 ==> Looking(poll)(it).item == it
  {
  }

  /** The same descriptor of the same file, watched or not. */
  predicate SameWatch(a: Item, b: Item) {
    a.used == b.used && a.fd == b.fd && a.file == b.file
  }

  lemma PassedWatchesTheSame(s: Set, look: Look, max: nat)
    requires SetFits(s) && Faithful(look)
    ensures var s' := Passed(s, look, max);
            SetFits(s') && s'.used == s.used && forall i :: 0 <= i < EPOLL_ITEMS ==> SameWatch(s'.items[i], s.items[i])
  {
    var n := Clamped(max);
    ScanPicks(s.items, look, s.rotor, |s.items|, n);
    ReadyOrdered(s.items, look, s.rotor, |s.items|);
    forall i | 0 <= i < EPOLL_ITEMS
      ensures SameWatch(Passed(s, look, max).items[i], s.items[i])
    {
      ScanLooks(s.items, look, s.rotor, |s.items|, n, Distance(s.rotor, i));
      assert At(s.rotor, Distance(s.rotor, i)) == i;
    }
  }

  // ------------------------------------------------------------------
  // The operations
  // ------------------------------------------------------------------

  predicate Watches(it: Item, fd: int, file: nat) {
    it.used && it.fd == fd && it.file == file
  }

  /** The slot among the first `n` that watches this descriptor, or `EPOLL_ITEMS`. */
  function Find(items: seq<Item>, fd: int, file: nat, n: nat): nat
    requires n <= |items|
  {
    if n == 0 then EPOLL_ITEMS
    else if Watches(items[n - 1], fd, file) then n - 1
    else Find(items, fd, file, n - 1)
  }

  /** The first free slot among the first `n`, or `EPOLL_ITEMS`. */
  function FirstFree(items: seq<Item>, n: nat): nat
    requires n <= |items|
  {
    if n == 0 then EPOLL_ITEMS
    else if FirstFree(items, n - 1) != EPOLL_ITEMS then FirstFree(items, n - 1)
    else if !items[n - 1].used then n - 1
    else EPOLL_ITEMS
  }

  lemma {:induction false} FindIs(items: seq<Item>, fd: int, file: nat, n: nat)
    requires n <= |items| == EPOLL_ITEMS
    ensures var i := Find(items, fd, file, n);
            if i < EPOLL_ITEMS then i < n && Watches(items[i], fd, file)
            else i == EPOLL_ITEMS && forall j :: 0 <= j < n ==> !Watches(items[j], fd, file)
  {
    if n > 0 {
      FindIs(items, fd, file, n - 1);
    }
  }

  lemma {:induction false} FirstFreeIs(items: seq<Item>, n: nat)
    requires n <= |items| == EPOLL_ITEMS
    ensures var i := FirstFree(items, n);
            && i <= EPOLL_ITEMS && (i < EPOLL_ITEMS ==> i < n && !items[i].used)
            && forall j :: 0 <= j < n && j < i ==> items[j].used
  {
    if n > 0 {
      FirstFreeIs(items, n - 1);
    }
  }

  function WithItem(w: World, e: nat, i: nat, it: Item): World
    requires e < |w.epolls| && i < |w.epolls[e].items|
  {
    w.(epolls := w.epolls[e := w.epolls[e].(items := w.epolls[e].items[i := it])])
  }

  /** What epoll_ctl leaves and answers. A descriptor that is not open is `None`, and so is an event that cannot be fetched. */
  ghost function Control(w: World, ef: Option<nat>, op: int, fd: int, f: Option<nat>, ev: Option<Event>): (World, int)
    requires Tidy(w) && (ef.Some? ==> ef.value in w.files) && (f.Some? ==> f.value in w.files)
  {
    if ef.None? || f.None? then (w, -EBADF)
    else if !w.files[ef.value].Nest? || ef == f then (w, -EINVAL)
    else if op != CTL_DEL && ev.None? then (w, -EFAULT)
    else if w.files[f.value].Regular? then (w, -EPERM)
    else
      var e := w.files[ef.value].e;
      ControlSet(w, e, op, fd, f.value, if ev.Some? then ev.value else Event(0, 0))
  }

  ghost function ControlSet(w: World, e: nat, op: int, fd: int, f: nat, ev: Event): (World, int)
    requires Sized(w) && e < EPOLL_MAX && f in w.files
  {
    var items := w.epolls[e].items;
    var i, free := Find(items, fd, f, |items|), FirstFree(items, |items|);
    FindIs(items, fd, f, |items|);
    FirstFreeIs(items, |items|);
    if op == CTL_ADD then
      if i < EPOLL_ITEMS then (w, -EEXIST)
      else if free == EPOLL_ITEMS then (w, -ENOSPC)
      else if w.files[f].Nest? && Found(Links(w), w.files[f].e, e, 5) then (w, -ELOOP)
      else (WithItem(w, e, free, Item(true, fd, f, ev.events, ev.data, 0, false)), 0)
    else if op == CTL_MOD then
      if i == EPOLL_ITEMS then (w, -ENOENT)
      else if ev.events & EPOLLEXCLUSIVE != 0 then (w, -EINVAL)
      else (WithItem(w, e, i, items[i].(events := ev.events, data := ev.data, disabled := false, last := 0)), 0)
    else if op == CTL_DEL then
      if i == EPOLL_ITEMS then (w, -ENOENT)
      else (WithItem(w, e, i, items[i].(used := false)), 0)
    else (w, -EINVAL)
  }

  /** What a set knows of a descriptor it watches. */
  datatype Watch = Watch(events: bv32, data: int, last: bv32, disabled: bool)

  ghost predicate Holds(items: seq<Item>, fd: int, file: nat, x: Watch) {
    exists i :: 0 <= i < |items| && Watches(items[i], fd, file)
                && x == Watch(items[i].events, items[i].data, items[i].last, items[i].disabled)
  }

  ghost predicate Watched(items: seq<Item>, fd: int, file: nat) {
    exists i :: 0 <= i < |items| && Watches(items[i], fd, file)
  }

  /**
  A set is a map from the descriptors it watches: adding (1) and modifying (3) set the
  one named, enabled and with nothing seen, deleting (2) drops it, and no other changes,
  in this set or another. A call that is refused changes nothing.
  */
  lemma ControlIsMap(w: World, e: nat, op: int, fd: int, f: nat, ev: Event, fd': int, f': nat, x: Watch)
    requires Tidy(w) && e < EPOLL_MAX && f in w.files
    ensures var (w', r) := ControlSet(w, e, op, fd, f, ev);
            if r != 0 then w' == w
            else
              && w'.files == w.files && |w'.epolls| == |w.epolls| && (forall y :: 0 <= y < |w.epolls| && y != e ==> w'.epolls[y] == w.epolls[y])
              && (Holds(w'.epolls[e].items, fd', f', x)
                  <==> if (fd', f') == (fd, f) then op != 2 && x == Watch(ev.events, ev.data, 0, false)
                       else Holds(w.epolls[e].items, fd', f', x))
  {
    var items := w.epolls[e].items;
    FindIs(items, fd, f, |items|);
    FirstFreeIs(items, |items|);
    assert SetFits(w.epolls[e]) && Watching(w.files, w.epolls[e]);
    var (w', r) := ControlSet(w, e, op, fd, f, ev);
    if r == 0 {
      var i := if op == 1 then FirstFree(items, |items|) else Find(items, fd, f, |items|);
      SlotIsWatch(items, i, w'.epolls[e].items[i], fd, f, fd', f', x);
    }
  }

  lemma SlotIsWatch(items: seq<Item>, i: nat, it: Item, fd: int, f: nat, fd': int, f': nat, x: Watch)
    requires i < |items| && (forall j :: 0 <= j < |items| && j != i ==> !Watches(items[j], fd, f))
    requires (items[i].used ==> Watches(items[i], fd, f)) && (it.used ==> Watches(it, fd, f))
    ensures Holds(items[i := it], fd', f', x)
            <==> if (fd', f') == (fd, f) then it.used && x == Watch(it.events, it.data, it.last, it.disabled)
                 else Holds(items, fd', f', x)
  {
    var items' := items[i := it];
    assert items'[i] == it && forall j :: 0 <= j < |items| && j != i ==> items'[j] == items[j];
  }

  /** The call does its work, or answers the first of these that holds. */
  lemma ControlAnswers(w: World, ef: Option<nat>, op: int, fd: int, f: Option<nat>, ev: Option<Event>)
    requires Tidy(w) && (ef.Some? ==> ef.value in w.files) && (f.Some? ==> f.value in w.files)
    ensures var r := Control(w, ef, op, fd, f, ev).1;
            if ef.None? || f.None? then r == -9
            else if !w.files[ef.value].Nest? || ef == f then r == -22
            else if op != 2 && ev.None? then r == -14
            else if w.files[f.value].Regular? then r == -1
            else
              var e := w.files[ef.value].e;
              var items := w.epolls[e].items;
              var there := Watched(items, fd, f.value);
              if op == 1 then
                if there then r == -17
                else if forall i :: 0 <= i < |items| ==> items[i].used then r == -28
                else if w.files[f.value].Nest? && Found(Links(w), w.files[f.value].e, e, 5) then r == -40
                else r == 0
              else if op != 2 && op != 3 then r == -22
              else if !there then r == -2
              else if op == 3 && ev.value.events & 0x1000_0000 != 0 then r == -22
              else r == 0
  {
    if ef.Some? && f.Some? && w.files[ef.value].Nest? {
      var items := w.epolls[w.files[ef.value].e].items;
      FindIs(items, fd, f.value, |items|);
      FirstFreeIs(items, |items|);
    }
  }

  lemma TidyWithItem(w: World, e: nat, i: nat, it: Item)
    requires Tidy(w) && e < EPOLL_MAX && w.epolls[e].used && i < EPOLL_ITEMS
    requires it.used ==> it.file in w.files
    requires it.used ==> forall j :: 0 <= j < EPOLL_ITEMS && j != i ==> !Watches(w.epolls[e].items[j], it.fd, it.file)
    ensures Tidy(WithItem(w, e, i, it))
  {
    var w' := WithItem(w, e, i, it);
    assert Watching(w.files, w.epolls[e]);
    assert Watching(w'.files, w'.epolls[e]);
    forall x | 0 <= x < EPOLL_MAX
      ensures SetFits(w'.epolls[x]) && Watching(w'.files, w'.epolls[x])
    {
      assert SetFits(w.epolls[x]) && Watching(w.files, w.epolls[x]);
    }
  }

  lemma LinksWithItem(w: World, e: nat, i: nat, it: Item)
    requires Tidy(w) && e < EPOLL_MAX && i < EPOLL_ITEMS && Tidy(WithItem(w, e, i, it))
    requires it.used ==> it.file in w.files
    ensures var more := if it.used && w.files[it.file].Nest? then {(e, w.files[it.file].e)} else {};
            Links(WithItem(w, e, i, it)) <= Links(w) + more
  {
    var w' := WithItem(w, e, i, it);
    forall l | l in Links(w')
      ensures l in Links(w) || (it.used && w.files[it.file].Nest? && l == (e, w.files[it.file].e))
    {
      var j :| Nests(w', l.0, j, l.1);
      if l.0 != e || j != i {
        assert Nests(w, l.0, j, l.1);
      }
    }
  }

  /** epoll_ctl leaves no loop, though the search for one gives up at a fixed depth. */
  lemma ControlKeepsValid(w: World, e: nat, op: int, fd: int, f: nat, ev: Event)
    requires Valid(w) && e < EPOLL_MAX && w.epolls[e].used && f in w.files
    ensures Valid(ControlSet(w, e, op, fd, f, ev).0)
  {
    var items := w.epolls[e].items;
    var i, free := Find(items, fd, f, |items|), FirstFree(items, |items|);
    FindIs(items, fd, f, |items|);
    FirstFreeIs(items, |items|);
    if ControlSet(w, e, op, fd, f, ev).1 == 0 {
      if op == CTL_ADD {
        AddKeepsValid(w, e, free, Item(true, fd, f, ev.events, ev.data, 0, false));
      } else if op == CTL_MOD {
        RewriteKeepsValid(w, e, i, items[i].(events := ev.events, data := ev.data, disabled := false, last := 0));
      } else {
        RewriteKeepsValid(w, e, i, items[i].(used := false));
      }
    }
  }

  lemma AddKeepsValid(w: World, e: nat, i: nat, it: Item)
    requires Valid(w) && e < EPOLL_MAX && w.epolls[e].used && i < EPOLL_ITEMS && !w.epolls[e].items[i].used
    requires it.used && it.file in w.files
    requires forall j :: 0 <= j < EPOLL_ITEMS ==> !Watches(w.epolls[e].items[j], it.fd, it.file)
    requires w.files[it.file].Nest? ==> !Found(Links(w), w.files[it.file].e, e, 5)
    ensures Valid(WithItem(w, e, i, it))
  {
    TidyWithItem(w, e, i, it);
    LinksWithItem(w, e, i, it);
    var g := Links(w);
    if w.files[it.file].Nest? {
      var y := w.files[it.file].e;
      forall p
        ensures !Joins(g, p, y, e)
      {
        NotFoundNotConnected(g, y, e, 5, p);
      }
      AcyclicWithLink(g, e, y);
      AcyclicSubset(g + {(e, y)}, Links(WithItem(w, e, i, it)));
    } else {
      AcyclicSubset(g, Links(WithItem(w, e, i, it)));
    }
  }

  lemma RewriteKeepsValid(w: World, e: nat, i: nat, it: Item)
    requires Valid(w) && e < EPOLL_MAX && i < EPOLL_ITEMS && w.epolls[e].items[i].used
    requires it.fd == w.epolls[e].items[i].fd && it.file == w.epolls[e].items[i].file
    ensures Valid(WithItem(w, e, i, it))
  {
    assert Watching(w.files, w.epolls[e]);
    TidyWithItem(w, e, i, it);
    LinksWithItem(w, e, i, it);
    if it.used && w.files[it.file].Nest? {
      assert Nests(w, e, i, w.files[it.file].e);
    }
    AcyclicSubset(Links(w), Links(WithItem(w, e, i, it)));
  }

  /** The items once nothing watches `file`. */
  function Dropped(items: seq<Item>, file: nat): (r: seq<Item>)
    ensures |r| == |items|
    ensures forall i :: 0 <= i < |items| ==>
              r[i] == if items[i].used && items[i].file == file then items[i].(used := false) else items[i]
  {
    if items == [] then []
    else
      var n := |items| - 1;
      Dropped(items[..n], file)
      + [if items[n].used && items[n].file == file then items[n].(used := false) else items[n]]
  }

  function DroppedFrom(s: Set, file: nat): Set {
    if s.used then s.(items := Dropped(s.items, file)) else s
  }

  function DroppedAll(epolls: seq<Set>, file: nat): (r: seq<Set>)
    ensures |r| == |epolls| && forall e :: 0 <= e < |r| ==> r[e] == DroppedFrom(epolls[e], file)
  {
    if epolls == [] then []
    else DroppedAll(epolls[..|epolls| - 1], file) + [DroppedFrom(epolls[|epolls| - 1], file)]
  }

  /** The last reference to an open file goes away. */
  function Closed(w: World, f: nat): World
    requires f in w.files
  {
    var epolls := DroppedAll(w.epolls, f);
    var kind := w.files[f];
    World(if kind.Nest? && kind.e < |epolls| then epolls[kind.e := Cleared(false)] else epolls, w.files - {f})
  }

  lemma ClosedSet(w: World, f: nat, e: nat)
    requires Tidy(w) && f in w.files && e < EPOLL_MAX
    ensures |Closed(w, f).epolls| == EPOLL_MAX
    ensures SetFits(Closed(w, f).epolls[e]) && Watching(w.files - {f}, Closed(w, f).epolls[e])
    ensures w.files[f] != Nest(e) ==> Closed(w, f).epolls[e].used == w.epolls[e].used
    ensures forall i :: 0 <= i < EPOLL_ITEMS && Closed(w, f).epolls[e].items[i].used ==>
              Closed(w, f).epolls[e].items[i] == w.epolls[e].items[i]
  {
    assert SetFits(w.epolls[e]) && Watching(w.files, w.epolls[e]);
    ClosedAt(w, f, e);
    if w.files[f] != Nest(e) {
      DroppedSet(w.files, w.epolls[e], f);
    }
  }

  lemma ClosedAt(w: World, f: nat, e: nat)
    requires Sized(w) && f in w.files && e < EPOLL_MAX
    ensures |Closed(w, f).epolls| == EPOLL_MAX
    ensures Closed(w, f).epolls[e] == if w.files[f] == Nest(e) then Cleared(false) else DroppedFrom(w.epolls[e], f)
  {
  }

  lemma DroppedSet(files: map<nat, Kind>, s: Set, f: nat)
    requires SetFits(s) && Watching(files, s)
    ensures var s' := DroppedFrom(s, f);
            && SetFits(s') && Watching(files - {f}, s') && s'.used == s.used
            && forall i :: 0 <= i < EPOLL_ITEMS && s'.items[i].used ==> s'.items[i] == s.items[i]
  {
  }

  /** The last close of a file takes it out of every set, and what else they watch stays; its own set, if it is one, is free. */
  lemma ClosedIsMap(w: World, f: nat, e: nat, fd: int, f': nat, x: Watch)
    requires Tidy(w) && f in w.files && e < EPOLL_MAX
    ensures var w' := Closed(w, f);
            && w'.files == w.files - {f} && |w'.epolls| == |w.epolls|
            && (if w.files[f] == Nest(e) then !w'.epolls[e].used
                else w'.epolls[e].used == w.epolls[e].used && w'.epolls[e].rotor == w.epolls[e].rotor
                     && (w.epolls[e].used ==> (Holds(w'.epolls[e].items, fd, f', x) <==> f' != f && Holds(w.epolls[e].items, fd, f', x))))
  {
    if w.files[f] != Nest(e) && w.epolls[e].used {
      DroppedIsMap(w.epolls[e].items, f, fd, f', x);
    }
  }

  lemma DroppedIsMap(items: seq<Item>, f: nat, fd: int, f': nat, x: Watch)
    ensures Holds(Dropped(items, f), fd, f', x) <==> f' != f && Holds(items, fd, f', x)
  {
    var items' := Dropped(items, f);
    if f' != f && Holds(items, fd, f', x) {
      var i :| 0 <= i < |items| && Watches(items[i], fd, f')
               && x == Watch(items[i].events, items[i].data, items[i].last, items[i].disabled);
      assert Watches(items'[i], fd, f');
    }
  }

  lemma ClosedKeepsValid(w: World, f: nat)
    requires Valid(w) && f in w.files
    ensures Valid(Closed(w, f))
  {
    var w' := Closed(w, f);
    assert |w'.epolls| == EPOLL_MAX;
    forall e | 0 <= e < EPOLL_MAX
      ensures SetFits(w'.epolls[e]) && Watching(w'.files, w'.epolls[e])
    {
      ClosedSet(w, f, e);
    }
    forall g | g in w'.files && w'.files[g].Nest?
      ensures w'.files[g].e < |w'.epolls| && w'.epolls[w'.files[g].e].used
    {
      assert g in w.files && g != f;
      ClosedSet(w, f, w.files[g].e);
    }
    forall x: nat, i: nat, y: nat | Nests(w', x, i, y)
      ensures Linked(w, x, y)
    {
      ClosedSet(w, f, x);
      assert Nests(w, x, i, y);
    }
    LinksWithin(w, w');
    AcyclicSubset(Links(w), Links(w'));
  }

  /** The first set not in use among the first `n`, or `EPOLL_MAX`. */
  function FreeSet(epolls: seq<Set>, n: nat): nat
    requires n <= |epolls|
  {
    if n == 0 then EPOLL_MAX
    else if FreeSet(epolls, n - 1) != EPOLL_MAX then FreeSet(epolls, n - 1)
    else if !epolls[n - 1].used then n - 1
    else EPOLL_MAX
  }

  lemma {:induction false} FreeSetIs(epolls: seq<Set>, n: nat)
    requires n <= |epolls| == EPOLL_MAX
    ensures var e := FreeSet(epolls, n);
            && e <= EPOLL_MAX && (e < EPOLL_MAX ==> e < n && !epolls[e].used)
            && forall x :: 0 <= x < n && x < e ==> epolls[x].used
  {
    if n > 0 {
      FreeSetIs(epolls, n - 1);
    }
  }

  lemma {:induction false} FreeSetFirst(epolls: seq<Set>, e: nat, n: nat)
    requires e < n <= |epolls| == EPOLL_MAX && FreeSet(epolls, e) == EPOLL_MAX && !epolls[e].used
    ensures FreeSet(epolls, n) == e
  {
    if n > e + 1 {
      FreeSetFirst(epolls, e, n - 1);
    }
  }

  /** epoll_create1, where installing the file answers `fd`: a refusal is negative. */
  function Created(w: World, f: nat, fd: int): (World, int)
    requires |w.epolls| == EPOLL_MAX
  {
    var e := FreeSet(w.epolls, |w.epolls|);
    FreeSetIs(w.epolls, |w.epolls|);
    if e == EPOLL_MAX then (w, -ENFILE)
    else if fd < 0 then (w.(epolls := w.epolls[e := Cleared(false)]), fd)
    else (World(w.epolls[e := Cleared(true)], w.files[f := Nest(e)]), fd)
  }

  /** A new set, if there is one free, is empty and the file leads to it; when the file gets no descriptor nothing is in use that was not. */
  lemma CreatedIs(w: World, f: nat, fd: int, e: nat)
    requires |w.epolls| == EPOLL_MAX && e < EPOLL_MAX && !w.epolls[e].used && forall x :: 0 <= x < e ==> w.epolls[x].used
    ensures var (w', r) := Created(w, f, fd);
            && r == fd && |w'.epolls| == |w.epolls| && (forall x :: 0 <= x < EPOLL_MAX && x != e ==> w'.epolls[x] == w.epolls[x])
            && (if fd < 0 then !w'.epolls[e].used && w'.files == w.files
                else w'.epolls[e].used && w'.epolls[e].rotor == 0 && w'.files == w.files[f := Nest(e)]
                     && forall i :: 0 <= i < |w'.epolls[e].items| ==> !w'.epolls[e].items[i].used)
  {
    FreeSetNone(w.epolls, e);
    FreeSetFirst(w.epolls, e, |w.epolls|);
  }

  lemma {:induction false} FreeSetNone(epolls: seq<Set>, n: nat)
    requires n <= |epolls| && forall x :: 0 <= x < n ==> epolls[x].used
    ensures FreeSet(epolls, n) == EPOLL_MAX
  {
    if n > 0 {
      FreeSetNone(epolls, n - 1);
    }
  }

  /** With all sixteen in use, ENFILE, and nothing changes. */
  lemma CreatedFull(w: World, f: nat, fd: int)
    requires |w.epolls| == 16 && forall x :: 0 <= x < 16 ==> w.epolls[x].used
    ensures Created(w, f, fd) == (w, -23)
  {
    FreeSetNone(w.epolls, |w.epolls|);
  }

  lemma CreatedKeepsValid(w: World, f: nat, fd: int)
    requires Valid(w) && f !in w.files
    ensures Valid(Created(w, f, fd).0)
  {
    var w' := Created(w, f, fd).0;
    var e := FreeSet(w.epolls, |w.epolls|);
    FreeSetIs(w.epolls, |w.epolls|);
    if e < EPOLL_MAX {
      forall x | 0 <= x < EPOLL_MAX
        ensures SetFits(w'.epolls[x]) && Watching(w'.files, w'.epolls[x])
      {
        assert SetFits(w.epolls[x]) && Watching(w.files, w.epolls[x]);
      }
      assert OwnSets(w');
      forall x: nat, i: nat, y: nat | Nests(w', x, i, y)
        ensures Linked(w, x, y)
      {
        assert x != e;
        assert Watching(w.files, w.epolls[x]);
        assert Nests(w, x, i, y);
      }
      LinksWithin(w, w');
      AcyclicSubset(Links(w), Links(w'));
    }
  }

  lemma PassKeepsValid(w: World, e: nat, look: Look, max: nat)
    requires Valid(w) && e < EPOLL_MAX && Faithful(look)
    ensures SetFits(w.epolls[e]) && Valid(w.(epolls := w.epolls[e := Passed(w.epolls[e], look, max)]))
  {
    var w' := w.(epolls := w.epolls[e := Passed(w.epolls[e], look, max)]);
    PassedWatchesTheSame(w.epolls[e], look, max);
    forall x | 0 <= x < EPOLL_MAX
      ensures SetFits(w'.epolls[x]) && Watching(w'.files, w'.epolls[x])
    {
      assert SetFits(w.epolls[x]) && Watching(w.files, w.epolls[x]);
    }
    forall x: nat, i: nat, y: nat | Nests(w', x, i, y)
      ensures Linked(w, x, y)
    {
      assert Nests(w, x, i, y);
    }
    LinksWithin(w, w');
    AcyclicSubset(Links(w), Links(w'));
  }

  // ------------------------------------------------------------------
  // Runs
  // ------------------------------------------------------------------

  datatype Op =
    | Open(f: nat, regular: bool)
    | Create(f: nat, fd: int)
    | Ctl(ef: Option<nat>, op: int, fd: int, file: Option<nat>, ev: Option<Event>)
    | Pass(e: nat, poll: Poll, max: nat)
    | Close(f: nat)

  /** A new file is one that is not open; the others are. */
  predicate Possible(w: World, op: Op) {
    match op
    case Open(f, _) => f !in w.files
    case Create(f, _) => f !in w.files
    case Ctl(ef, _, _, f, _) => (ef.Some? ==> ef.value in w.files) && (f.Some? ==> f.value in w.files)
    case Pass(e, _, _) => e < |w.epolls|
    case Close(f) => f in w.files
  }

  ghost function Step(w: World, op: Op): World
    requires Tidy(w) && Possible(w, op)
  {
    match op
    case Open(f, regular) => w.(files := w.files[f := if regular then Regular else Other])
    case Create(f, fd) => Created(w, f, fd).0
    case Ctl(ef, what, fd, f, ev) => Control(w, ef, what, fd, f, ev).0
    case Pass(e, poll, max) => w.(epolls := w.epolls[e := Passed(w.epolls[e], Looking(poll), max)])
    case Close(f) => Closed(w, f)
  }

  lemma StepKeepsValid(w: World, op: Op)
    requires Valid(w) && Possible(w, op)
    ensures Valid(Step(w, op))
  {
    match op
    case Open(f, regular) => OpenKeepsValid(w, f, if regular then Regular else Other);
    case Create(f, fd) => CreatedKeepsValid(w, f, fd);
    case Ctl(ef, what, fd, f, ev) =>
      if ef.Some? && f.Some? && w.files[ef.value].Nest? {
        ControlKeepsValid(w, w.files[ef.value].e, what, fd, f.value, if ev.Some? then ev.value else Event(0, 0));
      }
    case Pass(e, poll, max) =>
      LookingIsFaithful(poll);
      PassKeepsValid(w, e, Looking(poll), max);
    case Close(f) => ClosedKeepsValid(w, f);
  }

  lemma OpenKeepsValid(w: World, f: nat, kind: Kind)
    requires Valid(w) && f !in w.files && !kind.Nest?
    ensures Valid(w.(files := w.files[f := kind]))
  {
    var w' := w.(files := w.files[f := kind]);
    forall x | 0 <= x < EPOLL_MAX
      ensures Watching(w'.files, w'.epolls[x])
    {
      assert Watching(w.files, w.epolls[x]);
    }
    forall x: nat, i: nat, y: nat | Nests(w', x, i, y)
      ensures Linked(w, x, y)
    {
      assert Watching(w.files, w.epolls[x]);
      assert Nests(w, x, i, y);
    }
    LinksWithin(w, w');
    AcyclicSubset(Links(w), Links(w'));
  }

  function Booted(): World {
    World(seq(EPOLL_MAX, _ => Cleared(false)), map[])
  }

  /** The same, of worlds that may not be tidy, of which there are none. */
  ghost function Next(w: World, op: Op): World {
    if Tidy(w) && Possible(w, op) then Step(w, op) else w
  }

  /** A world that operations, one after the other, lead to from an empty one. */
  ghost predicate Run(ws: seq<World>, ops: seq<Op>) {
    && |ws| == |ops| + 1 && ws[0] == Booted()
    && forall t :: 0 <= t < |ops| ==> Possible(ws[t], ops[t]) && ws[t + 1] == Next(ws[t], ops[t])
  }

  lemma NothingNests()
    ensures Valid(Booted())
  {
    var w := Booted();
    assert forall x: nat, i: nat, y: nat :: !Nests(w, x, i, y);
    assert Links(w) == {};
    forall p: seq<nat>
      ensures |p| >= 2 ==> !Path({}, p)
    {
      NoPath(p);
    }
  }

  lemma NoPath(p: seq<nat>)
    ensures |p| >= 2 ==> !Path({}, p)
  {
    if |p| >= 2 {
      var first: (nat, nat) := (p[0], p[0 + 1]);
      assert first !in {};
    }
  }

  /**
  In every state of every run no set leads back to itself however far the nesting
  goes, and no set watches a file that was closed.
  */
  lemma {:induction false} NestingNeverLoops(ws: seq<World>, ops: seq<Op>, t: nat)
    requires Run(ws, ops) && t <= |ops|
    ensures Valid(ws[t])
  {
    if t == 0 {
      NothingNests();
    } else {
      NestingNeverLoops(ws, ops, t - 1);
      assert ws[t - 1 + 1] == Next(ws[t - 1], ops[t - 1]);
      StepKeepsValid(ws[t - 1], ops[t - 1]);
    }
  }

  /** Between waits on a set, while its file stays open, nothing moves its rotor. */
  lemma OnlyAWaitMovesTheRotor(w: World, op: Op, f: nat)
    requires Valid(w) && Possible(w, op) && f in w.files && w.files[f].Nest?
    requires op != Close(f) && (op.Pass? ==> op.e != w.files[f].e)
    ensures f in Step(w, op).files && Step(w, op).files[f] == w.files[f]
    ensures var e := w.files[f].e;
            e < |w.epolls| && e < |Step(w, op).epolls| && Step(w, op).epolls[e].rotor == w.epolls[e].rotor
  {
    var e := w.files[f].e;
    match op
    case Create(g, fd) => FreeSetIs(w.epolls, |w.epolls|);
    case Ctl(ef, what, fd, g, ev) =>
      if ef.Some? && g.Some? && w.files[ef.value].Nest? {
        ControlKeepsRotors(w, w.files[ef.value].e, what, fd, g.value, if ev.Some? then ev.value else Event(0, 0), e);
      }
    case Close(g) => CloseKeepsRotor(w, g, f);
    case _ =>
  }

  lemma CloseKeepsRotor(w: World, g: nat, f: nat)
    requires Valid(w) && g in w.files && f in w.files && w.files[f].Nest? && f != g
    ensures var e := w.files[f].e; var w' := Closed(w, g);
            f in w'.files && w'.files[f] == w.files[f] && e < |w.epolls| && e < |w'.epolls| && w'.epolls[e].rotor == w.epolls[e].rotor
  {
    var e := w.files[f].e;
    assert w.files[g] != Nest(e);
    assert Closed(w, g).epolls[e] == DroppedFrom(w.epolls[e], g);
  }

  lemma ControlKeepsRotors(w: World, e: nat, op: int, fd: int, f: nat, ev: Event, x: nat)
    requires Tidy(w) && e < EPOLL_MAX && f in w.files && x < EPOLL_MAX
    ensures var w' := ControlSet(w, e, op, fd, f, ev).0;
            |w'.epolls| == EPOLL_MAX && w'.files == w.files && w'.epolls[x].rotor == w.epolls[x].rotor
  {
    var items := w.epolls[e].items;
    FindIs(items, fd, f, |items|);
    FirstFreeIs(items, |items|);
  }

  // ------------------------------------------------------------------
  // No starvation
  // ------------------------------------------------------------------

  predicate WaitsOn(op: Op, e: nat) {
    op.Pass? && op.e == e
  }

  /** How many of the operations from `a` up to `b` are waits on set `e`. */
  function Waits(ops: seq<Op>, e: nat, a: nat, b: nat): nat
    requires a <= b <= |ops|
    decreases b - a
  {
    if a == b then 0 else (if WaitsOn(ops[a], e) then 1 else 0) + Waits(ops, e, a + 1, b)
  }

  /** How far item `j` is from the rotor of its set: less than the size of the table. */
  function Far(w: World, e: nat, j: nat): (n: nat)
    requires j < EPOLL_ITEMS
    ensures n < EPOLL_ITEMS
  {
    if e < |w.epolls| && w.epolls[e].rotor < EPOLL_ITEMS then Distance(w.epolls[e].rotor, j) else 0
  }

  /** The wait finds item `j` ready. */
  ghost predicate Finds(w: World, op: Op, j: nat) {
    op.Pass? && op.e < |w.epolls| && SetFits(w.epolls[op.e]) && j < EPOLL_ITEMS && op.max >= 1
    && Ready(w.epolls[op.e].items[j], Looking(op.poll))
  }

  /** The wait reports it. */
  ghost predicate Reports(w: World, op: Op, j: nat) {
    op.Pass? && op.e < |w.epolls| && SetFits(w.epolls[op.e]) && j in Picks(w.epolls[op.e], Looking(op.poll), op.max)
  }

  /**
  In every run, whatever else is done between them: of the waits on a set that stays
  open, all of which find an item ready, one of the first reports it, no later than
  when the scan has gone once round the table.
  */
  lemma {:induction false} NoStarvation(ws: seq<World>, ops: seq<Op>, f: nat, j: nat, a: nat, b: nat)
    requires Run(ws, ops) && a <= b <= |ops| && j < EPOLL_ITEMS
    requires f in ws[a].files && ws[a].files[f].Nest? && forall t :: a <= t < b ==> ops[t] != Close(f)
    requires forall t :: a <= t < b && WaitsOn(ops[t], ws[a].files[f].e) ==> Finds(ws[t], ops[t], j)
    requires Waits(ops, ws[a].files[f].e, a, b) > Far(ws[a], ws[a].files[f].e, j)
    ensures exists t :: a <= t < b && WaitsOn(ops[t], ws[a].files[f].e) && Reports(ws[t], ops[t], j)
    decreases b - a
  {
    var w, op, e := ws[a], ops[a], ws[a].files[f].e;
    NestingNeverLoops(ws, ops, a);
    assert ws[a + 1] == Next(w, op);
    if WaitsOn(op, e) {
      assert Finds(w, op, j);
      if !Reports(w, op, j) {
        PassedOverComesNearer(w.epolls[e], Looking(op.poll), op.max, j);
        var t := Later(ws, ops, f, j, a, b);
      }
    } else {
      OnlyAWaitMovesTheRotor(w, op, f);
      var t := Later(ws, ops, f, j, a, b);
    }
  }

  /** The rest of the run reports it, by induction. */
  lemma {:induction false} Later(ws: seq<World>, ops: seq<Op>, f: nat, j: nat, a: nat, b: nat) returns (t: nat)
    requires Run(ws, ops) && a < b <= |ops| && j < EPOLL_ITEMS
    requires f in ws[a].files && ws[a].files[f].Nest? && forall t :: a <= t < b ==> ops[t] != Close(f)
    requires forall t :: a <= t < b && WaitsOn(ops[t], ws[a].files[f].e) ==> Finds(ws[t], ops[t], j)
    requires f in ws[a + 1].files && ws[a + 1].files[f] == ws[a].files[f]
    requires Waits(ops, ws[a].files[f].e, a + 1, b) > Far(ws[a + 1], ws[a].files[f].e, j)
    ensures a <= t < b && WaitsOn(ops[t], ws[a].files[f].e) && Reports(ws[t], ops[t], j)
    decreases b - a, 0
  {
    NoStarvation(ws, ops, f, j, a + 1, b);
    t :| a + 1 <= t < b && WaitsOn(ops[t], ws[a].files[f].e) && Reports(ws[t], ops[t], j);
  }

  // ------------------------------------------------------------------
  // What happens to one slot
  // ------------------------------------------------------------------

  function Slot(w: World, e: nat, j: nat): Item {
    if e < |w.epolls| && j < |w.epolls[e].items| then w.epolls[e].items[j] else NO_ITEM
  }

  /** The wait looks at item `j`: it is in use, and fewer are ready before it than there is room for. */
  ghost predicate LooksAt(w: World, op: Op, e: nat, j: nat) {
    && WaitsOn(op, e) && e < |w.epolls| && SetFits(w.epolls[e]) && j < EPOLL_ITEMS && Slot(w, e, j).used
    && |ReadyTo(w.epolls[e].items, Looking(op.poll), w.epolls[e].rotor, Distance(w.epolls[e].rotor, j))| < Clamped(op.max)
  }

  /** An epoll_ctl that adds (1) or modifies (3), and leaves what it names in slot `j` of set `e`. */
  ghost predicate Arms(w: World, op: Op, e: nat, j: nat) {
    && op.Ctl? && (op.op == 1 || op.op == 3) && op.ef.Some? && op.ef.value in w.files && w.files[op.ef.value] == Nest(e)
    && op.file.Some? && Watches(Slot(Next(w, op), e, j), op.fd, op.file.value)
  }

  /** Whatever is done, a slot stays as it is, or is given up, or was looked at, or armed. */
  lemma SlotStep(w: World, op: Op, e: nat, j: nat)
    requires Valid(w) && Possible(w, op) && e < EPOLL_MAX && j < EPOLL_ITEMS
    ensures var it, it' := Slot(w, e, j), Slot(Next(w, op), e, j);
            || it' == it || !it'.used || Arms(w, op, e, j)
            || (LooksAt(w, op, e, j) && it' == Looking(op.poll)(it).item)
  {
    assert SetFits(w.epolls[e]);
    match op
    case Open(f, regular) =>
    case Create(f, fd) => CreateSlot(w, f, fd, e, j);
    case Ctl(ef, what, fd, f, ev) => CtlSlot(w, op, e, j);
    case Pass(x, poll, max) =>
      if x == e {
        PassSlot(w.epolls[e], Looking(poll), max, j);
      }
    case Close(f) => ClosedSet(w, f, e);
  }

  lemma CreateSlot(w: World, f: nat, fd: int, e: nat, j: nat)
    requires Valid(w) && e < EPOLL_MAX && j < EPOLL_ITEMS
    ensures var it, it' := Slot(w, e, j), Slot(Created(w, f, fd).0, e, j); it' == it || !it'.used
  {
    FreeSetIs(w.epolls, |w.epolls|);
  }

  lemma PassSlot(s: Set, look: Look, max: nat, j: nat)
    requires SetFits(s) && j < EPOLL_ITEMS
    ensures var it := s.items[j];
            Passed(s, look, max).items[j]
            == if it.used && |ReadyTo(s.items, look, s.rotor, Distance(s.rotor, j))| < Clamped(max) then look(it).item else it
  {
    ScanLooks(s.items, look, s.rotor, |s.items|, Clamped(max), Distance(s.rotor, j));
    assert At(s.rotor, Distance(s.rotor, j)) == j;
  }

  lemma CtlSlot(w: World, op: Op, e: nat, j: nat)
    requires Valid(w) && Possible(w, op) && op.Ctl? && e < EPOLL_MAX && j < EPOLL_ITEMS
    ensures var it, it' := Slot(w, e, j), Slot(Next(w, op), e, j); it' == it || !it'.used || Arms(w, op, e, j)
  {
    if op.ef.Some? && op.file.Some? && w.files[op.ef.value].Nest? {
      ControlSlot(w, w.files[op.ef.value].e, op.op, op.fd, op.file.value, if op.ev.Some? then op.ev.value else Event(0, 0), e, j);
    }
  }

  lemma ControlSlot(w: World, x: nat, what: int, fd: int, f: nat, ev: Event, e: nat, j: nat)
    requires Sized(w) && x < EPOLL_MAX && f in w.files && e < EPOLL_MAX && j < EPOLL_ITEMS
    ensures var it, it' := Slot(w, e, j), Slot(ControlSet(w, x, what, fd, f, ev).0, e, j);
            it' == it || !it'.used || (x == e && (what == 1 || what == 3) && Watches(it', fd, f))
  {
    assert SetFits(w.epolls[x]);
    FindIs(w.epolls[x].items, fd, f, |w.epolls[x].items|);
    FirstFreeIs(w.epolls[x].items, |w.epolls[x].items|);
  }

  /** Reported items were looked at. */
  lemma ReportedIsLookedAt(w: World, op: Op, e: nat, j: nat)
    requires Reports(w, op, j) && op.e == e && j < EPOLL_ITEMS
    ensures LooksAt(w, op, e, j) && Ready(Slot(w, e, j), Looking(op.poll))
  {
    PickedIsLookedAt(w.epolls[e], Looking(op.poll), Clamped(op.max), j);
  }

  lemma PickedIsLookedAt(s: Set, look: Look, room: nat, j: nat)
    requires SetFits(s) && j < EPOLL_ITEMS && j in Scan(s.items, look, s.rotor, |s.items|, room).picks
    ensures Ready(s.items[j], look) && |ReadyTo(s.items, look, s.rotor, Distance(s.rotor, j))| < room
  {
    var all := ReadyTo(s.items, look, s.rotor, |s.items|);
    ScanPicks(s.items, look, s.rotor, |s.items|, room);
    var n :| 0 <= n < |all| && n < room && all[n] == j;
    ReadyBefore(s.items, look, s.rotor, |s.items|, n);
  }

  /** The nth ready item has n ready before it. */
  lemma {:induction false} ReadyBefore(items: seq<Item>, look: Look, from: nat, k: nat, n: nat)
    requires |items| == EPOLL_ITEMS && from < EPOLL_ITEMS && k <= EPOLL_ITEMS && n < |ReadyTo(items, look, from, k)|
    ensures var j := ReadyTo(items, look, from, k)[n];
            j < EPOLL_ITEMS && Ready(items[j], look) && |ReadyTo(items, look, from, Distance(from, j))| == n
  {
    var before := ReadyTo(items, look, from, k - 1);
    if n < |before| {
      ReadyBefore(items, look, from, k - 1, n);
    } else {
      assert Distance(from, At(from, k - 1)) == k - 1;
    }
  }

  /** Not in use, or a one-shot that has fired. */
  predicate Resting(it: Item) {
    !it.used || it.disabled
  }

  lemma RestingStays(it: Item, poll: Poll)
    requires Resting(it)
    ensures Resting(Looking(poll)(it).item) && !Ready(it, Looking(poll))
  {
  }

  lemma RestsUntilArmed(ws: seq<World>, ops: seq<Op>, e: nat, j: nat, a: nat, b: nat)
    requires Run(ws, ops) && a <= b <= |ops| && e < EPOLL_MAX && j < EPOLL_ITEMS && Resting(Slot(ws[a], e, j))
    requires forall t :: a <= t < b ==> !Arms(ws[t], ops[t], e, j)
    ensures Resting(Slot(ws[b], e, j))
  {
    var rests := (w: World) => Resting(Slot(w, e, j));
    forall t | a <= t < b && rests(ws[t])
      ensures rests(ws[t + 1])
    {
      RestStep(ws, ops, e, j, t);
    }
    Persists(ws, rests, a, b);
  }

  lemma RestStep(ws: seq<World>, ops: seq<Op>, e: nat, j: nat, t: nat)
    requires Run(ws, ops) && t < |ops| && e < EPOLL_MAX && j < EPOLL_ITEMS
    requires Resting(Slot(ws[t], e, j)) && !Arms(ws[t], ops[t], e, j)
    ensures Resting(Slot(ws[t + 1], e, j))
  {
    NestingNeverLoops(ws, ops, t);
    SlotStep(ws[t], ops[t], e, j);
    if ops[t].Pass? {
      RestingStays(Slot(ws[t], e, j), ops[t].poll);
    }
  }

  /** In every run, between two waits that report a one-shot item its slot is armed again by an epoll_ctl. */
  lemma OneShotOnce(ws: seq<World>, ops: seq<Op>, e: nat, j: nat, a: nat, b: nat)
    requires Run(ws, ops) && a < b < |ops| && e < EPOLL_MAX && j < EPOLL_ITEMS
    requires WaitsOn(ops[a], e) && Reports(ws[a], ops[a], j) && OneShot(Slot(ws[a], e, j))
    requires WaitsOn(ops[b], e) && Reports(ws[b], ops[b], j)
    ensures exists t :: a < t < b && Arms(ws[t], ops[t], e, j)
  {
    ReportedIsLookedAt(ws[a], ops[a], e, j);
    ReportedIsLookedAt(ws[b], ops[b], e, j);
    NestingNeverLoops(ws, ops, a);
    assert ws[a + 1] == Next(ws[a], ops[a]);
    PassSlot(ws[a].epolls[e], Looking(ops[a].poll), ops[a].max, j);
    ReportedRests(Slot(ws[a], e, j), ops[a].poll);
    if forall t :: a < t < b ==> !Arms(ws[t], ops[t], e, j) {
      RestsUntilArmed(ws, ops, e, j, a + 1, b);
      RestingStays(Slot(ws[b], e, j), ops[b].poll);
      assert false;
    }
  }

  lemma ReportedRests(it: Item, poll: Poll)
    requires OneShot(it) && Ready(it, Looking(poll))
    ensures Resting(Looking(poll)(it).item)
  {
    OneShotRests(it, Got(it, poll(it.file)), 0);
  }

  lemma KeptUntilLookedAt(ws: seq<World>, ops: seq<Op>, e: nat, j: nat, a: nat, b: nat)
    requires Run(ws, ops) && a <= b <= |ops| && e < EPOLL_MAX && j < EPOLL_ITEMS
    requires forall t :: a <= t < b ==> !Arms(ws[t], ops[t], e, j) && !LooksAt(ws[t], ops[t], e, j)
    ensures Slot(ws[b], e, j) == Slot(ws[a], e, j) || !Slot(ws[b], e, j).used
  {
    var it := Slot(ws[a], e, j);
    var kept := (w: World) => Slot(w, e, j) == it || !Slot(w, e, j).used;
    forall t | a <= t < b && kept(ws[t])
      ensures kept(ws[t + 1])
    {
      KeptStep(ws, ops, e, j, t);
    }
    Persists(ws, kept, a, b);
  }

  lemma {:induction false} Persists(ws: seq<World>, p: World -> bool, a: nat, b: nat)
    requires a <= b < |ws| && p(ws[a])
    requires forall t :: a <= t < b && p(ws[t]) ==> p(ws[t + 1])
    ensures p(ws[b])
    decreases b - a
  {
    if a < b {
      Persists(ws, p, a, b - 1);
      assert p(ws[b - 1]) ==> p(ws[b - 1 + 1]);
    }
  }

  lemma KeptStep(ws: seq<World>, ops: seq<Op>, e: nat, j: nat, t: nat)
    requires Run(ws, ops) && t < |ops| && e < EPOLL_MAX && j < EPOLL_ITEMS
    requires !Arms(ws[t], ops[t], e, j) && !LooksAt(ws[t], ops[t], e, j)
    ensures Slot(ws[t + 1], e, j) == Slot(ws[t], e, j) || !Slot(ws[t + 1], e, j).used
  {
    NestingNeverLoops(ws, ops, t);
    SlotStep(ws[t], ops[t], e, j);
  }

  /**
  In every run, an edge-triggered item that a wait looked at and a later one, the next
  to look at it and with no epoll_ctl for it in between, reports: it has something it
  did not have at the look before.
  */
  lemma EdgeOnlyWhenNew(ws: seq<World>, ops: seq<Op>, e: nat, j: nat, a: nat, b: nat)
    requires Run(ws, ops) && a < b < |ops| && e < EPOLL_MAX && j < EPOLL_ITEMS
    requires LooksAt(ws[a], ops[a], e, j) && EdgeTriggered(Slot(ws[a], e, j))
    requires WaitsOn(ops[b], e) && Reports(ws[b], ops[b], j)
    requires forall t :: a < t < b ==> !Arms(ws[t], ops[t], e, j) && !LooksAt(ws[t], ops[t], e, j)
    ensures var it := Slot(ws[a], e, j);
            exists x :: Gained(Got(it, ops[a].poll(it.file)), Got(it, ops[b].poll(it.file)), x)
  {
    ReportedIsLookedAt(ws[b], ops[b], e, j);
    NestingNeverLoops(ws, ops, a);
    assert ws[a + 1] == Next(ws[a], ops[a]);
    PassSlot(ws[a].epolls[e], Looking(ops[a].poll), ops[a].max, j);
    KeptUntilLookedAt(ws, ops, e, j, a + 1, b);
    assert Slot(ws[b], e, j) == Looking(ops[a].poll)(Slot(ws[a], e, j)).item;
    NextLookTells(Slot(ws[a], e, j), ops[a].poll, ops[b].poll);
  }

  lemma NextLookTells(it: Item, poll: Poll, later: Poll)
    requires EdgeTriggered(it) && Ready(Looking(poll)(it).item, Looking(later))
    ensures exists x :: Gained(Got(it, poll(it.file)), Got(it, later(it.file)), x)
  {
    var it', got, now := Looked(it, poll(it.file)), Got(it, poll(it.file)), Got(it, later(it.file));
    assert it'.file == it.file;
    SameGot(it, poll(it.file), later(it.file));
    EdgeTellsNow(it, got, now);
  }

  lemma EdgeTellsNow(it: Item, got: bv32, now: bv32)
    requires EdgeTriggered(it) && Told(Left(it, got), now) != 0
    ensures exists x :: Gained(got, now, x)
  {
    if !Left(it, got).disabled {
      EdgeTells(it, got, now);
    }
  }

  // ------------------------------------------------------------------
  // The kernel's code
  // ------------------------------------------------------------------

  /** A full pass picks no more. */
  lemma {:induction false} ScanFull(was: seq<Item>, look: Look, from: nat, k: nat, n: nat, room: nat)
    requires |was| == EPOLL_ITEMS && from < EPOLL_ITEMS && k <= n <= EPOLL_ITEMS
    requires n == k || |Scan(was, look, from, k, room).out| >= room
    ensures Scan(was, look, from, n, room) == Scan(was, look, from, k, room)
  {
    if k < n {
      ScanFull(was, look, from, k, n - 1, room);
    }
  }

  class Events {
    var epolls: seq<Set>
    var files: map<nat, Kind>

    function State(): World
      reads this
    {
      World(epolls, files)
    }

    constructor ()
      ensures State() == Booted() && Valid(State())
    {
      epolls := seq(EPOLL_MAX, _ => Cleared(false));
      files := map[];
      NothingNests();
    }

    method EpReaches(x: nat, target: nat, depth: nat) returns (r: bool)
      requires Tidy(State()) && x < EPOLL_MAX && depth <= 5
      ensures r == Found(Links(State()), x, target, 5 - depth)
      decreases 5 - depth
    {
      if x == target {
        return true;
      }
      if depth > 4 {
        return true;
      }
      for i := 0 to EPOLL_ITEMS
        invariant forall j: nat, y: nat :: j < i && Nests(State(), x, j, y) ==> !Found(Links(State()), y, target, 4 - depth)
      {
        var it := epolls[x].items[i];
        assert SetFits(epolls[x]) && Watching(files, epolls[x]);
        if it.used && files[it.file].Nest? {
          var y := files[it.file].e;
          assert Nests(State(), x, i, y);
          var deeper := EpReaches(y, target, depth + 1);
          if deeper {
            assert (x, y) in Links(State());
            return true;
          }
        }
      }
      return false;
    }

    method EpollCreate(flags: bv32, f: nat, fd: int) returns (r: int)
      requires Valid(State()) && f !in files
      modifies this
      ensures flags & !O_CLOEXEC != 0 ==> State() == old(State()) && r == -EINVAL
      ensures flags & !O_CLOEXEC == 0 ==> (State(), r) == Created(old(State()), f, fd)
      ensures Valid(State())
    {
      if flags & !O_CLOEXEC != 0 {
        return -EINVAL;
      }
      r := CreateSet(f, fd);
    }

    /** The rest, once the flags are known to be good; `fd` is the descriptor it gets, or why it gets none. */
    method CreateSet(f: nat, fd: int) returns (r: int)
      requires Valid(State()) && f !in files
      modifies this
      ensures (State(), r) == Created(old(State()), f, fd) && Valid(State())
    {
      var e := 0;
      while e < EPOLL_MAX && epolls[e].used
        invariant e <= EPOLL_MAX && State() == old(State()) && FreeSet(epolls, e) == EPOLL_MAX
      {
        e := e + 1;
      }
      CreatedKeepsValid(State(), f, fd);
      if e == EPOLL_MAX {
        return -ENFILE;
      }
      FreeSetFirst(epolls, e, |epolls|);
      epolls := epolls[e := Cleared(true)];
      if fd < 0 {
        epolls := epolls[e := Cleared(false)];
        assert epolls == old(epolls)[e := Cleared(false)];
      } else {
        files := files[f := Nest(e)];
      }
      return fd;
    }
  
    method EpollCtl(ef: Option<nat>, op: int, fd: int, f: Option<nat>, ev: Option<Event>) returns (r: int)
      requires Valid(State()) && (ef.Some? ==> ef.value in files) && (f.Some? ==> f.value in files)
      modifies this`epolls
      ensures (State(), r) == Control(old(State()), ef, op, fd, f, ev) && Valid(State())
    {
      StepKeepsValid(State(), Ctl(ef, op, fd, f, ev));
      if ef.None? || f.None? {
        return -EBADF;
      }
      if !files[ef.value].Nest? || ef == f {
        return -EINVAL;
      }
      var e := files[ef.value].e;
      var event := Event(0, 0);
      if op != CTL_DEL {
        if ev.None? {
          return -EFAULT;
        }
        event := ev.value;
      }
      if files[f.value].Regular? {
        return -EPERM;
      }
      r := CtlSet(e, op, fd, f.value, event);
    }

    /** The set is found: look for the item and change it. */
    method CtlSet(e: nat, op: int, fd: int, f: nat, ev: Event) returns (r: int)
      requires Tidy(State()) && e < EPOLL_MAX && f in files
      modifies this`epolls
      ensures (State(), r) == ControlSet(old(State()), e, op, fd, f, ev)
    {
      var items := epolls[e].items;
      assert SetFits(epolls[e]);
      var it, free := EPOLL_ITEMS, EPOLL_ITEMS;
      for i := 0 to EPOLL_ITEMS
        invariant it == Find(items, fd, f, i) && free == FirstFree(items, i)
      {
        if Watches(items[i], fd, f) {
          it := i;
        } else if !items[i].used && free == EPOLL_ITEMS {
          free := i;
        }
      }
      FindIs(items, fd, f, |items|);
      FirstFreeIs(items, |items|);
      if op == CTL_ADD {
        if it < EPOLL_ITEMS {
          return -EEXIST;
        }
        if free == EPOLL_ITEMS {
          return -ENOSPC;
        }
        if files[f].Nest? {
          var loops := EpReaches(files[f].e, e, 0);
          if loops {
            return -ELOOP;
          }
        }
        SetItem(e, free, Item(true, fd, f, ev.events, ev.data, 0, false));
      } else if op == CTL_MOD {
        if it == EPOLL_ITEMS {
          return -ENOENT;
        }
        if ev.events & EPOLLEXCLUSIVE != 0 {
          return -EINVAL;
        }
        SetItem(e, it, items[it].(events := ev.events, data := ev.data, disabled := false, last := 0));
      } else if op == CTL_DEL {
        if it == EPOLL_ITEMS {
          return -ENOENT;
        }
        SetItem(e, it, items[it].(used := false));
      } else {
        return -EINVAL;
      }
      return 0;
    }

    method SetItem(e: nat, i: nat, it: Item)
      requires e < |epolls| && i < |epolls[e].items|
      modifies this`epolls
      ensures State() == WithItem(old(State()), e, i, it)
    {
      epolls := epolls[e := epolls[e].(items := epolls[e].items[i := it])];
    }

    /** ep_check, `bits` being how the file polls. */
    method EpCheck(it: Item, bits: bv32, consume: bool) returns (it': Item, r: bv32)
      ensures r == Check(it, bits) && it' == if consume then Consumed(it, bits) else it
    {
      var got := Polled(it, bits);
      it', r := Tell(it, got, consume);
    }

    method Polled(it: Item, bits: bv32) returns (got: bv32)
      ensures got == Got(it, bits)
    {
      var p := bits & 0xffff;
      if p & POLLIN != 0 {
        p := p | EPOLLRDNORM;
      }
      if p & POLLOUT != 0 {
        p := p | EPOLLWRNORM;
      }
      got := p & (it.events | EPOLLERR | EPOLLHUP);
    }

    method Tell(it: Item, got: bv32, consume: bool) returns (it': Item, r: bv32)
      ensures r == Told(it, got) && it' == if consume then Used(it, got) else it
    {
      it' := it;
      if it.disabled || got == 0 {
        if consume {
          it' := it'.(last := got);
        }
        return it', 0;
      }
      if EdgeTriggered(it) {
        var gained := Adds(it.last, got);
        if consume {
          it' := it'.(last := got);
        }
        return it', if gained then got else 0;
      }
      return it', got;
    }

    /** One item of the scan. */
    method LookAt(it: Item, bits: bv32) returns (seen: Seen)
      ensures seen == Seen(Looked(it, bits), Check(it, bits))
    {
      var it', r := EpCheck(it, bits, true);
      if r != 0 && OneShot(it') {
        it' := it'.(disabled := true);
      }
      return Seen(it', r);
    }

    /** One pass of epoll_wait over a set while files poll as `poll` says: what it reports, and what it leaves behind. */
    method EpWaitPass(e: nat, poll: Poll, max: nat) returns (out: seq<Report>)
      requires Valid(State()) && e < EPOLL_MAX && max >= 1
      modifies this`epolls
      ensures SetFits(old(epolls[e])) && Valid(State())
      ensures epolls == old(epolls[e := Passed(epolls[e], Looking(poll), max)])
      ensures ReportsTell(old(epolls[e].items), Looking(poll), Picks(old(epolls[e]), Looking(poll), max), out)
    {
      ghost var look := Looking(poll);
      LookingIsFaithful(poll);
      PassKeepsValid(State(), e, look, max);
      ScanReports(epolls[e].items, look, epolls[e].rotor, |epolls[e].items|, Clamped(max));
      var items, rotor;
      items, rotor, out := ScanItems(epolls[e].items, poll, epolls[e].rotor, Clamped(max), look);
      epolls := epolls[e := Set(epolls[e].used, rotor, items)];
    }

    method ScanItems(was: seq<Item>, poll: Poll, from: nat, room: nat, ghost look: Look)
      returns (items: seq<Item>, rotor: nat, out: seq<Report>)
      requires |was| == EPOLL_ITEMS && from < EPOLL_ITEMS && look == Looking(poll)
      ensures var s := Scan(was, look, from, |was|, room);
              items == s.items && out == s.out && rotor == NextRotor(from, s.picks)
    {
      items, rotor, out := was, from, [];
      ghost var picks: seq<nat> := [];
      var k := 0;
      while k < EPOLL_ITEMS && |out| < room
        invariant k <= EPOLL_ITEMS && Scanned(items, picks, out) == Scan(was, look, from, k, room)
        invariant rotor == NextRotor(from, picks)
      {
        var i := At(from, k);
        var it := items[i];
        k := k + 1;
        if it.used {
          var seen := LookAt(it, poll(it.file));
          assert seen == look(it);
          items := items[i := seen.item];
          if seen.bits != 0 {
            out := out + [Report(seen.bits, it.data)];
            picks := picks + [i];
            rotor := At(i, 1);
          }
        }
      }
      ScanFull(was, look, from, k, |was|, room);
    }

    /** Nothing goes on watching a file whose last reference has gone. */
    method FileGone(f: nat)
      requires Sized(State())
      modifies this`epolls
      ensures epolls == DroppedAll(old(epolls), f)
    {
      for e := 0 to EPOLL_MAX
        invariant |epolls| == EPOLL_MAX
        invariant forall x :: 0 <= x < EPOLL_MAX ==>
                    epolls[x] == if x < e then DroppedFrom(old(epolls[x]), f) else old(epolls[x])
      {
        if epolls[e].used {
          DropFrom(e, f);
        }
      }
    }

    method DropFrom(e: nat, f: nat)
      requires e < |epolls| && epolls[e].used && SetFits(epolls[e])
      modifies this`epolls
      ensures epolls == old(epolls[e := DroppedFrom(epolls[e], f)])
    {
      var items := epolls[e].items;
      for i := 0 to EPOLL_ITEMS
        invariant |items| == EPOLL_ITEMS
        invariant forall j :: 0 <= j < EPOLL_ITEMS ==>
                    items[j] == if j < i then Dropped(epolls[e].items, f)[j] else epolls[e].items[j]
      {
        if items[i].used && items[i].file == f {
          items := items[i := items[i].(used := false)];
        }
      }
      assert items == Dropped(epolls[e].items, f);
      epolls := epolls[e := epolls[e].(items := items)];
    }

    /** The last reference to a file goes. */
    method FilePut(f: nat)
      requires Valid(State()) && f in files
      modifies this
      ensures State() == Closed(old(State()), f) && Valid(State())
    {
      ClosedKeepsValid(State(), f);
      FileGone(f);
      if files[f].Nest? {
        epolls := epolls[files[f].e := Cleared(false)];
      }
      files := files - {f};
    }
  }
}
