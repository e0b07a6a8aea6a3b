/**
Timer descriptors (kernel/events.c), which count their expirations only when
somebody looks, against a counter that is stepped at every tick.
*/
module TimerFd {
  import opened Basics

  const HALF: int := 0x8000_0000

  // ------------------------------------------------------------------
  // A counter stepped at every tick, on a clock that never wraps
  // ------------------------------------------------------------------

  datatype Counter = Counter(armed: bool, due: nat, interval: nat, fired: nat)

  function Expire(c: Counter): Counter {
    if c.interval > 0 then c.(due := c.due + c.interval, fired := c.fired + 1)
    else c.(armed := false, fired := c.fired + 1)
  }

  /** The tick at time `t`. */
  function Tick(c: Counter, t: nat): Counter {
    if c.armed && c.due == t then Expire(c) else c
  }

  /** The ticks after `from`, up to and with `now`. */
  function Ticked(c: Counter, from: int, now: nat): Counter
    requires -1 <= from <= now
    decreases now - from
  {
    if from == now then c else if now == 0 then Tick(c, 0) else Tick(Ticked(c, from, now - 1), now)
  }

  // ------------------------------------------------------------------
  // Many expirations at once
  // ------------------------------------------------------------------

  /** How often a period `i` begins in `x` ticks, the first at once. */
  function Times(x: nat, i: nat): (n: nat)
    requires i > 0
  {
    x / i + 1
  }

  lemma TimesBounds(x: nat, i: nat)
    requires i > 0
    ensures (Times(x, i) - 1) * i <= x < Times(x, i) * i
  {
  }

  lemma TimesUnique(x: nat, i: nat, n: nat)
    requires i > 0 && n > 0 && (n - 1) * i <= x < n * i
    ensures Times(x, i) == n
  {
    TimesBounds(x, i);
    var m := Times(x, i);
    if m < n {
      Scaled(m, n - 1, i);
    } else if n < m {
      Scaled(n, m - 1, i);
    }
  }

  /** Everything due by `now`, counted at once. */
  function Caught(c: Counter, now: nat): Counter {
    if !c.armed || c.due > now then c
    else if c.interval > 0 then
      var n := Times(now - c.due, c.interval);
      c.(due := c.due + n * c.interval, fired := c.fired + n)
    else Expire(c)
  }

  /** Afterwards an armed timer is due later. */
  lemma CaughtIsAhead(c: Counter, now: nat)
    ensures Caught(c, now).armed ==> Caught(c, now).due > now
    ensures Caught(c, now).interval == c.interval
    ensures Caught(c, now).armed && c.due <= now ==> Caught(c, now).due <= now + c.interval
  {
    if c.armed && c.due <= now && c.interval > 0 {
      TimesBounds(now - c.due, c.interval);
    }
  }

  lemma CaughtNextTick(c: Counter, now: nat)
    requires now > 0
    ensures Caught(c, now) == Tick(Caught(c, now - 1), now)
  {
    if c.armed && c.due < now && c.interval > 0 {
      var i, x := c.interval, now - 1 - c.due;
      var n := Times(x, i);
      TimesBounds(x, i);
      if n * i == x + 1 {
        assert (n + 1) * i == n * i + i;
        TimesUnique(x + 1, i, n + 1);
      } else {
        TimesUnique(x + 1, i, n);
      }
    } else if c.armed && c.due == now && c.interval > 0 {
      TimesUnique(0, c.interval, 1);
    }
  }

  /** Counting at once counts what the ticks would have. */
  lemma {:induction false} CaughtIsTicked(c: Counter, from: int, now: nat)
    requires -1 <= from <= now && (c.armed ==> c.due > from)
    ensures Caught(c, now) == Ticked(c, from, now)
    decreases now - from
  {
    if from < now {
      if now == 0 {
        if c.armed && c.due == 0 && c.interval > 0 {
          TimesUnique(0, c.interval, 1);
        }
      } else {
        CaughtIsTicked(c, from, now - 1);
        CaughtNextTick(c, now);
      }
    }
  }

  // ------------------------------------------------------------------
  // The kernel's timer, on a 32-bit clock
  // ------------------------------------------------------------------

  datatype Timer = Timer(armed: bool, next: u32, interval: u32, fired: nat)

  function Wrap(x: int): u32 {
    x % WORD
  }

  /** A word read as a signed number. */
  function Signed(x: u32): int {
    if x < HALF then x else x - WORD
  }

  function CaughtUp(t: Timer, jiffies: u32): Timer {
    var late := Signed(Wrap(jiffies - t.next));
    if !t.armed || late < 0 then t
    else if t.interval > 0 then
      var n := late / t.interval + 1;
      t.(fired := t.fired + n, next := Wrap(t.next + n * t.interval))
    else t.(fired := t.fired + 1, armed := false)
  }

  /** The timer stands for the counter. */
  predicate Stands(t: Timer, c: Counter) {
    t.armed == c.armed && t.interval == c.interval && t.fired == c.fired && (t.armed ==> t.next == Wrap(c.due))
  }

  lemma WrapIs(x: int, r: u32, k: int)
    requires x == k * WORD + r
    ensures Wrap(x) == r
  {
  }

  /** How late a look is, whatever the clock has wrapped to. */
  lemma LatenessWraps(now: int, due: int)
    ensures Wrap(Wrap(now) - Wrap(due)) == Wrap(now - due)
  {
    var x, k := Wrap(now) - Wrap(due), due / WORD - now / WORD;
    assert now - due == x - k * WORD;
    if x >= 0 {
      WrapIs(now - due, x, -k);
      WrapIs(x, x, 0);
    } else {
      WrapIs(now - due, x + WORD, -k - 1);
      WrapIs(x, x + WORD, -1);
    }
  }

  /** A look within half the clock of what is due sees how late it is. */
  lemma LatenessSigned(now: int, due: int)
    requires now - due < HALF && due - now <= HALF
    ensures Signed(Wrap(Wrap(now) - Wrap(due))) == now - due
  {
    LatenessWraps(now, due);
    if now >= due {
      WrapIs(now - due, now - due, 0);
    } else {
      WrapIs(now - due, now - due + WORD, -1);
    }
  }

  lemma NextWraps(due: nat, more: nat)
    ensures Wrap(Wrap(due) + more) == Wrap(due + more)
  {
    var r := Wrap(due + more);
    var k := (due + more) / WORD - due / WORD;
    WrapIs(Wrap(due) + more, r, k);
  }

  /** A look neither half the clock late nor half the clock early. */
  predicate InReach(c: Counter, now: nat) {
    c.armed ==> now - c.due < HALF && c.due - now <= HALF
  }

  lemma LookCatchesUp(t: Timer, c: Counter, now: nat)
    requires Stands(t, c) && InReach(c, now)
    ensures Stands(CaughtUp(t, Wrap(now)), Caught(c, now))
  {
    if c.armed {
      LatenessSigned(now, c.due);
      if c.due <= now && c.interval > 0 {
        CaughtUpTimes(t, c, now);
      }
    }
  }

  lemma CaughtUpTimes(t: Timer, c: Counter, now: nat)
    requires Stands(t, c) && c.armed && c.due <= now && c.interval > 0
    requires Signed(Wrap(Wrap(now) - t.next)) == now - c.due
    ensures Stands(CaughtUp(t, Wrap(now)), Caught(c, now))
  {
    var n := Times(now - c.due, c.interval);
    NextWraps(c.due, n * c.interval);
  }

  /** What has to hold of a look for it to show what the ticks would. */
  predicate Shows(c: Counter, now: nat) {
    c.armed ==>
      if c.due > now then Wrap(now - c.due) >= HALF
      else if c.interval > 0 then now - c.due < HALF
      else Wrap(now - c.due) < HALF
  }

  /** An interval timer looked at half the clock or more too late counts too few expiries. */
  lemma LooksLate(t: Timer, c: Counter, now: nat, x: nat)
    requires Stands(t, c) && c.armed && c.interval > 0 && c.due + x == now && x >= HALF
    ensures !Stands(CaughtUp(t, Wrap(now)), Caught(c, now))
  {
    LatenessWraps(now, c.due);
    var n := Times(x, c.interval);
    TimesBounds(x, c.interval);
    assert Caught(c, now).fired == c.fired + n && n > 0;
    if Wrap(x) < HALF {
      TimesGrow(Wrap(x), x, c.interval);
      assert CaughtUp(t, Wrap(now)).fired == t.fired + Times(Wrap(x), c.interval);
    } else {
      assert CaughtUp(t, Wrap(now)).fired == t.fired;
    }
  }

  /** A look is right exactly when it comes in time: a periodic timer left for half the clock loses expirations. */
  lemma LookIsRightExactlyWhen(t: Timer, c: Counter, now: nat)
    requires Stands(t, c)
    ensures Stands(CaughtUp(t, Wrap(now)), Caught(c, now)) <==> Shows(c, now)
  {
    if c.armed {
      LatenessWraps(now, c.due);
      if c.due <= now && c.interval > 0 {
        var x := now - c.due;
        if x < HALF {
          LookCatchesUp(t, c, now);
        } else {
          LooksLate(t, c, now, x);
        }
      }
    }
  }

  lemma TimesGrow(a: nat, b: nat, i: nat)
    requires i > 0 && a + i <= b
    ensures Times(a, i) < Times(b, i)
  {
    TimesBounds(a, i);
    TimesBounds(b, i);
    assert (Times(a, i) - 1) * i == Times(a, i) * i - i;
    if Times(b, i) <= Times(a, i) {
      Scaled(Times(b, i), Times(a, i), i);
    }
  }

  // ------------------------------------------------------------------
  // Looks, one after the other
  // ------------------------------------------------------------------

  /** A look at a time, which may be a read: a read takes what has fired. */
  datatype Look = Look(at: nat, read: bool)

  /** What a look leaves, and what it saw to have fired. */
  function LookTimer(t: Timer, l: Look): (Timer, nat) {
    var t' := CaughtUp(t, Wrap(l.at));
    (if l.read then t'.(fired := 0) else t', t'.fired)
  }

  function LookCounter(c: Counter, from: int, l: Look): (Counter, nat)
    requires -1 <= from <= l.at
  {
    var c' := Ticked(c, from, l.at);
    (if l.read then c'.(fired := 0) else c', c'.fired)
  }

  /** Looks in order, the first after `from`, each less than half the clock after what is then due. */
  predicate Looked(c: Counter, from: int, looks: seq<Look>)
    requires from >= -1
    decreases |looks|
  {
    looks != [] ==>
      && from <= looks[0].at && InReach(c, looks[0].at)
      && Looked(LookCounter(c, from, looks[0]).0, looks[0].at, looks[1..])
  }

  function SeenOnTimer(t: Timer, looks: seq<Look>): seq<nat>
    decreases |looks|
  {
    if looks == [] then [] else [LookTimer(t, looks[0]).1] + SeenOnTimer(LookTimer(t, looks[0]).0, looks[1..])
  }

  function SeenOnCounter(c: Counter, from: int, looks: seq<Look>): seq<nat>
    requires from >= -1 && Looked(c, from, looks)
    decreases |looks|
  {
    if looks == [] then []
    else [LookCounter(c, from, looks[0]).1] + SeenOnCounter(LookCounter(c, from, looks[0]).0, looks[0].at, looks[1..])
  }

  function TimerAfter(t: Timer, looks: seq<Look>): Timer
    decreases |looks|
  {
    if looks == [] then t else TimerAfter(LookTimer(t, looks[0]).0, looks[1..])
  }

  function CounterAfter(c: Counter, from: int, looks: seq<Look>): Counter
    requires from >= -1 && Looked(c, from, looks)
    decreases |looks|
  {
    if looks == [] then c else CounterAfter(LookCounter(c, from, looks[0]).0, looks[0].at, looks[1..])
  }

  /**
  Whenever it is looked at, a timer shows what a counter stepped at every tick would,
  and ends as it does: the same expirations, still to come at the same time, armed or not.
  */
  lemma {:induction false} LazyIsEager(t: Timer, c: Counter, from: int, looks: seq<Look>)
    requires from >= -1 && Stands(t, c) && (c.armed ==> c.due > from) && Looked(c, from, looks)
    ensures SeenOnTimer(t, looks) == SeenOnCounter(c, from, looks)
    ensures Stands(TimerAfter(t, looks), CounterAfter(c, from, looks))
    decreases |looks|
  {
    if looks != [] {
      var l := looks[0];
      LookCatchesUp(t, c, l.at);
      CaughtIsTicked(c, from, l.at);
      CaughtIsAhead(c, l.at);
      LazyIsEager(LookTimer(t, l).0, LookCounter(c, from, l).0, l.at, looks[1..]);
    }
  }

  /** After a look an armed timer is due in the future, on the 32-bit clock too. */
  lemma LookedAtIsAhead(t: Timer, c: Counter, now: nat)
    requires Stands(t, c) && InReach(c, now) && c.interval <= HALF
    ensures var t' := CaughtUp(t, Wrap(now));
            t'.armed ==> Signed(Wrap(Wrap(now) - t'.next)) < 0
  {
    LookCatchesUp(t, c, now);
    CaughtIsAhead(c, now);
    if Caught(c, now).armed {
      LatenessSigned(now, Caught(c, now).due);
    }
  }

  // ------------------------------------------------------------------
  // The kernel's code
  // ------------------------------------------------------------------

  class Descriptor {
    var armed: bool
    var next: u32
    var interval: u32
    var fired: nat

    function State(): Timer
      reads this
    {
      Timer(armed, next, interval, fired)
    }

    constructor ()
      ensures State() == Timer(false, 0, 0, 0)
    {
      armed, next, interval, fired := false, 0, 0, 0;
    }

    method CatchUp(jiffies: u32)
      modifies this
      ensures State() == CaughtUp(old(State()), jiffies)
      ensures forall c, now: nat :: Stands(old(State()), c) && InReach(c, now) && jiffies == Wrap(now)
                ==> Stands(State(), Caught(c, now))
    {
      forall c, now: nat | Stands(State(), c) && InReach(c, now) && jiffies == Wrap(now)
        ensures Stands(CaughtUp(State(), jiffies), Caught(c, now))
      {
        LookCatchesUp(State(), c, now);
      }
      if !armed {
        return;
      }
      var late := Signed(Wrap(jiffies - next));
      if late < 0 {
        return;
      }
      if interval > 0 {
        var n := late / interval + 1;
        fired := fired + n;
        next := Wrap(next + n * interval);
      } else {
        fired := fired + 1;
        armed := false;
      }
    }

    /**
    A read that wakes at these times, until something has fired or waiting fails; `k` is
    how often it looked. Its looks are reads, all but the last of nothing.
    */
    method Read(len: nat, times: seq<nat>) returns (r: ReadResult, k: nat)
      modifies this
      ensures len < 8 ==> r == TooShort && State() == old(State())
      ensures len >= 8 ==> k <= |times| && Ended(old(State()), times[..k], State(), r) && (r == GaveUp ==> k == |times|)
    {
      k := 0;
      if len < 8 {
        return TooShort, k;
      }
      while k < |times|
        invariant k <= |times| && Ended(old(State()), times[..k], State(), GaveUp) && (k > 0 ==> fired == 0)
      {
        LooksOnce(old(State()), times, k);
        CatchUp(Wrap(times[k]));
        k := k + 1;
        if fired > 0 {
          r := Expired(fired);
          fired := 0;
          return r, k;
        }
      }
      return GaveUp, k;
    }
  }

  datatype ReadResult = TooShort | GaveUp | Expired(count: nat)

  function Reads(times: seq<nat>): (looks: seq<Look>)
    ensures |looks| == |times|
  {
    if times == [] then [] else Reads(times[..|times| - 1]) + [Look(times[|times| - 1], true)]
  }

  /** Looks at these times, all but the last seeing nothing, leave `t'`; the last saw `r`. */
  ghost predicate Ended(t: Timer, times: seq<nat>, t': Timer, r: ReadResult) {
    && r != TooShort && (r.Expired? ==> times != [] && r.count > 0) && TimerAfter(t, Reads(times)) == t'
    && SeenOnTimer(t, Reads(times)) == if r.Expired? && times != [] then Repeat(0, |times| - 1) + [r.count] else Repeat(0, |times|)
  }

  lemma {:induction false} OneMoreLook(t: Timer, looks: seq<Look>, l: Look)
    ensures var before := TimerAfter(t, looks);
            && TimerAfter(t, looks + [l]) == LookTimer(before, l).0
            && SeenOnTimer(t, looks + [l]) == SeenOnTimer(t, looks) + [LookTimer(before, l).1]
    decreases |looks|
  {
    if looks == [] {
      assert looks + [l] == [l] && [l][1..] == [];
    } else {
      assert (looks + [l])[1..] == looks[1..] + [l];
      OneMoreLook(LookTimer(t, looks[0]).0, looks[1..], l);
    }
  }

  lemma LooksOnce(t: Timer, times: seq<nat>, k: nat)
    requires k < |times|
    ensures var before, l := TimerAfter(t, Reads(times[..k])), Look(times[k], true);
            && TimerAfter(t, Reads(times[..k + 1])) == LookTimer(before, l).0
            && SeenOnTimer(t, Reads(times[..k + 1])) == SeenOnTimer(t, Reads(times[..k])) + [LookTimer(before, l).1]
  {
    assert times[..k + 1][..k] == times[..k];
    OneMoreLook(t, Reads(times[..k]), Look(times[k], true));
  }
}
