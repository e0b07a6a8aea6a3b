/**
The queue of an inotify instance (kernel/events.c): variable-length records
back to back in one page, against a bounded queue of events.
*/
module Inotify {
  import opened Basics
  import opened BigEndian

  const IQ_SIZE: nat := 4096
  const RECORD: nat := 16             // a record before its name
  const IN_Q_OVERFLOW: u32 := 0x4000

  /** An event; a name is a C string, so it holds no NUL, and [] stands for none. */
  datatype Event = Event(wd: u32, mask: u32, cookie: u32, name: seq<byte>)

  /** What a queue that is full ends in: watch -1 tells it from every event. */
  const MARKER := Event(0xFFFF_FFFF, IN_Q_OVERFLOW, 0, [])

  predicate WellFormed(ev: Event) {
    0 !in ev.name && |ev.name| < WORD - 32
  }

  /** Up to a multiple of 16. */
  function Rounded(n: nat): (r: nat)
    ensures n <= r < n + 16
  {
    if n == 0 then 0 else if n <= 16 then 16 else 16 + Rounded(n - 16)
  }

  lemma {:induction false} RoundedIs(n: nat)
    ensures Rounded(n) == (n + 15) / 16 * 16
  {
    if n > 16 {
      RoundedIs(n - 16);
    }
  }

  /** The bytes a name takes: with its NUL, up to a multiple of 16. */
  function NameRoom(name: seq<byte>): (r: nat)
    ensures name == [] ==> r == 0
    ensures name != [] ==> |name| < r <= |name| + 16
  {
    if name == [] then 0 else Rounded(|name| + 1)
  }

  function Size(ev: Event): nat {
    RECORD + NameRoom(ev.name)
  }

  // ------------------------------------------------------------------
  // Records as bytes
  // ------------------------------------------------------------------

  function Word(v: nat, n: nat): (b: seq<byte>)
    ensures |b| == n
  {
    if n == 0 then [] else Word(v / 256, n - 1) + [v % 256]
  }

  lemma {:induction false} BeOfWord(v: nat, n: nat)
    requires v < Limit(n)
    ensures Be(Word(v, n), 0, n) == v
    decreases n
  {
    if n > 0 {
      BeOfWord(v / 256, n - 1);
      BeSame(Word(v, n), Word(v / 256, n - 1), 0, n - 1);
    }
  }

  function Head(ev: Event): (b: seq<byte>)
    ensures |b| == RECORD
  {
    Word(ev.wd, 4) + Word(ev.mask, 4) + Word(ev.cookie, 4) + Word(NameRoom(ev.name), 4)
  }

  function Padded(name: seq<byte>): (b: seq<byte>)
    ensures |b| == NameRoom(name)
  {
    if name == [] then [] else name + Repeat(0, NameRoom(name) - |name|)
  }

  function Encode(ev: Event): (b: seq<byte>)
    ensures |b| == Size(ev)
  {
    Head(ev) + Padded(ev.name)
  }

  /** The C string at `o`. */
  function CString(b: seq<byte>, o: nat): seq<byte>
    decreases |b| - o
  {
    if o >= |b| || b[o] == 0 then [] else [b[o]] + CString(b, o + 1)
  }

  /** The event whose record is at `o`, as a reader takes it apart. */
  function Decode(b: seq<byte>, o: nat): Event
    requires o + RECORD <= |b|
  {
    Event(Be32(b, o), Be32(b, o + 4), Be32(b, o + 8),
          if Be32(b, o + 12) == 0 then [] else CString(b, o + RECORD))
  }

  lemma HeadReads(ev: Event)
    requires WellFormed(ev)
    ensures var h := Head(ev);
            && Be32(h, 0) == ev.wd && Be32(h, 4) == ev.mask && Be32(h, 8) == ev.cookie
            && Be32(h, 12) == NameRoom(ev.name)
  {
    var h := Head(ev);
    WordReads(h, 0, ev.wd);
    WordReads(h, 4, ev.mask);
    WordReads(h, 8, ev.cookie);
    WordReads(h, 12, NameRoom(ev.name));
  }

  lemma WordReads(b: seq<byte>, o: nat, v: nat)
    requires o + 4 <= |b| && v < WORD && b[o..o + 4] == Word(v, 4)
    ensures Be32(b, o) == v
  {
    assert Limit(4) == WORD;
    BeOfWord(v, 4);
    BeWithin(b, 0, Word(v, 4), o, 4);
  }

  lemma {:induction false} CStringReads(b: seq<byte>, o: nat, name: seq<byte>)
    requires 0 !in name && o + |name| < |b| && b[o..o + |name|] == name && b[o + |name|] == 0
    ensures CString(b, o) == name
    decreases |name|
  {
    if name != [] {
      assert b[o..o + |name|][0] == name[0];
      assert b[o + 1..o + 1 + |name[1..]|] == b[o..o + |name|][1..];
      CStringReads(b, o + 1, name[1..]);
    }
  }

  /** A record, byte by byte: four words, then the name with zeros up to a multiple of 16, at least one of them. */
  lemma RecordBytes(ev: Event)
    requires WellFormed(ev)
    ensures var b, n := Encode(ev), |ev.name|;
            && Be32(b, 0) == ev.wd && Be32(b, 4) == ev.mask && Be32(b, 8) == ev.cookie && Be32(b, 12) == |b| - 16
            && |b| == (if n == 0 then 16 else 16 + (n + 16) / 16 * 16)
            && b[16..16 + n] == ev.name && forall i :: 16 + n <= i < |b| ==> b[i] == 0
  {
    var b, h := Encode(ev), Head(ev);
    HeadReads(ev);
    assert b[0..16] == h;
    BeWithin(b, 0, h, 0, 4);
    BeWithin(b, 4, h, 0, 4);
    BeWithin(b, 8, h, 0, 4);
    BeWithin(b, 12, h, 0, 4);
    NameBytes(h, ev.name);
  }

  lemma NameBytes(h: seq<byte>, name: seq<byte>)
    requires |h| == 16
    ensures var b, n := h + Padded(name), |name|;
            && |b| == (if n == 0 then 16 else 16 + (n + 16) / 16 * 16)
            && b[16..16 + n] == name && forall i :: 16 + n <= i < |b| ==> b[i] == 0
  {
    RoundedIs(|name| + 1);
  }

  /** Reading a record undoes writing it, wherever it is. */
  lemma RecordRoundTrip(b: seq<byte>, o: nat, ev: Event)
    requires WellFormed(ev) && o + Size(ev) <= |b| && b[o..o + Size(ev)] == Encode(ev)
    ensures Decode(b, o) == ev && Be32(b, o + 12) == NameRoom(ev.name)
  {
    var h := Head(ev);
    HeadReads(ev);
    assert b[o..o + RECORD] == b[o..o + Size(ev)][..RECORD] == h;
    BeWithin(b, 0, h, o, 4);
    BeWithin(b, 4, h, o, 4);
    BeWithin(b, 8, h, o, 4);
    BeWithin(b, 12, h, o, 4);
    if ev.name != [] {
      NameReads(b, o, ev);
    }
  }

  lemma PaddedIs(name: seq<byte>)
    requires name != []
    ensures Padded(name)[..|name|] == name && Padded(name)[|name|] == 0
  {
  }

  lemma NameReads(b: seq<byte>, o: nat, ev: Event)
    requires WellFormed(ev) && ev.name != [] && o + Size(ev) <= |b| && b[o..o + Size(ev)] == Encode(ev)
    ensures CString(b, o + RECORD) == ev.name
  {
    PaddedIs(ev.name);
    SliceTail(b, o, Head(ev), Padded(ev.name));
    PaddedReads(b, o + RECORD, Padded(ev.name), ev.name);
  }

  lemma PaddedReads(b: seq<byte>, at: nat, p: seq<byte>, name: seq<byte>)
    requires at + |p| <= |b| && b[at..at + |p|] == p
    requires 0 !in name && |name| < |p| && p[..|name|] == name && p[|name|] == 0
    ensures CString(b, at) == name
  {
    var n := |name|;
    assert b[at..at + n] == b[at..at + |p|][..n];
    assert b[at + n] == b[at..at + |p|][n];
    CStringReads(b, at, name);
  }

  lemma SliceTail(b: seq<byte>, o: nat, head: seq<byte>, tail: seq<byte>)
    requires o + |head| + |tail| <= |b| && b[o..o + (|head| + |tail|)] == head + tail
    ensures b[o + |head|..o + |head| + |tail|] == tail
  {
    var s := b[o..o + (|head| + |tail|)];
    assert s[|head|..] == b[o + |head|..o + |head| + |tail|];
  }

  // ------------------------------------------------------------------
  // Records back to back
  // ------------------------------------------------------------------

  /** The record at a place: its event and its length. */
  datatype Record = Record(ev: Event, size: nat)

  type Writing = Event -> seq<byte>
  type Reading = (seq<byte>, nat) -> Record

  /** How records are written and how they are read. */
  datatype Format = Format(write: Writing, read: Reading)

  /** Reading undoes writing, wherever the record stands. */
  ghost predicate Undoes(fmt: Format, ev: Event) {
    && |fmt.write(ev)| == Size(ev)
    && (forall b: seq<byte>, o: nat {:trigger fmt.read(b, o)} ::
          o + Size(ev) <= |b| && b[o..o + Size(ev)] == fmt.write(ev) ==> fmt.read(b, o) == Record(ev, Size(ev)))
  }

  ghost predicate Sound(fmt: Format) {
    forall ev :: WellFormed(ev) ==> Undoes(fmt, ev)
  }

  function RecordOf(b: seq<byte>, o: nat): Record {
    if o + RECORD > |b| then Record(MARKER, RECORD) else Record(Decode(b, o), RECORD + Be32(b, o + 12))
  }

  /** The kernel's records. */
  function Records(): Format {
    Format(Encode, RecordOf)
  }

  lemma RecordsAreSound()
    ensures Sound(Records())
  {
    forall ev | WellFormed(ev)
      ensures Undoes(Records(), ev)
    {
      RecordUndone(ev);
    }
  }

  lemma RecordUndone(ev: Event)
    requires WellFormed(ev)
    ensures Undoes(Records(), ev)
  {
    forall b: seq<byte>, o: nat | o + Size(ev) <= |b| && b[o..o + Size(ev)] == Encode(ev)
      ensures RecordOf(b, o) == Record(ev, Size(ev))
    {
      RecordRoundTrip(b, o, ev);
    }
  }

  function Joined(evs: seq<Event>, write: Writing): seq<byte> {
    if evs == [] then [] else Joined(evs[..|evs| - 1], write) + write(evs[|evs| - 1])
  }

  function Total(evs: seq<Event>): nat {
    if evs == [] then 0 else Total(evs[..|evs| - 1]) + Size(evs[|evs| - 1])
  }

  lemma {:induction false} JoinedConcat(a: seq<Event>, b: seq<Event>, write: Writing)
    ensures Joined(a + b, write) == Joined(a, write) + Joined(b, write)
    decreases |b|
  {
    if b == [] {
      assert a + b == a;
    } else {
      var m, x := b[..|b| - 1], b[|b| - 1];
      assert (a + b)[..|a + b| - 1] == a + m;
      JoinedConcat(a, m, write);
      assert (Joined(a, write) + Joined(m, write)) + write(x) == Joined(a, write) + (Joined(m, write) + write(x));
    }
  }

  lemma {:induction false} TotalConcat(a: seq<Event>, b: seq<Event>)
    ensures Total(a + b) == Total(a) + Total(b)
    decreases |b|
  {
    if b == [] {
      assert a + b == a;
    } else {
      assert (a + b)[..|a + b| - 1] == a + b[..|b| - 1];
      TotalConcat(a, b[..|b| - 1]);
    }
  }

  lemma JoinedSnoc(a: seq<Event>, ev: Event, write: Writing)
    ensures Joined(a + [ev], write) == Joined(a, write) + write(ev) && Total(a + [ev]) == Total(a) + Size(ev)
  {
    assert (a + [ev])[..|a|] == a;
  }

  ghost predicate AllWell(evs: seq<Event>) {
    forall ev :: ev in evs ==> WellFormed(ev)
  }

  lemma {:induction false} JoinedSize(evs: seq<Event>, fmt: Format)
    requires Sound(fmt) && AllWell(evs)
    ensures |Joined(evs, fmt.write)| == Total(evs)
  {
    if evs != [] {
      JoinedSize(evs[..|evs| - 1], fmt);
      assert Undoes(fmt, evs[|evs| - 1]);
    }
  }

  /** Reading where the first records end gives the next one. */
  lemma RecordAt(done: seq<Event>, rest: seq<Event>, fmt: Format)
    requires Sound(fmt) && AllWell(done + rest) && rest != []
    ensures var b := Joined(done + rest, fmt.write);
            Total(done) + Size(rest[0]) <= |b| && fmt.read(b, Total(done)) == Record(rest[0], Size(rest[0]))
  {
    var w, ev := fmt.write, rest[0];
    var front, tail := Joined(done, w), Joined(rest[1..], w);
    assert done + rest == (done + [ev]) + rest[1..];
    JoinedConcat(done + [ev], rest[1..], w);
    JoinedSnoc(done, ev, w);
    assert forall e :: e in done ==> e in done + rest;
    assert ev in done + rest;
    JoinedSize(done, fmt);
    assert Undoes(fmt, ev);
    var b := Joined(done + rest, w);
    assert b == (front + w(ev)) + tail;
    assert b[|front|..|front| + |w(ev)|] == w(ev);
  }

  /** Taking bytes apart, record by record. */
  function Parse(b: seq<byte>, o: nat, read: Reading): seq<Event>
    decreases |b| - o
  {
    if o >= |b| || read(b, o).size == 0 then [] else [read(b, o).ev] + Parse(b, o + read(b, o).size, read)
  }

  /** What is read takes apart into the very events it was made from. */
  lemma {:induction false} ParseUndoesJoined(done: seq<Event>, rest: seq<Event>, fmt: Format)
    requires Sound(fmt) && AllWell(done + rest)
    ensures Parse(Joined(done + rest, fmt.write), Total(done), fmt.read) == rest
    decreases |rest|
  {
    JoinedSize(done + rest, fmt);
    if rest == [] {
      assert done + rest == done;
    } else {
      var ev, later := rest[0], rest[1..];
      RecordAt(done, rest, fmt);
      JoinedSnoc(done, ev, fmt.write);
      assert (done + [ev]) + later == done + rest;
      ParseUndoesJoined(done + [ev], later, fmt);
      ParseOne(Joined(done + rest, fmt.write), Total(done), fmt.read, ev, Size(ev));
    }
  }

  lemma ParseOne(b: seq<byte>, o: nat, read: Reading, ev: Event, size: nat)
    requires o < |b| && size > 0 && read(b, o) == Record(ev, size)
    ensures Parse(b, o, read) == [ev] + Parse(b, o + size, read)
  {
  }

  // ------------------------------------------------------------------
  // The bounded queue
  // ------------------------------------------------------------------

  /** What a queue means: its unread events, and whether it has lost any since it was last empty. */
  datatype Queue = Queue(events: seq<Event>, overflowed: bool)

  predicate Crowded(q: Queue, ev: Event) {
    Total(q.events) + Size(ev) > IQ_SIZE - RECORD
  }

  predicate Merges(q: Queue, ev: Event) {
    q.events != [] && q.events[|q.events| - 1] == ev
  }

  /** Queueing an event: merged with the newest unread one, or lost to a full queue, or added. */
  function Queued(q: Queue, ev: Event): Queue {
    if Merges(q, ev) then q
    else if !Crowded(q, ev) then q.(events := q.events + [ev])
    else if q.overflowed then q
    else Queue(q.events + [MARKER], true)
  }

  /** How many events from the first fit `len` bytes whole, once `k` are known to. */
  function Fitting(evs: seq<Event>, len: nat, k: nat): nat
    requires k <= |evs|
    decreases |evs| - k
  {
    if k < |evs| && Total(evs[..k + 1]) <= len then Fitting(evs, len, k + 1) else k
  }

  function Take(q: Queue, len: nat): Queue {
    var k := Fitting(q.events, len, 0);
    FittingBound(q.events, len, 0);
    if k == 0 then q else Queue(q.events[k..], q.overflowed && k < |q.events|)
  }

  lemma {:induction false} FittingBound(evs: seq<Event>, len: nat, k: nat)
    requires k <= |evs|
    ensures k <= Fitting(evs, len, k) <= |evs|
    decreases |evs| - k
  {
    if k < |evs| && Total(evs[..k + 1]) <= len {
      FittingBound(evs, len, k + 1);
    }
  }

  /** A read gets the longest run of whole events its buffer holds. */
  lemma {:induction false} FittingIsLongest(evs: seq<Event>, len: nat, k: nat, m: nat)
    requires k <= |evs| && Total(evs[..k]) <= len && m <= |evs|
    ensures var n := Fitting(evs, len, k);
            k <= n <= |evs| && Total(evs[..n]) <= len && (m > n ==> Total(evs[..m]) > len)
    decreases |evs| - k
  {
    if k < |evs| && Total(evs[..k + 1]) <= len {
      FittingIsLongest(evs, len, k + 1, m);
    } else if m > k {
      TotalGrows(evs, k + 1, m);
    }
  }

  lemma TotalGrows(evs: seq<Event>, k: nat, m: nat)
    requires k <= m <= |evs|
    ensures Total(evs[..k]) <= Total(evs[..m])
  {
    assert evs[..m] == evs[..k] + evs[k..m];
    TotalConcat(evs[..k], evs[k..m]);
  }

  /** At most one overflow marker, and no event twice running. */
  ghost predicate Shaped(evs: seq<Event>) {
    && (forall i, j :: 0 <= i < j < |evs| && evs[i] == MARKER ==> evs[j] != MARKER)
    && (forall i :: 0 <= i < |evs| - 1 ==> evs[i] != evs[i + 1])
    && AllWell(evs)
  }

  /** The bytes fit the page, and until an event is lost so would a marker. */
  predicate Fits(bytes: nat, overflowed: bool) {
    bytes <= if overflowed then IQ_SIZE else IQ_SIZE - RECORD
  }

  /** What every operation keeps. */
  ghost predicate Kept(q: Queue) {
    && Shaped(q.events) && Fits(Total(q.events), q.overflowed)
    && (q.events == [] ==> !q.overflowed)
    && (!q.overflowed ==> MARKER !in q.events)
  }

  lemma ShapedSnoc(evs: seq<Event>, x: Event)
    requires Shaped(evs) && WellFormed(x) && (x == MARKER ==> MARKER !in evs)
    requires evs != [] ==> evs[|evs| - 1] != x
    ensures Shaped(evs + [x])
  {
    var r := evs + [x];
    forall i | 0 <= i < |r| - 1
      ensures r[i] != r[i + 1]
    {
      if i < |evs| - 1 {
        assert evs[i] != evs[i + 1];
      }
    }
  }

  lemma ShapedDrop(evs: seq<Event>, k: nat)
    requires Shaped(evs) && k <= |evs|
    ensures Shaped(evs[k..])
  {
    var r := evs[k..];
    forall i | 0 <= i < |r| - 1
      ensures r[i] != r[i + 1]
    {
      assert evs[k + i] != evs[k + i + 1];
    }
  }

  /** An event no one takes for a marker: watches are numbered from 1 up. */
  predicate Genuine(ev: Event) {
    WellFormed(ev) && ev.wd != MARKER.wd
  }

  const NAME_MAX: nat := 255

  /** An event the kernel can report: names come from directories. */
  predicate Reportable(ev: Event) {
    Genuine(ev) && |ev.name| <= NAME_MAX
  }

  /**
  Queueing keeps the queue within its page, with at most one overflow marker and
  never the same event twice running.
  */
  lemma QueuedKeeps(q: Queue, ev: Event)
    requires Kept(q) && Genuine(ev)
    ensures Kept(Queued(q, ev))
  {
    if !Merges(q, ev) {
      if !Crowded(q, ev) {
        AddedKeeps(q, ev);
      } else if !q.overflowed {
        TotalConcat(q.events, [MARKER]);
        TotalOne(MARKER);
        ShapedSnoc(q.events, MARKER);
      }
    }
  }

  lemma AddedKeeps(q: Queue, ev: Event)
    requires Kept(q) && Genuine(ev) && !Merges(q, ev) && !Crowded(q, ev)
    ensures Kept(q.(events := q.events + [ev]))
  {
    TotalConcat(q.events, [ev]);
    TotalOne(ev);
    ShapedSnoc(q.events, ev);
  }

  lemma TotalOne(ev: Event)
    ensures Total([ev]) == Size(ev)
  {
    assert [ev][..0] == [];
  }

  lemma TakeKeeps(q: Queue, len: nat)
    requires Kept(q)
    ensures Kept(Take(q, len))
  {
    var k := Fitting(q.events, len, 0);
    FittingBound(q.events, len, 0);
    ShapedDrop(q.events, k);
    TotalDrop(q.events, k);
  }

  lemma TotalDrop(evs: seq<Event>, k: nat)
    requires k <= |evs|
    ensures Total(evs) == Total(evs[..k]) + Total(evs[k..])
  {
    assert evs == evs[..k] + evs[k..];
    TotalConcat(evs[..k], evs[k..]);
  }

  // ------------------------------------------------------------------
  // Runs
  // ------------------------------------------------------------------

  datatype Op = Notify(ev: Event) | Read(len: nat)

  const EMPTY := Queue([], false)

  function Step(q: Queue, op: Op): Queue {
    match op case Notify(ev) => Queued(q, ev) case Read(len) => Take(q, len)
  }

  /** What an operation adds at the end. */
  function Added(q: Queue, op: Op): seq<Event> {
    if op.Notify? && |q.events| < |Queued(q, op.ev).events| then Queued(q, op.ev).events[|q.events|..] else []
  }

  /** What an operation hands to a reader. */
  function Handed(q: Queue, op: Op): seq<Event> {
    if op.Read? then
      var k := Fitting(q.events, op.len, 0);
      FittingBound(q.events, op.len, 0);
      q.events[..k]
    else []
  }

  function Run(q: Queue, ops: seq<Op>): Queue {
    if ops == [] then q else Step(Run(q, ops[..|ops| - 1]), ops[|ops| - 1])
  }

  ghost predicate AllGenuine(ops: seq<Op>) {
    forall op :: op in ops && op.Notify? ==> Genuine(op.ev)
  }

  function AllAdded(q: Queue, ops: seq<Op>): seq<Event> {
    if ops == [] then []
    else AllAdded(q, ops[..|ops| - 1]) + Added(Run(q, ops[..|ops| - 1]), ops[|ops| - 1])
  }

  function AllHanded(q: Queue, ops: seq<Op>): seq<Event> {
    if ops == [] then []
    else AllHanded(q, ops[..|ops| - 1]) + Handed(Run(q, ops[..|ops| - 1]), ops[|ops| - 1])
  }

  lemma StepMoves(q: Queue, op: Op)
    ensures q.events + Added(q, op) == Handed(q, op) + Step(q, op).events
  {
    if op.Read? {
      var k := Fitting(q.events, op.len, 0);
      FittingBound(q.events, op.len, 0);
      assert q.events[..k] + q.events[k..] == q.events;
    }
  }

  /** Over every run the queue stays sound, and what was added is what was read and what is still to be read, in order. */
  lemma {:induction false} FirstInFirstOut(q: Queue, ops: seq<Op>)
    requires Kept(q) && AllGenuine(ops)
    ensures Kept(Run(q, ops))
    ensures q.events + AllAdded(q, ops) == AllHanded(q, ops) + Run(q, ops).events
  {
    if ops == [] {
      assert q.events + [] == [] + q.events;
    } else {
      var before, op := ops[..|ops| - 1], ops[|ops| - 1];
      FirstInFirstOut(q, before);
      var mid := Run(q, before);
      StepMoves(mid, op);
      Regroup(q.events, AllAdded(q, before), Added(mid, op), AllHanded(q, before), mid.events,
              Handed(mid, op), Step(mid, op).events);
      match op
      case Notify(ev) => QueuedKeeps(mid, ev);
      case Read(len) => TakeKeeps(mid, len);
    }
  }

  lemma Regroup(q: seq<Event>, a: seq<Event>, a': seq<Event>, h: seq<Event>, m: seq<Event>, h': seq<Event>, m': seq<Event>)
    requires q + a == h + m && m + a' == h' + m'
    ensures q + (a + a') == (h + h') + m'
  {
    assert q + (a + a') == (q + a) + a' == h + (m + a') == h + (h' + m');
  }

  // ------------------------------------------------------------------
  // Which events are queued
  // ------------------------------------------------------------------

  /** Only an event equal to the newest unread one, in every part, is merged; else room alone decides. */
  lemma QueuedIs(q: Queue, ev: Event)
    ensures var q', again := Queued(q, ev), q.events != [] && q.events[|q.events| - 1] == ev;
            var fits := Total(q.events) + Size(ev) <= 4080;
            && (again ==> q' == q)
            && (!again && fits ==> q' == Queue(q.events + [ev], q.overflowed))
            && (!again && !fits && q.overflowed ==> q' == q)
            && (!again && !fits && !q.overflowed ==> q' == Queue(q.events + [Event(0xFFFF_FFFF, 0x4000, 0, [])], true))
  {
  }

  /** Events that differ in anything are both there, when there is room: for instance two names in one directory. */
  lemma BothThere(q: Queue, ev: Event, other: Event)
    requires ev != other && (q.events == [] || q.events[|q.events| - 1] != ev)
    requires Total(q.events) + Size(ev) + Size(other) <= 4080
    ensures Queued(Queued(q, ev), other).events == q.events + [ev, other]
  {
    var one := q.events + [ev];
    TotalConcat(q.events, [ev]);
    TotalOne(ev);
    assert one[|one| - 1] == ev;
  }

  /** The events of a run that were not the newest unread one over again, and found room. */
  function Admitted(ops: seq<Op>): seq<Event> {
    if ops == [] then []
    else
      var before, op := ops[..|ops| - 1], ops[|ops| - 1];
      Admitted(before) + if op.Notify? && Enters(Run(EMPTY, before).events, op.ev) then [op.ev] else []
  }

  predicate Enters(unread: seq<Event>, ev: Event) {
    (unread == [] || unread[|unread| - 1] != ev) && Total(unread) + Size(ev) <= 4080
  }

  function Unmarked(evs: seq<Event>): seq<Event> {
    if evs == [] then []
    else Unmarked(evs[..|evs| - 1]) + if evs[|evs| - 1] == MARKER then [] else [evs[|evs| - 1]]
  }

  lemma UnmarkedSnoc(evs: seq<Event>, more: seq<Event>)
    requires |more| <= 1
    ensures Unmarked(evs + more) == Unmarked(evs) + if more == [] || more[0] == MARKER then [] else more
  {
    if more == [] {
      assert evs + more == evs;
    } else {
      assert (evs + more)[..|evs|] == evs;
    }
  }

  /** Over every run, what was queued is, markers aside, just those, in order. */
  lemma {:induction false} QueuedAreAdmitted(ops: seq<Op>)
    requires AllGenuine(ops)
    ensures Unmarked(AllAdded(EMPTY, ops)) == Admitted(ops)
  {
    if ops != [] {
      var before, op := ops[..|ops| - 1], ops[|ops| - 1];
      QueuedAreAdmitted(before);
      OneMoreAdmitted(ops, before, op, Run(EMPTY, before));
    }
  }

  lemma OneMoreAdmitted(ops: seq<Op>, before: seq<Op>, op: Op, q: Queue)
    requires ops != [] && before == ops[..|ops| - 1] && op == ops[|ops| - 1] && q == Run(EMPTY, before)
    requires (op.Notify? ==> Genuine(op.ev)) && Unmarked(AllAdded(EMPTY, before)) == Admitted(before)
    ensures Unmarked(AllAdded(EMPTY, ops)) == Admitted(ops)
  {
    AddedIs(q, op);
    UnmarkedSnoc(AllAdded(EMPTY, before), Added(q, op));
  }

  /** So these and no others are read, or still to be read, in this order. */
  lemma ReadAreAdmitted(ops: seq<Op>)
    requires AllGenuine(ops)
    ensures Unmarked(AllHanded(EMPTY, ops) + Run(EMPTY, ops).events) == Admitted(ops)
  {
    FirstInFirstOut(EMPTY, ops);
    assert EMPTY.events + AllAdded(EMPTY, ops) == AllAdded(EMPTY, ops);
    QueuedAreAdmitted(ops);
  }

  lemma AddedIs(q: Queue, op: Op)
    requires op.Notify? ==> Genuine(op.ev)
    ensures var added := Added(q, op);
            && |added| <= 1
            && (if added == [] || added[0] == MARKER then [] else added)
               == if op.Notify? && Enters(q.events, op.ev) then [op.ev] else []
  {
    if op.Notify? {
      var q' := Queued(q, op.ev);
      QueuedIs(q, op.ev);
      if Enters(q.events, op.ev) {
        AddedOne(q, op, op.ev);
      } else if q' != q {
        AddedOne(q, op, MARKER);
      }
    }
  }

  lemma AddedOne(q: Queue, op: Op, x: Event)
    requires op.Notify? && Queued(q, op.ev).events == q.events + [x]
    ensures Added(q, op) == [x]
  {
    assert (q.events + [x])[|q.events|..] == [x];
  }

  // ------------------------------------------------------------------
  // Losing events
  // ------------------------------------------------------------------

  predicate Loses(q: Queue, ev: Event) {
    !Merges(q, ev) && Crowded(q, ev)
  }

  /** Was a marker queued since the queue was last empty? */
  function Marked(ops: seq<Op>): bool {
    if ops == [] || Run(EMPTY, ops).events == [] then false
    else
      var before, op := ops[..|ops| - 1], ops[|ops| - 1];
      Marked(before) || MARKER in Added(Run(EMPTY, before), op)
  }

  /** Was a marker read since the queue was last empty? */
  function MarkerRead(ops: seq<Op>): bool {
    if ops == [] || Run(EMPTY, ops).events == [] then false
    else
      var before, op := ops[..|ops| - 1], ops[|ops| - 1];
      MarkerRead(before) || MARKER in Handed(Run(EMPTY, before), op)
  }

  /** What the flag means, after any run: a marker was queued since the queue was last empty, and is unread or read. */
  lemma {:induction false} OverflowedMeans(ops: seq<Op>)
    requires AllGenuine(ops)
    ensures var q := Run(EMPTY, ops);
            Kept(q) && q.overflowed == Marked(ops) && MarkerRead(ops) == (q.overflowed && MARKER !in q.events)
  {
    if ops != [] {
      var before, op := ops[..|ops| - 1], ops[|ops| - 1];
      OverflowedMeans(before);
      match op
      case Notify(ev) =>
        QueuedKeeps(Run(EMPTY, before), ev);
        QueuedMarks(Run(EMPTY, before), ev);
      case Read(len) =>
        TakeKeeps(Run(EMPTY, before), len);
        TakeUnmarks(Run(EMPTY, before), len);
    }
  }

  lemma QueuedMarks(q: Queue, ev: Event)
    requires Kept(q) && Genuine(ev)
    ensures var q', added := Queued(q, ev), Added(q, Notify(ev));
            && q'.overflowed == (q.overflowed || MARKER in added)
            && (MARKER in q'.events <==> MARKER in q.events || MARKER in added)
            && (MARKER in added ==> !q.overflowed) && (q'.events == [] ==> q == q')
  {
    var q' := Queued(q, ev);
    assert Added(q, Notify(ev)) == q'.events[|q.events|..];
    assert q'.events == q.events + q'.events[|q.events|..];
    if q' != q {
      assert q'.events[|q.events|..] == [q'.events[|q.events|]];
    }
  }

  lemma OnlyOnce(evs: seq<Event>, k: nat)
    requires Shaped(evs) && k <= |evs|
    ensures MARKER in evs <==> MARKER in evs[..k] || MARKER in evs[k..]
    ensures !(MARKER in evs[..k] && MARKER in evs[k..])
  {
    var rest := evs[k..];
    assert evs == evs[..k] + rest;
    assert forall j :: 0 <= j < |rest| ==> rest[j] == evs[k + j];
  }

  lemma TakeUnmarks(q: Queue, len: nat)
    requires Kept(q)
    ensures var q', handed := Take(q, len), Handed(q, Read(len));
            && (MARKER in q.events <==> MARKER in handed || MARKER in q'.events)
            && !(MARKER in handed && MARKER in q'.events)
            && (q'.events != [] ==> q'.overflowed == q.overflowed)
  {
    var k := Fitting(q.events, len, 0);
    FittingBound(q.events, len, 0);
    OnlyOnce(q.events, k);
  }

  /**
  An event lost after any run leaves no overflow marker to be read if and only if
  one was read since the queue was last empty.
  */
  lemma LossShows(ops: seq<Op>, ev: Event)
    requires AllGenuine(ops) && Genuine(ev) && Loses(Run(EMPTY, ops), ev)
    ensures MARKER !in Run(EMPTY, ops + [Notify(ev)]).events <==> MarkerRead(ops)
  {
    var q, all := Run(EMPTY, ops), ops + [Notify(ev)];
    assert all[..|ops|] == ops;
    OverflowedMeans(ops);
    QueuedMarks(q, ev);
    assert !q.overflowed ==> Added(q, Notify(ev))[0] == MARKER;
  }

  ghost predicate Leads(ops: seq<Op>, q: Queue) {
    Run(EMPTY, ops) == q && forall op :: op in ops && op.Notify? ==> Reportable(op.ev)
  }

  /** A queue that events and reads lead to. */
  ghost predicate Reachable(q: Queue) {
    exists ops :: Leads(ops, q)
  }

  lemma StepReaches(q: Queue, op: Op)
    requires Reachable(q) && (op.Notify? ==> Reportable(op.ev))
    ensures Reachable(Step(q, op))
  {
    var ops :| Leads(ops, q);
    assert (ops + [op])[..|ops|] == ops;
    assert Leads(ops + [op], Step(q, op));
  }

  /** A name of 255 bytes, the longest a directory holds. */
  predicate LongName(name: seq<byte>) {
    |name| == NAME_MAX && 0 !in name
  }

  function Long(name: seq<byte>, cookie: u32): (ev: Event)
    requires LongName(name)
    ensures Reportable(ev) && Size(ev) == 272 && ev.cookie == cookie
  {
    RoundedIs(256);
    Event(1, 0x40, cookie, name)
  }

  /** Events with a long name, one after another. */
  function Burst(name: seq<byte>, n: nat): (evs: seq<Event>)
    requires LongName(name) && n < WORD
    ensures |evs| == n
  {
    if n == 0 then [] else Burst(name, n - 1) + [Long(name, n)]
  }

  /** A burst queued behind what is there, as far as there is room. */
  lemma {:induction false} BurstIs(name: seq<byte>, front: seq<Event>, overflowed: bool, n: nat)
    requires LongName(name) && n < WORD && Total(front) + 272 * n <= IQ_SIZE - RECORD && Reachable(Queue(front, overflowed))
    requires forall ev :: ev in front ==> ev.wd != 1
    ensures var evs := front + Burst(name, n); Total(evs) == Total(front) + 272 * n && Reachable(Queue(evs, overflowed))
  {
    if n == 0 {
      assert front + [] == front;
    } else {
      BurstIs(name, front, overflowed, n - 1);
      BurstMore(name, front, overflowed, n);
    }
  }

  lemma BurstMore(name: seq<byte>, front: seq<Event>, overflowed: bool, n: nat)
    requires LongName(name) && 0 < n < WORD && forall ev :: ev in front ==> ev.wd != 1
    requires var q := Queue(front + Burst(name, n - 1), overflowed); Reachable(q) && Total(q.events) + 272 <= IQ_SIZE - RECORD
    ensures var evs := front + Burst(name, n);
            Total(evs) == Total(front + Burst(name, n - 1)) + 272 && Reachable(Queue(evs, overflowed))
  {
    var q, ev := Queue(front + Burst(name, n - 1), overflowed), Long(name, n);
    BurstNotMerged(name, front, n);
    LongAdded(q, ev);
    assert q.events + [ev] == front + Burst(name, n);
  }

  lemma BurstNotMerged(name: seq<byte>, front: seq<Event>, n: nat)
    requires LongName(name) && 0 < n < WORD && forall ev :: ev in front ==> ev.wd != 1
    ensures !Merges(Queue(front + Burst(name, n - 1), true), Long(name, n))
  {
    BurstHasNoMarker(name, n - 1);
  }

  lemma LongAdded(q: Queue, ev: Event)
    requires Reachable(q) && Reportable(ev) && Size(ev) == 272 && !Merges(q, ev) && Total(q.events) + 272 <= IQ_SIZE - RECORD
    ensures Total(q.events + [ev]) == Total(q.events) + 272 && Reachable(Queue(q.events + [ev], q.overflowed))
  {
    TotalConcat(q.events, [ev]);
    TotalOne(ev);
    StepReaches(q, Notify(ev));
  }

  /** The first `n` events are read when they alone fit. */
  lemma FittingAre(evs: seq<Event>, len: nat, n: nat)
    requires n <= |evs| && Total(evs[..n]) <= len && (n < |evs| ==> Total(evs[..n + 1]) > len)
    ensures Fitting(evs, len, 0) == n
  {
    var k := Fitting(evs, len, 0);
    assert evs[..0] == [];
    FittingIsLongest(evs, len, 0, n);
    if n < k {
      TotalGrows(evs, n + 1, k);
    }
  }

  const SMALL := Event(2, 0x40, 0, [])

  /**
  Names no longer than a directory's are enough to lose an event with nothing to
  tell. A burst fills the queue up to its marker; the burst and then the marker are
  read while another event comes in behind them, so the queue was never empty; a
  second burst fills it again, and its last event adds no marker.
  */
  lemma SilentLoss(name: seq<byte>)
    requires LongName(name)
    ensures var q, ev := Queue([SMALL] + Burst(name, 14), true), Long(name, 15);
            Reachable(q) && Reportable(ev) && Loses(q, ev) && MARKER !in Queued(q, ev).events
  {
    MarkerGone(name);
    var q := Queue([SMALL] + Burst(name, 14), true);
    TotalOne(SMALL);
    BurstIs(name, [SMALL], true, 14);
    BurstHasNoMarker(name, 14);
    assert q.events[14] == Long(name, 14);
  }

  lemma {:induction false} BurstHasNoMarker(name: seq<byte>, n: nat)
    requires LongName(name) && n < WORD
    ensures MARKER !in Burst(name, n) && (n > 0 ==> Burst(name, n)[n - 1] == Long(name, n))
  {
    if n > 0 {
      BurstHasNoMarker(name, n - 1);
    }
  }

  /** The marker of a full queue can be read away before the queue is empty. */
  lemma MarkerGone(name: seq<byte>)
    requires LongName(name)
    ensures Reachable(Queue([SMALL], true))
  {
    assert Leads([], EMPTY);
    BurstIs(name, [], false, 15);
    BurstHasNoMarker(name, 15);
    assert [] + Burst(name, 15) == Burst(name, 15);
    ReadAway(Burst(name, 15));
  }

  lemma ReadAway(full: seq<Event>)
    requires |full| == 15 && Total(full) == 4080 && full[14].wd == 1 && Reachable(Queue(full, false))
    ensures Reachable(Queue([SMALL], true))
  {
    var q1, q2, q3 := Queue(full + [MARKER], true), Queue([MARKER], true), Queue([MARKER, SMALL], true);
    StepReaches(Queue(full, false), Notify(SMALL));
    assert Queued(Queue(full, false), SMALL) == q1;
    ReadTheBurst(full);
    StepReaches(q1, Read(4080));
    TotalOne(MARKER);
    StepReaches(q2, Notify(SMALL));
    assert Queued(q2, SMALL) == q3;
    ReadTheMarker(SMALL);
    StepReaches(q3, Read(RECORD));
  }

  lemma ReadTheBurst(full: seq<Event>)
    requires |full| == 15 && Total(full) == 4080
    ensures Take(Queue(full + [MARKER], true), 4080) == Queue([MARKER], true)
  {
    var evs := full + [MARKER];
    assert evs[..15] == full && evs[..16] == evs && evs[15..] == [MARKER];
    TotalConcat(full, [MARKER]);
    TotalOne(MARKER);
    FittingAre(evs, 4080, 15);
  }

  lemma ReadTheMarker(small: Event)
    requires small.name == []
    ensures Take(Queue([MARKER, small], true), RECORD) == Queue([small], true)
  {
    var evs := [MARKER, small];
    assert evs[..1] == [MARKER] && evs[..2] == evs == [MARKER] + [small] && evs[1..] == [small];
    TotalOne(MARKER);
    TotalOne(small);
    TotalConcat([MARKER], [small]);
    FittingAre(evs, RECORD, 1);
  }

  // ------------------------------------------------------------------
  // The kernel's code
  // ------------------------------------------------------------------

  /** What a read answers: it would block, its buffer is too small, or these bytes. */
  datatype ReadResult = Blocked | TooSmall | Got(bytes: seq<byte>)

  /** `page` begins with the records of these events, the newest of them at `last`. */
  ghost predicate Begins(page: seq<byte>, n: nat, last: nat, evs: seq<Event>, fmt: Format) {
    && n == Total(evs) <= |page| && page[..n] == Joined(evs, fmt.write)
    && (evs != [] ==> last == Total(evs[..|evs| - 1]))
  }

  lemma NewestIs(page: seq<byte>, n: nat, last: nat, evs: seq<Event>, fmt: Format)
    requires Sound(fmt) && AllWell(evs) && Begins(page, n, last, evs, fmt) && evs != []
    ensures n > 0 && fmt.read(page[..n], last) == Record(evs[|evs| - 1], Size(evs[|evs| - 1]))
  {
    var before, ev := evs[..|evs| - 1], evs[|evs| - 1];
    assert evs == before + [ev];
    RecordAt(before, [ev], fmt);
  }

  lemma BeginsMore(page: seq<byte>, n: nat, last: nat, evs: seq<Event>, fmt: Format, ev: Event, page': seq<byte>)
    requires Sound(fmt) && WellFormed(ev) && Begins(page, n, last, evs, fmt)
    requires n + Size(ev) <= |page'| && page'[..n + Size(ev)] == page[..n] + fmt.write(ev)
    ensures Begins(page', n + Size(ev), n, evs + [ev], fmt)
  {
    JoinedSnoc(evs, ev, fmt.write);
    assert (evs + [ev])[..|evs|] == evs;
  }

  lemma RecordHere(page: seq<byte>, n: nat, last: nat, evs: seq<Event>, fmt: Format, k: nat)
    requires Sound(fmt) && AllWell(evs) && Begins(page, n, last, evs, fmt) && k < |evs|
    ensures var o := Total(evs[..k]);
            Total(evs[..k + 1]) == o + fmt.read(page[..n], o).size <= n && fmt.read(page[..n], o).size >= RECORD
  {
    var done, rest := evs[..k], evs[k..];
    assert evs == done + rest;
    RecordAt(done, rest, fmt);
    assert evs[..k + 1] == done + [evs[k]];
    TotalConcat(done, [evs[k]]);
    TotalOne(evs[k]);
    TotalDrop(evs, k + 1);
  }

  /** Handing over the first `k` records and moving the rest down. */
  lemma BeginsLess(page: seq<byte>, n: nat, last: nat, evs: seq<Event>, fmt: Format, k: nat, page': seq<byte>)
    requires Sound(fmt) && AllWell(evs) && Begins(page, n, last, evs, fmt) && k <= |evs|
    requires var done := Total(evs[..k]);
             done <= n ==> n - done <= |page'| && page'[..n - done] == page[done..n]
    ensures var done := Total(evs[..k]);
            && done <= n && page[..done] == Joined(evs[..k], fmt.write)
            && (n == done <==> k == |evs|)
            && Begins(page', n - done, if last >= done then last - done else 0, evs[k..], fmt)
  {
    var front, rest := evs[..k], evs[k..];
    assert evs == front + rest;
    JoinedConcat(front, rest, fmt.write);
    TotalDrop(evs, k);
    assert AllWell(front);
    JoinedSize(front, fmt);
    assert page[..Total(front)] == page[..n][..Total(front)];
    assert page[Total(front)..n] == page[..n][Total(front)..];
    if rest != [] {
      TotalPositive(rest);
      assert evs[..|evs| - 1] == front + rest[..|rest| - 1];
      TotalConcat(front, rest[..|rest| - 1]);
    }
  }

  lemma TotalPositive(evs: seq<Event>)
    requires evs != []
    ensures Total(evs) >= RECORD
  {
  }

  class Instance {
    const fmt: Format
    const q: array<byte>
    var n: nat
    var last: nat
    var overflowed: bool
    ghost var events: seq<Event>

    ghost predicate Valid()
      reads this, q
    {
      q.Length == IQ_SIZE && Sound(fmt) && Kept(Queue(events, overflowed)) && Begins(q[..], n, last, events, fmt)
    }

    constructor (fmt: Format)
      requires Sound(fmt)
      ensures Valid() && fresh(q) && Queue(events, overflowed) == EMPTY && this.fmt == fmt
    {
      this.fmt := fmt;
      q := new byte[IQ_SIZE](_ => 0);
      n, last, overflowed, events := 0, 0, false, [];
    }

    method Store(at: nat, bytes: seq<byte>)
      requires at + |bytes| <= q.Length
      modifies q
      ensures q[..][..at + |bytes|] == old(q[..][..at]) + bytes
    {
      forall k | 0 <= k < |bytes| {
        q[at + k] := bytes[k];
      }
    }

    method Append(ev: Event)
      requires Valid() && WellFormed(ev) && n + Size(ev) <= IQ_SIZE
      modifies q, `n, `last, `events
      ensures events == old(events) + [ev] && Begins(q[..], n, last, events, fmt)
    {
      ghost var page := q[..];
      var rec := fmt.write(ev);
      assert Undoes(fmt, ev);
      Store(n, rec);
      BeginsMore(page, n, last, events, fmt, ev, q[..]);
      last, n, events := n, n + |rec|, events + [ev];
    }

    method IsNewest(wd: u32, mask: u32, cookie: u32, name: seq<byte>, nlen: nat) returns (same: bool)
      requires Valid() && events != [] && nlen == NameRoom(name)
      ensures same == Merges(Queue(events, overflowed), Event(wd, mask, cookie, name))
    {
      NewestIs(q[..], n, last, events, fmt);
      var l := fmt.read(q[..][..n], last);
      same := l.ev.wd == wd && l.ev.mask == mask && l.ev.cookie == cookie
              && l.size == RECORD + nlen && (nlen == 0 || l.ev.name == name);
    }

    method IqPut(wd: u32, mask: u32, cookie: u32, name: seq<byte>)
      requires Valid() && Genuine(Event(wd, mask, cookie, name))
      modifies q, `n, `last, `overflowed, `events
      ensures Valid()
      ensures Queue(events, overflowed) == Queued(old(Queue(events, overflowed)), Event(wd, mask, cookie, name))
    {
      QueuedKeeps(Queue(events, overflowed), Event(wd, mask, cookie, name));
      var nlen := NameRoom(name);
      EmptyIs();
      if n > 0 {
        var same := IsNewest(wd, mask, cookie, name, nlen);
        if same {
          return;
        }
      }
      Admit(Event(wd, mask, cookie, name));
    }

    /** An event that is not merged: room for it, or one marker, or nothing. */
    method Admit(ev: Event)
      requires Valid() && Genuine(ev) && !Merges(Queue(events, overflowed), ev)
      modifies q, `n, `last, `overflowed, `events
      ensures Begins(q[..], n, last, events, fmt)
      ensures Queue(events, overflowed) == Queued(old(Queue(events, overflowed)), ev)
    {
      if n + Size(ev) > IQ_SIZE - RECORD {
        if !overflowed {
          Append(MARKER);
          overflowed := true;
        }
        return;
      }
      Append(ev);
    }

    method InRead(len: nat) returns (r: ReadResult)
      requires Valid()
      modifies q, `n, `last, `overflowed, `events
      ensures Valid()
      ensures Queue(events, overflowed) == Take(old(Queue(events, overflowed)), len)
      ensures r.Blocked? <==> old(events) == []
      ensures r.TooSmall? <==> old(events) != [] && Fitting(old(events), len, 0) == 0
      ensures |events| <= |old(events)|
      ensures r.Got? ==> Parse(r.bytes, 0, fmt.read) == old(events)[..|old(events)| - |events|] && |r.bytes| <= len
    {
      TakeKeeps(Queue(events, overflowed), len);
      var done; ghost var k;
      if n == 0 {
        EmptyIs();
        return Blocked;
      }
      done, k := WholeRecords(len);
      if done == 0 {
        return TooSmall;
      }
      r := Hand(done, k);
    }

    lemma EmptyIs()
      requires Valid()
      ensures n == 0 <==> events == []
    {
      if events != [] {
        TotalPositive(events);
      }
    }

    /** How many bytes of whole records fit `len`. */
    method WholeRecords(len: nat) returns (done: nat, ghost k: nat)
      requires Valid() && n > 0
      ensures events != [] && k == Fitting(events, len, 0) <= |events| && done == Total(events[..k])
      ensures (done == 0 <==> k == 0) && done <= len
    {
      EmptyIs();
      FittingBound(events, len, 0);
      done, k := 0, 0;
      assert events[..0] == [] && events[..|events|] == events;
      while done < n
        invariant k <= |events| && done == Total(events[..k]) <= len && (k > 0 ==> done > 0)
        invariant Fitting(events, len, 0) == Fitting(events, len, k)
      {
        RecordHere(q[..], n, last, events, fmt, k);
        var size := fmt.read(q[..][..n], done).size;
        if done + size > len {
          break;
        }
        done, k := done + size, k + 1;
      }
      if k < |events| {
        TotalDrop(events, k);
        TotalPositive(events[k..]);
      }
    }

    method Hand(done: nat, ghost k: nat) returns (r: ReadResult)
      requires Valid() && k <= |events| && 0 < done == Total(events[..k])
      modifies q, `n, `last, `overflowed, `events
      ensures events == old(events)[k..] && overflowed == (old(overflowed) && k < |old(events)|)
      ensures Begins(q[..], n, last, events, fmt)
      ensures r.Got? && Parse(r.bytes, 0, fmt.read) == old(events)[..k] && |r.bytes| == done
    {
      ghost var page := q[..];
      TotalDrop(events, k);
      r := Got(q[..done]);
      assert r.bytes == page[..done];
      MoveDown(done);
      BeginsLess(page, n, last, events, fmt, k, q[..]);
      n := n - done;
      last := if last >= done then last - done else 0;
      if n == 0 {
        overflowed := false;
      }
      ReadBack(events[..k]);
      events := events[k..];
    }

    method MoveDown(done: nat)
      requires done <= n <= q.Length
      modifies q
      ensures q[..][..n - done] == old(q[..])[done..n]
    {
      var tail := q[done..n];
      Store(0, tail);
    }

    lemma ReadBack(evs: seq<Event>)
      requires Sound(fmt) && AllWell(evs)
      ensures Parse(Joined(evs, fmt.write), 0, fmt.read) == evs
    {
      assert [] + evs == evs;
      ParseUndoesJoined([], evs, fmt);
    }
  }
}
