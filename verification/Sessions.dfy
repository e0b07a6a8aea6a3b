/**
Sessions and their controlling terminals (kernel/ctty.c), with the calls that
make tasks, groups and sessions.
*/
module Sessions {
  import opened Basics

  const EPERM := 1
  const ESRCH := 3
  const EINVAL := 22
  const ENOTTY := 25

  /** A task, by its pid. A user task has an address space; one that has exited waits as a zombie. */
  datatype Task = Task(pid: int, sid: int, pgid: int, ctty: Option<nat>, parent: int, user: bool, root: bool, zombie: bool)

  /** A terminal: the session it controls, 0 for none, and its foreground group. */
  datatype Tty = Tty(sid: int, pgrp: int)

  datatype World = World(tasks: seq<Task>, ttys: seq<Tty>, nextPid: int)

  // ------------------------------------------------------------------
  // What every call keeps
  // ------------------------------------------------------------------

  predicate Numbered(w: World) {
    && (forall i :: 0 <= i < |w.tasks| ==> 1 <= w.tasks[i].pid < w.nextPid && 1 <= w.tasks[i].sid < w.nextPid)
    && (forall i, j :: 0 <= i < j < |w.tasks| ==> w.tasks[i].pid != w.tasks[j].pid)
  }

  predicate Leader(t: Task) {
    t.pid == t.sid
  }

  /** The task leads the session that terminal `k` controls, and holds the terminal. */
  predicate Holds(t: Task, k: nat, sid: int) {
    t.pid == sid && t.sid == sid && !t.zombie && t.ctty == Some(k)
  }

  predicate InSession(w: World) {
    forall i :: 0 <= i < |w.tasks| && w.tasks[i].ctty.Some? ==>
      w.tasks[i].ctty.value < |w.ttys| && w.ttys[w.tasks[i].ctty.value].sid == w.tasks[i].sid
  }

  ghost predicate HasHolder(w: World, k: nat)
    requires k < |w.ttys|
  {
    exists i :: 0 <= i < |w.tasks| && Holds(w.tasks[i], k, w.ttys[k].sid)
  }

  /** A session number is the pid of its leader as long as there is a task with that pid, and a leader leads its group. */
  predicate Led(w: World) {
    && (forall i, j :: 0 <= i < |w.tasks| && 0 <= j < |w.tasks| && w.tasks[i].pid == w.tasks[j].sid ==> Leader(w.tasks[i]))
    && (forall i :: 0 <= i < |w.tasks| && Leader(w.tasks[i]) ==> w.tasks[i].pgid == w.tasks[i].pid)
  }

  ghost predicate Sound(w: World) {
    && Numbered(w) && Led(w) && InSession(w)
    && forall k :: 0 <= k < |w.ttys| && w.ttys[k].sid != 0 ==> HasHolder(w, k)
  }

  /** Sessions and terminals go together one to one. */
  ghost predicate Paired(w: World) {
    && (forall k, m :: 0 <= k < |w.ttys| && 0 <= m < |w.ttys| && w.ttys[k].sid == w.ttys[m].sid != 0 ==> k == m)
    && (forall i :: 0 <= i < |w.tasks| && w.tasks[i].ctty.Some? ==>
          w.tasks[i].ctty.value < |w.ttys| && w.ttys[w.tasks[i].ctty.value].sid == w.tasks[i].sid)
    && (forall i, j :: (0 <= i < |w.tasks| && 0 <= j < |w.tasks| && w.tasks[i].ctty.Some? && w.tasks[j].ctty.Some?
                        && w.tasks[i].sid == w.tasks[j].sid) ==> w.tasks[i].ctty == w.tasks[j].ctty)
  }

  lemma SamePid(w: World, i: nat, j: nat)
    requires Numbered(w) && i < |w.tasks| && j < |w.tasks| && w.tasks[i].pid == w.tasks[j].pid
    ensures i == j
  {
  }

  lemma OneTerminal(w: World, k: nat, m: nat)
    requires Sound(w) && k < |w.ttys| && m < |w.ttys| && w.ttys[k].sid == w.ttys[m].sid != 0
    ensures k == m
  {
    assert HasHolder(w, k) && HasHolder(w, m);
    var i :| 0 <= i < |w.tasks| && Holds(w.tasks[i], k, w.ttys[k].sid);
    var j :| 0 <= j < |w.tasks| && Holds(w.tasks[j], m, w.ttys[m].sid);
    SamePid(w, i, j);
  }

  lemma SoundIsPaired(w: World)
    requires Sound(w)
    ensures Paired(w)
  {
    forall k, m | 0 <= k < |w.ttys| && 0 <= m < |w.ttys| && w.ttys[k].sid == w.ttys[m].sid != 0
      ensures k == m
    {
      OneTerminal(w, k, m);
    }
    forall i, j | 0 <= i < |w.tasks| && 0 <= j < |w.tasks| && w.tasks[i].ctty.Some? && w.tasks[j].ctty.Some?
                  && w.tasks[i].sid == w.tasks[j].sid
      ensures w.tasks[i].ctty == w.tasks[j].ctty
    {
      OneTerminal(w, w.tasks[i].ctty.value, w.tasks[j].ctty.value);
    }
  }

  // ------------------------------------------------------------------
  // Attaching and detaching
  // ------------------------------------------------------------------

  function WithTask(w: World, i: nat, t: Task): World
    requires i < |w.tasks|
  {
    w.(tasks := w.tasks[i := t])
  }

  predicate Loses(t: Task, k: nat, sid: int) {
    t.ctty == Some(k) && (sid == 0 || t.sid == sid)
  }

  function Freed(ts: seq<Task>, k: nat, sid: int): (r: seq<Task>)
    ensures |r| == |ts|
    ensures forall i :: 0 <= i < |ts| ==> r[i] == if Loses(ts[i], k, sid) then ts[i].(ctty := None) else ts[i]
  {
    if ts == [] then []
    else
      var t := ts[|ts| - 1];
      Freed(ts[..|ts| - 1], k, sid) + [if Loses(t, k, sid) then t.(ctty := None) else t]
  }

  function Detached(w: World, k: nat): World
    requires k < |w.ttys|
  {
    w.(tasks := Freed(w.tasks, k, w.ttys[k].sid), ttys := w.ttys[k := Tty(0, 0)])
  }

  function Attached(w: World, i: nat, k: nat): World
    requires i < |w.tasks| && k < |w.ttys|
  {
    var t := w.tasks[i];
    w.(tasks := w.tasks[i := t.(ctty := Some(k))], ttys := w.ttys[k := Tty(t.sid, t.pgid)])
  }

  /** After a detachment nobody has the terminal, and it has no session. */
  lemma DetachedKeeps(w: World, k: nat)
    requires Sound(w) && k < |w.ttys|
    ensures Sound(Detached(w, k)) && Detached(w, k).ttys[k].sid == 0
    ensures forall i :: 0 <= i < |w.tasks| ==> Detached(w, k).tasks[i].ctty != Some(k)
  {
    var w' := Detached(w, k);
    DetachedTasks(w, k);
    forall m | 0 <= m < |w'.ttys| && w'.ttys[m].sid != 0
      ensures HasHolder(w', m)
    {
      assert HasHolder(w, m);
      var i :| 0 <= i < |w.tasks| && Holds(w.tasks[i], m, w.ttys[m].sid);
      assert Holds(w'.tasks[i], m, w'.ttys[m].sid);
    }
  }

  lemma DetachedTasks(w: World, k: nat)
    requires Sound(w) && k < |w.ttys|
    ensures Numbered(Detached(w, k)) && Led(Detached(w, k)) && InSession(Detached(w, k))
  {
    var ts := Detached(w, k).tasks;
    assert forall i :: 0 <= i < |ts| ==> ts[i].pid == w.tasks[i].pid && ts[i].sid == w.tasks[i].sid && ts[i].pgid == w.tasks[i].pgid;
  }

  lemma AttachedKeeps(w: World, i: nat, k: nat)
    requires Sound(w) && i < |w.tasks| && k < |w.ttys| && w.ttys[k].sid == 0
    requires Leader(w.tasks[i]) && !w.tasks[i].zombie && w.tasks[i].ctty.None?
    ensures Sound(Attached(w, i, k))
  {
    var w' := Attached(w, i, k);
    forall m | 0 <= m < |w'.ttys| && w'.ttys[m].sid != 0
      ensures HasHolder(w', m)
    {
      if m == k {
        assert Holds(w'.tasks[i], k, w'.ttys[k].sid);
      } else {
        assert HasHolder(w, m);
        var j :| 0 <= j < |w.tasks| && Holds(w.tasks[j], m, w.ttys[m].sid);
        assert Holds(w'.tasks[j], m, w'.ttys[m].sid);
      }
    }
  }

  // ------------------------------------------------------------------
  // The calls
  // ------------------------------------------------------------------

  predicate Running(w: World, c: nat) {
    c < |w.tasks| && !w.tasks[c].zombie
  }

  /** A terminal is opened. */
  function Opened(w: World, c: nat, k: nat, noctty: bool): World
    requires Running(w, c) && k < |w.ttys|
  {
    var t := w.tasks[c];
    if noctty || !t.user then w
    else if Leader(t) && t.ctty.None? && w.ttys[k].sid == 0 then Attached(w, c, k)
    else w
  }

  /** TIOCSCTTY, `steal` being its argument 1. */
  function Asked(w: World, c: nat, k: nat, steal: bool): (World, int)
    requires Running(w, c) && k < |w.ttys|
  {
    var t := w.tasks[c];
    if t.ctty == Some(k) && w.ttys[k].sid == t.sid then (w, 0)
    else if !Leader(t) || t.ctty.Some? then (w, -EPERM)
    else if w.ttys[k].sid != 0 && w.ttys[k].sid != t.sid then
      if !steal || !t.root then (w, -EPERM) else (Attached(Detached(w, k), c, k), 0)
    else (Attached(w, c, k), 0)
  }

  /** TIOCNOTTY. */
  function GivenUp(w: World, c: nat, k: nat): (World, int)
    requires Running(w, c) && k < |w.ttys|
  {
    var t := w.tasks[c];
    if t.ctty != Some(k) then (w, -ENOTTY)
    else if Leader(t) then (Detached(w, k), 0)
    else (WithTask(w, c, t.(ctty := None)), 0)
  }

  function HungUp(w: World, k: nat): World
    requires k < |w.ttys|
  {
    if w.ttys[k].sid == 0 then w else Detached(w, k)
  }

  function Exited(w: World, c: nat): World
    requires Running(w, c) && InSession(w)
  {
    var t := w.tasks[c];
    var w1 := if t.ctty.Some? && Leader(t) && w.ttys[t.ctty.value].sid == t.sid then Detached(w, t.ctty.value) else w;
    WithTask(w1, c, w1.tasks[c].(ctty := None, zombie := true))
  }

  predicate LiveGroup(w: World, pgid: int) {
    exists i :: 0 <= i < |w.tasks| && w.tasks[i].pgid == pgid && !w.tasks[i].zombie
  }

  function SessionStarted(w: World, c: nat): (World, int)
    requires Running(w, c)
  {
    var t := w.tasks[c];
    if t.pgid == t.pid || LiveGroup(w, t.pid) then (w, -EPERM)
    else (WithTask(w, c, t.(sid := t.pid, pgid := t.pid, ctty := None)), t.pid)
  }

  /** A fork, a thread or a spawned program: all inherit session, group and terminal. */
  function Forked(w: World, c: nat, user: bool): World
    requires Running(w, c)
  {
    var t := w.tasks[c];
    World(w.tasks + [Task(w.nextPid, t.sid, t.pgid, t.ctty, t.pid, user, t.root, false)], w.ttys, w.nextPid + 1)
  }

  /** A task the kernel starts for itself is alone in its group and session. */
  function KernelTask(w: World): World {
    World(w.tasks + [Task(w.nextPid, w.nextPid, w.nextPid, None, 0, false, true, false)], w.ttys, w.nextPid + 1)
  }

  /** The slot of the task with this pid, or the number of slots. */
  function FindPid(ts: seq<Task>, pid: int): (i: nat)
    ensures i <= |ts| && (i < |ts| ==> ts[i].pid == pid)
    ensures i == |ts| ==> forall j :: 0 <= j < |ts| ==> ts[j].pid != pid
  {
    if ts == [] then 0
    else
      var i := FindPid(ts[..|ts| - 1], pid);
      if i < |ts| - 1 || ts[|ts| - 1].pid == pid then i else |ts|
  }

  function GroupSet(w: World, c: nat, pid: int, group: int): (World, int)
    requires Running(w, c)
  {
    var i := if pid == 0 then c else FindPid(w.tasks, pid);
    if i == |w.tasks| || (i != c && w.tasks[i].parent != w.tasks[c].pid) then (w, -ESRCH)
    else if group < 0 then (w, -EINVAL)
    else
      var t := w.tasks[i];
      var g := if group == 0 then t.pid else group;
      if t.sid != w.tasks[c].sid || Leader(t) then (w, -EPERM)
      else if g != t.pid && !(exists m :: 0 <= m < |w.tasks| && w.tasks[m].pgid == g && w.tasks[m].sid == t.sid) then (w, -EPERM)
      else (WithTask(w, i, t.(pgid := g)), 0)
  }

  /** A zombie is waited for. */
  function Reaped(w: World, i: nat): World
    requires i < |w.tasks| && w.tasks[i].zombie
  {
    w.(tasks := w.tasks[..i] + w.tasks[i + 1..])
  }

  // ------------------------------------------------------------------
  // Every call keeps it
  // ------------------------------------------------------------------

  /** A task may change its group unless it leads, and lose its terminal unless it holds it for its session. */
  predicate Harmless(t: Task, t': Task) {
    && t'.pid == t.pid && t'.sid == t.sid && (Leader(t) ==> t'.pgid == t.pgid)
    && ((t'.ctty == t.ctty && t'.zombie == t.zombie) || (t'.ctty.None? && !(Leader(t) && t.ctty.Some?)))
  }

  lemma HarmlessHolder(w: World, i: nat, t': Task, m: nat)
    requires i < |w.tasks| && Harmless(w.tasks[i], t') && m < |w.ttys| && HasHolder(w, m)
    ensures HasHolder(WithTask(w, i, t'), m)
  {
    var j :| 0 <= j < |w.tasks| && Holds(w.tasks[j], m, w.ttys[m].sid);
    assert Holds(WithTask(w, i, t').tasks[j], m, w.ttys[m].sid);
  }

  lemma HarmlessKeeps(w: World, i: nat, t': Task)
    requires Sound(w) && i < |w.tasks| && Harmless(w.tasks[i], t')
    ensures Sound(WithTask(w, i, t'))
  {
    var w' := WithTask(w, i, t');
    forall m | 0 <= m < |w'.ttys| && w'.ttys[m].sid != 0
      ensures HasHolder(w', m)
    {
      assert HasHolder(w, m);
      HarmlessHolder(w, i, t', m);
    }
  }

  lemma AskedKeeps(w: World, c: nat, k: nat, steal: bool)
    requires Sound(w) && Running(w, c) && k < |w.ttys|
    ensures Sound(Asked(w, c, k, steal).0)
  {
    var t := w.tasks[c];
    if Leader(t) && t.ctty.None? {
      if w.ttys[k].sid != 0 && w.ttys[k].sid != t.sid {
        DetachedKeeps(w, k);
        AttachedKeeps(Detached(w, k), c, k);
      } else {
        UncontrolledLeader(w, c, k);
        AttachedKeeps(w, c, k);
      }
    }
  }

  /** No terminal controls the session of a leader without one. */
  lemma UncontrolledLeader(w: World, c: nat, k: nat)
    requires Sound(w) && Running(w, c) && k < |w.ttys| && Leader(w.tasks[c]) && w.tasks[c].ctty.None?
    ensures w.ttys[k].sid != w.tasks[c].sid
  {
    if w.ttys[k].sid != 0 {
      assert HasHolder(w, k);
      var i :| 0 <= i < |w.tasks| && Holds(w.tasks[i], k, w.ttys[k].sid);
      assert i != c;
    }
  }

  lemma ExitedKeeps(w: World, c: nat)
    requires Sound(w) && Running(w, c)
    ensures Sound(Exited(w, c))
  {
    var t := w.tasks[c];
    var w1 := if t.ctty.Some? && Leader(t) then Detached(w, t.ctty.value) else w;
    if t.ctty.Some? && Leader(t) {
      DetachedKeeps(w, t.ctty.value);
    }
    HarmlessKeeps(w1, c, w1.tasks[c].(ctty := None, zombie := true));
  }

  /** A session started has the number of no session there is. */
  lemma SessionStartedKeeps(w: World, c: nat)
    requires Sound(w) && Running(w, c)
    ensures Sound(SessionStarted(w, c).0)
  {
    var t := w.tasks[c];
    if t.pgid != t.pid && !LiveGroup(w, t.pid) {
      var w' := SessionStarted(w, c).0;
      assert !Leader(t);
      assert forall j :: 0 <= j < |w.tasks| ==> w.tasks[j].sid != t.pid;
      forall m | 0 <= m < |w'.ttys| && w'.ttys[m].sid != 0
        ensures HasHolder(w', m)
      {
        assert HasHolder(w, m);
        var j :| 0 <= j < |w.tasks| && Holds(w.tasks[j], m, w.ttys[m].sid);
        assert Holds(w'.tasks[j], m, w'.ttys[m].sid);
      }
    }
  }

  /** A new task is a leader without a terminal, or in the session of one there is and with its terminal. */
  ghost predicate Welcome(w: World, t: Task) {
    && t.pid == w.nextPid >= 1
    && ((t.ctty.None? && Leader(t) && t.pgid == t.pid)
        || exists c :: 0 <= c < |w.tasks| && t.sid == w.tasks[c].sid && t.ctty == w.tasks[c].ctty)
  }

  lemma NewTaskKeeps(w: World, t: Task, w': World)
    requires Sound(w) && Welcome(w, t) && w' == World(w.tasks + [t], w.ttys, w.nextPid + 1)
    ensures Sound(w')
  {
    var next := w.nextPid + 1;
    assert forall i :: 0 <= i < |w.tasks| ==> w'.tasks[i] == w.tasks[i];
    NewTaskNumbered(w, t, next);
    NewTaskLed(w, t, next);
    forall m | 0 <= m < |w'.ttys| && w'.ttys[m].sid != 0
      ensures HasHolder(w', m)
    {
      assert HasHolder(w, m);
      var j :| 0 <= j < |w.tasks| && Holds(w.tasks[j], m, w.ttys[m].sid);
      assert Holds(w'.tasks[j], m, w'.ttys[m].sid);
    }
  }

  lemma NewTaskNumbered(w: World, t: Task, next: int)
    requires Sound(w) && next == w.nextPid + 1 && Welcome(w, t)
    ensures Numbered(World(w.tasks + [t], w.ttys, next)) && InSession(World(w.tasks + [t], w.ttys, next))
  {
  }

  lemma NewTaskLed(w: World, t: Task, next: int)
    requires Sound(w) && next == w.nextPid + 1 && Welcome(w, t)
    ensures Led(World(w.tasks + [t], w.ttys, next))
  {
  }

  lemma ReapedKeeps(w: World, i: nat)
    requires Sound(w) && i < |w.tasks| && w.tasks[i].zombie
    ensures Sound(Reaped(w, i))
  {
    var w' := Reaped(w, i);
    ReapedTasks(w, i);
    forall m | 0 <= m < |w'.ttys| && w'.ttys[m].sid != 0
      ensures HasHolder(w', m)
    {
      assert HasHolder(w, m);
      var j :| 0 <= j < |w.tasks| && Holds(w.tasks[j], m, w.ttys[m].sid);
      var x := if j < i then j else j - 1;
      assert Holds(w'.tasks[x], m, w'.ttys[m].sid);
    }
  }

  lemma ReapedTasks(w: World, i: nat)
    requires Sound(w) && i < |w.tasks| && w.tasks[i].zombie
    ensures Numbered(Reaped(w, i)) && Led(Reaped(w, i)) && InSession(Reaped(w, i))
  {
    ReapedNumbered(w, i);
    ReapedLed(w, i);
  }

  lemma ReapedNumbered(w: World, i: nat)
    requires Numbered(w) && InSession(w) && i < |w.tasks| && w.tasks[i].zombie
    ensures Numbered(Reaped(w, i)) && InSession(Reaped(w, i))
  {
    var ts := Reaped(w, i).tasks;
    assert forall j :: 0 <= j < |ts| ==> ts[j] == w.tasks[if j < i then j else j + 1];
  }

  lemma ReapedLed(w: World, i: nat)
    requires Led(w) && i < |w.tasks| && w.tasks[i].zombie
    ensures Led(Reaped(w, i))
  {
    var ts := Reaped(w, i).tasks;
    assert forall j :: 0 <= j < |ts| ==> ts[j] == w.tasks[if j < i then j else j + 1];
  }

  datatype Call =
    | Open(c: nat, k: nat, noctty: bool)
    | SetCtty(c: nat, k: nat, steal: bool)
    | NoTty(c: nat, k: nat)
    | Hangup(k: nat)
    | Exit(c: nat)
    | SetSid(c: nat)
    | SetPgid(c: nat, pid: int, group: int)
    | Fork(c: nat, user: bool)
    | StartKernelTask
    | Reap(c: nat)

  predicate Possible(w: World, call: Call) {
    match call
    case Open(c, k, _) => Running(w, c) && k < |w.ttys|
    case SetCtty(c, k, _) => Running(w, c) && k < |w.ttys|
    case NoTty(c, k) => Running(w, c) && k < |w.ttys|
    case Hangup(k) => k < |w.ttys|
    case Exit(c) => Running(w, c) && InSession(w)
    case SetSid(c) => Running(w, c)
    case SetPgid(c, _, _) => Running(w, c)
    case Fork(c, _) => Running(w, c)
    case StartKernelTask => w.nextPid >= 1
    case Reap(c) => c < |w.tasks| && w.tasks[c].zombie
  }

  function Step(w: World, call: Call): World
    requires Possible(w, call)
  {
    match call
    case Open(c, k, noctty) => Opened(w, c, k, noctty)
    case SetCtty(c, k, steal) => Asked(w, c, k, steal).0
    case NoTty(c, k) => GivenUp(w, c, k).0
    case Hangup(k) => HungUp(w, k)
    case Exit(c) => Exited(w, c)
    case SetSid(c) => SessionStarted(w, c).0
    case SetPgid(c, pid, group) => GroupSet(w, c, pid, group).0
    case Fork(c, user) => Forked(w, c, user)
    case StartKernelTask => KernelTask(w)
    case Reap(c) => Reaped(w, c)
  }

  lemma StepKeeps(w: World, call: Call)
    requires Sound(w) && Possible(w, call)
    ensures Sound(Step(w, call))
  {
    match call
    case Open(c, k, noctty) => OpenedKeeps(w, c, k, noctty);
    case SetCtty(c, k, steal) => AskedKeeps(w, c, k, steal);
    case NoTty(c, k) => GivenUpKeeps(w, c, k);
    case Hangup(k) => DetachedKeeps(w, k);
    case Exit(c) => ExitedKeeps(w, c);
    case SetSid(c) => SessionStartedKeeps(w, c);
    case SetPgid(c, pid, group) => GroupSetKeeps(w, c, pid, group);
    case Fork(c, user) => ForkedKeeps(w, c, user);
    case StartKernelTask => KernelTaskKeeps(w);
    case Reap(c) => ReapedKeeps(w, c);
  }

  lemma OpenedKeeps(w: World, c: nat, k: nat, noctty: bool)
    requires Sound(w) && Running(w, c) && k < |w.ttys|
    ensures Sound(Opened(w, c, k, noctty))
  {
    if Opened(w, c, k, noctty) != w {
      AttachedKeeps(w, c, k);
    }
  }

  lemma GivenUpKeeps(w: World, c: nat, k: nat)
    requires Sound(w) && Running(w, c) && k < |w.ttys|
    ensures Sound(GivenUp(w, c, k).0)
  {
    if w.tasks[c].ctty == Some(k) {
      if Leader(w.tasks[c]) {
        DetachedKeeps(w, k);
      } else {
        HarmlessKeeps(w, c, w.tasks[c].(ctty := None));
      }
    }
  }

  lemma ForkedKeeps(w: World, c: nat, user: bool)
    requires Sound(w) && Running(w, c)
    ensures Sound(Forked(w, c, user))
  {
    var t := w.tasks[c];
    var child := Task(w.nextPid, t.sid, t.pgid, t.ctty, t.pid, user, t.root, false);
    ChildWelcome(w, c, child);
    NewTaskKeeps(w, child, Forked(w, c, user));
  }

  lemma ChildWelcome(w: World, c: nat, child: Task)
    requires Sound(w) && Running(w, c)
    requires child.pid == w.nextPid && child.sid == w.tasks[c].sid && child.pgid == w.tasks[c].pgid && child.ctty == w.tasks[c].ctty
    requires child.parent == w.tasks[c].pid && !child.zombie
    ensures Welcome(w, child)
  {
  }

  lemma KernelTaskKeeps(w: World)
    requires Sound(w) && w.nextPid >= 1
    ensures Sound(KernelTask(w))
  {
    var t := Task(w.nextPid, w.nextPid, w.nextPid, None, 0, false, true, false);
    NewTaskKeeps(w, t, KernelTask(w));
  }

  lemma GroupSetKeeps(w: World, c: nat, pid: int, group: int)
    requires Sound(w) && Running(w, c)
    ensures Sound(GroupSet(w, c, pid, group).0)
  {
    var i := if pid == 0 then c else FindPid(w.tasks, pid);
    if GroupSet(w, c, pid, group).1 == 0 {
      HarmlessKeeps(w, i, w.tasks[i].(pgid := if group == 0 then w.tasks[i].pid else group));
    }
  }

  /** Worlds that calls, one after the other, lead to from no task and terminals nobody has. */
  ghost predicate Run(ws: seq<World>, calls: seq<Call>) {
    && |ws| == |calls| + 1
    && ws[0].tasks == [] && ws[0].nextPid == 1 && (forall k :: 0 <= k < |ws[0].ttys| ==> ws[0].ttys[k].sid == 0)
    && forall n :: 0 <= n < |calls| ==> Possible(ws[n], calls[n]) && ws[n + 1] == Step(ws[n], calls[n])
  }

  lemma {:induction false} RunIsSound(ws: seq<World>, calls: seq<Call>, n: nat)
    requires Run(ws, calls) && n <= |calls|
    ensures Sound(ws[n])
  {
    if n > 0 {
      RunIsSound(ws, calls, n - 1);
      assert ws[n - 1 + 1] == Step(ws[n - 1], calls[n - 1]);
      StepKeeps(ws[n - 1], calls[n - 1]);
    }
  }

  /**
  Over every run no two terminals control one session, and whoever has a terminal is
  of the session it controls.
  */
  lemma SessionsAndTerminalsPair(ws: seq<World>, calls: seq<Call>, n: nat)
    requires Run(ws, calls) && n <= |calls|
    ensures Paired(ws[n])
  {
    RunIsSound(ws, calls, n);
    SoundIsPaired(ws[n]);
  }

  /** When a leader exits, nobody is left with the terminal it had. */
  lemma ExitReleases(w: World, c: nat)
    requires Sound(w) && Running(w, c) && Leader(w.tasks[c]) && w.tasks[c].ctty.Some?
    ensures var k, w' := w.tasks[c].ctty.value, Exited(w, c);
            w'.ttys[k].sid == 0 && forall i :: 0 <= i < |w'.tasks| ==> w'.tasks[i].ctty != Some(k)
  {
    DetachedKeeps(w, w.tasks[c].ctty.value);
  }

  // ------------------------------------------------------------------
  // Who gets a terminal, and who loses it
  // ------------------------------------------------------------------

  /** The caller leads a session and has no terminal yet. */
  predicate LeadsWithout(t: Task) {
    t.pid == t.sid && t.ctty.None?
  }

  /** The caller takes terminal `k`: a free one, or, as root and with argument 1 to TIOCSCTTY, anybody's. */
  predicate Takes(w: World, call: Call, k: nat)
    requires Possible(w, call) && k < |w.ttys|
  {
    match call
    case Open(c, m, noctty) => m == k && LeadsWithout(w.tasks[c]) && w.ttys[k].sid == 0 && !noctty && w.tasks[c].user
    case SetCtty(c, m, steal) => m == k && LeadsWithout(w.tasks[c]) && (w.ttys[k].sid == 0 || (steal && w.tasks[c].root))
    case _ => false
  }

  /** Terminal `k` is taken from its session: given up by the leader, hung up, or left by the leader's exit. */
  predicate Frees(w: World, call: Call, k: nat)
    requires Possible(w, call) && k < |w.ttys|
  {
    match call
    case NoTty(c, m) => m == k && w.tasks[c].ctty == Some(k) && w.tasks[c].pid == w.tasks[c].sid
    case Hangup(m) => m == k && w.ttys[k].sid != 0
    case Exit(c) => w.tasks[c].ctty == Some(k) && w.tasks[c].pid == w.tasks[c].sid
    case _ => false
  }

  /** A terminal's session changes in these ways and no other. */
  lemma TerminalStep(w: World, call: Call, k: nat)
    requires Sound(w) && Possible(w, call) && k < |w.ttys|
    ensures var w' := Step(w, call);
            && |w'.ttys| == |w.ttys|
            && w'.ttys[k] == (if Takes(w, call, k) then Tty(w.tasks[call.c].pid, w.tasks[call.c].pid)
                              else if Frees(w, call, k) then Tty(0, 0)
                              else w.ttys[k])
  {
    match call
    case SetCtty(c, m, _) =>
      if LeadsWithout(w.tasks[c]) {
        UncontrolledLeader(w, c, m);
      }
    case _ =>
  }

  /** May the task start a session? It must not lead a group, nor may there be a live one of its number. */
  predicate MayLead(w: World, i: nat)
    requires i < |w.tasks|
  {
    w.tasks[i].pgid != w.tasks[i].pid && forall j :: 0 <= j < |w.tasks| && w.tasks[j].pgid == w.tasks[i].pid ==> w.tasks[j].zombie
  }

  /** The task itself lets go of its terminal: by TIOCNOTTY, by exiting or by starting a session. */
  predicate LetsGo(w: World, call: Call, i: nat)
    requires Possible(w, call) && i < |w.tasks|
  {
    match call
    case NoTty(c, m) => c == i && w.tasks[i].ctty == Some(m)
    case Exit(c) => c == i
    case SetSid(c) => c == i && MayLead(w, i)
    case _ => false
  }

  /** What a call makes of the task in slot `i`. */
  predicate Becomes(w: World, call: Call, i: nat, t': Task)
    requires Possible(w, call) && i < |w.tasks|
  {
    var t := w.tasks[i];
    && t'.pid == t.pid && t'.parent == t.parent && t'.user == t.user && t'.root == t.root
    && t'.sid == (if call == SetSid(i) && MayLead(w, i) then t.pid else t.sid)
    && (t'.zombie <==> t.zombie || call == Exit(i))
    && t'.ctty == (if (call.Open? || call.SetCtty?) && call.c == i && call.k < |w.ttys| && Takes(w, call, call.k) then Some(call.k)
                   else if LetsGo(w, call, i) then None
                   else if t.ctty.Some? && t.ctty.value < |w.ttys| && (Takes(w, call, t.ctty.value) || Frees(w, call, t.ctty.value)) then None
                   else t.ctty)
  }

  /** A task's terminal and session change in these ways and no other. */
  lemma TaskStep(w: World, call: Call, i: nat)
    requires Sound(w) && Possible(w, call) && i < |w.tasks| && !call.Reap?
    ensures i < |Step(w, call).tasks| && Becomes(w, call, i, Step(w, call).tasks[i])
  {
    match call
    case SetCtty(c, k, steal) => TaskAsked(w, c, k, steal, i);
    case NoTty(c, k) => TaskGivenUp(w, c, k, i);
    case Exit(c) => TaskExited(w, c, i);
    case SetSid(c) => TaskLeads(w, c, i);
    case SetPgid(c, pid, group) => TaskGrouped(w, c, pid, group, i);
    case _ =>
  }

  lemma TaskAsked(w: World, c: nat, k: nat, steal: bool, i: nat)
    requires Sound(w) && Running(w, c) && k < |w.ttys| && i < |w.tasks|
    ensures i < |Asked(w, c, k, steal).0.tasks| && Becomes(w, SetCtty(c, k, steal), i, Asked(w, c, k, steal).0.tasks[i])
  {
    if LeadsWithout(w.tasks[c]) {
      UncontrolledLeader(w, c, k);
    }
  }

  lemma TaskGivenUp(w: World, c: nat, k: nat, i: nat)
    requires Sound(w) && Running(w, c) && k < |w.ttys| && i < |w.tasks|
    ensures i < |GivenUp(w, c, k).0.tasks| && Becomes(w, NoTty(c, k), i, GivenUp(w, c, k).0.tasks[i])
  {
  }

  lemma TaskExited(w: World, c: nat, i: nat)
    requires Sound(w) && Running(w, c) && i < |w.tasks|
    ensures i < |Exited(w, c).tasks| && Becomes(w, Exit(c), i, Exited(w, c).tasks[i])
  {
  }

  lemma TaskLeads(w: World, c: nat, i: nat)
    requires Sound(w) && Running(w, c) && i < |w.tasks|
    ensures i < |SessionStarted(w, c).0.tasks| && Becomes(w, SetSid(c), i, SessionStarted(w, c).0.tasks[i])
  {
  }

  lemma TaskGrouped(w: World, c: nat, pid: int, group: int, i: nat)
    requires Sound(w) && Running(w, c) && i < |w.tasks|
    ensures i < |GroupSet(w, c, pid, group).0.tasks| && Becomes(w, SetPgid(c, pid, group), i, GroupSet(w, c, pid, group).0.tasks[i])
  {
  }

  /** A child has its parent's session, group and terminal, and a number nobody had; a kernel task is on its own. */
  lemma ForkStep(w: World, call: Call)
    requires Sound(w) && Possible(w, call) && (call.Fork? || call.StartKernelTask?)
    ensures var w', n := Step(w, call), |w.tasks|;
            && |w'.tasks| == n + 1 && w'.tasks[n].pid !in Pids(w) && !w'.tasks[n].zombie
            && (call.Fork? ==> var p := w.tasks[call.c];
                               w'.tasks[n].(pid := p.pid, user := p.user, parent := p.parent) == p && w'.tasks[n].parent == p.pid)
            && (call.StartKernelTask? ==> LeadsWithout(w'.tasks[n]) && w'.tasks[n].pgid == w'.tasks[n].pid)
  {
  }

  function Pids(w: World): set<int> {
    set i | 0 <= i < |w.tasks| :: w.tasks[i].pid
  }

  /** Reaping drops the one task and no other. */
  lemma ReapStep(w: World, c: nat, t: Task)
    requires Sound(w) && Possible(w, Reap(c))
    ensures t in Step(w, Reap(c)).tasks <==> t in w.tasks && t.pid != w.tasks[c].pid
  {
    var ts := Step(w, Reap(c)).tasks;
    assert forall j :: 0 <= j < |ts| ==> ts[j] == w.tasks[if j < c then j else j + 1];
    if t in w.tasks && t.pid != w.tasks[c].pid {
      var j :| 0 <= j < |w.tasks| && w.tasks[j] == t;
      assert ts[if j < c then j else j - 1] == t;
    }
  }

  function Sid(w: World, k: nat): int {
    if k < |w.ttys| then w.ttys[k].sid else 0
  }

  predicate Taken(w: World, call: Call, k: nat, sid: int) {
    k < |w.ttys| && Possible(w, call) && Takes(w, call, k) && w.tasks[call.c].pid == sid
  }

  /** A terminal somebody has is freed, or taken by a root leader with argument 1. */
  predicate Lost(w: World, call: Call, k: nat) {
    && k < |w.ttys| && Possible(w, call)
    && (Frees(w, call, k) || (call.SetCtty? && call.k == k && call.steal && w.tasks[call.c].root && LeadsWithout(w.tasks[call.c])))
  }

  lemma SidStep(ws: seq<World>, calls: seq<Call>, k: nat, t: nat)
    requires Run(ws, calls) && t < |calls|
    ensures Sid(ws[t + 1], k) == Sid(ws[t], k) || Sid(ws[t], k) == 0 || Lost(ws[t], calls[t], k)
    ensures || Taken(ws[t], calls[t], k, Sid(ws[t + 1], k)) || Sid(ws[t + 1], k) == 0
            || (Sid(ws[t + 1], k) == Sid(ws[t], k) && !Lost(ws[t], calls[t], k))
  {
    RunIsSound(ws, calls, t);
    assert ws[t + 1] == Step(ws[t], calls[t]);
    SidStepOf(ws[t], calls[t], ws[t + 1], k);
  }

  lemma SidStepOf(w: World, call: Call, w': World, k: nat)
    requires Sound(w) && Possible(w, call) && w' == Step(w, call)
    ensures Sid(w', k) == Sid(w, k) || Sid(w, k) == 0 || Lost(w, call, k)
    ensures Taken(w, call, k, Sid(w', k)) || Sid(w', k) == 0 || (Sid(w', k) == Sid(w, k) && !Lost(w, call, k))
  {
    if k < |w.ttys| {
      TerminalStep(w, call, k);
    } else if |w.ttys| > 0 {
      TerminalStep(w, call, 0);
    }
  }

  lemma {:induction false} LastChange(sid: nat -> int, lost: nat -> bool, a: nat, b: nat)
    requires a <= b && sid(a) != sid(b)
    requires forall t: nat :: a <= t < b ==> sid(t + 1) == sid(t) || sid(t) != sid(a) || lost(t)
    ensures exists t :: a <= t < b && sid(t) == sid(a) && lost(t)
    decreases b - a
  {
    assert sid(b - 1 + 1) == sid(b);
    if sid(b - 1) != sid(a) {
      LastChange(sid, lost, a, b - 1);
    }
  }

  lemma {:induction false} SinceTaken(sid: nat -> int, taken: (nat, int) -> bool, lost: nat -> bool, n: nat)
    requires sid(0) == 0 && sid(n) != 0
    requires forall t: nat :: t < n ==> taken(t, sid(t + 1)) || sid(t + 1) == 0 || (sid(t + 1) == sid(t) && !lost(t))
    ensures exists t :: 0 <= t < n && taken(t, sid(n)) && forall u :: t < u < n ==> !lost(u)
  {
    assert sid(n - 1 + 1) == sid(n);
    if !taken(n - 1, sid(n)) {
      SinceTaken(sid, taken, lost, n - 1);
    }
  }

  /**
  In every run, a terminal whose session ends between two moments was given up by the
  leader, hung up, left by the leader's exit, or taken by a root leader with argument 1.
  */
  lemma LosesItsSession(ws: seq<World>, calls: seq<Call>, k: nat, a: nat, b: nat)
    requires Run(ws, calls) && a <= b <= |calls| && Sid(ws[a], k) != 0 && Sid(ws[b], k) != Sid(ws[a], k)
    ensures exists t :: a <= t < b && Sid(ws[t], k) == Sid(ws[a], k) && Lost(ws[t], calls[t], k)
  {
    var sid := (t: nat) => if t < |ws| then Sid(ws[t], k) else 0;
    var lost := (t: nat) => t < |ws| && t < |calls| && Lost(ws[t], calls[t], k);
    forall t: nat | a <= t < b
      ensures sid(t + 1) == sid(t) || sid(t) != sid(a) || lost(t)
    {
      SidStep(ws, calls, k, t);
    }
    LastChange(sid, lost, a, b);
  }

  /** In every run, the session a terminal controls is that of the task that took it last, and it has not been lost since. */
  lemma HeldSince(ws: seq<World>, calls: seq<Call>, k: nat, n: nat)
    requires Run(ws, calls) && n <= |calls| && Sid(ws[n], k) != 0
    ensures exists t :: 0 <= t < n && Taken(ws[t], calls[t], k, Sid(ws[n], k)) && forall u :: t < u < n ==> !Lost(ws[u], calls[u], k)
  {
    var sid := (t: nat) => if t < |ws| then Sid(ws[t], k) else 0;
    var taken := (t: nat, s: int) => t < |ws| && t < |calls| && Taken(ws[t], calls[t], k, s);
    var lost := (t: nat) => t < |ws| && t < |calls| && Lost(ws[t], calls[t], k);
    forall t: nat | t < n
      ensures taken(t, sid(t + 1)) || sid(t + 1) == 0 || (sid(t + 1) == sid(t) && !lost(t))
    {
      SidStep(ws, calls, k, t);
    }
    SinceTaken(sid, taken, lost, n);
    var t :| 0 <= t < n && taken(t, sid(n)) && forall u :: t < u < n ==> !lost(u);
    assert forall u :: t < u < n ==> lost(u) == Lost(ws[u], calls[u], k);
  }

  /** What the two terminal requests answer: 0, EPERM or ENOTTY. */
  lemma TerminalAnswers(w: World, c: nat, k: nat, steal: bool)
    requires Sound(w) && Running(w, c) && k < |w.ttys|
    ensures Asked(w, c, k, steal).1 == if w.tasks[c].ctty == Some(k) || Takes(w, SetCtty(c, k, steal), k) then 0 else -1
    ensures GivenUp(w, c, k).1 == if w.tasks[c].ctty == Some(k) then 0 else -25
  {
    if LeadsWithout(w.tasks[c]) {
      UncontrolledLeader(w, c, k);
    }
  }

  /** What setsid and setpgid answer, and the group the latter leaves: every other task's is kept. */
  lemma GroupAnswers(w: World, c: nat, pid: int, group: int, i: nat)
    requires Sound(w) && Running(w, c) && i < |w.tasks|
    requires w.tasks[i].pid == if pid == 0 then w.tasks[c].pid else pid
    ensures SessionStarted(w, c).1 == if MayLead(w, c) then w.tasks[c].pid else -1
    ensures var t, me, (w', r) := w.tasks[i], w.tasks[c], GroupSet(w, c, pid, group);
            var g := if group == 0 then t.pid else group;
            && r == (if t.pid != me.pid && t.parent != me.pid then -3
                     else if group < 0 then -22
                     else if t.sid == me.sid && t.pid != t.sid && (g == t.pid || GroupThere(w, g, t.sid)) then 0
                     else -1)
            && w' == if r == 0 then w.(tasks := w.tasks[i := t.(pgid := g)]) else w
  {
    var x := if pid == 0 then c else FindPid(w.tasks, pid);
    SamePid(w, x, i);
  }

  predicate GroupThere(w: World, g: int, sid: int) {
    exists m :: 0 <= m < |w.tasks| && w.tasks[m].pgid == g && w.tasks[m].sid == sid
  }

  /** A number that is no task's is refused. */
  lemma NoSuchTask(w: World, c: nat, pid: int, group: int)
    requires Sound(w) && Running(w, c) && pid != 0 && pid !in Pids(w)
    ensures GroupSet(w, c, pid, group) == (w, -3)
  {
    assert forall i :: 0 <= i < |w.tasks| ==> w.tasks[i].pid in Pids(w);
  }

  // ------------------------------------------------------------------
  // The kernel's code
  // ------------------------------------------------------------------

  class Kernel {
    var tasks: seq<Task>
    var ttys: seq<Tty>
    var nextPid: int

    function State(): World
      reads this
    {
      World(tasks, ttys, nextPid)
    }

    constructor (terminals: nat)
      ensures Sound(State()) && tasks == [] && nextPid == 1 && |ttys| == terminals
      ensures forall k :: 0 <= k < |ttys| ==> ttys[k].sid == 0
    {
      tasks, nextPid := [], 1;
      ttys := seq(terminals, _ => Tty(0, 0));
    }

    method DetachSession(k: nat)
      requires k < |ttys|
      modifies this
      ensures State() == Detached(old(State()), k)
    {
      var sid := ttys[k].sid;
      for i := 0 to |tasks|
        invariant |tasks| == old(|tasks|) && ttys == old(ttys) && nextPid == old(nextPid)
        invariant forall j :: 0 <= j < |tasks| ==>
                    tasks[j] == if j < i && Loses(old(tasks)[j], k, sid) then old(tasks)[j].(ctty := None) else old(tasks)[j]
      {
        if tasks[i].ctty == Some(k) && (sid == 0 || tasks[i].sid == sid) {
          tasks := tasks[i := tasks[i].(ctty := None)];
        }
      }
      assert tasks == Freed(old(tasks), k, sid);
      ttys := ttys[k := Tty(0, 0)];
    }

    method Attach(c: nat, k: nat)
      requires c < |tasks| && k < |ttys|
      modifies this
      ensures State() == Attached(old(State()), c, k)
    {
      ttys := ttys[k := Tty(tasks[c].sid, tasks[c].pgid)];
      tasks := tasks[c := tasks[c].(ctty := Some(k))];
    }

    method CttyOpened(c: nat, k: nat, noctty: bool)
      requires Sound(State()) && Running(State(), c) && k < |ttys|
      modifies this
      ensures State() == Opened(old(State()), c, k, noctty) && Sound(State())
    {
      OpenedKeeps(State(), c, k, noctty);
      if noctty || !tasks[c].user {
        return;
      }
      if tasks[c].pid == tasks[c].sid && tasks[c].ctty.None? && ttys[k].sid == 0 {
        Attach(c, k);
      }
    }

    method SetControlling(c: nat, k: nat, arg: int) returns (r: int)
      requires Sound(State()) && Running(State(), c) && k < |ttys|
      modifies this
      ensures (State(), r) == Asked(old(State()), c, k, arg == 1) && Sound(State())
    {
      AskedKeeps(State(), c, k, arg == 1);
      var t := tasks[c];
      if t.ctty == Some(k) && ttys[k].sid == t.sid {
        return 0;
      }
      if t.pid != t.sid || t.ctty.Some? {
        return -EPERM;
      }
      if ttys[k].sid != 0 && ttys[k].sid != t.sid {
        if arg != 1 || !t.root {
          return -EPERM;
        }
        DetachSession(k);
      }
      Attach(c, k);
      return 0;
    }

    method GiveUp(c: nat, k: nat) returns (r: int)
      requires Sound(State()) && Running(State(), c) && k < |ttys|
      modifies this
      ensures (State(), r) == GivenUp(old(State()), c, k) && Sound(State())
    {
      GivenUpKeeps(State(), c, k);
      if tasks[c].ctty != Some(k) {
        return -ENOTTY;
      }
      if tasks[c].pid == tasks[c].sid {
        DetachSession(k);
      } else {
        tasks := tasks[c := tasks[c].(ctty := None)];
      }
      return 0;
    }

    /** May the task make `pgrp` the terminal's foreground job? */
    method MaySetPgrp(c: nat, k: nat, pgrp: int) returns (r: int)
      requires Sound(State()) && Running(State(), c) && k < |ttys|
      ensures r == 0 <==>
                || !tasks[c].user || ttys[k].sid == 0
                || (tasks[c].ctty == Some(k)
                    && exists i :: 0 <= i < |tasks| && tasks[i].pgid == pgrp && !tasks[i].zombie && tasks[i].sid == ttys[k].sid
                                   && forall j :: 0 <= j < i ==> tasks[j].pgid != pgrp || tasks[j].zombie)
      ensures r != 0 ==> r == if tasks[c].ctty != Some(k) then -ENOTTY else -EPERM
    {
      if !tasks[c].user || ttys[k].sid == 0 {
        return 0;
      }
      if tasks[c].ctty != Some(k) || tasks[c].sid != ttys[k].sid {
        return -ENOTTY;
      }
      for i := 0 to |tasks|
        invariant forall j :: 0 <= j < i ==> tasks[j].pgid != pgrp || tasks[j].zombie
      {
        if tasks[i].pgid == pgrp && !tasks[i].zombie {
          return if tasks[i].sid == ttys[k].sid then 0 else -EPERM;
        }
      }
      return -EPERM;
    }

    method CttyHangup(k: nat)
      requires Sound(State()) && k < |ttys|
      modifies this
      ensures State() == HungUp(old(State()), k) && Sound(State())
    {
      DetachedKeeps(State(), k);
      if ttys[k].sid == 0 {
        return;
      }
      DetachSession(k);
    }

    method TaskExit(c: nat)
      requires Sound(State()) && Running(State(), c)
      modifies this
      ensures State() == Exited(old(State()), c) && Sound(State())
    {
      ExitedKeeps(State(), c);
      var t := tasks[c];
      if t.ctty.Some? && t.pid == t.sid && ttys[t.ctty.value].sid == t.sid {
        DetachSession(t.ctty.value);
      }
      tasks := tasks[c := tasks[c].(ctty := None, zombie := true)];
    }

    method SetSid(c: nat) returns (r: int)
      requires Sound(State()) && Running(State(), c)
      modifies this
      ensures (State(), r) == SessionStarted(old(State()), c) && Sound(State())
    {
      SessionStartedKeeps(State(), c);
      var t := tasks[c];
      if t.pgid == t.pid {
        return -EPERM;
      }
      for i := 0 to |tasks|
        invariant State() == old(State()) && forall j :: 0 <= j < i ==> tasks[j].pgid != t.pid || tasks[j].zombie
      {
        if tasks[i].pgid == t.pid && !tasks[i].zombie {
          return -EPERM;
        }
      }
      tasks := tasks[c := t.(sid := t.pid, pgid := t.pid, ctty := None)];
      return t.pid;
    }

    method SetPgid(c: nat, pid: int, group: int) returns (r: int)
      requires Sound(State()) && Running(State(), c)
      modifies this
      ensures (State(), r) == GroupSet(old(State()), c, pid, group) && Sound(State())
    {
      GroupSetKeeps(State(), c, pid, group);
      var i := if pid == 0 then c else FindPid(tasks, pid);
      if i == |tasks| || (i != c && tasks[i].parent != tasks[c].pid) {
        return -ESRCH;
      }
      if group < 0 {
        return -EINVAL;
      }
      var t := tasks[i];
      if t.sid != tasks[c].sid || t.sid == t.pid {
        return -EPERM;
      }
      var g := if group == 0 then t.pid else group;
      if g != t.pid {
        var there := GroupIn(g, t.sid);
        if !there {
          return -EPERM;
        }
      }
      tasks := tasks[i := t.(pgid := g)];
      return 0;
    }

    method GroupIn(g: int, sid: int) returns (there: bool)
      ensures there <==> exists m :: 0 <= m < |tasks| && tasks[m].pgid == g && tasks[m].sid == sid
    {
      var m := 0;
      while m < |tasks| && !(tasks[m].pgid == g && tasks[m].sid == sid)
        invariant m <= |tasks|
        invariant forall j :: 0 <= j < m ==> !(tasks[j].pgid == g && tasks[j].sid == sid)
      {
        m := m + 1;
      }
      return m < |tasks|;
    }

    method Fork(c: nat, user: bool)
      requires Sound(State()) && Running(State(), c)
      modifies this
      ensures State() == Forked(old(State()), c, user) && Sound(State())
    {
      ForkedKeeps(State(), c, user);
      var t := tasks[c];
      tasks := tasks + [Task(nextPid, t.sid, t.pgid, t.ctty, t.pid, user, t.root, false)];
      nextPid := nextPid + 1;
    }

    /** The terminal /dev/tty is, for this task. */
    method CttyDevice(c: nat) returns (k: Option<nat>)
      requires Sound(State()) && Running(State(), c)
      ensures k == tasks[c].ctty
    {
      var t := tasks[c];
      if t.ctty.Some? && ttys[t.ctty.value].sid == t.sid {
        return t.ctty;
      }
      return None;
    }
  }
}
