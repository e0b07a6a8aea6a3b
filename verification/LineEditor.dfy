/**
The line editor (kernel/edit.c): what it writes to a terminal, and what the
terminal then shows.
*/
module LineEditor {
  import opened Basics

  const OUT_MAX: nat := 512
  const BS: byte := 8
  const NL: byte := 10
  const CR: byte := 13
  const ESC: byte := 27
  const SPACE: byte := 32
  const DEL: byte := 127

  predicate Printing(c: byte) {
    32 <= c < 127 || c >= 128
  }

  predicate Printable(s: seq<byte>) {
    forall i :: 0 <= i < |s| ==> Printing(s[i])
  }

  // ------------------------------------------------------------------
  // The terminal
  // ------------------------------------------------------------------

  /** A row of the screen, blank past its last cell, with the cursor in it. */
  datatype Row = Row(cells: seq<byte>, cursor: nat)

  /** How far into an escape sequence the terminal is. */
  datatype Mode = Plain | Escape | Control | Control2

  /** The row the cursor is in, whether that is the top one, and what the top one shows when it is not. */
  datatype Terminal = Terminal(row: Row, home: bool, top: seq<byte>, mode: Mode)

  function Written(r: Row, c: byte): Row {
    if r.cursor < |r.cells| then Row(r.cells[r.cursor := c], r.cursor + 1)
    else Row(r.cells + Repeat(SPACE, r.cursor - |r.cells|) + [c], r.cursor + 1)
  }

  /** What one byte does to a row: a backspace moves left, a printing character is written. */
  function RowPut(r: Row, c: byte): Row {
    if c == BS then (if r.cursor > 0 then r.(cursor := r.cursor - 1) else r)
    else if Printing(c) then Written(r, c)
    else r
  }

  function Put(t: Terminal, c: byte): Terminal {
    match t.mode
    case Plain => if c == ESC then t.(mode := Escape) else t.(row := RowPut(t.row, c))
    case Escape => t.(mode := if c == 91 then Control else Plain)
    case Control =>
      if c == 72 then Terminal(Row(if t.home then t.row.cells else t.top, 0), true, t.top, Plain)
      else t.(mode := if c == 50 then Control2 else Plain)
    case Control2 =>
      if c == 74 then Terminal(t.row.(cells := []), t.home, [], Plain) else t.(mode := Plain)
  }

  function Play(t: Terminal, out: seq<byte>): Terminal {
    if out == [] then t else Put(Play(t, out[..|out| - 1]), out[|out| - 1])
  }

  lemma {:induction false} PlayConcat(t: Terminal, a: seq<byte>, b: seq<byte>)
    ensures Play(t, a + b) == Play(Play(t, a), b)
    decreases |b|
  {
    if b == [] {
      assert a + b == a;
    } else {
      assert (a + b)[..|a + b| - 1] == a + b[..|b| - 1];
      PlayConcat(t, a, b[..|b| - 1]);
    }
  }

  lemma PlaySnoc(t: Terminal, out: seq<byte>, c: byte)
    ensures Play(t, out + [c]) == Put(Play(t, out), c)
  {
    assert (out + [c])[..|out|] == out;
  }

  /** The cells read `text` and then blanks. */
  predicate Reads(cells: seq<byte>, text: seq<byte>) {
    if |cells| <= |text| then cells == text
    else cells[|cells| - 1] == SPACE && Reads(cells[..|cells| - 1], text)
  }

  lemma {:induction false} ReadsIs(cells: seq<byte>, text: seq<byte>)
    ensures Reads(cells, text) <==> |text| <= |cells| && forall i :: 0 <= i < |cells| ==> cells[i] == if i < |text| then text[i] else SPACE
  {
    if |cells| > |text| {
      ReadsIs(cells[..|cells| - 1], text);
    }
  }

  /** The cursor stands at `cursor` in a row that reads `text` and then blanks. */
  predicate Shows(t: Terminal, text: seq<byte>, cursor: nat) {
    t.mode == Plain && t.row.cursor == cursor && Reads(t.row.cells, text)
  }

  // ------------------------------------------------------------------
  // Backspaces and text
  // ------------------------------------------------------------------

  lemma OneBack(t: Terminal)
    requires t.mode == Plain && t.row.cursor > 0
    ensures Put(t, BS) == t.(row := t.row.(cursor := t.row.cursor - 1))
  {
  }

  lemma {:induction false} PlayBack(t: Terminal, n: nat)
    requires t.mode == Plain && n <= t.row.cursor
    ensures Play(t, Repeat(BS, n)) == t.(row := t.row.(cursor := t.row.cursor - n))
  {
    if n > 0 {
      PlayBack(t, n - 1);
      PlaySnoc(t, Repeat(BS, n - 1), BS);
      assert Repeat(BS, n) == Repeat(BS, n - 1) + [BS];
      OneBack(t.(row := t.row.(cursor := t.row.cursor - (n - 1))));
    }
  }

  /** `s` over what is in the row from `at` on. */
  function Over(cells: seq<byte>, at: nat, s: seq<byte>): seq<byte>
    requires at <= |cells|
  {
    cells[..at] + s + if at + |s| < |cells| then cells[at + |s|..] else []
  }

  lemma {:induction false} PlayText(t: Terminal, s: seq<byte>)
    requires t.mode == Plain && t.row.cursor <= |t.row.cells| && Printable(s)
    ensures Play(t, s) == t.(row := Row(Over(t.row.cells, t.row.cursor, s), t.row.cursor + |s|))
    decreases |s|
  {
    var cells, at := t.row.cells, t.row.cursor;
    if s == [] {
      assert Over(cells, at, s) == cells;
    } else {
      var n := |s| - 1;
      PlayText(t, s[..n]);
      OverOne(cells, at, s);
    }
  }

  lemma OverOne(cells: seq<byte>, at: nat, s: seq<byte>)
    requires at <= |cells| && s != []
    ensures var n := |s| - 1;
            Written(Row(Over(cells, at, s[..n]), at + n), s[n]).cells == Over(cells, at, s)
  {
    var n := |s| - 1;
    var o := Over(cells, at, s[..n]);
    if at + n < |o| {
      assert o[at + n := s[n]] == Over(cells, at, s);
    } else {
      assert Repeat(SPACE, 0) == [];
      assert o + [] + [s[n]] == Over(cells, at, s);
    }
  }

  /** Moving right over what is already there changes nothing but the cursor. */
  lemma OverSame(cells: seq<byte>, at: nat, s: seq<byte>)
    requires at + |s| <= |cells| && cells[at..at + |s|] == s
    ensures Over(cells, at, s) == cells
  {
  }

  /** Text, then blanks over what the line lost, then the cursor brought back. */
  function Painting(s: seq<byte>, erase: nat, back: nat): seq<byte> {
    s + Repeat(SPACE, erase) + Repeat(BS, back)
  }

  /** What text, blanks and backspaces do to a row. */
  lemma PlayPainting(t: Terminal, s: seq<byte>, erase: nat, back: nat)
    requires t.mode == Plain && t.row.cursor <= |t.row.cells| && Printable(s) && back <= t.row.cursor + |s| + erase
    ensures Play(t, Painting(s, erase, back))
         == t.(row := Row(Over(t.row.cells, t.row.cursor, s + Repeat(SPACE, erase)), t.row.cursor + |s| + erase - back))
  {
    var text := s + Repeat(SPACE, erase);
    PlayText(t, text);
    PlayConcat(t, text, Repeat(BS, back));
    PlayBack(t.(row := Row(Over(t.row.cells, t.row.cursor, text), t.row.cursor + |text|)), back);
  }

  /** Painting over the end of what is shown. */
  lemma Repaints(t: Terminal, text: seq<byte>, cursor: nat, s: seq<byte>, erase: nat, back: nat)
    requires Shows(t, text, cursor) && cursor <= |text| && Printable(s)
    requires |text| <= cursor + |s| + erase && back <= cursor + |s| + erase
    ensures Shows(Play(t, Painting(s, erase, back)), text[..cursor] + s, cursor + |s| + erase - back)
  {
    RepaintedCells(t.row.cells, text, cursor, s, erase);
    PlayPainting(t, s, erase, back);
  }

  lemma RepaintedCells(cells: seq<byte>, text: seq<byte>, cursor: nat, s: seq<byte>, erase: nat)
    requires cursor <= |text| && |text| <= cursor + |s| + erase && Reads(cells, text)
    ensures cursor <= |cells|
    ensures Reads(Over(cells, cursor, s + Repeat(SPACE, erase)), text[..cursor] + s)
  {
    ReadsIs(cells, text);
    RepaintedCell(cells, text, cursor, s, erase);
    ReadsIs(Over(cells, cursor, s + Repeat(SPACE, erase)), text[..cursor] + s);
  }

  lemma RepaintedCell(cells: seq<byte>, text: seq<byte>, cursor: nat, s: seq<byte>, erase: nat)
    requires cursor <= |text| <= |cells| && |text| <= cursor + |s| + erase
    requires forall i :: 0 <= i < |cells| ==> cells[i] == if i < |text| then text[i] else SPACE
    ensures var c1, shown := Over(cells, cursor, s + Repeat(SPACE, erase)), text[..cursor] + s;
            |shown| <= |c1| && forall i :: 0 <= i < |c1| ==> c1[i] == if i < |shown| then shown[i] else SPACE
  {
    OverIs(cells, cursor, s + Repeat(SPACE, erase));
  }

  lemma OverIs(cells: seq<byte>, at: nat, u: seq<byte>)
    requires at <= |cells|
    ensures var r := Over(cells, at, u);
            && |r| == (if at + |u| < |cells| then |cells| else at + |u|)
            && forall i :: 0 <= i < |r| ==> r[i] == if at <= i < at + |u| then u[i - at] else cells[i]
  {
  }

  lemma MovesRight(t: Terminal, text: seq<byte>, cursor: nat, n: nat)
    requires Shows(t, text, cursor) && cursor + n <= |text| && Printable(text[cursor..cursor + n])
    ensures Shows(Play(t, text[cursor..cursor + n]), text, cursor + n)
  {
    var s := text[cursor..cursor + n];
    ReadsIs(t.row.cells, text);
    PlayText(t, s);
    assert t.row.cells[cursor..cursor + n] == s;
    OverSame(t.row.cells, cursor, s);
  }

  lemma MovesLeft(t: Terminal, text: seq<byte>, cursor: nat, n: nat)
    requires Shows(t, text, cursor) && n <= cursor
    ensures Shows(Play(t, Repeat(BS, n)), text, cursor - n)
  {
    PlayBack(t, n);
  }

  /** What takes a terminal home and clears it. */
  const CLEAR: seq<byte> := [ESC, 91, 72, ESC, 91, 50, 74]

  lemma Clears(t: Terminal)
    requires t.mode == Plain
    ensures Shows(Play(t, CLEAR), [], 0)
  {
    var t1 := Put(Put(Put(t, ESC), 91), 72);
    PlayConcat(t, [ESC, 91, 72], [ESC, 91, 50, 74]);
    PlayThree(t, ESC, 91, 72);
    PlayFour(t1, ESC, 91, 50, 74);
    assert CLEAR == [ESC, 91, 72] + [ESC, 91, 50, 74];
  }

  lemma PlayOne(t: Terminal, c: byte)
    ensures Play(t, [c]) == Put(t, c)
  {
    assert [c][..0] == [];
  }

  lemma PlayThree(t: Terminal, a: byte, b: byte, c: byte)
    ensures Play(t, [a, b, c]) == Put(Put(Put(t, a), b), c)
  {
    assert [a, b, c] == [a] + [b] + [c];
    PlayConcat(t, [a], [b]);
    PlayConcat(t, [a] + [b], [c]);
    PlayOne(t, a);
    PlayOne(Put(t, a), b);
    PlayOne(Put(Put(t, a), b), c);
  }

  lemma PlayFour(t: Terminal, a: byte, b: byte, c: byte, d: byte)
    ensures Play(t, [a, b, c, d]) == Put(Put(Put(Put(t, a), b), c), d)
  {
    assert [a, b, c, d] == [a, b, c] + [d];
    PlayConcat(t, [a, b, c], [d]);
    PlayThree(t, a, b, c);
    PlayOne(Put(Put(Put(t, a), b), c), d);
  }

  // ------------------------------------------------------------------
  // The line
  // ------------------------------------------------------------------

  /** The characters of a line and where the cursor is among them. */
  datatype Line = Line(chars: seq<byte>, pos: nat)

  predicate Sound(l: Line, max: nat) {
    l.pos <= |l.chars| && |l.chars| < max && Printable(l.chars)
  }

  function Clamp(x: int, hi: nat): nat {
    if x < 0 then 0 else if x > hi then hi else x
  }

  function Moved(l: Line, x: int): Line {
    l.(pos := Clamp(x, |l.chars|))
  }

  /** A character at the cursor, if there is room for it and its terminator. */
  function Inserted(l: Line, c: byte, max: nat): Line
    requires l.pos <= |l.chars|
  {
    if |l.chars| + 1 >= max then l
    else Line(l.chars[..l.pos] + [c] + l.chars[l.pos..], l.pos + 1)
  }

  lemma IsInserted(r: seq<byte>, l: Line, c: byte)
    requires l.pos <= |l.chars| && |r| == |l.chars| + 1
    requires forall k :: 0 <= k < l.pos ==> r[k] == l.chars[k]
    requires r[l.pos] == c && forall k :: l.pos < k < |r| ==> r[k] == l.chars[k - 1]
    ensures r == l.chars[..l.pos] + [c] + l.chars[l.pos..] && r[l.pos + 1..] == l.chars[l.pos..]
  {
  }

  function Spliced(s: seq<byte>, i: nat, j: nat): seq<byte>
    requires i <= j <= |s|
  {
    s[..i] + s[j..]
  }

  lemma IsSpliced(r: seq<byte>, s: seq<byte>, i: nat, j: nat)
    requires i <= j <= |s| && |r| == i + (|s| - j)
    requires forall k :: 0 <= k < i ==> r[k] == s[k]
    requires forall k :: i <= k < |r| ==> r[k] == s[k + (j - i)]
    ensures r == Spliced(s, i, j) && r[i..] == s[j..]
  {
  }

  /** Without the `n` characters before the cursor, or as many as there are. */
  function CutBack(l: Line, n: int): Line
    requires l.pos <= |l.chars|
  {
    var m := Clamp(n, l.pos);
    Line(Spliced(l.chars, l.pos - m, l.pos), l.pos - m)
  }

  /** Without the `n` characters after the cursor, or as many as there are. */
  function CutAhead(l: Line, n: int): Line
    requires l.pos <= |l.chars|
  {
    var m := Clamp(n, |l.chars| - l.pos);
    Line(Spliced(l.chars, l.pos, l.pos + m), l.pos)
  }

  lemma CutsNothing(l: Line, n: int)
    requires l.pos <= |l.chars|
    ensures n <= 0 || l.pos == 0 ==> CutBack(l, n) == l
    ensures n <= 0 || l.pos == |l.chars| ==> CutAhead(l, n) == l
  {
    assert l.chars[..l.pos] + l.chars[l.pos..] == l.chars;
  }

  lemma SoundCut(l: Line, n: nat, max: nat)
    requires Sound(l, max)
    ensures n <= l.pos ==> Sound(CutBack(l, n), max)
    ensures l.pos + n <= |l.chars| ==> Sound(CutAhead(l, n), max)
  {
  }

  lemma SoundInserted(l: Line, c: byte, max: nat)
    requires Sound(l, max) && Printing(c)
    ensures Sound(Inserted(l, c, max), max)
  {
  }

  /** A whole line in its place, as much of it as there is room for. */
  function Replaced(s: seq<byte>, max: nat): Line
    requires max > 0
  {
    var n := Clamp(max - 1, |s|);
    Line(s[..n], n)
  }

  /** `i` begins a word that only spaces, if anything, separate from the cursor after it. */
  ghost predicate StartsWord(l: Line, i: nat) {
    exists j :: BeginsAt(l, i, j)
  }

  predicate BeginsAt(l: Line, i: nat, j: nat) {
    && i <= j <= l.pos <= |l.chars|
    && (forall k :: j <= k < l.pos ==> l.chars[k] == SPACE)
    && (forall k :: i <= k < j ==> l.chars[k] != SPACE)
    && (i < j || j == 0) && (i > 0 ==> l.chars[i - 1] == SPACE)
  }

  ghost predicate EndsWord(l: Line, i: nat) {
    exists j :: EndsAt(l, i, j)
  }

  predicate EndsAt(l: Line, i: nat, j: nat) {
    && l.pos <= j <= i <= |l.chars|
    && (forall k :: l.pos <= k < j ==> l.chars[k] == SPACE)
    && (forall k :: j <= k < i ==> l.chars[k] != SPACE)
    && (j < i || j == |l.chars|) && (i < |l.chars| ==> l.chars[i] == SPACE)
  }

  /** There is one place for either. */
  lemma WordsAreUnique(l: Line, i: nat, k: nat)
    ensures StartsWord(l, i) && StartsWord(l, k) ==> i == k
    ensures EndsWord(l, i) && EndsWord(l, k) ==> i == k
  {
    if StartsWord(l, i) && StartsWord(l, k) {
      var j: nat :| BeginsAt(l, i, j);
      var m: nat :| BeginsAt(l, k, m);
      if j <= m {
        BeginsOnce(l, i, j, k, m);
      } else {
        BeginsOnce(l, k, m, i, j);
      }
    }
    if EndsWord(l, i) && EndsWord(l, k) {
      var j: nat :| EndsAt(l, i, j);
      var m: nat :| EndsAt(l, k, m);
      if j <= m {
        EndsOnce(l, i, j, k, m);
      } else {
        EndsOnce(l, k, m, i, j);
      }
    }
  }

  lemma BeginsOnce(l: Line, i: nat, j: nat, k: nat, m: nat)
    requires BeginsAt(l, i, j) && BeginsAt(l, k, m) && j <= m
    ensures i == k
  {
    assert m == 0 || l.chars[m - 1] != SPACE;
  }

  lemma EndsOnce(l: Line, i: nat, j: nat, k: nat, m: nat)
    requires EndsAt(l, i, j) && EndsAt(l, k, m) && j <= m
    ensures i == k
  {
    assert j < m ==> l.chars[j] == SPACE;
  }

  // ------------------------------------------------------------------
  // Output, through one buffer
  // ------------------------------------------------------------------

  class Output {
    const outbuf: array<byte>
    var outlen: nat
    var sent: seq<byte>

    ghost predicate Valid()
      reads this
    {
      outbuf.Length == OUT_MAX && outlen <= OUT_MAX
    }

    /** Everything put, in order: what was sent and what still waits. */
    function Emitted(): seq<byte>
      requires outlen <= outbuf.Length
      reads this, outbuf
    {
      sent + outbuf[..outlen]
    }

    constructor ()
      ensures Valid() && fresh(outbuf) && Emitted() == []
    {
      outbuf := new byte[OUT_MAX](_ => 0);
      outlen, sent := 0, [];
    }

    method Flush()
      requires Valid()
      modifies `outlen, `sent
      ensures Valid() && outlen == 0 && sent == Emitted() == old(Emitted())
    {
      ghost var all := Emitted();
      if outlen > 0 {
        sent := sent + outbuf[..outlen];
        outlen := 0;
      }
      assert outbuf[..0] == [] && sent + [] == sent;
      assert sent == all;
    }

    method PutC(c: byte)
      requires Valid()
      modifies this, outbuf
      ensures Valid() && Emitted() == old(Emitted()) + [c]
    {
      if outlen == OUT_MAX {
        Flush();
      }
      Store(c);
    }

    method Store(c: byte)
      requires outlen < outbuf.Length
      modifies `outlen, outbuf
      ensures outlen == old(outlen) + 1 && Emitted() == old(Emitted()) + [c]
    {
      outbuf[outlen] := c;
      outlen := outlen + 1;
      assert outbuf[..outlen] == old(outbuf[..outlen]) + [c];
    }

    method Repeated(c: byte, n: nat)
      requires Valid()
      modifies this, outbuf
      ensures Valid() && Emitted() == old(Emitted()) + Repeat(c, n)
    {
      ghost var before := Emitted();
      for i := 0 to n
        invariant Valid() && Emitted() == before + Repeat(c, i)
      {
        PutC(c);
        assert before + Repeat(c, i) + [c] == before + Repeat(c, i + 1);
      }
    }

    method Write(s: seq<byte>)
      requires Valid()
      modifies this, outbuf
      ensures Valid() && Emitted() == old(Emitted()) + s
    {
      ghost var before := Emitted();
      assert before + s[..0] == before && s[..|s|] == s;
      for i := 0 to |s|
        invariant Valid() && Emitted() == before + s[..i]
      {
        PutC(s[i]);
        assert before + s[..i] + [s[i]] == before + s[..i + 1];
      }
    }

    method Paint(s: seq<byte>, erase: nat, back: nat)
      requires Valid()
      modifies this, outbuf
      ensures Valid() && Emitted() == old(Emitted()) + Painting(s, erase, back)
    {
      ghost var before := Emitted();
      Write(s);
      Repeated(SPACE, erase);
      Repeated(BS, back);
      Append3(before, s, Repeat(SPACE, erase), Repeat(BS, back));
    }
  }

  lemma Append3(o: seq<byte>, a: seq<byte>, b: seq<byte>, c: seq<byte>)
    ensures o + a + b + c == o + (a + b + c)
  {
  }

  lemma Append2(o: seq<byte>, a: seq<byte>, b: seq<byte>)
    ensures o + a + b == o + (a + b)
  {
  }

  // ------------------------------------------------------------------
  // Edits on the screen
  // ------------------------------------------------------------------

  /** The terminal shows the prompt and the line after it, with the cursor in its place. */
  predicate Displays(t: Terminal, prompt: seq<byte>, l: Line) {
    Shows(t, prompt + l.chars, |prompt| + l.pos)
  }

  /** These bytes take every terminal that shows the one line to one that shows the other. */
  ghost predicate Draws(prompt: seq<byte>, l: Line, bytes: seq<byte>, l': Line) {
    forall t :: Displays(t, prompt, l) ==> Displays(Play(t, bytes), prompt, l')
  }

  lemma {:induction false} DrawsNothing(prompt: seq<byte>, l: Line)
    ensures Draws(prompt, l, [], l)
  {
  }

  lemma DrawsBoth(prompt: seq<byte>, l: Line, a: seq<byte>, m: Line, b: seq<byte>, l': Line)
    requires Draws(prompt, l, a, m) && Draws(prompt, m, b, l')
    ensures Draws(prompt, l, a + b, l')
  {
    forall t | Displays(t, prompt, l)
      ensures Displays(Play(t, a + b), prompt, l')
    {
      PlayConcat(t, a, b);
    }
  }

  /** From the cursor on, the line is `s`, and the cursor ends up at `x`. */
  lemma DrawsTail(prompt: seq<byte>, l: Line, s: seq<byte>, erase: nat, x: nat)
    requires l.pos <= |l.chars| <= l.pos + |s| + erase && Printable(s) && x <= l.pos + |s| + erase
    ensures Draws(prompt, l, Painting(s, erase, l.pos + |s| + erase - x), Line(l.chars[..l.pos] + s, x))
  {
    var text, cursor := prompt + l.chars, |prompt| + l.pos;
    assert text[..cursor] + s == prompt + (l.chars[..l.pos] + s);
    forall t | Displays(t, prompt, l)
      ensures Displays(Play(t, Painting(s, erase, l.pos + |s| + erase - x)), prompt, Line(l.chars[..l.pos] + s, x))
    {
      Repaints(t, text, cursor, s, erase, l.pos + |s| + erase - x);
    }
  }

  lemma DrawsBack(prompt: seq<byte>, l: Line, n: nat)
    requires n <= l.pos
    ensures Draws(prompt, l, Repeat(BS, n), l.(pos := l.pos - n))
  {
    forall t | Displays(t, prompt, l)
      ensures Displays(Play(t, Repeat(BS, n)), prompt, l.(pos := l.pos - n))
    {
      MovesLeft(t, prompt + l.chars, |prompt| + l.pos, n);
    }
  }

  lemma DrawsAhead(prompt: seq<byte>, l: Line, x: nat)
    requires l.pos <= x <= |l.chars| && Printable(l.chars)
    ensures Draws(prompt, l, l.chars[l.pos..x], l.(pos := x))
  {
    var text, cursor := prompt + l.chars, |prompt| + l.pos;
    assert text[cursor..cursor + (x - l.pos)] == l.chars[l.pos..x];
    forall t | Displays(t, prompt, l)
      ensures Displays(Play(t, l.chars[l.pos..x]), prompt, l.(pos := x))
    {
      MovesRight(t, text, cursor, x - l.pos);
    }
  }

  lemma DrawsInsert(prompt: seq<byte>, l: Line, c: byte, max: nat)
    requires Sound(l, max) && Printing(c) && |l.chars| + 1 < max
    ensures var tail := l.chars[l.pos..];
            Draws(prompt, l, Painting([c] + tail, 0, |tail|), Inserted(l, c, max))
  {
    var tail := l.chars[l.pos..];
    DrawsTail(prompt, l, [c] + tail, 0, l.pos + 1);
    assert l.chars[..l.pos] + ([c] + tail) == l.chars[..l.pos] + [c] + tail;
  }

  lemma DrawsCut(prompt: seq<byte>, l: Line, j: nat, max: nat)
    requires Sound(l, max) && l.pos <= j <= |l.chars|
    ensures var tail, n := l.chars[j..], j - l.pos;
            Draws(prompt, l, Painting(tail, n, |tail| + n), Line(Spliced(l.chars, l.pos, j), l.pos))
  {
    DrawsTail(prompt, l, l.chars[j..], j - l.pos, l.pos);
  }

  lemma DrawsCutAhead(prompt: seq<byte>, l: Line, n: nat, max: nat)
    requires Sound(l, max) && l.pos + n <= |l.chars|
    ensures var tail := l.chars[l.pos + n..];
            Draws(prompt, l, Painting(tail, n, |tail| + n), CutAhead(l, n))
    ensures CutAhead(l, n) == Line(Spliced(l.chars, l.pos, l.pos + n), l.pos) && Sound(CutAhead(l, n), max)
  {
    DrawsCut(prompt, l, l.pos + n, max);
    SoundCut(l, n, max);
  }

  lemma DrawsCutBack(prompt: seq<byte>, l: Line, n: nat, max: nat)
    requires Sound(l, max) && n <= l.pos
    ensures var tail := l.chars[l.pos..];
            Draws(prompt, l, Repeat(BS, n) + Painting(tail, n, |tail| + n), CutBack(l, n))
  {
    var tail := l.chars[l.pos..];
    DrawsBack(prompt, l, n);
    DrawsCut(prompt, l.(pos := l.pos - n), l.pos, max);
    DrawsBoth(prompt, l, Repeat(BS, n), l.(pos := l.pos - n), Painting(tail, n, |tail| + n), CutBack(l, n));
  }

  lemma DrawsReplaced(prompt: seq<byte>, l: Line, s: seq<byte>, erase: nat)
    requires l.pos == 0 && Printable(s) && |l.chars| <= |s| + erase
    ensures Draws(prompt, l, Painting(s, erase, erase), Line(s, |s|))
  {
    DrawsTail(prompt, l, s, erase, |s|);
    assert l.chars[..0] + s == s;
  }

  /** A prompt on a blank row, and nothing typed. */
  lemma DrawsPrompt(t: Terminal, prompt: seq<byte>)
    requires Shows(t, [], 0) && Printable(prompt)
    ensures Displays(Play(t, prompt), prompt, Line([], 0))
  {
    Repaints(t, [], 0, prompt, 0, 0);
    assert [] + prompt == prompt && prompt + [] == prompt;
    assert Painting(prompt, 0, 0) == prompt;
  }

  /** The screen cleared and the line put back. */
  function Refresh(prompt: seq<byte>, l: Line): seq<byte>
    requires l.pos <= |l.chars|
  {
    CLEAR + Painting(prompt + l.chars, 0, |l.chars| - l.pos)
  }

  lemma DrawsAfresh(prompt: seq<byte>, l: Line, max: nat)
    requires Sound(l, max) && Printable(prompt)
    ensures Draws(prompt, l, Refresh(prompt, l), l)
  {
    var text, back := prompt + l.chars, |l.chars| - l.pos;
    forall t | Displays(t, prompt, l)
      ensures Displays(Play(t, Refresh(prompt, l)), prompt, l)
    {
      Clears(t);
      PlayConcat(t, CLEAR, Painting(text, 0, back));
      Repaints(Play(t, CLEAR), [], 0, text, 0, back);
      assert [] + text == text;
    }
  }

  // ------------------------------------------------------------------
  // The editor
  // ------------------------------------------------------------------

  class Editor {
    const out: Output
    const prompt: seq<byte>
    const buf: array<byte>
    var len: nat
    var pos: nat

    function State(): Line
      requires len <= buf.Length
      reads this, buf
    {
      Line(buf[..len], pos)
    }

    ghost predicate Valid()
      reads this, buf, out
    {
      out.Valid() && buf != out.outbuf && len < buf.Length && Printable(prompt) && Sound(State(), buf.Length)
    }

    constructor (out: Output, prompt: seq<byte>, buf: array<byte>)
      requires out.Valid() && buf != out.outbuf && buf.Length > 0 && Printable(prompt)
      modifies out, out.outbuf, buf
      ensures this.out == out && this.prompt == prompt && this.buf == buf
      ensures Valid() && State() == Line([], 0) && out.Emitted() == old(out.Emitted()) + prompt
    {
      this.out, this.prompt, this.buf := out, prompt, buf;
      len, pos := 0, 0;
      new;
      buf[0] := 0;
      out.Write(prompt);
      out.Flush();
    }

    /** Making room for a character at the cursor. */
    method OpenGap()
      requires pos <= len && len + 1 < buf.Length
      modifies buf
      ensures forall i :: 0 <= i <= pos ==> buf[i] == old(buf[i])
      ensures forall i :: pos < i <= len ==> buf[i] == old(buf[i - 1])
    {
      var i := len;
      while i > pos
        invariant pos <= i <= len
        invariant forall k :: 0 <= k <= i ==> buf[k] == old(buf[k])
        invariant forall k :: i < k <= len ==> buf[k] == old(buf[k - 1])
      {
        buf[i] := buf[i - 1];
        i := i - 1;
      }
    }

    /** Moving what is at `at` and after, with the terminator, `n` places down. */
    method CloseGap(at: nat, n: nat)
      requires n <= at <= len < buf.Length
      modifies buf
      ensures forall i :: 0 <= i < at - n ==> buf[i] == old(buf[i])
      ensures forall i :: at - n <= i < len - n ==> buf[i] == old(buf[i + n])
    {
      var i := at;
      while i <= len
        invariant at <= i <= len + 1
        invariant forall k :: 0 <= k < at - n ==> buf[k] == old(buf[k])
        invariant forall k :: at - n <= k < i - n ==> buf[k] == old(buf[k + n])
        invariant forall k :: i <= k < buf.Length ==> buf[k] == old(buf[k])
      {
        buf[i - n] := buf[i];
        i := i + 1;
      }
    }

    method MoveTo(x: int) returns (ghost drawn: seq<byte>)
      requires Valid()
      modifies `pos, out, out.outbuf
      ensures Valid() && State() == Moved(old(State()), x)
      ensures out.Emitted() == old(out.Emitted()) + drawn && Draws(prompt, old(State()), drawn, State())
    {
      var k := Clamp(x, len);
      drawn := [];
      if k < pos {
        DrawsBack(prompt, State(), pos - k);
        drawn := Repeat(BS, pos - k);
        out.Repeated(BS, pos - k);
      } else if k > pos {
        DrawsAhead(prompt, State(), k);
        var passed := buf[..len][pos..k];
        drawn := passed;
        out.Write(passed);
      } else {
        DrawsNothing(prompt, State());
        assert out.Emitted() + [] == out.Emitted();
      }
      pos := k;
    }

    method RedrawTail(erase: nat)
      requires out.Valid() && buf != out.outbuf && pos <= len <= buf.Length
      modifies out, out.outbuf
      ensures out.Valid() && out.Emitted() == old(out.Emitted()) + Painting(buf[pos..len], erase, len - pos + erase)
    {
      out.Paint(buf[pos..len], erase, len - pos + erase);
    }

    /** The characters of an insertion. */
    method InsertText(c: byte)
      requires pos <= len && len + 1 < buf.Length
      modifies `len, `pos, buf
      ensures pos == old(pos) + 1 <= len == old(len) + 1 && State() == Inserted(old(State()), c, buf.Length)
      ensures buf[pos..len] == old(buf[..len][pos..])
    {
      ghost var l := State();
      OpenGap();
      buf[pos] := c;
      len, pos := len + 1, pos + 1;
      buf[len] := 0;
      IsInserted(buf[..len], l, c);
      assert buf[pos..len] == buf[..len][pos..];
    }

    method Insert(c: byte) returns (ghost drawn: seq<byte>)
      requires Valid() && Printing(c)
      modifies this, buf, out, out.outbuf
      ensures Valid() && State() == Inserted(old(State()), c, buf.Length)
      ensures out.Emitted() == old(out.Emitted()) + drawn && Draws(prompt, old(State()), drawn, State())
    {
      if len + 1 >= buf.Length {
        drawn := [];
        DrawsNothing(prompt, State());
        assert out.Emitted() + [] == out.Emitted();
        return;
      }
      ghost var l, before := State(), out.Emitted();
      ghost var tail := l.chars[l.pos..];
      DrawsInsert(prompt, l, c, buf.Length);
      SoundInserted(l, c, buf.Length);
      InsertText(c);
      out.PutC(c);
      if pos < len {
        RedrawTail(0);
      }
      drawn := Painting([c] + tail, 0, |tail|);
      EchoedFirst(before, c, tail);
    }

    /** The characters of a deletion: those from `i` up to `j`. */
    method DeleteText(i: nat, j: nat)
      requires i <= j <= len < buf.Length
      modifies `len, buf
      ensures len == old(len) - (j - i) && buf[..len] == Spliced(old(buf[..len]), i, j)
      ensures buf[i..len] == old(buf[..len][j..])
    {
      ghost var chars := buf[..len];
      CloseGap(j, j - i);
      len := len - (j - i);
      IsSpliced(buf[..len], chars, i, j);
      assert buf[i..len] == buf[..len][i..];
    }

    method DeleteBack(count: int) returns (ghost drawn: seq<byte>)
      requires Valid()
      modifies this, buf, out, out.outbuf
      ensures Valid() && State() == CutBack(old(State()), count)
      ensures out.Emitted() == old(out.Emitted()) + drawn && Draws(prompt, old(State()), drawn, State())
    {
      var n := if count > pos then pos else count;
      CutsNothing(State(), count);
      if n <= 0 {
        drawn := [];
        DrawsNothing(prompt, State());
        assert out.Emitted() + [] == out.Emitted();
        return;
      }
      drawn := CutBackward(n);
    }

    method CutBackward(n: nat) returns (ghost drawn: seq<byte>)
      requires Valid() && n <= pos
      modifies this, buf, out, out.outbuf
      ensures Valid() && State() == CutBack(old(State()), n)
      ensures out.Emitted() == old(out.Emitted()) + drawn && Draws(prompt, old(State()), drawn, State())
    {
      ghost var l, before := State(), out.Emitted();
      DrawsCutBack(prompt, l, n, buf.Length);
      SoundCut(l, n, buf.Length);
      DeleteText(pos - n, pos);
      pos := pos - n;
      out.Repeated(BS, n);
      RubOut(n);
      ghost var rest := Painting(l.chars[l.pos..], n, |l.chars[l.pos..]| + n);
      drawn := Repeat(BS, n) + rest;
      Append2(before, Repeat(BS, n), rest);
    }

    /** What is left of a deletion before the cursor, when the cursor has gone back. */
    method RubOut(n: nat)
      requires out.Valid() && buf != out.outbuf && pos <= len <= buf.Length
      modifies out, out.outbuf
      ensures out.Valid() && out.Emitted() == old(out.Emitted()) + Painting(buf[pos..len], n, len - pos + n)
    {
      if pos == len {
        assert buf[pos..len] == [];
        out.Paint([], n, n);
      } else {
        RedrawTail(n);
      }
    }

    method DeleteFwd(count: int) returns (ghost drawn: seq<byte>)
      requires Valid()
      modifies this, buf, out, out.outbuf
      ensures Valid() && State() == CutAhead(old(State()), count)
      ensures out.Emitted() == old(out.Emitted()) + drawn && Draws(prompt, old(State()), drawn, State())
    {
      var n := if count > len - pos then len - pos else count;
      CutsNothing(State(), count);
      if n <= 0 {
        drawn := [];
        DrawsNothing(prompt, State());
        assert out.Emitted() + [] == out.Emitted();
        return;
      }
      drawn := CutForward(n);
    }

    method CutForward(n: nat) returns (ghost drawn: seq<byte>)
      requires Valid() && pos + n <= len
      modifies this, buf, out, out.outbuf
      ensures Valid() && State() == CutAhead(old(State()), n)
      ensures out.Emitted() == old(out.Emitted()) + drawn && Draws(prompt, old(State()), drawn, State())
    {
      ghost var l := State();
      ghost var tail := l.chars[l.pos + n..];
      DrawsCutAhead(prompt, l, n, buf.Length);
      DeleteText(pos, pos + n);
      RedrawTail(n);
      drawn := Painting(tail, n, |tail| + n);
    }

    method WordStart() returns (i: nat)
      requires pos <= len <= buf.Length
      ensures i <= pos && StartsWord(State(), i)
    {
      i := pos;
      while i > 0 && buf[i - 1] == SPACE
        invariant i <= pos && forall k :: i <= k < pos ==> buf[k] == SPACE
      {
        i := i - 1;
      }
      ghost var j := i;
      while i > 0 && buf[i - 1] != SPACE
        invariant i <= j && (forall k :: i <= k < j ==> buf[k] != SPACE) && (i == j > 0 ==> buf[i - 1] != SPACE)
      {
        i := i - 1;
      }
      assert BeginsAt(State(), i, j);
    }

    method WordEnd() returns (i: nat)
      requires pos <= len <= buf.Length
      ensures pos <= i <= len && EndsWord(State(), i)
    {
      i := pos;
      while i < len && buf[i] == SPACE
        invariant pos <= i <= len && forall k :: pos <= k < i ==> buf[k] == SPACE
      {
        i := i + 1;
      }
      ghost var j := i;
      while i < len && buf[i] != SPACE
        invariant j <= i <= len && (forall k :: j <= k < i ==> buf[k] != SPACE) && (i == j < len ==> buf[i] != SPACE)
      {
        i := i + 1;
      }
      assert EndsAt(State(), i, j);
    }

    method SetLine(s: seq<byte>) returns (ghost drawn: seq<byte>)
      requires Valid() && Printable(s)
      modifies this, buf, out, out.outbuf
      ensures Valid() && State() == Replaced(s, buf.Length)
      ensures out.Emitted() == old(out.Emitted()) + drawn && Draws(prompt, old(State()), drawn, State())
    {
      var was := len;
      ghost var l, before := State(), out.Emitted();
      ghost var first := MoveTo(0);
      ghost var l0 := State();
      CopyText(s);
      var erase := if was > len then was - len else 0;
      ghost var rest := Painting(buf[..len], erase, erase);
      out.Paint(buf[..len], erase, erase);
      DrawsReplaced(prompt, l0, buf[..len], erase);
      assert Draws(prompt, l0, rest, State());
      DrawsBoth(prompt, l, first, l0, rest, State());
      drawn := first + rest;
      Append2(before, first, rest);
      assert State() == Replaced(s, buf.Length);
    }

    method CopyText(s: seq<byte>)
      requires buf.Length > 0
      modifies `len, `pos, buf
      ensures len < buf.Length && State() == Replaced(s, buf.Length)
    {
      var n := 0;
      while n < |s| && n < buf.Length - 1
        invariant n <= |s| && n < buf.Length && buf[..n] == s[..n]
      {
        buf[n] := s[n];
        n := n + 1;
      }
      buf[n] := 0;
      len, pos := n, n;
    }

    /** A blank screen with just the prompt and the line on it. */
    method Redraw() returns (ghost drawn: seq<byte>)
      requires Valid()
      modifies out, out.outbuf
      ensures Valid() && State() == old(State())
      ensures out.Emitted() == old(out.Emitted()) + drawn && Draws(prompt, old(State()), drawn, State())
    {
      ghost var before := out.Emitted();
      DrawsAfresh(prompt, State(), buf.Length);
      out.Write(CLEAR);
      out.Write(prompt);
      out.Write(buf[..len]);
      out.Repeated(BS, len - pos);
      drawn := Refresh(prompt, State());
      Refreshed(before, prompt, State());
    }
  }

  lemma EchoedFirst(o: seq<byte>, c: byte, tail: seq<byte>)
    ensures o + [c] + Painting(tail, 0, |tail|) == o + Painting([c] + tail, 0, |tail|)
    ensures tail == [] ==> o + [c] == o + Painting([c] + tail, 0, |tail|)
  {
    assert [c] + Painting(tail, 0, |tail|) == Painting([c] + tail, 0, |tail|);
    assert o + [c] + Painting(tail, 0, |tail|) == o + ([c] + Painting(tail, 0, |tail|));
  }

  lemma Refreshed(o: seq<byte>, prompt: seq<byte>, l: Line)
    requires l.pos <= |l.chars|
    ensures o + CLEAR + prompt + l.chars + Repeat(BS, |l.chars| - l.pos) == o + Refresh(prompt, l)
  {
    var text, back := prompt + l.chars, Repeat(BS, |l.chars| - l.pos);
    assert text + [] == text;
    assert o + CLEAR + prompt + l.chars + back == o + (CLEAR + (text + back));
  }

  // ------------------------------------------------------------------
  // Keys
  // ------------------------------------------------------------------

  const KEY_UP := 0x100
  const KEY_DOWN := 0x101
  const KEY_RIGHT := 0x102
  const KEY_LEFT := 0x103
  const KEY_HOME := 0x104
  const KEY_END := 0x105
  const KEY_DELETE := 0x106
  const KEY_WFWD := 0x108
  const KEY_WBACK := 0x109
  const KEY_WDEL := 0x10a

  const HIST_LINE: nat := 128

  function Ctrl(c: char): int {
    c as int - 64
  }

  /** What a key that edits does to the line. */
  ghost predicate Edited(l: Line, key: int, l': Line, max: nat)
    requires l.pos <= |l.chars|
  {
    if key == Ctrl('A') || key == KEY_HOME then l' == Moved(l, 0)
    else if key == Ctrl('E') || key == KEY_END then l' == Moved(l, |l.chars|)
    else if key == Ctrl('B') || key == KEY_LEFT then l' == Moved(l, l.pos - 1)
    else if key == Ctrl('F') || key == KEY_RIGHT then l' == Moved(l, l.pos + 1)
    else if key == Ctrl('U') then l' == Line(l.chars[l.pos..], 0)
    else if key == Ctrl('K') then l' == Line(l.chars[..l.pos], l.pos)
    else if key == Ctrl('W') then exists i: nat :: StartsWord(l, i) && l' == CutBack(l, l.pos - i)
    else if key == KEY_WBACK then StartsWord(l, l'.pos) && l' == Moved(l, l'.pos)
    else if key == KEY_WFWD then EndsWord(l, l'.pos) && l' == Moved(l, l'.pos)
    else if key == KEY_WDEL then exists i: nat :: EndsWord(l, i) && l' == CutAhead(l, i - l.pos)
    else if key == BS || key == DEL then l' == CutBack(l, 1)
    else if key == KEY_DELETE || key == Ctrl('D') then l' == CutAhead(l, 1)
    else if 0 <= key < 256 && Printing(key) then l' == Inserted(l, key, max)
    else l' == l
  }

  /** Where a run of spaces, or of others, up to `i` begins. */
  function BackOver(chars: seq<byte>, i: nat, spaces: bool): nat
    requires i <= |chars|
  {
    if i > 0 && (chars[i - 1] == SPACE) == spaces then BackOver(chars, i - 1, spaces) else i
  }

  lemma {:induction false} BackOverIs(chars: seq<byte>, i: nat, spaces: bool)
    requires i <= |chars|
    ensures var b := BackOver(chars, i, spaces);
            && b <= i && (forall k :: b <= k < i ==> (chars[k] == SPACE) == spaces)
            && (b > 0 ==> (chars[b - 1] == SPACE) != spaces)
  {
    if i > 0 && (chars[i - 1] == SPACE) == spaces {
      BackOverIs(chars, i - 1, spaces);
    }
  }

  /** Where a run of spaces, or of others, from `i` on ends. */
  function AheadOver(chars: seq<byte>, i: nat, spaces: bool): nat
    requires i <= |chars|
    decreases |chars| - i
  {
    if i < |chars| && (chars[i] == SPACE) == spaces then AheadOver(chars, i + 1, spaces) else i
  }

  lemma {:induction false} AheadOverIs(chars: seq<byte>, i: nat, spaces: bool)
    requires i <= |chars|
    ensures var e := AheadOver(chars, i, spaces);
            && i <= e <= |chars| && (forall k :: i <= k < e ==> (chars[k] == SPACE) == spaces)
            && (e < |chars| ==> (chars[e] == SPACE) != spaces)
    decreases |chars| - i
  {
    if i < |chars| && (chars[i] == SPACE) == spaces {
      AheadOverIs(chars, i + 1, spaces);
    }
  }

  function WordStartOf(l: Line): (i: nat)
    requires l.pos <= |l.chars|
    ensures StartsWord(l, i)
  {
    BackOverIs(l.chars, l.pos, true);
    var j := BackOver(l.chars, l.pos, true);
    BackOverIs(l.chars, j, false);
    var i := BackOver(l.chars, j, false);
    assert BeginsAt(l, i, j);
    i
  }

  function WordEndOf(l: Line): (i: nat)
    requires l.pos <= |l.chars|
    ensures EndsWord(l, i)
  {
    AheadOverIs(l.chars, l.pos, true);
    var j := AheadOver(l.chars, l.pos, true);
    AheadOverIs(l.chars, j, false);
    var i := AheadOver(l.chars, j, false);
    assert EndsAt(l, i, j);
    i
  }

  /** The line a key that edits leaves. */
  function Keyed(l: Line, key: int, max: nat): (l': Line)
    requires l.pos <= |l.chars|
    ensures l'.pos <= |l'.chars|
  {
    if key == Ctrl('A') || key == KEY_HOME then Moved(l, 0)
    else if key == Ctrl('E') || key == KEY_END then Moved(l, |l.chars|)
    else if key == Ctrl('B') || key == KEY_LEFT then Moved(l, l.pos - 1)
    else if key == Ctrl('F') || key == KEY_RIGHT then Moved(l, l.pos + 1)
    else if key == Ctrl('U') then Line(l.chars[l.pos..], 0)
    else if key == Ctrl('K') then Line(l.chars[..l.pos], l.pos)
    else if key == Ctrl('W') then CutBack(l, l.pos - WordStartOf(l))
    else if key == KEY_WBACK then Moved(l, WordStartOf(l))
    else if key == KEY_WFWD then Moved(l, WordEndOf(l))
    else if key == KEY_WDEL then CutAhead(l, WordEndOf(l) - l.pos)
    else if key == BS || key == DEL then CutBack(l, 1)
    else if key == KEY_DELETE || key == Ctrl('D') then CutAhead(l, 1)
    else if 0 <= key < 256 && Printing(key) then Inserted(l, key, max)
    else l
  }

  /** What a key may do to a line is one thing. */
  lemma EditedOnce(l: Line, key: int, l': Line, max: nat)
    requires l.pos <= |l.chars| && Edited(l, key, l', max)
    ensures l' == Keyed(l, key, max)
  {
    if key == Ctrl('W') {
      CutBackOnce(l, l', max);
    } else if key == KEY_WDEL {
      CutAheadOnce(l, l', max);
    } else if key == KEY_WBACK {
      StartIs(l, l'.pos);
    } else if key == KEY_WFWD {
      EndIs(l, l'.pos);
    }
  }

  lemma CutBackOnce(l: Line, l': Line, max: nat)
    requires l.pos <= |l.chars| && Edited(l, Ctrl('W'), l', max)
    ensures l' == CutBack(l, l.pos - WordStartOf(l))
  {
    var i: nat :| StartsWord(l, i) && l' == CutBack(l, l.pos - i);
    StartIs(l, i);
  }

  lemma CutAheadOnce(l: Line, l': Line, max: nat)
    requires l.pos <= |l.chars| && Edited(l, KEY_WDEL, l', max)
    ensures l' == CutAhead(l, WordEndOf(l) - l.pos)
  {
    var i: nat :| EndsWord(l, i) && l' == CutAhead(l, i - l.pos);
    EndIs(l, i);
  }

  lemma StartIs(l: Line, i: nat)
    requires l.pos <= |l.chars| && StartsWord(l, i)
    ensures i == WordStartOf(l)
  {
    WordsAreUnique(l, i, WordStartOf(l));
  }

  lemma EndIs(l: Line, i: nat)
    requires l.pos <= |l.chars| && EndsWord(l, i)
    ensures i == WordEndOf(l)
  {
    WordsAreUnique(l, i, WordEndOf(l));
  }

  // ------------------------------------------------------------------
  // What keys do to the text on either side of the cursor
  // ------------------------------------------------------------------

  /** The cursor stands between these. */
  function Between(before: seq<byte>, after: seq<byte>): Line {
    Line(before + after, |before|)
  }

  lemma Sides(l: Line)
    requires l.pos <= |l.chars|
    ensures l == Between(l.chars[..l.pos], l.chars[l.pos..])
  {
  }

  /** Ctrl-A (1) and Home, ctrl-E (5) and End; ctrl-U (21) and ctrl-K (11) drop all of one side. */
  lemma WholeSides(b: seq<byte>, a: seq<byte>, max: nat)
    ensures Keyed(Between(b, a), 1, max) == Keyed(Between(b, a), 0x104, max) == Between([], b + a)
    ensures Keyed(Between(b, a), 5, max) == Keyed(Between(b, a), 0x105, max) == Between(b + a, [])
    ensures Keyed(Between(b, a), 21, max) == Between([], a) && Keyed(Between(b, a), 11, max) == Between(b, [])
  {
    assert b + a + [] == b + a && [] + (b + a) == b + a && [] + a == a && b + [] == b;
  }

  /** Ctrl-B (2) and Left, ctrl-F (6) and Right carry one character over, and undo each other. */
  lemma OneOver(b: seq<byte>, c: byte, a: seq<byte>, max: nat)
    ensures Keyed(Between(b + [c], a), 2, max) == Keyed(Between(b + [c], a), 0x103, max) == Between(b, [c] + a)
    ensures Keyed(Between(b, [c] + a), 6, max) == Keyed(Between(b, [c] + a), 0x102, max) == Between(b + [c], a)
  {
    assert b + [c] + a == b + ([c] + a);
  }

  /** Backspace (8) and DEL (127) drop the character before the cursor, ctrl-D (4) and Delete the one after it. */
  lemma OneDropped(b: seq<byte>, c: byte, a: seq<byte>, max: nat)
    ensures Keyed(Between(b + [c], a), 8, max) == Keyed(Between(b + [c], a), 127, max) == Between(b, a)
    ensures Keyed(Between(b, [c] + a), 4, max) == Keyed(Between(b, [c] + a), 0x106, max) == Between(b, a)
  {
    DroppedBack(b, [c], a);
    DroppedAhead(b, [c], a);
  }

  lemma DroppedBack(b: seq<byte>, w: seq<byte>, a: seq<byte>)
    ensures CutBack(Between(b + w, a), |w|) == Between(b, a)
  {
  }

  lemma DroppedAhead(b: seq<byte>, w: seq<byte>, a: seq<byte>)
    ensures CutAhead(Between(b, w + a), |w|) == Between(b, a)
  {
    assert b + (w + a) == b + w + a;
  }

  /** At either end there is nothing to carry over or to drop. */
  lemma AtTheEnds(s: seq<byte>, key: int, max: nat)
    ensures key in {2, 0x103, 8, 127, 23, 0x109} ==> Keyed(Between([], s), key, max) == Between([], s)
    ensures key in {6, 0x102, 4, 0x106, 0x108, 0x10a} ==> Keyed(Between(s, []), key, max) == Between(s, [])
  {
    if key in {2, 0x103, 8, 127, 23, 0x109} {
      NothingBefore(Between([], s), key, max);
    }
    if key in {6, 0x102, 4, 0x106, 0x108, 0x10a} {
      NothingAfter(Between(s, []), key, max);
    }
  }

  lemma NothingBefore(l: Line, key: int, max: nat)
    requires l.pos == 0 && key in {2, 0x103, 8, 127, 23, 0x109}
    ensures Keyed(l, key, max) == l
  {
    CutsNothing(l, 1);
    CutsNothing(l, 0);
    FirstWord(l);
  }

  lemma FirstWord(l: Line)
    requires l.pos <= |l.chars|
    ensures l.pos == 0 ==> WordStartOf(l) == 0
    ensures l.pos == |l.chars| ==> WordEndOf(l) == |l.chars|
  {
    assert StartsWord(l, WordStartOf(l)) && EndsWord(l, WordEndOf(l));
  }

  lemma NothingAfter(l: Line, key: int, max: nat)
    requires l.pos == |l.chars| && key in {6, 0x102, 4, 0x106, 0x108, 0x10a}
    ensures Keyed(l, key, max) == l
  {
    CutsNothing(l, 1);
    CutsNothing(l, 0);
    FirstWord(l);
  }

  /** A printing character goes before the cursor if there is room for it and the terminator, and a backspace takes it out again. */
  lemma OneTyped(b: seq<byte>, c: byte, a: seq<byte>, max: nat)
    requires 32 <= c < 127 || c >= 128
    ensures Keyed(Between(b, a), c, max) == if |b| + |a| + 1 < max then Between(b + [c], a) else Between(b, a)
    ensures |b| + |a| + 1 < max ==> Keyed(Keyed(Between(b, a), c, max), 8, max) == Between(b, a)
  {
    OneDropped(b, c, a, max);
  }

  predicate Word(w: seq<byte>) {
    w != [] && forall i :: 0 <= i < |w| ==> w[i] != 32
  }

  predicate Spaces(s: seq<byte>) {
    forall i :: 0 <= i < |s| ==> s[i] == 32
  }

  /** Ctrl-W (23) drops, and Meta-b passes, the spaces before the cursor and the word before them. */
  lemma WordBack(b: seq<byte>, w: seq<byte>, gap: seq<byte>, a: seq<byte>, max: nat)
    requires Spaces(gap) && (if w == [] then b == [] else Word(w) && (b != [] ==> b[|b| - 1] == 32))
    ensures Keyed(Between(b + (w + gap), a), 23, max) == Between(b, a)
    ensures Keyed(Between(b + (w + gap), a), 0x109, max) == Between(b, w + gap + a)
  {
    var l := Between(b + (w + gap), a);
    BeginsThere(l, b, w, gap, a);
    StartIs(l, |b|);
    BackTo(l, b, w + gap, a, max);
  }

  lemma BeginsThere(l: Line, b: seq<byte>, w: seq<byte>, gap: seq<byte>, a: seq<byte>)
    requires Spaces(gap) && (if w == [] then b == [] else Word(w) && (b != [] ==> b[|b| - 1] == 32))
    requires l == Between(b + (w + gap), a)
    ensures StartsWord(l, |b|)
  {
    assert l.chars == b + w + gap + a;
    assert BeginsAt(l, |b|, |b| + |w|);
  }

  lemma BackTo(l: Line, b: seq<byte>, word: seq<byte>, a: seq<byte>, max: nat)
    requires l == Between(b + word, a) && WordStartOf(l) == |b|
    ensures Keyed(l, 23, max) == Between(b, a) && Keyed(l, 0x109, max) == Between(b, word + a)
  {
    DroppedBack(b, word, a);
    assert b + word + a == b + (word + a);
  }

  /** Meta-d drops, and Meta-f passes, the spaces after the cursor and the word after them. */
  lemma WordAhead(b: seq<byte>, gap: seq<byte>, w: seq<byte>, a: seq<byte>, max: nat)
    requires Spaces(gap) && (if w == [] then a == [] else Word(w) && (a != [] ==> a[0] == 32))
    ensures Keyed(Between(b, gap + w + a), 0x10a, max) == Between(b, a)
    ensures Keyed(Between(b, gap + w + a), 0x108, max) == Between(b + (gap + w), a)
  {
    var l := Between(b, gap + w + a);
    EndsThere(l, b, gap, w, a);
    EndIs(l, |b| + |gap + w|);
    AheadTo(l, b, gap + w, a, max);
  }

  lemma EndsThere(l: Line, b: seq<byte>, gap: seq<byte>, w: seq<byte>, a: seq<byte>)
    requires Spaces(gap) && (if w == [] then a == [] else Word(w) && (a != [] ==> a[0] == 32))
    requires l == Between(b, gap + w + a)
    ensures EndsWord(l, |b| + |gap + w|)
  {
    assert l.chars == b + gap + w + a;
    assert EndsAt(l, |b| + |gap + w|, |b| + |gap|);
  }

  lemma AheadTo(l: Line, b: seq<byte>, word: seq<byte>, a: seq<byte>, max: nat)
    requires l == Between(b, word + a) && WordEndOf(l) == |b| + |word|
    ensures Keyed(l, 0x10a, max) == Between(b, a) && Keyed(l, 0x108, max) == Between(b + word, a)
  {
    DroppedAhead(b, word, a);
    assert b + word + a == b + (word + a);
  }

  /** Any other key leaves the line. */
  lemma NoOtherKey(l: Line, key: int, max: nat)
    requires l.pos <= |l.chars| && !(32 <= key < 256) && !(0x102 <= key <= 0x106) && !(0x108 <= key <= 0x10a)
    requires key !in {1, 2, 4, 5, 6, 8, 11, 21, 23}
    ensures Keyed(l, key, max) == l
  {
  }

  // ------------------------------------------------------------------
  // Lines of keys
  // ------------------------------------------------------------------

  /** A line being typed: where in the history the reader is, and what waits at its end. */
  datatype Typing = Typing(line: Line, at: nat, stash: seq<byte>)

  predicate Within(t: Typing, history: seq<seq<byte>>) {
    t.line.pos <= |t.line.chars| && t.at <= |history|
  }

  predicate Back(key: int) {
    key == Ctrl('P') || key == KEY_UP
  }

  /** One key, of those that do not end the line. */
  function Pressed(t: Typing, key: int, history: seq<seq<byte>>, max: nat): (t': Typing)
    requires Within(t, history) && max > 0
    ensures Within(t', history)
  {
    if !Historic(key) then t.(line := Keyed(t.line, key, max))
    else if Back(key) then
      if t.at == 0 then t
      else Typing(Replaced(history[t.at - 1], max), t.at - 1, if t.at == |history| then Kept(t.line.chars) else t.stash)
    else
      if t.at == |history| then t
      else Typing(Replaced(if t.at + 1 < |history| then history[t.at + 1] else t.stash, max), t.at + 1, t.stash)
  }

  function PressedAll(t: Typing, keys: seq<int>, history: seq<seq<byte>>, max: nat): (t': Typing)
    requires Within(t, history) && max > 0
    ensures Within(t', history)
    decreases |keys|
  {
    if keys == [] then t else PressedAll(Pressed(t, keys[0], history, max), keys[1..], history, max)
  }

  /** How a line ends: with enter, with ctrl-D on nothing, or not yet. */
  datatype Ending = Entered | EndOfInput | Unfinished

  datatype Outcome = Outcome(typed: Typing, ending: Ending)

  predicate Enter(key: int) {
    key == CR || key == NL
  }

  /** Keys until the line ends. */
  function Typed(t: Typing, keys: seq<int>, history: seq<seq<byte>>, max: nat): Outcome
    requires Within(t, history) && max > 0
    decreases |keys|
  {
    if keys == [] then Outcome(t, Unfinished)
    else if Enter(keys[0]) then Outcome(t.(line := Moved(t.line, |t.line.chars|)), Entered)
    else if keys[0] == Ctrl('D') && t.line.chars == [] then Outcome(t, EndOfInput)
    else Typed(Pressed(t, keys[0], history, max), keys[1..], history, max)
  }

  /** Text typed at the end of a line, and enter (10 or 13): the line with the text behind it. */
  lemma {:induction false} TypingText(t: Typing, text: seq<byte>, enter: int, history: seq<seq<byte>>, max: nat)
    requires Within(t, history) && Printable(text) && |t.line.chars| + |text| < max && (enter == 10 || enter == 13)
    requires t.line.pos == |t.line.chars|
    ensures var line := t.line.chars + text;
            Typed(t, text + [enter], history, max) == Outcome(t.(line := Line(line, |line|)), Entered)
    decreases |text|
  {
    if text == [] {
      assert text + [enter] == [enter] && t.line.chars + text == t.line.chars;
    } else {
      var c, chars := text[0], t.line.chars;
      var t' := t.(line := Line(chars + [c], |chars| + 1));
      OneTyped(chars, c, [], max);
      assert chars + [] == chars && chars + [c] + [] == chars + [c] && chars + [c] + text[1..] == chars + text;
      assert (text + [enter])[1..] == text[1..] + [enter];
      TypingText(t', text[1..], enter, history, max);
    }
  }

  predicate Goes(keys: seq<int>) {
    forall i :: 0 <= i < |keys| ==> Historic(keys[i])
  }

  lemma {:induction false} TypedHistoric(t: Typing, keys: seq<int>, history: seq<seq<byte>>, max: nat)
    requires Within(t, history) && max > 0 && Goes(keys)
    ensures Typed(t, keys, history, max) == Outcome(PressedAll(t, keys, history, max), Unfinished)
    decreases |keys|
  {
    if keys != [] {
      TypedHistoric(Pressed(t, keys[0], history, max), keys[1..], history, max);
    }
  }

  lemma {:induction false} PressedBoth(t: Typing, a: seq<int>, b: seq<int>, history: seq<seq<byte>>, max: nat)
    requires Within(t, history) && max > 0
    ensures PressedAll(t, a + b, history, max) == PressedAll(PressedAll(t, a, history, max), b, history, max)
    decreases |a|
  {
    if a == [] {
      assert a + b == b;
    } else {
      assert (a + b)[1..] == a[1..] + b;
      PressedBoth(Pressed(t, a[0], history, max), a[1..], b, history, max);
    }
  }

  /** Up `n` times: the nth line from the end, and what was typed waits. */
  lemma {:induction false} Upwards(t: Typing, n: nat, history: seq<seq<byte>>, max: nat)
    requires Within(t, history) && max > 0 && t.at == |history| && 1 <= n <= |history|
    ensures PressedAll(t, Repeat(KEY_UP, n), history, max)
            == Typing(Replaced(history[|history| - n], max), |history| - n, Kept(t.line.chars))
  {
    assert PressedAll(t, Repeat(KEY_UP, n - 1), history, max)
           == if n == 1 then t else Typing(Replaced(history[|history| - (n - 1)], max), |history| - (n - 1), Kept(t.line.chars)) by {
      if n > 1 {
        Upwards(t, n - 1, history, max);
      }
    }
    LastPressed(t, n - 1, KEY_UP, history, max);
  }

  lemma LastPressed(t: Typing, n: nat, key: int, history: seq<seq<byte>>, max: nat)
    requires Within(t, history) && max > 0
    ensures PressedAll(t, Repeat(key, n + 1), history, max) == Pressed(PressedAll(t, Repeat(key, n), history, max), key, history, max)
  {
    PressedBoth(t, Repeat(key, n), [key], history, max);
    assert [key][1..] == [];
  }

  /** And down again, as often: what waited. */
  lemma {:induction false} Downwards(t: Typing, n: nat, history: seq<seq<byte>>, max: nat)
    requires Within(t, history) && max > 0 && 1 <= n && t.at + n <= |history|
    ensures PressedAll(t, Repeat(KEY_DOWN, n), history, max)
            == Typing(Replaced(if t.at + n < |history| then history[t.at + n] else t.stash, max), t.at + n, t.stash)
  {
    var before := PressedAll(t, Repeat(KEY_DOWN, n - 1), history, max);
    if n > 1 {
      Downwards(t, n - 1, history, max);
    }
    assert before.at == t.at + n - 1 && before.stash == t.stash;
    LastPressed(t, n - 1, KEY_DOWN, history, max);
  }

  function UpAndDown(n: nat): seq<int> {
    Repeat(KEY_UP, n) + Repeat(KEY_DOWN, n)
  }

  /**
  Going back in the history and forward again, however far, leaves what of the line
  the history has room for, with the cursor at its end. So it brings back the line
  that was being typed if and only if that is shorter than a line of the history.
  */
  lemma BrowsingAndBack(t: Typing, n: nat, history: seq<seq<byte>>, max: nat)
    requires Within(t, history) && t.at == |history| && 1 <= n <= |history| && |t.line.chars| < max
    ensures var o := Typed(t, UpAndDown(n), history, max);
            && o.ending == Unfinished && o.typed.at == |history|
            && o.typed.line == Line(Kept(t.line.chars), |Kept(t.line.chars)|)
            && (o.typed.line.chars == t.line.chars <==> |t.line.chars| < HIST_LINE)
  {
    var up := PressedAll(t, Repeat(KEY_UP, n), history, max);
    TypedHistoric(t, UpAndDown(n), history, max);
    PressedBoth(t, Repeat(KEY_UP, n), Repeat(KEY_DOWN, n), history, max);
    Upwards(t, n, history, max);
    Downwards(up, n, history, max);
    assert Replaced(Kept(t.line.chars), max).chars == Kept(t.line.chars);
  }

  /** A line of 128 characters loses its last to a glance at the line before. */
  lemma BrowsingLoses(c: byte, max: nat, before: seq<byte>)
    requires max > 128
    ensures var t := Typing(Line(Repeat(c, 128), 128), 1, []);
            Typed(t, [KEY_UP, KEY_DOWN], [before], max).typed.line == Line(Repeat(c, 127), 127)
  {
    var t := Typing(Line(Repeat(c, 128), 128), 1, []);
    BrowsingAndBack(t, 1, [before], max);
    assert UpAndDown(1) == [KEY_UP, KEY_DOWN];
    assert Kept(Repeat(c, 128)) == Repeat(c, 127);
  }

  /** As much of a line as the history has room for. */
  function Kept(chars: seq<byte>): seq<byte> {
    if |chars| < HIST_LINE then chars else chars[..HIST_LINE - 1]
  }

  predicate Historic(key: int) {
    key == Ctrl('P') || key == KEY_UP || key == Ctrl('N') || key == KEY_DOWN
  }

  lemma KillsAll(l: Line)
    requires l.pos <= |l.chars|
    ensures CutBack(l, l.pos) == Line(l.chars[l.pos..], 0)
    ensures CutAhead(l, |l.chars| - l.pos) == Line(l.chars[..l.pos], l.pos)
  {
  }

  class Reader {
    const ed: Editor
    const start: Terminal
    const history: seq<seq<byte>>
    var at: nat
    var stash: seq<byte>

    ghost predicate Valid()
      reads this, ed, ed.buf, ed.out
    {
      ed.Valid() && at <= |history| && Printable(stash) && forall i :: 0 <= i < |history| ==> Printable(history[i])
    }

    /** A terminal that got everything shows the prompt and the line. */
    ghost predicate Shown()
      requires ed.out.outlen <= ed.out.outbuf.Length && ed.len <= ed.buf.Length
      reads this, ed, ed.buf, ed.out, ed.out.outbuf
    {
      Displays(Play(start, ed.out.Emitted()), ed.prompt, ed.State())
    }

    constructor (ed: Editor, start: Terminal, history: seq<seq<byte>>)
      requires ed.Valid() && forall i :: 0 <= i < |history| ==> Printable(history[i])
      ensures Valid() && this.ed == ed && this.start == start && this.history == history && at == |history| && stash == []
    {
      this.ed, this.start, this.history := ed, start, history;
      at, stash := |history|, [];
    }

    /** A key that edits the line or moves in it. */
    method EditKey(key: int) returns (ghost drawn: seq<byte>)
      requires Valid() && !Historic(key)
      modifies ed, ed.buf, ed.out, ed.out.outbuf
      ensures Valid() && Edited(old(ed.State()), key, ed.State(), ed.buf.Length)
      ensures ed.out.Emitted() == old(ed.out.Emitted()) + drawn && Draws(ed.prompt, old(ed.State()), drawn, ed.State())
    {
      if key == Ctrl('W') || key == KEY_WBACK || key == KEY_WFWD || key == KEY_WDEL {
        drawn := WordKey(key);
      } else if key == Ctrl('A') || key == KEY_HOME || key == Ctrl('E') || key == KEY_END
             || key == Ctrl('B') || key == KEY_LEFT || key == Ctrl('F') || key == KEY_RIGHT {
        drawn := MoveKey(key);
      } else if key == Ctrl('U') {
        KillsAll(ed.State());
        drawn := ed.DeleteBack(ed.pos);
      } else if key == Ctrl('K') {
        KillsAll(ed.State());
        drawn := ed.DeleteFwd(ed.len - ed.pos);
      } else if key == Ctrl('L') {
        drawn := ed.Redraw();
      } else if key == BS || key == DEL {
        drawn := ed.DeleteBack(1);
      } else if key == KEY_DELETE || key == Ctrl('D') {
        drawn := ed.DeleteFwd(1);
      } else if 32 <= key < 127 || 128 <= key < 256 {
        drawn := ed.Insert(key);
      } else {
        drawn := Nothing();
      }
    }

    ghost method Nothing() returns (drawn: seq<byte>)
      requires Valid()
      ensures ed.out.Emitted() == ed.out.Emitted() + drawn && Draws(ed.prompt, ed.State(), drawn, ed.State())
    {
      drawn := [];
      DrawsNothing(ed.prompt, ed.State());
      assert ed.out.Emitted() + [] == ed.out.Emitted();
    }

    method MoveKey(key: int) returns (ghost drawn: seq<byte>)
      requires Valid()
      requires key == Ctrl('A') || key == KEY_HOME || key == Ctrl('E') || key == KEY_END
            || key == Ctrl('B') || key == KEY_LEFT || key == Ctrl('F') || key == KEY_RIGHT
      modifies ed, ed.buf, ed.out, ed.out.outbuf
      ensures Valid() && Edited(old(ed.State()), key, ed.State(), ed.buf.Length)
      ensures ed.out.Emitted() == old(ed.out.Emitted()) + drawn && Draws(ed.prompt, old(ed.State()), drawn, ed.State())
    {
      if key == Ctrl('A') || key == KEY_HOME {
        drawn := ed.MoveTo(0);
      } else if key == Ctrl('E') || key == KEY_END {
        drawn := ed.MoveTo(ed.len);
      } else if key == Ctrl('B') || key == KEY_LEFT {
        drawn := ed.MoveTo(ed.pos - 1);
      } else {
        drawn := ed.MoveTo(ed.pos + 1);
      }
    }

    method WordKey(key: int) returns (ghost drawn: seq<byte>)
      requires Valid() && (key == Ctrl('W') || key == KEY_WBACK || key == KEY_WFWD || key == KEY_WDEL)
      modifies ed, ed.buf, ed.out, ed.out.outbuf
      ensures Valid() && Edited(old(ed.State()), key, ed.State(), ed.buf.Length)
      ensures ed.out.Emitted() == old(ed.out.Emitted()) + drawn && Draws(ed.prompt, old(ed.State()), drawn, ed.State())
    {
      if key == Ctrl('W') || key == KEY_WBACK {
        drawn := BackWord(key);
      } else {
        drawn := AheadWord(key);
      }
    }

    method BackWord(key: int) returns (ghost drawn: seq<byte>)
      requires Valid() && (key == Ctrl('W') || key == KEY_WBACK)
      modifies ed, ed.buf, ed.out, ed.out.outbuf
      ensures Valid() && Edited(old(ed.State()), key, ed.State(), ed.buf.Length)
      ensures ed.out.Emitted() == old(ed.out.Emitted()) + drawn && Draws(ed.prompt, old(ed.State()), drawn, ed.State())
    {
      var i := ed.WordStart();
      if key == Ctrl('W') {
        drawn := ed.DeleteBack(ed.pos - i);
      } else {
        drawn := ed.MoveTo(i);
      }
    }

    method AheadWord(key: int) returns (ghost drawn: seq<byte>)
      requires Valid() && (key == KEY_WFWD || key == KEY_WDEL)
      modifies ed, ed.buf, ed.out, ed.out.outbuf
      ensures Valid() && Edited(old(ed.State()), key, ed.State(), ed.buf.Length)
      ensures ed.out.Emitted() == old(ed.out.Emitted()) + drawn && Draws(ed.prompt, old(ed.State()), drawn, ed.State())
    {
      var i := ed.WordEnd();
      if key == KEY_WFWD {
        drawn := ed.MoveTo(i);
      } else {
        drawn := ed.DeleteFwd(i - ed.pos);
      }
    }

    /** Back or forward through the history; the line being typed waits at its end. */
    method HistoryKey(key: int) returns (ghost drawn: seq<byte>)
      requires Valid() && Historic(key)
      modifies this, ed, ed.buf, ed.out, ed.out.outbuf
      ensures Valid()
      ensures ed.out.Emitted() == old(ed.out.Emitted()) + drawn && Draws(ed.prompt, old(ed.State()), drawn, ed.State())
      ensures Now() == Pressed(old(Now()), key, history, ed.buf.Length)
    {
      if key == Ctrl('P') || key == KEY_UP {
        if at > 0 {
          if at == |history| {
            stash := Kept(ed.State().chars);
          }
          at := at - 1;
          drawn := ed.SetLine(history[at]);
        } else {
          drawn := Nothing();
        }
      } else if at < |history| {
        at := at + 1;
        drawn := ed.SetLine(if at == |history| then stash else history[at]);
      } else {
        drawn := Nothing();
      }
    }

    function Now(): Typing
      requires ed.len <= ed.buf.Length
      reads this, ed, ed.buf
    {
      Typing(ed.State(), at, stash)
    }

    /** Keys, one after the other, each written out before the next, until the line ends. */
    method Keys(keys: seq<int>) returns (ending: Ending)
      requires Valid() && Shown()
      modifies this, ed, ed.buf, ed.out, ed.out.outbuf
      ensures Valid() && Shown() && Typed(old(Now()), keys, history, ed.buf.Length) == Outcome(Now(), ending)
    {
      var used := 0;
      assert keys[0..] == keys;
      while used < |keys|
        invariant Valid() && Shown() && used <= |keys|
        invariant Typed(Now(), keys[used..], history, ed.buf.Length) == Typed(old(Now()), keys, history, ed.buf.Length)
      {
        var key := keys[used];
        assert keys[used..][1..] == keys[used + 1..];
        if Enter(key) {
          ToTheEnd();
          return Entered;
        }
        if key == Ctrl('D') && ed.len == 0 {
          return EndOfInput;
        }
        OneKey(key);
        used := used + 1;
      }
      return Unfinished;
    }

    method ToTheEnd()
      requires Valid() && Shown()
      modifies this, ed, ed.buf, ed.out, ed.out.outbuf
      ensures Valid() && Shown()
      ensures Now() == old(Now()).(line := Moved(old(ed.State()), |old(ed.State()).chars|))
    {
      ghost var before := ed.out.Emitted();
      ghost var drawn := ed.MoveTo(ed.len);
      PlayConcat(start, before, drawn);
    }

    method OneKey(key: int)
      requires Valid() && Shown()
      modifies this, ed, ed.buf, ed.out, ed.out.outbuf
      ensures Valid() && Shown() && ed.out.outlen == 0
      ensures Now() == Pressed(old(Now()), key, history, ed.buf.Length)
    {
      ghost var before, drawn := ed.out.Emitted(), [];
      ghost var l := ed.State();
      if Historic(key) {
        drawn := HistoryKey(key);
      } else {
        drawn := EditKey(key);
        EditedOnce(l, key, ed.State(), ed.buf.Length);
      }
      PlayConcat(start, before, drawn);
      ed.out.Flush();
    }
  }

  /**
  From a prompt on a blank row, the keys leave the line they type, and the bytes sent
  to the terminal show the prompt and that line; after enter a newline follows them.
  */
  method ReadLine(start: Terminal, prompt: seq<byte>, buf: array<byte>, history: seq<seq<byte>>, keys: seq<int>)
    returns (line: Line, ending: Ending, sent: seq<byte>)
    requires Shows(start, [], 0) && Printable(prompt) && buf.Length > 0
    requires forall i :: 0 <= i < |history| ==> Printable(history[i])
    modifies buf
    ensures var o := Typed(Typing(Line([], 0), |history|, []), keys, history, buf.Length); line == o.typed.line && ending == o.ending
    ensures Sound(line, buf.Length) && line.chars == buf[..|line.chars|]
    ensures ending == Entered ==> sent != [] && sent[|sent| - 1] == NL && Displays(Play(start, sent[..|sent| - 1]), prompt, line)
    ensures ending != Entered ==> Displays(Play(start, sent), prompt, line)
  {
    var out := new Output();
    var ed := new Editor(out, prompt, buf);
    var reader := new Reader(ed, start, history);
    DrawsPrompt(start, prompt);
    assert [] + prompt == prompt;
    ending := reader.Keys(keys);
    line := ed.State();
    if ending == Entered {
      ghost var before := ed.out.Emitted();
      ed.out.PutC(NL);
      assert (before + [NL])[..|before|] == before;
    }
    ed.out.Flush();
    sent := ed.out.sent;
  }
}
