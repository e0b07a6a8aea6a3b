/**
The shadow password file (auth/pwdb.c): looking an account up in it, and rewriting it
line by line.
*/
module PwDb {
  import opened Basics

  // ------------------------------------------------------------------
  // Lines
  // ------------------------------------------------------------------

  /** Where the first line of a text ends, with its newline if it has one. */
  function LineEnd(text: string): (n: nat)
    ensures n <= |text| && (text != [] ==> n > 0)
  {
    if text == [] then 0 else if text[0] == '\n' then 1 else 1 + LineEnd(text[1..])
  }

  /** A text as `fgets` hands it over: lines with their newlines, the last of them perhaps without. */
  function Lines(text: string): seq<string> {
    if text == [] then [] else [text[..LineEnd(text)]] + Lines(text[LineEnd(text)..])
  }

  function Joined(lines: seq<string>): string {
    if lines == [] then [] else lines[0] + Joined(lines[1..])
  }

  predicate Plain(s: string) {
    '\n' !in s
  }

  /** A line with its newline. */
  predicate Whole(line: string) {
    line != [] && line[|line| - 1] == '\n' && Plain(line[..|line| - 1])
  }

  /** Lines of which only the last may lack its newline. */
  predicate Proper(lines: seq<string>) {
    forall i :: 0 <= i < |lines| ==> Whole(lines[i]) || (i == |lines| - 1 && lines[i] != [] && Plain(lines[i]))
  }

  /** Ends in a newline, or is empty. */
  predicate Terminated(text: string) {
    text == [] || text[|text| - 1] == '\n'
  }

  lemma {:induction false} LineEndWhole(line: string, rest: string)
    requires Whole(line)
    ensures LineEnd(line + rest) == |line|
    decreases |line|
  {
    var text := line + rest;
    if line[0] != '\n' {
      assert text[1..] == line[1..] + rest;
      assert line[1..][..|line[1..]| - 1] == line[..|line| - 1][1..];
      LineEndWhole(line[1..], rest);
    }
  }

  lemma {:induction false} LineEndPlain(line: string)
    requires Plain(line)
    ensures LineEnd(line) == |line|
    decreases |line|
  {
    if line != [] {
      assert line[0] in line;
      LineEndPlain(line[1..]);
    }
  }

  /** Lines put together come apart again. */
  lemma {:induction false} LinesOfJoined(lines: seq<string>)
    requires Proper(lines)
    ensures Lines(Joined(lines)) == lines
  {
    if lines != [] {
      var first, rest := lines[0], lines[1..];
      var text := Joined(lines);
      if Whole(first) {
        LineEndWhole(first, Joined(rest));
        assert text[..|first|] == first && text[|first|..] == Joined(rest);
        assert Proper(rest);
        LinesOfJoined(rest);
      } else {
        assert rest == [] && text == first + [] == first;
        LineEndPlain(first);
        assert text[..|first|] == first && text[|first|..] == [];
      }
    }
  }

  predicate AllWhole(lines: seq<string>) {
    forall i :: 0 <= i < |lines| ==> Whole(lines[i])
  }

  /** Taking a text apart loses nothing, and only its last line may lack a newline. */
  lemma {:induction false} LinesProper(text: string)
    ensures Proper(Lines(text)) && Joined(Lines(text)) == text && (Terminated(text) <==> AllWhole(Lines(text)))
    decreases |text|
  {
    if text != [] {
      var n := LineEnd(text);
      var first, rest := text[..n], text[n..];
      FirstLine(text);
      LinesProper(rest);
      ProperCons(first, Lines(rest));
      EndsAlike(first, rest);
      assert first + rest == text;
    }
  }

  lemma EndsAlike(first: string, rest: string)
    requires Whole(first) || (rest == [] && first != [] && Plain(first))
    ensures Terminated(first + rest) <==> Whole(first) && Terminated(rest)
  {
    var text := first + rest;
    if rest == [] {
      assert text == first && first[|first| - 1] in first;
    } else {
      assert text[|text| - 1] == rest[|rest| - 1];
    }
  }

  lemma ProperCons(first: string, rest: seq<string>)
    requires Proper(rest) && (Whole(first) || (rest == [] && first != [] && Plain(first)))
    ensures Proper([first] + rest) && Joined([first] + rest) == first + Joined(rest)
    ensures AllWhole([first] + rest) <==> Whole(first) && AllWhole(rest)
  {
    var ls := [first] + rest;
    assert ls[0] == first && ls[1..] == rest;
    assert forall i :: 1 <= i < |ls| ==> ls[i] == rest[i - 1];
    forall i | 0 <= i < |rest| && AllWhole(ls)
      ensures Whole(rest[i])
    {
      assert ls[i + 1] == rest[i];
    }
  }

  /** A first line that stops short of the end has its newline; one that does not may lack it. */
  lemma {:induction false} FirstLine(text: string)
    requires text != []
    ensures var first := text[..LineEnd(text)];
            Whole(first) || (LineEnd(text) == |text| && Plain(first))
    decreases |text|
  {
    var n := LineEnd(text);
    if text[0] == '\n' {
      assert text[..1][..0] == [];
    } else if |text| > 1 {
      FirstLine(text[1..]);
      assert text[..n] == [text[0]] + text[1..][..n - 1];
      assert n >= 2;
      assert text[..n][..n - 1] == [text[0]] + text[1..][..n - 1][..n - 2];
    }
  }

  // ------------------------------------------------------------------
  // Entries
  // ------------------------------------------------------------------

  predicate Separator(c: char) {
    c == ':' || c == '\n'
  }

  /** The first field of a line, or of what is left of one. */
  function Head(s: string): string {
    if s == [] || Separator(s[0]) then [] else [s[0]] + Head(s[1..])
  }

  /** What is left after it, if another field follows. */
  function Tail(s: string): Option<string> {
    if s == [] || s[0] == '\n' then None
    else if s[0] == ':' then Some(s[1..])
    else Tail(s[1..])
  }

  /** A line that is no entry. */
  predicate Skipped(line: string) {
    if line == [] then true
    else if line[0] == ' ' || line[0] == '\t' then Skipped(line[1..])
    else line[0] == '\n' || line[0] == '#'
  }

  predicate EntryOf(line: string, name: string) {
    !Skipped(line) && Head(line) == name
  }

  /** The second field of a line; a line without one has an empty one. */
  function HashIn(line: string): string {
    match Tail(line) case None => [] case Some(rest) => Head(rest)
  }

  /** The hash of the first entry of a name. */
  function Lookup(lines: seq<string>, name: string): Option<string> {
    if lines == [] then None
    else if EntryOf(lines[0], name) then Some(HashIn(lines[0]))
    else Lookup(lines[1..], name)
  }

  ghost predicate HasEntry(lines: seq<string>, name: string) {
    exists i :: 0 <= i < |lines| && EntryOf(lines[i], name)
  }

  predicate NoSeparator(s: string) {
    forall i :: 0 <= i < |s| ==> !Separator(s[i])
  }

  /** A name an entry can have: no separator in it, and not taken for a comment. */
  predicate Name(s: string) {
    NoSeparator(s) && s != [] && !Skipped(s)
  }

  lemma {:induction false} HeadOf(s: string, rest: string)
    requires NoSeparator(s) && (rest == [] || Separator(rest[0]))
    ensures Head(s + rest) == s
    ensures Tail(s + rest) == if rest != [] && rest[0] == ':' then Some(rest[1..]) else None
    decreases |s|
  {
    if s == [] {
      assert s + rest == rest;
    } else {
      assert (s + rest)[1..] == s[1..] + rest;
      HeadOf(s[1..], rest);
    }
  }

  /** A line is no entry exactly when nothing, a newline or a # comes after its spaces and tabs. */
  lemma {:induction false} SkippedIs(blank: string, rest: string)
    requires forall i :: 0 <= i < |blank| ==> blank[i] == ' ' || blank[i] == '\t'
    requires rest != [] ==> rest[0] != ' ' && rest[0] != '\t'
    ensures Skipped(blank + rest) <==> rest == [] || rest[0] == '\n' || rest[0] == '#'
    decreases |blank|
  {
    if blank == [] {
      assert blank + rest == rest;
    } else {
      assert (blank + rest)[1..] == blank[1..] + rest;
      SkippedIs(blank[1..], rest);
    }
  }

  lemma {:induction false} SkippedMore(s: string, rest: string)
    requires s != [] && !Skipped(s)
    ensures !Skipped(s + rest)
    decreases |s|
  {
    if s[0] == ' ' || s[0] == '\t' {
      assert (s + rest)[1..] == s[1..] + rest;
      if s[1..] != [] {
        SkippedMore(s[1..], rest);
      }
    }
  }

  /** The line of an account: name, hash and the ageing fields. */
  function Entry(name: string, hash: string, ageing: string): string {
    name + ":" + hash + ":" + ageing
  }

  /** A line made for an account reads as its entry. */
  lemma EntryReads(name: string, hash: string, ageing: string)
    requires Name(name) && NoSeparator(hash)
    ensures var line := Entry(name, hash, ageing) + "\n";
            EntryOf(line, name) && HashIn(line) == hash
  {
    var line := Entry(name, hash, ageing) + "\n";
    var rest := ":" + hash + ":" + ageing + "\n";
    assert line == name + rest;
    HeadOf(name, rest);
    SkippedMore(name, rest);
    assert rest[1..] == hash + (":" + ageing + "\n");
    HeadOf(hash, ":" + ageing + "\n");
  }

  // ------------------------------------------------------------------
  // Rewriting
  // ------------------------------------------------------------------

  /** The lines with every entry of a name replaced; `None` drops them. */
  function Replaced(lines: seq<string>, name: string, repl: Option<string>): seq<string> {
    if lines == [] then []
    else
      var rest := Replaced(lines[1..], name, repl);
      if !EntryOf(lines[0], name) then [lines[0]] + rest
      else match repl case None => rest case Some(line) => [line + "\n"] + rest
  }

  /** And a new entry at the end when there was none. */
  ghost function Rewritten(lines: seq<string>, name: string, repl: Option<string>): seq<string> {
    if HasEntry(lines, name) || repl.None? then Replaced(lines, name, repl)
    else lines + [repl.value + "\n"]
  }

  lemma {:induction false} ReplacedNothing(lines: seq<string>, name: string, repl: Option<string>)
    requires !HasEntry(lines, name)
    ensures Replaced(lines, name, repl) == lines
  {
    if lines != [] {
      assert !EntryOf(lines[0], name);
      forall i | 0 <= i < |lines[1..]|
        ensures !EntryOf(lines[1..][i], name)
      {
        assert lines[1..][i] == lines[i + 1];
      }
      ReplacedNothing(lines[1..], name, repl);
    }
  }

  /** A lookup after a replacement: the name has what its new line says, and every other name what it had. */
  lemma {:induction false} ReplacedLookup(lines: seq<string>, name: string, line: string, other: string)
    requires EntryOf(line + "\n", name)
    ensures HasEntry(lines, name) ==> Lookup(Replaced(lines, name, Some(line)), name) == Some(HashIn(line + "\n"))
    ensures other != name ==> Lookup(Replaced(lines, name, Some(line)), other) == Lookup(lines, other)
  {
    if lines != [] {
      ReplacedLookup(lines[1..], name, line, other);
      if HasEntry(lines, name) && !EntryOf(lines[0], name) {
        var i :| 0 <= i < |lines| && EntryOf(lines[i], name);
        assert lines[1..][i - 1] == lines[i];
      }
    }
  }

  lemma {:induction false} LookupAppended(lines: seq<string>, line: string, name: string)
    ensures Lookup(lines + [line], name)
            == if Lookup(lines, name).Some? then Lookup(lines, name)
               else if EntryOf(line, name) then Some(HashIn(line)) else None
  {
    if lines != [] {
      assert (lines + [line])[1..] == lines[1..] + [line];
      LookupAppended(lines[1..], line, name);
    } else {
      assert lines + [line] == [line];
    }
  }

  lemma {:induction false} LookupFinds(lines: seq<string>, name: string)
    ensures Lookup(lines, name).Some? <==> HasEntry(lines, name)
  {
    if lines != [] {
      LookupFinds(lines[1..], name);
      if HasEntry(lines, name) && !EntryOf(lines[0], name) {
        var i :| 0 <= i < |lines| && EntryOf(lines[i], name);
        assert lines[1..][i - 1] == lines[i];
      }
      if HasEntry(lines[1..], name) {
        var i :| 0 <= i < |lines[1..]| && EntryOf(lines[1..][i], name);
        assert lines[i + 1] == lines[1..][i];
      }
    }
  }

  function Comments(lines: seq<string>): seq<string> {
    if lines == [] then []
    else if Skipped(lines[0]) then [lines[0]] + Comments(lines[1..])
    else Comments(lines[1..])
  }

  /** Comments and blank lines stay, in their order. */
  lemma {:induction false} ReplacedComments(lines: seq<string>, name: string, line: string)
    requires !Skipped(line + "\n")
    ensures Comments(Replaced(lines, name, Some(line))) == Comments(lines)
  {
    if lines != [] {
      ReplacedComments(lines[1..], name, line);
    }
  }

  lemma {:induction false} CommentsAppended(lines: seq<string>, line: string)
    requires !Skipped(line)
    ensures Comments(lines + [line]) == Comments(lines)
  {
    if lines != [] {
      assert (lines + [line])[1..] == lines[1..] + [line];
      CommentsAppended(lines[1..], line);
    } else {
      assert lines + [line] == [line] && [line][1..] == [];
    }
  }

  lemma {:induction false} ReplacedProper(lines: seq<string>, name: string, line: string)
    requires Proper(lines) && Plain(line)
    ensures Proper(Replaced(lines, name, Some(line))) && |Replaced(lines, name, Some(line))| == |lines|
  {
    if lines != [] {
      var rest := Replaced(lines[1..], name, Some(line));
      assert Proper(lines[1..]) by {
        assert forall i :: 0 <= i < |lines[1..]| ==> lines[1..][i] == lines[i + 1];
      }
      ReplacedProper(lines[1..], name, line);
      var r := Replaced(lines, name, Some(line));
      assert (line + "\n")[..|line|] == line;
      assert r[1..] == rest && (r[0] == lines[0] || Whole(r[0]));
      assert forall i :: 1 <= i < |r| ==> r[i] == rest[i - 1];
    }
  }

  // ------------------------------------------------------------------
  // Setting a hash
  // ------------------------------------------------------------------

  /** Without the line ending. */
  function Stripped(s: string): string {
    if s != [] && (s[|s| - 1] == '\n' || s[|s| - 1] == '\r') then Stripped(s[..|s| - 1]) else s
  }

  /** The fields after the hash, as they are kept. */
  function AgeingIn(line: string): string {
    match Tail(line)
    case None => []
    case Some(rest) =>
      match Tail(rest)
      case None => []
      case Some(fields) => Stripped(fields)
  }

  const FRESH: string := "20000:0:99999:7:::"

  /** Those of the first entry of a name, or of a new account. */
  function Ageing(lines: seq<string>, name: string): string {
    if lines == [] then FRESH
    else if EntryOf(lines[0], name) then AgeingIn(lines[0])
    else Ageing(lines[1..], name)
  }

  ghost function SetHash(text: string, name: string, hash: string): string {
    var lines := Lines(text);
    Joined(Rewritten(lines, name, Some(Entry(name, hash, Ageing(lines, name)))))
  }

  lemma {:induction false} StrippedPlain(s: string)
    requires s == [] || Plain(s[..|s| - 1])
    ensures Plain(Stripped(s)) && Stripped(Stripped(s)) == Stripped(s)
  {
    if s != [] && (s[|s| - 1] == '\n' || s[|s| - 1] == '\r') {
      StrippedPlain(s[..|s| - 1]);
    }
  }

  lemma {:induction false} TailPlain(s: string)
    requires s == [] || Plain(s[..|s| - 1])
    ensures Tail(s).Some? ==> Tail(s).value == [] || Plain(Tail(s).value[..|Tail(s).value| - 1])
    decreases |s|
  {
    if s != [] {
      assert s[1..] != [] ==> s[1..][..|s[1..]| - 1] == s[..|s| - 1][1..];
      if s[0] != '\n' && s[0] != ':' {
        TailPlain(s[1..]);
      }
    }
  }

  lemma AgeingInPlain(line: string)
    requires Whole(line) || Plain(line)
    ensures Plain(AgeingIn(line)) && Stripped(AgeingIn(line)) == AgeingIn(line)
  {
    TailPlain(line);
    if Tail(line).Some? {
      var rest := Tail(line).value;
      TailPlain(rest);
      if Tail(rest).Some? {
        StrippedPlain(Tail(rest).value);
      }
    }
  }

  lemma {:induction false} AgeingPlain(lines: seq<string>, name: string)
    requires Proper(lines)
    ensures Plain(Ageing(lines, name)) && Stripped(Ageing(lines, name)) == Ageing(lines, name)
  {
    if lines != [] {
      AgeingInPlain(lines[0]);
      assert Proper(lines[1..]) by {
        assert forall i :: 0 <= i < |lines[1..]| ==> lines[1..][i] == lines[i + 1];
      }
      AgeingPlain(lines[1..], name);
    }
  }

  /** The ageing fields of a line made for an account are those put in it. */
  lemma EntryAges(name: string, hash: string, ageing: string)
    requires Name(name) && NoSeparator(hash) && Stripped(ageing) == ageing
    ensures AgeingIn(Entry(name, hash, ageing) + "\n") == ageing
  {
    var line := Entry(name, hash, ageing) + "\n";
    var rest := ":" + hash + ":" + ageing + "\n";
    var last := ":" + ageing + "\n";
    assert line == name + rest;
    HeadOf(name, rest);
    assert rest[1..] == hash + last;
    HeadOf(hash, last);
    assert last[1..] == ageing + "\n" && (ageing + "\n")[..|ageing|] == ageing;
  }

  lemma {:induction false} ReplacedAgeing(lines: seq<string>, name: string, line: string)
    requires EntryOf(line + "\n", name) && HasEntry(lines, name)
    ensures Ageing(Replaced(lines, name, Some(line)), name) == AgeingIn(line + "\n")
  {
    if !EntryOf(lines[0], name) {
      var i :| 0 <= i < |lines| && EntryOf(lines[i], name);
      assert lines[1..][i - 1] == lines[i];
      ReplacedAgeing(lines[1..], name, line);
    }
  }

  lemma EntryPlain(name: string, hash: string, ageing: string)
    requires Name(name) && NoSeparator(hash) && Plain(ageing)
    ensures Plain(Entry(name, hash, ageing)) && Whole(Entry(name, hash, ageing) + "\n")
  {
    var e := Entry(name, hash, ageing);
    forall i | 0 <= i < |e|
      ensures e[i] != '\n'
    {
    }
    assert (e + "\n")[..|e|] == e;
  }

  /** What a reader finds after a hash was set in a file whose last line is whole, or that had the account. */
  lemma SetHashWorks(text: string, name: string, hash: string, other: string)
    requires Name(name) && NoSeparator(hash)
    requires HasEntry(Lines(text), name) || Terminated(text)
    ensures var before, after := Lines(text), Lines(SetHash(text, name, hash));
            && Lookup(after, name) == Some(hash)
            && (other != name ==> Lookup(after, other) == Lookup(before, other))
            && Comments(after) == Comments(before)
            && (HasEntry(before, name) ==> Ageing(after, name) == Ageing(before, name))
  {
    var lines := Lines(text);
    var ageing := Ageing(lines, name);
    var line := Entry(name, hash, ageing);
    LinesProper(text);
    AgeingPlain(lines, name);
    EntryReads(name, hash, ageing);
    EntryPlain(name, hash, ageing);
    EntryAges(name, hash, ageing);
    if HasEntry(lines, name) {
      ReplacedProper(lines, name, line);
      LinesOfJoined(Replaced(lines, name, Some(line)));
      ReplacedLookup(lines, name, line, other);
      ReplacedComments(lines, name, line);
      ReplacedAgeing(lines, name, line);
    } else {
      LinesOfJoined(lines + [line + "\n"]);
      LookupFinds(lines, name);
      LookupAppended(lines, line + "\n", name);
      LookupAppended(lines, line + "\n", other);
      CommentsAppended(lines, line + "\n");
    }
  }

  /** A new account is a line of its own behind what there was, with nine fields. */
  lemma NewAccount(text: string, name: string, hash: string)
    requires !HasEntry(Lines(text), name)
    ensures SetHash(text, name, hash) == text + name + ":" + hash + ":" + "20000:0:99999:7:::" + "\n"
  {
    var lines := Lines(text);
    LinesProper(text);
    NoAgeing(lines, name);
    JoinedSnoc(lines, Entry(name, hash, Ageing(lines, name)) + "\n");
    BehindIs(text, name, hash, Ageing(lines, name));
  }

  lemma BehindIs(text: string, name: string, hash: string, ageing: string)
    ensures text + (Entry(name, hash, ageing) + "\n") == text + name + ":" + hash + ":" + ageing + "\n"
  {
  }

  lemma {:induction false} NoAgeing(lines: seq<string>, name: string)
    requires !HasEntry(lines, name)
    ensures Ageing(lines, name) == "20000:0:99999:7:::"
  {
    if lines != [] {
      assert lines[0] == lines[0..][0];
      assert !HasEntry(lines[1..], name) by {
        assert forall i :: 0 <= i < |lines[1..]| ==> lines[1..][i] == lines[i + 1];
      }
      NoAgeing(lines[1..], name);
    }
  }

  predicate Blank(s: string) {
    forall i :: 0 <= i < |s| ==> s[i] == ' ' || s[i] == '\t'
  }

  lemma {:induction false} CommentStays(s: string, rest: string)
    requires Skipped(s) && Plain(s) && !Blank(s)
    ensures Skipped(s + rest)
    decreases |s|
  {
    assert (s + rest)[1..] == s[1..] + rest;
    if s[0] == ' ' || s[0] == '\t' {
      CommentStays(s[1..], rest);
    }
  }

  lemma {:induction false} HeadGlued(s: string, rest: string)
    requires Plain(s)
    ensures Head(s + rest) == if ':' in s then Head(s) else s + Head(rest)
    decreases |s|
  {
    if s == [] {
      assert s + rest == rest;
    } else {
      assert (s + rest)[1..] == s[1..] + rest && s[0] in s;
      if s[0] != ':' {
        HeadGlued(s[1..], rest);
        assert s == [s[0]] + s[1..];
        assert ':' in s <==> ':' in s[1..];
        assert [s[0]] + (s[1..] + Head(rest)) == s + Head(rest);
      }
    }
  }

  /** An entry glued to the end of an unfinished line is lost. */
  lemma GluedIsLost(last: string, name: string, rest: string)
    requires last != [] && Plain(last) && !EntryOf(last, name) && Head(rest) == name
    ensures !EntryOf(last + rest, name)
  {
    HeadGlued(last, rest);
    if Skipped(last) && !Blank(last) {
      CommentStays(last, rest);
    }
  }

  lemma {:induction false} JoinedGlue(front: seq<string>, last: string, line: string)
    ensures Joined(front + [last] + [line]) == Joined(front + [last + line])
  {
    if front == [] {
      assert [] + [last] + [line] == [last, line] && [last, line][1..] == [line] && [line][1..] == [];
      assert [] + [last + line] == [last + line] && [last + line][1..] == [];
    } else {
      assert (front + [last] + [line])[1..] == front[1..] + [last] + [line];
      assert (front + [last + line])[1..] == front[1..] + [last + line];
      JoinedGlue(front[1..], last, line);
    }
  }

  /** In a file without the account and without a newline at its end the new entry is lost. */
  lemma SetHashLost(text: string, name: string, hash: string)
    requires Name(name) && NoSeparator(hash)
    requires !HasEntry(Lines(text), name) && !Terminated(text)
    ensures Lookup(Lines(SetHash(text, name, hash)), name) == None
  {
    var lines := Lines(text);
    LinesProper(text);
    AgeingPlain(lines, name);
    var line := Entry(name, hash, Ageing(lines, name)) + "\n";
    EntryPlain(name, hash, Ageing(lines, name));
    EntryReads(name, hash, Ageing(lines, name));
    var n := |lines| - 1;
    var front, last := lines[..n], lines[n];
    assert lines == front + [last];
    assert forall i :: 0 <= i < n ==> front[i] == lines[i];
    assert !EntryOf(last, name) && !HasEntry(front, name);
    GluedFile(front, last, line, name);
  }

  lemma GluedFile(front: seq<string>, last: string, line: string, name: string)
    requires AllWhole(front) && last != [] && Plain(last) && Whole(line) && EntryOf(line, name)
    requires !HasEntry(front, name) && !EntryOf(last, name)
    ensures Lookup(Lines(Joined(front + [last] + [line])), name) == None
  {
    JoinedGlue(front, last, line);
    GluedLine(last, line);
    LinesOfJoined(front + [last + line]);
    GluedIsLost(last, name, line);
    LookupAppended(front, last + line, name);
    LookupFinds(front, name);
  }

  lemma GluedLine(last: string, line: string)
    requires Plain(last) && Whole(line)
    ensures Whole(last + line)
  {
    var g := last + line;
    assert g[..|g| - 1] == last + line[..|line| - 1];
  }

  /** So setting a hash works if and only if the account is there already or the file ends in a newline. */
  lemma SetHashExactly(text: string, name: string, hash: string)
    requires Name(name) && NoSeparator(hash)
    ensures Lookup(Lines(SetHash(text, name, hash)), name) == Some(hash)
            <==> HasEntry(Lines(text), name) || Terminated(text)
  {
    if HasEntry(Lines(text), name) || Terminated(text) {
      SetHashWorks(text, name, hash, name);
    } else {
      SetHashLost(text, name, hash);
    }
  }

  // ------------------------------------------------------------------
  // What else the new entry does to an unfinished last line
  // ------------------------------------------------------------------

  function Colons(s: string): nat {
    if s == [] then 0 else (if s[0] == ':' then 1 else 0) + Colons(s[1..])
  }

  lemma {:induction false} ColonsIn(s: string)
    ensures Colons(s) > 0 <==> ':' in s
    decreases |s|
  {
    if s != [] {
      ColonsIn(s[1..]);
      assert s == [s[0]] + s[1..];
    }
  }

  lemma {:induction false} TailGlued(s: string, rest: string)
    requires Plain(s)
    ensures if ':' in s then Tail(s).Some? && Plain(Tail(s).value) && Tail(s + rest) == Some(Tail(s).value + rest)
                             && Colons(s) == 1 + Colons(Tail(s).value)
            else Tail(s) == None && Tail(s + rest) == Tail(rest)
    decreases |s|
  {
    if s == [] {
      assert s + rest == rest;
    } else {
      assert (s + rest)[1..] == s[1..] + rest && s[0] in s;
      assert s == [s[0]] + s[1..];
      if s[0] != ':' {
        TailGlued(s[1..], rest);
      }
    }
  }

  /** A field more than the line has, or a longer second field, or no difference. */
  lemma HashGlued(last: string, line: string)
    requires Plain(last)
    ensures HashIn(last + line)
            == if Colons(last) == 0 then HashIn(line) else if Colons(last) == 1 then HashIn(last) + Head(line) else HashIn(last)
  {
    ColonsIn(last);
    TailGlued(last, line);
    if ':' in last {
      var tail := Tail(last).value;
      ColonsIn(tail);
      HeadGlued(tail, line);
      HeadGlued(tail, []);
      assert tail + [] == tail;
    }
  }

  lemma {:induction false} BlankThen(s: string, rest: string)
    requires Blank(s)
    ensures Skipped(s + rest) == Skipped(rest) && Skipped(s) && ':' !in s
    decreases |s|
  {
    if s == [] {
      assert s + rest == rest;
    } else {
      assert (s + rest)[1..] == s[1..] + rest;
      BlankThen(s[1..], rest);
    }
  }

  /** What a single line says of a name. */
  function Says(line: string, name: string): Option<string> {
    if EntryOf(line, name) then Some(HashIn(line)) else None
  }

  /**
  Does a last line without its newline say the same of an account when the entry of
  `name` is put right behind it? It does when it is a comment, when it has a third
  field, and of accounts that neither it nor the line it becomes is about.
  */
  predicate Unharmed(last: string, name: string, other: string) {
    || (Skipped(last) && !Blank(last))
    || Colons(last) >= 2
    || (Colons(last) == 1 && other != Head(last))
    || (Colons(last) == 0 && other != last + name && (Blank(last) || other != last))
  }

  lemma GluedSays(last: string, line: string, name: string, other: string)
    requires last != [] && Plain(last) && EntryOf(line, name) && name != []
    ensures Says(last + line, other) == Says(last, other) <==> Unharmed(last, name, other)
  {
    HeadGlued(last, line);
    HashGlued(last, line);
    ColonsIn(last);
    if Blank(last) {
      BlankThen(last, line);
    } else if Skipped(last) {
      CommentStays(last, line);
    } else {
      SkippedMore(last, line);
      HeadGlued(last, []);
      assert last + [] == last;
      assert last + name != last;
      assert HashIn(last) + name != HashIn(last);
    }
  }

  /** The lines before the last, and the last, of a text that does not end in a newline. */
  function Front(text: string): seq<string>
    requires text != []
  {
    Lines(text)[..|Lines(text)| - 1]
  }

  function Last(text: string): string
    requires text != []
  {
    Lines(text)[|Lines(text)| - 1]
  }

  /** What the file is then: the entry runs on from the last line. */
  lemma GluedTo(text: string, name: string, hash: string)
    requires Name(name) && NoSeparator(hash) && !HasEntry(Lines(text), name) && !Terminated(text)
    ensures var line := Entry(name, hash, Ageing(Lines(text), name)) + "\n";
            && Lines(SetHash(text, name, hash)) == Front(text) + [Last(text) + line]
            && Last(text) != [] && Plain(Last(text)) && EntryOf(line, name)
  {
    var lines := Lines(text);
    var line := Entry(name, hash, Ageing(lines, name)) + "\n";
    LinesProper(text);
    AgeingPlain(lines, name);
    EntryPlain(name, hash, Ageing(lines, name));
    EntryReads(name, hash, Ageing(lines, name));
    var front, last := Front(text), Last(text);
    assert lines == front + [last];
    assert forall i :: 0 <= i < |front| ==> front[i] == lines[i];
    JoinedGlue(front, last, line);
    GluedLine(last, line);
    LinesOfJoined(front + [last + line]);
  }

  /**
  Exactly when another account looks up as before: when the account was there or the
  file ends in a newline, or when an earlier line has that account, or the last line
  is not harmed.
  */
  lemma OthersExactly(text: string, name: string, hash: string, other: string)
    requires Name(name) && NoSeparator(hash) && other != name
    ensures Lookup(Lines(SetHash(text, name, hash)), other) == Lookup(Lines(text), other)
            <==> HasEntry(Lines(text), name) || Terminated(text)
                 || HasEntry(Front(text), other) || Unharmed(Last(text), name, other)
  {
    if HasEntry(Lines(text), name) || Terminated(text) {
      SetHashWorks(text, name, hash, other);
    } else {
      var line := Entry(name, hash, Ageing(Lines(text), name)) + "\n";
      GluedTo(text, name, hash);
      assert Lines(text) == Front(text) + [Last(text)];
      LookupAppended(Front(text), Last(text), other);
      LookupAppended(Front(text), Last(text) + line, other);
      LookupFinds(Front(text), other);
      GluedSays(Last(text), line, name, other);
    }
  }

  /** The account of an unfinished last line keeps its hash exactly when it has an earlier entry or the line a third field. */
  lemma LastAccount(text: string, name: string, hash: string)
    requires Name(name) && NoSeparator(hash) && !HasEntry(Lines(text), name) && !Terminated(text) && !Skipped(Last(text))
    ensures var bob := Head(Last(text));
            Lookup(Lines(SetHash(text, name, hash)), bob) == Lookup(Lines(text), bob)
            <==> HasEntry(Front(text), bob) || Colons(Last(text)) >= 2
  {
    var bob := Head(Last(text));
    assert EntryOf(Lines(text)[|Lines(text)| - 1], bob);
    OthersExactly(text, name, hash, bob);
    GluedTo(text, name, hash);
    ColonsIn(Last(text));
    HeadGlued(Last(text), []);
    assert Last(text) + [] == Last(text);
    if Blank(Last(text)) {
      BlankThen(Last(text), []);
    }
  }

  /** And exactly when comments and blank lines keep their text and order. */
  lemma CommentsExactly(text: string, name: string, hash: string)
    requires Name(name) && NoSeparator(hash)
    ensures Comments(Lines(SetHash(text, name, hash))) == Comments(Lines(text))
            <==> HasEntry(Lines(text), name) || Terminated(text) || !Skipped(Last(text))
  {
    if HasEntry(Lines(text), name) || Terminated(text) {
      SetHashWorks(text, name, hash, name);
    } else {
      GluedTo(text, name, hash);
      assert Lines(text) == Front(text) + [Last(text)];
      GluedComments(Front(text), Last(text), Entry(name, hash, Ageing(Lines(text), name)) + "\n");
    }
  }

  lemma GluedComments(front: seq<string>, last: string, line: string)
    requires last != [] && Plain(last) && line != [] && !Skipped(line)
    ensures Comments(front + [last + line]) == Comments(front + [last]) <==> !Skipped(last)
  {
    CommentsOfLast(front, last);
    CommentsOfLast(front, last + line);
    if Blank(last) {
      BlankThen(last, line);
    } else if Skipped(last) {
      CommentStays(last, line);
      assert last != last + line;
      assert (Comments(front) + [last])[|Comments(front)|] != (Comments(front) + [last + line])[|Comments(front)|];
    } else {
      SkippedMore(last, line);
    }
  }

  lemma {:induction false} CommentsOfLast(lines: seq<string>, line: string)
    ensures Comments(lines + [line]) == Comments(lines) + if Skipped(line) then [line] else []
  {
    if lines != [] {
      assert (lines + [line])[1..] == lines[1..] + [line];
      CommentsOfLast(lines[1..], line);
    } else {
      assert lines + [line] == [line] && [line][1..] == [];
    }
  }

  /** A file that is just one entry of two fields: the other account's hash gets the new name behind it. */
  lemma UnfinishedEntry(bob: string, h: string, name: string, hash: string)
    requires Name(bob) && NoSeparator(h) && Name(name) && NoSeparator(hash) && bob != name
    ensures var text := bob + ":" + h;
            Lookup(Lines(text), bob) == Some(h) && Lookup(Lines(SetHash(text, name, hash)), bob) == Some(h + name)
  {
    var text := bob + ":" + h;
    assert text == bob + (":" + h) && (":" + h)[1..] == h && h + [] == h;
    HeadOf(bob, ":" + h);
    HeadOf(h, []);
    SkippedMore(bob, ":" + h);
    assert Plain(text) && text[|text| - 1] != '\n';
    OnlyLine(text);
    assert !EntryOf(text, name);
    GluedTo(text, name, hash);
    var line := Entry(name, hash, Ageing(Lines(text), name)) + "\n";
    assert Front(text) == [] && Last(text) == text && [] + [text + line] == [text + line];
    OneColon(bob, h);
    HashGlued(text, line);
    HeadGlued(text, line);
    SkippedMore(text, line);
  }

  lemma OneColon(a: string, b: string)
    requires NoSeparator(a) && NoSeparator(b)
    ensures Colons(a + ":" + b) == 1
  {
    var s := a + ":" + b;
    assert s == a + (":" + b) && (":" + b)[1..] == b;
    assert s[|a|] == ':' && ':' !in b && ':' !in a;
    HeadOf(a, ":" + b);
    assert Plain(s);
    TailGlued(s, []);
    assert s + [] == s;
    ColonsIn(b);
  }

  /** For instance: setting a hash for alice gives bob another one. */
  lemma BobIsHarmed()
    ensures Lookup(Lines("bob:xx"), "bob") == Some("xx")
    ensures Lookup(Lines(SetHash("bob:xx", "alice", "h")), "bob") == Some("xxalice")
  {
    assert "bob" + ":" + "xx" == "bob:xx" && "xx" + "alice" == "xxalice";
    UnfinishedEntry("bob", "xx", "alice", "h");
  }

  lemma OnlyLine(line: string)
    requires line != [] && Plain(line)
    ensures Lines(line) == [line]
  {
    assert Joined([line]) == line + [] == line;
    LinesOfJoined([line]);
  }

  // ------------------------------------------------------------------
  // The program
  // ------------------------------------------------------------------

  /** sh_hash, on the contents of the file. */
  method ShHash(text: string, name: string) returns (hash: Option<string>)
    ensures hash == Lookup(Lines(text), name)
  {
    var rest := text;
    while rest != []
      invariant Lookup(Lines(rest), name) == Lookup(Lines(text), name)
      decreases |rest|
    {
      var line := rest[..LineEnd(rest)];
      rest := rest[LineEnd(rest)..];
      if !Skipped(line) && Head(line) == name {
        return Some(HashIn(line));
      }
    }
    return None;
  }

  lemma HasEntryFirst(line: string, rest: seq<string>, name: string)
    ensures HasEntry([line] + rest, name) <==> EntryOf(line, name) || HasEntry(rest, name)
  {
    var lines := [line] + rest;
    if HasEntry(rest, name) {
      var i :| 0 <= i < |rest| && EntryOf(rest[i], name);
      assert lines[i + 1] == rest[i];
    }
    if EntryOf(line, name) {
      assert lines[0] == line;
    }
    if HasEntry(lines, name) {
      var i :| 0 <= i < |lines| && EntryOf(lines[i], name);
      assert i > 0 ==> lines[i] == rest[i - 1];
    }
  }

  /** rewrite, on the contents of the file: the new contents, and whether anything was changed. */
  method Rewrite(text: string, name: string, repl: Option<string>) returns (out: string, hit: bool)
    ensures out == Joined(Rewritten(Lines(text), name, repl))
    ensures hit == (HasEntry(Lines(text), name) || repl.Some?)
  {
    out, hit := Filter(text, name, repl);
    if !hit {
      ReplacedNothing(Lines(text), name, repl);
      JoinedSnoc(Lines(text), if repl.Some? then repl.value + "\n" else []);
    }
    if !hit && repl.Some? {
      out := out + (repl.value + "\n");
      hit := true;
    }
  }

  lemma {:induction false} JoinedSnoc(lines: seq<string>, line: string)
    ensures Joined(lines + [line]) == Joined(lines) + line
  {
    if lines == [] {
      assert [] + [line] == [line] && [line][1..] == [] && line + [] == line;
    } else {
      assert (lines + [line])[1..] == lines[1..] + [line];
      JoinedSnoc(lines[1..], line);
    }
  }

  method Filter(text: string, name: string, repl: Option<string>) returns (out: string, hit: bool)
    ensures out == Joined(Replaced(Lines(text), name, repl)) && hit == HasEntry(Lines(text), name)
  {
    var rest := text;
    out, hit := [], false;
    while rest != []
      invariant Joined(Replaced(Lines(text), name, repl)) == out + Joined(Replaced(Lines(rest), name, repl))
      invariant HasEntry(Lines(text), name) == (hit || HasEntry(Lines(rest), name))
      decreases |rest|
    {
      var line := rest[..LineEnd(rest)];
      ghost var later := Lines(rest[LineEnd(rest)..]);
      assert Lines(rest) == [line] + later && Lines(rest)[1..] == later;
      HasEntryFirst(line, later, name);
      var written := line;
      if !Skipped(line) && Head(line) == name {
        hit := true;
        written := if repl.Some? then repl.value + "\n" else [];
      }
      WrittenThen(out, written, Joined(Replaced(later, name, repl)), Replaced(Lines(rest), name, repl), Replaced(later, name, repl));
      out := out + written;
      rest := rest[LineEnd(rest)..];
    }
  }

  lemma WrittenThen(out: string, line: string, rest: string, all: seq<string>, later: seq<string>)
    requires rest == Joined(later) && (all == [line] + later || (line == [] && all == later))
    ensures out + Joined(all) == out + line + rest
  {
    if all == [line] + later {
      assert all[1..] == later;
    }
  }

  /** sh_set_hash, on the contents of the file. */
  method ShSetHash(text: string, name: string, hash: string) returns (out: string)
    ensures out == SetHash(text, name, hash)
  {
    var rest, ageing := text, FRESH;
    while rest != []
      invariant Ageing(Lines(text), name) == Ageing(Lines(rest), name) && ageing == FRESH
      decreases |rest|
    {
      var line := rest[..LineEnd(rest)];
      rest := rest[LineEnd(rest)..];
      if !Skipped(line) && Head(line) == name {
        ageing := AgeingIn(line);
        break;
      }
    }
    assert ageing == Ageing(Lines(text), name);
    var hit;
    out, hit := Rewrite(text, name, Some(Entry(name, hash, ageing)));
  }
}
