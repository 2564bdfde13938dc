/**
 The second catalogue parser, the one translate_language_ccc runs over a string in memory:
 it cuts the string into lines in place, by writing a NUL over each newline and putting the
 newline back afterwards. What it yields is compared with the file parser's result.
 */
module MemoryParser {
  import opened Options
  import opened Text
  import opened Rendering
  import opened FileParser
  import opened Catalogue

  datatype Progress = Progress(parse: Parse, failure: bool)

  /**
   What strncat leaves of an entry: as much of the line as there is room for, but all of it
   once the entry is as long as that, because the room is then a huge unsigned number.
   */
  function Appended(entry: string, line: string): string {
    if |entry| < MAXLANGLENGTH then Cap(entry + line) else entry + line
  }

  /** One turn of the loop; unlike the file parser it checks the number and adds the newline itself. */
  function StepLine(s: Progress, line: string): (t: Progress)
    ensures |t.parse.entries| == |s.parse.entries|
  {
    var p := s.parse;
    match ScanMarker(line)
    case Some(n) =>
      if 0 <= n < |p.entries| then s.(parse := OpenEntry(p, n)) else s.(failure := true)
    case None =>
      if Open(p) then
        var e := p.entries[p.found];
        Progress(WithOpen(p, Appended(e, line) + "\n"),
                 s.failure || (|e| <= MAXLANGLENGTH && MAXLANGLENGTH - |e| < |line|))
      else s
  }

  /**
   A marker with an entry's number closes the open entry and empties its own; one with any
   other number changes no entry; any other line goes to the end of the open entry with a
   newline, cut to 2047 characters before it unless the entry was longer already.
   */
  lemma StepLineExactly(s: Progress, line: string)
    requires -1 <= s.parse.found < |s.parse.entries|
    ensures var p, q, n := s.parse, StepLine(s, line).parse, ScanMarker(line);
            var valid := n.Some? && 0 <= n.value < |p.entries|;
            && |q.entries| == |p.entries|
            && q.found == (if valid then n.value else p.found)
            && q.count == (if valid then p.count + 1 else p.count)
            && (forall k: nat :: k < |p.entries| && k != p.found && !(valid && n.value == k) ==>
                  q.entries[k] == p.entries[k])
            && (valid ==> q.entries[n.value] == "")
            && (p.found >= 0 ==>
                  var e, f := p.entries[p.found], q.entries[p.found];
                  && (valid && n.value != p.found ==> Closed(e, f))
                  && (n.Some? && !valid ==> f == e)
                  && (n.None? ==>
                        && |f| == 1 + (if |e| < 2048 && |e| + |line| > 2047 then 2047 else |e| + |line|)
                        && f == e + line[..|f| - 1 - |e|] + "\n"))
  {
    hide ScanMarker;
  }

  function FoldLines(s: Progress, lines: seq<string>): (t: Progress)
    ensures |t.parse.entries| == |s.parse.entries|
    decreases |lines|
  {
    if lines == [] then s else FoldLines(StepLine(s, lines[0]), lines[1..])
  }

  lemma FoldLinesCons(s: Progress, line: string, rest: seq<string>)
    ensures FoldLines(s, [line] + rest) == FoldLines(StepLine(s, line), rest)
  {
    assert ([line] + rest)[0] == line && ([line] + rest)[1..] == rest;
  }

  /** Running a and then b is running a + b. */
  lemma {:induction false} FoldLinesAppend(s: Progress, a: seq<string>, b: seq<string>)
    ensures FoldLines(s, a + b) == FoldLines(FoldLines(s, a), b)
    decreases |a|
  {
    if a == [] {
      assert a + b == b;
    } else {
      assert (a + b)[0] == a[0] && (a + b)[1..] == a[1..] + b;
      FoldLinesAppend(StepLine(s, a[0]), a[1..], b);
    }
  }

  // ---------- the lines of a rendering ----------

  /** Lines put back together, a newline after each. */
  function Unlines(lines: seq<string>): string {
    if lines == [] then "" else lines[0] + "\n" + Unlines(lines[1..])
  }

  lemma FirstLine(line: string, rest: string)
    requires OneLine(line)
    ensures Lines(line + "\n" + rest) == [line] + Lines(rest)
  {
    var s := line + "\n" + rest;
    NewlineAtUnique(s, |line|);
    assert s[..|line|] == line && s[|line| + 1..] == rest;
  }

  lemma {:induction false} UnlinesLines(s: string)
    ensures Unlines(Lines(s)) == s + "\n"
    decreases |s|
  {
    var n := NewlineAt(s);
    if n == |s| {
      assert [s][1..] == [];
    } else {
      UnlinesLines(s[n + 1..]);
      assert s + "\n" == s[..n] + "\n" + (s[n + 1..] + "\n");
    }
  }

  lemma {:induction false} LinesSplit(a: string, b: string)
    ensures Lines(a + "\n" + b) == Lines(a) + Lines(b)
    decreases |a|
  {
    var n := NewlineAt(a);
    if n == |a| {
      FirstLine(a, b);
    } else {
      var line, rest := a[..n], a[n + 1..];
      assert a == line + "\n" + rest;
      assert a + "\n" + b == line + "\n" + (rest + "\n" + b);
      FirstLine(line, rest + "\n" + b);
      FirstLine(line, rest);
      LinesSplit(rest, b);
      ConsAppend(line, Lines(rest), Lines(b));
    }
  }

  lemma TailLines(marks: seq<string>, texts: seq<string>, i: nat)
    requires i < |texts| <= |marks| && Marks(marks)
    ensures i + 1 < |texts| ==>
              Lines(Tail(marks, texts, i)) == [marks[i]] + Lines(texts[i]) + Lines(Tail(marks, texts, i + 1))
    ensures i + 1 == |texts| ==> Lines(Tail(marks, texts, i)) == [marks[i]] + Lines(texts[i])
  {
    assert NamesEntry(marks[i], i);
    if i + 1 < |texts| {
      var next := Tail(marks, texts, i + 1);
      assert Tail(marks, texts, i) == marks[i] + "\n" + (texts[i] + "\n" + next);
      FirstLine(marks[i], texts[i] + "\n" + next);
      LinesSplit(texts[i], next);
      ConsAppend(marks[i], Lines(texts[i]), Lines(next));
    } else {
      assert Tail(marks, texts, i) == marks[i] + "\n" + texts[i];
      FirstLine(marks[i], texts[i]);
    }
  }

  lemma WrittenLines(title: string, marks: seq<string>, texts: seq<string>)
    requires OneLine(title) && 0 < |texts| <= |marks|
    ensures Lines(Written(title, marks, texts)) == [title] + Lines(Tail(marks, texts, 0))
  {
    WrittenIsTail(title, marks, texts);
    FirstLine(title, Tail(marks, texts, 0));
  }

  // ---------- what the parser makes of a rendering ----------

  /** Unmarked lines that fit are all stored, a newline after each. */
  lemma {:induction false} FoldTextLines(s: Progress, lines: seq<string>)
    requires Open(s.parse)
    requires forall k :: 0 <= k < |lines| ==> ScanMarker(lines[k]).None?
    requires |s.parse.entries[s.parse.found]| + |Unlines(lines)| < MAXLANGLENGTH
    ensures FoldLines(s, lines) ==
            s.(parse := WithOpen(s.parse, s.parse.entries[s.parse.found] + Unlines(lines)))
    decreases |lines|
  {
    var e := s.parse.entries[s.parse.found];
    if lines == [] {
      assert e + "" == e;
    } else {
      var t := s.(parse := WithOpen(s.parse, e + lines[0] + "\n"));
      assert StepLine(s, lines[0]) == t;
      FoldTextLines(t, lines[1..]);
      assert e + lines[0] + "\n" + Unlines(lines[1..]) == e + Unlines(lines);
    }
  }

  /** The parser's state when it meets marker i of a rendering: texts so far, one newline too many. */
  ghost predicate At(s: Progress, texts: seq<string>, i: nat) {
    && |s.parse.entries| == |texts|
    && i <= |texts|
    && s.parse.found == i - 1
    && (forall k :: 0 <= k < i - 1 ==> s.parse.entries[k] == texts[k])
    && (i > 0 ==> s.parse.entries[i - 1] == texts[i - 1] + "\n")
  }

  /** The marker line strips the one extra newline of the entry before it. */
  lemma OpenNextLine(s: Progress, mark: string, texts: seq<string>, i: nat)
    requires i < |texts| && At(s, texts, i)
    requires ScanMarker(mark) == Some(i)
    ensures var p := OpenEntry(s.parse, i);
            && StepLine(s, mark) == s.(parse := p)
            && p.found == i && p.entries[i] == ""
            && forall k :: 0 <= k < i ==> p.entries[k] == texts[k]
  {
    if i > 0 {
      assert (texts[i - 1] + "\n")[..|texts[i - 1]|] == texts[i - 1];
    }
  }

  lemma FoldEntryLines(s: Progress, mark: string, texts: seq<string>, i: nat)
    requires i < |texts| && At(s, texts, i) && ScanMarker(mark) == Some(i)
    requires |texts[i]| < MAXLANGLENGTH - 1 && Unmarked(texts[i])
    ensures var t := FoldLines(s, [mark] + Lines(texts[i]));
            At(t, texts, i + 1) && t.parse.count == s.parse.count + 1 && t.failure == s.failure
  {
    var lines := Lines(texts[i]);
    var t := s.(parse := OpenEntry(s.parse, i));
    OpenNextLine(s, mark, texts, i);
    UnlinesLines(texts[i]);
    FoldTextLines(t, lines);
    assert "" + Unlines(lines) == texts[i] + "\n";
    assert ([mark] + lines)[0] == mark && ([mark] + lines)[1..] == lines;
  }

  lemma {:induction false} FoldTailLines(s: Progress, marks: seq<string>, texts: seq<string>, i: nat)
    requires i < |texts| <= |marks| && Marks(marks) && At(s, texts, i)
    requires forall k :: i <= k < |texts| ==> |texts[k]| < MAXLANGLENGTH - 1 && Unmarked(texts[k])
    ensures var t := FoldLines(s, Lines(Tail(marks, texts, i)));
            At(t, texts, |texts|) && t.parse.count == s.parse.count + |texts| - i && t.failure == s.failure
    decreases |texts| - i
  {
    TailLines(marks, texts, i);
    assert NamesEntry(marks[i], i);
    FoldEntryLines(s, marks[i], texts, i);
    if i + 1 < |texts| {
      var t := FoldLines(s, [marks[i]] + Lines(texts[i]));
      FoldTailLines(t, marks, texts, i + 1);
      FoldLinesAppend(s, [marks[i]] + Lines(texts[i]), Lines(Tail(marks, texts, i + 1)));
    }
  }

  /** The parser's state after a whole string, and its final check. */
  function ParseMemory(newlang: seq<string>, text: string): (s: Progress)
    ensures |s.parse.entries| == |newlang|
  {
    var s := FoldLines(Progress(Parse(newlang, -1, 0), false), Lines(text));
    s.(failure := s.failure || !Accepted(s.parse))
  }

  // ---------- which strings fail ----------

  /**
   How long the open entry is when line k comes, or -1 if none is open: empty after a marker
   with an entry's number, and after any other line as long as it was, as much of the line as
   fits 2048 characters with the NUL, and a newline. An entry already that long has no limit.
   */
  function OpenLength(lines: seq<string>, k: nat): int
    requires k <= |lines|
    decreases k
  {
    if k == 0 then -1
    else
      var e, line := OpenLength(lines, k - 1), lines[k - 1];
      match ScanMarker(line)
      case Some(n) => if 0 <= n < LANGCOUNT then 0 else e
      case None =>
        if e == -1 then -1
        else if e < 2048 && e + |line| >= 2048 then 2048
        else e + |line| + 1
  }

  /** Line k alone makes the parser fail: a number no entry has, or more characters than there is room for. */
  ghost predicate Wrong(lines: seq<string>, k: nat)
    requires k < |lines|
  {
    match ScanMarker(lines[k])
    case Some(n) => !(0 <= n < LANGCOUNT)
    case None => 0 <= OpenLength(lines, k) <= 2048 && |lines[k]| > 2048 - OpenLength(lines, k)
  }

  /** LANGCOUNT markers, the last one the last entry's, each with a number an entry has, and no line too long. */
  ghost predicate Complete(lines: seq<string>) {
    && MarkerCount(lines) == LANGCOUNT
    && LastNumber(lines) == Some(LANGCOUNT - 1)
    && forall k: nat :: k < |lines| ==> !Wrong(lines, k)
  }

  /** The parser's state s is what the lines before line k say. */
  ghost predicate Follows(s: Progress, lines: seq<string>, k: nat)
    requires k <= |lines|
  {
    && -1 <= s.parse.found < LANGCOUNT == |s.parse.entries|
    && OpenLength(lines, k) == (if s.parse.found == -1 then -1 else |s.parse.entries[s.parse.found]|)
    && (s.failure <==> exists j: nat :: j < k && Wrong(lines, j))
    && (!s.failure ==>
          && s.parse.count == MarkerCount(lines[..k])
          && s.parse.found == if LastNumber(lines[..k]).Some? then LastNumber(lines[..k]).value else -1)
  }

  lemma FollowsStep(s: Progress, lines: seq<string>, k: nat)
    requires k < |lines| && Follows(s, lines, k)
    ensures Follows(StepLine(s, lines[k]), lines, k + 1)
  {
    hide ScanMarker;
    var t, line := StepLine(s, lines[k]), lines[k];
    assert t.failure <==> s.failure || Wrong(lines, k);
    assert lines[..k + 1] == lines[..k] + [line] && lines[..k + 1][..k] == lines[..k];
    MarkerCountAppend(lines[..k], [line]);
    MarkerCountOne(line);
  }

  lemma {:induction false} FoldFollows(newlang: seq<string>, lines: seq<string>, k: nat)
    requires |newlang| == LANGCOUNT && k <= |lines|
    ensures Follows(FoldLines(Progress(Parse(newlang, -1, 0), false), lines[..k]), lines, k)
    decreases k
  {
    hide ScanMarker;
    if k > 0 {
      hide Follows, StepLine;
      var start := Progress(Parse(newlang, -1, 0), false);
      var s := FoldLines(start, lines[..k - 1]);
      FoldFollows(newlang, lines, k - 1);
      FollowsStep(s, lines, k - 1);
      assert lines[..k] == lines[..k - 1] + [lines[k - 1]];
      FoldLinesAppend(start, lines[..k - 1], [lines[k - 1]]);
      FoldLinesCons(s, lines[k - 1], []);
    }
  }

  /** Which strings fail, whatever was in newlang before: all whose lines are not complete. */
  lemma FailsExactly(newlang: seq<string>, text: string)
    requires |newlang| == LANGCOUNT
    ensures ParseMemory(newlang, text).failure <==> !Complete(Lines(text))
  {
    hide ScanMarker, OpenLength;
    var lines := Lines(text);
    FoldFollows(newlang, lines, |lines|);
    assert lines[..|lines|] == lines;
  }

  /**
   The two parsers agree: on any catalogue of the kind that round-trips, however its markers
   are spelled, the parser in memory succeeds and yields the file parser's entries, except that the last one has
   exactly one newline more, because no marker follows it.
   */
  lemma ParsersAgree(
    title: string, marks: seq<string>, texts: seq<string>, newlang: seq<string>, newlang': seq<string>)
    requires OneLine(title) && |title| < MAXLANGLENGTH - 1 && ScanMarker(title).None? && PlainText(title, texts)
    requires LANGCOUNT <= |marks| && Marks(marks)
    requires |texts| == |newlang| == |newlang'| == LANGCOUNT && Fitting(newlang) && Fitting(newlang')
    requires forall i :: 0 <= i < LANGCOUNT ==> |texts[i]| < MAXLANGLENGTH - 1 && Unmarked(texts[i])
    ensures var inMemory := ParseMemory(newlang, Written(title, marks, texts));
            var fromFile := ParseFile(newlang', Written(title, marks, texts));
            && !inMemory.failure && Accepted(fromFile)
            && inMemory.parse.found == fromFile.found && inMemory.parse.count == fromFile.count
            && (forall i :: 0 <= i < LANGCOUNT - 1 ==> inMemory.parse.entries[i] == fromFile.entries[i] == texts[i])
            && fromFile.entries[LANGCOUNT - 1] == texts[LANGCOUNT - 1]
            && inMemory.parse.entries[LANGCOUNT - 1] == fromFile.entries[LANGCOUNT - 1] + "\n"
  {
    ParseMemoryOfExport(title, marks, texts, newlang);
    RoundTrip(title, marks, texts, newlang');
  }

  /** Before the first marker a line leaves no trace. */
  lemma TitleIgnored(s: Progress, title: string)
    requires s.parse.found == -1 && ScanMarker(title).None?
    ensures StepLine(s, title) == s
  {
  }

  /** The parser in memory on a catalogue of that kind. */
  lemma ParseMemoryOfExport(title: string, marks: seq<string>, texts: seq<string>, newlang: seq<string>)
    requires OneLine(title) && ScanMarker(title).None? && LANGCOUNT <= |marks| && Marks(marks)
    requires |texts| == |newlang| == LANGCOUNT && Fitting(newlang)
    requires forall i :: 0 <= i < LANGCOUNT ==> |texts[i]| < MAXLANGLENGTH - 1 && Unmarked(texts[i])
    ensures var s := ParseMemory(newlang, Written(title, marks, texts));
            && !s.failure && s.parse.found == LANGCOUNT - 1 && s.parse.count == LANGCOUNT
            && (forall i :: 0 <= i < LANGCOUNT - 1 ==> s.parse.entries[i] == texts[i])
            && s.parse.entries[LANGCOUNT - 1] == texts[LANGCOUNT - 1] + "\n"
  {
    hide Marks, Lines, Written, Tail, ScanMarker, Unmarked, StepLine, FoldLines;
    var s := Progress(Parse(newlang, -1, 0), false);
    WrittenLines(title, marks, texts);
    FoldTailLines(s, marks, texts, 0);
    TitleIgnored(s, title);
    FoldLinesCons(s, title, Lines(Tail(marks, texts, 0)));
  }

  // ---------- the routine ----------

  /** The C string that starts at from: its characters up to the first NUL. */
  function StringAt(memory: seq<char>, from: nat): string
    requires from <= |memory|
    decreases |memory| - from
  {
    if from == |memory| || memory[from] == '\0' then "" else [memory[from]] + StringAt(memory, from + 1)
  }

  lemma {:induction false} StringAtEnds(memory: seq<char>, from: nat, end: nat)
    requires from <= end < |memory| && memory[end] == '\0'
    requires forall k :: from <= k < end ==> memory[k] != '\0'
    ensures StringAt(memory, from) == memory[from..end]
    decreases end - from
  {
    if from < end {
      StringAtEnds(memory, from + 1, end);
    }
  }

  /** strchr for the newline, stopping at the NUL at end. */
  method FindNewline(memory: array<char>, from: nat, end: nat) returns (i: nat)
    requires from <= end < memory.Length
    ensures from <= i <= end
    ensures i < end ==> memory[i] == '\n'
    ensures forall k :: from <= k < i ==> memory[k] != '\n'
  {
    i := from;
    while i < end && memory[i] != '\n'
      invariant from <= i <= end
      invariant forall k :: from <= k < i ==> memory[k] != '\n'
    {
      i := i + 1;
    }
  }

  /** What one turn does to the entries, once the line has been cut out. */
  method ProcessLine(line: string, newlang: array<string>, found: int, count: nat, failure: bool)
    returns (found': int, count': nat, failure': bool)
    requires newlang.Length == LANGCOUNT && -1 <= found < LANGCOUNT
    modifies newlang
    ensures -1 <= found' < LANGCOUNT
    ensures Progress(Parse(newlang[..], found', count'), failure') ==
            StepLine(Progress(Parse(old(newlang[..]), found, count), failure), line)
  {
    found', count', failure' := found, count, failure;
    ghost var s := Progress(Parse(newlang[..], found, count), failure);
    var marker := ScanMarker(line);
    if marker.Some? {
      var newCount := marker.value;
      if newCount >= 0 && newCount < LANGCOUNT {
        if found' >= 0 {
          var l := |newlang[found']|;
          if l > 0 && newlang[found'][l - 1] == '\n' {
            newlang[found'] := newlang[found'][..l - 1];
          }
        }
        assert newlang[..] == StripFound(s.parse).entries;
        found' := newCount;
        newlang[found'] := "";
        count' := count' + 1;
        assert newlang[..] == StepLine(s, line).parse.entries;
      } else {
        failure' := true;
      }
    } else if found' >= 0 && found' < LANGCOUNT {
      var l := |newlang[found']|;
      assert l == |s.parse.entries[found']|;
      var room := MAXLANGLENGTH - l - 1;
      newlang[found'] := newlang[found'] + (if room < 0 || |line| <= room then line else line[..room]);
      assert newlang[found'] == Appended(s.parse.entries[found'], line);
      newlang[found'] := newlang[found'] + "\n";
      if l <= MAXLANGLENGTH && MAXLANGLENGTH - l < |line| {
        failure' := true;
      }
      assert newlang[..] == StepLine(s, line).parse.entries;
    }
  }

  /** The first line of a text, and the lines after it. */
  function FirstOf(text: string): string {
    text[..NewlineAt(text)]
  }

  function LinesAfterFirst(text: string): seq<string> {
    if NewlineAt(text) < |text| then Lines(text[NewlineAt(text) + 1..]) else []
  }

  lemma LinesFirst(text: string)
    ensures Lines(text) == [FirstOf(text)] + LinesAfterFirst(text)
  {
    assert text[..|text|] == text;
  }

  /** Cuts the line that starts at line out of the string, writing a NUL over its newline. */
  method CutLine(memory: array<char>, line: nat, end: nat, ghost rest: string) returns (thisLine: string, nextLine: nat)
    requires line <= end < memory.Length && memory[end] == '\0' && rest == memory[line..end]
    requires forall k :: 0 <= k < end ==> memory[k] != '\0'
    modifies memory
    ensures nextLine == line + NewlineAt(rest)
    ensures memory[..] == if nextLine < end then old(memory[..])[nextLine := '\0'] else old(memory[..])
    ensures thisLine == FirstOf(rest)
  {
    nextLine := FindNewline(memory, line, end);
    NewlineAtUnique(rest, nextLine - line);
    assert rest[..nextLine - line] == memory[line..nextLine];
    if nextLine < end {
      memory[nextLine] := '\0';
    }
    thisLine := StringAt(memory[..], line);
    StringAtEnds(memory[..], line, nextLine);
  }

  /** One turn: cut the line out, process it, put its newline back. */
  method OneTurn(memory: array<char>, line: nat, end: nat, ghost rest: string,
                 newlang: array<string>, found: int, count: nat, failure: bool)
    returns (nextLine: nat, found': int, count': nat, failure': bool)
    requires line <= end < memory.Length && memory[end] == '\0' && rest == memory[line..end]
    requires forall k :: 0 <= k < end ==> memory[k] != '\0'
    requires newlang.Length == LANGCOUNT && -1 <= found < LANGCOUNT
    modifies memory, newlang
    ensures -1 <= found' < LANGCOUNT
    ensures memory[..] == old(memory[..])
    ensures nextLine == line + NewlineAt(rest)
    ensures Progress(Parse(newlang[..], found', count'), failure') ==
            StepLine(Progress(Parse(old(newlang[..]), found, count), failure), FirstOf(rest))
  {
    var thisLine;
    thisLine, nextLine := CutLine(memory, line, end, rest);
    found', count', failure' := ProcessLine(thisLine, newlang, found, count, failure);
    if nextLine < end {
      assert rest[nextLine - line] == old(memory[nextLine]);
      memory[nextLine] := '\n';
    }
  }

  /** s is where the run from start has got to, with the lines in rest still to come. */
  ghost predicate Reached(start: Progress, lines: seq<string>, s: Progress, rest: seq<string>) {
    FoldLines(s, rest) == FoldLines(start, lines)
  }

  lemma ReachedStep(start: Progress, lines: seq<string>, s: Progress, rest: string)
    requires Reached(start, lines, s, Lines(rest))
    ensures Reached(start, lines, StepLine(s, FirstOf(rest)), LinesAfterFirst(rest))
  {
    LinesFirst(rest);
    FoldLinesCons(s, FirstOf(rest), LinesAfterFirst(rest));
  }

  lemma DropFromSlice(memory: seq<char>, line: nat, end: nat, n: nat)
    requires line + n <= end <= |memory|
    ensures memory[line..end][n..] == memory[line + n..end]
  {
  }

  /** The loop: every line of the string in turn, from the first. */
  method ParseLines(memory: array<char>, end: nat, newlang: array<string>)
    returns (found: int, count: nat, failure: bool)
    requires end < memory.Length && memory[end] == '\0'
    requires forall k :: 0 <= k < end ==> memory[k] != '\0'
    requires newlang.Length == LANGCOUNT
    modifies memory, newlang
    ensures memory[..] == old(memory[..])
    ensures Progress(Parse(newlang[..], found, count), failure) ==
            FoldLines(Progress(Parse(old(newlang[..]), -1, 0), false), Lines(old(memory[..end])))
  {
    hide StepLine, Lines, NewlineAt;
    ghost var lines := Lines(memory[..end]);
    ghost var start := Progress(Parse(newlang[..], -1, 0), false);
    ghost var rest := memory[..end];
    var line: nat := 0;
    var more := true;
    found, count, failure := -1, 0, false;
    while more
      invariant line <= end && -1 <= found < LANGCOUNT
      invariant memory[..] == old(memory[..])
      invariant more ==> rest == memory[line..end]
      invariant Reached(start, lines, Progress(Parse(newlang[..], found, count), failure),
                        if more then Lines(rest) else [])
      decreases more, end - line
    {
      ReachedStep(start, lines, Progress(Parse(newlang[..], found, count), failure), rest);
      var nextLine;
      nextLine, found, count, failure := OneTurn(memory, line, end, rest, newlang, found, count, failure);
      if nextLine < end {
        DropFromSlice(memory[..], line, end, NewlineAt(rest) + 1);
        rest := rest[NewlineAt(rest) + 1..];
        line := nextLine + 1;
      } else {
        more := false;
      }
    }
  }

  /**
   The in-place parser over the NUL-terminated string memory[..end]. It yields what the
   parser function yields on the string's lines, and leaves the string as it was: every
   NUL it wrote has been turned back into the newline it replaced.
   */
  method ParseInPlace(memory: array<char>, end: nat, newlang: array<string>) returns (failure: bool)
    requires end < memory.Length && memory[end] == '\0'
    requires forall k :: 0 <= k < end ==> memory[k] != '\0'
    requires newlang.Length == LANGCOUNT
    modifies memory, newlang
    ensures memory[..] == old(memory[..])
    ensures newlang[..] == ParseMemory(old(newlang[..]), old(memory[..end])).parse.entries
    ensures failure == ParseMemory(old(newlang[..]), old(memory[..end])).failure
    ensures failure <==> !Complete(Lines(old(memory[..end])))
  {
    FailsExactly(newlang[..], memory[..end]);
    hide Complete, FoldLines, Lines;
    var found: int, count: int;
    found, count, failure := ParseLines(memory, end, newlang);
    if !(count - 1 == found && count - 1 == LANGCOUNT - 1) {
      failure := true;
    }
  }
}
