/**
 Exporting and importing the language catalogue: the imperative routines, proved against
 the printer and the parser as functions, and the round trip between them.
 */
module Catalogue {
  import opened Options
  import opened Text
  import opened MarkerPattern
  import opened Rendering
  import opened FileParser

  /** The parser's state after a whole file; the first piece is the title and is skipped. */
  function ParseFile(newlang: seq<string>, file: string): (p: Parse)
    requires Fitting(newlang)
    ensures ParseOk(p) && |p.entries| == |newlang|
  {
    var start := Parse(newlang, -1, 0);
    if Pieces(file) == [] then start else Fold(start, Pieces(file)[1..])
  }

  /** The title and the texts are C strings. */
  predicate PlainText(title: string, texts: seq<string>) {
    '\0' !in title && forall i :: 0 <= i < |texts| ==> '\0' !in texts[i]
  }

  lemma WrittenPieces(title: string, marks: seq<string>, texts: seq<string>)
    requires |texts| <= |marks| && Marks(marks) && PlainText(title, texts)
    ensures Pieces(Written(title, marks, texts)) == Chunks(Written(title, marks, texts))
  {
    RestPlain(marks, texts, 0);
    PiecesPlain(Written(title, marks, texts));
  }

  /** The final test: LANGCOUNT markers, the last of them the last entry's. */
  predicate Accepted(p: Parse) {
    p.count as int - 1 == p.found && p.count as int - 1 == LANGCOUNT - 1
  }

  /** Pieces of the file, other than its own markers, that the parser takes for markers. */
  function ExtraMarkers(title: string, texts: seq<string>): nat
    requires texts != []
  {
    MarkerCount(if Chunks(title + "\n") == [] then [] else Chunks(title + "\n")[1..]) + StrayMarkers(texts, 0)
  }

  /** The pieces of a file after the title's. */
  function Body(file: string): seq<string> {
    if Pieces(file) == [] then [] else Pieces(file)[1..]
  }

  /**
   Which files are accepted: after the first piece exactly LANGCOUNT pieces scan as markers,
   and the last of them has the last entry's number. The order of the others does not matter.
   */
  lemma AcceptedExactly(newlang: seq<string>, file: string)
    requires Fitting(newlang)
    ensures Accepted(ParseFile(newlang, file)) <==>
            MarkerCount(Body(file)) == LANGCOUNT && LastNumber(Body(file)) == Some(LANGCOUNT - 1)
  {
    var start := Parse(newlang, -1, 0);
    FoldCount(start, Body(file));
    FoldFound(start, Body(file));
  }

  lemma TailOfAppend<T>(s: seq<T>, t: seq<T>)
    requires s != []
    ensures (s + t)[1..] == s[1..] + t
  {
  }

  lemma WrittenTailChunks(title: string, marks: seq<string>, texts: seq<string>)
    requires 0 < |texts| <= |marks| && Marks(marks)
    ensures Chunks(Written(title, marks, texts)) != [] && Chunks(title + "\n") != []
    ensures Chunks(Written(title, marks, texts))[1..] == Chunks(title + "\n")[1..] + Chunks(Tail(marks, texts, 0))
    ensures MarkerCount(Chunks(Written(title, marks, texts))[1..]) == |texts| + ExtraMarkers(title, texts)
  {
    WrittenChunks(title, marks, texts);
    TailMarkers(marks, texts, 0);
    var first, tail := Chunks(title + "\n"), Chunks(Tail(marks, texts, 0));
    TailOfAppend(first, tail);
    MarkerCountAppend(first[1..], tail);
  }

  /** A text comes back changed exactly when it fills its entry and its newline is stripped. */
  lemma ImportedExact(texts: seq<string>, i: nat)
    requires i < |texts| && |texts[i]| < MAXLANGLENGTH
    ensures Imported(texts, i) == texts[i] <==>
            !(i + 1 < |texts| && |texts[i]| == MAXLANGLENGTH - 1 && texts[i][|texts[i]| - 1] == '\n')
  {
    if i + 1 < |texts| {
      if |texts[i]| == MAXLANGLENGTH - 1 {
        assert Cap(texts[i] + "\n") == texts[i];
      } else {
        assert (texts[i] + "\n")[..|texts[i]|] == texts[i];
      }
    }
  }

  /**
   What importing a catalogue gives, for every title, every spelling of the markers and all
   texts that fit an entry, whatever was in newlang before. It is accepted exactly when no piece of a text
   or of the title's overflow looks like a marker; and it then gives the texts back exactly
   when no text but the last both fills its entry and ends in a newline.
   */
  lemma ImportOfExport(title: string, marks: seq<string>, texts: seq<string>, newlang: seq<string>)
    requires LANGCOUNT <= |marks| && Marks(marks)
    requires |texts| == |newlang| == LANGCOUNT && Fitting(texts) && Fitting(newlang) && PlainText(title, texts)
    ensures var p := ParseFile(newlang, Written(title, marks, texts));
            && (Accepted(p) <==> ExtraMarkers(title, texts) == 0)
            && (Accepted(p) ==> forall i :: 0 <= i < LANGCOUNT ==> p.entries[i] == Imported(texts, i))
            && (Accepted(p) && p.entries == texts <==>
                && ExtraMarkers(title, texts) == 0
                && forall i :: 0 <= i < LANGCOUNT - 1 ==>
                     !(|texts[i]| == MAXLANGLENGTH - 1 && texts[i][|texts[i]| - 1] == '\n'))
  {
    WrittenTailChunks(title, marks, texts);
    WrittenPieces(title, marks, texts);
    var start := Parse(newlang, -1, 0);
    var p := ParseFile(newlang, Written(title, marks, texts));
    FoldCount(start, Chunks(Written(title, marks, texts))[1..]);
    if ExtraMarkers(title, texts) == 0 {
      FoldUnopened(start, Chunks(title + "\n")[1..]);
      FoldTail(start, marks, texts, 0);
      FoldAppend(start, Chunks(title + "\n")[1..], Chunks(Tail(marks, texts, 0)));
      assert Before(p, texts, LANGCOUNT);
      forall i | 0 <= i < LANGCOUNT
        ensures p.entries[i] == Imported(texts, i)
        ensures Imported(texts, i) == texts[i] <==>
                !(i + 1 < |texts| && |texts[i]| == MAXLANGLENGTH - 1 && texts[i][|texts[i]| - 1] == '\n')
      {
        ImportedExact(texts, i);
      }
      assert p.entries == texts <==> forall i :: 0 <= i < LANGCOUNT ==> p.entries[i] == texts[i];
    }
  }

  // ---------- lines ----------

  /** The lines of a text, without their newlines; a final newline leaves an empty last line. */
  function Lines(s: string): (lines: seq<string>)
    ensures lines != []
    decreases |s|
  {
    var n := NewlineAt(s);
    if n == |s| then [s] else [s[..n]] + Lines(s[n + 1..])
  }

  lemma {:induction false} LinesAreLines(s: string)
    ensures forall k :: 0 <= k < |Lines(s)| ==> OneLine(Lines(s)[k])
    decreases |s|
  {
    var n := NewlineAt(s);
    if n < |s| {
      LinesAreLines(s[n + 1..]);
      forall k | 0 <= k < |Lines(s)|
        ensures OneLine(Lines(s)[k])
      {
        assert k > 0 ==> Lines(s)[k] == Lines(s[n + 1..])[k - 1];
      }
    }
  }

  /** No line of the text starts like a marker. */
  predicate Unmarked(text: string) {
    forall k :: 0 <= k < |Lines(text)| ==> ScanMarker(Lines(text)[k]).None?
  }

  lemma {:induction false} UnmarkedCount(lines: seq<string>)
    requires forall k :: 0 <= k < |lines| ==> ScanMarker(lines[k]).None?
    ensures MarkerCount(lines) == 0
    decreases |lines|
  {
    if lines != [] {
      UnmarkedCount(lines[1..]);
    }
  }

  lemma LineCount(line: string)
    requires OneLine(line) && |line| < MAXLANGLENGTH - 1
    ensures Chunks(line + "\n") == [line + "\n"]
    ensures MarkerCount(Chunks(line + "\n")) == MarkerCount([line]) == MarkerCount(Chunks(line))
  {
    ScanMarkerNewline(line);
    ChunkOfLine(line + "\n");
    MarkerCountOne(line + "\n");
    MarkerCountOne(line);
    if line == "" {
      assert ScanMarker(line) == None;
    } else {
      ChunkOfLine(line);
    }
  }

  /** For a text that leaves room for a newline, fgets delivers its lines. */
  lemma {:induction false} LinesAreChunks(text: string)
    requires |text| < MAXLANGLENGTH - 1
    ensures MarkerCount(Chunks(text + "\n")) == MarkerCount(Lines(text)) == MarkerCount(Chunks(text))
    decreases |text|
  {
    var n := NewlineAt(text);
    if n == |text| {
      LineCount(text);
    } else {
      var line, rest := text[..n], text[n + 1..];
      LinesAreChunks(rest);
      LineCount(line);
      assert text == (line + "\n") + rest && text + "\n" == (line + "\n") + (rest + "\n");
      ChunksSplit(line + "\n", rest);
      ChunksSplit(line + "\n", rest + "\n");
      MarkerCountAppend([line + "\n"], Chunks(rest));
      MarkerCountAppend([line + "\n"], Chunks(rest + "\n"));
      MarkerCountAppend([line], Lines(rest));
    }
  }

  lemma {:induction false} NoStrayMarkers(texts: seq<string>, i: nat)
    requires i < |texts|
    requires forall k :: i <= k < |texts| ==> |texts[k]| < MAXLANGLENGTH - 1 && Unmarked(texts[k])
    ensures StrayMarkers(texts, i) == 0
    decreases |texts| - i
  {
    LinesAreChunks(texts[i]);
    UnmarkedCount(Lines(texts[i]));
    if i + 1 < |texts| {
      NoStrayMarkers(texts, i + 1);
    }
  }

  /** A title of one line, and texts without stray markers: the file's markers are its own. */
  lemma NothingStray(title: string, texts: seq<string>)
    requires OneLine(title) && |title| < MAXLANGLENGTH - 1
    requires texts != [] && StrayMarkers(texts, 0) == 0
    ensures ExtraMarkers(title, texts) == 0
  {
    LineCount(title);
    assert Chunks(title + "\n")[1..] == [];
  }

  /**
   The round trip: for every one-line title and all texts of at most MAXLANGLENGTH - 2
   characters without a line that starts like a marker, the file is accepted, however its
   markers are spelled, and every text comes back, empty ones and ones ending in newlines
   included.
   */
  lemma RoundTrip(title: string, marks: seq<string>, texts: seq<string>, newlang: seq<string>)
    requires OneLine(title) && |title| < MAXLANGLENGTH - 1 && PlainText(title, texts)
    requires |texts| == |newlang| == LANGCOUNT <= |marks| && Marks(marks) && Fitting(newlang)
    requires forall i :: 0 <= i < LANGCOUNT ==> |texts[i]| < MAXLANGLENGTH - 1 && Unmarked(texts[i])
    ensures ExtraMarkers(title, texts) == 0
    ensures var p := ParseFile(newlang, Written(title, marks, texts)); Accepted(p) && p.entries == texts
  {
    NoStrayMarkers(texts, 0);
    NothingStray(title, texts);
    ImportOfExport(title, marks, texts, newlang);
  }

  /** The rest of the promised kind, a first text that fills its entry and ends in its newline. */
  lemma FullFirstMarkers(texts: seq<string>, line: string)
    requires |texts| > 1 && texts[0] == line + "\n"
    requires OneLine(line) && |line| == MAXLANGLENGTH - 2 && ScanMarker(line).None?
    requires forall i :: 1 <= i < |texts| ==> |texts[i]| < MAXLANGLENGTH - 1 && Unmarked(texts[i])
    ensures StrayMarkers(texts, 0) == 0
  {
    NoStrayMarkers(texts, 1);
    LineCount(line);
    LineCount("");
    assert ScanMarker("").None?;
    ChunksSplit(line + "\n", "" + "\n");
    assert texts[0] + "\n" == line + "\n" + ("" + "\n");
    MarkerCountAppend([line + "\n"], ["" + "\n"]);
  }

  lemma FullFirstImported(texts: seq<string>, line: string)
    requires |texts| > 1 && texts[0] == line + "\n" && |line| == MAXLANGLENGTH - 2
    requires forall i :: 1 <= i < |texts| ==> |texts[i]| < MAXLANGLENGTH - 1
    ensures forall i :: 0 <= i < |texts| ==> Imported(texts, i) == texts[0 := line][i]
  {
    assert Cap(texts[0] + "\n") == texts[0] && Strip(texts[0]) == line;
    forall i | 1 <= i < |texts|
      ensures Imported(texts, i) == texts[i]
    {
      ImportedExact(texts, i);
    }
  }

  /** A text that fills its entry and ends in a newline comes back without it, and all else as it was. */
  lemma FullEntryLosesNewline(title: string, marks: seq<string>, texts: seq<string>, newlang: seq<string>, line: string)
    requires OneLine(title) && |title| < MAXLANGLENGTH - 1 && PlainText(title, texts)
    requires |texts| == |newlang| == LANGCOUNT <= |marks| && Marks(marks) && Fitting(newlang)
    requires texts[0] == line + "\n"
    requires OneLine(line) && |line| == MAXLANGLENGTH - 2 && ScanMarker(line).None?
    requires forall i :: 1 <= i < LANGCOUNT ==> |texts[i]| < MAXLANGLENGTH - 1 && Unmarked(texts[i])
    ensures var p := ParseFile(newlang, Written(title, marks, texts)); Accepted(p) && p.entries == texts[0 := line]
  {
    FullFirstMarkers(texts, line);
    NothingStray(title, texts);
    ImportOfExport(title, marks, texts, newlang);
    FullFirstImported(texts, line);
    var p := ParseFile(newlang, Written(title, marks, texts));
    assert p.entries == texts[0 := line];
  }

  // ---------- spelling the markers ----------

  lemma {:induction false} TailSpelling(p: Parse, marks: seq<string>, marks': seq<string>, texts: seq<string>, i: nat)
    requires i < |texts| <= |marks| && |texts| <= |marks'| && Marks(marks) && Marks(marks') && ParseOk(p)
    ensures Fold(p, Chunks(Tail(marks, texts, i))) == Fold(p, Chunks(Tail(marks', texts, i)))
    decreases |texts| - i
  {
    hide Marks, Tail, Step;
    TailEntry(p, marks, texts, i);
    TailEntry(p, marks', texts, i);
    if i + 1 < |texts| {
      TailSpelling(Fold(OpenEntry(p, i), Chunks(texts[i] + "\n")), marks, marks', texts, i + 1);
    }
  }

  /** Reading a marker line and its text, without a word of how the marker is spelled. */
  lemma TailEntry(p: Parse, marks: seq<string>, texts: seq<string>, i: nat)
    requires i < |texts| <= |marks| && Marks(marks) && ParseOk(p)
    ensures i + 1 < |texts| ==>
              Fold(p, Chunks(Tail(marks, texts, i))) ==
              Fold(Fold(OpenEntry(p, i), Chunks(texts[i] + "\n")), Chunks(Tail(marks, texts, i + 1)))
    ensures i + 1 == |texts| ==>
              Fold(p, Chunks(Tail(marks, texts, i))) == Fold(OpenEntry(p, i), Chunks(texts[i]))
  {
    hide Marks, Tail;
    TailChunks(marks, texts, i);
    MarkerLineChunk(marks, i);
    var mark := marks[i] + "\n";
    if i + 1 < |texts| {
      var text, next := Chunks(texts[i] + "\n"), Chunks(Tail(marks, texts, i + 1));
      FoldAppend(p, [mark] + text, next);
      FoldCons(p, mark, text);
    } else {
      FoldCons(p, mark, Chunks(texts[i]));
    }
  }

  /** However the markers are spelled, the import is the same, for all texts, accepted or not. */
  lemma SpellingDoesNotMatter(
    title: string, marks: seq<string>, marks': seq<string>, texts: seq<string>, newlang: seq<string>)
    requires 0 < |texts| <= |marks| && |texts| <= |marks'| && Marks(marks) && Marks(marks')
    requires Fitting(newlang) && PlainText(title, texts)
    ensures ParseFile(newlang, Written(title, marks, texts)) == ParseFile(newlang, Written(title, marks', texts))
  {
    var start := Parse(newlang, -1, 0);
    var first := Chunks(title + "\n")[1..];
    WrittenPieces(title, marks, texts);
    WrittenPieces(title, marks', texts);
    WrittenTailChunks(title, marks, texts);
    WrittenTailChunks(title, marks', texts);
    FoldAppend(start, first, Chunks(Tail(marks, texts, 0)));
    FoldAppend(start, first, Chunks(Tail(marks', texts, 0)));
    TailSpelling(Fold(start, first), marks, marks', texts, 0);
  }

  ghost function SpelledLines(spellings: seq<Spelling>): (marks: seq<string>)
    ensures |marks| == |spellings| && forall i :: 0 <= i < |marks| ==> marks[i] == spellings[i].Line()
  {
    seq(|spellings|, i requires 0 <= i < |spellings| => spellings[i].Line())
  }

  /** Marker i is spelled as the pattern allows, with the number i, on one line that fits the buffer. */
  ghost predicate SpellsEntries(spellings: seq<Spelling>) {
    forall i :: 0 <= i < |spellings| ==>
      var m := spellings[i];
      m.WellFormed() && m.Number() == i && OneLine(m.Line()) && |m.Line()| < MAXLANGLENGTH - 1 && '\0' !in m.Line()
  }

  /**
   The exported catalogue with its marker lines respaced, its numbers signed or written with
   more or fewer digits, and anything after them: it imports as the export itself does, and
   every text of the promised kind comes back.
   */
  lemma RespacedImport(title: string, spellings: seq<Spelling>, texts: seq<string>, newlang: seq<string>)
    requires |spellings| == |texts| == |newlang| == LANGCOUNT && SpellsEntries(spellings)
    requires Fitting(newlang) && PlainText(title, texts)
    ensures var p := ParseFile(newlang, Written(title, SpelledLines(spellings), texts));
            && p == ParseFile(newlang, Render(title, texts))
            && (OneLine(title) && |title| < MAXLANGLENGTH - 1
                && (forall i :: 0 <= i < LANGCOUNT ==> |texts[i]| < MAXLANGLENGTH - 1 && Unmarked(texts[i])) ==>
                  Accepted(p) && p.entries == texts)
  {
    var marks := SpelledLines(spellings);
    forall i: nat | i < |marks|
      ensures NamesEntry(marks[i], i)
    {
      MarkerAccepted(spellings[i]);
    }
    PrintedMarks();
    SpellingDoesNotMatter(title, marks, Printed(), texts, newlang);
    if OneLine(title) && |title| < MAXLANGLENGTH - 1
       && forall i :: 0 <= i < LANGCOUNT ==> |texts[i]| < MAXLANGLENGTH - 1 && Unmarked(texts[i]) {
      RoundTrip(title, marks, texts, newlang);
    }
  }

  // ---------- the routines ----------

  /** file_export_sel_ccc: the title, then a marker line and a text for each entry. */
  method FileExport(title: string, texts: seq<string>) returns (file: string)
    requires |texts| == LANGCOUNT
    ensures file == Render(title, texts)
  {
    file := title;
    var i := 0;
    while i < LANGCOUNT
      invariant i <= LANGCOUNT
      invariant file + Rest(Printed(), texts, i) == title + Rest(Printed(), texts, 0)
    {
      var before := file;
      file := file + ("\n" + Marker(i) + "\n");
      file := file + texts[i];
      assert file + Rest(Printed(), texts, i + 1) == before + Rest(Printed(), texts, i);
      i := i + 1;
    }
    assert file + "" == file;
  }

  class Catalogue {
    // curlang_ccc and newlang_ccc: LANGCOUNT entries of MAXLANGLENGTH characters each.
    const curlang: array<string>
    const newlang: array<string>

    ghost predicate Valid()
      reads this, curlang, newlang
    {
      && curlang != newlang
      && curlang.Length == newlang.Length == LANGCOUNT
      && Fitting(curlang[..]) && Fitting(newlang[..])
    }

    constructor ()
      ensures Valid() && fresh(curlang) && fresh(newlang)
    {
      curlang := new string[LANGCOUNT](_ => "");
      newlang := new string[LANGCOUNT](_ => "");
    }

    /** copy_newlanguage_ccc. */
    method CopyNewLanguage()
      requires Valid()
      modifies curlang
      ensures Valid() && curlang[..] == newlang[..]
    {
      for i := 0 to LANGCOUNT
        invariant forall k :: 0 <= k < i ==> curlang[k] == newlang[k]
        invariant Fitting(newlang[..])
        invariant newlang[..] == old(newlang[..])
      {
        curlang[i] := Cap(newlang[i]);
        assert newlang[..][i] == newlang[i];
      }
    }

    /** One turn of the reading loop on a piece that is not the title. A write past the entries is none to them. */
    method ReadLine(line: string, found: int, count: nat) returns (found': int, count': nat)
      requires Valid()
      modifies newlang
      ensures Valid()
      ensures Parse(newlang[..], found', count') == Step(Parse(old(newlang[..]), found, count), line)
    {
      found', count' := found, count;
      ghost var p := Parse(newlang[..], found, count);
      var marker := ScanMarker(line);
      if marker.Some? {
        if 0 <= found' < LANGCOUNT {
          var l := |newlang[found']|;
          if l > 0 && newlang[found'][l - 1] == '\n' {
            newlang[found'] := newlang[found'][..l - 1];
          }
        }
        assert newlang[..] == StripFound(p).entries;
        found' := marker.value;
        if 0 <= found' < LANGCOUNT {
          newlang[found'] := "";
        }
        count' := count' + 1;
        assert newlang[..] == Step(p, line).entries;
      } else if found' >= 0 && found' < LANGCOUNT {
        var l := |newlang[found']|;
        assert l == |p.entries[found']|;
        var room := MAXLANGLENGTH - l - 1;
        newlang[found'] := newlang[found'] + (if |line| <= room then line else line[..room]);
        assert newlang[found'] == Cap(p.entries[found'] + line);
        assert newlang[..] == Step(p, line).entries;
      }
    }

    /**
     file_import_sel_ccc on the contents of a file. It accepts exactly what the parser
     function accepts, and then, and only then, the current language changes, to the
     entries the function yields.
     */
    method FileImport(file: string) returns (accepted: bool)
      requires Valid()
      modifies curlang, newlang
      ensures Valid()
      ensures newlang[..] == ParseFile(old(newlang[..]), file).entries
      ensures accepted == Accepted(ParseFile(old(newlang[..]), file))
      ensures accepted <==> MarkerCount(Body(file)) == LANGCOUNT && LastNumber(Body(file)) == Some(LANGCOUNT - 1)
      ensures curlang[..] == if accepted then newlang[..] else old(curlang[..])
    {
      var rest := file;
      var found, count: nat := -1, 0;
      var firstLine := true;
      ghost var start := Parse(newlang[..], -1, 0);
      while rest != ""
        invariant Valid()
        invariant firstLine ==> rest == file && Parse(newlang[..], found, count) == start
        invariant !firstLine ==> Pieces(file) != []
        invariant !firstLine ==>
                    Fold(Parse(newlang[..], found, count), Pieces(rest)) == Fold(start, Pieces(file)[1..])
        invariant curlang[..] == old(curlang[..])
        decreases |rest|
      {
        var n := ChunkLength(rest);
        var line := CString(rest[..n]);
        assert Pieces(rest) == [line] + Pieces(rest[n..]);
        assert Pieces(rest)[0] == line && Pieces(rest)[1..] == Pieces(rest[n..]);
        if firstLine {
          firstLine := false;
        } else {
          found, count := ReadLine(line, found, count);
        }
        rest := rest[n..];
      }
      AcceptedExactly(start.entries, file);
      if count - 1 == found && count - 1 == LANGCOUNT - 1 {
        CopyNewLanguage();
        accepted := true;
      } else {
        accepted := false;
      }
    }

    /** Export, then import: the round trip on the routines themselves. */
    method ExportThenImport(title: string, texts: seq<string>) returns (accepted: bool)
      requires Valid()
      requires OneLine(title) && |title| < MAXLANGLENGTH - 1 && PlainText(title, texts)
      requires |texts| == LANGCOUNT
      requires forall i :: 0 <= i < LANGCOUNT ==> |texts[i]| < MAXLANGLENGTH - 1 && Unmarked(texts[i])
      modifies curlang, newlang
      ensures accepted && curlang[..] == texts
    {
      var file := FileExport(title, texts);
      PrintedMarks();
      RoundTrip(title, Printed(), texts, newlang[..]);
      accepted := FileImport(file);
    }
  }
}
