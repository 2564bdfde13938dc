/**
 The exported catalogue: a title, then for each entry a marker line and its text.
 Written as the printer writes it (Render) and as a reader meets it (Tail): the title's
 line, then marker lines each followed by one text. A reader may meet markers spelled in
 any way the pattern accepts; the printer's own spelling is one of them.
 */
module Rendering {
  import opened Options
  import opened Text

  /** Lines that a reader takes for the markers of as many entries, in order. */
  ghost predicate Marks(marks: seq<string>) {
    forall i: nat :: i < |marks| ==> NamesEntry(marks[i], i)
  }

  ghost predicate NamesEntry(mark: string, i: nat) {
    OneLine(mark) && |mark| < MAXLANGLENGTH - 1 && '\0' !in mark && ScanMarker(mark) == Some(i)
  }

  /** The markers the printer writes. */
  function Printed(): (marks: seq<string>)
    ensures |marks| == 10000
    ensures forall i :: 0 <= i < 10000 ==> marks[i] == Marker(i)
  {
    seq(10000, i requires 0 <= i < 10000 => Marker(i))
  }

  lemma PrintedMarks()
    ensures Marks(Printed())
  {
    forall i: nat | i < 10000
      ensures NamesEntry(Printed()[i], i)
    {
      MarkerScans(i);
      MarkerPlain(i);
    }
  }

  /** What is still to be written from entry i on. */
  function Rest(marks: seq<string>, texts: seq<string>, i: nat): string
    requires i <= |texts| <= |marks|
    decreases |texts| - i
  {
    if i == |texts| then "" else "\n" + marks[i] + "\n" + texts[i] + Rest(marks, texts, i + 1)
  }

  lemma EntryPlain(mark: string, text: string, rest: string)
    requires '\0' !in mark && '\0' !in text && '\0' !in rest
    ensures '\0' !in "\n" + mark + "\n" + text + rest
  {
  }

  lemma {:induction false} RestPlain(marks: seq<string>, texts: seq<string>, i: nat)
    requires i <= |texts| <= |marks| && Marks(marks)
    requires forall k :: 0 <= k < |texts| ==> '\0' !in texts[k]
    ensures '\0' !in Rest(marks, texts, i)
    decreases |texts| - i
  {
    hide ScanMarker;
    if i < |texts| {
      assert NamesEntry(marks[i], i);
      RestPlain(marks, texts, i + 1);
      EntryPlain(marks[i], texts[i], Rest(marks, texts, i + 1));
    }
  }

  /** A catalogue with the markers spelled in the given way. */
  function Written(title: string, marks: seq<string>, texts: seq<string>): string
    requires |texts| <= |marks|
  {
    title + Rest(marks, texts, 0)
  }

  /** What the printer writes after the title. */
  function Entries(texts: seq<string>): string
    requires |texts| <= 10000
  {
    Rest(Printed(), texts, 0)
  }

  function Render(title: string, texts: seq<string>): string
    requires |texts| <= 10000
  {
    title + Entries(texts)
  }

  /** The same from the first character of marker i on. */
  function Tail(marks: seq<string>, texts: seq<string>, i: nat): string
    requires i < |texts| <= |marks|
    decreases |texts| - i
  {
    marks[i] + "\n" + texts[i] + (if i + 1 == |texts| then "" else "\n" + Tail(marks, texts, i + 1))
  }

  lemma {:induction false} RestIsTail(marks: seq<string>, texts: seq<string>, i: nat)
    requires i < |texts| <= |marks|
    ensures Rest(marks, texts, i) == "\n" + Tail(marks, texts, i)
    decreases |texts| - i
  {
    if i + 1 < |texts| {
      RestIsTail(marks, texts, i + 1);
    } else {
      assert Rest(marks, texts, i + 1) == "";
    }
    assert "\n" + marks[i] + "\n" + texts[i] + Rest(marks, texts, i + 1) ==
           "\n" + (marks[i] + "\n" + texts[i] + Rest(marks, texts, i + 1));
  }

  lemma WrittenIsTail(title: string, marks: seq<string>, texts: seq<string>)
    requires 0 < |texts| <= |marks|
    ensures Written(title, marks, texts) == title + "\n" + Tail(marks, texts, 0)
  {
    RestIsTail(marks, texts, 0);
    assert title + ("\n" + Tail(marks, texts, 0)) == title + "\n" + Tail(marks, texts, 0);
  }

  // ---------- the pieces fgets reads ----------

  lemma MarkerLineChunk(marks: seq<string>, i: nat)
    requires i < |marks| && Marks(marks)
    ensures Chunks(marks[i] + "\n") == [marks[i] + "\n"]
    ensures ScanMarker(marks[i] + "\n") == Some(i)
    ensures EndsLine(marks[i] + "\n")
  {
    ScanMarkerNewline(marks[i]);
    ChunkOfLine(marks[i] + "\n");
  }

  /** Each marker line is one piece, and each text's pieces are those it has on its own. */
  lemma TailChunks(marks: seq<string>, texts: seq<string>, i: nat)
    requires i < |texts| <= |marks| && Marks(marks)
    ensures i + 1 < |texts| ==>
              Chunks(Tail(marks, texts, i)) ==
              [marks[i] + "\n"] + Chunks(texts[i] + "\n") + Chunks(Tail(marks, texts, i + 1))
    ensures i + 1 == |texts| ==> Chunks(Tail(marks, texts, i)) == [marks[i] + "\n"] + Chunks(texts[i])
  {
    MarkerLineChunk(marks, i);
    var mark := marks[i] + "\n";
    if i + 1 < |texts| {
      var text, next := texts[i] + "\n", Tail(marks, texts, i + 1);
      assert Tail(marks, texts, i) == mark + (text + next);
      ChunksSplit(mark, text + next);
      ChunksSplit(text, next);
      assert [mark] + (Chunks(text) + Chunks(next)) == [mark] + Chunks(text) + Chunks(next);
    } else {
      assert Tail(marks, texts, i) == mark + texts[i];
      ChunksSplit(mark, texts[i]);
    }
  }

  /** The title's own line, then the entries. */
  lemma WrittenChunks(title: string, marks: seq<string>, texts: seq<string>)
    requires 0 < |texts| <= |marks| && Marks(marks)
    ensures Chunks(Written(title, marks, texts)) == Chunks(title + "\n") + Chunks(Tail(marks, texts, 0))
    ensures Chunks(title + "\n") != []
  {
    WrittenIsTail(title, marks, texts);
    ChunksSplit(title + "\n", Tail(marks, texts, 0));
  }
}
