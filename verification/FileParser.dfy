/**
 The parser of file_import_sel_ccc as a fold over the pieces fgets delivers, and what it
 makes of an exported catalogue.
 */
module FileParser {
  import opened Options
  import opened Text
  import opened Rendering

  /** newlang_ccc, found_count and count. */
  datatype Parse = Parse(entries: seq<string>, found: int, count: nat)

  predicate Fitting(entries: seq<string>) {
    forall i :: 0 <= i < |entries| ==> |entries[i]| < MAXLANGLENGTH
  }

  predicate ParseOk(p: Parse) {
    Fitting(p.entries)
  }

  /** An entry is open; the code does not check that a marker names one that exists. */
  predicate Open(p: Parse) {
    0 <= p.found < |p.entries|
  }

  /** Removes one newline from the end. */
  function Strip(s: string): (r: string)
    ensures |r| <= |s|
  {
    if s != "" && s[|s| - 1] == '\n' then s[..|s| - 1] else s
  }

  function StripFound(p: Parse): (q: Parse)
    ensures (ParseOk(p) ==> ParseOk(q)) && |q.entries| == |p.entries| && q.found == p.found && q.count == p.count
  {
    if Open(p) then p.(entries := p.entries[p.found := Strip(p.entries[p.found])]) else p
  }

  /** A marker line closes the entry before it and opens an empty one, or, with a stray number, none. */
  function OpenEntry(p: Parse, n: int): (q: Parse)
    ensures (ParseOk(p) ==> ParseOk(q)) && |q.entries| == |p.entries| && q.count == p.count + 1
  {
    var s := StripFound(p);
    Parse(if 0 <= n < |s.entries| then s.entries[n := ""] else s.entries, n, s.count + 1)
  }

  /** Any other line is added to the open entry, as much of it as fits. */
  function AddLine(p: Parse, line: string): (q: Parse)
    requires ParseOk(p)
    ensures ParseOk(q) && |q.entries| == |p.entries| && q.count == p.count && q.found == p.found
  {
    if Open(p) then p.(entries := p.entries[p.found := Cap(p.entries[p.found] + line)]) else p
  }

  function Step(p: Parse, line: string): (q: Parse)
    requires ParseOk(p)
    ensures ParseOk(q) && |q.entries| == |p.entries|
  {
    match ScanMarker(line)
    case Some(n) => OpenEntry(p, n)
    case None => AddLine(p, line)
  }

  function Fold(p: Parse, lines: seq<string>): (q: Parse)
    requires ParseOk(p)
    ensures ParseOk(q) && |q.entries| == |p.entries|
    decreases |lines|
  {
    if lines == [] then p else Fold(Step(p, lines[0]), lines[1..])
  }

  lemma {:induction false} FoldAppend(p: Parse, a: seq<string>, b: seq<string>)
    requires ParseOk(p)
    ensures Fold(p, a + b) == Fold(Fold(p, a), b)
    decreases |a|
  {
    if a == [] {
      assert a + b == b;
    } else {
      assert (a + b)[0] == a[0] && (a + b)[1..] == a[1..] + b;
      FoldAppend(Step(p, a[0]), a[1..], b);
    }
  }

  lemma FoldCons(p: Parse, line: string, rest: seq<string>)
    requires ParseOk(p)
    ensures Fold(p, [line] + rest) == Fold(Step(p, line), rest)
  {
    assert ([line] + rest)[1..] == rest;
  }

  // ---------- counting markers ----------

  function MarkerCount(lines: seq<string>): nat {
    if lines == [] then 0 else (if ScanMarker(lines[0]).Some? then 1 else 0) + MarkerCount(lines[1..])
  }

  lemma {:induction false} FoldCount(p: Parse, lines: seq<string>)
    requires ParseOk(p)
    ensures Fold(p, lines).count == p.count + MarkerCount(lines)
    decreases |lines|
  {
    if lines != [] {
      FoldCount(Step(p, lines[0]), lines[1..]);
    }
  }

  lemma {:induction false} MarkerCountAppend(a: seq<string>, b: seq<string>)
    ensures MarkerCount(a + b) == MarkerCount(a) + MarkerCount(b)
    decreases |a|
  {
    if a == [] {
      assert a + b == b;
    } else {
      assert (a + b)[0] == a[0] && (a + b)[1..] == a[1..] + b;
      MarkerCountAppend(a[1..], b);
    }
  }

  lemma MarkerCountOne(line: string)
    ensures MarkerCount([line]) == if ScanMarker(line).Some? then 1 else 0
  {
    assert [line][1..] == [];
  }

  lemma {:induction false} MarkerCountZero(lines: seq<string>)
    requires MarkerCount(lines) == 0
    ensures forall k :: 0 <= k < |lines| ==> ScanMarker(lines[k]).None?
    decreases |lines|
  {
    if lines != [] {
      MarkerCountZero(lines[1..]);
      forall k | 0 <= k < |lines|
        ensures ScanMarker(lines[k]).None?
      {
        assert k > 0 ==> lines[k] == lines[1..][k - 1];
      }
    }
  }

  /** The count is that of the lines which scan as markers. */
  lemma {:induction false} MarkerCountIsSize(lines: seq<string>, n: nat)
    requires n <= |lines|
    ensures MarkerCount(lines[..n]) == |set k: nat | k < n && ScanMarker(lines[k]).Some?|
    decreases n
  {
    hide ScanMarker;
    var marked := set k: nat | k < n && ScanMarker(lines[k]).Some?;
    if n == 0 {
      assert marked == {};
    } else {
      MarkerCountIsSize(lines, n - 1);
      var before := set k: nat | k < n - 1 && ScanMarker(lines[k]).Some?;
      assert marked == if ScanMarker(lines[n - 1]).Some? then before + {n - 1} else before;
      assert lines[..n] == lines[..n - 1] + [lines[n - 1]];
      MarkerCountAppend(lines[..n - 1], [lines[n - 1]]);
      MarkerCountOne(lines[n - 1]);
    }
  }

  /** The number of the last line that scans as a marker. */
  function LastNumber(lines: seq<string>): Option<int>
    decreases |lines|
  {
    if lines == [] then None
    else
      var n := ScanMarker(lines[|lines| - 1]);
      if n.Some? then n else LastNumber(lines[..|lines| - 1])
  }

  /** The entry found last is the last marker's, whether or not there is such an entry. */
  lemma {:induction false} FoldFound(p: Parse, lines: seq<string>)
    requires ParseOk(p)
    ensures Fold(p, lines).found == if LastNumber(lines).Some? then LastNumber(lines).value else p.found
    decreases |lines|
  {
    hide ScanMarker;
    if lines != [] {
      var front, last := lines[..|lines| - 1], lines[|lines| - 1];
      assert lines == front + [last];
      FoldFound(p, front);
      FoldAppend(p, front, [last]);
      FoldCons(Fold(p, front), last, []);
      assert Fold(p, lines) == Step(Fold(p, front), last);
    }
  }

  // ---------- one line ----------

  /** The entry loses the one newline it may end in, and nothing else. */
  ghost predicate Closed(entry: string, closed: string) {
    if EndsLine(entry) && entry != "" then entry == closed + "\n" else closed == entry
  }

  /**
   A marker line closes the open entry and empties the one it names, if there is one; any
   other line goes to the end of the open entry, as much of it as there is room for. No
   other entry changes.
   */
  lemma StepExactly(p: Parse, line: string)
    requires ParseOk(p)
    ensures var q, n := Step(p, line), ScanMarker(line);
            && |q.entries| == |p.entries|
            && q.found == (if n.Some? then n.value else p.found)
            && q.count == (if n.Some? then p.count + 1 else p.count)
            && (forall k: nat :: k < |p.entries| && k != p.found && n != Some(k) ==> q.entries[k] == p.entries[k])
            && (n.Some? && 0 <= n.value < |p.entries| ==> q.entries[n.value] == "")
            && (0 <= p.found < |p.entries| ==>
                  var e, f := p.entries[p.found], q.entries[p.found];
                  && (n.Some? && n.value != p.found ==> Closed(e, f))
                  && (n.None? ==> f <= e + line && |f| == (if |e| + |line| < 2048 then |e| + |line| else 2047)))
  {
    hide ScanMarker;
  }

  /** With no entry open, lines before the next marker leave no trace. */
  lemma {:induction false} FoldUnopened(p: Parse, lines: seq<string>)
    requires ParseOk(p) && !Open(p) && MarkerCount(lines) == 0
    ensures Fold(p, lines) == p
    decreases |lines|
  {
    MarkerCountZero(lines);
    if lines != [] {
      FoldUnopened(p, lines[1..]);
    }
  }

  // ---------- texts ----------

  lemma CapTwice(already: string, line: string)
    ensures Cap(Cap(already) + line) == Cap(already + line)
  {
    if |already| >= MAXLANGLENGTH {
      assert (Cap(already) + line)[..MAXLANGLENGTH - 1] == (already + line)[..MAXLANGLENGTH - 1];
    }
  }

  /** The state with the open entry replaced. */
  function WithOpen(p: Parse, s: string): Parse
    requires Open(p)
  {
    p.(entries := p.entries[p.found := s])
  }

  lemma AddLineExtends(p: Parse, line: string, already: string)
    requires ParseOk(p) && Open(p) && p.entries[p.found] == Cap(already)
    ensures AddLine(p, line) == WithOpen(p, Cap(already + line))
  {
    CapTwice(already, line);
  }

  /** Lines without a marker add up, in the open entry, to their concatenation cut to fit. */
  lemma {:induction false} FoldText(p: Parse, lines: seq<string>, already: string)
    requires ParseOk(p) && Open(p) && p.entries[p.found] == Cap(already)
    requires MarkerCount(lines) == 0
    ensures Fold(p, lines) == WithOpen(p, Cap(already + Join(lines)))
    decreases |lines|
  {
    hide ScanMarker, Cap, AddLine;
    MarkerCountZero(lines);
    if lines == [] {
      assert already + Join(lines) == already;
    } else {
      AddLineExtends(p, lines[0], already);
      var q := WithOpen(p, Cap(already + lines[0]));
      FoldText(q, lines[1..], already + lines[0]);
      assert already + lines[0] + Join(lines[1..]) == already + Join(lines);
      assert Fold(p, lines) == Fold(q, lines[1..]);
    }
  }

  /** What importing makes of text i: the last one is not followed by a newline. */
  function Imported(texts: seq<string>, i: nat): string
    requires i < |texts|
  {
    if i + 1 < |texts| then Strip(Cap(texts[i] + "\n")) else Cap(texts[i])
  }

  /** Pieces of the texts from i on that the parser would take for markers. */
  function StrayMarkers(texts: seq<string>, i: nat): nat
    requires i < |texts|
    decreases |texts| - i
  {
    if i + 1 < |texts| then MarkerCount(Chunks(texts[i] + "\n")) + StrayMarkers(texts, i + 1)
    else MarkerCount(Chunks(texts[i]))
  }

  lemma {:induction false} TailMarkers(marks: seq<string>, texts: seq<string>, i: nat)
    requires i < |texts| <= |marks| && Marks(marks)
    ensures MarkerCount(Chunks(Tail(marks, texts, i))) == |texts| - i + StrayMarkers(texts, i)
    decreases |texts| - i
  {
    hide Marks, Tail, ScanMarker;
    TailChunks(marks, texts, i);
    MarkerLineChunk(marks, i);
    var mark := marks[i] + "\n";
    MarkerCountOne(mark);
    if i + 1 < |texts| {
      var text, next := Chunks(texts[i] + "\n"), Chunks(Tail(marks, texts, i + 1));
      TailMarkers(marks, texts, i + 1);
      MarkerCountAppend([mark] + text, next);
      MarkerCountAppend([mark], text);
    } else {
      MarkerCountAppend([mark], Chunks(texts[i]));
    }
  }

  /** The parser's state when it meets marker i of a clean catalogue. */
  ghost predicate Before(p: Parse, texts: seq<string>, i: nat) {
    && ParseOk(p)
    && |p.entries| == |texts|
    && p.found == i - 1
    && i <= |texts|
    && (forall k :: 0 <= k < i - 1 ==> p.entries[k] == Imported(texts, k))
    && (0 < i < |texts| ==> p.entries[i - 1] == Cap(texts[i - 1] + "\n"))
    && (0 < i == |texts| ==> p.entries[i - 1] == Cap(texts[i - 1]))
  }

  /** The marker line closes entry i - 1 at its final value and opens entry i empty. */
  lemma OpenNext(p: Parse, texts: seq<string>, i: nat)
    requires i < |texts| && Before(p, texts, i)
    ensures var q := OpenEntry(p, i);
            && q.found == i && q.entries[i] == ""
            && forall k :: 0 <= k < i ==> q.entries[k] == Imported(texts, k)
  {
  }

  lemma AfterText(q: Parse, texts: seq<string>, i: nat)
    requires i < |texts| == |q.entries| && ParseOk(q) && q.found == i
    requires forall k :: 0 <= k < i ==> q.entries[k] == Imported(texts, k)
    ensures i + 1 < |texts| ==> Before(WithOpen(q, Cap(texts[i] + "\n")), texts, i + 1)
    ensures i + 1 == |texts| ==> Before(WithOpen(q, Cap(texts[i])), texts, i + 1)
  {
  }

  /** Reading one marker line and its text moves on by one entry. */
  lemma FoldEntry(p: Parse, marks: seq<string>, texts: seq<string>, i: nat, whole: string)
    requires i < |texts| <= |marks| && Marks(marks) && Before(p, texts, i)
    requires whole == (if i + 1 < |texts| then texts[i] + "\n" else texts[i])
    requires MarkerCount(Chunks(whole)) == 0
    ensures Before(Fold(p, [marks[i] + "\n"] + Chunks(whole)), texts, i + 1)
  {
    MarkerLineChunk(marks, i);
    OpenNext(p, texts, i);
    var q := OpenEntry(p, i);
    FoldText(q, Chunks(whole), "");
    JoinChunks(whole);
    assert "" + Join(Chunks(whole)) == whole;
    FoldCons(p, marks[i] + "\n", Chunks(whole));
    AfterText(q, texts, i);
  }

  lemma {:induction false} FoldTail(p: Parse, marks: seq<string>, texts: seq<string>, i: nat)
    requires i < |texts| <= |marks| && Marks(marks) && Before(p, texts, i)
    requires StrayMarkers(texts, i) == 0
    ensures Before(Fold(p, Chunks(Tail(marks, texts, i))), texts, |texts|)
    decreases |texts| - i
  {
    TailChunks(marks, texts, i);
    var mark := marks[i] + "\n";
    if i + 1 < |texts| {
      var text, next := Chunks(texts[i] + "\n"), Chunks(Tail(marks, texts, i + 1));
      FoldEntry(p, marks, texts, i, texts[i] + "\n");
      FoldTail(Fold(p, [mark] + text), marks, texts, i + 1);
      FoldAppend(p, [mark] + text, next);
    } else {
      FoldEntry(p, marks, texts, i, texts[i]);
    }
  }
}
