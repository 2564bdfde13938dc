/**
 The C library's view of a language catalogue: lines as fgets delivers them, the marker
 pattern as sscanf matches it, and bounded string copies. A string is its characters up
 to the terminating NUL, so it holds no NUL itself.
 */
module Text {
  import opened Options
  const LANGCOUNT := 428
  const MAXLANGLENGTH := 2048

  /** What fits an entry: MAXLANGLENGTH - 1 characters and the NUL. */
  function Cap(s: string): string {
    if |s| < MAXLANGLENGTH then s else s[..MAXLANGLENGTH - 1]
  }

  // ---------- fgets ----------

  /** Index of the first newline, or the length when there is none. */
  function NewlineAt(s: string): (i: nat)
    ensures i <= |s|
    ensures i < |s| ==> s[i] == '\n'
    ensures forall k :: 0 <= k < i ==> s[k] != '\n'
  {
    if s == "" || s[0] == '\n' then 0 else 1 + NewlineAt(s[1..])
  }

  /** How much one fgets takes: through the newline, to the end, or a full buffer. */
  function ChunkLength(s: string): (n: nat)
    ensures n <= |s|
    ensures s != "" ==> n > 0
  {
    var line := if NewlineAt(s) < |s| then NewlineAt(s) + 1 else |s|;
    if line < MAXLANGLENGTH then line else MAXLANGLENGTH - 1
  }

  /** The pieces repeated fgets calls deliver. */
  function Chunks(s: string): seq<string>
    decreases |s|
  {
    if s == "" then [] else [s[..ChunkLength(s)]] + Chunks(s[ChunkLength(s)..])
  }

  /** What C takes for the string in a buffer: everything up to the first NUL. */
  function CString(s: string): (t: string)
    ensures '\0' !in t && |t| <= |s| && t == s[..|t|]
    ensures |t| < |s| ==> s[|t|] == '\0'
  {
    if s == "" || s[0] == '\0' then "" else [s[0]] + CString(s[1..])
  }

  /** The strings the caller of fgets sees: its pieces, each up to its first NUL. */
  function Pieces(s: string): seq<string>
    decreases |s|
  {
    if s == "" then [] else [CString(s[..ChunkLength(s)])] + Pieces(s[ChunkLength(s)..])
  }

  lemma {:induction false} CStringPlain(s: string)
    requires '\0' !in s
    ensures CString(s) == s
  {
    if s != "" {
      CStringPlain(s[1..]);
    }
  }

  /** Without a NUL in the file they are the pieces themselves. */
  lemma {:induction false} PiecesPlain(s: string)
    requires '\0' !in s
    ensures Pieces(s) == Chunks(s)
    decreases |s|
  {
    if s != "" {
      CStringPlain(s[..ChunkLength(s)]);
      PiecesPlain(s[ChunkLength(s)..]);
    }
  }

  function Join(pieces: seq<string>): string {
    if pieces == [] then "" else pieces[0] + Join(pieces[1..])
  }

  lemma {:induction false} JoinChunks(s: string)
    ensures Join(Chunks(s)) == s
    decreases |s|
  {
    if s != "" {
      JoinChunks(s[ChunkLength(s)..]);
    }
  }

  predicate EndsLine(s: string) {
    s == "" || s[|s| - 1] == '\n'
  }

  predicate OneLine(s: string) {
    forall k :: 0 <= k < |s| ==> s[k] != '\n'
  }

  /** Not empty nor longer than the buffer holds; a newline can only end it, and one does or it is full or the last. */
  ghost predicate PieceOfFile(c: string, last: bool) {
    && 0 < |c| < MAXLANGLENGTH
    && (forall i :: 0 <= i < |c| - 1 ==> c[i] != '\n')
    && (last || c[|c| - 1] == '\n' || |c| == MAXLANGLENGTH - 1)
  }

  lemma FirstPieceOfFile(s: string)
    requires s != ""
    ensures PieceOfFile(s[..ChunkLength(s)], ChunkLength(s) == |s|)
  {
  }

  /** With the pieces joining to the file, this says which pieces they are. */
  lemma {:induction false} ChunksExactly(s: string)
    ensures forall k :: 0 <= k < |Chunks(s)| ==> PieceOfFile(Chunks(s)[k], k == |Chunks(s)| - 1)
    decreases |s|
  {
    hide PieceOfFile;
    if s != "" {
      var n := ChunkLength(s);
      FirstPieceOfFile(s);
      ChunksExactly(s[n..]);
      var first, rest := s[..n], Chunks(s[n..]);
      assert Chunks(s) == [first] + rest && (rest == [] <==> n == |s|);
      forall k | 0 <= k < |Chunks(s)|
        ensures PieceOfFile(Chunks(s)[k], k == |Chunks(s)| - 1)
      {
        if k > 0 {
          assert Chunks(s)[k] == rest[k - 1];
        }
      }
    }
  }

  lemma NewlineAtUnique(s: string, i: nat)
    requires i <= |s|
    requires i < |s| ==> s[i] == '\n'
    requires forall k :: 0 <= k < i ==> s[k] != '\n'
    ensures NewlineAt(s) == i
  {
    var j := NewlineAt(s);
    assert j < |s| ==> s[j] == '\n';
  }

  lemma ChunkLengthPrefix(a: string, b: string)
    requires a != "" && EndsLine(a)
    ensures ChunkLength(a + b) == ChunkLength(a)
    ensures EndsLine(a[ChunkLength(a)..])
  {
    assert a[|a| - 1] == '\n';
    assert NewlineAt(a) < |a|;
    NewlineAtUnique(a + b, NewlineAt(a));
  }

  lemma ChunksCons(piece: string, rest: string)
    requires piece != "" && ChunkLength(piece + rest) == |piece|
    ensures Chunks(piece + rest) == [piece] + Chunks(rest)
  {
    var s := piece + rest;
    assert s[..|piece|] == piece && s[|piece|..] == rest;
  }

  /** The first piece of a is the first piece of a + b too. */
  lemma FirstPiece(a: string, b: string) returns (piece: string, rest: string)
    requires a != "" && EndsLine(a)
    ensures |rest| < |a| && EndsLine(rest)
    ensures Chunks(a) == [piece] + Chunks(rest)
    ensures Chunks(a + b) == [piece] + Chunks(rest + b)
  {
    piece, rest := a[..ChunkLength(a)], a[ChunkLength(a)..];
    ChunkLengthPrefix(a, b);
    assert a == piece + rest && a + b == piece + (rest + b);
    ChunksCons(piece, rest);
    ChunksCons(piece, rest + b);
  }

  lemma ConsAppend<T>(x: T, s: seq<T>, t: seq<T>)
    ensures [x] + (s + t) == [x] + s + t
  {
  }

  /** A newline ends a piece, so what follows it is read as if it stood alone. */
  lemma {:induction false} ChunksSplit(a: string, b: string)
    requires EndsLine(a)
    ensures Chunks(a + b) == Chunks(a) + Chunks(b)
    decreases |a|
  {
    if a == "" {
      assert a + b == b;
    } else {
      var piece, rest := FirstPiece(a, b);
      ChunksSplit(rest, b);
      ConsAppend(piece, Chunks(rest), Chunks(b));
    }
  }

  /** A line that fits the buffer is one piece. */
  lemma ChunkOfLine(line: string)
    requires line != "" && |line| < MAXLANGLENGTH
    requires forall k :: 0 <= k < |line| - 1 ==> line[k] != '\n'
    ensures Chunks(line) == [line]
  {
    if line[|line| - 1] == '\n' {
      NewlineAtUnique(line, |line| - 1);
    } else {
      NewlineAtUnique(line, |line|);
    }
    assert line + "" == line;
    ChunksCons(line, "");
  }

  // ---------- the marker pattern "| _ _ | %d | _ _ |" ----------

  predicate IsSpace(c: char) {
    c == ' ' || '\t' <= c <= '\r'
  }

  predicate IsDigit(c: char) {
    '0' <= c <= '9'
  }

  function SkipSpace(s: string): string {
    if s != "" && IsSpace(s[0]) then SkipSpace(s[1..]) else s
  }

  /** White space in the pattern matches any amount of it, a literal matches itself. */
  function SkipThen(s: string, c: char): Option<string> {
    var t := SkipSpace(s);
    if t != "" && t[0] == c then Some(t[1..]) else None
  }

  function LeadingDigits(s: string): (n: nat)
    ensures n <= |s|
  {
    if s != "" && IsDigit(s[0]) then 1 + LeadingDigits(s[1..]) else 0
  }

  function DigitOf(c: char): (d: nat)
    requires IsDigit(c)
    ensures d < 10 && c == DigitChar(d)
  {
    c as int - '0' as int
  }

  function DigitChar(d: nat): (c: char)
    requires d < 10
    ensures IsDigit(c)
  {
    '0' + d as char
  }

  /** The value of a string of digits, read after a prefix worth acc. */
  function DigitsValue(s: string, acc: nat): nat
    requires forall k :: 0 <= k < |s| ==> IsDigit(s[k])
  {
    if s == "" then acc else DigitsValue(s[1..], 10 * acc + DigitOf(s[0]))
  }

  lemma LeadingDigitsAreDigits(s: string)
    ensures forall k :: 0 <= k < LeadingDigits(s) ==> IsDigit(s[k])
  {
  }

  /** A converted value as it arrives in an int: saturated to 64 bits, then truncated to 32. */
  function NarrowToInt(v: int): int {
    var wide := if v > 0x7fff_ffff_ffff_ffff then 0x7fff_ffff_ffff_ffff
                else if v < -0x8000_0000_0000_0000 then -0x8000_0000_0000_0000 else v;
    (wide + 0x8000_0000) % 0x1_0000_0000 - 0x8000_0000
  }

  /** %d: optional space, optional sign, at least one digit. */
  function ScanNumber(s: string): Option<int> {
    var t := SkipSpace(s);
    var signed := t != "" && (t[0] == '-' || t[0] == '+');
    var digits := if signed then t[1..] else t;
    var n := LeadingDigits(digits);
    LeadingDigitsAreDigits(digits);
    if n == 0 then None
    else
      var v: int := DigitsValue(digits[..n], 0);
      Some(NarrowToInt(if signed && t[0] == '-' then -v else v))
  }

  /** Just after the fixed start of the pattern, where the number is expected. */
  function MarkerBody(line: string): Option<string> {
    if line == "" || line[0] != '|' then None
    else match SkipThen(line[1..], '_')
      case None => None
      case Some(a) => match SkipThen(a, '_')
        case None => None
        case Some(b) => SkipThen(b, '|')
  }

  /** Some(n) when sscanf converts its one number; what follows the number is not checked. */
  function ScanMarker(line: string): Option<int> {
    match MarkerBody(line)
    case None => None
    case Some(rest) => ScanNumber(rest)
  }

  /** How the rest of a scan changes when a newline is put at the end of the line. */
  ghost predicate NewlineAdded(s: string, t: string) {
    t == s + "\n" || (s == "" && t == "")
  }

  lemma {:induction false} SkipSpaceNewline(s: string, t: string)
    requires NewlineAdded(s, t)
    ensures NewlineAdded(SkipSpace(s), SkipSpace(t))
  {
    if s == "" {
      if t != "" {
        assert t[1..] == "";
      }
    } else if IsSpace(s[0]) {
      assert t[1..] == s[1..] + "\n";
      SkipSpaceNewline(s[1..], t[1..]);
    }
  }

  lemma SkipThenNewline(s: string, t: string, c: char)
    requires NewlineAdded(s, t) && c != '\n'
    ensures SkipThen(s, c).Some? == SkipThen(t, c).Some?
    ensures SkipThen(s, c).Some? ==> NewlineAdded(SkipThen(s, c).value, SkipThen(t, c).value)
  {
    SkipSpaceNewline(s, t);
  }

  lemma {:induction false} LeadingDigitsNewline(s: string, t: string)
    requires NewlineAdded(s, t)
    ensures LeadingDigits(s) == LeadingDigits(t)
    ensures s[..LeadingDigits(s)] == t[..LeadingDigits(t)]
  {
    if s != "" && IsDigit(s[0]) {
      assert t[1..] == s[1..] + "\n";
      LeadingDigitsNewline(s[1..], t[1..]);
      assert s[..LeadingDigits(s)] == [s[0]] + s[1..][..LeadingDigits(s[1..])];
      assert t[..LeadingDigits(t)] == [t[0]] + t[1..][..LeadingDigits(t[1..])];
    }
  }

  lemma ScanNumberNewline(s: string, t: string)
    requires NewlineAdded(s, t)
    ensures ScanNumber(s) == ScanNumber(t)
  {
    SkipSpaceNewline(s, t);
    var u, v := SkipSpace(s), SkipSpace(t);
    if u != "" && (u[0] == '-' || u[0] == '+') {
      assert v[1..] == u[1..] + "\n";
      LeadingDigitsNewline(u[1..], v[1..]);
    } else {
      LeadingDigitsNewline(u, v);
    }
  }

  /** A line is a marker or not whether or not its newline is there. */
  lemma ScanMarkerNewline(line: string)
    ensures ScanMarker(line + "\n") == ScanMarker(line)
  {
    var t := line + "\n";
    if line != "" && line[0] == '|' {
      assert t[1..] == line[1..] + "\n";
      SkipThenNewline(line[1..], t[1..], '_');
      if SkipThen(line[1..], '_').Some? {
        var a, a' := SkipThen(line[1..], '_').value, SkipThen(t[1..], '_').value;
        SkipThenNewline(a, a', '_');
        if SkipThen(a, '_').Some? {
          var b, b' := SkipThen(a, '_').value, SkipThen(a', '_').value;
          SkipThenNewline(b, b', '|');
          if SkipThen(b, '|').Some? {
            ScanNumberNewline(SkipThen(b, '|').value, SkipThen(b', '|').value);
          }
        }
      }
    }
  }

  // ---------- the markers the printer writes ----------

  /** %04d of a number of at most four digits. */
  function Pad4(n: nat): (s: string)
    requires n < 10000
    ensures |s| == 4
  {
    [DigitChar(n / 1000), DigitChar(n / 100 % 10), DigitChar(n / 10 % 10), DigitChar(n % 10)]
  }

  function Marker(n: nat): (s: string)
    requires n < 10000
    ensures |s| == 12
  {
    "|__|" + Pad4(n) + "|__|"
  }

  lemma MarkerPlain(n: nat)
    requires n < 10000
    ensures '\0' !in Marker(n)
  {
    assert forall c :: c in Pad4(n) ==> c != '\0';
  }

  /** A printed marker is four digits between two signs of two bars and two underscores. */
  lemma MarkerPrinted(n: nat)
    requires n < 10000
    ensures Marker(n)[..4] == Marker(n)[8..] == "|__|"
    ensures forall k :: 4 <= k < 8 ==> '0' <= Marker(n)[k] <= '9'
  {
  }

  /** The scanner reads back the number the printer put in a marker, newline or not. */
  lemma MarkerScans(n: nat)
    requires n < 10000
    ensures ScanMarker(Marker(n)) == Some(n)
    ensures ScanMarker(Marker(n) + "\n") == Some(n)
    ensures forall k :: 0 <= k < 12 ==> Marker(n)[k] != '\n'
  {
    var m := Marker(n);
    assert m[1..] == "__|" + Pad4(n) + "|__|";
    assert m[1..][1..] == "_|" + Pad4(n) + "|__|";
    assert m[1..][1..][1..] == "|" + Pad4(n) + "|__|";
    var rest := m[1..][1..][1..][1..];
    assert rest == Pad4(n) + "|__|";
    assert MarkerBody(m) == Some(rest);
    LeadingDigitsPad(n, "|__|");
    DigitsValuePad(n);
    assert SkipSpace(rest) == rest;
    assert rest[..4] == Pad4(n);
    ScanMarkerNewline(m);
  }

  lemma LeadingDigitsPad(n: nat, tail: string)
    requires n < 10000 && tail != "" && !IsDigit(tail[0])
    ensures LeadingDigits(Pad4(n) + tail) == 4
  {
    var s := Pad4(n) + tail;
    assert s[1..][1..][1..][1..] == tail;
    assert LeadingDigits(tail) == 0;
    assert LeadingDigits(s[1..][1..][1..]) == 1;
    assert LeadingDigits(s[1..][1..]) == 2;
    assert LeadingDigits(s[1..]) == 3;
  }

  lemma DigitsValueStep(c: nat, tail: string, acc: nat)
    requires c < 10
    requires forall k :: 0 <= k < |tail| ==> IsDigit(tail[k])
    ensures DigitsValue([DigitChar(c)] + tail, acc) == DigitsValue(tail, 10 * acc + c)
  {
    var s := [DigitChar(c)] + tail;
    assert s[1..] == tail && DigitOf(s[0]) == c;
  }

  lemma DigitSum(n: nat)
    ensures 1000 * (n / 1000) + 100 * (n / 100 % 10) + 10 * (n / 10 % 10) + n % 10 == n
  {
    assert n / 100 == n / 10 / 10 && n / 1000 == n / 100 / 10;
  }

  lemma DigitsValuePad(n: nat)
    requires n < 10000
    ensures forall k :: 0 <= k < 4 ==> IsDigit(Pad4(n)[k])
    ensures DigitsValue(Pad4(n), 0) == n
  {
    var a, b, c, d := n / 1000, n / 100 % 10, n / 10 % 10, n % 10;
    DigitSum(n);
    var t3: string := [DigitChar(d)];
    var t2 := [DigitChar(c)] + t3;
    var t1 := [DigitChar(b)] + t2;
    DigitsValueStep(a, t1, 0);
    DigitsValueStep(b, t2, a);
    DigitsValueStep(c, t3, 10 * a + b);
    DigitsValueStep(d, "", 100 * a + 10 * b + c);
    assert t3 == [DigitChar(d)] + "";
    assert Pad4(n) == [DigitChar(a)] + t1;
    assert DigitsValue("", 10 * (100 * a + 10 * b + c) + d) == 10 * (100 * a + 10 * b + c) + d;
  }
}
