/**
 How translate_language_ccc sends the catalogue to the translation service: entries are
 collected into batches, and each batch is escaped for the query part of a URL.
 */
module Batching {
  import opened Text
  import opened Rendering

  const BATCH_LIMIT := 3000

  // ---------- escaping ----------

  function EscapeChar(c: char): string {
    if c == ' ' then "%20" else if c == '\n' then "%0a" else [c]
  }

  function Escape(s: string): string {
    if s == "" then "" else EscapeChar(s[0]) + Escape(s[1..])
  }

  /**
   Who reads the text: one that undoes just the two codes that are written here, or any
   reader of percent codes (section 2.1 of RFC 3986), of which the two are only some.
   */
  datatype Reader = OwnCodes | EveryCode

  predicate IsHex(c: char) {
    '0' <= c <= '9' || 'a' <= c <= 'f' || 'A' <= c <= 'F'
  }

  function HexValue(c: char): (n: nat)
    requires IsHex(c)
    ensures n < 16
  {
    if c <= '9' then c as nat - '0' as nat
    else if c <= 'F' then c as nat - 'A' as nat + 10
    else c as nat - 'a' as nat + 10
  }

  predicate IsCode(r: Reader, x: char, y: char) {
    match r
    case OwnCodes => (x == '2' && y == '0') || (x == '0' && y == 'a')
    case EveryCode => IsHex(x) && IsHex(y)
  }

  function CodeChar(x: char, y: char): char
    requires IsHex(x) && IsHex(y)
  {
    (16 * HexValue(x) + HexValue(y)) as char
  }

  /** The text starts with what the reader takes for a code. */
  predicate StartsCode(r: Reader, s: string) {
    |s| >= 3 && s[0] == '%' && IsCode(r, s[1], s[2])
  }

  /** What the reader makes of a text. */
  function Unescape(r: Reader, s: string): string {
    if s == "" then ""
    else if StartsCode(r, s) then [CodeChar(s[1], s[2])] + Unescape(r, s[3..])
    else [s[0]] + Unescape(r, s[1..])
  }

  /** No three consecutive characters of the text are a code. */
  predicate CodeFree(r: Reader, s: string) {
    forall i :: 0 <= i <= |s| ==> !StartsCode(r, s[i..])
  }

  lemma CodeFreeTail(r: Reader, s: string)
    requires s != ""
    ensures CodeFree(r, s) <==> !StartsCode(r, s) && CodeFree(r, s[1..])
  {
    hide StartsCode;
    assert s[0..] == s;
    var t := s[1..];
    if CodeFree(r, s) {
      forall i | 0 <= i <= |t|
        ensures !StartsCode(r, t[i..])
      {
        assert t[i..] == s[i + 1..];
      }
    }
    if !StartsCode(r, s) && CodeFree(r, t) {
      forall i | 0 <= i <= |s|
        ensures !StartsCode(r, s[i..])
      {
        assert i > 0 ==> s[i..] == t[i - 1..];
      }
    }
  }

  /** Two characters that escaping leaves alone start an escaped text when they started the text. */
  lemma FirstTwo(t: string, x: char, y: char)
    requires IsHex(x) && IsHex(y)
    ensures [x, y] <= Escape(t) <==> [x, y] <= t
  {
    if t != "" {
      var u := t[1..];
      assert Escape(t)[0] == EscapeChar(t[0])[0];
      if EscapeChar(t[0]) == [t[0]] && u != "" {
        assert Escape(t)[1] == Escape(u)[0] == EscapeChar(u[0])[0];
      }
    }
  }

  lemma CodeByTail(r: Reader, s: string)
    requires s != ""
    ensures StartsCode(r, s) ==> [s[1], s[2]] <= s[1..]
    ensures forall x, y :: [x, y] <= s[1..] ==> |s| >= 3 && s[1] == x && s[2] == y
  {
    forall x, y | [x, y] <= s[1..]
      ensures |s| >= 3 && s[1] == x && s[2] == y
    {
      assert s[1..][0] == x && s[1..][1] == y;
    }
  }

  /** An escaped text starts with a code when its first character was escaped, or it had one. */
  lemma EscapedStart(r: Reader, s: string)
    requires s != ""
    ensures StartsCode(r, Escape(s)) <==> s[0] == ' ' || s[0] == '\n' || StartsCode(r, s)
  {
    var x := Escape(s);
    if s[0] == ' ' || s[0] == '\n' {
      assert x[..3] == EscapeChar(s[0]);
      assert x[1] == x[..3][1] && x[2] == x[..3][2];
    } else {
      assert x[1..] == Escape(s[1..]);
      CodeByTail(r, s);
      CodeByTail(r, x);
      if StartsCode(r, x) {
        FirstTwo(s[1..], x[1], x[2]);
      }
      if StartsCode(r, s) {
        FirstTwo(s[1..], s[1], s[2]);
      }
    }
  }

  /** A code in the text is escaped as it stands. */
  lemma EscapedCode(r: Reader, s: string)
    requires StartsCode(r, s)
    ensures Escape(s) == s[..3] + Escape(s[3..])
  {
    var t := s[1..];
    var u := t[1..];
    assert u[1..] == s[3..] && t[0] == s[1] && u[0] == s[2];
    assert Escape(s) == [s[0]] + Escape(t) && Escape(t) == [t[0]] + Escape(u) && Escape(u) == [u[0]] + Escape(s[3..]);
    assert s[..3] == [s[0], s[1], s[2]];
  }

  lemma UnescapeHead(r: Reader, x: string, head: string, tail: string)
    requires x == head + tail && x != ""
    requires |head| == if StartsCode(r, x) then 3 else 1
    ensures Unescape(r, x) == [if StartsCode(r, x) then CodeChar(x[1], x[2]) else x[0]] + Unescape(r, tail)
  {
    assert x[|head|..] == tail;
  }

  /** What the reader makes of an escaped text, one character of the text at a time. */
  lemma ReadsPlain(r: Reader, s: string)
    requires s != "" && !StartsCode(r, s)
    ensures Unescape(r, Escape(s)) == [s[0]] + Unescape(r, Escape(s[1..]))
  {
    EscapedStart(r, s);
    var head, tail := EscapeChar(s[0]), Escape(s[1..]);
    if |head| == 3 {
      assert (head + tail)[1] == head[1] && (head + tail)[2] == head[2];
    }
    UnescapeHead(r, Escape(s), head, tail);
  }

  lemma ReadsCode(r: Reader, s: string)
    requires StartsCode(r, s)
    ensures |Unescape(r, Escape(s))| == 1 + |Unescape(r, Escape(s[3..]))|
  {
    EscapedStart(r, s);
    EscapedCode(r, s);
    UnescapeHead(r, Escape(s), s[..3], Escape(s[3..]));
  }

  lemma {:induction false} ReadsNoLonger(r: Reader, s: string)
    ensures |Unescape(r, Escape(s))| <= |s|
    ensures !CodeFree(r, s) ==> |Unescape(r, Escape(s))| < |s|
    decreases |s|
  {
    if s == "" {
      assert forall i :: 0 <= i <= |s| ==> s[i..] == "";
    } else {
      CodeFreeTail(r, s);
      if StartsCode(r, s) {
        ReadsCode(r, s);
        ReadsNoLonger(r, s[3..]);
      } else {
        ReadsPlain(r, s);
        ReadsNoLonger(r, s[1..]);
      }
    }
  }

  /** Either reader gets back the text that was escaped if and only if that is free of its codes. */
  lemma {:induction false} EscapeRoundTrip(r: Reader, s: string)
    ensures Unescape(r, Escape(s)) == s <==> CodeFree(r, s)
    decreases |s|
  {
    if s == "" {
      assert forall i :: 0 <= i <= |s| ==> s[i..] == "";
    } else {
      CodeFreeTail(r, s);
      if StartsCode(r, s) {
        ReadsNoLonger(r, s);
      } else {
        ReadsPlain(r, s);
        EscapeRoundTrip(r, s[1..]);
        assert [s[0]] + s[1..] == s;
      }
    }
  }

  /** Escaping loses nothing of text that is free of the two codes: different texts are sent as different text. */
  lemma EscapeInjective(a: string, b: string)
    requires CodeFree(OwnCodes, a) && CodeFree(OwnCodes, b)
    ensures Escape(a) == Escape(b) ==> a == b
  {
    EscapeRoundTrip(OwnCodes, a);
    EscapeRoundTrip(OwnCodes, b);
  }

  predicate Escaped(s: string) {
    ' ' !in s && '\n' !in s
  }

  lemma {:induction false} EscapeIsEscaped(s: string)
    ensures Escaped(Escape(s))
  {
    if s != "" {
      EscapeIsEscaped(s[1..]);
    }
  }

  /** What is read of the two codes in an escaped text escapes to that text again. */
  lemma {:induction false} EscapeOfUnescape(x: string)
    requires Escaped(x)
    ensures Escape(Unescape(OwnCodes, x)) == x
    decreases |x|
  {
    if x != "" {
      var n := if StartsCode(OwnCodes, x) then 3 else 1;
      EscapeOfUnescape(x[n..]);
      var first := Unescape(OwnCodes, x)[0];
      assert Unescape(OwnCodes, x) == [first] + Unescape(OwnCodes, x[n..]);
      assert Unescape(OwnCodes, x)[1..] == Unescape(OwnCodes, x[n..]);
      assert EscapeChar(first) == x[..n];
      assert x[..n] + x[n..] == x;
    }
  }

  /** A text with one of the two codes in it is sent as a different one is, the one that will be read. */
  lemma CodesAreAmbiguous(s: string)
    ensures Escape(Unescape(OwnCodes, Escape(s))) == Escape(s)
    ensures Unescape(OwnCodes, Escape(s)) != s <==> !CodeFree(OwnCodes, s)
  {
    EscapeIsEscaped(s);
    EscapeOfUnescape(Escape(s));
    EscapeRoundTrip(OwnCodes, s);
  }

  lemma {:induction false} EscapeSnoc(s: string, c: char)
    ensures Escape(s + [c]) == Escape(s) + EscapeChar(c)
  {
    if s == "" {
      assert (s + [c])[1..] == "";
    } else {
      assert (s + [c])[1..] == s[1..] + [c];
      EscapeSnoc(s[1..], c);
    }
  }

  lemma {:induction false} EscapeAppend(a: string, b: string)
    ensures Escape(a + b) == Escape(a) + Escape(b)
  {
    if a == "" {
      assert a + b == b;
    } else {
      assert (a + b)[1..] == a[1..] + b;
      EscapeAppend(a[1..], b);
    }
  }

  method EscapeBatch(langData: string) returns (newData: string)
    ensures newData == Escape(langData)
  {
    newData := "";
    assert langData[..0] == "";
    for n := 0 to |langData|
      invariant newData == Escape(langData[..n])
    {
      var c := langData[n];
      EscapeSnoc(langData[..n], c);
      assert langData[..n + 1] == langData[..n] + [c];
      if c == ' ' {
        newData := newData + "%20";
      } else if c == '\n' {
        newData := newData + "%0a";
      } else {
        newData := newData + [c];
      }
    }
    assert langData[..|langData|] == langData;
  }

  // ---------- batches ----------

  function Item(texts: seq<string>, i: nat): string
    requires i < |texts| <= 10000
  {
    "\n" + Marker(i) + "\n" + texts[i]
  }

  /** The rendering of entries lo up to hi. */
  function Range(texts: seq<string>, lo: nat, hi: nat): string
    requires lo <= hi <= |texts| <= 10000
  {
    if lo == hi then "" else Range(texts, lo, hi - 1) + Item(texts, hi - 1)
  }

  lemma {:induction false} RangeJoins(texts: seq<string>, lo: nat, mid: nat, hi: nat)
    requires lo <= mid <= hi <= |texts| <= 10000
    ensures Range(texts, lo, mid) + Range(texts, mid, hi) == Range(texts, lo, hi)
    decreases hi - mid
  {
    if mid < hi {
      RangeJoins(texts, lo, mid, hi - 1);
      var a, b, c := Range(texts, lo, mid), Range(texts, mid, hi - 1), Item(texts, hi - 1);
      assert a + (b + c) == a + b + c;
    } else {
      assert Range(texts, lo, mid) + "" == Range(texts, lo, mid);
    }
  }

  lemma RangeStep(texts: seq<string>, lo: nat, i: nat)
    requires lo <= i < |texts| <= 10000
    ensures Range(texts, lo, i + 1) == Range(texts, lo, i) + Item(texts, i)
  {
  }

  lemma RangeOfOne(texts: seq<string>, lo: nat)
    requires lo < |texts| <= 10000
    ensures Range(texts, lo, lo + 1) == Item(texts, lo)
  {
    assert "" + Item(texts, lo) == Item(texts, lo);
  }

  lemma {:induction false} RestIsRange(texts: seq<string>, lo: nat)
    requires lo <= |texts| <= 10000
    ensures Rest(Printed(), texts, lo) == Range(texts, lo, |texts|)
    decreases |texts| - lo
  {
    if lo < |texts| {
      RestIsRange(texts, lo + 1);
      RangeOfOne(texts, lo);
      RangeJoins(texts, lo, lo + 1, |texts|);
    }
  }

  /** Entries lo up to hi, whole; the limit is passed, if at all, only by the last of them. */
  ghost predicate IsBatch(texts: seq<string>, lo: nat, hi: nat, batch: string)
    requires |texts| <= 10000
  {
    && lo < hi <= |texts|
    && batch == Range(texts, lo, hi)
    && |Range(texts, lo, hi - 1)| <= BATCH_LIMIT
    && (hi < |texts| ==> |batch| > BATCH_LIMIT)
  }

  /** The entries before done are in these batches, one after the other. */
  ghost predicate Batched(texts: seq<string>, batches: seq<string>, done: nat)
    requires |texts| <= 10000
    decreases |batches|
  {
    if batches == [] then done == 0
    else
      var n := |batches| - 1;
      exists lo: nat :: IsBatch(texts, lo, done, batches[n]) && Batched(texts, batches[..n], lo)
  }

  lemma BatchedExtends(texts: seq<string>, batches: seq<string>, done: nat, next: nat, batch: string)
    requires |texts| <= 10000 && Batched(texts, batches, done)
    requires IsBatch(texts, done, next, batch)
    ensures Batched(texts, batches + [batch], next)
  {
    assert (batches + [batch])[..|batches|] == batches;
  }

  lemma {:induction false} JoinSnoc(pieces: seq<string>, last: string)
    ensures Join(pieces + [last]) == Join(pieces) + last
    decreases |pieces|
  {
    if pieces == [] {
      assert [last][1..] == [];
    } else {
      assert (pieces + [last])[1..] == pieces[1..] + [last];
      JoinSnoc(pieces[1..], last);
    }
  }

  /** Conservation: end to end, the batches are the rendering of the entries, in order. */
  lemma {:induction false} BatchesJoin(texts: seq<string>, batches: seq<string>, done: nat)
    requires |texts| <= 10000 && done <= |texts| && Batched(texts, batches, done)
    ensures Join(batches) == Range(texts, 0, done)
    decreases |batches|
  {
    if batches != [] {
      var n := |batches| - 1;
      var lo: nat :| IsBatch(texts, lo, done, batches[n]) && Batched(texts, batches[..n], lo);
      BatchesJoin(texts, batches[..n], lo);
      JoinSnoc(batches[..n], batches[n]);
      assert batches == batches[..n] + [batches[n]];
      RangeJoins(texts, 0, lo, done);
    }
  }

  lemma {:induction false} BatchOf(texts: seq<string>, batches: seq<string>, done: nat, i: nat)
    returns (k: nat, lo: nat, hi: nat)
    requires |texts| <= 10000 && i < done <= |texts| && Batched(texts, batches, done)
    ensures k < |batches| && lo <= i < hi && IsBatch(texts, lo, hi, batches[k])
    decreases |batches|
  {
    var n := |batches| - 1;
    lo :| IsBatch(texts, lo, done, batches[n]) && Batched(texts, batches[..n], lo);
    if lo <= i {
      k, hi := n, done;
    } else {
      k, lo, hi := BatchOf(texts, batches[..n], lo, i);
    }
  }

  lemma EntryInSpan(texts: seq<string>, lo: nat, hi: nat, i: nat)
    requires lo <= i < hi <= |texts| <= 10000
    ensures Range(texts, lo, hi) == Range(texts, lo, i) + Item(texts, i) + Range(texts, i + 1, hi)
  {
    RangeJoins(texts, lo, i + 1, hi);
    RangeStep(texts, lo, i);
  }

  /**
   Every entry lies whole in one batch, which is at most the limit and one entry long: it is
   cut at the first entry that takes it past the limit, or at the end.
   */
  lemma EntryInOneBatch(texts: seq<string>, batches: seq<string>, i: nat)
    returns (k: nat, lo: nat, hi: nat)
    requires |texts| <= 10000 && i < |texts| && Batched(texts, batches, |texts|)
    ensures k < |batches| && lo <= i < hi <= |texts|
    ensures batches[k] == Range(texts, lo, i) + Item(texts, i) + Range(texts, i + 1, hi)
    ensures |batches[k]| <= 3000 + |Item(texts, hi - 1)|
    ensures |Range(texts, lo, hi - 1)| <= 3000 && (|batches[k]| <= 3000 ==> hi == |texts|)
  {
    k, lo, hi := BatchOf(texts, batches, |texts|, i);
    EntryInSpan(texts, lo, hi, i);
    RangeStep(texts, lo, hi - 1);
  }

  lemma AllSent(texts: seq<string>, batches: seq<string>)
    requires |texts| <= 10000 && Batched(texts, batches, |texts|)
    ensures Join(batches) == Entries(texts)
  {
    BatchesJoin(texts, batches, |texts|);
    RestIsRange(texts, 0);
  }

  // ---------- the sending loop ----------

  /** What has been sent is the escaped form of the batches. */
  ghost predicate SentAs(sent: seq<string>, batches: seq<string>) {
    |sent| == |batches| && forall k :: 0 <= k < |sent| ==> sent[k] == Escape(batches[k])
  }

  /** End to end, what was sent is the escaped form of the batches end to end. */
  lemma {:induction false} SentJoin(sent: seq<string>, batches: seq<string>)
    requires SentAs(sent, batches)
    ensures Join(sent) == Escape(Join(batches))
    decreases |sent|
  {
    if sent != [] {
      SentJoin(sent[1..], batches[1..]);
      EscapeAppend(batches[0], Join(batches[1..]));
    }
  }

  /** The two strcat calls that put entry i behind what has been collected since the last cut. */
  method AppendEntry(texts: seq<string>, i: nat, langData: string, ghost since: nat) returns (longer: string)
    requires since <= i < |texts| <= 10000 && langData == Range(texts, since, i)
    ensures longer == Range(texts, since, i + 1)
  {
    longer := langData + ("\n" + Marker(i) + "\n");
    longer := longer + texts[i];
    RangeStep(texts, since, i);
    assert longer == langData + Item(texts, i);
  }

  /** Sends what has been collected: entries since up to next. */
  method SendBatch(texts: seq<string>, langData: string, sent: seq<string>,
                   ghost batches: seq<string>, ghost since: nat, ghost next: nat)
    returns (sent': seq<string>, ghost batches': seq<string>)
    requires |texts| <= 10000 && Batched(texts, batches, since) && SentAs(sent, batches)
    requires IsBatch(texts, since, next, langData)
    ensures Batched(texts, batches', next) && SentAs(sent', batches')
  {
    var newData := EscapeBatch(langData);
    sent' := sent + [newData];
    batches' := batches + [langData];
    BatchedExtends(texts, batches, since, next, langData);
  }

  /** Where the loop cuts there is a batch. */
  lemma CutHere(texts: seq<string>, since: nat, i: nat, langData: string)
    requires since <= i < |texts| <= 10000 && langData == Range(texts, since, i + 1)
    requires |Range(texts, since, i)| <= BATCH_LIMIT && (|langData| > BATCH_LIMIT || i == |texts| - 1)
    ensures IsBatch(texts, since, i + 1, langData)
  {
  }

  lemma RangeOfNone(texts: seq<string>, i: nat)
    requires i <= |texts| <= 10000
    ensures Range(texts, i, i) == ""
  {
  }

  lemma NothingCollected(texts: seq<string>)
    requires |texts| <= 10000
    ensures Batched(texts, [], 0) && SentAs([], []) && Range(texts, 0, 0) == ""
  {
  }

  /** One turn: entry i joins what has been collected, and all of it goes out if that is past the limit or the last. */
  method AddEntry(texts: seq<string>, i: nat, langData: string, sent: seq<string>,
                  ghost batches: seq<string>, ghost since: nat)
    returns (langData': string, sent': seq<string>, ghost batches': seq<string>, ghost since': nat)
    requires since <= i < |texts| <= 10000 && Batched(texts, batches, since) && SentAs(sent, batches)
    requires langData == Range(texts, since, i) && |langData| <= BATCH_LIMIT
    ensures since' <= i + 1 && (i + 1 == |texts| ==> since' == i + 1)
    ensures Batched(texts, batches', since') && SentAs(sent', batches')
    ensures langData' == Range(texts, since', i + 1) && |langData'| <= BATCH_LIMIT
  {
    hide Batched, SentAs, Range, IsBatch;
    langData' := AppendEntry(texts, i, langData, since);
    sent', batches', since' := sent, batches, since;
    if |langData'| > BATCH_LIMIT || i == |texts| - 1 {
      CutHere(texts, since, i, langData');
      sent', batches' := SendBatch(texts, langData', sent, batches, since, i + 1);
      RangeOfNone(texts, i + 1);
      langData', since' := "", i + 1;
    }
  }

  /**
   The sending loop. What goes out, end to end, is the escaped form of the rendering of every
   entry in order, so nothing is left unsent or sent twice; and it is cut as Batched says,
   so EntryInOneBatch holds of the batches.
   */
  method SendBatches(texts: seq<string>) returns (sent: seq<string>, ghost batches: seq<string>)
    requires 0 < |texts| <= 10000
    ensures Join(sent) == Escape(Entries(texts))
    ensures SentAs(sent, batches) && Batched(texts, batches, |texts|)
  {
    hide Batched, SentAs, Escape, Entries, Join, Range;
    sent, batches := [], [];
    var langData := "";
    ghost var since: nat := 0;
    NothingCollected(texts);
    for i := 0 to |texts|
      invariant since <= i && (i == |texts| ==> since == i)
      invariant Batched(texts, batches, since) && SentAs(sent, batches)
      invariant langData == Range(texts, since, i) && |langData| <= BATCH_LIMIT
    {
      langData, sent, batches, since := AddEntry(texts, i, langData, sent, batches, since);
    }
    AllSent(texts, batches);
    SentJoin(sent, batches);
  }
}
