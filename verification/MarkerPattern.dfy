/**
 What the marker pattern accepts, for every line: the scan of Text succeeds on exactly the
 lines that are written as the pattern says, with any white space where it has a blank.
 */
module MarkerPattern {
  import opened Options
  import opened Text

  /** Blank, horizontal and vertical tab, line feed, form feed, carriage return. */
  ghost predicate AllSpace(s: string) {
    forall k :: 0 <= k < |s| ==> s[k] as int in {0x20, 0x09, 0x0a, 0x0b, 0x0c, 0x0d}
  }

  ghost predicate AllDigits(s: string) {
    forall k :: 0 <= k < |s| ==> '0' <= s[k] <= '9'
  }

  /** A line as the pattern reads it: white space before each element, and what follows the number. */
  datatype Spelling = Spelling(a: string, b: string, c: string, d: string, sign: string, number: string, rest: string) {

    ghost predicate WellFormed() {
      && AllSpace(a) && AllSpace(b) && AllSpace(c) && AllSpace(d)
      && (sign == "" || sign == "+" || sign == "-")
      && number != "" && AllDigits(number)
      && (rest != "" ==> !('0' <= rest[0] <= '9'))
    }

    ghost function Line(): string {
      "|" + a + "_" + b + "_" + c + "|" + d + sign + number + rest
    }

    /** The number written, as an int receives it. */
    ghost function Number(): int
      requires AllDigits(number)
    {
      var v: int := DigitsValue(number, 0);
      NarrowToInt(if sign == "-" then -v else v)
    }
  }

  // ---------- the number ----------

  /** A digit written at the end makes the value ten times as large, plus itself. */
  lemma {:induction false} DigitsValueAtEnd(s: string, d: nat, acc: nat)
    requires AllDigits(s) && d < 10
    ensures AllDigits(s + ['0' + d as char])
    ensures DigitsValue(s + ['0' + d as char], acc) == 10 * DigitsValue(s, acc) + d
    decreases |s|
  {
    var t := s + ['0' + d as char];
    if s == "" {
      assert t[1..] == "";
      assert DigitsValue(t[1..], 10 * acc + d) == 10 * acc + d;
    } else {
      assert t[1..] == s[1..] + ['0' + d as char];
      DigitsValueAtEnd(s[1..], d, 10 * acc + DigitOf(s[0]));
    }
  }

  /**
   What an int receives: the number itself when it fits, the same number modulo 2^32 when
   it fits 64 bits, and beyond them -1 or 0, the low half of the largest or the smallest.
   */
  lemma NarrowExactly(v: int)
    ensures -0x8000_0000 <= NarrowToInt(v) < 0x8000_0000
    ensures -0x8000_0000 <= v < 0x8000_0000 ==> NarrowToInt(v) == v
    ensures -0x8000_0000_0000_0000 <= v < 0x8000_0000_0000_0000 ==> (NarrowToInt(v) - v) % 0x1_0000_0000 == 0
    ensures v >= 0x8000_0000_0000_0000 ==> NarrowToInt(v) == -1
    ensures v < -0x8000_0000_0000_0000 ==> NarrowToInt(v) == 0
  {
  }

  // ---------- what the scan accepts ----------

  lemma {:induction false} SkipSpaceAll(w: string, t: string)
    requires AllSpace(w) && (t != "" ==> !IsSpace(t[0]))
    ensures SkipSpace(w + t) == t
    decreases |w|
  {
    if w == "" {
      assert w + t == t;
    } else {
      assert (w + t)[1..] == w[1..] + t;
      SkipSpaceAll(w[1..], t);
    }
  }

  lemma SkipThenAll(w: string, c: char, t: string)
    requires AllSpace(w) && !IsSpace(c)
    ensures SkipThen(w + [c] + t, c) == Some(t)
  {
    assert w + [c] + t == w + ([c] + t);
    SkipSpaceAll(w, [c] + t);
    assert ([c] + t)[1..] == t;
  }

  lemma {:induction false} LeadingDigitsAll(w: string, t: string)
    requires AllDigits(w) && (t != "" ==> !IsDigit(t[0]))
    ensures LeadingDigits(w + t) == |w|
    decreases |w|
  {
    if w == "" {
      assert w + t == t;
    } else {
      assert (w + t)[1..] == w[1..] + t;
      LeadingDigitsAll(w[1..], t);
    }
  }

  lemma ScanNumberAll(m: Spelling)
    requires m.WellFormed()
    ensures ScanNumber(m.d + m.sign + m.number + m.rest) == Some(m.Number())
  {
    var digits := m.number + m.rest;
    assert digits[..|m.number|] == m.number;
    LeadingDigitsAll(m.number, m.rest);
    assert m.d + m.sign + m.number + m.rest == m.d + (m.sign + digits);
    if m.sign == "" {
      assert m.sign + digits == digits;
    } else {
      assert (m.sign + digits)[1..] == digits;
    }
    SkipSpaceAll(m.d, m.sign + digits);
  }

  lemma LineNested(m: Spelling)
    ensures m.Line() == "|" + (m.a + ['_'] + (m.b + ['_'] + (m.c + ['|'] + (m.d + m.sign + m.number + m.rest))))
  {
    var number := m.d + m.sign + m.number + m.rest;
    var t3 := m.c + ['|'] + number;
    var t2 := m.b + ['_'] + t3;
    assert "|" + m.a + "_" + t2 == "|" + (m.a + ['_'] + t2);
    assert "|" + m.a + "_" + m.b + "_" + t3 == "|" + m.a + "_" + t2;
    assert "|" + m.a + "_" + m.b + "_" + m.c + "|" + number == "|" + m.a + "_" + m.b + "_" + t3;
  }

  /** Every line of the pattern's form is a marker, whatever white space it has and whatever follows. */
  lemma MarkerAccepted(m: Spelling)
    requires m.WellFormed()
    ensures ScanMarker(m.Line()) == Some(m.Number())
  {
    var number := m.d + m.sign + m.number + m.rest;
    var t3 := m.c + ['|'] + number;
    var t2 := m.b + ['_'] + t3;
    var t1 := m.a + ['_'] + t2;
    LineNested(m);
    assert m.Line()[1..] == t1;
    SkipThenAll(m.a, '_', t2);
    SkipThenAll(m.b, '_', t3);
    SkipThenAll(m.c, '|', number);
    ScanNumberAll(m);
  }

  lemma {:induction false} SkippedSpace(s: string) returns (w: string)
    ensures s == w + SkipSpace(s) && AllSpace(w)
    ensures SkipSpace(s) != "" ==> !IsSpace(SkipSpace(s)[0])
    decreases |s|
  {
    if s != "" && IsSpace(s[0]) {
      w := SkippedSpace(s[1..]);
      w := [s[0]] + w;
    } else {
      w := "";
    }
  }

  lemma SkippedThen(s: string, c: char) returns (w: string)
    requires SkipThen(s, c).Some?
    ensures s == w + [c] + SkipThen(s, c).value && AllSpace(w)
  {
    w := SkippedSpace(s);
    assert SkipSpace(s) == [c] + SkipThen(s, c).value;
  }

  lemma {:induction false} LeadingDigitsEnd(s: string)
    ensures AllDigits(s[..LeadingDigits(s)])
    ensures LeadingDigits(s) < |s| ==> !IsDigit(s[LeadingDigits(s)])
    decreases |s|
  {
    if s != "" && IsDigit(s[0]) {
      LeadingDigitsEnd(s[1..]);
      assert s[..LeadingDigits(s)] == [s[0]] + s[1..][..LeadingDigits(s[1..])];
    }
  }

  lemma ScannedNumber(s: string) returns (d: string, sign: string, number: string, rest: string)
    requires ScanNumber(s).Some?
    ensures s == d + sign + number + rest
    ensures Spelling("", "", "", d, sign, number, rest).WellFormed()
  {
    d := SkippedSpace(s);
    var t := SkipSpace(s);
    var digits;
    sign, digits := SplitSign(t);
    LeadingDigitsEnd(digits);
    var n := LeadingDigits(digits);
    number, rest := digits[..n], digits[n..];
    assert s == d + sign + (number + rest);
  }

  lemma SplitSign(t: string) returns (sign: string, digits: string)
    ensures t == sign + digits
    ensures sign == (if t != "" && (t[0] == '-' || t[0] == '+') then [t[0]] else "")
    ensures digits == t[|sign|..]
  {
    sign := if t != "" && (t[0] == '-' || t[0] == '+') then [t[0]] else "";
    digits := t[|sign|..];
  }

  /** And no other line is. */
  lemma MarkerIsSpelled(line: string) returns (m: Spelling)
    requires ScanMarker(line).Some?
    ensures m.WellFormed() && m.Line() == line
  {
    hide SkipThen, ScanNumber;
    var a := SkippedThen(line[1..], '_');
    var s1 := SkipThen(line[1..], '_').value;
    var b := SkippedThen(s1, '_');
    var s2 := SkipThen(s1, '_').value;
    var c := SkippedThen(s2, '|');
    var d, sign, number, rest := ScannedNumber(SkipThen(s2, '|').value);
    m := Spelling(a, b, c, d, sign, number, rest);
    LineNested(m);
    assert line == "|" + line[1..];
  }

  /**
   The scan converts n exactly on the lines spelled this way with the number n: a bar at the
   very start, two underscores, a bar and a number, white space anywhere between them, and
   anything after the last digit.
   */
  lemma ScanMarkerExactly(line: string, n: int)
    ensures ScanMarker(line) == Some(n) <==>
            exists m: Spelling :: m.WellFormed() && m.Line() == line && m.Number() == n
  {
    if ScanMarker(line) == Some(n) {
      var m := MarkerIsSpelled(line);
    }
    forall m: Spelling | m.WellFormed() && m.Line() == line
      ensures ScanMarker(line) == Some(m.Number())
    {
      MarkerAccepted(m);
    }
  }
}
