/** Bytes, and little-endian words as the host (an x86 machine) stores them. */
module LittleEndian {
  import opened Paging

  type Byte = b: int | 0 <= b < 256

  const TWO32: int := 0x1_0000_0000
  const TWO64: int := 0x1_0000_0000_0000_0000

  type Word64 = w: int | 0 <= w < 0x1_0000_0000_0000_0000

  /** The number whose little-endian digits are the bytes of s. */
  function Value(s: seq<Byte>): nat {
    if s == [] then 0 else s[0] + 256 * Value(s[1..])
  }

  /** The low 32 bits of v, least significant byte first. */
  function Bytes4(v: nat): (s: seq<Byte>)
    ensures |s| == 4
  {
    [v % 256, v / 256 % 256, v / 256 / 256 % 256, v / 256 / 256 / 256 % 256]
  }

  lemma Value2(s: seq<Byte>)
    requires |s| == 2
    ensures Value(s) == (s[0] as int) + 0x100 * (s[1] as int)
  {
    assert s[1..] == [s[1]] && s[1..][1..] == [];
    assert Value(s[1..]) == (s[1] as int) + 256 * Value(s[1..][1..]);
  }

  lemma Value4(s: seq<Byte>)
    requires |s| == 4
    ensures Value(s) == (s[0] as int) + 0x100 * (s[1] as int) + 0x1_0000 * (s[2] as int) + 0x100_0000 * (s[3] as int)
  {
    assert s[2..] == s[1..][1..];
    Value2(s[2..]);
    assert Value(s[1..]) == (s[1] as int) + 256 * Value(s[2..]);
  }

  /** Reading back a stored 32-bit word loses exactly the bits above the low 32. */
  lemma Bytes4RoundTrip(v: nat)
    ensures Value(Bytes4(v)) == v % TWO32
    ensures v < TWO32 ==> Value(Bytes4(v)) == v
  {
    var s := Bytes4(v);
    Value4(s);
    var q1 := v / 256;
    var q2 := q1 / 256;
    var q3 := q2 / 256;
    var q4 := q3 / 256;
    assert v == 256 * q1 + s[0] && q1 == 256 * q2 + s[1] && q2 == 256 * q3 + s[2] && q3 == 256 * q4 + s[3];
    assert v == TWO32 * q4 + Value(s);
    DivUnique(v, TWO32, q4, Value(s));
  }

  /** Eight bytes hold less than 2^64. */
  lemma {:induction false} ValueBound(s: seq<Byte>, bound: nat)
    requires bound == Power256(|s|)
    ensures Value(s) < bound
  {
    if s != [] {
      ValueBound(s[1..], Power256(|s| - 1));
    }
  }

  function Power256(n: nat): (p: nat)
    ensures p >= 1
  {
    if n == 0 then 1 else 256 * Power256(n - 1)
  }

  lemma Power256Of8()
    ensures Power256(8) == TWO64
  {
    assert Power256(4) == 256 * Power256(3) == 256 * (256 * Power256(2)) == TWO32;
    assert Power256(6) == 256 * (256 * Power256(4));
    assert Power256(8) == 256 * (256 * Power256(6));
  }
}
