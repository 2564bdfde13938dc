/**
 The 64-bit words of /proc/<pid>/pagemap as common.c decodes them: byte by byte from
 the top byte of a word down, by shift-and-add in a 64-bit accumulator, then a shift
 left by 12 that turns a page frame number into an address.
 */
module Pagemap {
  import opened LittleEndian
  import opened Paging

  const PAGE_SHIFT := 0x1000

  /** The lowest address the 32-bit descriptors cannot hold is 4 GiB. */
  predicate Above4G(address: nat) {
    address > 0xffff_ffff
  }

  /** One step of the decoding loop, in 64-bit arithmetic. */
  function ShiftAdd(acc: Word64, b: Byte): Word64 {
    (acc * 256 % TWO64 + b) % TWO64
  }

  /** The decoding loop over the bytes of s, from the last one down to the first. */
  function ShiftAddAll(acc: Word64, s: seq<Byte>): Word64 {
    if s == [] then acc else ShiftAdd(ShiftAddAll(acc, s[1..]), s[0])
  }

  function Shift12(acc: Word64): Word64 {
    acc * PAGE_SHIFT % TWO64
  }

  /** Multiplying and adding commute with dropping the bits above the top one. */
  lemma ModStep(a: nat, b: nat)
    ensures (a % TWO64 * 256 % TWO64 + b) % TWO64 == (a * 256 + b) % TWO64
  {
    var q, r := a / TWO64, a % TWO64;
    var q', r' := r * 256 / TWO64, r * 256 % TWO64;
    var q'', r'' := (r' + b) / TWO64, (r' + b) % TWO64;
    assert a * 256 + b == TWO64 * (256 * q + q' + q'') + r'';
    DivUnique(a * 256 + b, TWO64, 256 * q + q' + q'', r'');
  }

  lemma {:induction false} ShiftAddAllValue(acc: Word64, s: seq<Byte>)
    ensures ShiftAddAll(acc, s) == (acc * Power256(|s|) + Value(s)) % TWO64
  {
    if s == [] {
      SmallDiv(acc, TWO64);
    } else {
      var tail := s[1..];
      ShiftAddAllValue(acc, tail);
      var a := acc * Power256(|tail|) + Value(tail);
      ModStep(a, s[0]);
      assert acc * Power256(|s|) == acc * Power256(|tail|) * 256;
      assert a * 256 + s[0] == acc * Power256(|s|) + Value(s);
    }
  }

  /** Eight steps flush whatever the accumulator held before: only the word is left. */
  lemma EightStepsFlush(acc: Word64, s: seq<Byte>)
    requires |s| == 8
    ensures ShiftAddAll(acc, s) == Value(s) < TWO64
  {
    Power256Of8();
    ShiftAddAllValue(acc, s);
    ValueBound(s, TWO64);
    DivUnique(acc * TWO64 + Value(s), TWO64, acc, Value(s));
  }

  /** The address the code stores for one pagemap word. */
  function PageAddress(word: nat): (address: nat)
    ensures address < TWO64
  {
    word * PAGE_SHIFT % TWO64
  }

  /**
   The stored address is the low 52 bits of the word, times 4096: the flag bits from
   bit 52 up have no effect, and every address is aligned to 4 KiB.
   */
  lemma PageAddressDropsFlags(word: nat)
    ensures PageAddress(word) == word % 0x10_0000_0000_0000 * PAGE_SHIFT
    ensures PageAddress(word) % PAGE_SHIFT == 0
  {
    var q, frame := word / 0x10_0000_0000_0000, word % 0x10_0000_0000_0000;
    DivUnique(word * PAGE_SHIFT, TWO64, q, frame * PAGE_SHIFT);
    DivUnique(frame * PAGE_SHIFT, PAGE_SHIFT, frame, 0);
  }

  function WordAt(data: seq<Byte>, i: nat): nat
    requires 8 * i + 8 <= |data|
  {
    Value(data[8 * i..][..8])
  }

  function AddressAt(data: seq<Byte>, i: nat): nat
    requires 8 * i + 8 <= |data|
  {
    PageAddress(WordAt(data, i))
  }

  /** How many of the words from lo on, of those below limit, give an address above 4 GiB. */
  function OutOfRange(data: seq<Byte>, lo: nat, limit: nat): nat
    decreases |data| - 8 * lo
  {
    if 8 * lo + 8 > |data| then 0
    else (if lo < limit && Above4G(AddressAt(data, lo)) then 1 else 0) + OutOfRange(data, lo + 1, limit)
  }

  /** A zero count means every counted address fits in 32 bits, and conversely. */
  lemma {:induction false} OutOfRangeZero(data: seq<Byte>, lo: nat, limit: nat)
    ensures OutOfRange(data, lo, limit) == 0 <==>
            forall i :: lo <= i < limit && 8 * i + 8 <= |data| ==> !Above4G(AddressAt(data, i))
    decreases |data| - 8 * lo
  {
    if 8 * lo + 8 <= |data| {
      OutOfRangeZero(data, lo + 1, limit);
    }
  }

  ghost function HighPages(data: seq<Byte>, lo: nat, limit: nat): set<nat> {
    set i: nat | lo <= i < limit && 8 * i + 8 <= |data| && AddressAt(data, i) > 0xffff_ffff
  }

  /** The number is that of the counted pages above 4 GiB. */
  lemma {:induction false} OutOfRangeCounts(data: seq<Byte>, lo: nat, limit: nat)
    ensures OutOfRange(data, lo, limit) == |HighPages(data, lo, limit)|
    decreases |data| - 8 * lo
  {
    hide AddressAt;
    if 8 * lo + 8 <= |data| {
      OutOfRangeCounts(data, lo + 1, limit);
      var rest := HighPages(data, lo + 1, limit);
      assert HighPages(data, lo, limit) == if lo < limit && Above4G(AddressAt(data, lo)) then {lo} + rest else rest;
    }
  }

  /** The inner loop over one word, bytes high-index first, followed by the shift. */
  method DecodeWord(acc: Word64, data: seq<Byte>, i: nat) returns (address: Word64)
    requires 8 * i + 8 <= |data|
    ensures address == AddressAt(data, i)
  {
    var word := data[8 * i..][..8];
    address := acc;
    var k := 8 * i + 8;
    while k > 8 * i
      invariant 8 * i <= k <= 8 * i + 8
      invariant address == ShiftAddAll(acc, word[k - 8 * i..])
    {
      k := k - 1;
      assert word[k - 8 * i..] == [data[k]] + word[k + 1 - 8 * i..];
      address := ShiftAdd(address, data[k]);
    }
    assert word[0..] == word;
    EightStepsFlush(acc, word);
    address := Shift12(address);
  }
}
