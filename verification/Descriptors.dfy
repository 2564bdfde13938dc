/**
 What a DMA controller reads out of the descriptor table that common.c builds.

 Two layouts are decoded here, from the hardware side:
 - AHCI, the physical region descriptor table at offset 80h of a command table
   (sections 4.2.3 and 4.2.3.3 of the AHCI 1.3.1 specification): 16-byte entries,
   a 64-bit base and a 22-bit byte count stored minus one;
 - bus-master IDE (section 1.2 of "Programming Interface for Bus Master IDE
   Controller", Revision 1.0): 8-byte entries, a 32-bit base, a 16-bit byte
   count in which 0 stands for 64 KiB, and an end-of-table bit.
 */
module Descriptors {
  import opened Options
  import opened LittleEndian
  import opened Paging

  /** One contiguous piece of physical memory. */
  datatype Segment = Segment(base: nat, length: nat)

  // ---------- AHCI ----------

  const AHCI_TABLE_OFFSET := 0x80

  function AhciEntryAt(table: seq<Byte>, i: nat): Segment
    requires AHCI_TABLE_OFFSET + 16 * i + 16 <= |table|
  {
    var e := table[AHCI_TABLE_OFFSET + 16 * i..][..16];
    Segment(Value(e[..4]) + TWO32 * Value(e[4..8]), Value(e[12..]) % 0x40_0000 + 1)
  }

  /** The bytes of one entry: base address, a zero upper half, a zero reserved word, count minus one. */
  function AhciEntry(base: nat, length: nat): (e: seq<Byte>)
    requires length > 0
    ensures |e| == 16
  {
    Bytes4(base) + [0, 0, 0, 0, 0, 0, 0, 0] + Bytes4(length - 1)
  }

  /** The adapter reads back what was stored: the low 32 bits of the address, and the length. */
  lemma AhciEntryDecodes(table: seq<Byte>, i: nat, base: nat, length: nat)
    requires AHCI_TABLE_OFFSET + 16 * i + 16 <= |table|
    requires 0 < length <= 0x40_0000
    requires table[AHCI_TABLE_OFFSET + 16 * i..][..16] == AhciEntry(base, length)
    ensures AhciEntryAt(table, i) == Segment(base % TWO32, length)
  {
    var e := AhciEntry(base, length);
    assert e[..4] == Bytes4(base) && e[4..8] == Bytes4(0) && e[12..] == Bytes4(length - 1);
    Bytes4RoundTrip(base);
    Bytes4RoundTrip(0);
    Bytes4RoundTrip(length - 1);
    SmallDiv(length - 1, 0x40_0000);
  }

  /** The list the host bus adapter walks: the first count entries. */
  function AhciSegments(table: seq<Byte>, count: nat): (segments: seq<Segment>)
    requires AHCI_TABLE_OFFSET + 16 * count <= |table|
    ensures |segments| == count
    ensures forall i :: 0 <= i < count ==> segments[i] == AhciEntryAt(table, i)
  {
    seq(count, i requires 0 <= i < count => AhciEntryAt(table, i))
  }

  // ---------- bus-master IDE ----------

  function IdeEntryAt(table: seq<Byte>, i: nat): Segment
    requires 8 * i + 8 <= |table|
  {
    var e := table[8 * i..][..8];
    var count := Value(e[4..6]);
    Segment(Value(e[..4]), if count == 0 then 0x1_0000 else count)
  }

  /** The bytes of one entry: base address, 16-bit count, a zero, and the mark byte. */
  function IdeEntry(base: nat, length: nat, mark: Byte): (e: seq<Byte>)
    ensures |e| == 8
  {
    Bytes4(base) + Bytes4(length)[..2] + [0, mark]
  }

  /** The engine reads back the low 32 bits of the address, and the length, 64 KiB included. */
  lemma IdeEntryDecodes(table: seq<Byte>, i: nat, base: nat, length: nat, mark: Byte)
    requires 8 * i + 8 <= |table|
    requires 0 < length <= 0x1_0000
    requires table[8 * i..][..8] == IdeEntry(base, length, mark)
    ensures IdeEntryAt(table, i) == Segment(base % TWO32, length)
    ensures IdeMarkedAt(table, i) <==> mark >= 0x80
  {
    var e := IdeEntry(base, length, mark);
    assert e[..4] == Bytes4(base) && e[4..6] == Bytes4(length)[..2];
    Bytes4RoundTrip(base);
    Value2(Bytes4(length)[..2]);
    assert table[8 * i + 7] == table[8 * i..][..8][7] == mark;
    if length < 0x1_0000 {
      SmallDiv(length / 256, 256);
    }
  }

  /** The end-of-table mark: the top bit of the last byte of an entry. */
  predicate IdeMarkedAt(table: seq<Byte>, i: nat)
    requires 8 * i + 8 <= |table|
  {
    table[8 * i + 7] >= 0x80
  }

  /**
   The list a bus-master engine walks from entry i on: up to and including the
   first marked entry, or None when it runs off the table without finding one.
   */
  function IdeSegments(table: seq<Byte>, i: nat): Option<seq<Segment>>
    decreases |table| - 8 * i
  {
    if 8 * i + 8 > |table| then None
    else if IdeMarkedAt(table, i) then Some([IdeEntryAt(table, i)])
    else match IdeSegments(table, i + 1)
         case None => None
         case Some(rest) => Some([IdeEntryAt(table, i)] + rest)
  }

  /** When the first mark is on entry last, the engine sees entries i..last. */
  lemma {:induction false} IdeSegmentsUpToMark(table: seq<Byte>, i: nat, last: nat, segments: seq<Segment>)
    requires i <= last && 8 * last + 8 <= |table|
    requires IdeMarkedAt(table, last)
    requires forall k :: i <= k < last ==> !IdeMarkedAt(table, k)
    requires |segments| == last + 1 - i
    requires forall k :: i <= k <= last ==> segments[k - i] == IdeEntryAt(table, k)
    ensures IdeSegments(table, i) == Some(segments)
    decreases last - i
  {
    if i == last {
      assert segments == [IdeEntryAt(table, i)];
    } else {
      IdeSegmentsUpToMark(table, i + 1, last, segments[1..]);
      assert segments == [IdeEntryAt(table, i)] + segments[1..];
    }
  }

  /** A table without a mark has no end: the engine never stops inside it. */
  lemma {:induction false} IdeSegmentsUnmarked(table: seq<Byte>, i: nat)
    requires forall k :: i <= k && 8 * k + 8 <= |table| ==> !IdeMarkedAt(table, k)
    ensures IdeSegments(table, i) == None
    decreases |table| - 8 * i
  {
    if 8 * i + 8 <= |table| {
      IdeSegmentsUnmarked(table, i + 1);
    }
  }

  // ---------- walking a segment list ----------

  /** The physical byte that the b-th transferred byte goes to. */
  function Walk(segments: seq<Segment>, b: nat): Option<nat> {
    if segments == [] then None
    else if b < segments[0].length then Some(segments[0].base + b)
    else Walk(segments[1..], b - segments[0].length)
  }

  function TotalLength(segments: seq<Segment>): nat {
    if segments == [] then 0 else segments[0].length + TotalLength(segments[1..])
  }

  /** segments describes the buffer of the given size whose pages lie at the addresses in pages. */
  ghost predicate Describes(segments: seq<Segment>, pages: seq<nat>, size: nat, pagesize: nat)
    requires pagesize > 0
  {
    && |segments| == PageCount(size, pagesize) <= |pages|
    && forall i :: 0 <= i < |segments| ==> segments[i] == Segment(pages[i], BytesInPage(size, pagesize, i))
  }

  /** Byte b of a size-byte buffer goes where the page list says, and nothing else goes anywhere. */
  ghost predicate TranslatesAt(segments: seq<Segment>, pages: seq<nat>, size: nat, pagesize: nat, b: nat)
    requires pagesize > 0
  {
    if b < size then
      b / pagesize < |pages| && Walk(segments, b) == Some(pages[b / pagesize] + b % pagesize)
    else
      Walk(segments, b) == None
  }

  /** The translation from buffer offsets to physical bytes that the page list stands for. */
  ghost predicate Refines(segments: seq<Segment>, pages: seq<nat>, size: nat, pagesize: nat)
    requires pagesize > 0
  {
    && TotalLength(segments) == size
    && forall b: nat :: TranslatesAt(segments, pages, size, pagesize, b)
  }

  /** Taking the first page off a buffer of more than one page leaves a described buffer. */
  lemma DescribesTail(segments: seq<Segment>, pages: seq<nat>, size: nat, pagesize: nat)
    requires 0 < pagesize < size
    requires Describes(segments, pages, size, pagesize)
    ensures segments != [] && pages != [] && segments[0] == Segment(pages[0], pagesize)
    ensures Describes(segments[1..], pages[1..], size - pagesize, pagesize)
  {
    PageCountStep(size, pagesize);
    var rest, tail := segments[1..], pages[1..];
    forall i | 0 <= i < |rest|
      ensures rest[i] == Segment(tail[i], BytesInPage(size - pagesize, pagesize, i))
    {
      assert rest[i] == segments[i + 1];
    }
  }

  lemma {:induction false} DescribesTotal(segments: seq<Segment>, pages: seq<nat>, size: nat, pagesize: nat)
    requires pagesize > 0
    requires Describes(segments, pages, size, pagesize)
    ensures TotalLength(segments) == size
    decreases size
  {
    if size > pagesize {
      DescribesTail(segments, pages, size, pagesize);
      DescribesTotal(segments[1..], pages[1..], size - pagesize, pagesize);
    } else {
      PageCountSmall(size, pagesize);
      assert size > 0 ==> segments[1..] == [];
    }
  }

  lemma {:induction false} DescribesTranslates(segments: seq<Segment>, pages: seq<nat>, size: nat, pagesize: nat,
                                               b: nat)
    requires pagesize > 0
    requires Describes(segments, pages, size, pagesize)
    ensures TranslatesAt(segments, pages, size, pagesize, b)
    decreases size
  {
    if size > pagesize {
      DescribesTail(segments, pages, size, pagesize);
      if b < pagesize {
        SmallDiv(b, pagesize);
      } else {
        DivShift(b, pagesize);
        DescribesTranslates(segments[1..], pages[1..], size - pagesize, pagesize, b - pagesize);
      }
    } else {
      PageCountSmall(size, pagesize);
      if size > 0 {
        assert segments[1..] == [];
        if b < size {
          SmallDiv(b, pagesize);
        }
      }
    }
  }

  /**
   The refinement: a segment list with one segment a page, the last one cut to the
   remainder, takes every offset of the buffer to the byte of the page it lies in,
   takes no offset beyond the buffer anywhere, and is exactly as long as the buffer.
   */
  lemma DescribesRefines(segments: seq<Segment>, pages: seq<nat>, size: nat, pagesize: nat)
    requires pagesize > 0
    requires Describes(segments, pages, size, pagesize)
    ensures Refines(segments, pages, size, pagesize)
  {
    DescribesTotal(segments, pages, size, pagesize);
    forall b: nat
      ensures TranslatesAt(segments, pages, size, pagesize, b)
    {
      DescribesTranslates(segments, pages, size, pagesize, b);
    }
  }

  // ---------- the tables the builder leaves ----------

  /** Every byte of an AHCI table for the first count pages of the buffer. */
  ghost predicate AhciTableFor(table: seq<Byte>, pages: seq<nat>, size: nat, pagesize: nat, count: nat)
    requires pagesize > 0
  {
    && count <= |pages|
    && AHCI_TABLE_OFFSET + 16 * count <= |table|
    && (forall i :: 0 <= i < count ==>
          table[AHCI_TABLE_OFFSET + 16 * i..][..16] == AhciEntry(pages[i], BytesInPage(size, pagesize, i)))
    && (forall k :: 0 <= k < |table| && !(AHCI_TABLE_OFFSET <= k < AHCI_TABLE_OFFSET + 16 * count) ==> table[k] == 0)
  }

  /** Every byte of a bus-master IDE table for the first count pages of the buffer. */
  ghost predicate IdeTableFor(table: seq<Byte>, pages: seq<nat>, size: nat, pagesize: nat, count: nat,
                              last: Byte, other: Byte)
    requires pagesize > 0
  {
    && count <= |pages|
    && 8 * count <= |table|
    && (forall i :: 0 <= i < count ==>
          table[8 * i..][..8] ==
          IdeEntry(pages[i], BytesInPage(size, pagesize, i),
                   if i == PageCount(size, pagesize) - 1 then last else other))
    && (forall k :: 8 * count <= k < |table| ==> table[k] == 0)
  }

  /** An entry outside the changed range still reads the same. */
  lemma SliceKept(before: seq<Byte>, after: seq<Byte>, lo: nat, len: nat)
    requires lo + len <= |before| == |after|
    requires forall k :: lo <= k < lo + len ==> after[k] == before[k]
    ensures after[lo..][..len] == before[lo..][..len]
  {
  }

  /** Writing entry i and nothing else extends the table by one page. */
  lemma AhciTableExtends(before: seq<Byte>, after: seq<Byte>, pages: seq<nat>, size: nat, pagesize: nat, i: nat)
    requires pagesize > 0 && i < |pages| && |after| == |before|
    requires AhciTableFor(before, pages, size, pagesize, i)
    requires AHCI_TABLE_OFFSET + 16 * i + 16 <= |after|
    requires after[AHCI_TABLE_OFFSET + 16 * i..][..16] == AhciEntry(pages[i], BytesInPage(size, pagesize, i))
    requires forall k :: 0 <= k < |after| && !(AHCI_TABLE_OFFSET + 16 * i <= k < AHCI_TABLE_OFFSET + 16 * i + 16) ==>
               after[k] == before[k]
    ensures AhciTableFor(after, pages, size, pagesize, i + 1)
  {
    forall j | 0 <= j < i
      ensures after[AHCI_TABLE_OFFSET + 16 * j..][..16] == before[AHCI_TABLE_OFFSET + 16 * j..][..16]
    {
      SliceKept(before, after, AHCI_TABLE_OFFSET + 16 * j, 16);
    }
  }

  lemma IdeTableExtends(before: seq<Byte>, after: seq<Byte>, pages: seq<nat>, size: nat, pagesize: nat, i: nat,
                        last: Byte, other: Byte)
    requires pagesize > 0 && i < |pages| && |after| == |before|
    requires IdeTableFor(before, pages, size, pagesize, i, last, other)
    requires 8 * i + 8 <= |after|
    requires after[8 * i..][..8] ==
             IdeEntry(pages[i], BytesInPage(size, pagesize, i),
                      if i == PageCount(size, pagesize) - 1 then last else other)
    requires forall k :: 0 <= k < |after| && !(8 * i <= k < 8 * i + 8) ==> after[k] == before[k]
    ensures IdeTableFor(after, pages, size, pagesize, i + 1, last, other)
  {
    forall j | 0 <= j < i
      ensures after[8 * j..][..8] == before[8 * j..][..8]
    {
      SliceKept(before, after, 8 * j, 8);
    }
  }

  /** The addresses as a 32-bit field holds them. */
  function Low32(pages: seq<nat>): (low: seq<nat>)
    ensures |low| == |pages|
    ensures forall i :: 0 <= i < |pages| ==> low[i] == pages[i] % TWO32
  {
    seq(|pages|, i requires 0 <= i < |pages| => pages[i] % TWO32)
  }

  /** The adapter reads such a table, when it is not cut short, as a description of the buffer. */
  lemma AhciTableDescribes(table: seq<Byte>, pages: seq<nat>, size: nat, pagesize: nat, count: nat)
    requires 0 < pagesize <= 0x1_0000
    requires AhciTableFor(table, pages, size, pagesize, count)
    requires count == PageCount(size, pagesize)
    ensures Describes(AhciSegments(table, count), Low32(pages), size, pagesize)
  {
    forall i | 0 <= i < count
      ensures AhciEntryAt(table, i) == Segment(pages[i] % TWO32, BytesInPage(size, pagesize, i))
    {
      BytesInPageBounds(size, pagesize, i);
      AhciEntryDecodes(table, i, pages[i], BytesInPage(size, pagesize, i));
    }
  }

  /** Whole pages for fewer entries than the buffer has pages fall short of the buffer. */
  lemma {:induction false} CutShort(segments: seq<Segment>, size: nat, pagesize: nat)
    requires pagesize > 0 && |segments| < PageCount(size, pagesize)
    requires forall i :: 0 <= i < |segments| ==> segments[i].length == pagesize
    ensures TotalLength(segments) < size
    decreases |segments|
  {
    if segments == [] {
      PageCountPositive(size, pagesize);
    } else {
      if size <= pagesize {
        PageCountSmall(size, pagesize);
      }
      PageCountStep(size, pagesize);
      CutShort(segments[1..], size - pagesize, pagesize);
    }
  }

  /** A table that is cut short does not translate the buffer. */
  lemma AhciTableCutShort(table: seq<Byte>, pages: seq<nat>, size: nat, pagesize: nat, count: nat)
    requires 0 < pagesize <= 0x1_0000
    requires AhciTableFor(table, pages, size, pagesize, count)
    requires count < PageCount(size, pagesize)
    ensures !Refines(AhciSegments(table, count), Low32(pages), size, pagesize)
  {
    forall i | 0 <= i < count
      ensures AhciEntryAt(table, i).length == pagesize
    {
      AhciEntryDecodes(table, i, pages[i], BytesInPage(size, pagesize, i));
    }
    CutShort(AhciSegments(table, count), size, pagesize);
  }

  lemma IdeTableDecodes(table: seq<Byte>, pages: seq<nat>, size: nat, pagesize: nat, count: nat,
                        last: Byte, other: Byte, i: nat)
    requires 0 < pagesize <= 0x1_0000
    requires count <= PageCount(size, pagesize) && i < count
    requires IdeTableFor(table, pages, size, pagesize, count, last, other)
    requires other < 0x80 <= last
    ensures IdeEntryAt(table, i) == Segment(pages[i] % TWO32, BytesInPage(size, pagesize, i))
    ensures IdeMarkedAt(table, i) <==> i == PageCount(size, pagesize) - 1
  {
    BytesInPageBounds(size, pagesize, i);
    IdeEntryDecodes(table, i, pages[i], BytesInPage(size, pagesize, i),
                    if i == PageCount(size, pagesize) - 1 then last else other);
  }

  /** The only mark in the whole table is on the last page's entry, if that page has one. */
  lemma IdeTableMarks(table: seq<Byte>, pages: seq<nat>, size: nat, pagesize: nat, count: nat, last: Byte, other: Byte)
    requires 0 < pagesize <= 0x1_0000
    requires count <= PageCount(size, pagesize)
    requires IdeTableFor(table, pages, size, pagesize, count, last, other)
    requires other < 0x80 <= last
    ensures forall k: nat :: 8 * k + 8 <= |table| ==>
              (IdeMarkedAt(table, k) <==> k < count && k == PageCount(size, pagesize) - 1)
  {
    forall k: nat | 8 * k + 8 <= |table|
      ensures IdeMarkedAt(table, k) <==> k < count && k == PageCount(size, pagesize) - 1
    {
      if k < count {
        IdeTableDecodes(table, pages, size, pagesize, count, last, other, k);
      }
    }
  }

  /**
   The engine's walk over such a table ends exactly when the buffer has a page and every
   page has an entry, and then it is a description of the buffer.
   */
  lemma IdeTableDescribes(table: seq<Byte>, pages: seq<nat>, size: nat, pagesize: nat, count: nat,
                          last: Byte, other: Byte)
    requires 0 < pagesize <= 0x1_0000
    requires count <= PageCount(size, pagesize)
    requires IdeTableFor(table, pages, size, pagesize, count, last, other)
    requires other < 0x80 <= last
    ensures IdeSegments(table, 0).Some? <==> 0 < PageCount(size, pagesize) == count
    ensures IdeSegments(table, 0).Some? ==> Describes(IdeSegments(table, 0).value, Low32(pages), size, pagesize)
    ensures forall k: nat :: 8 * k + 8 <= |table| ==>
              (IdeMarkedAt(table, k) <==> k < count && k == PageCount(size, pagesize) - 1)
  {
    IdeTableMarks(table, pages, size, pagesize, count, last, other);
    forall i | 0 <= i < count
      ensures IdeEntryAt(table, i) == Segment(pages[i] % TWO32, BytesInPage(size, pagesize, i))
    {
      IdeTableDecodes(table, pages, size, pagesize, count, last, other, i);
    }
    if 0 < PageCount(size, pagesize) == count {
      var segments := seq(count, i requires 0 <= i < count => Segment(Low32(pages)[i], BytesInPage(size, pagesize, i)));
      IdeSegmentsUpToMark(table, 0, count - 1, segments);
    } else {
      IdeSegmentsUnmarked(table, 0);
    }
  }

  // ---------- what the hardware asks of each segment ----------

  /** Below 4 GiB, on an even address, and inside one aligned 64 KiB block. */
  ghost predicate Transferable(s: Segment) {
    && s.base + s.length <= TWO32
    && s.base % 2 == 0
    && s.length > 0
    && s.base / 0x1_0000 == (s.base + s.length - 1) / 0x1_0000
  }

  /** A piece of one 4 KiB page that starts on the page below 4 GiB meets all of it. */
  lemma PageIsTransferable(s: Segment)
    requires s.base % 0x1000 == 0 && s.base < TWO32 && 0 < s.length <= 0x1000
    ensures Transferable(s)
  {
    var page := s.base / 0x1000;
    assert s.base == 0x1000 * page;
    assert s.base / 0x1_0000 == page / 16;
    assert (s.base + s.length - 1) / 0x1_0000 == page / 16;
  }
}
