/**
 The DMA side of common.c: finding the physical pages of the main transfer buffer and
 building the controller's descriptor table over them.
 */
module DmaState {
  import opened Options
  import opened LittleEndian
  import opened Paging
  import opened Pagemap
  import opened Descriptors
  import opened LowBuffer

  const MAX_BUFFER_SIZE := 4194304
  const MAX_USB_BUFFER_SIZE := 33546240
  const MAX_PAGES := 8192
  // superbyte_ccc[15] and superbyte_ccc[11], as hddsuperclone.c fills them in.
  const SUPERBYTE15: Byte := 0x80
  const SUPERBYTE11: Byte := 0x00

  /** memcpy: the bytes of src land at dst[n..], and nothing else changes. */
  method CopyBytes(dst: array<Byte>, n: nat, src: seq<Byte>)
    requires n + |src| <= dst.Length
    modifies dst
    ensures forall k :: n <= k < n + |src| ==> dst[k] == src[k - n]
    ensures forall k :: 0 <= k < dst.Length && !(n <= k < n + |src|) ==> dst[k] == old(dst[k])
  {
    for i := 0 to |src|
      invariant forall k :: n <= k < n + i ==> dst[k] == src[k - n]
      invariant forall k :: 0 <= k < dst.Length && !(n <= k < n + i) ==> dst[k] == old(dst[k])
    {
      dst[n + i] := src[i];
    }
  }

  /** memset to zero of the whole table. */
  method ClearBytes(dst: array<Byte>)
    modifies dst
    ensures forall k :: 0 <= k < dst.Length ==> dst[k] == 0
  {
    for i := 0 to dst.Length
      invariant forall k :: 0 <= k < i ==> dst[k] == 0
    {
      dst[i] := 0;
    }
  }

  /** Writes one AHCI entry at n, field by field. */
  method WriteAhciEntry(dst: array<Byte>, n: nat, address: nat, writeSize: nat)
    requires writeSize > 0 && n + 16 <= dst.Length
    modifies dst
    ensures dst[..][n..][..16] == AhciEntry(address, writeSize)
    ensures forall k :: 0 <= k < dst.Length && !(n <= k < n + 16) ==> dst[k] == old(dst[k])
  {
    CopyBytes(dst, n, Bytes4(address));
    CopyBytes(dst, n + 4, [0, 0, 0, 0, 0, 0, 0, 0]);
    CopyBytes(dst, n + 12, Bytes4(writeSize - 1));
    ghost var e := AhciEntry(address, writeSize);
    assert forall k :: n <= k < n + 16 ==> dst[k] == e[k - n];
  }

  /** Writes one bus-master IDE entry at n, field by field. */
  method WriteIdeEntry(dst: array<Byte>, n: nat, address: nat, writeSize: nat, mark: Byte)
    requires n + 8 <= dst.Length
    modifies dst
    ensures dst[..][n..][..8] == IdeEntry(address, writeSize, mark)
    ensures forall k :: 0 <= k < dst.Length && !(n <= k < n + 8) ==> dst[k] == old(dst[k])
  {
    CopyBytes(dst, n, Bytes4(address));
    CopyBytes(dst, n + 4, Bytes4(writeSize)[..2]);
    CopyBytes(dst, n + 6, [0, mark]);
    ghost var e := IdeEntry(address, writeSize, mark);
    assert forall k :: n <= k < n + 8 ==> dst[k] == e[k - n];
  }

  /** The search for the main buffer. */
  function MainSearch(pagesize: nat, realBufferSize: nat, maxDmaSize: nat, mapped: bool): Search
    requires pagesize > 0 && maxDmaSize > 0
  {
    Search(PageCount(realBufferSize, pagesize), maxDmaSize / pagesize, mapped, TWO32 / maxDmaSize, false)
  }

  class DmaState {
    const pagesize: nat
    var maxDmaSize: nat
    var realBufferSize: nat
    var mainBufferSize: nat
    var ahciMode: bool
    var directMode: bool
    var usbMode: bool
    var driverMapped: bool
    // buffer_physical_address_ccc: one address a page of the main buffer.
    const physicalAddress: array<Word64>
    // The descriptor table in memory; its length is table_size_ccc.
    const table: array<Byte>
    var tableEntryCount: nat

    /** The global arrays, a page size the program accepts, and sizes that fit the arrays. */
    ghost predicate Valid()
      reads this
    {
      && 0 < pagesize <= 0x1000
      && physicalAddress.Length == MAX_PAGES
      && PageCount(realBufferSize, pagesize) <= MAX_PAGES
      && table as object != physicalAddress as object
      && TableFits()
    }

    function MaxEntries(): nat
      requires pagesize > 0
      reads this
    {
      maxDmaSize / pagesize
    }

    /** The table has room for as many entries as the largest transfer needs. */
    ghost predicate TableFits()
      reads this
    {
      && pagesize > 0
      && MaxEntries() <= MAX_PAGES
      && (if ahciMode then AHCI_TABLE_OFFSET + 16 * MaxEntries() else 8 * MaxEntries()) <= table.Length
    }

    constructor (pagesize: nat, tableSize: nat, addresses: array<Word64>)
      requires 0 < pagesize <= 0x1000 && addresses.Length == MAX_PAGES
      ensures this.pagesize == pagesize && table.Length == tableSize
      ensures !ahciMode && !directMode && !usbMode && !driverMapped
      ensures maxDmaSize == pagesize && realBufferSize == mainBufferSize == 0
      ensures tableSize >= 8 ==> Valid()
      ensures fresh(table) && physicalAddress == addresses
    {
      this.pagesize := pagesize;
      maxDmaSize := pagesize;
      realBufferSize, mainBufferSize, tableEntryCount := 0, 0, 0;
      ahciMode, directMode, usbMode, driverMapped := false, false, false, false;
      physicalAddress := addresses;
      table := new Byte[tableSize](_ => 0);
      new;
      DivUnique(pagesize, pagesize, 1, 0);
      PageCountSmall(0, pagesize);
    }

    ghost function Pages(): (pages: seq<nat>)
      reads physicalAddress
      ensures |pages| == physicalAddress.Length
      ensures forall i :: 0 <= i < |pages| ==> pages[i] == physicalAddress[i]
    {
      physicalAddress[..]
    }

    /** Every address the builder will narrow to 32 bits fits them and is page aligned. */
    ghost predicate Located()
      requires pagesize > 0
      reads this, physicalAddress
    {
      forall i :: 0 <= i < MaxEntries() && i < PageCount(realBufferSize, pagesize) && i < physicalAddress.Length ==>
        !Above4G(physicalAddress[i]) && physicalAddress[i] % PAGE_SHIFT == 0
    }

    /** The search for the main buffer: only as many pages are checked as the table can describe. */
    function Place(): Search
      requires Valid() && maxDmaSize > 0
      reads this
    {
      MainSearch(pagesize, realBufferSize, maxDmaSize, driverMapped)
    }

    /** Decodes one page map into the address array, last page first. */
    method DecodePagemap(data: seq<Byte>) returns (outOfRange: nat)
      requires Valid()
      requires |data| == 8 * PageCount(realBufferSize, pagesize)
      modifies physicalAddress
      ensures outOfRange == OutOfRange(data, 0, MaxEntries())
      ensures forall i :: 0 <= i < |data| / 8 ==> physicalAddress[i] == AddressAt(data, i)
      ensures forall i :: |data| / 8 <= i < MAX_PAGES ==> physicalAddress[i] == old(physicalAddress[i])
    {
      outOfRange := 0;
      var count: int := |data| / 8 - 1;
      while count >= 0
        invariant -1 <= count < |data| / 8
        invariant outOfRange == OutOfRange(data, count + 1, MaxEntries())
        invariant forall i :: count < i < |data| / 8 ==> physicalAddress[i] == AddressAt(data, i)
        invariant forall i :: |data| / 8 <= i < MAX_PAGES ==> physicalAddress[i] == old(physicalAddress[i])
      {
        physicalAddress[count] := 0;
        physicalAddress[count] := DecodeWord(physicalAddress[count], data, count);
        if physicalAddress[count] > 0xffff_ffff && count < maxDmaSize / pagesize {
          outOfRange := outOfRange + 1;
        }
        count := count - 1;
      }
    }

    /** The search by the page maps of the buffer's tries. */
    lemma PlaceByPages(env: nat -> Allocation)
      requires Valid() && maxDmaSize > 0
      ensures Place().maxTries == 0x1_0000_0000 / maxDmaSize
      ensures var limit, pages := 0x1_0000_0000 / maxDmaSize, PageCount(realBufferSize, pagesize);
              !driverMapped ==>
                && (Place().Found(env) <==> LowWithin(env, limit, pages, maxDmaSize / pagesize, false))
                && (HighThroughout(env, limit, pages, maxDmaSize / pagesize, false) ==>
                      forall k: nat :: k < limit ==> Place().Retried(env(k)))
      ensures driverMapped && Place().maxTries > 0 ==>
                (Place().Found(env) <==> ReadsLow(env(0), PageCount(realBufferSize, pagesize), maxDmaSize / pagesize))
    {
      hide ReadsLow, LowWithin, HighThroughout;
      Place().FoundByPages(env);
    }

    /**
     One try: zero if the buffer is served, positive if another is to follow, and -1 if this
     one ends the search in failure. A page map read in full is decoded.
     */
    method TryBuffer(a: Allocation) returns (ret: int, ghost read: bool)
      requires Valid() && maxDmaSize > 0
      modifies physicalAddress
      ensures ret == 0 <==> Place().Served(a)
      ensures ret > 0 <==> Place().Retried(a)
      ensures ret == 0 && Place().FullRead(a) ==> read && Located()
      ensures read ==>
                && Place().FullRead(a)
                && forall i :: 0 <= i < PageCount(realBufferSize, pagesize) ==>
                     physicalAddress[i] == AddressAt(a.pagemap, i)
      ensures !read ==> physicalAddress[..] == old(physicalAddress[..])
    {
      read := false;
      if !driverMapped && !a.allocOk {
        return -1, read;
      }
      var outOfRange := 0;
      if !a.openOk {
        return -1, read;
      }
      if !a.seekOk {
        return -1, read;
      }
      if |a.pagemap| == 8 * PageCount(realBufferSize, pagesize) {
        outOfRange := DecodePagemap(a.pagemap);
        read := true;
        if outOfRange == 0 {
          LocatedAfter(a.pagemap);
        }
      }
      if outOfRange == 0 {
        return 0, read;
      }
      if driverMapped {
        return -1, read;
      }
      return outOfRange, read;
    }

    /**
     Allocates the main buffer until its pages pass the check: success exactly when the
     search finds a place within its tries. Success on a full read stores the address of
     every page and leaves the state Located. In any case the address array describes the
     buffer of one try, the last whose page map was read in full, or what it did before.
     */
    method GetBufferPhysicalMemoryLocations(env: nat -> Allocation)
      returns (ret: int, ghost attempts: nat, ghost decoded: Option<nat>)
      requires Valid() && maxDmaSize > 0
      modifies physicalAddress
      ensures Place().maxTries == 0 ==> attempts == 0 && ret == 0
      ensures Place().maxTries > 0 ==> 1 <= attempts <= Place().maxTries && (ret == 0 <==> Place().Found(env))
      ensures attempts > 0 ==> (ret == 0 <==> Place().Served(env(attempts - 1)))
      ensures forall k: nat :: k < attempts - 1 ==> Place().Retried(env(k))
      ensures ret == 0 && attempts > 0 && Place().FullRead(env(attempts - 1)) ==>
                Located() && decoded == Some(attempts - 1)
      ensures decoded.Some? ==>
                && decoded.value < attempts && Place().FullRead(env(decoded.value))
                && forall i :: 0 <= i < PageCount(realBufferSize, pagesize) ==>
                     physicalAddress[i] == AddressAt(env(decoded.value).pagemap, i)
      ensures decoded.None? ==> physicalAddress[..] == old(physicalAddress[..])
      ensures attempts <= 0x1_0000_0000 / maxDmaSize
      ensures var limit, pages := 0x1_0000_0000 / maxDmaSize, PageCount(realBufferSize, pagesize);
              !driverMapped && limit > 0 ==>
                (ret == 0 <==> LowWithin(env, limit, pages, maxDmaSize / pagesize, false))
      ensures var limit, pages := 0x1_0000_0000 / maxDmaSize, PageCount(realBufferSize, pagesize);
              !driverMapped && HighThroughout(env, limit, pages, maxDmaSize / pagesize, false) ==> attempts == limit
      ensures driverMapped && 0x1_0000_0000 / maxDmaSize > 0 ==>
                && attempts == 1
                && (ret == 0 <==> ReadsLow(env(0), PageCount(realBufferSize, pagesize), maxDmaSize / pagesize))
    {
      hide ReadsLow, LowWithin, HighThroughout;
      attempts, decoded := 0, None;
      var outOfRange := 0;
      var tries := 0;
      var maxTries := TWO32 / maxDmaSize;
      while tries < maxTries
        invariant attempts == tries <= maxTries == Place().maxTries
        invariant driverMapped ==> tries == 0
        invariant tries == 0 <==> outOfRange == 0
        invariant forall k: nat :: k < tries ==> Place().Retried(env(k))
        invariant decoded.Some? ==>
                    && decoded.value < tries && Place().FullRead(env(decoded.value))
                    && forall i :: 0 <= i < PageCount(realBufferSize, pagesize) ==>
                         physicalAddress[i] == AddressAt(env(decoded.value).pagemap, i)
        invariant decoded.None? ==> physicalAddress[..] == old(physicalAddress[..])
      {
        attempts := tries + 1;
        ghost var read;
        outOfRange, read := TryBuffer(env(tries));
        if read {
          decoded := Some(tries);
        }
        if outOfRange <= 0 {
          break;
        }
        tries := tries + 1;
      }
      PlaceByPages(env);
      return outOfRange, attempts, decoded;
    }

    /** The check bounds pages by the very quotient that bounds the builder's entries. */
    lemma LocatedAfter(data: seq<Byte>)
      requires Valid()
      requires |data| == 8 * PageCount(realBufferSize, pagesize)
      requires OutOfRange(data, 0, MaxEntries()) == 0
      requires forall i :: 0 <= i < |data| / 8 ==> physicalAddress[i] == AddressAt(data, i)
      ensures Located()
    {
      OutOfRangeZero(data, 0, MaxEntries());
      forall i | 0 <= i < MaxEntries() && i < PageCount(realBufferSize, pagesize) && i < physicalAddress.Length
        ensures !Above4G(physicalAddress[i]) && physicalAddress[i] % PAGE_SHIFT == 0
      {
        PageAddressDropsFlags(WordAt(data, i));
      }
    }

    /** Entries the builder writes. */
    function Entries(): nat
      requires pagesize > 0
      reads this
    {
      var pages := PageCount(mainBufferSize, pagesize);
      if pages <= MaxEntries() then pages else MaxEntries()
    }

    /**
     Fills the descriptor table for the first mainBufferSize bytes of the buffer. Its
     contract gives every byte of the table, in either layout, for any buffer size.
     */
    method CreateDmaTable()
      requires Valid()
      modifies table, this`tableEntryCount
      ensures tableEntryCount == if ahciMode then Entries() else old(tableEntryCount)
      ensures ahciMode ==> AhciTableFor(table[..], Pages(), mainBufferSize, pagesize, Entries())
      ensures !ahciMode ==>
                IdeTableFor(table[..], Pages(), mainBufferSize, pagesize, Entries(), SUPERBYTE15, SUPERBYTE11)
    {
      if ahciMode {
        CreateAhciTable();
      } else {
        CreateIdeTable();
      }
    }

    method CountPages() returns (pageCount: nat)
      requires pagesize > 0
      ensures pageCount == PageCount(mainBufferSize, pagesize)
    {
      pageCount := mainBufferSize / pagesize;
      if mainBufferSize % pagesize > 0 {
        pageCount := pageCount + 1;
      }
    }

    /** If it is the last page, the remainder of the buffer size, otherwise a whole page. */
    method WriteSize(i: nat, pageCount: nat) returns (writeSize: nat)
      requires pagesize > 0 && pageCount == PageCount(mainBufferSize, pagesize)
      ensures writeSize == BytesInPage(mainBufferSize, pagesize, i) > 0
    {
      if i == pageCount - 1 {
        if mainBufferSize % pagesize == 0 {
          writeSize := pagesize;
        } else {
          writeSize := mainBufferSize % pagesize;
        }
      } else {
        writeSize := pagesize;
      }
    }

    method CreateAhciTable()
      requires Valid() && ahciMode
      modifies table, this`tableEntryCount
      ensures tableEntryCount == Entries()
      ensures AhciTableFor(table[..], Pages(), mainBufferSize, pagesize, Entries())
    {
      var maxEntries := maxDmaSize / pagesize;
      ClearBytes(table);
      var pageCount := CountPages();
      tableEntryCount := pageCount;
      var i := 0;
      while i < pageCount
        invariant i <= Entries()
        invariant tableEntryCount == pageCount
        invariant AhciTableFor(table[..], Pages(), mainBufferSize, pagesize, i)
      {
        if i >= maxEntries {
          tableEntryCount := maxEntries;
          break;
        }
        var n := i * 16 + SUPERBYTE15;
        var writeSize := WriteSize(i, pageCount);
        ghost var before := table[..];
        WriteAhciEntry(table, n, physicalAddress[i], writeSize);
        AhciTableExtends(before, table[..], Pages(), mainBufferSize, pagesize, i);
        i := i + 1;
      }
    }

    method CreateIdeTable()
      requires Valid() && !ahciMode
      modifies table
      ensures IdeTableFor(table[..], Pages(), mainBufferSize, pagesize, Entries(), SUPERBYTE15, SUPERBYTE11)
    {
      var maxEntries := maxDmaSize / pagesize;
      ClearBytes(table);
      var pageCount := CountPages();
      var i := 0;
      while i < pageCount
        invariant i <= Entries()
        invariant IdeTableFor(table[..], Pages(), mainBufferSize, pagesize, i, SUPERBYTE15, SUPERBYTE11)
      {
        if i >= maxEntries {
          break;
        }
        var writeSize := WriteSize(i, pageCount);
        ghost var before := table[..];
        WriteIdeEntry(table, i * 8, physicalAddress[i], writeSize,
                      if i == pageCount - 1 then SUPERBYTE15 else SUPERBYTE11);
        IdeTableExtends(before, table[..], Pages(), mainBufferSize, pagesize, i, SUPERBYTE15, SUPERBYTE11);
        i := i + 1;
      }
    }

    /**
     Checks the requested buffer size and, in direct mode, builds the table. When it
     succeeds in AHCI mode the adapter, walking the counted entries, reaches for every
     byte of the buffer exactly the physical byte the page list gives, if and only if the
     table covers the buffer, as it does when the page size divides the largest transfer.
     In IDE mode the engine's walk ends at all exactly when the buffer is non-empty and no
     larger than the table covers, and then it reaches exactly those bytes.
     */
    method SetMainBuffer() returns (ret: int)
      requires Valid()
      modifies table, this`tableEntryCount
      ensures ret == 0 || ret == -1
      ensures ret == 0 <==>
              && mainBufferSize <= (if usbMode then MAX_USB_BUFFER_SIZE else MAX_BUFFER_SIZE)
              && mainBufferSize <= realBufferSize
              && (ahciMode ==> mainBufferSize <= maxDmaSize)
      ensures ret == -1 || !directMode ==> table[..] == old(table[..]) && tableEntryCount == old(tableEntryCount)
      ensures ret == 0 && ahciMode && maxDmaSize % pagesize == 0 ==> PageCount(mainBufferSize, pagesize) <= MaxEntries()
      ensures ret == 0 && directMode && ahciMode ==>
                && AHCI_TABLE_OFFSET + 16 * tableEntryCount <= table.Length
                && (Refines(AhciSegments(table[..], tableEntryCount), Low32(Pages()), mainBufferSize, pagesize) <==>
                    PageCount(mainBufferSize, pagesize) <= MaxEntries())
                && (Located() && PageCount(mainBufferSize, pagesize) <= MaxEntries() ==>
                    Exact(AhciSegments(table[..], tableEntryCount)))
      ensures ret == 0 && directMode && !ahciMode ==>
                (IdeSegments(table[..], 0).Some? <==> 0 < PageCount(mainBufferSize, pagesize) <= MaxEntries())
      ensures ret == 0 && directMode && !ahciMode && maxDmaSize % pagesize == 0 ==>
                (IdeSegments(table[..], 0).Some? <==> 0 < mainBufferSize <= maxDmaSize)
      ensures ret == 0 && directMode && !ahciMode && 0 < PageCount(mainBufferSize, pagesize) <= MaxEntries() ==>
                forall k: nat :: 8 * k + 8 <= table.Length ==>
                  (IdeMarkedAt(table[..], k) <==> k == PageCount(mainBufferSize, pagesize) - 1)
      ensures ret == 0 && directMode && !ahciMode && IdeSegments(table[..], 0).Some? ==>
                && Refines(IdeSegments(table[..], 0).value, Low32(Pages()), mainBufferSize, pagesize)
                && (Located() ==> Exact(IdeSegments(table[..], 0).value))
    {
      if usbMode {
        if mainBufferSize > MAX_USB_BUFFER_SIZE || mainBufferSize > realBufferSize {
          return -1;
        }
      } else if mainBufferSize > MAX_BUFFER_SIZE || mainBufferSize > realBufferSize {
        return -1;
      }
      if ahciMode && mainBufferSize > maxDmaSize {
        return -1;
      }
      if ahciMode {
        PageCountMonotone(mainBufferSize, maxDmaSize, pagesize);
      }
      if directMode {
        CreateDmaTable();
        PageCountMonotone(mainBufferSize, realBufferSize, pagesize);
        if ahciMode {
          AhciTableRefines();
        } else {
          IdeTableRefines();
          CoveredExactly(mainBufferSize, maxDmaSize, pagesize);
        }
      }
      return 0;
    }

    /**
     Nothing was lost in narrowing the addresses: the segments lead to the very pages of
     the buffer, and with 4 KiB pages each one is a transfer the controller can do, of
     an even number of bytes when the buffer's size is even.
     */
    ghost predicate Exact(segments: seq<Segment>)
      requires pagesize > 0
      reads this, physicalAddress
    {
      && Refines(segments, Pages(), mainBufferSize, pagesize)
      && (pagesize == PAGE_SHIFT ==> forall s :: s in segments ==> Transferable(s))
      && (pagesize == PAGE_SHIFT && mainBufferSize % 2 == 0 ==> forall s :: s in segments ==> s.length % 2 == 0)
    }

    lemma ExactWhenLocated(segments: seq<Segment>)
      requires Valid() && Located()
      requires PageCount(mainBufferSize, pagesize) <= MaxEntries()
      requires PageCount(mainBufferSize, pagesize) <= PageCount(realBufferSize, pagesize)
      requires Describes(segments, Low32(Pages()), mainBufferSize, pagesize)
      ensures Exact(segments)
    {
      forall i | 0 <= i < |segments|
        ensures segments[i] == Segment(Pages()[i], BytesInPage(mainBufferSize, pagesize, i))
        ensures pagesize == PAGE_SHIFT ==> Transferable(segments[i])
        ensures pagesize == PAGE_SHIFT && mainBufferSize % 2 == 0 ==> segments[i].length % 2 == 0
      {
        SmallDiv(physicalAddress[i], TWO32);
        BytesInPageBounds(mainBufferSize, pagesize, i);
        if pagesize == PAGE_SHIFT {
          PageIsTransferable(segments[i]);
        }
      }
      DescribesRefines(segments, Pages(), mainBufferSize, pagesize);
    }

    lemma AhciTableRefines()
      requires Valid() && ahciMode && tableEntryCount == Entries()
      requires PageCount(mainBufferSize, pagesize) <= PageCount(realBufferSize, pagesize)
      requires AhciTableFor(table[..], Pages(), mainBufferSize, pagesize, Entries())
      ensures Refines(AhciSegments(table[..], tableEntryCount), Low32(Pages()), mainBufferSize, pagesize) <==>
              PageCount(mainBufferSize, pagesize) <= MaxEntries()
      ensures Located() && PageCount(mainBufferSize, pagesize) <= MaxEntries() ==>
                Exact(AhciSegments(table[..], tableEntryCount))
    {
      if PageCount(mainBufferSize, pagesize) > MaxEntries() {
        AhciTableCutShort(table[..], Pages(), mainBufferSize, pagesize, tableEntryCount);
        return;
      }
      AhciTableDescribes(table[..], Pages(), mainBufferSize, pagesize, tableEntryCount);
      DescribesRefines(AhciSegments(table[..], tableEntryCount), Low32(Pages()), mainBufferSize, pagesize);
      if Located() {
        ExactWhenLocated(AhciSegments(table[..], tableEntryCount));
      }
    }

    lemma IdeTableRefines()
      requires Valid() && !ahciMode
      requires PageCount(mainBufferSize, pagesize) <= PageCount(realBufferSize, pagesize)
      requires IdeTableFor(table[..], Pages(), mainBufferSize, pagesize, Entries(), SUPERBYTE15, SUPERBYTE11)
      ensures IdeSegments(table[..], 0).Some? <==> 0 < PageCount(mainBufferSize, pagesize) <= MaxEntries()
      ensures 0 < PageCount(mainBufferSize, pagesize) <= MaxEntries() ==>
                forall k: nat :: 8 * k + 8 <= table.Length ==>
                  (IdeMarkedAt(table[..], k) <==> k == PageCount(mainBufferSize, pagesize) - 1)
      ensures IdeSegments(table[..], 0).Some? ==>
                && Refines(IdeSegments(table[..], 0).value, Low32(Pages()), mainBufferSize, pagesize)
                && (Located() ==> Exact(IdeSegments(table[..], 0).value))
    {
      IdeTableDescribes(table[..], Pages(), mainBufferSize, pagesize, Entries(), SUPERBYTE15, SUPERBYTE11);
      if IdeSegments(table[..], 0).Some? {
        var segments := IdeSegments(table[..], 0).value;
        DescribesRefines(segments, Low32(Pages()), mainBufferSize, pagesize);
        if Located() {
          ExactWhenLocated(segments);
        }
      }
    }

    /**
     The end of memory initialisation maps the buffer's first sector. From a located
     buffer the controller then reaches exactly the pages in the address array, and will
     for every later size SetMainBuffer accepts, since the state stays Located; whether
     they are the present buffer's is for the whole set-up to tell.
     */
    method MapFirstSector() returns (ret: int)
      requires Valid() && 512 <= pagesize <= maxDmaSize && 512 <= realBufferSize
      requires maxDmaSize % pagesize == 0
      modifies table, this`tableEntryCount, this`mainBufferSize
      ensures Valid() && ret == 0 && mainBufferSize == 512
      ensures directMode && Located() && ahciMode ==>
                && AHCI_TABLE_OFFSET + 16 * tableEntryCount <= table.Length
                && Exact(AhciSegments(table[..], tableEntryCount))
      ensures directMode && Located() && !ahciMode ==>
                IdeSegments(table[..], 0).Some? && Exact(IdeSegments(table[..], 0).value)
    {
      mainBufferSize := 512;
      PageCountSmall(512, pagesize);
      DivShift(maxDmaSize, pagesize);
      ret := SetMainBuffer();
    }
  }

  /**
   The sizes the program computes at start-up: in AHCI mode the 128 bytes of the command
   header come off the table first. With them the table always fits and the page size
   divides the largest transfer, which is what the builder relies on.
   */
  function InitialMaxDma(pagesize: nat, multiplier: nat, ahciMode: bool): int {
    if ahciMode then (pagesize * multiplier - 128) / 16 * pagesize else pagesize * multiplier / 16 * pagesize
  }

  lemma InitialSizesFit(pagesize: nat, multiplier: nat, ahciMode: bool)
    requires 144 <= pagesize <= 0x1000 && (multiplier == 1 || multiplier == 4)
    ensures var maxDma := InitialMaxDma(pagesize, multiplier, ahciMode);
            && pagesize <= maxDma <= MAX_BUFFER_SIZE
            && maxDma % pagesize == 0
            && maxDma / pagesize <= MAX_PAGES
            && (if ahciMode then AHCI_TABLE_OFFSET + 16 * (maxDma / pagesize) else 8 * (maxDma / pagesize))
               <= pagesize * multiplier
  {
    var entries := if ahciMode then (pagesize * multiplier - 128) / 16 else pagesize * multiplier / 16;
    DivUnique(entries * pagesize, pagesize, entries, 0);
    ProductBounds(entries, pagesize, 1024, 0x1000);
  }

  /** The largest transfer has as many pages as the table, after that header, has room for 16-byte entries. */
  lemma LargestTransfer(pagesize: nat, multiplier: nat, ahciMode: bool)
    requires 144 <= pagesize <= 0x1000 && (multiplier == 1 || multiplier == 4)
    ensures var room := pagesize * multiplier - if ahciMode then 128 else 0;
            var maxDma := InitialMaxDma(pagesize, multiplier, ahciMode);
            maxDma >= 0 && 16 * (maxDma / pagesize) <= room < 16 * (maxDma / pagesize + 1)
  {
    var entries := if ahciMode then (pagesize * multiplier - 128) / 16 else pagesize * multiplier / 16;
    DivUnique(entries * pagesize, pagesize, entries, 0);
  }

  lemma ProductBounds(a: nat, b: nat, c: nat, d: nat)
    requires 0 < a <= c && b <= d
    ensures b <= a * b <= c * d
  {
    assert a * b == b + (a - 1) * b;
    assert c * d == a * b + a * (d - b) + (c - a) * d;
  }

  /**
   In direct IDE mode, with the sizes the program starts with, a buffer of 2 MiB is accepted,
   and its table, which has no room for all of it, has no end mark.
   */
  method LargeIdeBuffer() returns (state: DmaState, ret: int)
    ensures fresh(state) && state.Valid() && state.directMode && !state.ahciMode
    ensures state.maxDmaSize == InitialMaxDma(0x1000, 1, false) && state.realBufferSize == MAX_BUFFER_SIZE
    ensures state.mainBufferSize == 2097152 && ret == 0 && IdeSegments(state.table[..], 0).None?
  {
    var addresses := new Word64[MAX_PAGES](_ => 0);
    state := new DmaState(0x1000, 0x1000, addresses);
    state.directMode := true;
    state.maxDmaSize, state.mainBufferSize, state.realBufferSize := 1048576, 2097152, MAX_BUFFER_SIZE;
    ret := state.SetMainBuffer();
  }
}
