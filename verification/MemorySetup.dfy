/**
 Setting up transfer memory (hddsuperclone.c): the small buffers and the main buffer are
 placed, a second time with a driver installed if the first attempt fails. Installing a
 driver afresh sets up the memory once more before the first set-up has finished.
 */
module MemorySetup {
  import opened LittleEndian
  import opened Paging
  import opened Pagemap
  import opened Descriptors
  import opened LowBuffer
  import opened DmaState
  import opened Options
  import S = Sessions

  /** What the system answers to one attempt; buffer is the plain allocation outside direct mode. */
  datatype Replies = Replies(table: nat -> Allocation, commandList: nat -> Allocation, fis: nat -> Allocation,
    main: nat -> Allocation, buffer: bool)

  /** The answers to a whole set-up; padsOk tells of the scratchpad and the sense buffer. */
  datatype Script = Script(first: Replies, second: Replies, padsOk: bool)

  /** The kernel driver: loaded, taken note of as installed, and its memory mapped. */
  datatype Driver = Driver(present: bool, installed: bool, mapped: bool) {

    /** Pages in the descriptor table. */
    function TablePages(): nat {
      if installed && mapped then 4 else 1
    }

    /** A fresh installation: the driver is built and loaded, and its memory is mapped. */
    predicate Fresh(builds: bool, maps: bool) {
      !present && builds && maps
    }

    function AfterInstall(builds: bool, maps: bool): Driver {
      if present && mapped then Driver(true, true, true)
      else if !present && !builds then this
      else if maps then Driver(true, true, true)
      else Driver(true, false, false)
    }
  }

  /** The transfer mode: usb only enlarges the buffer; AHCI is a kind of direct mode. */
  datatype Transfer = Transfer(usb: bool, ahci: bool, direct: bool)

  // What the window's state machine calls these modes and ends.

  function KindFor(t: Transfer): S.Kind {
    if t.ahci then S.AhciTables else if t.direct then S.IdeTable else if t.usb then S.UsbBuffer else S.PlainBuffer
  }

  function OutcomeOf(ret: int, failed: bool): S.Outcome {
    if ret == 0 then S.Completed else if failed then S.Failed else S.Unseen
  }

  lemma KnownEnd(ret: int, failed: bool, failedBefore: bool, usedBefore: bool, t: Transfer)
    requires ret == 0 ==> !failed
    requires !t.direct ==> (failed <==> ret != 0)
    ensures var o := OutcomeOf(ret, failed);
            var m := S.MemoryAfter(S.Memory(None, failedBefore, usedBefore), KindFor(t), o);
            && S.Ending(o, KindFor(t)) == o
            && m.failed == failed && m.used == (usedBefore && failed)
  {
  }

  function MaxDma(pagesize: nat, driver: Driver, t: Transfer): (maxDma: nat)
    requires 512 <= pagesize <= 0x1000
    ensures pagesize <= maxDma <= MAX_BUFFER_SIZE && maxDma % pagesize == 0
  {
    InitialSizesFit(pagesize, driver.TablePages(), t.ahci);
    InitialMaxDma(pagesize, driver.TablePages(), t.ahci)
  }

  /** With a driver in place there are four pages of table, otherwise one; the transfer is as large as they allow. */
  lemma SizesByDriver(pagesize: nat, driver: Driver, t: Transfer)
    requires 512 <= pagesize <= 0x1000
    ensures var n := if driver.installed && driver.mapped then 4 else 1;
            && driver.TablePages() == n
            && MaxDma(pagesize, driver, t)
               == if t.ahci then (n * pagesize - 128) / 16 * pagesize else n * pagesize / 16 * pagesize
  {
  }

  /** The small buffers the mode needs find a place. */
  ghost predicate SmallWorks(r: Replies, pagesize: nat, driver: Driver, t: Transfer)
    requires 512 <= pagesize <= 0x1000
  {
    && (t.direct ==> SmallSearch(pagesize, driver.TablePages(), driver.mapped).Found(r.table))
    && (t.ahci ==>
          && SmallSearch(pagesize, 1, driver.mapped).Found(r.commandList)
          && SmallSearch(pagesize, 1, driver.mapped).Found(r.fis))
  }

  /** The main buffer finds a place, or outside direct mode is there at all. */
  ghost predicate MainWorks(r: Replies, pagesize: nat, size: nat, driver: Driver, t: Transfer)
    requires 512 <= pagesize <= 0x1000
  {
    if t.direct then MainSearch(pagesize, size, MaxDma(pagesize, driver, t), driver.mapped).Found(r.main)
    else driver.mapped || r.buffer
  }

  ghost predicate Works(r: Replies, pagesize: nat, size: nat, driver: Driver, t: Transfer)
    requires 512 <= pagesize <= 0x1000
  {
    SmallWorks(r, pagesize, driver, t) && MainWorks(r, pagesize, size, driver, t)
  }

  /** A buffer finds a place at once in driver memory, and elsewhere within its tries. */
  ghost predicate Placed(
    env: nat -> Allocation, mapped: bool, limit: nat, pages: nat, counted: nat, reopens: bool)
  {
    if mapped then ReadsLow(env(0), pages, counted) else LowWithin(env, limit, pages, counted, reopens)
  }

  /**
   What an attempt needs, by the page maps of the tries: 256 MiB of tries for a small
   buffer, 4 GiB for the main buffer, of which as many pages count as the table can describe.
   */
  lemma WorksByPages(r: Replies, pagesize: nat, size: nat, driver: Driver, t: Transfer)
    requires 512 <= pagesize <= 0x1000
    ensures var n := if driver.installed && driver.mapped then 4 else 1;
            var maxDma := MaxDma(pagesize, driver, t);
            var m, tries := driver.mapped, 0x1000_0000 / pagesize;
            && (Works(r, pagesize, size, driver, t) <==>
                && (t.direct ==> Placed(r.table, m, 0x1000_0000 / (pagesize * n), n, n, true))
                && (t.ahci ==> Placed(r.commandList, m, tries, 1, 1, true) && Placed(r.fis, m, tries, 1, 1, true))
                && (if t.direct then
                      Placed(r.main, m, 0x1_0000_0000 / maxDma, PageCount(size, pagesize), maxDma / pagesize, false)
                    else m || r.buffer))
  {
    hide LowWithin, ReadsLow, MaxDma;
    var n := driver.TablePages();
    var maxDma := MaxDma(pagesize, driver, t);
    SizesByDriver(pagesize, driver, t);
    SmallTries(pagesize, n, driver.mapped);
    SmallTries(pagesize, 1, driver.mapped);
    MainTries(pagesize, size, maxDma, driver.mapped);
    SmallSearch(pagesize, n, driver.mapped).FoundByPages(r.table);
    SmallSearch(pagesize, 1, driver.mapped).FoundByPages(r.commandList);
    SmallSearch(pagesize, 1, driver.mapped).FoundByPages(r.fis);
    MainSearch(pagesize, size, maxDma, driver.mapped).FoundByPages(r.main);
  }

  /** A whole set-up that starts with no chance of a fresh installation goes through. */
  ghost predicate Completes(script: Script, pagesize: nat, driver: Driver, t: Transfer)
    requires 512 <= pagesize <= 0x1000
    requires driver.present && driver.mapped
  {
    && (Works(script.first, pagesize, MAX_BUFFER_SIZE, driver, t) ||
        (t.direct && Works(script.second, pagesize, MAX_BUFFER_SIZE, driver.(installed := true), t)))
    && script.padsOk
  }

  /** Every page map asked for is read in full. */
  ghost predicate Whole(env: nat -> Allocation, pages: nat) {
    forall k: nat :: |env(k).pagemap| == 8 * pages
  }

  ghost predicate WholeMain(script: Script, pages: nat) {
    Whole(script.first.main, pages) && Whole(script.second.main, pages)
  }

  lemma SmallTries(pagesize: nat, pages: nat, mapped: bool)
    requires 512 <= pagesize <= 0x1000 && (pages == 1 || pages == 4)
    ensures SmallSearch(pagesize, pages, mapped).maxTries > 0
  {
    DivShift(0x1000_0000, pagesize * pages);
  }

  lemma MainTries(pagesize: nat, size: nat, maxDma: nat, mapped: bool)
    requires 0 < pagesize && 0 < maxDma <= MAX_BUFFER_SIZE
    ensures MainSearch(pagesize, size, maxDma, mapped).maxTries > 0
  {
    DivShift(TWO32, maxDma);
  }

  /** Where a buffer is: nowhere, in the n-th allocation made for it, or in the driver's memory. */
  datatype Place = Nowhere | Heap(n: nat) | DriverMemory

  /**
   How many allocations there have been, where the main buffer is now, and where the buffer
   was that the address array describes.
   */
  datatype Places = Places(allocations: nat, buffer: Place, described: Place) {

    ghost predicate Valid() {
      && (buffer.Heap? ==> buffer.n <= allocations)
      && (described.Heap? ==> described.n <= allocations)
    }

    /** Where the k-th allocation from here on puts the buffer. */
    function Next(k: nat, mapped: bool): Place {
      if mapped then DriverMemory else Heap(allocations + k + 1)
    }
  }

  /** The addresses of the small buffers. */
  datatype LowAddresses = LowAddresses(table: Word64, commandList: Word64, fis: Word64)

  class TransferMemory {
    const pagesize: nat
    // The mode flags.
    var transfer: Transfer
    // The graphical program, and not the scripting tool.
    const superclone: bool
    // buffer_physical_address_ccc
    const addresses: array<Word64>
    var driver: Driver
    var memoryFailed: bool
    var memoryUsed: bool
    var realBufferSize: nat
    var low: LowAddresses
    var state: DmaState
    ghost var places: Places

    /** A page size the program accepts, room for the address of every page, and AHCI only in direct mode. */
    ghost predicate Valid()
      reads this
    {
      && 512 <= pagesize <= 0x1000
      && addresses.Length == MAX_PAGES
      && MAX_USB_BUFFER_SIZE <= MAX_PAGES * pagesize
      && (transfer.ahci ==> transfer.direct)
      && (realBufferSize == MAX_BUFFER_SIZE || realBufferSize == MAX_USB_BUFFER_SIZE)
      && places.Valid()
    }

    constructor (pagesize: nat, transfer: Transfer, superclone: bool, driver: Driver)
      requires 512 <= pagesize <= 0x1000 && MAX_USB_BUFFER_SIZE <= MAX_PAGES * pagesize
      requires transfer.ahci ==> transfer.direct
      ensures Valid() && !memoryFailed && !memoryUsed && fresh(addresses)
      ensures this.pagesize == pagesize && this.transfer == transfer && this.superclone == superclone
      ensures this.driver == driver
    {
      this.pagesize, this.transfer, this.superclone, this.driver := pagesize, transfer, superclone, driver;
      memoryFailed, memoryUsed, realBufferSize := false, false, MAX_BUFFER_SIZE;
      low := LowAddresses(0, 0, 0);
      var pages := new Word64[MAX_PAGES](_ => 0);
      addresses := pages;
      state := new DmaState(pagesize, 8, pages);
      places := Places(0, Nowhere, Nowhere);
    }

    /** The state an attempt leaves: sizes for the driver at hand, over the program's address array. */
    ghost predicate Sized()
      requires Valid()
      reads this, state
    {
      && state.Valid() && state.pagesize == pagesize && state.physicalAddress == addresses
      && state.ahciMode == transfer.ahci && state.directMode == transfer.direct && state.usbMode == transfer.usb
      && state.driverMapped == driver.mapped && state.realBufferSize == realBufferSize
      && state.maxDmaSize == MaxDma(pagesize, driver, transfer)
      && state.table.Length == pagesize * driver.TablePages()
    }

    method PlaceSmall(pages: nat, env: nat -> Allocation, leftover: Word64) returns (ret: int, address: Word64)
      requires Valid() && (pages == 1 || pages == 4)
      ensures ret == 0 <==> SmallSearch(pagesize, pages, driver.mapped).Found(env)
      ensures ret == 0 && Whole(env, pages) ==> !Above4G(address)
    {
      var buffer := new LowBuffer(pagesize, pages, driver.mapped, leftover, 0);
      SmallTries(pagesize, pages, driver.mapped);
      ghost var attempts;
      ret, attempts := buffer.SetBuffer(env);
      address := buffer.physicalAddress;
    }

    /** Computes the sizes for the driver at hand. */
    method Size()
      requires Valid()
      modifies this`state
      ensures Valid() && fresh(state) && fresh(state.table) && Sized()
    {
      var multiplier := 1;
      if driver.installed && driver.mapped {
        multiplier := 4;
      }
      InitialSizesFit(pagesize, multiplier, transfer.ahci);
      PageCountMonotone(realBufferSize, MAX_PAGES * pagesize, pagesize);
      DivUnique(MAX_PAGES * pagesize, pagesize, MAX_PAGES, 0);
      var s := new DmaState(pagesize, pagesize * multiplier, addresses);
      s.maxDmaSize := pagesize * multiplier / 16 * pagesize;
      if transfer.ahci {
        s.maxDmaSize := (pagesize * multiplier - 128) / 16 * pagesize;
      }
      s.ahciMode, s.directMode, s.usbMode := transfer.ahci, transfer.direct, transfer.usb;
      s.driverMapped, s.realBufferSize := driver.mapped, realBufferSize;
      state := s;
    }

    /** The small buffers the mode needs, in order; the first that finds no place ends it. */
    method PlaceSmallBuffers(r: Replies) returns (ret: int)
      requires Valid()
      modifies this`low
      ensures ret == 0 <==> SmallWorks(r, pagesize, driver, transfer)
      ensures ret == 0 && transfer.direct && Whole(r.table, driver.TablePages()) ==> !Above4G(low.table)
      ensures ret == 0 && transfer.ahci && Whole(r.commandList, 1) ==> !Above4G(low.commandList)
      ensures ret == 0 && transfer.ahci && Whole(r.fis, 1) ==> !Above4G(low.fis)
    {
      ret := 0;
      var address;
      if transfer.direct {
        ret, address := PlaceSmall(driver.TablePages(), r.table, low.table);
        low := low.(table := address);
        if ret != 0 {
          return;
        }
      }
      if transfer.ahci {
        ret, address := PlaceSmall(1, r.commandList, low.commandList);
        low := low.(commandList := address);
        if ret != 0 {
          return;
        }
        ret, address := PlaceSmall(1, r.fis, low.fis);
        low := low.(fis := address);
      }
    }

    /** In direct mode the buffer is located; outside it a buffer is had, and the address array stays as it is. */
    method PlaceMainBuffer(r: Replies) returns (ret: int)
      requires Valid() && Sized()
      modifies addresses, this`places
      ensures Valid() && (ret == 0 <==> MainWorks(r, pagesize, realBufferSize, driver, transfer))
      ensures ret == 0 && transfer.direct && Whole(r.main, PageCount(realBufferSize, pagesize)) ==>
                state.Located() && places.described == places.buffer
      ensures !transfer.direct ==> StaysDescribed(old(places), addresses[..], old(addresses[..]), ret)
    {
      ghost var was := places;
      if transfer.direct {
        MainTries(pagesize, realBufferSize, state.maxDmaSize, driver.mapped);
        ghost var attempts, decoded;
        ret, attempts, decoded := state.GetBufferPhysicalMemoryLocations(r.main);
        places := Places(
          was.allocations + attempts,
          if driver.mapped || r.main(attempts - 1).allocOk then was.Next(attempts - 1, driver.mapped) else Nowhere,
          if decoded.Some? then was.Next(decoded.value, driver.mapped) else was.described);
      } else {
        ret := if driver.mapped || r.buffer then 0 else -1;
        places := Places(was.allocations + 1, if ret == 0 then was.Next(0, driver.mapped) else Nowhere, was.described);
      }
    }

    /** Outside direct mode the buffer moves, and the addresses are those of the buffer before. */
    ghost predicate StaysDescribed(was: Places, now: seq<Word64>, before: seq<Word64>, ret: int)
      reads this
    {
      && now == before && places.described == was.described
      && (ret == 0 ==> places.buffer == was.Next(0, driver.mapped))
    }

    /** One attempt at every buffer: it succeeds exactly when each one the mode needs finds a place. */
    method Attempt(r: Replies) returns (ret: int)
      requires Valid()
      modifies addresses, this`state, this`low, this`places
      ensures Valid() && fresh(state) && fresh(state.table) && Sized()
      ensures ret == 0 <==> Works(r, pagesize, realBufferSize, driver, transfer)
      ensures ret == 0 && transfer.direct && Whole(r.main, PageCount(realBufferSize, pagesize)) ==>
                state.Located() && places.described == places.buffer
      ensures !transfer.direct ==> StaysDescribed(old(places), addresses[..], old(addresses[..]), ret)
      ensures ret == 0 && transfer.direct && Whole(r.table, driver.TablePages()) ==> !Above4G(low.table)
      ensures ret == 0 && transfer.ahci && Whole(r.commandList, 1) ==> !Above4G(low.commandList)
      ensures ret == 0 && transfer.ahci && Whole(r.fis, 1) ==> !Above4G(low.fis)
    {
      hide SmallWorks, MainWorks, MaxDma;
      Size();
      ret := PlaceSmallBuffers(r);
      if ret == 0 {
        ret := PlaceMainBuffer(r);
      }
    }

    /**
     Sets up the memory. It succeeds exactly when the first attempt does, or in direct
     mode the second, for which a driver is installed if none was, and then the first
     sector of the main buffer is mapped for the controller. memoryFailed tells a failure
     unless a fresh installation, in the middle of the second attempt, completed a
     set-up of its own; these are the three ends the window's state machine knows. In
     direct mode the table leads to the present buffer.
     */
    method Initialize(outer: Script, inner: Script, builds: bool, maps: bool) returns (ret: int)
      requires Valid()
      modifies addresses, this`driver, this`memoryFailed, this`memoryUsed, this`realBufferSize
      modifies this`state, this`low, this`places
      ensures Valid()
      ensures var d := old(driver);
              var size := if transfer.usb && !d.mapped then MAX_USB_BUFFER_SIZE else MAX_BUFFER_SIZE;
              var first := Works(outer.first, pagesize, size, d, transfer);
              var installs := !first && transfer.direct && !d.installed;
              var nested := installs && d.Fresh(builds, maps) && superclone;
              && driver == (if installs then d.AfterInstall(builds, maps) else d)
              && realBufferSize == (if nested then MAX_BUFFER_SIZE else size)
              && (ret == 0 <==>
                  && (first || (transfer.direct && Works(outer.second, pagesize, realBufferSize, driver, transfer)))
                  && outer.padsOk)
              && (memoryFailed <==>
                  ret != 0 && !(nested && Completes(inner, pagesize, Driver(true, false, true), transfer)))
      ensures memoryUsed == (old(memoryUsed) && memoryFailed)
      ensures var o := OutcomeOf(ret, memoryFailed);
              var m := S.MemoryAfter(S.Memory(None, old(memoryFailed), old(memoryUsed)), KindFor(transfer), o);
              S.Ending(o, KindFor(transfer)) == o && m.failed == memoryFailed && m.used == memoryUsed
      ensures var d := old(driver);
              var size := if transfer.usb && !d.mapped then MAX_USB_BUFFER_SIZE else MAX_BUFFER_SIZE;
              !Works(outer.first, pagesize, size, d, transfer) && transfer.direct && !d.installed ==>
                && (driver.installed && driver.mapped <==>
                    (d.present && d.mapped) || ((d.present || builds) && maps))
                && (!d.present && !builds ==> driver == d)
      ensures old(driver.installed) || !transfer.direct ==> driver == old(driver)
      ensures ret == 0 ==> fresh(state) && fresh(state.table) && SizedFor512()
      ensures ret == 0 ==>
                var n := if driver.installed && driver.mapped then 4 else 1;
                && state.table.Length == n * pagesize
                && state.maxDmaSize
                   == if transfer.ahci then (n * pagesize - 128) / 16 * pagesize else n * pagesize / 16 * pagesize
      ensures ret == 0 && transfer.direct && WholeMain(outer, PageCount(realBufferSize, pagesize)) ==>
                Exact() && places.described == places.buffer
      ensures !transfer.direct ==> StaysDescribed(old(places), addresses[..], old(addresses[..]), ret)
      decreases if driver.present then 0 else 1, 2
    {
      hide Works, Completes, MaxDma, Exact, S.MemoryAfter, S.Ending;
      Begin();
      ret := PlaceBuffers(outer, inner, builds, maps);
      if ret == 0 {
        ret := Finish(outer.padsOk);
      }
      KnownEnd(ret, memoryFailed, old(memoryFailed), old(memoryUsed), transfer);
    }

    method Begin()
      requires Valid()
      modifies this`memoryFailed, this`realBufferSize
      ensures Valid() && memoryFailed
      ensures realBufferSize == if transfer.usb && !driver.mapped then MAX_USB_BUFFER_SIZE else MAX_BUFFER_SIZE
    {
      realBufferSize := MAX_BUFFER_SIZE;
      memoryFailed := true;
      if transfer.usb && !driver.mapped {
        realBufferSize := MAX_USB_BUFFER_SIZE;
      }
    }

    /** The state with its first sector mapped, for the sizes of the mode in force. */
    ghost predicate SizedFor512()
      reads this, state
    {
      && state.Valid() && state.pagesize == pagesize && state.mainBufferSize == 512
      && state.maxDmaSize % pagesize == 0
      && 512 <= pagesize <= 0x1000 && state.maxDmaSize == MaxDma(pagesize, driver, transfer)
      && state.table.Length == pagesize * driver.TablePages()
    }

    /** Maps the first sector; then only the scratchpad and the sense buffer can still fail. */
    method Finish(padsOk: bool) returns (ret: int)
      requires Valid() && Sized()
      modifies state.table, state`tableEntryCount, state`mainBufferSize, this`memoryFailed, this`memoryUsed
      ensures SizedFor512()
      ensures var n := if driver.installed && driver.mapped then 4 else 1;
              && state.table.Length == n * pagesize
              && state.maxDmaSize
                 == if transfer.ahci then (n * pagesize - 128) / 16 * pagesize else n * pagesize / 16 * pagesize
      ensures ret == 0 <==> padsOk
      ensures memoryFailed == (!padsOk && old(memoryFailed))
      ensures memoryUsed == (!padsOk && old(memoryUsed))
      ensures state.directMode && old(state.Located()) ==> Exact()
    {
      hide MaxDma;
      SizesByDriver(pagesize, driver, transfer);
      ghost var located := state.Located();
      ret := state.MapFirstSector();
      assert located ==> state.Located();
      if ret != 0 || !padsOk {
        return -1;
      }
      memoryUsed := false;
      memoryFailed := false;
    }

    /** The controller, walking the table, reaches exactly the pages the address array holds. */
    ghost predicate Exact()
      reads this, state, state.table, state.physicalAddress
    {
      && state.pagesize == pagesize > 0
      && state.Located()
      && (state.ahciMode ==>
            && AHCI_TABLE_OFFSET + 16 * state.tableEntryCount <= state.table.Length
            && state.Exact(AhciSegments(state.table[..], state.tableEntryCount)))
      && (!state.ahciMode ==>
            && IdeSegments(state.table[..], 0).Some?
            && state.Exact(IdeSegments(state.table[..], 0).value))
    }

    /** The loop of at most two attempts; outside direct mode there is nothing to gain from the second. */
    method PlaceBuffers(outer: Script, inner: Script, builds: bool, maps: bool) returns (ret: int)
      requires Valid()
      modifies addresses, this`driver, this`memoryFailed, this`memoryUsed, this`realBufferSize
      modifies this`state, this`low, this`places
      ensures Valid() && fresh(state) && fresh(state.table) && Sized()
      ensures var d, size := old(driver), old(realBufferSize);
              var first := Works(outer.first, pagesize, size, d, transfer);
              var installs := !first && transfer.direct && !d.installed;
              var nested := installs && d.Fresh(builds, maps) && superclone;
              && driver == (if installs then d.AfterInstall(builds, maps) else d)
              && realBufferSize == (if nested then MAX_BUFFER_SIZE else size)
              && (ret == 0 <==>
                  first || (transfer.direct && Works(outer.second, pagesize, realBufferSize, driver, transfer)))
              && (memoryFailed <==>
                  if nested then !Completes(inner, pagesize, Driver(true, false, true), transfer)
                  else old(memoryFailed))
              && (memoryUsed <==> old(memoryUsed) && (nested ==> memoryFailed))
      ensures ret == 0 && transfer.direct && WholeMain(outer, PageCount(realBufferSize, pagesize)) ==>
                state.Located() && places.described == places.buffer
      ensures !transfer.direct ==> StaysDescribed(old(places), addresses[..], old(addresses[..]), ret)
      decreases if driver.present then 0 else 1, 1
    {
      hide Works, Completes, MaxDma;
      ret := -1;
      var attempt := 0;
      while attempt < 2
        invariant Valid() && 0 <= attempt <= 1
        invariant driver == old(driver) && realBufferSize == old(realBufferSize)
        invariant memoryFailed == old(memoryFailed) && memoryUsed == old(memoryUsed)
        invariant attempt == 0 ==> places == old(places) && addresses[..] == old(addresses[..])
        invariant attempt == 1 ==>
                    transfer.direct && !Works(outer.first, pagesize, realBufferSize, driver, transfer)
      {
        attempt := attempt + 1;
        if attempt == 2 && !driver.installed {
          InstallDriver(inner, builds, maps);
        }
        ret := Attempt(if attempt == 1 then outer.first else outer.second);
        if ret != 0 && transfer.direct && attempt < 2 {
          continue;
        }
        return;
      }
    }

    /** Installing the driver; in the graphical program a fresh installation sets up the memory before it is noted. */
    method InstallDriver(inner: Script, builds: bool, maps: bool)
      requires Valid()
      modifies addresses, this`driver, this`memoryFailed, this`memoryUsed, this`realBufferSize
      modifies this`state, this`low, this`places
      ensures Valid()
      ensures driver == old(driver).AfterInstall(builds, maps)
      ensures var d := old(driver);
              (d.present && d.mapped) || ((d.present || builds) && maps) ==>
                driver.present && driver.installed && driver.mapped
      ensures var d := old(driver);
              !(d.present && d.mapped) && (d.present || builds) && !maps ==>
                driver.present && !driver.installed && !driver.mapped
      ensures !old(driver.present) && !builds ==> driver == old(driver)
      ensures var nested := old(driver).Fresh(builds, maps) && superclone;
              && realBufferSize == (if nested then MAX_BUFFER_SIZE else old(realBufferSize))
              && (memoryFailed <==>
                  if nested then !Completes(inner, pagesize, Driver(true, old(driver).installed, true), transfer)
                  else old(memoryFailed))
              && (memoryUsed <==> old(memoryUsed) && (nested ==> memoryFailed))
      decreases if driver.present then 0 else 1, 0
    {
      if driver.present && driver.mapped {
        driver := driver.(installed := true);
        return;
      }
      if driver.present {
        driver := driver.(installed := maps, mapped := maps);
        return;
      }
      if !builds {
        return;
      }
      driver := driver.(present := true, mapped := maps);
      if !maps {
        driver := driver.(installed := false);
        return;
      }
      if superclone {
        var ret := Initialize(inner, inner, builds, maps);
      }
      driver := driver.(installed := true);
    }

    /**
     What listing the destinations does to memory that a run has used: the mode flags are
     cleared, memory is set up, and the flags are put back. It works whenever a plain buffer
     can be had, and then clears memoryFailed; it leaves the addresses of the buffer before.
     So when a direct mode returns its table leads to the present buffer if and only if both
     are the driver's memory; and the sizes fit the IDE table but never the AHCI table.
     */
    method SetUpForDestination(r: Replies, padsOk: bool) returns (ret: int)
      requires Valid()
      modifies addresses, this`transfer, this`driver, this`memoryFailed, this`memoryUsed, this`realBufferSize
      modifies this`state, this`low, this`places
      ensures Valid() && transfer == old(transfer) && driver == old(driver)
      ensures ret == 0 <==> (driver.mapped || r.buffer) && padsOk
      ensures memoryFailed == (ret != 0) && memoryUsed == (old(memoryUsed) && ret != 0)
      ensures addresses[..] == old(addresses[..]) && places.described == old(places).described
      ensures ret == 0 && old(places).described == old(places).buffer != Nowhere ==>
                (places.described == places.buffer <==> driver.mapped && old(places).buffer == DriverMemory)
      ensures ret == 0 && pagesize % 16 == 0 ==> (state.TableFits() <==> !transfer.ahci)
    {
      hide Completes;
      var was := transfer;
      transfer := Transfer(false, false, false);
      ret := Initialize(Script(r, r, padsOk), Script(r, r, padsOk), false, false);
      transfer := was;
      if ret == 0 {
        PlainSizes(pagesize, driver);
        state.ahciMode, state.directMode, state.usbMode := was.ahci, was.direct, was.usb;
      }
    }
  }

  /** The largest transfer of a mode without tables, and the room an AHCI table would need for it. */
  lemma PlainSizes(pagesize: nat, driver: Driver)
    requires 512 <= pagesize <= 0x1000
    ensures var entries := MaxDma(pagesize, driver, Transfer(false, false, false)) / pagesize;
            && entries <= MAX_PAGES && 8 * entries <= pagesize * driver.TablePages()
            && (pagesize % 16 == 0 ==> AHCI_TABLE_OFFSET + 16 * entries > pagesize * driver.TablePages())
  {
    InitialSizesFit(pagesize, driver.TablePages(), false);
    var entries := pagesize * driver.TablePages() / 16;
    DivUnique(entries * pagesize, pagesize, entries, 0);
  }

  /** A search in driver memory ends at its first try. */
  lemma FoundAtOnce(search: Search, env: nat -> Allocation)
    requires search.mapped && search.maxTries > 0
    ensures search.Found(env) <==> search.Served(env(0))
  {
  }

  /**
   A set-up that fails unnoticed: nothing finds a place at first; the driver installed for
   the second attempt completes a set-up of its own in driver memory, which clears
   memoryFailed; then the second attempt cannot read the page map either.
   */
  method FailsUnnoticed() returns (memory: TransferMemory, ret: int)
    ensures memory.transfer == Transfer(false, false, true) && memory.superclone
    ensures ret != 0 && !memory.memoryFailed
  {
    memory := new TransferMemory(0x1000, Transfer(false, false, true), true, Driver(false, false, false));
    var refused := k => Allocation(true, false, false, []);
    var short := k => Allocation(true, true, true, []);
    var refuses := Replies(refused, refused, refused, refused, false);
    var serves := Replies(short, short, short, short, false);
    ghost var inside := Driver(true, false, true);
    SmallTries(0x1000, 1, true);
    MainTries(0x1000, MAX_BUFFER_SIZE, MaxDma(0x1000, inside, memory.transfer), true);
    assert !SmallSearch(0x1000, 1, false).Found(refused);
    assert !SmallSearch(0x1000, 4, true).Found(refused);
    FoundAtOnce(SmallSearch(0x1000, 1, true), short);
    FoundAtOnce(MainSearch(0x1000, MAX_BUFFER_SIZE, MaxDma(0x1000, inside, memory.transfer), true), short);
    ret := memory.Initialize(Script(refuses, refuses, true), Script(serves, serves, true), true, true);
  }
}
