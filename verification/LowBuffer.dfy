/**
 The three small buffers the controller itself reads: descriptor table, command list
 and received-FIS area. common.c sets each up with its own copy of the same two
 routines; LowBuffer is one such copy.
 */
module LowBuffer {
  import opened LittleEndian
  import opened Pagemap

  /**
   What the system answers to one try: whether the allocation, the open and the seek
   succeed, and the bytes that reading the page map yields.
   */
  datatype Allocation = Allocation(allocOk: bool, openOk: bool, seekOk: bool, pagemap: seq<Byte>)

  /** The page map is opened and found, and no counted page is above 4 GiB; a short read shows none. */
  ghost predicate ReadsLow(a: Allocation, pages: nat, counted: nat) {
    && a.openOk && a.seekOk
    && (|a.pagemap| == 8 * pages ==>
          forall i: nat :: i < pages && i < counted ==> AddressAt(a.pagemap, i) <= 0xffff_ffff)
  }

  /** The page map is read in full, and some counted page is above 4 GiB. */
  ghost predicate ReadsHigh(a: Allocation, pages: nat, counted: nat) {
    && a.openOk && a.seekOk && |a.pagemap| == 8 * pages
    && exists i: nat :: i < pages && i < counted && AddressAt(a.pagemap, i) > 0xffff_ffff
  }

  /** A try of the kind after which there is another: memory was had, and its page map reads high. */
  ghost predicate TriesOn(a: Allocation, pages: nat, counted: nat, reopens: bool) {
    a.allocOk && (ReadsHigh(a, pages, counted) || (reopens && !(a.openOk && a.seekOk)))
  }

  /** One of the first limit tries reads low, and after every one before it there is another. */
  ghost predicate LowWithin(env: nat -> Allocation, limit: nat, pages: nat, counted: nat, reopens: bool) {
    exists k: nat ::
      && k < limit && env(k).allocOk && ReadsLow(env(k), pages, counted)
      && forall j: nat :: j < k ==> TriesOn(env(j), pages, counted, reopens)
  }

  ghost predicate HighThroughout(env: nat -> Allocation, limit: nat, pages: nat, counted: nat, reopens: bool) {
    forall k: nat :: k < limit ==> TriesOn(env(k), pages, counted, reopens)
  }

  /**
   The search for a place in memory the controller can reach: how many pages are wanted
   and how many of them must lie below 4 GiB, whether they are driver memory, which is
   not allocated and cannot be moved, the number of tries, and whether a page map that
   cannot be opened is tried again.
   */
  datatype Search = Search(pages: nat, counted: nat, mapped: bool, maxTries: nat, reopens: bool) {

    predicate FullRead(a: Allocation) {
      |a.pagemap| == 8 * pages
    }

    /** The location check passes. A short read passes too: the code never looks at it. */
    predicate Accepts(a: Allocation) {
      a.openOk && a.seekOk && (FullRead(a) ==> OutOfRange(a.pagemap, 0, counted) == 0)
    }

    predicate Served(a: Allocation) {
      (mapped || a.allocOk) && Accepts(a)
    }

    predicate Retried(a: Allocation) {
      !mapped && a.allocOk && !Accepts(a) && (reopens || (a.openOk && a.seekOk))
    }

    /** Some try within the limit is served, and every one before it lets the search go on. */
    ghost predicate Found(env: nat -> Allocation) {
      exists k: nat :: k < maxTries && Served(env(k)) && forall j: nat :: j < k ==> Retried(env(j))
    }

    /** The check by the page map's words: what is served and what is tried again. */
    lemma ByPages(a: Allocation)
      ensures Served(a) <==> (mapped || a.allocOk) && ReadsLow(a, pages, counted)
      ensures Retried(a) <==>
              !mapped && TriesOn(a, pages, counted, reopens)
    {
      OutOfRangeZero(a.pagemap, 0, counted);
    }

    /** The search by the page maps: what is found, and that nothing ends it while all read high. */
    lemma FoundByPages(env: nat -> Allocation)
      ensures mapped && maxTries > 0 ==> (Found(env) <==> ReadsLow(env(0), pages, counted))
      ensures !mapped ==> (Found(env) <==> LowWithin(env, maxTries, pages, counted, reopens))
      ensures !mapped ==>
                (HighThroughout(env, maxTries, pages, counted, reopens) <==>
                 forall k: nat :: k < maxTries ==> Retried(env(k)))
    {
      forall k: nat {
        ByPages(env(k));
      }
    }
  }

  /** The search for one of the small buffers. */
  function SmallSearch(pagesize: nat, pages: nat, mapped: bool): Search
    requires pagesize > 0 && pages > 0
  {
    Search(pages, pages, mapped, 0x1000_0000 / (pagesize * pages), true)
  }

  class LowBuffer {
    const pagesize: nat
    // Pages in the buffer: 4 for a table in driver memory, 1 otherwise.
    const pages: nat
    // The buffer is driver memory, which is not allocated and cannot be moved.
    const driverMapped: bool
    // Doubles as the accumulator of the decoding loop; nothing ever clears it.
    var physicalAddress: Word64
    var returnValue: int

    constructor (pagesize: nat, pages: nat, driverMapped: bool, leftover: Word64, returnValue: int)
      ensures this.pagesize == pagesize && this.pages == pages && this.driverMapped == driverMapped
      ensures physicalAddress == leftover && this.returnValue == returnValue
    {
      this.pagesize, this.pages, this.driverMapped := pagesize, pages, driverMapped;
      physicalAddress, this.returnValue := leftover, returnValue;
    }

    function Place(): Search
      requires pagesize > 0 && pages > 0
    {
      SmallSearch(pagesize, pages, driverMapped)
    }

    /**
     Decodes the page map from the last word to the first. Whatever the accumulator held
     before, the address left in it is the first page's, and the result counts exactly
     the pages above 4 GiB.
     */
    method GetPhysicalMemoryLocation(a: Allocation) returns (ret: int)
      requires pagesize > 0 && pages > 0
      modifies this`physicalAddress
      ensures !a.openOk || !a.seekOk ==> ret == -1
      ensures a.openOk && a.seekOk && !Place().FullRead(a) ==> ret == 0
      ensures a.openOk && a.seekOk && Place().FullRead(a) ==> ret == OutOfRange(a.pagemap, 0, pages)
      ensures physicalAddress ==
              if a.openOk && a.seekOk && Place().FullRead(a) then AddressAt(a.pagemap, 0) else old(physicalAddress)
      ensures ret == 0 <==> Place().Accepts(a)
    {
      if !a.openOk {
        return -1;
      }
      if !a.seekOk {
        return -1;
      }
      var outOfRange := 0;
      var readSize := 8 * pages;
      if |a.pagemap| == readSize {
        while readSize > 0
          invariant 0 <= readSize <= 8 * pages && readSize % 8 == 0
          invariant outOfRange == OutOfRange(a.pagemap, readSize / 8, pages)
          invariant readSize < 8 * pages ==> physicalAddress == AddressAt(a.pagemap, readSize / 8)
        {
          physicalAddress := DecodeWord(physicalAddress, a.pagemap, readSize / 8 - 1);
          if physicalAddress > 0xffff_ffff {
            outOfRange := outOfRange + 1;
          }
          readSize := readSize - 8;
        }
      }
      return outOfRange;
    }

    /**
     Allocates and checks until a location passes: success exactly when the search finds
     a place within its tries, and then on a full read the address is below 4 GiB.
     */
    method SetBuffer(env: nat -> Allocation) returns (ret: int, ghost attempts: nat)
      requires pagesize > 0 && pages > 0
      modifies this`physicalAddress, this`returnValue
      ensures Place().maxTries == 0 ==> attempts == 0 && ret == old(returnValue)
      ensures Place().maxTries > 0 ==> 1 <= attempts <= Place().maxTries && (ret == 0 <==> Place().Found(env))
      ensures attempts > 0 ==> (ret == 0 <==> Place().Served(env(attempts - 1)))
      ensures forall k: nat :: k < attempts - 1 ==> Place().Retried(env(k))
      ensures ret == 0 && attempts > 0 && Place().FullRead(env(attempts - 1)) ==>
                physicalAddress == AddressAt(env(attempts - 1).pagemap, 0) && !Above4G(physicalAddress)
      ensures attempts <= 0x1000_0000 / (pagesize * pages)
      ensures var limit := 0x1000_0000 / (pagesize * pages);
              !driverMapped && limit > 0 ==>
                (ret == 0 <==> LowWithin(env, limit, pages, pages, true))
      ensures var limit := 0x1000_0000 / (pagesize * pages);
              !driverMapped && HighThroughout(env, limit, pages, pages, true) ==> attempts == limit
      ensures driverMapped && 0x1000_0000 / (pagesize * pages) > 0 ==>
                attempts == 1 && (ret == 0 <==> ReadsLow(env(0), pages, pages))
    {
      Place().FoundByPages(env);
      hide ReadsLow, LowWithin, HighThroughout;
      attempts := 0;
      var tries := 0;
      var maxTries := 0x1000_0000 / (pagesize * pages);
      while tries < maxTries
        invariant attempts == tries <= maxTries == Place().maxTries
        invariant driverMapped ==> tries == 0
        invariant tries == 0 ==> returnValue == old(returnValue)
        invariant tries > 0 ==> returnValue != 0
        invariant forall k: nat :: k < tries ==> Place().Retried(env(k))
      {
        var a := env(tries);
        attempts := tries + 1;
        if !driverMapped && !a.allocOk {
          return -1, attempts;
        }
        returnValue := GetPhysicalMemoryLocation(a);
        if returnValue == 0 {
          OutOfRangeZero(a.pagemap, 0, pages);
          break;
        }
        if driverMapped {
          return -1, attempts;
        }
        tries := tries + 1;
      }
      return returnValue, attempts;
    }
  }
}
