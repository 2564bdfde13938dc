/** Page arithmetic: how many pages a buffer takes and how much of it lies in each. */
module Paging {

  function PageCount(size: nat, pagesize: nat): nat
    requires pagesize > 0
  {
    if size % pagesize > 0 then size / pagesize + 1 else size / pagesize
  }

  /** Bytes of a size-byte buffer that lie in page i: the last page gets the remainder. */
  function BytesInPage(size: nat, pagesize: nat, i: nat): nat
    requires pagesize > 0
  {
    if i == PageCount(size, pagesize) - 1 && size % pagesize != 0 then size % pagesize else pagesize
  }

  lemma MulSign(d: nat, k: int)
    requires d > 0
    ensures k >= 1 ==> d * k >= d
    ensures k <= -1 ==> d * k <= 0 - d
  {
    if k >= 1 {
      assert d * k == d * (k - 1) + d;
    }
    if k <= -1 {
      assert d * k == d * (k + 1) - d;
    }
  }

  lemma DivUnique(a: nat, d: nat, q: nat, r: nat)
    requires d > 0 && r < d && a == d * q + r
    ensures a / d == q && a % d == r
  {
    var k := a / d - q;
    assert a == d * (a / d) + a % d;
    assert d * k == d * (a / d) - d * q;
    MulSign(d, k);
  }

  lemma SmallDiv(a: nat, d: nat)
    requires a < d
    ensures a / d == 0 && a % d == a
  {
    DivUnique(a, d, 0, a);
  }

  /** Dropping one whole divisor drops one from the quotient and keeps the remainder. */
  lemma DivShift(a: nat, d: nat)
    requires 0 < d <= a
    ensures a / d == (a - d) / d + 1 && a % d == (a - d) % d
  {
    var q, r := (a - d) / d, (a - d) % d;
    assert a - d == d * q + r;
    assert d * (q + 1) == d * q + d;
    DivUnique(a, d, q + 1, r);
  }

  /** A buffer of at most one page is one page long, or none when it is empty. */
  lemma PageCountSmall(size: nat, pagesize: nat)
    requires 0 < pagesize && size <= pagesize
    ensures size == 0 ==> PageCount(size, pagesize) == 0
    ensures size > 0 ==> PageCount(size, pagesize) == 1 && BytesInPage(size, pagesize, 0) == size
  {
    if size == pagesize {
      DivUnique(size, pagesize, 1, 0);
    } else {
      SmallDiv(size, pagesize);
    }
  }

  lemma PageCountStep(size: nat, pagesize: nat)
    requires 0 < pagesize < size
    ensures PageCount(size - pagesize, pagesize) > 0
    ensures PageCount(size, pagesize) == 1 + PageCount(size - pagesize, pagesize)
    ensures forall i :: 0 < i < PageCount(size, pagesize) ==>
              BytesInPage(size, pagesize, i) == BytesInPage(size - pagesize, pagesize, i - 1)
    ensures BytesInPage(size, pagesize, 0) == pagesize
  {
    DivShift(size, pagesize);
    PageCountPositive(size - pagesize, pagesize);
    forall i | 0 < i < PageCount(size, pagesize)
      ensures BytesInPage(size, pagesize, i) == BytesInPage(size - pagesize, pagesize, i - 1)
    {
    }
  }

  lemma PageCountPositive(size: nat, pagesize: nat)
    requires pagesize > 0
    ensures PageCount(size, pagesize) == 0 <==> size == 0
  {
    assert size == pagesize * (size / pagesize) + size % pagesize;
    if size == 0 {
      SmallDiv(size, pagesize);
    }
  }

  /** Every page of the buffer holds at least one byte of it and at most a page. */
  lemma BytesInPageBounds(size: nat, pagesize: nat, i: nat)
    requires pagesize > 0 && i < PageCount(size, pagesize)
    ensures 0 < BytesInPage(size, pagesize, i) <= pagesize
  {
  }

  lemma PageCountMonotone(small: nat, large: nat, pagesize: nat)
    requires pagesize > 0 && small <= large
    ensures PageCount(small, pagesize) <= PageCount(large, pagesize)
    decreases large
  {
    if small <= pagesize {
      PageCountSmall(small, pagesize);
      PageCountPositive(large, pagesize);
    } else {
      PageCountStep(small, pagesize);
      PageCountStep(large, pagesize);
      PageCountMonotone(small - pagesize, large - pagesize, pagesize);
    }
  }

  /** A whole number of pages covers a buffer if and only if it is as large. */
  lemma CoveredExactly(size: nat, whole: nat, pagesize: nat)
    requires pagesize > 0
    ensures PageCount(size, pagesize) > 0 <==> size > 0
    ensures whole % pagesize == 0 ==> (PageCount(size, pagesize) <= whole / pagesize <==> size <= whole)
  {
    PageCountPositive(size, pagesize);
    if size <= whole {
      PageCountMonotone(size, whole, pagesize);
    } else if whole % pagesize == 0 {
      PageCountMonotone(whole + 1, size, pagesize);
      if pagesize == 1 {
        DivUnique(whole + 1, 1, whole + 1, 0);
        DivUnique(whole, 1, whole, 0);
      } else {
        DivUnique(whole + 1, pagesize, whole / pagesize, 1);
      }
    }
  }
}
