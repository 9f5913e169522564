/** Reserved address space of which a page-aligned beginning is committed. */
module LinearMemory {
  import opened ByteBlocks
  import opened ChunkSizes

  function RoundUp(x: nat, page: nat): nat
    requires page >= 1
  {
    (x + page - 1) / page * page
  }

  lemma RoundUpIs(x: nat, page: nat)
    requires page >= 1
    ensures RoundUp(x, page) % page == 0 && x <= RoundUp(x, page) < x + page
    ensures forall q: nat :: x <= q * page ==> RoundUp(x, page) <= q * page
  {
    var k := (x + page - 1) / page;
    assert (x + page - 1) == k * page + (x + page - 1) % page;
    Multiple(k, page);
    forall q: nat | x <= q * page ensures k * page <= q * page {
      MulMono(q + 1, if q < k then k else q + 1, page);
      assert (q + 1) * page == q * page + page;
    }
  }

  lemma Multiple(k: nat, page: nat)
    requires page >= 1
    ensures (k * page) % page == 0
  {
    var a := k * page;
    Quotient(a, page, k);
    assert a == (a / page) * page + a % page;
  }

  /** n bytes are whole pages. */
  predicate Paged(n: nat, page: nat)
    requires page >= 1
  {
    n == 0 || (n >= page && Paged(n - page, page))
  }

  lemma {:induction false} PagedIsMultiple(n: nat, page: nat)
    requires page >= 1
    ensures Paged(n, page) <==> n % page == 0
    ensures n % page == 0 ==> n == (n / page) * page
  {
    if n >= page {
      PagedIsMultiple(n - page, page);
      OnePageLess(n, page);
    } else {
      Quotient(n, page, 0);
    }
    assert n == (n / page) * page + n % page;
  }

  lemma OnePageLess(n: nat, page: nat)
    requires 1 <= page <= n
    ensures (n - page) % page == n % page
  {
    var q := (n - page) / page;
    assert n - page == q * page + (n - page) % page;
    assert (q + 1) * page == q * page + page;
    Quotient(n, page, q + 1);
    assert n == (n / page) * page + n % page;
  }

  lemma GrowthFits(x: nat, reserved: nat, page: nat)
    requires page >= 1 && Paged(reserved, page) && x <= reserved
    ensures Paged(RoundUp(x, page), page) && x <= RoundUp(x, page) <= reserved
  {
    RoundUpIs(x, page);
    PagedIsMultiple(reserved, page);
    PagedIsMultiple(RoundUp(x, page), page);
  }

  class MappedMemory {
    const page: nat
    const reserved: nat
    var buf: seq<Byte>

    ghost predicate Valid()
      reads this
    {
      page >= 1 && |buf| <= reserved && Paged(reserved, page) && Paged(|buf|, page)
    }

    /** Reserves room for max bytes; commits it all only if that was asked for. */
    constructor (page: nat, cap: nat, max: nat)
      requires page >= 1
      ensures Valid() && this.page == page && max <= reserved < max + page
      ensures |buf| == if cap < max then 0 else reserved
    {
      RoundUpIs(max, page);
      var res := RoundUp(max, page);
      PagedIsMultiple(res, page);
      this.page := page;
      reserved := res;
      buf := if cap < max then [] else Zeros(res);
    }

    /** Makes at least size bytes usable.  It fails exactly when they are not committed yet
        and either not reserved or not granted; the bytes committed before keep their
        values, and growth is geometric, in whole pages. */
    method Reallocate(size: nat, granted: bool) returns (ok: bool)
      requires Valid()
      modifies this
      ensures Valid()
      ensures ok <==> size <= |old(buf)| || (size <= reserved && granted)
      ensures |old(buf)| <= |buf| && buf == old(buf) + Zeros(|buf| - |old(buf)|)
      ensures ok ==> size <= |buf| <= reserved
      ensures size <= |old(buf)| ==> buf == old(buf)
      ensures |buf| != |old(buf)| ==> ok && |buf| >= Min(|old(buf)| + |old(buf)| / 8, reserved)
    {
      var com := |buf|;
      if com < size {
        if size > reserved {
          return false;
        }
        var grown := RoundUp(Min(Max(size, com + com / 8), reserved), page);
        GrowthFits(Min(Max(size, com + com / 8), reserved), reserved, page);
        if !granted {
          return false;
        }
        buf := buf + Zeros(grown - com);
      }
      return true;
    }
  }
}
