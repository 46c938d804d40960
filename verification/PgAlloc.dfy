/** The page allocator of lib/pgalloc.c: a bitmap with a set bit for every free page. */
module PgAlloc {
  import opened Lists
  import opened Words
  import opened Arith
  import opened Bitmap
  import Ranges

  const PGSIZE: nat := 4096
  const LBM_HEADER: nat := 8   // sizeof(struct lbm)

  /** Whole pages needed for a number of bytes. */
  function PagesFor(bytes: nat, logPgsize: nat): nat {
    (bytes + Pow2(logPgsize) - 1) / Pow2(logPgsize)
  }

  /** Enough pages for the bytes, and no page too many. */
  lemma PagesExact(bytes: nat, logPgsize: nat)
    requires bytes > 0
    ensures var n, size := PagesFor(bytes, logPgsize), Pow2(logPgsize); (n - 1) * size < bytes <= n * size
  {
    hide Pow2;
    var size := Pow2(logPgsize);
    RoundUp(bytes, size);
    assert (PagesFor(bytes, logPgsize) - 1) * size == PagesFor(bytes, logPgsize) * size - size;
  }

  /** Pages handed out and not yet returned: first page of each block to its number of pages. */
  type Blocks = map<nat, nat>

  ghost predicate InBlock(b: nat, live: Blocks, j: int) {
    b in live && b <= j < b + live[b]
  }

  ghost predicate Live(live: Blocks, j: int) {
    exists b: nat :: InBlock(b, live, j)
  }

  /** Blocks are not empty, lie inside the managed pages and do not overlap. */
  ghost predicate Disjoint(live: Blocks, pages: nat) {
    && (forall b :: b in live ==> live[b] > 0 && b + live[b] <= pages)
    && (forall b: nat, c: nat, j :: InBlock(b, live, j) && InBlock(c, live, j) ==> b == c)
  }

  /** A page is free exactly when it is managed and in no live block. */
  ghost predicate FreeBits(words: seq<Word>, live: Blocks, pages: nat) {
    && pages <= Size(words)
    && forall j :: 0 <= j < Size(words) ==> (BitAt(words, j) <==> j < pages && !Live(live, j))
  }

  /** Adding a block makes exactly its own pages live as well. */
  lemma AddBlock(live: Blocks, at: nat, n: nat, more: Blocks)
    requires at !in live && more == live[at := n]
    ensures forall b: nat, j :: InBlock(b, more, j) <==> (b == at && at <= j < at + n) || InBlock(b, live, j)
    ensures forall j :: Live(more, j) <==> Live(live, j) || at <= j < at + n
  {
    forall b: nat, j
      ensures InBlock(b, more, j) <==> (b == at && at <= j < at + n) || InBlock(b, live, j)
    {
    }
    forall j
      ensures Live(more, j) <==> Live(live, j) || at <= j < at + n
    {
      if at <= j < at + n {
        assert InBlock(at, more, j);
      }
      if b: nat :| InBlock(b, live, j) {
        assert InBlock(b, more, j);
      }
    }
  }

  /** No other block reaches into a block. */
  lemma BlockApart(live: Blocks, pages: nat, at: nat, j: int)
    requires Disjoint(live, pages) && InBlock(at, live, j)
    ensures !Live(live - {at}, j)
  {
    forall b: nat
      ensures !InBlock(b, live - {at}, j)
    {
      assert InBlock(b, live - {at}, j) ==> InBlock(b, live, j) && b != at;
    }
  }

  /** Taking a free run adds a block disjoint from all others. */
  lemma TakeKeeps(before: seq<Word>, after: seq<Word>, live: Blocks, pages: nat, at: nat, n: nat)
    requires FreeBits(before, live, pages) && Disjoint(live, pages)
    requires n > 0 && AllBits(before, true, at, at + n) && Updated(before, after, at, n, false)
    ensures at !in live && at + n <= pages && (forall j :: at <= j < at + n ==> !Live(live, j))
    ensures FreeBits(after, live[at := n], pages) && Disjoint(live[at := n], pages)
  {
    var more := live[at := n];
    assert BitAt(before, at + n - 1) && BitAt(before, at);
    assert forall j :: at <= j < at + n ==> BitAt(before, j);
    assert at in live ==> InBlock(at, live, at);
    AddBlock(live, at, n, more);
    hide BitAt;
    assert forall b: nat, j :: InBlock(b, live, j) ==> Live(live, j);
    assert Disjoint(more, pages);
  }

  /** Returning a block frees exactly its own pages. */
  lemma ReturnKeeps(before: seq<Word>, after: seq<Word>, live: Blocks, pages: nat, at: nat)
    requires FreeBits(before, live, pages) && Disjoint(live, pages) && at in live
    requires Updated(before, after, at, live[at], true)
    ensures FreeBits(after, live - {at}, pages) && Disjoint(live - {at}, pages)
  {
    var less, n := live - {at}, live[at];
    assert less[at := n] == live;
    AddBlock(less, at, n, live);
    forall j | at <= j < at + n
      ensures !Live(less, j)
    {
      BlockApart(live, pages, at, j);
    }
    hide BitAt;
  }

  // ---------------------------------------------------------------------------------------------
  // Free pages plus live pages is constant

  ghost function FreeSet(words: seq<Word>): set<nat> {
    set j: nat | j < Size(words) && BitAt(words, j)
  }

  ghost function Range(lo: nat, hi: nat): (r: set<nat>)
    requires lo <= hi
    ensures |r| == hi - lo && forall j :: j in r <==> lo <= j < hi
    decreases hi
  {
    if lo == hi then {} else Range(lo, hi - 1) + {hi - 1}
  }

  ghost function LiveSet(live: Blocks, pages: nat): set<nat> {
    set j: nat | j < pages && Live(live, j)
  }

  ghost function Total(live: Blocks): nat
    decreases |live|
  {
    if live == map[] then 0
    else var b :| b in live; live[b] + Total(live - {b})
  }

  lemma {:induction false} LiveSize(live: Blocks, pages: nat)
    requires Disjoint(live, pages)
    ensures |LiveSet(live, pages)| == Total(live)
    decreases |live|
  {
    if live == map[] {
      assert LiveSet(live, pages) == {};
    } else {
      var b :| b in live && Total(live) == live[b] + Total(live - {b});
      var less, n := live - {b}, live[b];
      assert less[b := n] == live;
      AddBlock(less, b, n, live);
      assert Disjoint(less, pages);
      LiveSize(less, pages);
      forall j: nat | j in Range(b, b + n)
        ensures j !in LiveSet(less, pages)
      {
        BlockApart(live, pages, b, j);
      }
      assert LiveSet(live, pages) == LiveSet(less, pages) + Range(b, b + n);
    }
  }

  /** Every managed page is free or in exactly one live block. */
  lemma PagesConserved(words: seq<Word>, live: Blocks, pages: nat)
    requires FreeBits(words, live, pages) && Disjoint(live, pages)
    ensures |FreeSet(words)| + Total(live) == pages
  {
    hide BitAt, Live, Disjoint;
    LiveSize(live, pages);
    assert FreeSet(words) + LiveSet(live, pages) == Range(0, pages);
    assert FreeSet(words) !! LiveSet(live, pages);
  }

  // ---------------------------------------------------------------------------------------------
  // The allocator

  class PageAllocator {
    var base: nat
    var logPgsize: nat
    var lbm: Lbm
    ghost var pages: nat
    ghost var live: Blocks

    ghost predicate Valid()
      reads this, lbm, lbm.words
    {
      && lbm.Valid() && lbm.num == Size(lbm.words[..])
      && FreeBits(lbm.words[..], live, pages)
      && Disjoint(live, pages)
    }

    /** pgalloc_init: the pages from the first page boundary on, with the bitmap at `lbmAddr` or,
        for None, outside the range. */
    constructor (startAddr: nat, length: nat, logPgsize: nat, lbmAddr: Option<nat>)
      requires AlignUp(startAddr, Pow2(logPgsize), 0) - startAddr <= length && startAddr + length <= Ranges.WORD
      ensures Valid() && fresh(lbm) && fresh(lbm.words) && this.logPgsize == logPgsize
      ensures Manages(startAddr, length, Pow2(logPgsize), base, pages)
      ensures var used := TakenPages(AlignUp(startAddr, Pow2(logPgsize), 0), pages, Pow2(logPgsize), lbmAddr);
              live == if used > 0 then map[0 := used] else map[]
    {
      hide AlignUp, Pow2, Size, AllBits, FreeBits, Disjoint, PagesBelow, PageOf, RoundedBits, Manages;
      var size := Pow2(logPgsize);
      InitialRange(startAddr, length, size);
      var start := AlignUp(startAddr, size, 0);
      var n := PageOf(startAddr + length, start, size);
      var bits := RoundedBits(n);
      assert size > 0 && start <= Ranges.WORD;
      base := PageOf(start, 0, size);
      this.logPgsize := logPgsize;
      lbm := new Lbm(bits, true);
      pages := n;
      ghost var used := TakenPages(start, n, size, lbmAddr);
      live := if used > 0 then map[0 := used] else map[];
      new;
      WholeSize(lbm.words[..], bits);
      Reserve(n, PagesBelow(start, size, lbmAddr, bits));
    }

    /** The end of pgalloc_init: takes the first pages and the bits that stand for no page. */
    method Reserve(n: nat, taken: nat)
      requires lbm.Valid() && lbm.num == Size(lbm.words[..]) && AllBits(lbm.words[..], true, 0, Size(lbm.words[..]))
      requires n == pages <= lbm.num < n + BITS && lbm.num % BITS == 0
      requires var used := if taken < n then taken else n; live == if used > 0 then map[0 := used] else map[]
      modifies lbm.words
      ensures Valid()
    {
      hide Updated, AllBits, BitAt, FreeBits, Disjoint;
      ghost var w0 := lbm.words[..];
      lbm.SetBits(0, taken, false);
      ghost var w1 := lbm.words[..];
      lbm.SetBits(n, BITS - n % BITS, false);
      InitialBits(w0, w1, lbm.words[..], n, if taken < n then taken else n,
                  if taken < lbm.num then taken else lbm.num, live);
    }

    /** The search request of an allocation. */
    ghost function Wanted(bytes: nat, logAlign: nat): (q: Request)
      requires logAlign >= logPgsize
      reads this, lbm, lbm.words
      ensures q.align > 0
    {
      Request(lbm.words[..], true, PagesFor(bytes, logPgsize), Pow2(logAlign - logPgsize), base)
    }

    /** Hands out a block of pages that were all free, the lowest such run when the alignment and
        the base suit the search, and fails exactly when there is none. */
    method GetPagesAligned(bytes: nat, logAlign: nat) returns (r: Option<nat>, ghost at: nat)
      requires Valid() && logAlign >= logPgsize
      requires PagesFor(bytes, logPgsize) <= Size(lbm.words[..])
      requires !CanStray(Size(lbm.words[..]), PagesFor(bytes, logPgsize), Pow2(logAlign - logPgsize), base)
      modifies `live, lbm.words
      ensures Valid()
      ensures r.Some? ==> && r.value == PageAddr(at + base, logPgsize)
                          && Allocated(old(Wanted(bytes, logAlign)), old(live), at, live)
      ensures r.None? ==> live == old(live) && lbm.words[..] == old(lbm.words[..])
      ensures r.None? && bytes > 0 && WordAligned(Pow2(logAlign - logPgsize), base) ==>
                forall c: nat :: !Fit(old(Wanted(bytes, logAlign)), c)
    {
      hide RangeSearch, FreeBits, Disjoint, Updated, Pow2, Fit, WordAligned, PageAddr, Allocated, CanStray;
      var n := PagesFor(bytes, logPgsize);
      ghost var q := Wanted(bytes, logAlign);
      SearchOutcome(q, RangeSearch(q));
      PagesPositive(bytes, logPgsize);
      var loc := lbm.FindRange(true, n, logAlign - logPgsize, base);
      if loc.NotFound? {
        return None, 0;
      }
      at := loc.at;
      PageAddrPage(loc.at + base, logPgsize);
      var addr := PageAddr(loc.at + base, logPgsize);
      SetPageBits(addr, bytes, false, loc.at);
      TakeKeeps(q.words, lbm.words[..], live, pages, at, n);
      AllocatedBlock(q, live, at, live[at := n]);
      live := live[at := n];
      return Some(addr), at;
    }

    method GetPages(bytes: nat) returns (r: Option<nat>, ghost at: nat)
      requires Valid() && PagesFor(bytes, logPgsize) <= Size(lbm.words[..])
      modifies `live, lbm.words
      ensures Valid()
      ensures r.Some? ==> && r.value == PageAddr(at + base, logPgsize)
                          && Allocated(old(Wanted(bytes, logPgsize)), old(live), at, live)
      ensures r.None? ==> live == old(live) && lbm.words[..] == old(lbm.words[..])
      ensures r.None? && bytes > 0 ==> forall c: nat :: !Fit(old(Wanted(bytes, logPgsize)), c)
    {
      hide RangeSearch, FreeBits, Disjoint, PageAddr, Allocated;
      ghost var q := Wanted(bytes, logPgsize);
      PagesPositive(bytes, logPgsize);
      UnitAlignment(q);
      r, at := GetPagesAligned(bytes, logPgsize);
    }

    method FreePages(addr: nat, bytes: nat)
      requires Valid() && base <= addr / Pow2(logPgsize)
      requires var at := addr / Pow2(logPgsize) - base;
               at in live && live[at] == PagesFor(bytes, logPgsize)
      modifies `live, lbm.words
      ensures Valid() && live == old(live) - {addr / Pow2(logPgsize) - base}
    {
      ghost var before := lbm.words[..];
      ghost var at := addr / Pow2(logPgsize) - base;
      SetPageBits(addr, bytes, true, at);
      ReturnKeeps(before, lbm.words[..], live, pages, at);
      live := live - {at};
    }

    /** __locked_set_page_bits: the bits of the pages, recomputed from the address. */
    method SetPageBits(addr: nat, bytes: nat, val: bool, ghost at: nat)
      requires lbm.Valid() && addr / Pow2(logPgsize) == at + base
      requires at + PagesFor(bytes, logPgsize) <= lbm.num
      modifies lbm.words
      ensures Updated(old(lbm.words[..]), lbm.words[..], at, PagesFor(bytes, logPgsize), val)
    {
      lbm.SetBits(addr / Pow2(logPgsize) - base, PagesFor(bytes, logPgsize), val);
    }
  }

  lemma PagesPositive(bytes: nat, logPgsize: nat)
    ensures PagesFor(bytes, logPgsize) > 0 <==> bytes > 0
  {
  }

  function PageAddr(page: nat, logPgsize: nat): nat {
    page * Pow2(logPgsize)
  }

  lemma PageAddrPage(page: nat, logPgsize: nat)
    ensures PageAddr(page, logPgsize) / Pow2(logPgsize) == page
  {
    Multiple(page, Pow2(logPgsize));
  }

  /** The block at `at` is new, all its pages were free, and with a suitable alignment no lower run
      would have done. */
  ghost predicate Allocated(q: Request, live: Blocks, at: nat, live': Blocks)
    requires q.align > 0
  {
    && at !in live && live' == live[at := q.num]
    && Fit(q, at) && (forall j :: at <= j < at + q.num ==> !Live(live, j))
    && (WordAligned(q.align, q.base) ==> forall c :: 0 <= c < at ==> !Fit(q, c))
  }

  lemma AllocatedBlock(q: Request, live: Blocks, at: nat, live': Blocks)
    requires q.align > 0 && at !in live && live' == live[at := q.num]
    requires Fit(q, at) && forall j :: at <= j < at + q.num ==> !Live(live, j)
    requires WordAligned(q.align, q.base) ==> forall c :: 0 <= c < at ==> !Fit(q, c)
    ensures Allocated(q, live, at, live')
  {
  }

  lemma SearchOutcome(q: Request, loc: Outcome)
    requires q.align > 0 && q.num <= Size(q.words) && q.val && loc == RangeSearch(q)
    ensures loc.Found? ==> q.num > 0 && Fit(q, loc.at) && AllBits(q.words, true, loc.at, loc.at + q.num)
    ensures loc.Found? && WordAligned(q.align, q.base) ==> forall c :: 0 <= c < loc.at ==> !Fit(q, c)
    ensures loc.NotFound? && q.num > 0 && WordAligned(q.align, q.base) ==> forall c: nat :: !Fit(q, c)
  {
    hide FindFrom;
    RangeSearchIsFit(q);
    if q.num > 0 && WordAligned(q.align, q.base) {
      RangeSearchIsFirstFit(q);
    }
  }

  lemma UnitAlignment(q: Request)
    requires q.align == 1
    ensures WordAligned(q.align, q.base)
  {
  }

  /** The address behind a bitmap of that many bits, both ends on a hypervisor page boundary. */
  function BitmapEnd(lbmAddr: nat, bits: nat): nat {
    AlignUp(lbmAddr, PGSIZE, 0) + AlignUp(LBM_HEADER + bits / 8, PGSIZE, 0)
  }

  /** end - start, as words. */
  function Distance(start: nat, end: nat): (r: nat)
    requires start <= Ranges.WORD
  {
    if start <= end then end - start else end - start + Ranges.WORD
  }

  /** The bitmap has a whole number of words. */
  function RoundedBits(n: nat): nat {
    (n + BITS - 1) / BITS * BITS
  }

  /** The page of the range that a byte lies on. */
  function PageOf(a: nat, start: nat, size: nat): (r: nat)
    requires size > 0 && start <= a
  {
    (a - start) / size
  }

  /** The number of whole pages between the two. */
  function WholePages(start: nat, end: nat, size: nat): (r: nat)
    requires size > 0 && start <= Ranges.WORD
  {
    Distance(start, end) / size
  }

  /** The whole pages below the end of the bitmap, if it lies there. */
  function PagesBelow(start: nat, size: nat, lbmAddr: Option<nat>, bits: nat): nat
    requires size > 0 && start <= Ranges.WORD
  {
    if lbmAddr.None? then 0 else WholePages(start, BitmapEnd(lbmAddr.value, bits), size)
  }

  /** The pages taken for the bitmap. */
  function TakenPages(start: nat, n: nat, size: nat, lbmAddr: Option<nat>): (r: nat)
    requires size > 0 && start <= Ranges.WORD
    ensures r <= n
  {
    var taken := PagesBelow(start, size, lbmAddr, RoundedBits(n));
    if taken < n then taken else n
  }

  /** A managed byte below the end of the bitmap lies on a page that is taken. */
  ghost predicate Shielded(start: nat, n: nat, size: nat, end: nat, taken: nat)
    requires size > 0
  {
    forall a: nat :: start <= a < end && a < start + n * size ==> PageOf(a, start, size) < taken
  }

  /** No page that holds part of the bitmap is handed out exactly when the bitmap ends on a page
      boundary or the whole range is taken; with pages no larger than the hypervisor's it does. */
  lemma BitmapShielded(start: nat, n: nat, size: nat, lbmAddr: nat)
    requires size > 0 && start % size == 0 && start <= Ranges.WORD
    requires start <= BitmapEnd(lbmAddr, RoundedBits(n))
    ensures var end, taken := BitmapEnd(lbmAddr, RoundedBits(n)), TakenPages(start, n, size, Some(lbmAddr));
            Shielded(start, n, size, end, taken) <==> end % size == 0 || taken == n
    ensures PGSIZE % size == 0 ==> BitmapEnd(lbmAddr, RoundedBits(n)) % size == 0
    ensures AlignUp(lbmAddr, PGSIZE, 0) + LBM_HEADER + RoundedBits(n) / 8 <= BitmapEnd(lbmAddr, RoundedBits(n))
    ensures BitmapEnd(lbmAddr, RoundedBits(n)) < lbmAddr + LBM_HEADER + RoundedBits(n) / 8 + 2 * PGSIZE
    ensures n <= RoundedBits(n) < n + BITS
  {
    AlignUpNear(lbmAddr, PGSIZE, 0);
    AlignUpNear(LBM_HEADER + RoundedBits(n) / 8, PGSIZE, 0);
    var bits := RoundedBits(n);
    var end, taken := BitmapEnd(lbmAddr, bits), TakenPages(start, n, size, Some(lbmAddr));
    hide BitmapEnd, TakenPages, RoundedBits;
    ShieldedExactly(start, n, size, end, taken);
    if PGSIZE % size == 0 {
      EndAligned(lbmAddr, bits, size);
    }
  }

  lemma EndAligned(lbmAddr: nat, bits: nat, size: nat)
    requires size > 0 && PGSIZE % size == 0
    ensures BitmapEnd(lbmAddr, bits) % size == 0
  {
    hide AlignUp;
    var a, b := AlignUp(lbmAddr, PGSIZE, 0), AlignUp(LBM_HEADER + bits / 8, PGSIZE, 0);
    assert a + b == (a / PGSIZE + b / PGSIZE) * PGSIZE;
    MultipleOfMultiple(a / PGSIZE + b / PGSIZE, PGSIZE, size);
  }

  lemma MultipleOfMultiple(k: nat, m: nat, d: nat)
    requires d > 0 && m % d == 0
    ensures (k * m) % d == 0
  {
    assert m == m / d * d;
    assert k * m == (k * (m / d)) * d;
    Multiple(k * (m / d), d);
  }

  lemma ShieldedExactly(start: nat, n: nat, size: nat, end: nat, taken: nat)
    requires size > 0 && start % size == 0 && start <= end
    requires taken == if (end - start) / size < n then (end - start) / size else n
    ensures Shielded(start, n, size, end, taken) <==> end % size == 0 || taken == n
  {
    var k, rest := (end - start) / size, (end - start) % size;
    assert end - start == k * size + rest;
    assert end % size == rest by {
      AddMod(rest, k * size, size) by { Multiple(k, size); }
      SmallMod(rest, size);
      AddMod(end - start, start, size);
    }
    if end % size == 0 || taken == n {
      forall a: nat | start <= a < end && a < start + n * size
        ensures PageOf(a, start, size) < taken
      {
        assert a - start < taken * size;
        QuotientBelow(a - start, taken, size);
      }
    } else {
      Multiple(k, size);
      var a := start + k * size;
      BelowMultiple(k, n, size);
      assert start <= a < end && a < start + n * size && PageOf(a, start, size) == k;
    }
  }

  lemma SmallMod(r: nat, d: nat)
    requires r < d
    ensures r % d == r
  {
  }

  lemma BelowMultiple(k: nat, n: nat, d: nat)
    requires k < n && d > 0
    ensures k * d < n * d
  {
    MulAtLeast(n - k, d);
    assert (n - k) * d == n * d - k * d;
  }

  lemma QuotientBelow(x: nat, k: nat, d: nat)
    requires d > 0 && x < k * d
    ensures x / d < k
  {
    var q := x / d;
    assert x == q * d + x % d;
    MulAtLeast(q - k, d);
    assert (q - k) * d == q * d - k * d;
  }

  /** The pages from the first page boundary on, as many as fit whole. */
  ghost predicate Manages(startAddr: nat, length: nat, size: nat, base: nat, pages: nat)
    requires size > 0
  {
    var start := base * size;
    && start == AlignUp(startAddr, size, 0)
    && start + pages * size <= startAddr + length < start + pages * size + size
  }

  /** What pgalloc_init computes from the range. */
  lemma InitialRange(startAddr: nat, length: nat, size: nat)
    requires size > 0 && AlignUp(startAddr, size, 0) - startAddr <= length
    ensures var start := AlignUp(startAddr, size, 0);
            var n := PageOf(startAddr + length, start, size);
            && Manages(startAddr, length, size, PageOf(start, 0, size), n)
            && var bits := RoundedBits(n); n <= bits < n + BITS && bits % BITS == 0
  {
  }

  lemma WholeSize(words: seq<Word>, bits: nat)
    requires |words| == (bits + BITS - 1) / BITS && bits % BITS == 0
    ensures Size(words) == bits
  {
  }

  lemma InitialBits(w0: seq<Word>, w1: seq<Word>, w2: seq<Word>, pages: nat, used: nat, cleared: nat, live: Blocks)
    requires AllBits(w0, true, 0, Size(w0)) && pages <= Size(w0) < pages + BITS
    requires cleared <= Size(w0) && used == if cleared < pages then cleared else pages
    requires Updated(w0, w1, 0, cleared, false)
    requires Updated(w1, w2, pages,
                     if pages + (BITS - pages % BITS) > Size(w0) then Size(w0) - pages else BITS - pages % BITS, false)
    requires Size(w0) % BITS == 0 && live == if used > 0 then map[0 := used] else map[]
    ensures FreeBits(w2, live, pages) && Disjoint(live, pages)
  {
    hide BitAt;
    forall j
      ensures Live(live, j) <==> 0 <= j < used
    {
      assert InBlock(0, live, j) <==> 0 <= j < used;
    }
  }
}
