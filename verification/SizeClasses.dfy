/** Size-class arithmetic of the allocator (`memory_pool/include/common.h`) and the span
    size chosen for each class (`memory_pool/src/central_cache.cpp`). */
module SizeClasses {
  import opened Bits

  const FREE_LIST_SIZE: nat := 208
  const MAX_ALLOC_BYTES: nat := 256 * 1024
  const MAX_PAGE_COUNT: nat := 128
  const PAGE: nat := 4096
  const SIZE_VALUES: nat := 0x1_0000_0000_0000_0000 // values of a 64-bit size

  // ----- the source's functions ---------------------------------------------------

  /** `(size + alignment - 1) & ~(alignment - 1)` on 64-bit words; the sum wraps. */
  function RoundUpTo(size: nat, alignment: nat): nat
    requires 1 <= alignment <= SIZE_VALUES
  {
    And((size + alignment - 1) % SIZE_VALUES, Not(SIZE_VALUES, alignment - 1))
  }

  function RoundUp(size: nat): nat {
    if 1 <= size <= 128 then RoundUpTo(size, 8)
    else if size <= 1024 then RoundUpTo(size, 16)
    else if size <= 8 * 1024 then RoundUpTo(size, 128)
    else if size <= 64 * 1024 then RoundUpTo(size, 1024)
    else if size <= 256 * 1024 then RoundUpTo(size, 8 * 1024)
    else RoundUpTo(size, PAGE)
  }

  /** Position of `size` inside its group, counting in units of `unit` bytes. */
  function IndexIn(size: nat, unit: nat): nat
    requires size >= 1 && unit >= 1
  {
    assert (size + unit - 1) / unit >= 1 by { CeilBounds(size, unit); }
    (size + unit - 1) / unit - 1
  }

  function Index(size: nat): nat
    requires 1 <= size <= MAX_ALLOC_BYTES
  {
    if size <= 128 then IndexIn(size, 8)
    else if size <= 1024 then IndexIn(size - 128, 16) + 16
    else if size <= 8 * 1024 then IndexIn(size - 1024, 128) + 56 + 16
    else if size <= 64 * 1024 then IndexIn(size - 8 * 1024, 1024) + 56 + 56 + 16
    else IndexIn(size - 64 * 1024, 8 * 1024) + 56 + 56 + 56 + 16
  }

  /** How many blocks of a class may move between the tiers at once. */
  function BlockThreshold(alignSize: nat): nat
    requires alignSize >= 1
  {
    var most := MAX_ALLOC_BYTES / alignSize;
    var capped := if most > 512 then 512 else most;
    if capped < 2 then 2 else capped
  }

  /** How many pages the central cache asks for when a class runs dry. */
  function PageThreshold(alignSize: nat): nat
    requires alignSize >= 1
  {
    var pages := BlockThreshold(alignSize) * alignSize / PAGE;
    if pages == 0 then 1 else pages
  }

  // ----- independent description of the classes ----------------------------------

  /** The block size served by free list `i`. */
  function ClassSize(i: nat): (c: nat)
    requires i < FREE_LIST_SIZE
    ensures 8 <= c <= MAX_ALLOC_BYTES
  {
    if i < 16 then 8 * (i + 1)
    else if i < 72 then 128 + 16 * (i - 15)
    else if i < 128 then 1024 + 128 * (i - 71)
    else if i < 184 then 8 * 1024 + 1024 * (i - 127)
    else 64 * 1024 + 8 * 1024 * (i - 183)
  }

  ghost predicate IsClass(c: nat) {
    exists i: nat :: i < FREE_LIST_SIZE && c == ClassSize(i)
  }

  lemma CeilBounds(size: nat, unit: nat)
    requires unit >= 1
    ensures size <= (size + unit - 1) / unit * unit < size + unit
    ensures size >= 1 ==> (size + unit - 1) / unit >= 1
  {
    var q := (size + unit - 1) / unit;
    assert size + unit - 1 == q * unit + (size + unit - 1) % unit;
    QuotientAtLeast(size + unit - 1, unit, 1);
  }

  lemma WordIsPow2() returns (w: nat)
    ensures w >= 20 && Pow2(w) == SIZE_VALUES
  {
    Square(8, 0x100);
    Square(16, 0x1_0000);
    Square(32, 0x1_0000_0000);
    w := 64;
  }

  lemma Square(k: nat, v: nat)
    requires Pow2(k) == v
    ensures Pow2(2 * k) == v * v
  {
    Pow2Sum(k, k);
  }

  /** The mask form rounds up to the next multiple of a power of two exactly when the sum
      does not wrap; a wrapped sum falls below the request. */
  lemma RoundUpToIsCeiling(size: nat, k: nat)
    requires k <= 20 && size < SIZE_VALUES
    ensures Pow2(k) <= SIZE_VALUES
    ensures size + Pow2(k) - 1 < SIZE_VALUES
         ==> RoundUpTo(size, Pow2(k)) == (size + Pow2(k) - 1) / Pow2(k) * Pow2(k)
    ensures RoundUpTo(size, Pow2(k)) >= size <==> size + Pow2(k) - 1 < SIZE_VALUES
  {
    var a := Pow2(k);
    var w := WordIsPow2();
    Pow2Monotone(k, w);
    HighMask((size + a - 1) % SIZE_VALUES, k, w);
    ClearedSum(size, a, SIZE_VALUES);
  }

  lemma ClearedSum(size: nat, a: nat, w: nat)
    requires 1 <= a <= w && size < w
    ensures var sum := (size + a - 1) % w;
            && (size + a - 1 < w ==> sum - sum % a == (size + a - 1) / a * a)
            && (sum - sum % a >= size <==> size + a - 1 < w)
  {
    var sum := (size + a - 1) % w;
    if size + a - 1 < w {
      DivModUnique(size + a - 1, w, 0, size + a - 1);
      CeilBounds(size, a);
    } else {
      DivModUnique(size + a - 1, w, 1, size + a - 1 - w);
      assert sum % a >= 0;
    }
  }

  /** The granularity of the group a request falls into. */
  function Unit(size: nat): (u: nat)
    ensures u >= 1
  {
    if size <= 128 then 8
    else if size <= 1024 then 16
    else if size <= 8 * 1024 then 128
    else if size <= 64 * 1024 then 1024
    else 8 * 1024
  }

  lemma RoundUpIsUnitMultiple(size: nat)
    requires 1 <= size <= MAX_ALLOC_BYTES
    ensures RoundUp(size) == (size + Unit(size) - 1) / Unit(size) * Unit(size)
  {
    Ceiling(size, 8, 3);
    Ceiling(size, 16, 4);
    Ceiling(size, 128, 7);
    Ceiling(size, 1024, 10);
    Ceiling(size, 8 * 1024, 13);
  }

  /** Every request up to 256 KB is rounded to the size of the list it is served from. */
  lemma RoundUpIsClassOfIndex(size: nat)
    requires 1 <= size <= MAX_ALLOC_BYTES
    ensures Index(size) < FREE_LIST_SIZE
    ensures RoundUp(size) == ClassSize(Index(size))
  {
    RoundUpIsUnitMultiple(size);
    var q := (size + Unit(size) - 1) / Unit(size);
    assert Index(size) == q - 1 + GroupOffset(size) by {
      if size > 128 {
        IndexShift(size, Unit(size));
      }
    }
    ClassInGroup(size, q);
  }

  /** How far the list numbers of a group lie ahead of its unit count. */
  function GroupOffset(size: nat): nat {
    if size <= 128 then 0
    else if size <= 1024 then 8
    else if size <= 8 * 1024 then 64
    else if size <= 64 * 1024 then 120
    else 176
  }

  lemma ClassInGroup(size: nat, q: nat)
    requires 1 <= size <= MAX_ALLOC_BYTES && q == (size + Unit(size) - 1) / Unit(size)
    ensures 0 <= q - 1 + GroupOffset(size) < FREE_LIST_SIZE
    ensures ClassSize(q - 1 + GroupOffset(size)) == q * Unit(size)
  {
  }

  /** Every group after the first starts at eight times its unit. */
  lemma IndexShift(size: nat, u: nat)
    requires u >= 1 && size > 8 * u
    ensures IndexIn(size - 8 * u, u) == (size + u - 1) / u - 9
  {
    var n := size - 8 * u + u - 1;
    DivModUnique(size + u - 1, u, n / u + 8, n % u);
  }

  lemma Ceiling(size: nat, a: nat, k: nat)
    requires k <= 13 && Pow2(k) == a <= 8 * 1024 && size < SIZE_VALUES - 8 * 1024
    ensures RoundUpTo(size, a) == (size + a - 1) / a * a
  {
    RoundUpToIsCeiling(size, k);
  }

  /** The list sizes are strictly increasing. */
  lemma ClassSizeIncreasing(i: nat, j: nat)
    requires i < j < FREE_LIST_SIZE
    ensures ClassSize(i) < ClassSize(j)
  {
  }

  /** `Index` and `ClassSize` are inverse: the lists are numbered 0..207 without gaps. */
  lemma IndexOfClassSize(i: nat)
    requires i < FREE_LIST_SIZE
    ensures Index(ClassSize(i)) == i
  {
    var c := ClassSize(i);
    if i < 16 {
      DivModUnique(c + 7, 8, i + 1, 7);
    } else if i < 72 {
      DivModUnique(c - 128 + 15, 16, i - 15, 15);
    } else if i < 128 {
      DivModUnique(c - 1024 + 127, 128, i - 71, 127);
    } else if i < 184 {
      DivModUnique(c - 8 * 1024 + 1023, 1024, i - 127, 1023);
    } else {
      DivModUnique(c - 64 * 1024 + 8191, 8 * 1024, i - 183, 8191);
    }
  }

  /** `RoundUp` picks the least class that holds the request, its list is the one the
      request is looked up in, and rounding again changes nothing. */
  lemma RoundUpIsLeastClass(size: nat, c: nat)
    requires 1 <= size <= MAX_ALLOC_BYTES
    requires IsClass(c) && size <= c
    ensures IsClass(RoundUp(size)) && size <= RoundUp(size) <= c
    ensures Index(RoundUp(size)) == Index(size)
    ensures RoundUp(RoundUp(size)) == RoundUp(size)
  {
    RoundUpIsClassOfIndex(size);
    var i := Index(size);
    IndexOfClassSize(i);
    RoundUpIsClassOfIndex(ClassSize(i));
    RoundUpCovers(size);
    var j: nat :| j < FREE_LIST_SIZE && c == ClassSize(j);
    if j < i {
      PreviousClassTooSmall(size);
      if j < i - 1 {
        ClassSizeIncreasing(j, i - 1);
      }
    } else if i < j {
      ClassSizeIncreasing(i, j);
    }
  }

  lemma RoundUpCovers(size: nat)
    requires 1 <= size <= MAX_ALLOC_BYTES
    ensures size <= RoundUp(size)
  {
    RoundUpIsClassOfIndex(size);
  }

  lemma PreviousClassTooSmall(size: nat)
    requires 1 <= size <= MAX_ALLOC_BYTES && 1 <= Index(size) < FREE_LIST_SIZE
    ensures ClassSize(Index(size) - 1) < size
  {
  }

  /** `Index` is monotone over all requests. */
  lemma IndexMonotone(s: nat, t: nat)
    requires 1 <= s <= t <= MAX_ALLOC_BYTES
    ensures Index(s) <= Index(t)
  {
    RoundUpIsClassOfIndex(s);
    RoundUpIsClassOfIndex(t);
    RoundUpCovers(t);
    if Index(t) < Index(s) {
      PreviousClassTooSmall(s);
      if Index(t) < Index(s) - 1 {
        ClassSizeIncreasing(Index(t), Index(s) - 1);
      }
    }
  }

  /** Above 128 bytes rounding wastes less than one eighth of the request. */
  lemma WasteBelowOneEighth(size: nat)
    requires 128 < size <= MAX_ALLOC_BYTES
    ensures 8 * (RoundUp(size) - size) < size
  {
    RoundUpIsClassOfIndex(size);
  }

  /** Requests above 256 KB are rounded to whole pages, unless the 64-bit sum wraps. */
  lemma LargeRequestPages(size: nat)
    requires MAX_ALLOC_BYTES < size < SIZE_VALUES
    ensures RoundUp(size) >= size <==> size + 4095 < SIZE_VALUES
    ensures size + 4095 < SIZE_VALUES ==>
              RoundUp(size) % PAGE == 0 && RoundUp(size) - size < PAGE && 65 <= RoundUp(size) / PAGE
  {
    assert Pow2(12) == PAGE;
    RoundUpToIsCeiling(size, 12);
  }

  // ----- span sizes ---------------------------------------------------------------

  lemma QuotientBounds(c: nat)
    requires c >= 1
    ensures MAX_ALLOC_BYTES / c * c <= MAX_ALLOC_BYTES < MAX_ALLOC_BYTES / c * c + c
  {
    assert MAX_ALLOC_BYTES == MAX_ALLOC_BYTES / c * c + MAX_ALLOC_BYTES % c;
  }

  lemma BlockThresholdRange(c: nat)
    requires c >= 1
    ensures 2 <= BlockThreshold(c) <= 512
    ensures c <= 512 ==> BlockThreshold(c) == 512
    ensures 512 <= c <= MAX_ALLOC_BYTES / 2 ==> BlockThreshold(c) == MAX_ALLOC_BYTES / c
    ensures c > MAX_ALLOC_BYTES / 2 ==> BlockThreshold(c) == 2
  {
    QuotientAtLeast(MAX_ALLOC_BYTES, c, 512);
    QuotientAtLeast(MAX_ALLOC_BYTES, c, 513);
    QuotientAtLeast(MAX_ALLOC_BYTES, c, 2);
  }

  /** A span has between 1 and 128 pages, so the page cache always serves it from its
      buckets, and it always holds at least one block. */
  lemma PageThresholdFits(c: nat)
    requires 1 <= c <= MAX_ALLOC_BYTES
    ensures 1 <= PageThreshold(c) <= MAX_PAGE_COUNT
    ensures c <= PageThreshold(c) * PAGE
  {
    BlockThresholdRange(c);
    QuotientBounds(c);
    SpanBytes(BlockThreshold(c), c);
    WholePages(BlockThreshold(c) * c, c);
  }

  /** A span has as many whole pages as fit into the bytes of as many blocks as may move at once; no class is so
      small that this is none. */
  lemma PageThresholdExact(c: nat)
    requires IsClass(c)
    ensures PageThreshold(c) * PAGE <= BlockThreshold(c) * c < (PageThreshold(c) + 1) * PAGE
  {
    BlockThresholdRange(c);
    QuotientBounds(c);
    SpanBytes(BlockThreshold(c), c);
    SmallSpanBytes(BlockThreshold(c), c);
    PagesOfBytes(BlockThreshold(c) * c);
  }

  lemma SmallSpanBytes(n: nat, c: nat)
    requires c >= 8 && (c <= 512 ==> n == 512) && (c <= PAGE || c + PAGE <= n * c) && n >= 2
    requires c > 512 ==> n == 2 || MAX_ALLOC_BYTES - c < n * c
    requires n == 2 ==> c > PAGE
    ensures n * c >= PAGE
  {
    if c <= 512 {
      assert 512 * c >= 512 * 8;
    }
  }

  lemma PagesOfBytes(bytes: nat)
    requires bytes >= PAGE
    ensures bytes / PAGE >= 1 && bytes / PAGE * PAGE <= bytes < (bytes / PAGE + 1) * PAGE
  {
  }

  lemma SpanBytes(n: nat, c: nat)
    requires 1 <= c <= MAX_ALLOC_BYTES && n >= 2
    requires if c <= 512 then n == 512 else n == 2 || MAX_ALLOC_BYTES - c < n * c <= MAX_ALLOC_BYTES
    requires n == 2 ==> c > 4096
    ensures n * c <= 2 * MAX_ALLOC_BYTES
    ensures c <= PAGE || c + PAGE <= n * c
  {
    assert (n - 2) * c >= 0;
  }

  lemma WholePages(bytes: nat, c: nat)
    requires bytes <= 2 * MAX_ALLOC_BYTES && c >= 1
    requires c <= PAGE || c + PAGE <= bytes
    ensures 1 <= (if bytes / PAGE == 0 then 1 else bytes / PAGE) <= MAX_PAGE_COUNT
    ensures c <= (if bytes / PAGE == 0 then 1 else bytes / PAGE) * PAGE
  {
  }

  /** Routing of frees. A span of a small class has more than 64 pages exactly for the
      classes above 128 KB. The test `_page_size > 64` of the source therefore
      takes those blocks for direct spans, and is right exactly for the classes up to 128 KB. */
  lemma SpanIsWiderThan64Pages(c: nat)
    requires IsClass(c)
    ensures PageThreshold(c) > 64 <==> c > MAX_ALLOC_BYTES / 2
  {
    BlockThresholdRange(c);
    QuotientBounds(c);
    var bytes := BlockThreshold(c) * c;
    if c > MAX_ALLOC_BYTES / 2 {
      assert bytes == 2 * c;
      var i: nat :| i < FREE_LIST_SIZE && c == ClassSize(i);
      assert i >= 192;
    } else if c <= 512 {
      assert bytes == 512 * c;
    }
  }

  /** How many pages the span of an allocation of `size` bytes has. */
  function PagesFor(size: nat): nat
    requires 1 <= size && size + PAGE <= SIZE_VALUES
  {
    if size <= MAX_ALLOC_BYTES then ClassPositive(size); PageThreshold(RoundUp(size)) else RoundUp(size) / PAGE
  }

  lemma ClassPositive(size: nat)
    requires 1 <= size <= MAX_ALLOC_BYTES
    ensures RoundUp(size) >= 1
  {
    RoundUpCovers(size);
  }

  /** The source frees an allocation through the page cache if its span has more than 64 pages. That tells
      direct allocations (above 256 KB) from blocks exactly for the requests outside (128 KB, 256 KB]. */
  lemma RoutingByPages(size: nat)
    requires 1 <= size && size + PAGE <= SIZE_VALUES
    ensures (PagesFor(size) > 64 <==> size > MAX_ALLOC_BYTES) <==> (size <= MAX_ALLOC_BYTES / 2 || size > MAX_ALLOC_BYTES)
  {
    if size <= MAX_ALLOC_BYTES {
      assert ClassSize(191) == MAX_ALLOC_BYTES / 2 && ClassSize(207) == MAX_ALLOC_BYTES;
      RoundUpIsLeastClass(size, if size <= MAX_ALLOC_BYTES / 2 then MAX_ALLOC_BYTES / 2 else MAX_ALLOC_BYTES);
      SpanIsWiderThan64Pages(RoundUp(size));
    } else {
      LargeRequestPages(size);
    }
  }

  /** Classes up to 512 bytes and classes made of whole pages cut their span without remainder. */
  lemma SmallAndPageClassesTile(c: nat)
    requires IsClass(c)
    requires c <= 512 || c % PAGE == 0
    ensures PageThreshold(c) * PAGE % c == 0
  {
    BlockThresholdRange(c);
    var n := BlockThreshold(c);
    if c <= 512 {
      SmallClassesAreMultiplesOfEight(c);
      DivModUnique(512 * c, PAGE, c / 8, 0);
    } else {
      PageMultiple(n, c);
    }
    assert PageThreshold(c) * PAGE == n * c;
    DivModUnique(n * c, c, n, 0);
  }

  lemma SmallClassesAreMultiplesOfEight(c: nat)
    requires IsClass(c) && c <= 512
    ensures c / 8 * 8 == c
  {
    var i: nat :| i < FREE_LIST_SIZE && c == ClassSize(i);
    if i < 16 {
      assert c == (i + 1) * 8;
    } else {
      assert c == (16 + 2 * (i - 15)) * 8;
    }
  }

  lemma PageMultiple(n: nat, c: nat)
    requires c % PAGE == 0
    ensures n * c / PAGE * PAGE == n * c
  {
    var k := c / PAGE;
    assert n * c == n * k * PAGE by { assert c == k * PAGE; }
    DivModUnique(n * c, PAGE, n * k, 0);
  }

  /** c without its first k factors of two, as far as it has them. */
  function Reduced(c: nat, k: nat): (r: nat)
    requires c >= 1
    ensures r >= 1
  {
    if k > 0 && c % 2 == 0 then Reduced(c / 2, k - 1) else c
  }

  lemma EvenQuotient(y: nat, d: nat)
    requires d >= 1
    ensures 2 * y % (2 * d) == 0 <==> y % d == 0
  {
    HalfMod(2 * y, d);
    assert 2 * y / 2 == y;
  }

  /** An odd number divides 2 * y only if it divides y. */
  lemma OddDivides(y: nat, c: nat)
    requires c % 2 == 1
    ensures 2 * y % c == 0 <==> y % c == 0
  {
    var q, r := y / c, y % c;
    assert y == q * c + r;
    assert 2 * q * c == 2 * (q * c);
    if 2 * r < c {
      DivModUnique(2 * y, c, 2 * q, 2 * r);
    } else {
      assert (2 * q + 1) * c == 2 * q * c + c;
      DivModUnique(2 * y, c, 2 * q + 1, 2 * r - c);
    }
  }

  lemma {:induction false} DividesReduced(p: nat, c: nat, k: nat)
    requires c >= 1
    ensures p * Pow2(k) >= 0 && (p * Pow2(k) % c == 0 <==> p % Reduced(c, k) == 0)
    decreases k
  {
    if k == 0 {
      assert p * Pow2(0) == p;
    } else {
      var y := p * Pow2(k - 1);
      assert p * Pow2(k) == 2 * y;
      if c % 2 == 0 {
        DividesReduced(p, c / 2, k - 1);
        EvenQuotient(y, c / 2);
        assert c == 2 * (c / 2);
      } else {
        DividesReduced(p, c, k - 1);
        OddDivides(y, c);
      }
    }
  }

  /** Exactly when the blocks of a class fill its span without remainder: when the class, less the factors of
      two it shares with the page size, divides the number of pages. */
  lemma TilesExactly(c: nat)
    requires c >= 1
    ensures PageThreshold(c) * PAGE % c == 0 <==> PageThreshold(c) % Reduced(c, 12) == 0
  {
    assert Pow2(12) == PAGE;
    DividesReduced(PageThreshold(c), c, 12);
  }

  /** Tiling is not limited to those classes (576 B tiles 63 pages), and it does fail: 528 B
      leaves a remainder on 63 pages. */
  lemma TilingExamples()
    ensures IsClass(576) && PageThreshold(576) == 63 && 63 * PAGE % 576 == 0
    ensures IsClass(528) && PageThreshold(528) == 63 && 63 * PAGE % 528 == 384
  {
    assert ClassSize(43) == 576;
    assert ClassSize(40) == 528;
  }
}
