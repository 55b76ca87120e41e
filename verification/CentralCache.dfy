/** The central cache (`memory_pool/src/central_cache.cpp`) on the heap of next pointers: carving a
    span into blocks, handing out runs, taking runs back. Each method runs under the lock of its bin
    (carving: on a span no other thread can reach). */
module CentralCache {
  import opened Common
  import opened SizeClasses
  import opened FreeLists
  import Bits
  import A = Allocator
  import PM = PageModel

  // ----- carving --------------------------------------------------------------------

  function Blocks(base: Addr, c: nat, n: nat): (r: seq<Addr>)
    ensures |r| == n && forall i :: 0 <= i < n ==> r[i] == base + i * c
  {
    seq(n, i requires 0 <= i < n => Times(base, i, c))
  }

  function Times(base: Addr, i: nat, c: nat): (a: Addr)
    ensures a == base + i * c
  {
    assert i * c >= 0;
    base + i * c
  }

  /** `_m_get_span`'s loop: blocks of c bytes are linked up from `base` while they start below `limit`. */
  method Carve(mem: Memory, base: Addr, c: nat, limit: Addr) returns (head: Addr, ghost n: nat)
    requires c >= 1 && 1 <= base < limit
    modifies mem
    ensures n == (limit - base + c - 1) / c
    ensures head == base && Chain(mem.next, head, Blocks(base, c, n))
    ensures Untouched(old(mem.next), mem.next, Blocks(base, c, n))
  {
    head := base;
    var tail, start := base, base + c;
    n := 1;
    ghost var made := Blocks(base, c, 1);
    while start < limit
      invariant n >= 1 && made == Blocks(base, c, n) && tail == made[n - 1] < limit && start == tail + c
      invariant Linked(mem.next, made)
      invariant Untouched(old(mem.next), mem.next, made)
      decreases limit - start
    {
      BlocksGrow(base, c, n);
      LinkNext(mem.next, made, start);
      mem.next := mem.next[tail := start];
      tail := mem.next[tail];
      start := start + c;
      n := n + 1;
      made := made + [tail];
    }
    LinkLast(mem.next, made, base, c);
    mem.next := mem.next[tail := NULL];
    CeilIs(limit - base, c, n) by { assert (n - 1) * c + c == n * c; }
  }

  /** All links but the last are in place. */
  ghost predicate Linked(next: map<Addr, Addr>, made: seq<Addr>) {
    forall i :: 0 <= i < |made| - 1 ==> made[i] in next && next[made[i]] == made[i + 1]
  }

  ghost predicate Untouched(next: map<Addr, Addr>, next': map<Addr, Addr>, made: seq<Addr>) {
    forall b :: b !in made ==> (b in next' <==> b in next) && (b in next' ==> next'[b] == next[b])
  }

  lemma LinkNext(next: map<Addr, Addr>, made: seq<Addr>, b: Addr)
    requires Linked(next, made) && made != [] && forall i, j :: 0 <= i < j < |made| ==> made[i] != made[j]
    ensures Linked(next[made[|made| - 1] := b], made + [b])
  {
  }

  lemma LinkLast(next: map<Addr, Addr>, made: seq<Addr>, base: Addr, c: nat)
    requires Linked(next, made) && made != [] && made == Blocks(base, c, |made|) && c >= 1 && base >= 1
    ensures Chain(next[made[|made| - 1] := NULL], base, made)
  {
    BlocksDistinct(base, c, |made|);
    var next' := next[made[|made| - 1] := NULL];
    forall i | 0 <= i < |made|
      ensures made[i] != NULL && made[i] in next'
    {
      assert i * c >= 0;
    }
    SegmentJoins(next', made, NULL, []);
    assert made + [] == made;
  }

  lemma BlocksGrow(base: Addr, c: nat, n: nat)
    requires n >= 1 && c >= 1
    ensures Blocks(base, c, n + 1) == Blocks(base, c, n) + [Blocks(base, c, n)[n - 1] + c]
    ensures forall i, j :: 0 <= i < j < n ==> Blocks(base, c, n)[i] != Blocks(base, c, n)[j]
  {
    assert n * c == (n - 1) * c + c;
    BlocksDistinct(base, c, n);
  }

  lemma BlocksDistinct(base: Addr, c: nat, n: nat)
    requires c >= 1
    ensures forall i, j :: 0 <= i < j < n ==> Blocks(base, c, n)[i] != Blocks(base, c, n)[j]
  {
    forall i, j | 0 <= i < j < n
      ensures Blocks(base, c, n)[i] != Blocks(base, c, n)[j]
    {
      assert (j - i) * c >= 1 && (j - i) * c == j * c - i * c;
    }
  }

  lemma CeilIs(bytes: nat, c: nat, n: nat)
    requires c >= 1 && n >= 1 && (n - 1) * c < bytes <= n * c
    ensures n == (bytes + c - 1) / c
  {
    Bits.QuotientAtLeast(bytes + c - 1, c, n);
    Bits.QuotientAtLeast(bytes + c - 1, c, n + 1);
    assert (n + 1) * c == n * c + c && n * c == (n - 1) * c + c;
  }

  /** As written, the loop runs while a block starts before the end of the span. That makes one block too
      many, reaching beyond the span, exactly when the class does not divide the span's bytes. */
  lemma CarvingAsWritten(bytes: nat, c: nat)
    requires 1 <= c <= bytes
    ensures var n := (bytes + c - 1) / c;
            && (n * c <= bytes <==> bytes % c == 0)
            && (bytes % c == 0 <==> n == bytes / c)
            && (bytes % c != 0 <==> n == bytes / c + 1)
  {
    var q, m := bytes / c, bytes % c;
    assert bytes == q * c + m;
    if m == 0 {
      if q >= 1 { CeilIs(bytes, c, q); }
      Bits.QuotientAtLeast(bytes, c, 1);
    } else {
      assert (q + 1) * c == q * c + c;
      CeilIs(bytes, c, q + 1);
    }
  }

  /** With the guard `start + c <= end` the chain holds all blocks that fit into the span, and no other. */
  lemma CarvingIntended(s: PM.Span)
    requires 1 <= s.blockSize <= s.count * PAGE
    ensures var base, bytes := A.Base(s), s.count * PAGE;
            && Blocks(base, s.blockSize, (bytes - s.blockSize + 1 + s.blockSize - 1) / s.blockSize) == A.AllBlocks(s)
  {
  }

  /** 528-byte blocks on 63 pages: 489 blocks are made, 488 fit. */
  lemma CarvingExample()
    ensures PageThreshold(528) * PAGE == 258048
    ensures (258048 + 528 - 1) / 528 == 489 && 258048 / 528 == 488 && 489 * 528 > 258048
  {
    TilingExamples();
  }

  // ----- handing out a run ----------------------------------------------------------

  /** `alloc_to_thread` after a span was found: walk at most k - 1 links, cut there. */
  method TakeRun(mem: Memory, head: Addr, k: nat, ghost s: seq<Addr>) returns (start: Addr, end: Addr, actual: nat, rest: Addr)
    requires Chain(mem.next, head, s) && s != [] && k >= 1
    modifies mem
    ensures actual == Min(k, |s|) && actual >= 1
    ensures start == s[0] && end == s[actual - 1]
    ensures Chain(mem.next, start, s[..actual]) && Chain(mem.next, rest, s[actual..])
    ensures mem.next == old(mem.next)[end := NULL]
  {
    start, end, actual := head, head, 1;
    ChainCell(mem.next, head, s, 0);
    var i := 0;
    while i < k - 1 && mem.next[end] != NULL
      invariant 0 <= i <= k - 1 && actual == i + 1 <= |s| && end == s[i]
      invariant end in mem.next && mem.next[end] == HeadOf(s[i + 1..])
      invariant mem.next == old(mem.next)
      decreases k - i
    {
      end := mem.next[end];
      actual := actual + 1;
      i := i + 1;
      ChainCell(mem.next, head, s, i);
    }
    if actual < |s| { ChainCell(mem.next, head, s, actual); }
    ChainCut(mem.next, head, s, actual);
    rest := mem.next[end];
    mem.next := mem.next[end := NULL];
  }
}
