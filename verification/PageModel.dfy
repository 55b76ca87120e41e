/** The page cache (`memory_pool/src/page_cache.cpp`) as functions on a value: what one call
    does to the span objects, the 128 buckets and the page-to-span map. The class in
    PageCache.dfy is proved to compute these functions. */
module PageModel {
  import opened Common
  import opened SizeClasses

  type Ptr = nat // address of a span object
  type Page = nat

  /** A span object, without the block chain and the use count, which belong to the central cache. */
  datatype Span = Span(first: Page, count: nat, blockSize: nat, inUse: bool)

  /** `spans` holds the span objects that are constructed; `dead` is the free list of the object
      pool they come from, `bump` its next unused address. `lists[n - 1]` links the free spans
      of n pages. */
  datatype Pages = Pages(
    spans: map<Ptr, Span>, lists: seq<seq<Ptr>>, tags: map<Page, Ptr>, dead: seq<Ptr>, bump: Ptr)

  function Last(s: Span): Page
    requires s.count >= 1
  {
    s.first + s.count - 1
  }

  const NEW_SPAN := Span(0, 0, 0, false)

  function EmptyLists(n: nat): (r: seq<seq<Ptr>>)
    ensures |r| == n && forall i :: 0 <= i < n ==> r[i] == []
  {
    if n == 0 then [] else [[]] + EmptyLists(n - 1)
  }

  function Empty(): Pages {
    Pages(map[], EmptyLists(MAX_PAGE_COUNT), map[], [], 0)
  }

  /** The object pool hands out an address once. */
  ghost predicate PoolOk(st: Pages) {
    && (forall p :: p in st.spans ==> p < st.bump && p !in st.dead)
    && (forall p :: p in st.dead ==> p < st.bump)
    && NoDup(st.dead)
  }

  // ----- operations ---------------------------------------------------------------

  /** `_m_span_pool.New()`: reuse the object deleted last, or take the next address. */
  function New(st: Pages): (r: (Pages, Ptr)) {
    if st.dead != [] then (st.(dead := st.dead[1..]), st.dead[0])
    else (st.(bump := st.bump + 1), st.bump)
  }

  /** `_m_span_pool.Delete(p)`. */
  function Delete(st: Pages, p: Ptr): Pages {
    st.(spans := st.spans - {p}, dead := [p] + st.dead)
  }

  predicate In(first: Page, n: nat, g: Page) {
    first <= g < first + n
  }

  function Range(first: Page, n: nat): set<Page> {
    set g: Page | first <= g < first + n && In(first, n, g)
  }

  /** All pages of a run mapped to `p`. */
  function TagRange(tags: map<Page, Ptr>, first: Page, n: nat, p: Ptr): map<Page, Ptr> {
    tags + map g: Page | first <= g < first + n && In(first, n, g) :: p
  }

  function TagEnds(tags: map<Page, Ptr>, s: Span, p: Ptr): map<Page, Ptr>
    requires s.count >= 1
  {
    tags[s.first := p][Last(s) := p]
  }

  /** The first non-empty bucket at or above `i`, or 128. */
  function FirstFit(lists: seq<seq<Ptr>>, i: nat): (j: nat)
    requires i <= |lists|
    ensures i <= j <= |lists|
    ensures j < |lists| ==> lists[j] != []
    ensures forall k :: i <= k < j ==> lists[k] == []
    decreases |lists| - i
  {
    if i == |lists| || lists[i] != [] then i else FirstFit(lists, i + 1)
  }

  /** More than 128 pages: a run of its own, tagged at both ends. */
  function CreateBig(st: Pages, n: nat, os: Page): (r: (Pages, Ptr))
    requires n >= 1
  {
    var (s1, p) := New(st);
    var s := NEW_SPAN.(first := os, count := n, blockSize := MAX_ALLOC_BYTES + 1);
    (s1.(spans := s1.spans[p := s], tags := TagEnds(s1.tags, s, p)), p)
  }

  /** Bucket `n - 1` has a span: unlink it and tag all its pages. */
  function TakeExact(st: Pages, n: nat): (r: (Pages, Ptr))
    requires 1 <= n <= |st.lists| && st.lists[n - 1] != [] && st.lists[n - 1][0] in st.spans
  {
    var p := st.lists[n - 1][0];
    var s := st.spans[p];
    (st.(lists := st.lists[n - 1 := st.lists[n - 1][1..]], tags := TagRange(st.tags, s.first, s.count, p)), p)
  }

  /** Unlink the head of bucket `i` and cut its first n pages off into a new span object. */
  function CutHead(st: Pages, n: nat, i: nat): (r: (Pages, Ptr))
    requires n >= 1 && n - 1 < i < |st.lists| && st.lists[i] != [] && st.lists[i][0] in st.spans
    requires st.spans[st.lists[i][0]].count == i + 1
  {
    var p := st.lists[i][0];
    var s := st.spans[p];
    var (s1, q) := New(st.(lists := st.lists[i := st.lists[i][1..]]));
    var head := NEW_SPAN.(first := s.first, count := n);
    var tail := s.(first := s.first + n, count := s.count - n);
    (s1.(spans := s1.spans[q := head][p := tail]), q)
  }

  /** Relink the rest `p` of a span that was cut, and tag both parts. */
  function Relink(st: Pages, p: Ptr, q: Ptr): Pages
    requires p in st.spans && q in st.spans && 1 <= st.spans[p].count <= |st.lists|
  {
    var tail, head := st.spans[p], st.spans[q];
    st.(lists := st.lists[tail.count - 1 := [p] + st.lists[tail.count - 1]],
        tags := TagRange(TagEnds(st.tags, tail, p), head.first, head.count, q))
  }

  /** Bucket `i > n - 1` has a span: serve its first n pages. */
  function Split(st: Pages, n: nat, i: nat): (r: (Pages, Ptr))
    requires n >= 1 && n - 1 < i < |st.lists| && st.lists[i] != [] && st.lists[i][0] in st.spans
    requires st.spans[st.lists[i][0]].count == i + 1
  {
    var (st1, q) := CutHead(st, n, i);
    (Relink(st1, st.lists[i][0], q), q)
  }

  /** All buckets are empty from n - 1 on: hang a fresh 128-page span into the last one. */
  function Refill(st: Pages, os: Page): (r: Pages)
    requires |st.lists| == MAX_PAGE_COUNT
  {
    var (s1, p) := New(st);
    s1.(spans := s1.spans[p := NEW_SPAN.(first := os, count := MAX_PAGE_COUNT)],
        lists := s1.lists[MAX_PAGE_COUNT - 1 := [p] + s1.lists[MAX_PAGE_COUNT - 1]])
  }

  /** Serve n pages from the span at the head of bucket `i`. */
  function TakeFrom(st: Pages, n: nat, i: nat): (r: (Pages, Ptr))
    requires 1 <= n && n - 1 <= i < |st.lists| && st.lists[i] != [] && st.lists[i][0] in st.spans
    requires st.spans[st.lists[i][0]].count == i + 1
  {
    if i == n - 1 then TakeExact(st, n) else Split(st, n, i)
  }

  /** The head of every bucket is a span of the right size. */
  predicate HeadsOk(st: Pages) {
    && |st.lists| == MAX_PAGE_COUNT
    && forall i :: 0 <= i < |st.lists| && st.lists[i] != [] ==>
         st.lists[i][0] in st.spans && st.spans[st.lists[i][0]].count == i + 1
  }

  /** `create_pc_span(n)`; `os` is the first page the OS returns if it is asked. */
  function Create(st: Pages, n: nat, os: Page): (r: (Pages, Ptr))
    requires n >= 1 && HeadsOk(st) && PoolOk(st)
  {
    if n > MAX_PAGE_COUNT then CreateBig(st, n, os)
    else
      var i := FirstFit(st.lists, n - 1);
      if i < MAX_PAGE_COUNT then TakeFrom(st, n, i)
      else TakeFrom(Refill(st, os), n, MAX_PAGE_COUNT - 1)
  }

  /** How many pages `create_pc_span(n)` asks the OS for. */
  function OsPages(st: Pages, n: nat): nat
    requires n >= 1 && |st.lists| == MAX_PAGE_COUNT
  {
    if n > MAX_PAGE_COUNT then n
    else if FirstFit(st.lists, n - 1) < MAX_PAGE_COUNT then 0
    else MAX_PAGE_COUNT
  }

  /** The span that covers page `g` according to the map, if it may be merged with `p`. */
  predicate CanMerge(st: Pages, p: Ptr, g: Page)
    requires p in st.spans
  {
    && g in st.tags && st.tags[g] in st.spans
    && var q := st.spans[st.tags[g]];
       !q.inUse && 1 <= q.count && q.count + st.spans[p].count <= MAX_PAGE_COUNT
  }

  function Without(s: seq<Ptr>, p: Ptr): (r: seq<Ptr>)
    ensures forall q :: q in r <==> q in s && q != p
  {
    if s == [] then [] else if s[0] == p then Without(s[1..], p) else [s[0]] + Without(s[1..], p)
  }

  /** One turn of a merge loop: span `q` is unlinked and deleted, `p` takes over its pages
      starting at `first`. */
  function Absorb(st: Pages, p: Ptr, q: Ptr, first: Page): Pages
    requires p in st.spans && q in st.spans && 1 <= st.spans[q].count <= |st.lists|
  {
    var b := st.spans[q].count - 1;
    var s := st.spans[p];
    Delete(st.(spans := st.spans[p := s.(first := first, count := s.count + st.spans[q].count)],
               lists := st.lists[b := Without(st.lists[b], q)]), q)
  }

  function AbsorbLeft(st: Pages, p: Ptr): Pages
    requires p in st.spans && st.spans[p].first >= 1 && CanMerge(st, p, st.spans[p].first - 1)
    requires |st.lists| == MAX_PAGE_COUNT
  {
    var q := st.tags[st.spans[p].first - 1];
    Absorb(st, p, q, st.spans[q].first)
  }

  function AbsorbRight(st: Pages, p: Ptr): Pages
    requires p in st.spans && CanMerge(st, p, st.spans[p].first + st.spans[p].count)
    requires |st.lists| == MAX_PAGE_COUNT
  {
    Absorb(st, p, st.tags[st.spans[p].first + st.spans[p].count], st.spans[p].first)
  }

  predicate LeftMerges(st: Pages, p: Ptr) {
    p in st.spans && |st.lists| == MAX_PAGE_COUNT && st.spans[p].first >= 1 && CanMerge(st, p, st.spans[p].first - 1)
  }

  predicate RightMerges(st: Pages, p: Ptr) {
    p in st.spans && |st.lists| == MAX_PAGE_COUNT && CanMerge(st, p, st.spans[p].first + st.spans[p].count)
  }

  /** The left merge loop. */
  function MergeLeft(st: Pages, p: Ptr): (r: Pages)
    decreases st.spans.Keys
  {
    if LeftMerges(st, p) then MergeLeft(AbsorbLeft(st, p), p) else st
  }

  /** The right merge loop. */
  function MergeRight(st: Pages, p: Ptr): (r: Pages)
    decreases st.spans.Keys
  {
    if RightMerges(st, p) then MergeRight(AbsorbRight(st, p), p) else st
  }

  /** After the merge loops: link the span, clear its mark and tag its ends. */
  function Finish(st: Pages, p: Ptr): Pages
    requires p in st.spans && 1 <= st.spans[p].count <= |st.lists|
  {
    var s := st.spans[p];
    st.(spans := st.spans[p := s.(inUse := false)],
        lists := st.lists[s.count - 1 := [p] + st.lists[s.count - 1]],
        tags := TagEnds(st.tags, s, p))
  }

  /** `recover_span_to_page_cache(p)` for a span of at most 128 pages. */
  function RecoverSmall(st: Pages, p: Ptr): (r: Pages)
    requires p in st.spans
  {
    var st' := MergeRight(MergeLeft(st, p), p);
    if p in st'.spans && 1 <= st'.spans[p].count <= |st'.lists| then Finish(st', p) else st'
  }

  /** `recover_span_to_page_cache(p)` as written. */
  function Recover(st: Pages, p: Ptr): Pages
    requires p in st.spans
  {
    if st.spans[p].count > MAX_PAGE_COUNT then Delete(st, p) else RecoverSmall(st, p)
  }

  /** The same with the map entries of a returned run removed. */
  function RecoverClean(st: Pages, p: Ptr): Pages
    requires p in st.spans
  {
    var s := st.spans[p];
    if s.count > MAX_PAGE_COUNT then Delete(st.(tags := st.tags - Range(s.first, s.count)), p)
    else RecoverSmall(st, p)
  }

  /** Pages still held after `p` was recovered. */
  function HeldAfter(held: set<Page>, s: Span): set<Page> {
    if s.count > MAX_PAGE_COUNT then held - Range(s.first, s.count) else held
  }
}
