/** `create_pc_span` keeps the page-cache invariant and serves what was asked for. */
module PageCreate {
  import opened Common
  import opened SizeClasses
  import opened PageModel
  import opened PageInvariant
  import opened PageIntervals

  /** A new object is not in use yet; nothing else changes. */
  lemma NewIsFresh(st: Pages, s: Span)
    requires PoolOk(st)
    ensures var (s1, p) := New(st);
            && p !in st.spans && s1.spans == st.spans && s1.lists == st.lists && s1.tags == st.tags
            && PoolOk(s1.(spans := s1.spans[p := s]))
  {
    if st.dead != [] {
      assert st.dead[0] in st.dead;
      PopIsUnlink(st.dead);
    }
  }

  /** Objects are reused before new ones are made, the one deleted last first. */
  lemma DeletedIsNext(st: Pages, p: Ptr)
    ensures var (s1, q) := New(Delete(st, p)); q == p && s1 == st.(spans := st.spans - {p})
    ensures st.dead == [] ==> New(st) == (st.(bump := st.bump + 1), st.bump)
  {
    assert ([p] + st.dead)[1..] == st.dead;
  }

  lemma GoodHeads(st: Pages, v: View, loose: set<Ptr>, x: set<Ptr>)
    requires Inv(st, v, loose, x)
    ensures HeadsOk(st)
  {
    assert forall i :: 0 <= i < |st.lists| && st.lists[i] != [] ==> st.lists[i][0] in st.lists[i];
  }

  lemma BigKeeps(st: Pages, v: View, n: nat, os: Page)
    requires Good(st, v) && n > MAX_PAGE_COUNT && Fresh(v.own, os, n)
    ensures var (st', p) := CreateBig(st, n, os);
            && Inv(st', v.(own := TagRange(v.own, os, n, p)), {p}, {})
            && p !in st.spans && st'.spans == st.spans[p := st'.spans[p]]
            && st'.spans[p] == NEW_SPAN.(first := os, count := n, blockSize := MAX_ALLOC_BYTES + 1)
  {
    var s := NEW_SPAN.(first := os, count := n, blockSize := MAX_ALLOC_BYTES + 1);
    NewIsFresh(st, s);
    var (s1, p) := New(st);
    var st1 := s1.(spans := s1.spans[p := s]);
    var v' := v.(own := TagRange(v.own, os, n, p));
    AddKeeps(st, st1, p, s, v, {}, {});
    TagEndsKeeps(st1, CreateBig(st, n, os).0, p, v', {} + {p}, {} + {p});
    assert {} + {p} - {p} == {};
  }

  lemma RefillKeeps(st: Pages, v: View, os: Page)
    requires Good(st, v) && Fresh(v.own, os, MAX_PAGE_COUNT)
    ensures var st', p := Refill(st, os), New(st).1;
            && Inv(st', View(TagRange(v.own, os, MAX_PAGE_COUNT, p), v.linked + {p}), {}, {p})
            && p !in st.spans && st'.spans == st.spans[p := NEW_SPAN.(first := os, count := MAX_PAGE_COUNT)]
            && st'.lists[MAX_PAGE_COUNT - 1] == [p] + st.lists[MAX_PAGE_COUNT - 1]
  {
    var s := NEW_SPAN.(first := os, count := MAX_PAGE_COUNT);
    NewIsFresh(st, s);
    var (s1, p) := New(st);
    var st1 := s1.(spans := s1.spans[p := s]);
    AddKeeps(st, st1, p, s, v, {}, {});
    LinkKeeps(st1, Refill(st, os), p, v.(own := TagRange(v.own, os, MAX_PAGE_COUNT, p)), {} + {p}, {} + {p});
    assert {} + {p} - {p} == {} && {} + {p} == {p};
  }

  lemma PopIsUnlink<T>(s: seq<T>)
    requires s != [] && NoDup(s)
    ensures NoDup(s[1..]) && forall q :: q in s[1..] <==> q in s && q != s[0]
  {
    assert s == [s[0]] + s[1..];
  }

  lemma TakeExactKeeps(st: Pages, v: View, n: nat, x: set<Ptr>, st': Pages, p: Ptr)
    requires Inv(st, v, {}, x) && 1 <= n <= MAX_PAGE_COUNT && HeadsOk(st) && st.lists[n - 1] != []
    requires x <= {st.lists[n - 1][0]} && (st', p) == TakeExact(st, n)
    ensures p in v.linked && p in st.spans && st'.spans == st.spans && st.spans[p].count == n
    ensures Inv(st', v.(linked := v.linked - {p}), {p}, {})
  {
    assert p in st.lists[n - 1];
    PopIsUnlink(st.lists[n - 1]);
    var st1 := st.(lists := st.lists[n - 1 := st.lists[n - 1][1..]]);
    UnlinkKeeps(st, st1, p, st.lists[n - 1][1..], v, {}, x);
    TagRangeKeeps(st1, st', p, v.(linked := v.linked - {p}), {} + {p}, x + {p});
    assert {} + {p} == {p} && x + {p} - {p} == {};
  }

  function LinkTag(st: Pages, p: Ptr): Pages
    requires p in st.spans && 1 <= st.spans[p].count <= |st.lists|
  {
    var s := st.spans[p];
    st.(lists := st.lists[s.count - 1 := [p] + st.lists[s.count - 1]], tags := TagEnds(st.tags, s, p))
  }

  /** Linking an unmarked span and tagging its ends settles it. */
  lemma LinkTagKeeps(st: Pages, v: View, p: Ptr, loose: set<Ptr>, x: set<Ptr>)
    requires Inv(st, View(v.own, v.linked - {p}), loose + {p}, x + {p})
    requires p in v.linked && p !in loose && p !in x
    requires p in st.spans && !st.spans[p].inUse && 1 <= st.spans[p].count <= MAX_PAGE_COUNT
    ensures Inv(LinkTag(st, p), v, loose, x)
  {
    var s := st.spans[p];
    var st2 := st.(lists := st.lists[s.count - 1 := [p] + st.lists[s.count - 1]]);
    LinkKeeps(st, st2, p, View(v.own, v.linked - {p}), loose + {p}, x + {p});
    assert v.linked - {p} + {p} == v.linked;
    assert loose + {p} - {p} == loose && x + {p} - {p} == x;
    TagEndsKeeps(st2, LinkTag(st, p), p, v, loose, x + {p});
  }

  /** The second half of a split: relink the rest `p` of the span and tag both parts. */
  lemma RelinkKeeps(st: Pages, v: View, p: Ptr, q: Ptr)
    requires Inv(st, View(v.own, v.linked - {p}), {p, q}, {p, q}) && p in v.linked && p != q
    requires p in st.spans && !st.spans[p].inUse && 1 <= st.spans[p].count <= MAX_PAGE_COUNT
    requires q in st.spans
    ensures Inv(Relink(st, p, q), v, {q}, {})
  {
    assert {q} + {p} == {p, q} && {q} - {q} == {};
    LinkTagKeeps(st, v, p, {q}, {q});
    TagRangeKeeps(LinkTag(st, p), Relink(st, p, q), q, v, {q}, {q});
  }

  /** The first half of a split: unlink the span and cut it in two. */
  lemma UnlinkCutKeeps(st: Pages, st': Pages, v: View, p: Ptr, q: Ptr, i: nat, head: Span, tail: Span, x: set<Ptr>)
    requires Inv(st, v, {}, x) && 0 <= i < MAX_PAGE_COUNT && st.lists[i] != [] && st.lists[i][0] == p
    requires p in st.spans && q !in st.spans && PoolOk(st')
    requires head.first == st.spans[p].first && tail.first == head.first + head.count
    requires head.count + tail.count == st.spans[p].count && head.count >= 1 && tail.count >= 1
    requires st'.spans == st.spans[q := head][p := tail] && st'.lists == st.lists[i := st.lists[i][1..]]
    requires st'.tags == st.tags
    ensures p in v.linked && st.spans[p].count == i + 1
    ensures Inv(st', View(TagRange(v.own, head.first, head.count, q), v.linked - {p}), {p, q}, x + {p, q})
  {
    assert p in st.lists[i];
    PopIsUnlink(st.lists[i]);
    var st0 := st.(lists := st.lists[i := st.lists[i][1..]]);
    UnlinkKeeps(st, st0, p, st.lists[i][1..], v, {}, x);
    var v0 := v.(linked := v.linked - {p});
    CutKeeps(st0, st', p, q, head, tail, v0, {} + {p}, x + {p});
    assert {} + {p} + {q} == {p, q} && x + {p} + {q} == x + {p, q};
  }

  lemma CutHeadKeeps(st: Pages, v: View, n: nat, i: nat, x: set<Ptr>, p: Ptr, q: Ptr, st': Pages)
    requires Inv(st, v, {}, x) && 1 <= n <= i < MAX_PAGE_COUNT && HeadsOk(st) && st.lists[i] != []
    requires p == st.lists[i][0] && x <= {p} && (st', q) == CutHead(st, n, i)
    ensures p in v.linked && q !in st.spans && !st.spans[p].inUse
    ensures p in st'.spans && st'.spans[p] == st.spans[p].(first := st.spans[p].first + n, count := i + 1 - n)
    ensures q in st'.spans && st'.spans[q] == NEW_SPAN.(first := st.spans[p].first, count := n)
    ensures st'.spans == st.spans[q := st'.spans[q]][p := st'.spans[p]]
    ensures Inv(st', View(TagRange(v.own, st.spans[p].first, n, q), v.linked - {p}), {p, q}, {p, q})
  {
    var s := st.spans[p];
    var head := NEW_SPAN.(first := s.first, count := n);
    var tail := s.(first := s.first + n, count := s.count - n);
    var st0 := st.(lists := st.lists[i := st.lists[i][1..]]);
    NewIsFresh(st0, head);
    UnlinkCutKeeps(st, st', v, p, q, i, head, tail, x);
    assert x + {p, q} == {p, q};
  }

  lemma SplitKeeps(st: Pages, v: View, n: nat, i: nat, x: set<Ptr>, p: Ptr, q: Ptr, st': Pages)
    requires Inv(st, v, {}, x) && 1 <= n <= i < MAX_PAGE_COUNT && HeadsOk(st) && st.lists[i] != []
    requires p == st.lists[i][0] && x <= {p} && (st', q) == Split(st, n, i)
    ensures p in v.linked && q !in st.spans && p in st'.spans && q in st'.spans
    ensures st.spans[p].count == i + 1 && st'.spans[p] == st.spans[p].(first := st.spans[p].first + n, count := i + 1 - n)
    ensures st'.spans[q] == NEW_SPAN.(first := st.spans[p].first, count := n)
    ensures st'.spans == st.spans[q := st'.spans[q]][p := st'.spans[p]]
    ensures Inv(st', v.(own := TagRange(v.own, st.spans[p].first, n, q)), {q}, {})
  {
    var (st1, _) := CutHead(st, n, i);
    CutHeadKeeps(st, v, n, i, x, p, q, st1);
    RelinkKeeps(st1, v.(own := TagRange(v.own, st.spans[p].first, n, q)), p, q);
  }

  /** Apart from `p`, the same spans are handed out before and after, with every field unchanged. */
  ghost predicate KeepsOthers(spans: map<Ptr, Span>, linked: set<Ptr>, spans': map<Ptr, Span>, linked': set<Ptr>, p: Ptr) {
    forall q {:trigger q in spans} {:trigger q in spans'} :: q != p ==>
      if q in spans && q !in linked then q in spans' && spans'[q] == spans[q] && q !in linked'
      else q !in spans' || q in linked'
  }

  /** The pages of `s` were free or not held at all. */
  ghost predicate WasAvailable(own: map<Page, Ptr>, linked: set<Ptr>, s: Span) {
    forall g {:trigger Owns(s, g)} :: Owns(s, g) && g in own ==> own[g] in linked
  }

  /** What `create_pc_span(n)` promises: exactly n pages that were free or come fresh from the OS;
      spans that were handed out before are not touched; the new span is not marked yet. */
  ghost predicate Served(st: Pages, v: View, n: nat, added: set<Page>, st': Pages, v': View, p: Ptr) {
    && Inv(st', v', {p}, {})
    && p in st'.spans && st'.spans[p].count == n && (p in v.linked || p !in st.spans)
    && v'.own.Keys == v.own.Keys + added
    && WasAvailable(v.own, v.linked, st'.spans[p])
    && KeepsOthers(st.spans, v.linked, st'.spans, v'.linked, p)
  }

  /** Where the n pages come from: the front of a least free run that is large enough, the one linked first among
      those of its size, or of a new run; its rest stays free, first in its bucket, and all other runs stay as they are. */
  ghost predicate ServedFrom(st: Pages, linked: set<Ptr>, n: nat, os: Page, st': Pages, linked': set<Ptr>, p: Ptr, i: Interval) {
    var free := FreeRuns(st.spans, linked);
    && BestRun(free, n, os, i) && (Fits(free, n) ==> IsHead(st, i))
    && Cuts(free, i, n, st', linked', p)
  }

  ghost predicate Cuts(free: set<Interval>, i: Interval, n: nat, st': Pages, linked': set<Ptr>, p: Ptr) {
    && p in st'.spans && IntervalOf(st'.spans[p]) == Interval(i.first, n)
    && FreeRuns(st'.spans, linked') == CutFrom(free, i, n)
    && (i.count > n ==> IsHead(st', Interval(i.first + n, i.count - n)))
  }

  /** The first non-empty bucket from n - 1 on has the least runs that are large enough. */
  lemma FirstFitIsBest(st: Pages, v: View, n: nat, os: Page, i: nat)
    requires BucketsOk(st.spans, st.lists, v.linked) && 1 <= n <= MAX_PAGE_COUNT && i == FirstFit(st.lists, n - 1)
    ensures var free := FreeRuns(st.spans, v.linked);
            && (Fits(free, n) <==> i < MAX_PAGE_COUNT)
            && (i < MAX_PAGE_COUNT ==>
                  && st.lists[i][0] in st.spans && st.spans[st.lists[i][0]].count == i + 1
                  && BestRun(free, n, os, IntervalOf(st.spans[st.lists[i][0]])) && IsHead(st, IntervalOf(st.spans[st.lists[i][0]])))
  {
    var free := FreeRuns(st.spans, v.linked);
    forall j | j in free && n <= j.count
      ensures i + 1 <= j.count
    {
      var q :| q in v.linked && q in st.spans && j == IntervalOf(st.spans[q]);
      assert q in st.lists[j.count - 1];
    }
    if i < MAX_PAGE_COUNT {
      var h := st.lists[i][0];
      assert h in st.lists[i];
      assert IntervalOf(st.spans[h]) in free;
    }
  }

  lemma NothingFits(st: Pages, v: View, n: nat)
    requires BucketsOk(st.spans, st.lists, v.linked) && n > MAX_PAGE_COUNT
    ensures !Fits(FreeRuns(st.spans, v.linked), n)
  {
  }

  lemma Counts(st: Pages, v: View, loose: set<Ptr>, x: set<Ptr>)
    requires Inv(st, v, loose, x)
    ensures OwnersOk(st.spans, v.own) && BucketsOk(st.spans, st.lists, v.linked)
    ensures forall q :: q in st.spans ==> st.spans[q].count >= 1
    ensures forall q :: q in v.linked ==> q in st.spans
  {
  }

  lemma SplitCuts(spans: map<Ptr, Span>, own: map<Page, Ptr>, linked: set<Ptr>, h: Ptr, p: Ptr, head: Span, tail: Span, n: nat,
                  spans': map<Ptr, Span>)
    requires OwnersOk(spans, own) && h in linked && h in spans && p !in linked && (forall q :: q in spans ==> spans[q].count >= 1)
    requires spans[h].count > n && IntervalOf(tail) == Interval(spans[h].first + n, spans[h].count - n)
    requires spans' == spans[p := head][h := tail]
    ensures FreeRuns(spans', linked) == CutFrom(FreeRuns(spans, linked), IntervalOf(spans[h]), n)
  {
    RunsBeside(spans, linked - {h}, p, head);
    RunsBeside(spans[p := head], linked - {h}, h, tail);
    RunsPlus(spans', linked - {h}, h);
    assert linked - {h} + {h} == linked;
    RunsWithout(spans, own, linked, h);
  }

  lemma FreshCut(free: set<Interval>, i: Interval, n: nat)
    ensures CutFrom(free + {i}, i, n) == CutFrom(free, i, n)
  {
  }

  lemma PlusNothing<T>(s: set<T>)
    ensures s + {} == s
  {
  }

  lemma SubRange(spans: map<Ptr, Span>, own: map<Page, Ptr>, linked: set<Ptr>, h: Ptr, s: Span, p: Ptr)
    requires OwnersOk(spans, own) && h in linked && h in spans
    requires spans[h].first == s.first && s.count <= spans[h].count
    ensures TagRange(own, s.first, s.count, p).Keys == own.Keys
    ensures WasAvailable(own, linked, s)
  {
    assert forall g :: In(s.first, s.count, g) ==> Owns(spans[h], g);
  }

  lemma TakeExactServes(st: Pages, v: View, n: nat, x: set<Ptr>, st': Pages, p: Ptr) returns (v': View)
    requires Inv(st, v, {}, x) && HeadsOk(st) && 1 <= n <= MAX_PAGE_COUNT && st.lists[n - 1] != []
    requires x <= {st.lists[n - 1][0]} && (st', p) == TakeExact(st, n)
    ensures Served(st, v, n, {}, st', v', p)
    ensures Cuts(FreeRuns(st.spans, v.linked), IntervalOf(st.spans[st.lists[n - 1][0]]), n, st', v'.linked, p)
  {
    TakeExactKeeps(st, v, n, x, st', p);
    v' := v.(linked := v.linked - {p});
    Counts(st, v, {}, x);
    RunsWithout(st.spans, v.own, v.linked, p);
    SubRange(st.spans, v.own, v.linked, p, st.spans[p], p);
    PlusNothing(v.own.Keys);
  }

  lemma SplitServes(st: Pages, v: View, n: nat, i: nat, x: set<Ptr>, st': Pages, p: Ptr) returns (v': View)
    requires Inv(st, v, {}, x) && HeadsOk(st) && 1 <= n <= i < MAX_PAGE_COUNT && st.lists[i] != []
    requires x <= {st.lists[i][0]} && (st', p) == Split(st, n, i)
    ensures Served(st, v, n, {}, st', v', p)
    ensures v'.linked == v.linked
  {
    var h := st.lists[i][0];
    SplitKeeps(st, v, n, i, x, h, p, st');
    var s := st'.spans[p];
    v' := v.(own := TagRange(v.own, s.first, n, p));
    SubRange(st.spans, v.own, v.linked, h, s, p);
    PlusNothing(v.own.Keys);
    KeepsAllBut(st.spans, v.linked, h, p, s, st'.spans[h]);
  }

  lemma SplitIsCut(st: Pages, v: View, n: nat, i: nat, x: set<Ptr>, st': Pages, p: Ptr)
    requires Inv(st, v, {}, x) && HeadsOk(st) && 1 <= n <= i < MAX_PAGE_COUNT && st.lists[i] != []
    requires x <= {st.lists[i][0]} && (st', p) == Split(st, n, i)
    ensures Cuts(FreeRuns(st.spans, v.linked), IntervalOf(st.spans[st.lists[i][0]]), n, st', v.linked, p)
  {
    Counts(st, v, {}, x);
    PoolIn(st, v, x);
    HeadLinked(st, v, i);
    hide Inv, PoolOk, HeadsOk, OwnersOk, BucketsOk, Split, Cuts;
    SplitOf(st, v.own, v.linked, n, i, st', p);
  }

  lemma SplitOf(st: Pages, own: map<Page, Ptr>, linked: set<Ptr>, n: nat, i: nat, st': Pages, p: Ptr)
    requires PoolOk(st) && HeadsOk(st) && 1 <= n <= i < |st.lists| && st.lists[i] != [] && (st', p) == Split(st, n, i)
    requires OwnersOk(st.spans, own) && st.lists[i][0] in linked
    requires (forall q :: q in st.spans ==> st.spans[q].count >= 1) && forall q :: q in linked ==> q in st.spans
    ensures Cuts(FreeRuns(st.spans, linked), IntervalOf(st.spans[st.lists[i][0]]), n, st', linked, p)
  {
    hide PoolOk, OwnersOk, IsHead, Split, FreeRuns, CutFrom;
    SplitSpans(st, n, i, st', p);
    hide HeadsOk;
    SplitHead(st, n, i, st', p);
    NewUnlinked(st, linked, p);
    SplitCuts(st.spans, own, linked, st.lists[i][0], p, st'.spans[p], st'.spans[st.lists[i][0]], n, st'.spans);
  }

  lemma HeadLinked(st: Pages, v: View, i: nat)
    requires BucketsOk(st.spans, st.lists, v.linked) && i < |st.lists| && st.lists[i] != []
    ensures st.lists[i][0] in v.linked && st.lists[i][0] in st.spans && st.spans[st.lists[i][0]].count == i + 1
  {
    assert st.lists[i][0] in st.lists[i];
  }

  /** What a split does to the span objects. */
  lemma SplitSpans(st: Pages, n: nat, i: nat, st': Pages, p: Ptr)
    requires 1 <= n <= i < |st.lists| && PoolOk(st) && HeadsOk(st) && st.lists[i] != [] && (st', p) == Split(st, n, i)
    ensures var h := st.lists[i][0];
            && h in st.spans && st.spans[h].count == i + 1 && p !in st.spans && p in st'.spans && h in st'.spans
            && IntervalOf(st'.spans[p]) == Interval(st.spans[h].first, n)
            && IntervalOf(st'.spans[h]) == Interval(st.spans[h].first + n, i + 1 - n)
            && st'.spans == st.spans[p := st'.spans[p]][h := st'.spans[h]]
  {
    NewIsFresh(st, NEW_SPAN);
    hide PoolOk;
  }

  lemma NewUnlinked(st: Pages, linked: set<Ptr>, p: Ptr)
    requires p !in st.spans && forall q :: q in linked ==> q in st.spans
    ensures p !in linked
  {
  }

  lemma PoolIn(st: Pages, v: View, x: set<Ptr>)
    requires Inv(st, v, {}, x)
    ensures PoolOk(st)
  {
  }

  /** The rest is linked first. */
  lemma SplitHead(st: Pages, n: nat, i: nat, st': Pages, p: Ptr)
    requires 1 <= n <= i < |st.lists| && PoolOk(st) && HeadsOk(st) && st.lists[i] != [] && (st', p) == Split(st, n, i)
    ensures var s := st.spans[st.lists[i][0]]; IsHead(st', Interval(s.first + n, s.count - n))
  {
    NewIsFresh(st, NEW_SPAN);
  }

  lemma KeepsAllBut(spans: map<Ptr, Span>, linked: set<Ptr>, h: Ptr, p: Ptr, a: Span, b: Span)
    requires h in linked
    ensures KeepsOthers(spans, linked, spans[p := a][h := b], linked, p)
  {
  }

  lemma BigServes(st: Pages, v: View, n: nat, os: Page, st': Pages, p: Ptr) returns (v': View)
    requires Good(st, v) && n > MAX_PAGE_COUNT && Fresh(v.own, os, n) && (st', p) == CreateBig(st, n, os)
    ensures Served(st, v, n, Range(os, n), st', v', p)
    ensures v'.linked == v.linked
  {
    hide PoolOk, BucketsOk, MarksOk, OwnersOk, TagsOk, KeepsOthers;
    BigKeeps(st, v, n, os);
    v' := v.(own := TagRange(v.own, os, n, p));
    var s := st'.spans[p];
    assert forall g :: Owns(s, g) ==> g in Range(os, n);
    KeepsAdd(st.spans, v.linked, p, s);
  }

  lemma BigCuts(st: Pages, v: View, n: nat, os: Page, st': Pages, p: Ptr)
    requires Good(st, v) && n > MAX_PAGE_COUNT && Fresh(v.own, os, n) && (st', p) == CreateBig(st, n, os)
    ensures Cuts(FreeRuns(st.spans, v.linked), Interval(os, n), n, st', v.linked, p)
  {
    BigKeeps(st, v, n, os);
    Counts(st, v, {}, {});
    FreshRun(st.spans, v.own, v.linked, os, n);
    RunsBeside(st.spans, v.linked, p, st'.spans[p]);
    hide Inv;
  }

  lemma KeepsAdd(spans: map<Ptr, Span>, linked: set<Ptr>, p: Ptr, s: Span)
    ensures KeepsOthers(spans, linked, spans[p := s], linked, p)
  {
  }

  /** Serving from a fresh 128-page run: what the refilled cache serves, the old one serves too. */
  lemma FreshIsAvailable(own: map<Page, Ptr>, linked: set<Ptr>, os: Page, r: Ptr, s: Span)
    requires Range(os, MAX_PAGE_COUNT) !! own.Keys
    requires WasAvailable(TagRange(own, os, MAX_PAGE_COUNT, r), linked + {r}, s)
    ensures forall g :: Owns(s, g) && g in own && own[g] != r ==> own[g] in linked
  {
    forall g | Owns(s, g) && g in own
      ensures own[g] in linked + {r}
    {
      assert g !in Range(os, MAX_PAGE_COUNT);
      assert TagRange(own, os, MAX_PAGE_COUNT, r)[g] == own[g];
    }
  }

  lemma RefillKeys(own: map<Page, Ptr>, os: Page, r: Ptr)
    ensures TagRange(own, os, MAX_PAGE_COUNT, r).Keys + {} == own.Keys + Range(os, MAX_PAGE_COUNT)
  {
  }

  lemma RefillKeepsOthers(spans: map<Ptr, Span>, linked: set<Ptr>, r: Ptr, s: Span, spans': map<Ptr, Span>, linked': set<Ptr>, p: Ptr)
    requires r !in spans && KeepsOthers(spans[r := s], linked + {r}, spans', linked', p)
    ensures KeepsOthers(spans, linked, spans', linked', p)
  {
    forall q | q != p
      ensures if q in spans && q !in linked then q in spans' && spans'[q] == spans[q] && q !in linked' else q !in spans' || q in linked'
    {
      assert q in spans[r := s] <==> q in spans || q == r;
    }
  }

  lemma RefillServes(st: Pages, v: View, n: nat, os: Page, st1: Pages, r: Ptr, st': Pages, v': View, p: Ptr)
    requires Good(st, v) && Fresh(v.own, os, MAX_PAGE_COUNT) && st1 == Refill(st, os) && r == New(st).1
    requires Served(st1, View(TagRange(v.own, os, MAX_PAGE_COUNT, r), v.linked + {r}), n, {}, st', v', p)
    ensures Served(st, v, n, Range(os, MAX_PAGE_COUNT), st', v', p)
  {
    RefillKeeps(st, v, os);
    FreshIsAvailable(v.own, v.linked, os, r, st'.spans[p]);
    RefillKeys(v.own, os, r);
    RefillKeepsOthers(st.spans, v.linked, r, NEW_SPAN.(first := os, count := MAX_PAGE_COUNT), st'.spans, v'.linked, p);
    assert forall g :: g in v.own ==> v.own[g] in st.spans;
  }

  /** `create_pc_span(n)` serves what was asked for, from the run that fits best. */
  lemma CreateServes(st: Pages, v: View, n: nat, os: Page, st': Pages, p: Ptr) returns (v': View, i: Interval)
    requires Good(st, v) && n >= 1 && HeadsOk(st)
    requires OsPages(st, n) > 0 ==> Fresh(v.own, os, OsPages(st, n))
    requires (st', p) == Create(st, n, os)
    ensures Served(st, v, n, Range(os, OsPages(st, n)), st', v', p)
    ensures ServedFrom(st, v.linked, n, os, st', v'.linked, p, i)
    ensures OsPages(st, n) == if Fits(FreeRuns(st.spans, v.linked), n) then 0 else i.count
  {
    Counts(st, v, {}, {});
    if n > MAX_PAGE_COUNT {
      NothingFits(st, v, n);
      i := Interval(os, n);
      v' := BigServes(st, v, n, os, st', p);
      BigCuts(st, v, n, os, st', p);
    } else {
      var k := FirstFit(st.lists, n - 1);
      FirstFitIsBest(st, v, n, os, k);
      hide Inv, FreeRuns, Served, Cuts, CutFrom, CreateBig;
      if k < MAX_PAGE_COUNT {
        i := IntervalOf(st.spans[st.lists[k][0]]);
        v' := CreateFromFreeServes(st, v, n, os, k, st', p);
      } else {
        i := Interval(os, MAX_PAGE_COUNT);
        v' := CreateFromOsServes(st, v, n, os, st', p);
      }
    }
  }

  lemma CreateFromFreeServes(st: Pages, v: View, n: nat, os: Page, k: nat, st': Pages, p: Ptr) returns (v': View)
    requires Good(st, v) && 1 <= n <= MAX_PAGE_COUNT && HeadsOk(st)
    requires k == FirstFit(st.lists, n - 1) < MAX_PAGE_COUNT && (st', p) == Create(st, n, os)
    ensures Served(st, v, n, Range(os, 0), st', v', p)
    ensures Cuts(FreeRuns(st.spans, v.linked), IntervalOf(st.spans[st.lists[k][0]]), n, st', v'.linked, p)
  {
    assert Range(os, 0) == {};
    if k == n - 1 {
      v' := TakeExactServes(st, v, n, {}, st', p);
    } else {
      v' := SplitServes(st, v, n, k, {}, st', p);
      SplitIsCut(st, v, n, k, {}, st', p);
    }
  }

  lemma CreateFromOsServes(st: Pages, v: View, n: nat, os: Page, st': Pages, p: Ptr) returns (v': View)
    requires Good(st, v) && 1 <= n <= MAX_PAGE_COUNT && HeadsOk(st) && Fresh(v.own, os, MAX_PAGE_COUNT)
    requires FirstFit(st.lists, n - 1) == MAX_PAGE_COUNT && (st', p) == Create(st, n, os)
    ensures Served(st, v, n, Range(os, MAX_PAGE_COUNT), st', v', p)
    ensures Cuts(FreeRuns(st.spans, v.linked), Interval(os, MAX_PAGE_COUNT), n, st', v'.linked, p)
  {
    var st1, r := Refill(st, os), New(st).1;
    RefillKeeps(st, v, os);
    var v1 := View(TagRange(v.own, os, MAX_PAGE_COUNT, r), v.linked + {r});
    GoodHeads(st1, v1, {}, {r});
    if n == MAX_PAGE_COUNT {
      v' := TakeExactServes(st1, v1, n, {r}, st', p);
    } else {
      v' := SplitServes(st1, v1, n, MAX_PAGE_COUNT - 1, {r}, st', p);
      SplitIsCut(st1, v1, n, MAX_PAGE_COUNT - 1, {r}, st', p);
    }
    RefillServes(st, v, n, os, st1, r, st', v', p);
    RefillCuts(st, v, os, st1, r, n);
  }

  lemma RefillCuts(st: Pages, v: View, os: Page, st1: Pages, r: Ptr, n: nat)
    requires Good(st, v) && Fresh(v.own, os, MAX_PAGE_COUNT) && st1 == Refill(st, os) && r == New(st).1
    ensures var i := Interval(os, MAX_PAGE_COUNT);
            CutFrom(FreeRuns(st1.spans, v.linked + {r}), i, n) == CutFrom(FreeRuns(st.spans, v.linked), i, n)
  {
    RefillKeeps(st, v, os);
    Counts(st, v, {}, {});
    RunsBeside(st.spans, v.linked, r, NEW_SPAN.(first := os, count := MAX_PAGE_COUNT));
    RunsPlus(st1.spans, v.linked, r);
    FreshCut(FreeRuns(st.spans, v.linked), Interval(os, MAX_PAGE_COUNT), n);
  }

  lemma FirstFitIs(lists: seq<seq<Ptr>>, i: nat, j: nat)
    requires i <= j <= |lists| && (forall k :: i <= k < j ==> lists[k] == [])
    requires j < |lists| ==> lists[j] != []
    ensures FirstFit(lists, i) == j
  {
  }

  lemma RefillHeads(st: Pages, os: Page)
    requires HeadsOk(st) && PoolOk(st)
    ensures HeadsOk(Refill(st, os)) && PoolOk(Refill(st, os))
    ensures Refill(st, os).lists == st.lists[MAX_PAGE_COUNT - 1 := [New(st).1] + st.lists[MAX_PAGE_COUNT - 1]]
  {
    NewIsFresh(st, NEW_SPAN.(first := os, count := MAX_PAGE_COUNT));
  }
}
