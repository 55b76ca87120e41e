/** What the page cache guarantees over every run of its calls. */
module PageRuns {
  import opened Common
  import opened SizeClasses
  import opened PageModel
  import opened PageInvariant
  import opened PageIntervals
  import opened PageCreate
  import opened PageRecover

  // ----- the guarantee, without auxiliary state -------------------------------------

  /** The spans partition the pages held from the OS. */
  ghost predicate Partition(spans: map<Ptr, Span>, held: set<Page>) {
    && (forall p, q :: p in spans && q in spans && p != q ==>
          spans[p].first + spans[p].count <= spans[q].first || spans[q].first + spans[q].count <= spans[p].first)
    && (forall p, g {:trigger Owns(spans[p], g)} :: p in spans && Owns(spans[p], g) ==> g in held)
    && (forall g :: g in held ==> exists p :: p in spans && Owns(spans[p], g))
  }

  /** A span that is not in use is linked once, in the bucket of its size; nothing else is linked. */
  ghost predicate LinkedRight(spans: map<Ptr, Span>, lists: seq<seq<Ptr>>) {
    && |lists| == MAX_PAGE_COUNT
    && (forall i :: 0 <= i < |lists| ==> NoDup(lists[i]))
    && (forall i, p {:trigger p in lists[i]} :: 0 <= i < |lists| ==>
          (p in lists[i] <==> p in spans && !spans[p].inUse && spans[p].count == i + 1))
    && (forall p :: p in spans && !spans[p].inUse ==> 1 <= spans[p].count <= MAX_PAGE_COUNT)
  }

  /** The map leads from both end pages of any span, and from every page of a handed-out span of at most 128
      pages, to that span; it has no entry for a page that is not held. */
  ghost predicate MapRight(spans: map<Ptr, Span>, tags: map<Page, Ptr>, held: set<Page>) {
    && (forall p :: p in spans ==> spans[p].count >= 1 && TagAt(tags, spans[p].first, p) && TagAt(tags, Last(spans[p]), p))
    && (forall p, g {:trigger Owns(spans[p], g)} :: p in spans && spans[p].inUse && spans[p].count <= MAX_PAGE_COUNT && Owns(spans[p], g)
          ==> TagAt(tags, g, p))
    && tags.Keys <= held
  }

  ghost predicate Sound(st: Pages, held: set<Page>) {
    Partition(st.spans, held) && LinkedRight(st.spans, st.lists) && MapRight(st.spans, st.tags, held)
  }

  lemma PartitionOf(spans: map<Ptr, Span>, own: map<Page, Ptr>, linked: set<Ptr>)
    requires OwnersOk(spans, own) && MarksOk(spans, linked, {})
    ensures Partition(spans, own.Keys)
  {
    forall p, q | p in spans && q in spans && p != q
      ensures spans[p].first + spans[p].count <= spans[q].first || spans[q].first + spans[q].count <= spans[p].first
    {
      assert Owns(spans[p], spans[p].first) && Owns(spans[q], spans[q].first);
      assert !Owns(spans[p], spans[q].first) && !Owns(spans[q], spans[p].first);
    }
    forall g | g in own
      ensures exists p :: p in spans && Owns(spans[p], g)
    {
      assert own[g] in spans && Owns(spans[own[g]], g);
    }
  }

  lemma MapOf(spans: map<Ptr, Span>, tags: map<Page, Ptr>, linked: set<Ptr>, held: set<Page>)
    requires TagsOk(spans, tags, linked, {}) && MarksOk(spans, linked, {}) && tags.Keys <= held
    ensures MapRight(spans, tags, held)
  {
    forall p | p in spans
      ensures Tagged(spans[p], p, tags, p in linked)
    {
    }
  }

  lemma GoodIsSound(st: Pages, v: View)
    requires Good(st, v)
    ensures Sound(st, v.own.Keys)
  {
    PartitionOf(st.spans, v.own, v.linked);
    MapOf(st.spans, st.tags, v.linked, v.own.Keys);
  }

  // ----- runs -----------------------------------------------------------------------

  /** The calls a client makes under the page-cache lock: get a span and mark it, or give back a span it was
      given. `os` is the page at which the OS would answer. */
  datatype Call = Get(n: nat, os: Page, blockSize: nat) | GiveBack(p: Ptr)

  /** One call from page cache st with pages `held`. */
  ghost predicate Does(st: Pages, held: set<Page>, c: Call, st': Pages, held': set<Page>) {
    match c
    case Get(n, os, blockSize) =>
      && n >= 1 && HeadsOk(st) && PoolOk(st)
      && (OsPages(st, n) > 0 ==> os >= 1 && Range(os, OsPages(st, n)) !! held)
      && var (st1, p) := Create(st, n, os);
         && p in st1.spans
         && st' == st1.(spans := st1.spans[p := st1.spans[p].(inUse := true, blockSize := blockSize)])
         && held' == held + Range(os, OsPages(st, n))
    case GiveBack(p) =>
      && p in st.spans && st.spans[p].inUse
      && st' == RecoverClean(st, p) && held' == HeldAfter(held, st.spans[p])
  }

  /** A run of calls from the start, with the states and page sets it passes through. */
  ghost predicate Run(states: seq<Pages>, helds: seq<set<Page>>, calls: seq<Call>) {
    && |states| == |helds| == |calls| + 1 && states[0] == Empty() && helds[0] == {}
    && forall i {:trigger calls[i]} :: 0 <= i < |calls| ==> Does(states[i], helds[i], calls[i], states[i + 1], helds[i + 1])
  }

  ghost predicate Reached(st: Pages) {
    exists states, helds, calls :: Run(states, helds, calls) && states[|calls|] == st
  }

  lemma GetKeeps(st: Pages, v: View, n: nat, os: Page, blockSize: nat, st': Pages, held': set<Page>) returns (v': View)
    requires Good(st, v) && Does(st, v.own.Keys, Get(n, os, blockSize), st', held')
    ensures Good(st', v') && v'.own.Keys == held'
  {
    hide Inv, PoolOk, HeadsOk, Create, KeepsOthers, OsPages, WasAvailable;
    var (st1, p) := Create(st, n, os);
    var i;
    v', i := CreateServes(st, v, n, os, st1, p);
    LooseUnlinked(st1, v', p);
    MarkKeeps(st1, st', p, st'.spans[p], v', {p}, {});
    assert {p} - {p} == {};
  }

  lemma LooseUnlinked(st: Pages, v: View, p: Ptr)
    requires Inv(st, v, {p}, {})
    ensures p !in v.linked
  {
  }

  lemma UsedUnlinked(st: Pages, v: View, p: Ptr)
    requires Good(st, v) && p in st.spans && st.spans[p].inUse
    ensures p !in v.linked
  {
  }

  lemma CallKeeps(st: Pages, v: View, c: Call, st': Pages, held': set<Page>) returns (v': View)
    requires Good(st, v) && Does(st, v.own.Keys, c, st', held')
    ensures Good(st', v') && v'.own.Keys == held'
  {
    hide Good, KeepsOthers;
    match c
    case Get(n, os, blockSize) => v' := GetKeeps(st, v, n, os, blockSize, st', held');
    case GiveBack(p) =>
      UsedUnlinked(st, v, p);
      v' := RecoverCleanKeeps(st, v, p, st');
  }

  /** Whatever is asked for and given back, in any order: the page cache stays sound for exactly the pages
      obtained from the OS and not returned to it. */
  lemma {:induction false} RunsAreSound(states: seq<Pages>, helds: seq<set<Page>>, calls: seq<Call>) returns (v: View)
    requires Run(states, helds, calls)
    ensures Good(states[|calls|], v) && v.own.Keys == helds[|calls|]
    ensures Sound(states[|calls|], helds[|calls|])
    decreases |calls|
  {
    hide Good, Does, Sound;
    if calls == [] {
      EmptyIsGood();
      v := View(map[], {});
    } else {
      var n := |calls| - 1;
      var v0 := RunsAreSound(states[..n + 1], helds[..n + 1], calls[..n]);
      v := CallKeeps(states[n], v0, calls[n], states[n + 1], helds[n + 1]);
    }
    GoodIsSound(states[|calls|], v);
  }

  // ----- what each call of a run does ---------------------------------------------------

  function FreeOf(spans: map<Ptr, Span>): set<Interval> { set q | q in spans && !spans[q].inUse :: IntervalOf(spans[q]) }

  function UsedOf(spans: map<Ptr, Span>): map<Ptr, Span> { map q | q in spans && spans[q].inUse :: spans[q] }

  /** n pages are cut off a least free run that is large enough, or off a new one if there is none. */
  ghost predicate Gets(st: Pages, held: set<Page>, n: nat, os: Page, blockSize: nat, st': Pages, held': set<Page>, p: Ptr, i: Interval) {
    var free := FreeOf(st.spans);
    && BestRun(free, n, os, i) && (Fits(free, n) ==> IsHead(st, i))
    && FreeOf(st'.spans) == CutFrom(free, i, n) && (i.count > n ==> IsHead(st', Interval(i.first + n, i.count - n)))
    && p !in UsedOf(st.spans) && UsedOf(st'.spans) == UsedOf(st.spans)[p := Span(i.first, n, blockSize, true)]
    && held' == held + if Fits(free, n) then {} else Range(os, i.count)
  }

  /** The span's pages go back to the OS if there are more than 128; otherwise they join the free runs next to them
      as far as 128 pages allow, on the left first, and the result stands first in its bucket. */
  ghost predicate GivesBack(st: Pages, held: set<Page>, p: Ptr, st': Pages, held': set<Page>) {
    && p in UsedOf(st.spans) && UsedOf(st'.spans) == UsedOf(st.spans) - {p}
    && var i := IntervalOf(st.spans[p]);
       if i.count > MAX_PAGE_COUNT then FreeOf(st'.spans) == FreeOf(st.spans) && held' == held - Range(i.first, i.count)
       else
         && held' == held && p in st'.spans && IsHead(st', IntervalOf(st'.spans[p]))
         && Joined(FreeOf(st.spans), i, FreeOf(st'.spans), IntervalOf(st'.spans[p]))
  }

  ghost predicate Means(st: Pages, held: set<Page>, c: Call, st': Pages, held': set<Page>) {
    match c
    case Get(n, os, blockSize) => exists p, i :: Gets(st, held, n, os, blockSize, st', held', p, i)
    case GiveBack(p) => GivesBack(st, held, p, st', held')
  }

  lemma FreeIsLinked(st: Pages, v: View)
    requires Good(st, v)
    ensures FreeRuns(st.spans, v.linked) == FreeOf(st.spans)
    ensures forall q :: q in UsedOf(st.spans) <==> q in st.spans && q !in v.linked
    ensures forall q :: q in v.linked ==> q in st.spans
  {
    hide PoolOk, OwnersOk, TagsOk;
    assert forall q :: q in v.linked && q in st.spans <==> q in st.spans && !st.spans[q].inUse;
  }

  /** The spans in use, from the frame condition on all spans but p. */
  lemma UsedKept(st: Pages, v: View, st': Pages, v': View, p: Ptr)
    requires Good(st, v) && Good(st', v') && KeepsOthers(st.spans, v.linked, st'.spans, v'.linked, p)
    ensures UsedOf(st'.spans) - {p} == UsedOf(st.spans) - {p}
  {
    FreeIsLinked(st, v);
    FreeIsLinked(st', v');
    hide Inv, KeepsOthers, UsedOf;
    UsedEqual(st.spans, v.linked, st'.spans, v'.linked, p);
  }

  lemma UsedEqual(spans: map<Ptr, Span>, linked: set<Ptr>, spans': map<Ptr, Span>, linked': set<Ptr>, p: Ptr)
    requires forall q :: q in UsedOf(spans) <==> q in spans && q !in linked
    requires forall q :: q in UsedOf(spans') <==> q in spans' && q !in linked'
    requires KeepsOthers(spans, linked, spans', linked', p)
    ensures UsedOf(spans') - {p} == UsedOf(spans) - {p}
  {
    forall q
      ensures q in UsedOf(spans') - {p} <==> q in UsedOf(spans) - {p}
      ensures q in UsedOf(spans) - {p} ==> spans[q] == spans'[q]
    {
      assert q != p ==> if q in spans && q !in linked then q in spans' && spans'[q] == spans[q] && q !in linked'
                        else q !in spans' || q in linked';
    }
  }

  lemma GetIs(st: Pages, v: View, n: nat, os: Page, blockSize: nat, st': Pages, held': set<Page>) returns (i: Interval)
    requires Good(st, v) && Does(st, v.own.Keys, Get(n, os, blockSize), st', held')
    ensures Gets(st, v.own.Keys, n, os, blockSize, st', held', Create(st, n, os).1, i)
  {
    hide Inv, PoolOk, HeadsOk, Create, KeepsOthers, OsPages, WasAvailable, FreeRuns, FreeOf, UsedOf, BestRun, CutFrom, Fits, IsHead;
    var (st1, p) := Create(st, n, os);
    var v';
    v', i := CreateServes(st, v, n, os, st1, p);
    LooseUnlinked(st1, v', p);
    MarkKeeps(st1, st', p, st'.spans[p], v', {p}, {});
    assert {p} - {p} == {};
    KeepsMarked(st.spans, v.linked, st1.spans, v'.linked, p, st'.spans[p]);
    UsedKept(st, v, st', v', p);
    FreeIsLinked(st, v);
    FreeIsLinked(st', v');
    RunsBeside(st1.spans, v'.linked, p, st'.spans[p]);
    Counts(st1, v', {p}, {});
    if i.count > n { HeadKept(st1, v'.linked, p, st'.spans[p], Interval(i.first + n, i.count - n)); }
    UsedPlus(UsedOf(st.spans), UsedOf(st'.spans), p, st'.spans[p]) by { InUsed(st'.spans, p); }
    assert Range(os, 0) == {};
  }

  lemma HeadKept(st: Pages, linked: set<Ptr>, p: Ptr, s: Span, i: Interval)
    requires BucketsOk(st.spans, st.lists, linked) && p !in linked && IsHead(st, i)
    ensures IsHead(st.(spans := st.spans[p := s]), i)
  {
    assert st.lists[i.count - 1][0] in st.lists[i.count - 1];
  }

  lemma GetMeans(st: Pages, v: View, n: nat, os: Page, blockSize: nat, st': Pages, held': set<Page>)
    requires Good(st, v) && Does(st, v.own.Keys, Get(n, os, blockSize), st', held')
    ensures Means(st, v.own.Keys, Get(n, os, blockSize), st', held')
  {
    hide Good, Gets, Create;
    var i := GetIs(st, v, n, os, blockSize, st', held');
  }

  lemma InUsed(spans: map<Ptr, Span>, p: Ptr)
    requires p in spans && spans[p].inUse
    ensures p in UsedOf(spans) && UsedOf(spans)[p] == spans[p]
  {
  }

  lemma UsedPlus(used: map<Ptr, Span>, used': map<Ptr, Span>, p: Ptr, s: Span)
    requires p !in used && p in used' && used'[p] == s && used' - {p} == used - {p}
    ensures used' == used[p := s]
  {
    forall q | q != p
      ensures q in used <==> q in used'
      ensures q in used ==> used[q] == used'[q]
    {
      assert q in used - {p} <==> q in used' - {p};
      if q in used { assert (used - {p})[q] == (used' - {p})[q]; }
    }
  }

  lemma KeepsMarked(spans: map<Ptr, Span>, linked: set<Ptr>, spans': map<Ptr, Span>, linked': set<Ptr>, p: Ptr, s: Span)
    requires KeepsOthers(spans, linked, spans', linked', p)
    ensures KeepsOthers(spans, linked, spans'[p := s], linked', p)
  {
  }

  lemma GiveBackMeans(st: Pages, v: View, p: Ptr, st': Pages, held': set<Page>)
    requires Good(st, v) && Does(st, v.own.Keys, GiveBack(p), st', held')
    ensures Means(st, v.own.Keys, GiveBack(p), st', held')
  {
    hide Inv, RecoverClean, KeepsOthers, Joined, FreeRuns, FreeOf, UsedOf, Blocked;
    UsedUnlinked(st, v, p);
    var v' := RecoverCleanKeeps(st, v, p, st');
    UsedKept(st, v, st', v', p);
    FreeIsLinked(st, v);
    FreeIsLinked(st', v');
    InUsed(st.spans, p);
    UsedMinus(UsedOf(st.spans), UsedOf(st'.spans), p);
  }

  lemma UsedMinus(used: map<Ptr, Span>, used': map<Ptr, Span>, p: Ptr)
    requires p !in used' && used' - {p} == used - {p}
    ensures used' == used - {p}
  {
    assert used' - {p} == used';
  }

  /** In every run every call does exactly this. */
  lemma EveryCallMeans(states: seq<Pages>, helds: seq<set<Page>>, calls: seq<Call>, k: nat)
    requires Run(states, helds, calls) && k < |calls|
    ensures Means(states[k], helds[k], calls[k], states[k + 1], helds[k + 1])
  {
    hide Good, Does, Sound, Means;
    var v := RunsAreSound(states[..k + 1], helds[..k + 1], calls[..k]);
    match calls[k]
    case Get(n, os, blockSize) => GetMeans(states[k], v, n, os, blockSize, states[k + 1], helds[k + 1]);
    case GiveBack(p) => GiveBackMeans(states[k], v, p, states[k + 1], helds[k + 1]);
  }

  /** The runs of a sound page cache do not overlap, so that `JoinedOnce` applies to a span in use. */
  lemma FreeRunsApart(st: Pages, held: set<Page>, p: Ptr)
    requires Sound(st, held) && p in UsedOf(st.spans)
    ensures RunsApart(FreeOf(st.spans), IntervalOf(st.spans[p]))
  {
    CountsOf(st.spans, st.tags, held);
    hide MapRight, Partition, LinkedRight, FreeOf;
    InUseOf(st.spans, p);
    RunsOf(st.spans, held, p);
  }

  lemma CountsOf(spans: map<Ptr, Span>, tags: map<Page, Ptr>, held: set<Page>)
    requires MapRight(spans, tags, held)
    ensures forall q :: q in spans ==> spans[q].count >= 1
  {
  }

  lemma InUseOf(spans: map<Ptr, Span>, p: Ptr)
    requires p in UsedOf(spans)
    ensures p in spans && spans[p].inUse
  {
  }

  lemma RunsOf(spans: map<Ptr, Span>, held: set<Page>, p: Ptr)
    requires Partition(spans, held) && p in spans && spans[p].inUse && forall q :: q in spans ==> spans[q].count >= 1
    ensures RunsApart(FreeOf(spans), IntervalOf(spans[p]))
  {
    forall j, k, g | j in FreeOf(spans) && k in FreeOf(spans) && Has(j, g) && Has(k, g)
      ensures j == k
    {
      var q :| q in spans && !spans[q].inUse && j == IntervalOf(spans[q]);
      var r :| r in spans && !spans[r].inUse && k == IntervalOf(spans[r]);
    }
  }

  /** A concrete stale entry: a run of 129 pages goes back to the OS, its map entries stay. */
  lemma StaleEntryStays()
    ensures var s := Span(1, 129, MAX_ALLOC_BYTES + 1, true);
            var st := Pages(map[0 := s], EmptyLists(MAX_PAGE_COUNT), TagEnds(map[], s, 0), [], 1);
            && Good(st, View(TagRange(map[], 1, 129, 0), {}))
            && TagAt(Recover(st, 0).tags, 1, 0) && 0 !in Recover(st, 0).spans
  {
    var s := Span(1, 129, MAX_ALLOC_BYTES + 1, true);
    var st := Pages(map[0 := s], EmptyLists(MAX_PAGE_COUNT), TagEnds(map[], s, 0), [], 1);
    var own := TagRange(map[], 1, 129, 0);
    assert OwnersOk(st.spans, own);
    assert TagsOk(st.spans, st.tags, {}, {});
  }
}
