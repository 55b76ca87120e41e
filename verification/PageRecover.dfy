/** `recover_span_to_page_cache` keeps the page-cache invariant: merge loops, linking, return to the OS. */
module PageRecover {
  import opened Common
  import opened SizeClasses
  import opened PageModel
  import opened PageInvariant
  import opened PageIntervals
  import opened PageCreate

  /** The page before (after) `p` belongs to nobody, to a span in use, or to one too big to merge. */
  ghost predicate NeighbourBlocks(st: Pages, own: map<Page, Ptr>, p: Ptr, g: Page)
    requires p in st.spans
  {
    g in own ==> own[g] in st.spans &&
                 (st.spans[own[g]].inUse || st.spans[own[g]].count + st.spans[p].count > MAX_PAGE_COUNT)
  }

  ghost predicate Blocked(st: Pages, own: map<Page, Ptr>, p: Ptr) {
    && p in st.spans && st.spans[p].first >= 1
    && NeighbourBlocks(st, own, p, st.spans[p].first - 1)
    && NeighbourBlocks(st, own, p, st.spans[p].first + st.spans[p].count)
  }

  lemma NeighbourEnds(spans: map<Ptr, Span>, own: map<Page, Ptr>, p: Ptr, g: Page)
    requires OwnersOk(spans, own) && p in spans && spans[p].count >= 1 && g in own
    requires g + 1 == spans[p].first || g == spans[p].first + spans[p].count
    ensures var q := own[g];
            && q in spans && q != p && Owns(spans[q], g)
            && (if g < spans[p].first then spans[q].first + spans[q].count == spans[p].first
                else spans[q].first == spans[p].first + spans[p].count)
  {
    var a, b := spans[p], spans[own[g]];
    assert !Owns(a, g);
    assert Owns(a, a.first) && Owns(a, Last(a));
    assert !Owns(b, a.first) && !Owns(b, Last(a));
  }

  /** Whatever stale entries the map holds, the page next to a span is mapped to the span that
      really owns it, and that span ends there. */
  lemma NeighbourLookup(st: Pages, v: View, loose: set<Ptr>, p: Ptr, g: Page)
    requires Inv(st, v, loose, {p}) && p in st.spans
    requires g + 1 == st.spans[p].first || g == st.spans[p].first + st.spans[p].count
    ensures g in st.tags <==> g in v.own
    ensures g in v.own ==>
              var q := v.own[g];
              && q in st.spans && q != p && st.tags[g] == q
              && (if g < st.spans[p].first then st.spans[q].first + st.spans[q].count == st.spans[p].first
                  else st.spans[q].first == st.spans[p].first + st.spans[p].count)
  {
    if g in v.own {
      NeighbourEnds(st.spans, v.own, p, g);
      EndTag(st.spans, st.tags, v.linked, {p}, v.own[g], g);
    }
  }

  lemma EndTag(spans: map<Ptr, Span>, tags: map<Page, Ptr>, linked: set<Ptr>, x: set<Ptr>, q: Ptr, g: Page)
    requires TagsOk(spans, tags, linked, x) && q in spans && q !in x
    requires g == spans[q].first || g + 1 == spans[q].first + spans[q].count
    ensures g in tags && tags[g] == q
  {
    assert Tagged(spans[q], q, tags, q in linked);
  }

  lemma WithoutNoDup(s: seq<Ptr>, p: Ptr)
    requires NoDup(s)
    ensures NoDup(Without(s, p))
  {
    if s != [] {
      PopIsUnlink(s);
      WithoutNoDup(s[1..], p);
      PushNoDup(Without(s[1..], p), s[0]);
    }
  }

  /** The others keep their order. */
  lemma {:induction false} WithoutAt(s: seq<Ptr>, i: nat)
    requires NoDup(s) && i < |s|
    ensures Without(s, s[i]) == s[..i] + s[i + 1..]
  {
    PopIsUnlink(s);
    var rest := s[1..];
    if i == 0 {
      WithoutNone(rest, s[0]);
      assert s[..0] + rest == rest;
    } else {
      WithoutAt(rest, i - 1);
      hide NoDup;
      assert s[0] != rest[i - 1] by { assert rest[i - 1] in rest; }
      assert [s[0]] + (rest[..i - 1] + rest[i..]) == s[..i] + s[i + 1..];
    }
  }

  lemma {:induction false} WithoutNone(s: seq<Ptr>, p: Ptr)
    requires p !in s
    ensures Without(s, p) == s
  {
    if s != [] {
      WithoutNone(s[1..], p);
    }
  }

  lemma WithoutBucket(spans: map<Ptr, Span>, lists: seq<seq<Ptr>>, linked: set<Ptr>, b: nat, q: Ptr)
    requires BucketsOk(spans, lists, linked) && b < |lists|
    ensures NoDup(Without(lists[b], q))
  {
    WithoutNoDup(lists[b], q);
  }

  lemma PushNoDup<T>(s: seq<T>, p: T)
    requires NoDup(s) && p !in s
    ensures NoDup([p] + s)
  {
  }

  lemma PoolAfterMerge(st: Pages, p: Ptr, q: Ptr, s: Span)
    requires PoolOk(st) && p in st.spans && q in st.spans && p != q
    ensures PoolOk(Delete(st.(spans := st.spans[p := s]), q))
  {
    PushNoDup(st.dead, q);
  }

  /** One turn of a merge loop. */
  lemma AbsorbKeeps(st: Pages, v: View, p: Ptr, q: Ptr, first: Page, s: Span)
    requires Inv(st, v, {p}, {p}) && p in st.spans && p != q && q in v.linked && q in st.spans
    requires 1 <= st.spans[q].count <= |st.lists|
    requires s == st.spans[p].(first := first, count := st.spans[p].count + st.spans[q].count)
    requires Joins(st.spans[p], st.spans[q], s)
    ensures Inv(Absorb(st, p, q, first),
                View(TagRange(v.own, st.spans[q].first, st.spans[q].count, p), v.linked - {q}), {p}, {p})
  {
    hide PoolOk, BucketsOk, MarksOk, OwnersOk, TagsOk, NoDup;
    var b := st.spans[q].count - 1;
    WithoutBucket(st.spans, st.lists, v.linked, b, q);
    var st1 := st.(lists := st.lists[b := Without(st.lists[b], q)]);
    UnlinkKeeps(st, st1, q, Without(st.lists[b], q), v, {p}, {p});
    PoolAfterMerge(st1, p, q, s);
    MergeKeeps(st1, Absorb(st, p, q, first), p, q, s, v.(linked := v.linked - {q}), {p} + {q}, {p} + {q});
    PairMinus(p, q);
  }

  lemma PairMinus(p: Ptr, q: Ptr)
    requires p != q
    ensures {p} + {q} - {q} == {p}
  {
  }

  /** What the merge loops keep: the page set, spans in use, everything of `p` but its interval, which has taken in
      whole free runs. */
  ghost predicate Merged(st: Pages, v: View, st': Pages, v': View, p: Ptr) {
    && Inv(st', v', {p}, {p})
    && p in st.spans && p in st'.spans && st'.spans[p].count <= MAX_PAGE_COUNT
    && st'.spans[p] == st.spans[p].(first := st'.spans[p].first, count := st'.spans[p].count)
    && v'.own.Keys == v.own.Keys
    && KeepsOthers(st.spans, v.linked, st'.spans, v'.linked, p)
    && Grown(FreeRuns(st.spans, v.linked), IntervalOf(st.spans[p]), FreeRuns(st'.spans, v'.linked), IntervalOf(st'.spans[p]))
  }

  lemma MergedRefl(st: Pages, v: View, p: Ptr)
    requires Inv(st, v, {p}, {p}) && p in st.spans && st.spans[p].count <= MAX_PAGE_COUNT
    ensures Merged(st, v, st, v, p)
  {
    Counts(st, v, {p}, {p});
    GrownRefl(st.spans, v.own, v.linked, p);
    hide FreeRuns, Grown, Inv;
  }

  lemma MergedTrans(st: Pages, v: View, st1: Pages, v1: View, st2: Pages, v2: View, p: Ptr)
    requires Merged(st, v, st1, v1, p) && Merged(st1, v1, st2, v2, p)
    ensures Merged(st, v, st2, v2, p)
  {
    hide Inv, Grown, FreeRuns;
    GrownTrans(FreeRuns(st.spans, v.linked), IntervalOf(st.spans[p]), FreeRuns(st1.spans, v1.linked), IntervalOf(st1.spans[p]),
               FreeRuns(st2.spans, v2.linked), IntervalOf(st2.spans[p]));
    KeepsTrans(st.spans, v.linked, st1.spans, v1.linked, st2.spans, v2.linked, p);
  }

  lemma KeepsTrans(a: map<Ptr, Span>, la: set<Ptr>, b: map<Ptr, Span>, lb: set<Ptr>, c: map<Ptr, Span>, lc: set<Ptr>, p: Ptr)
    requires KeepsOthers(a, la, b, lb, p) && KeepsOthers(b, lb, c, lc, p)
    ensures KeepsOthers(a, la, c, lc, p)
  {
  }

  lemma AbsorbGrown(st: Pages, v: View, p: Ptr, q: Ptr, first: Page, s: Span)
    requires Inv(st, v, {p}, {p}) && p in st.spans && p != q && q in v.linked && q in st.spans
    requires 1 <= st.spans[q].count <= |st.lists| && Joins(st.spans[p], st.spans[q], s)
    requires s == st.spans[p].(first := first, count := st.spans[p].count + st.spans[q].count)
    ensures Grown(FreeRuns(st.spans, v.linked), IntervalOf(st.spans[p]),
                  FreeRuns(Absorb(st, p, q, first).spans, v.linked - {q}), IntervalOf(s))
  {
    Counts(st, v, {p}, {p});
    MergingUnlinked(st, v, p);
    AbsorbSpans(st, p, q, first, s);
    hide Inv, Absorb;
    AbsorbGrows(st.spans, v.own, v.linked, p, q, s);
    hide Grown, FreeRuns;
  }

  lemma MergingUnlinked(st: Pages, v: View, p: Ptr)
    requires Inv(st, v, {p}, {p})
    ensures p !in v.linked
  {
  }

  lemma AbsorbSpans(st: Pages, p: Ptr, q: Ptr, first: Page, s: Span)
    requires p in st.spans && q in st.spans && 1 <= st.spans[q].count <= |st.lists|
    requires s == st.spans[p].(first := first, count := st.spans[p].count + st.spans[q].count)
    ensures Absorb(st, p, q, first).spans == st.spans[p := s] - {q}
  {
  }

  lemma AbsorbMerged(st: Pages, v: View, p: Ptr, q: Ptr, first: Page) returns (v': View)
    requires Inv(st, v, {p}, {p}) && p in st.spans && p != q && q in v.linked && q in st.spans
    requires 1 <= st.spans[q].count <= |st.lists| && st.spans[q].count + st.spans[p].count <= MAX_PAGE_COUNT
    requires Joins(st.spans[p], st.spans[q],
                   st.spans[p].(first := first, count := st.spans[p].count + st.spans[q].count))
    ensures Merged(st, v, Absorb(st, p, q, first), v', p)
    ensures v'.own == TagRange(v.own, st.spans[q].first, st.spans[q].count, p)
    ensures q !in Absorb(st, p, q, first).spans
  {
    var s := st.spans[p].(first := first, count := st.spans[p].count + st.spans[q].count);
    var st1 := Absorb(st, p, q, first);
    Counts(st, v, {p}, {p});
    hide Inv, BucketsOk, OwnersOk, Grown, FreeRuns, KeepsOthers, Absorb, WasAvailable, Joins, Merged;
    v' := View(TagRange(v.own, st.spans[q].first, st.spans[q].count, p), v.linked - {q});
    AbsorbSpans(st, p, q, first, s);
    AbsorbGrown(st, v, p, q, first, s);
    AbsorbKeeps(st, v, p, q, first, s);
    SubRange(st.spans, v.own, v.linked, q, st.spans[q], p);
    KeepsButMerged(st.spans, v.linked, p, q, s, st1.spans);
    MergedIs(st, v, st1, v', p, s);
  }

  lemma MergedIs(st: Pages, v: View, st1: Pages, v1: View, p: Ptr, s: Span)
    requires Inv(st1, v1, {p}, {p}) && p in st.spans && p in st1.spans && st1.spans[p] == s && s.count <= MAX_PAGE_COUNT
    requires s == st.spans[p].(first := s.first, count := s.count) && v1.own.Keys == v.own.Keys
    requires KeepsOthers(st.spans, v.linked, st1.spans, v1.linked, p)
    requires Grown(FreeRuns(st.spans, v.linked), IntervalOf(st.spans[p]), FreeRuns(st1.spans, v1.linked), IntervalOf(s))
    ensures Merged(st, v, st1, v1, p)
  {
    hide Inv, KeepsOthers, Grown, FreeRuns;
  }

  lemma KeepsButMerged(spans: map<Ptr, Span>, linked: set<Ptr>, p: Ptr, q: Ptr, s: Span, spans': map<Ptr, Span>)
    requires q in linked && p != q && spans' == spans[p := s] - {q}
    ensures KeepsOthers(spans, linked, spans', linked - {q}, p) && p in spans' && spans'[p] == s && q !in spans'
  {
  }

  lemma FreeSpanFacts(st: Pages, v: View, p: Ptr, q: Ptr)
    requires Inv(st, v, {p}, {p}) && q in st.spans && q != p && !st.spans[q].inUse
    ensures q in v.linked && 1 <= st.spans[q].count <= |st.lists| && st.spans[q].first >= 1
  {
  }

  lemma MergeLeftStep(st: Pages, v: View, p: Ptr, st1: Pages) returns (v1: View)
    requires Inv(st, v, {p}, {p}) && LeftMerges(st, p) && st1 == AbsorbLeft(st, p)
    ensures Merged(st, v, st1, v1, p)
    ensures st1.spans[p].first + st1.spans[p].count == st.spans[p].first + st.spans[p].count
    ensures st1.spans.Keys < st.spans.Keys
  {
    hide Inv, PoolOk, BucketsOk, MarksOk, OwnersOk, TagsOk, KeepsOthers, Merged;
    var g := st.spans[p].first - 1;
    NeighbourLookup(st, v, {p}, p, g);
    var q := st.tags[g];
    FreeSpanFacts(st, v, p, q);
    v1 := AbsorbMerged(st, v, p, q, st.spans[q].first);
  }

  lemma MergeRightStep(st: Pages, v: View, p: Ptr, st1: Pages) returns (v1: View)
    requires Inv(st, v, {p}, {p}) && RightMerges(st, p) && st1 == AbsorbRight(st, p)
    ensures Merged(st, v, st1, v1, p)
    ensures st1.spans[p].first == st.spans[p].first
    ensures st1.spans.Keys < st.spans.Keys
  {
    hide Inv, PoolOk, BucketsOk, MarksOk, OwnersOk, TagsOk, KeepsOthers, Merged;
    var g := st.spans[p].first + st.spans[p].count;
    NeighbourLookup(st, v, {p}, p, g);
    var q := st.tags[g];
    FreeSpanFacts(st, v, p, q);
    v1 := AbsorbMerged(st, v, p, q, st.spans[p].first);
  }

  /** The loops stop where no merge is possible. */
  lemma {:induction false} MergeLeftStops(st: Pages, p: Ptr)
    ensures !LeftMerges(MergeLeft(st, p), p)
    decreases st.spans.Keys
  {
    if LeftMerges(st, p) {
      MergeLeftStops(AbsorbLeft(st, p), p);
    }
  }

  lemma {:induction false} MergeRightStops(st: Pages, p: Ptr)
    ensures !RightMerges(MergeRight(st, p), p)
    decreases st.spans.Keys
  {
    if RightMerges(st, p) {
      MergeRightStops(AbsorbRight(st, p), p);
    }
  }

  lemma {:induction false} MergeLeftKeeps(st: Pages, v: View, p: Ptr, st': Pages) returns (v': View)
    requires Inv(st, v, {p}, {p}) && p in st.spans && st.spans[p].count <= MAX_PAGE_COUNT
    requires st' == MergeLeft(st, p)
    ensures Merged(st, v, st', v', p)
    ensures st'.spans[p].first + st'.spans[p].count == st.spans[p].first + st.spans[p].count
    decreases st.spans.Keys
  {
    hide AbsorbLeft, Inv, KeepsOthers;
    if LeftMerges(st, p) {
      var st1 := AbsorbLeft(st, p);
      assert st' == MergeLeft(st1, p);
      var v1 := MergeLeftStep(st, v, p, st1);
      v' := MergeLeftKeeps(st1, v1, p, st');
      MergedTrans(st, v, st1, v1, st', v', p);
    } else {
      v' := v;
      MergedRefl(st, v, p);
    }
  }

  lemma {:induction false} MergeRightKeeps(st: Pages, v: View, p: Ptr, st': Pages) returns (v': View)
    requires Inv(st, v, {p}, {p}) && p in st.spans && st.spans[p].count <= MAX_PAGE_COUNT
    requires st' == MergeRight(st, p)
    ensures Merged(st, v, st', v', p)
    ensures st'.spans[p].first == st.spans[p].first
    decreases st.spans.Keys
  {
    hide AbsorbRight, Inv, KeepsOthers;
    if RightMerges(st, p) {
      var st1 := AbsorbRight(st, p);
      assert st' == MergeRight(st1, p);
      var v1 := MergeRightStep(st, v, p, st1);
      v' := MergeRightKeeps(st1, v1, p, st');
      MergedTrans(st, v, st1, v1, st', v', p);
    } else {
      v' := v;
      MergedRefl(st, v, p);
    }
  }

  /** Growing to the right cannot enable a merge on the left. */
  lemma LeftStaysBlocked(st: Pages, v: View, p: Ptr, st1: Pages)
    requires Inv(st, v, {p}, {p}) && RightMerges(st, p) && st1 == AbsorbRight(st, p) && st.spans[p].first >= 1
    ensures LeftMerges(st1, p) ==> LeftMerges(st, p)
  {
    hide Inv, PoolOk, BucketsOk, MarksOk, OwnersOk, TagsOk;
    NeighbourLookup(st, v, {p}, p, st.spans[p].first - 1);
    NeighbourLookup(st, v, {p}, p, st.spans[p].first + st.spans[p].count);
  }

  lemma MergesKeep(st: Pages, v: View, p: Ptr, st': Pages) returns (v': View)
    requires Inv(st, v, {p}, {p}) && p in st.spans && st.spans[p].count <= MAX_PAGE_COUNT
    requires st' == MergeRight(MergeLeft(st, p), p)
    ensures Merged(st, v, st', v', p) && !LeftMerges(st', p) && !RightMerges(st', p)
    ensures Joined(FreeRuns(st.spans, v.linked), IntervalOf(st.spans[p]),
                   FreeRuns(st'.spans, v'.linked) + {IntervalOf(st'.spans[p])}, IntervalOf(st'.spans[p]))
  {
    hide Inv, KeepsOthers, LeftMerges, RightMerges, Grown, Joined, FreeRuns;
    var st1 := MergeLeft(st, p);
    var v1 := MergeLeftKeeps(st, v, p, st1);
    MergeLeftStops(st, p);
    NothingLeft(st1, v1, p);
    v' := MergeRightKeeps(st1, v1, p, st');
    MergeRightStops(st1, p);
    NothingRight(st', v', p);
    LeftNeverReopens(st1, v1, p, st');
    MergedTrans(st, v, st1, v1, st', v', p);
    FreePositive(st, v, p);
    LoopsJoin(FreeRuns(st.spans, v.linked), IntervalOf(st.spans[p]), FreeRuns(st1.spans, v1.linked), IntervalOf(st1.spans[p]),
              FreeRuns(st'.spans, v'.linked), IntervalOf(st'.spans[p]));
  }

  lemma FreePositive(st: Pages, v: View, p: Ptr)
    requires Inv(st, v, {p}, {p})
    ensures forall j :: j in FreeRuns(st.spans, v.linked) ==> j.count >= 1
  {
    Counts(st, v, {p}, {p});
  }

  lemma OwnersAt(spans: map<Ptr, Span>, own: map<Page, Ptr>, q: Ptr, g: Page)
    requires OwnersOk(spans, own) && q in spans && In(spans[q].first, spans[q].count, g)
    ensures g in own && own[g] == q
  {
    assert Owns(spans[q], g);
  }

  lemma LinkedIsUnused(st: Pages, v: View, p: Ptr, q: Ptr)
    requires Inv(st, v, {p}, {p}) && q in v.linked
    ensures q in st.spans && !st.spans[q].inUse && st.spans[q].count >= 1 && |st.lists| == MAX_PAGE_COUNT
  {
  }

  /** Where the left loop stops, no free run on the left is small enough. */
  lemma NothingLeft(st: Pages, v: View, p: Ptr)
    requires Inv(st, v, {p}, {p}) && p in st.spans && !LeftMerges(st, p)
    ensures LeftStops(FreeRuns(st.spans, v.linked), IntervalOf(st.spans[p]))
  {
    hide Inv;
    FirstPositive(st, v, p);
    var g := st.spans[p].first - 1;
    NeighbourLookup(st, v, {p}, p, g);
    forall q | q in v.linked && q in st.spans && st.spans[q].first + st.spans[q].count == st.spans[p].first
      ensures st.spans[q].count + st.spans[p].count > MAX_PAGE_COUNT
    {
      LinkedIsUnused(st, v, p, q);
      Counts(st, v, {p}, {p});
      OwnersAt(st.spans, v.own, q, g);
    }
  }

  lemma NothingRight(st: Pages, v: View, p: Ptr)
    requires Inv(st, v, {p}, {p}) && p in st.spans && !RightMerges(st, p)
    ensures RightStops(FreeRuns(st.spans, v.linked), IntervalOf(st.spans[p]))
  {
    hide Inv;
    var g := st.spans[p].first + st.spans[p].count;
    NeighbourLookup(st, v, {p}, p, g);
    forall q | q in v.linked && q in st.spans && st.spans[q].first == g
      ensures st.spans[q].count + st.spans[p].count > MAX_PAGE_COUNT
    {
      LinkedIsUnused(st, v, p, q);
      Counts(st, v, {p}, {p});
      OwnersAt(st.spans, v.own, q, g);
    }
  }

  lemma {:induction false} LeftNeverReopens(st: Pages, v: View, p: Ptr, st': Pages)
    requires Inv(st, v, {p}, {p}) && p in st.spans && !LeftMerges(st, p) && st' == MergeRight(st, p)
    ensures !LeftMerges(st', p)
    decreases st.spans.Keys
  {
    hide AbsorbRight, Inv, KeepsOthers, LeftMerges;
    if RightMerges(st, p) {
      var st1 := AbsorbRight(st, p);
      assert st' == MergeRight(st1, p);
      var v1 := MergeRightStep(st, v, p, st1);
      FirstPositive(st, v, p);
      LeftStaysBlocked(st, v, p, st1);
      LeftNeverReopens(st1, v1, p, st');
    }
  }

  lemma FirstPositive(st: Pages, v: View, p: Ptr)
    requires Inv(st, v, {p}, {p}) && p in st.spans
    ensures st.spans[p].first >= 1 && st.spans[p].count >= 1
  {
  }

  /** Where the loops stop, both neighbours are absent, in use or too big. */
  lemma StoppedIsBlocked(st: Pages, v: View, p: Ptr)
    requires Inv(st, v, {p}, {p}) && p in st.spans && !LeftMerges(st, p) && !RightMerges(st, p)
    ensures Blocked(st, v.own, p)
  {
    hide PoolOk, OwnersOk, TagsOk;
    FirstPositive(st, v, p);
    NeighbourLookup(st, v, {p}, p, st.spans[p].first - 1);
    NeighbourLookup(st, v, {p}, p, st.spans[p].first + st.spans[p].count);
  }

  /** What `recover_span_to_page_cache(p)` promises for a span of at most 128 pages: the same pages are
      held, `p` is free, has merged as far as it can and no further, spans in use are not touched. */
  ghost predicate Recovered(st: Pages, v: View, st': Pages, v': View, p: Ptr) {
    && Good(st', v')
    && p in st.spans && p in v'.linked && p in st'.spans && st'.spans[p].count <= MAX_PAGE_COUNT
    && v'.own.Keys == v.own.Keys
    && Blocked(st', v'.own, p)
    && KeepsOthers(st.spans, v.linked, st'.spans, v'.linked, p)
    && Joined(FreeRuns(st.spans, v.linked), IntervalOf(st.spans[p]), FreeRuns(st'.spans, v'.linked), IntervalOf(st'.spans[p]))
    && IsHead(st', IntervalOf(st'.spans[p]))
  }

  lemma ReAdd(linked: set<Ptr>, p: Ptr)
    requires p !in linked
    ensures linked + {p} - {p} == linked
    ensures {} + {p} == {p}
  {
  }

  lemma FinishKeeps(st: Pages, v: View, p: Ptr)
    requires Inv(st, v, {p}, {p}) && p in st.spans && p !in v.linked && 1 <= st.spans[p].count <= MAX_PAGE_COUNT
    requires |st.lists| == MAX_PAGE_COUNT
    ensures Good(Finish(st, p), v.(linked := v.linked + {p}))
  {
    hide PoolOk, BucketsOk, MarksOk, OwnersOk, TagsOk;
    var st1 := st.(spans := st.spans[p := st.spans[p].(inUse := false)]);
    MarkKeeps(st, st1, p, st1.spans[p], v, {p}, {p});
    ReAdd(v.linked, p);
    ReAdd({}, p);
    assert {p} + {p} == {p};
    LinkTagKeeps(st1, v.(linked := v.linked + {p}), p, {}, {});
  }

  lemma FinishStaysBlocked(st: Pages, own: map<Page, Ptr>, p: Ptr)
    requires Blocked(st, own, p) && 1 <= st.spans[p].count <= |st.lists|
    requires forall g :: g in own ==> own[g] in st.spans
    requires st.spans[p].first - 1 in own ==> own[st.spans[p].first - 1] != p
    requires st.spans[p].first + st.spans[p].count in own ==> own[st.spans[p].first + st.spans[p].count] != p
    ensures Blocked(Finish(st, p), own, p)
  {
  }

  lemma KeepsLink(spans: map<Ptr, Span>, linked: set<Ptr>, spans': map<Ptr, Span>, linked': set<Ptr>, p: Ptr, s: Span)
    requires KeepsOthers(spans, linked, spans', linked', p)
    ensures KeepsOthers(spans, linked, spans'[p := s], linked' + {p}, p)
  {
  }

  lemma Loosen(st: Pages, v: View, p: Ptr)
    requires Good(st, v) && p !in v.linked
    ensures Inv(st, v, {p}, {p})
  {
  }

  /** `recover_span_to_page_cache` keeps its promise from every good state. */
  lemma RecoverSmallKeeps(st: Pages, v: View, p: Ptr, st': Pages) returns (v': View)
    requires Good(st, v) && p in st.spans && p !in v.linked && st.spans[p].count <= MAX_PAGE_COUNT
    requires st' == RecoverSmall(st, p)
    ensures Recovered(st, v, st', v', p)
  {
    hide PoolOk, BucketsOk, MarksOk, OwnersOk, TagsOk, LeftMerges, RightMerges, KeepsOthers, Blocked, Joined, FreeRuns;
    Loosen(st, v, p);
    var st1 := MergeRight(MergeLeft(st, p), p);
    var v1 := MergesKeep(st, v, p, st1);
    StoppedIsBlocked(st1, v1, p);
    LooseFacts(st1, v1, p);
    v' := v1.(linked := v1.linked + {p});
    FinishKeeps(st1, v1, p);
    FinishStaysBlocked(st1, v1.own, p);
    KeepsLink(st.spans, v.linked, st1.spans, v1.linked, p, st1.spans[p].(inUse := false));
    FinishRuns(st1.spans, v1.linked, p);
  }

  lemma FinishRuns(spans: map<Ptr, Span>, linked: set<Ptr>, p: Ptr)
    requires p in spans && p !in linked
    ensures FreeRuns(spans[p := spans[p].(inUse := false)], linked + {p}) == FreeRuns(spans, linked) + {IntervalOf(spans[p])}
  {
    RunsBeside(spans, linked, p, spans[p].(inUse := false));
    RunsPlus(spans[p := spans[p].(inUse := false)], linked, p);
  }

  lemma LooseFacts(st: Pages, v: View, p: Ptr)
    requires Inv(st, v, {p}, {p}) && p in st.spans
    ensures p !in v.linked && st.spans[p].count >= 1 && st.spans[p].first >= 1 && |st.lists| == MAX_PAGE_COUNT
    ensures forall g :: g in v.own ==> v.own[g] in st.spans
    ensures st.spans[p].first - 1 in v.own ==> v.own[st.spans[p].first - 1] != p
    ensures st.spans[p].first + st.spans[p].count in v.own ==> v.own[st.spans[p].first + st.spans[p].count] != p
  {
    FirstPositive(st, v, p);
    NeighbourLookup(st, v, {p}, p, st.spans[p].first - 1);
    NeighbourLookup(st, v, {p}, p, st.spans[p].first + st.spans[p].count);
  }

  lemma DropKeeps(st: Pages, v: View, p: Ptr, tags': map<Page, Ptr>)
    requires Good(st, v) && p in st.spans && p !in v.linked
    requires tags' == st.tags || tags' == st.tags - Range(st.spans[p].first, st.spans[p].count)
    ensures var st' := Delete(st.(tags := tags'), p);
            var own' := v.own - Range(st.spans[p].first, st.spans[p].count);
            && PoolOk(st') && BucketsOk(st'.spans, st'.lists, v.linked) && MarksOk(st'.spans, v.linked, {})
            && OwnersOk(st'.spans, own') && TagsOk(st'.spans, st'.tags, v.linked, {})
  {
    hide PoolOk, BucketsOk, MarksOk, OwnersOk, TagsOk;
    DropRest(st, v.linked, p, tags');
    DropOwners(st.spans, v.own, p);
    DropTags(st.spans, v.own, st.tags, tags', v.linked, p);
  }

  lemma DropRest(st: Pages, linked: set<Ptr>, p: Ptr, tags': map<Page, Ptr>)
    requires PoolOk(st) && BucketsOk(st.spans, st.lists, linked) && MarksOk(st.spans, linked, {})
    requires p in st.spans && p !in linked
    ensures var st' := Delete(st.(tags := tags'), p);
            PoolOk(st') && BucketsOk(st'.spans, st'.lists, linked) && MarksOk(st'.spans, linked, {})
  {
    PushNoDup(st.dead, p);
  }

  lemma DropOwners(spans: map<Ptr, Span>, own: map<Page, Ptr>, p: Ptr)
    requires OwnersOk(spans, own) && p in spans
    ensures OwnersOk(spans - {p}, own - Range(spans[p].first, spans[p].count))
  {
    assert forall g :: g in Range(spans[p].first, spans[p].count) <==> Owns(spans[p], g);
  }

  lemma DropTags(spans: map<Ptr, Span>, own: map<Page, Ptr>, tags: map<Page, Ptr>, tags': map<Page, Ptr>, linked: set<Ptr>, p: Ptr)
    requires OwnersOk(spans, own) && TagsOk(spans, tags, linked, {}) && p in spans
    requires tags' == tags || tags' == tags - Range(spans[p].first, spans[p].count)
    ensures TagsOk(spans - {p}, tags', linked, {})
  {
    forall q | q in spans - {p}
      ensures Tagged(spans[q], q, tags', q in linked)
    {
      var s := spans[q];
      assert Tagged(s, q, tags, q in linked);
      forall g | Owns(s, g) && TagAt(tags, g, q)
        ensures TagAt(tags', g, q)
      {
        assert own[g] == q;
        assert g in Range(spans[p].first, spans[p].count) ==> Owns(spans[p], g);
      }
      assert Owns(s, s.first) && Owns(s, Last(s));
    }
  }

  /** With the entries removed, every recovery keeps the invariant. */
  lemma RecoverCleanKeeps(st: Pages, v: View, p: Ptr, st': Pages) returns (v': View)
    requires Good(st, v) && p in st.spans && p !in v.linked && st' == RecoverClean(st, p)
    ensures Good(st', v') && v'.own.Keys == HeldAfter(v.own.Keys, st.spans[p])
    ensures KeepsOthers(st.spans, v.linked, st'.spans, v'.linked, p) && (p in st'.spans ==> p in v'.linked)
    ensures if st.spans[p].count <= MAX_PAGE_COUNT then Recovered(st, v, st', v', p)
            else p !in st'.spans && FreeRuns(st'.spans, v'.linked) == FreeRuns(st.spans, v.linked)
  {
    hide PoolOk, BucketsOk, MarksOk, OwnersOk, TagsOk, KeepsOthers, FreeRuns, Joined, Blocked;
    var s := st.spans[p];
    if s.count > MAX_PAGE_COUNT {
      RunsBeside(st.spans, v.linked, p, s);
      KeepsDrop(st.spans, v.linked, p);
      DropKeeps(st, v, p, st.tags - Range(s.first, s.count));
      v' := v.(own := v.own - Range(s.first, s.count));
      DropKeys(st.tags.Keys, v.own, Range(s.first, s.count));
    } else {
      v' := RecoverSmallKeeps(st, v, p, st');
    }
  }

  lemma KeepsDrop(spans: map<Ptr, Span>, linked: set<Ptr>, p: Ptr)
    ensures KeepsOthers(spans, linked, spans - {p}, linked, p)
  {
  }

  lemma DropKeys(keys: set<Page>, own: map<Page, Ptr>, gone: set<Page>)
    requires keys <= own.Keys
    ensures keys - gone <= (own - gone).Keys
    ensures (own - gone).Keys == own.Keys - gone
  {
  }

  /** As written, recovery keeps the invariant exactly for spans of at most 128 pages: a larger run is
      given back to the OS, but the map still leads from its end pages to the deleted object. */
  lemma SourceRecoverIsGood(st: Pages, v: View, p: Ptr)
    requires Good(st, v) && p in st.spans && p !in v.linked
    ensures st.spans[p].count <= MAX_PAGE_COUNT <==>
            exists v': View :: Good(Recover(st, p), v') && v'.own.Keys == HeldAfter(v.own.Keys, st.spans[p])
  {
    var s := st.spans[p];
    if s.count > MAX_PAGE_COUNT {
      assert Tagged(s, p, st.tags, false);
      assert In(s.first, s.count, s.first);
      forall v': View | v'.own.Keys == HeldAfter(v.own.Keys, s)
        ensures !(Recover(st, p).tags.Keys <= v'.own.Keys)
      {
        assert s.first !in v'.own.Keys;
      }
    } else {
      var v' := RecoverSmallKeeps(st, v, p, Recover(st, p));
    }
  }
}
