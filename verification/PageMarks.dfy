/** A direct span is handed out without its mark: which recoveries of other spans delete it. */
module PageMarks {
  import opened SizeClasses
  import opened PageModel
  import opened PageInvariant
  import opened PageCreate
  import opened PageRecover
  import opened PageRuns

  // ----- a direct span without its mark -----------------------------------------------

  /** `tnc_malloc` as written takes a direct span and does not mark it. The invariant then fails for every
      way of seeing the span: it is neither in use nor on any list. It holds exactly if the mark is set. */
  lemma DirectNeedsMark(st: Pages, v: View, p: Ptr, inUse: bool)
    requires Inv(st, v, {p}, {}) && p in st.spans && !st.spans[p].inUse
    ensures var st' := st.(spans := st.spans[p := st.spans[p].(inUse := inUse)]);
            (exists v': View :: Good(st', v') && v'.own == v.own) <==> inUse
  {
    var st' := st.(spans := st.spans[p := st.spans[p].(inUse := inUse)]);
    LooseUnlinked(st, v, p);
    if inUse {
      MarkKeeps(st, st', p, st'.spans[p], v, {p}, {});
      assert {p} - {p} == {};
      assert Good(st', v);
    } else {
      NotListed(st, v, p);
      if v': View :| Good(st', v') && v'.own == v.own {
        GoodListed(st', v', p);
      }
    }
  }

  lemma NotListed(st: Pages, v: View, p: Ptr)
    requires Inv(st, v, {p}, {})
    ensures forall i :: 0 <= i < |st.lists| ==> p !in st.lists[i]
  {
  }

  lemma GoodListed(st: Pages, v: View, p: Ptr)
    requires Good(st, v) && p in st.spans && !st.spans[p].inUse
    ensures 0 <= st.spans[p].count - 1 < |st.lists| && p in st.lists[st.spans[p].count - 1]
  {
  }

  /** The merge loops only remove spans. */
  lemma {:induction false} MergeLeftShrinks(st: Pages, p: Ptr)
    ensures MergeLeft(st, p).spans.Keys <= st.spans.Keys
    decreases st.spans.Keys
  {
    if LeftMerges(st, p) {
      MergeLeftShrinks(AbsorbLeft(st, p), p);
    }
  }

  lemma {:induction false} MergeRightShrinks(st: Pages, p: Ptr)
    ensures MergeRight(st, p).spans.Keys <= st.spans.Keys
    decreases st.spans.Keys
  {
    if RightMerges(st, p) {
      MergeRightShrinks(AbsorbRight(st, p), p);
    }
  }

  // ----- every recovery, exactly --------------------------------------------------------

  /** The same page cache with the mark of span q missing. */
  function Unmarked(st: Pages, q: Ptr): Pages
    requires q in st.spans
  {
    st.(spans := st.spans[q := st.spans[q].(inUse := false)])
  }

  /** q ends where p begins, and the two fit into one span. */
  predicate FitsLeft(st: Pages, p: Ptr, q: Ptr) {
    && p in st.spans && q in st.spans && st.spans[q].first + st.spans[q].count == st.spans[p].first
    && st.spans[q].count + st.spans[p].count <= MAX_PAGE_COUNT
  }

  predicate FitsRight(st: Pages, p: Ptr, q: Ptr) {
    && p in st.spans && q in st.spans && st.spans[q].first == st.spans[p].first + st.spans[p].count
    && st.spans[q].count + st.spans[p].count <= MAX_PAGE_COUNT
  }

  /** The page before p leads to q exactly if q lies there. */
  lemma TagLeft(st: Pages, v: View, p: Ptr, q: Ptr)
    requires Inv(st, v, {p}, {p}) && p in st.spans && q in st.spans && p != q && st.spans[p].first >= 1
    ensures TagAt(st.tags, st.spans[p].first - 1, q) <==> st.spans[q].first + st.spans[q].count == st.spans[p].first
  {
    hide PoolOk, BucketsOk, MarksOk, OwnersOk, TagsOk;
    var g := st.spans[p].first - 1;
    NeighbourLookup(st, v, {p}, p, g);
    if st.spans[q].first + st.spans[q].count == st.spans[p].first {
      EndTag(st.spans, st.tags, v.linked, {p}, q, g);
    }
  }

  lemma TagRight(st: Pages, v: View, p: Ptr, q: Ptr)
    requires Inv(st, v, {p}, {p}) && p in st.spans && q in st.spans && p != q
    ensures TagAt(st.tags, st.spans[p].first + st.spans[p].count, q) <==> st.spans[q].first == st.spans[p].first + st.spans[p].count
  {
    hide PoolOk, BucketsOk, MarksOk, OwnersOk, TagsOk;
    var g := st.spans[p].first + st.spans[p].count;
    NeighbourLookup(st, v, {p}, p, g);
    if st.spans[q].first == g {
      EndTag(st.spans, st.tags, v.linked, {p}, q, g);
    }
  }

  lemma SpanFacts(st: Pages, v: View, p: Ptr, q: Ptr)
    requires Inv(st, v, {p}, {p}) && p in st.spans && q in st.spans
    ensures st.spans[p].first >= 1 && st.spans[q].count >= 1 && |st.lists| == MAX_PAGE_COUNT
  {
  }

  /** A turn of the left loop does not look at the mark of q. */
  lemma LeftTurn(st: Pages, p: Ptr, q: Ptr)
    requires LeftMerges(st, p) && q in st.spans && p != q && st.spans[q].inUse
    ensures LeftMerges(Unmarked(st, q), p) && q in AbsorbLeft(st, p).spans
    ensures AbsorbLeft(Unmarked(st, q), p) == Unmarked(AbsorbLeft(st, p), q)
  {
    var o := st.tags[st.spans[p].first - 1];
    AbsorbUnmarked(st, p, q, o, st.spans[o].first);
  }

  /** Where the left loop stops, the missing mark makes it go on exactly if q is there and fits. */
  lemma LeftStop(st: Pages, p: Ptr, q: Ptr)
    requires !LeftMerges(st, p) && p in st.spans && q in st.spans && p != q && st.spans[q].inUse
    requires st.spans[p].first >= 1 && st.spans[q].count >= 1 && |st.lists| == MAX_PAGE_COUNT
    requires TagAt(st.tags, st.spans[p].first - 1, q) <==> st.spans[q].first + st.spans[q].count == st.spans[p].first
    ensures LeftMerges(Unmarked(st, q), p) <==> FitsLeft(st, p, q)
    ensures FitsLeft(st, p, q) ==> q !in AbsorbLeft(Unmarked(st, q), p).spans
  {
  }

  lemma RightTurn(st: Pages, p: Ptr, q: Ptr)
    requires RightMerges(st, p) && q in st.spans && p != q && st.spans[q].inUse
    ensures RightMerges(Unmarked(st, q), p) && q in AbsorbRight(st, p).spans
    ensures AbsorbRight(Unmarked(st, q), p) == Unmarked(AbsorbRight(st, p), q)
  {
    AbsorbUnmarked(st, p, q, st.tags[st.spans[p].first + st.spans[p].count], st.spans[p].first);
  }

  lemma RightStop(st: Pages, p: Ptr, q: Ptr)
    requires !RightMerges(st, p) && p in st.spans && q in st.spans && p != q && st.spans[q].inUse
    requires st.spans[q].count >= 1 && |st.lists| == MAX_PAGE_COUNT
    requires TagAt(st.tags, st.spans[p].first + st.spans[p].count, q) <==> st.spans[q].first == st.spans[p].first + st.spans[p].count
    ensures RightMerges(Unmarked(st, q), p) <==> FitsRight(st, p, q)
    ensures FitsRight(st, p, q) ==> q !in AbsorbRight(Unmarked(st, q), p).spans
  {
  }

  /** Without the mark the left loop does the same, unless it stops at q and the two fit: then it deletes q. */
  lemma {:induction false} LeftWithoutMark(st: Pages, v: View, p: Ptr, q: Ptr)
    requires Inv(st, v, {p}, {p}) && p in st.spans && q in st.spans && p != q && st.spans[q].inUse
    ensures q in MergeLeft(st, p).spans
    ensures if FitsLeft(MergeLeft(st, p), p, q) then q !in MergeLeft(Unmarked(st, q), p).spans
            else MergeLeft(Unmarked(st, q), p) == Unmarked(MergeLeft(st, p), q)
    decreases st.spans.Keys
  {
    hide Inv, KeepsOthers, CanMerge, AbsorbLeft, FitsLeft, Merged, TagAt;
    SpanFacts(st, v, p, q);
    if LeftMerges(st, p) {
      LeftTurn(st, p, q);
      var v1 := MergeLeftStep(st, v, p, AbsorbLeft(st, p));
      KeptBy(st, v, AbsorbLeft(st, p), v1, p, q);
      LeftWithoutMark(AbsorbLeft(st, p), v1, p, q);
    } else {
      TagLeft(st, v, p, q);
      LeftStop(st, p, q);
      if FitsLeft(st, p, q) {
        MergeLeftShrinks(AbsorbLeft(Unmarked(st, q), p), p);
      }
    }
  }

  lemma {:induction false} RightWithoutMark(st: Pages, v: View, p: Ptr, q: Ptr)
    requires Inv(st, v, {p}, {p}) && p in st.spans && q in st.spans && p != q && st.spans[q].inUse
    ensures q in MergeRight(st, p).spans
    ensures if FitsRight(MergeRight(st, p), p, q) then q !in MergeRight(Unmarked(st, q), p).spans
            else MergeRight(Unmarked(st, q), p) == Unmarked(MergeRight(st, p), q)
    decreases st.spans.Keys
  {
    hide Inv, KeepsOthers, CanMerge, AbsorbRight, FitsRight, Merged, TagAt;
    SpanFacts(st, v, p, q);
    if RightMerges(st, p) {
      RightTurn(st, p, q);
      var v1 := MergeRightStep(st, v, p, AbsorbRight(st, p));
      KeptBy(st, v, AbsorbRight(st, p), v1, p, q);
      RightWithoutMark(AbsorbRight(st, p), v1, p, q);
    } else {
      TagRight(st, v, p, q);
      RightStop(st, p, q);
      if FitsRight(st, p, q) {
        MergeRightShrinks(AbsorbRight(Unmarked(st, q), p), p);
      }
    }
  }

  lemma KeptBy(st: Pages, v: View, st1: Pages, v1: View, p: Ptr, q: Ptr)
    requires Inv(st, v, {p}, {p}) && Merged(st, v, st1, v1, p) && q != p && q in st.spans && st.spans[q].inUse
    ensures q in st1.spans && st1.spans[q] == st.spans[q] && Inv(st1, v1, {p}, {p}) && p in st1.spans
  {
    assert q !in v.linked;
    hide PoolOk, BucketsOk, MarksOk, OwnersOk, TagsOk;
  }

  lemma AbsorbUnmarked(st: Pages, p: Ptr, q: Ptr, o: Ptr, first: Page)
    requires p in st.spans && q in st.spans && o in st.spans && p != q && o != q
    requires 1 <= st.spans[o].count <= |st.lists|
    ensures q in Absorb(st, p, o, first).spans
    ensures Absorb(Unmarked(st, q), p, o, first) == Unmarked(Absorb(st, p, o, first), q)
  {
  }

  /** Let q be handed out without its mark, everything else as it should be, and let another span p be given
      back. With m1 and m2 what the loops make of p when q has its mark, q is deleted exactly if it lies left of
      p in m1, or right of p in m2, and fits. Otherwise the missing mark makes no difference. */
  lemma UnmarkedIsSwallowed(st: Pages, v: View, p: Ptr, q: Ptr, m1: Pages, m2: Pages)
    requires Good(st, v) && p in st.spans && q in st.spans && p != q && st.spans[p].inUse && st.spans[q].inUse
    requires m1 == MergeLeft(st, p) && m2 == MergeRight(m1, p)
    ensures q in Recover(st, p).spans
    ensures if st.spans[p].count <= MAX_PAGE_COUNT && (FitsLeft(m1, p, q) || FitsRight(m2, p, q))
            then q !in Recover(Unmarked(st, q), p).spans
            else Recover(Unmarked(st, q), p) == Unmarked(Recover(st, p), q)
  {
    hide Inv, Good, MergeLeft, MergeRight, FitsLeft, FitsRight, RecoverSmall;
    UsedUnlinked(st, v, p);
    if st.spans[p].count <= MAX_PAGE_COUNT {
      Loosen(st, v, p);
      SmallWithoutMark(st, v, p, q, m1, m2);
      FinishBoth(st, p, q, m2, MergeRight(MergeLeft(Unmarked(st, q), p), p));
    }
  }

  lemma FinishBoth(st: Pages, p: Ptr, q: Ptr, m: Pages, u: Pages)
    requires p in st.spans && q in st.spans && p != q
    requires m == MergeRight(MergeLeft(st, p), p) && u == MergeRight(MergeLeft(Unmarked(st, q), p), p)
    requires p in m.spans && q in m.spans && 1 <= m.spans[p].count <= |m.lists|
    ensures q in RecoverSmall(st, p).spans
    ensures u == Unmarked(m, q) ==> RecoverSmall(Unmarked(st, q), p) == Unmarked(RecoverSmall(st, p), q)
    ensures q !in u.spans ==> q !in RecoverSmall(Unmarked(st, q), p).spans
  {
    hide MergeLeft, MergeRight, Finish;
    FinishUnmarked(m, p, q);
    FinishDeletes(u, p, q);
  }

  lemma SmallWithoutMark(st: Pages, v: View, p: Ptr, q: Ptr, m1: Pages, m2: Pages)
    requires Inv(st, v, {p}, {p}) && p in st.spans && q in st.spans && p != q && st.spans[q].inUse
    requires st.spans[p].count <= MAX_PAGE_COUNT && m1 == MergeLeft(st, p) && m2 == MergeRight(m1, p)
    ensures q in m1.spans && q in m2.spans && p in m2.spans && 1 <= m2.spans[p].count <= |m2.lists|
    ensures if FitsLeft(m1, p, q) || FitsRight(m2, p, q) then q !in MergeRight(MergeLeft(Unmarked(st, q), p), p).spans
            else MergeRight(MergeLeft(Unmarked(st, q), p), p) == Unmarked(m2, q)
  {
    hide Inv, MergeLeft, MergeRight, KeepsOthers, FitsLeft, FitsRight, Merged;
    LeftWithoutMark(st, v, p, q);
    var v1 := MergeLeftKeeps(st, v, p, m1);
    KeptBy(st, v, m1, v1, p, q);
    RightWithoutMark(m1, v1, p, q);
    var v2 := MergesKeep(st, v, p, m2);
    KeptBy(st, v, m2, v2, p, q);
    LooseFacts(m2, v2, p);
    MergedSmall(st, v, m2, v2, p);
    if FitsLeft(m1, p, q) {
      MergeRightShrinks(MergeLeft(Unmarked(st, q), p), p);
    }
  }

  lemma FinishUnmarked(st: Pages, p: Ptr, q: Ptr)
    requires p in st.spans && q in st.spans && p != q && 1 <= st.spans[p].count <= |st.lists|
    ensures q in Finish(st, p).spans && Finish(Unmarked(st, q), p) == Unmarked(Finish(st, p), q)
  {
  }

  lemma FinishDeletes(st: Pages, p: Ptr, q: Ptr)
    requires p != q
    ensures q !in st.spans && p in st.spans && 1 <= st.spans[p].count <= |st.lists| ==> q !in Finish(st, p).spans
  {
  }

  lemma MergedSmall(st: Pages, v: View, st1: Pages, v1: View, p: Ptr)
    requires Merged(st, v, st1, v1, p)
    ensures p in st1.spans && st1.spans[p].count <= MAX_PAGE_COUNT
  {
  }

  // ----- the guard on the request ---------------------------------------------------------

  /** In any state at all, marked or not, sound or not: a span of at least 128 pages is never merged away. */
  lemma {:induction false} LongLeft(st: Pages, p: Ptr, q: Ptr)
    requires p != q && q in st.spans && st.spans[q].count >= MAX_PAGE_COUNT && p in st.spans && st.spans[p].count >= 1
    ensures q in MergeLeft(st, p).spans && MergeLeft(st, p).spans[q] == st.spans[q]
    ensures p in MergeLeft(st, p).spans ==> MergeLeft(st, p).spans[p].count >= 1
    decreases st.spans.Keys
  {
    if LeftMerges(st, p) && p in AbsorbLeft(st, p).spans {
      LongLeft(AbsorbLeft(st, p), p, q);
    }
  }

  lemma {:induction false} LongRight(st: Pages, p: Ptr, q: Ptr)
    requires p != q && q in st.spans && st.spans[q].count >= MAX_PAGE_COUNT
    requires p in st.spans ==> st.spans[p].count >= 1
    ensures q in MergeRight(st, p).spans && MergeRight(st, p).spans[q] == st.spans[q]
    decreases st.spans.Keys
  {
    if RightMerges(st, p) {
      LongRight(AbsorbRight(st, p), p, q);
    }
  }

  lemma LongSpanSurvives(st: Pages, p: Ptr, q: Ptr)
    requires p != q && p in st.spans && q in st.spans
    requires st.spans[q].count >= MAX_PAGE_COUNT && st.spans[p].count >= 1
    ensures q in Recover(st, p).spans && Recover(st, p).spans[q] == st.spans[q]
  {
    if st.spans[p].count <= MAX_PAGE_COUNT {
      LongLeft(st, p, q);
      LongRight(MergeLeft(st, p), p, q);
    }
  }

  /** A marked span is never swallowed. */
  lemma MarkedIsSafe(st: Pages, v: View, q: Ptr, p: Ptr, st': Pages) returns (v': View)
    requires Good(st, v) && q in st.spans && p in st.spans && p != q && st.spans[q].inUse && st.spans[p].inUse
    requires st' == RecoverClean(st, p)
    ensures Good(st', v') && q in st'.spans && st'.spans[q] == st.spans[q]
  {
    hide Good;
    UsedUnlinked(st, v, p);
    UsedUnlinked(st, v, q);
    v' := RecoverCleanKeeps(st, v, p, st');
  }

  // ----- runs that delete a live span -----------------------------------------------------

  /** The page cache after a first call for n pages that found page 1 at the OS. */
  function AfterFirst(n: nat, blockSize: nat, inUse: bool): Pages
    requires 1 <= n < MAX_PAGE_COUNT
  {
    var rest := Span(n + 1, MAX_PAGE_COUNT - n, 0, false);
    Pages(map[0 := rest, 1 := Span(1, n, blockSize, inUse)],
          EmptyLists(MAX_PAGE_COUNT)[MAX_PAGE_COUNT - n - 1 := [0]],
          TagRange(TagEnds(map[], rest, 0), 1, n, 1), [], 2)
  }

  function RefilledFirst(): Pages {
    Pages(map[0 := Span(1, 128, 0, false)], EmptyLists(MAX_PAGE_COUNT)[127 := [0]], map[], [], 1)
  }

  /** The refilled cache has the run of 128 pages in its last bucket. */
  lemma FirstRefill()
    ensures Refill(Empty(), 1) == RefilledFirst()
  {
    assert Empty().lists[127] == [] && [0] + Empty().lists[127] == [0];
  }

  lemma FirstSplit(n: nat)
    requires 1 <= n < MAX_PAGE_COUNT
    ensures Split(RefilledFirst(), n, 127) == (AfterFirst(n, 0, false), 1)
  {
    var (c, q) := CutHead(RefilledFirst(), n, 127);
    assert q == 1 && c.spans == map[0 := Span(n + 1, 128 - n, 0, false), 1 := Span(1, n, 0, false)];
    assert RefilledFirst().lists[127][1..] == [] && c.lists == EmptyLists(MAX_PAGE_COUNT);
    assert [0] + EmptyLists(MAX_PAGE_COUNT)[127 - n] == [0];
  }

  lemma EmptyState(n: nat)
    requires 1 <= n < MAX_PAGE_COUNT
    ensures HeadsOk(Empty()) && PoolOk(Empty()) && |Empty().lists| == MAX_PAGE_COUNT
    ensures FirstFit(Empty().lists, n - 1) == MAX_PAGE_COUNT
  {
    FirstFitIs(Empty().lists, n - 1, MAX_PAGE_COUNT);
  }

  lemma FirstCall(n: nat)
    requires 1 <= n < MAX_PAGE_COUNT
    ensures HeadsOk(Empty()) && PoolOk(Empty()) && OsPages(Empty(), n) == MAX_PAGE_COUNT
    ensures Create(Empty(), n, 1) == (AfterFirst(n, 0, false), 1)
  {
    EmptyState(n);
    hide AfterFirst, Split, Refill, EmptyLists, FirstFit, HeadsOk, PoolOk, Empty;
    FirstRefill();
    FirstSplit(n);
  }

  lemma FirstState(n: nat, blockSize: nat, inUse: bool)
    requires 1 <= n < MAX_PAGE_COUNT
    ensures HeadsOk(AfterFirst(n, blockSize, inUse)) && PoolOk(AfterFirst(n, blockSize, inUse))
    ensures FirstFit(AfterFirst(n, blockSize, inUse).lists, 0) == MAX_PAGE_COUNT - n - 1
  {
    FirstFitIs(AfterFirst(n, blockSize, inUse).lists, 0, MAX_PAGE_COUNT - n - 1);
  }

  /** The next call for one page is served from the rest of the run. */
  lemma SecondCall(n: nat, blockSize: nat, inUse: bool, st: Pages, p: Ptr)
    requires 1 <= n < MAX_PAGE_COUNT && HeadsOk(AfterFirst(n, blockSize, inUse)) && PoolOk(AfterFirst(n, blockSize, inUse))
    requires (st, p) == Create(AfterFirst(n, blockSize, inUse), 1, 0)
    ensures OsPages(AfterFirst(n, blockSize, inUse), 1) == 0
    ensures p != 1 && p in st.spans && 1 in st.spans
    ensures st.spans[p] == Span(n + 1, 1, 0, false) && st.spans[1] == Span(1, n, blockSize, inUse)
  {
    FirstState(n, blockSize, inUse);
    var a := AfterFirst(n, blockSize, inUse);
    assert (st, p) == TakeFrom(a, 1, MAX_PAGE_COUNT - n - 1);
  }

  function Marked(st: Pages, p: Ptr): Pages
    requires p in st.spans
  {
    st.(spans := st.spans[p := st.spans[p].(inUse := true, blockSize := 8)])
  }

  /** The marked run: n pages, then one page from the rest. */
  lemma TwoGets(n: nat, a: Pages, b: Pages, p: Ptr) returns (v: View)
    requires 1 <= n < MAX_PAGE_COUNT && a == AfterFirst(n, 0, true) && HeadsOk(a) && PoolOk(a)
    requires (b, p) == Create(a, 1, 0)
    ensures p in b.spans && Good(Marked(b, p), v)
    ensures Run([Empty(), a, Marked(b, p)], [{}, Range(1, MAX_PAGE_COUNT), Range(1, MAX_PAGE_COUNT)], [Get(n, 1, 0), Get(1, 0, 8)])
  {
    hide Good, AfterFirst, Create, Empty, HeadsOk, PoolOk, OsPages;
    FirstCall(n);
    SecondCall(n, 0, true, b, p);
    FirstMarked(n);
    TwoGetsRun(n, a, b, p);
    v := RunsAreSound([Empty(), a, Marked(b, p)], [{}, Range(1, MAX_PAGE_COUNT), Range(1, MAX_PAGE_COUNT)],
                      [Get(n, 1, 0), Get(1, 0, 8)]);
  }

  lemma FirstMarked(n: nat)
    requires 1 <= n < MAX_PAGE_COUNT
    ensures var st := AfterFirst(n, 0, false);
            1 in st.spans && AfterFirst(n, 0, true) == st.(spans := st.spans[1 := st.spans[1].(inUse := true, blockSize := 0)])
  {
  }

  lemma TwoGetsRun(n: nat, a: Pages, b: Pages, p: Ptr)
    requires HeadsOk(Empty()) && PoolOk(Empty()) && HeadsOk(a) && PoolOk(a) && n >= 1
    requires OsPages(Empty(), n) == MAX_PAGE_COUNT && OsPages(a, 1) == 0
    requires var (st1, q) := Create(Empty(), n, 1);
             q in st1.spans && a == st1.(spans := st1.spans[q := st1.spans[q].(inUse := true, blockSize := 0)])
    requires (b, p) == Create(a, 1, 0) && p in b.spans
    ensures Run([Empty(), a, Marked(b, p)], [{}, Range(1, MAX_PAGE_COUNT), Range(1, MAX_PAGE_COUNT)], [Get(n, 1, 0), Get(1, 0, 8)])
  {
    hide Create, Empty, HeadsOk, PoolOk, OsPages;
    var os := Range(1, MAX_PAGE_COUNT);
    assert {} + os == os && os + Range(0, 0) == os;
    assert Does(Empty(), {}, Get(n, 1, 0), a, os);
    assert Does(a, os, Get(1, 0, 8), Marked(b, p), os);
  }

  lemma LeftBlocked(st: Pages, p: Ptr, q: Ptr)
    requires p in st.spans && q in st.spans && st.spans[q].inUse && st.spans[p].first >= 1
    requires TagAt(st.tags, st.spans[p].first - 1, q)
    ensures MergeLeft(st, p) == st
  {
  }

  /** Without its mark a span right before p is deleted if the two fit. */
  lemma LeftNeighbourGoes(st: Pages, v: View, p: Ptr, q: Ptr)
    requires Good(st, v) && p in st.spans && q in st.spans && p != q && st.spans[p].inUse && st.spans[q].inUse
    requires FitsLeft(st, p, q)
    ensures q !in Recover(Unmarked(st, q), p).spans
  {
    hide Inv, Good, Recover, MergeLeft, MergeRight, TagAt;
    UsedUnlinked(st, v, p);
    Loosen(st, v, p);
    SpanFacts(st, v, p, q);
    TagLeft(st, v, p, q);
    LeftBlocked(st, p, q);
    UnmarkedIsSwallowed(st, v, p, q, st, MergeRight(st, p));
  }

  /** Giving p back when q has lost its mark deletes q, a live span of n pages. */
  ghost predicate Deletes(st: Pages, n: nat, p: Ptr, q: Ptr) {
    && p in st.spans && q in st.spans && p != q && st.spans[p].inUse && st.spans[q].inUse && st.spans[q].count == n
    && q !in Recover(Unmarked(st, q), p).spans
  }

  lemma ShortIsDeleted(n: nat) returns (st: Pages, p: Ptr)
    requires 1 <= n < MAX_PAGE_COUNT
    ensures Reached(st) && Deletes(st, n, p, 1)
  {
    hide AfterFirst, Create, HeadsOk, PoolOk, Recover, Good, Run, Inv;
    FirstState(n, 0, true);
    var a := AfterFirst(n, 0, true);
    var (b, o) := Create(a, 1, 0);
    SecondCall(n, 0, true, b, o);
    var v := TwoGets(n, a, b, o);
    st, p := Marked(b, o), o;
    assert [Empty(), a, st][|[Get(n, 1, 0), Get(1, 0, 8)]|] == st;
    LeftNeighbourGoes(st, v, p, 1);
  }

  lemma ReachedIsGood(st: Pages) returns (v: View)
    requires Reached(st)
    ensures Good(st, v)
  {
    hide Good, Sound;
    var states, helds, calls :| Run(states, helds, calls) && states[|calls|] == st;
    v := RunsAreSound(states, helds, calls);
  }

  lemma LongIsSafe(st: Pages, n: nat, p: Ptr, q: Ptr)
    requires Reached(st) && n >= MAX_PAGE_COUNT
    ensures !Deletes(st, n, p, q)
  {
    hide Good, Recover, Reached;
    if Deletes(st, n, p, q) {
      var v := ReachedIsGood(st);
      CountPositive(st, v, p);
      LongSpanSurvives(Unmarked(st, q), p, q);
    }
  }

  /** A direct span of n pages can lose its pages to a later recovery exactly if n < 128: those are the direct
      requests above 256 KB and up to 508 KB. */
  lemma DirectSurvivesExactly(n: nat)
    requires n >= 1
    ensures (exists st, p, q :: Reached(st) && Deletes(st, n, p, q)) <==> n < MAX_PAGE_COUNT
  {
    hide Deletes, Reached;
    if n < MAX_PAGE_COUNT {
      var st, p := ShortIsDeleted(n);
    } else {
      forall st, p, q | Reached(st)
        ensures !Deletes(st, n, p, q)
      {
        LongIsSafe(st, n, p, q);
      }
    }
  }

  lemma CountPositive(st: Pages, v: View, p: Ptr)
    requires Good(st, v) && p in st.spans
    ensures st.spans[p].count >= 1
  {
  }

  /** Serving a call does not look at the mark of a span that is not at the head of the bucket. */
  lemma TakeUnmarked(st: Pages, q: Ptr, n: nat, i: nat)
    requires PoolOk(st) && q in st.spans && 1 <= n && n - 1 <= i < |st.lists| && st.lists[i] != []
    requires st.lists[i][0] in st.spans && st.spans[st.lists[i][0]].count == i + 1 && st.lists[i][0] != q
    ensures q in TakeFrom(st, n, i).0.spans
    ensures TakeFrom(Unmarked(st, q), n, i) == (Unmarked(TakeFrom(st, n, i).0, q), TakeFrom(st, n, i).1)
  {
    if i > n - 1 {
      CutUnmarked(st, q, n, i);
    }
  }

  lemma CutUnmarked(st: Pages, q: Ptr, n: nat, i: nat)
    requires PoolOk(st) && q in st.spans && 1 <= n && n - 1 < i < |st.lists| && st.lists[i] != []
    requires st.lists[i][0] in st.spans && st.spans[st.lists[i][0]].count == i + 1 && st.lists[i][0] != q
    ensures q in CutHead(st, n, i).0.spans
    ensures CutHead(Unmarked(st, q), n, i) == (Unmarked(CutHead(st, n, i).0, q), CutHead(st, n, i).1)
    ensures CutHead(st, n, i).1 != q
  {
    assert st.dead != [] ==> st.dead[0] in st.dead;
    var (c, o) := CutHead(st, n, i);
    var (u, _) := CutHead(Unmarked(st, q), n, i);
    assert u.spans == Unmarked(c, q).spans;
  }

  lemma SecondUnmarked(n: nat)
    requires 1 <= n < MAX_PAGE_COUNT
    ensures var a, u := AfterFirst(n, 0, true), AfterFirst(n, 0, false);
            && HeadsOk(a) && PoolOk(a) && HeadsOk(u) && PoolOk(u)
            && 1 in Create(a, 1, 0).0.spans && Create(u, 1, 0) == (Unmarked(Create(a, 1, 0).0, 1), Create(a, 1, 0).1)
  {
    FirstState(n, 0, true);
    FirstState(n, 0, false);
    var a, u, i := AfterFirst(n, 0, true), AfterFirst(n, 0, false), MAX_PAGE_COUNT - n - 1;
    assert u == Unmarked(a, 1) && a.lists[i] == [0];
    TakeUnmarked(a, 1, 1, i);
    hide TakeFrom;
  }

  /** The same as the source runs it from the start: n pages are handed out directly and not marked, then a
      span of one page is handed out, marked and given back. This deletes the direct span. */
  lemma DirectSpanIsSwallowed(n: nat)
    requires 1 <= n < MAX_PAGE_COUNT
    ensures HeadsOk(Empty()) && PoolOk(Empty())
    ensures var (st1, q) := Create(Empty(), n, 1);
            && HeadsOk(st1) && PoolOk(st1)
            && var (st2, p) := Create(st1, 1, 0);
               && p in st2.spans && q in st2.spans && p != q && st2.spans[q] == Span(1, n, 0, false)
               && q !in Recover(Marked(st2, p), p).spans
  {
    hide AfterFirst, Create, Empty, HeadsOk, PoolOk, Recover, Good, Run, Inv;
    SecondUnmarked(n);
    FirstCall(n);
    var a, u := AfterFirst(n, 0, true), AfterFirst(n, 0, false);
    var (b, p) := Create(a, 1, 0);
    SecondCall(n, 0, true, b, p);
    SecondCall(n, 0, false, Unmarked(b, 1), p);
    var v := TwoGets(n, a, b, p);
    LeftNeighbourGoes(Marked(b, p), v, p, 1);
    assert Marked(Unmarked(b, 1), p) == Unmarked(Marked(b, p), 1);
  }
}
