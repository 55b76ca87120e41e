/** The page cache as the source writes it: an object whose fields are updated in place, with
    tagging, search and merge loops. Every method is proved to compute the functions of
    PageModel. The page-cache lock is held by the caller of each method. */
module PageCache {
  import opened SizeClasses
  import opened PageModel
  import opened PageInvariant
  import opened PageIntervals
  import opened PageCreate
  import opened PageRecover

  class PageCache {
    var spans: map<Ptr, Span>    // span objects, by address
    var lists: seq<seq<Ptr>>     // _m_span_lists
    var tags: map<Page, Ptr>     // _m_page_span_map
    var dead: seq<Ptr>           // free list of _m_span_pool
    var bump: Ptr                // next unused address of _m_span_pool

    ghost function Abs(): Pages
      reads this
    {
      Pages(spans, lists, tags, dead, bump)
    }

    constructor ()
      ensures Abs() == Empty()
      ensures Good(Abs(), View(map[], {}))
    {
      spans, tags, dead, bump := map[], map[], [], 0;
      lists := EmptyLists(MAX_PAGE_COUNT);
      new;
      assert Abs() == Empty();
      EmptyIsGood();
    }

    method NewSpan() returns (p: Ptr)
      modifies this
      ensures (Abs(), p) == New(old(Abs()))
    {
      if dead != [] {
        p := dead[0];
        dead := dead[1..];
      } else {
        p := bump;
        bump := bump + 1;
      }
    }

    method TagAll(first: Page, count: nat, p: Ptr)
      modifies this`tags
      ensures tags == TagRange(old(tags), first, count, p)
    {
      for i := 0 to count
        invariant tags == TagRange(old(tags), first, i, p)
      {
        tags := tags[first + i := p];
      }
    }

    /** `os` is the page the OS would answer with. At most one refill is needed: afterwards the last
        bucket is not empty. */
    method CreateSpan(n: nat, os: Page, ghost v: View) returns (p: Ptr)
      requires n >= 1 && Good(Abs(), v)
      requires OsPages(Abs(), n) > 0 ==> Fresh(v.own, os, OsPages(Abs(), n))
      modifies this
      ensures HeadsOk(old(Abs())) && PoolOk(old(Abs()))
      ensures (Abs(), p) == Create(old(Abs()), n, os)
      ensures exists v', i :: Served(old(Abs()), v, n, Range(os, OsPages(old(Abs()), n)), Abs(), v', p)
                           && ServedFrom(old(Abs()), v.linked, n, os, Abs(), v'.linked, p, i)
    {
      GoodHeads(Abs(), v, {}, {});
      p := Serve(n, os);
      ghost var v', i := CreateServes(old(Abs()), v, n, os, Abs(), p);
    }

    method ServeBig(n: nat, os: Page) returns (p: Ptr)
      requires n >= 1
      modifies this
      ensures (Abs(), p) == CreateBig(old(Abs()), n, os)
    {
      p := NewSpan();
      spans := spans[p := NEW_SPAN.(first := os, count := n, blockSize := MAX_ALLOC_BYTES + 1)];
      tags := tags[spans[p].first := p];
      tags := tags[spans[p].first + spans[p].count - 1 := p];
    }

    method ServeExact(n: nat) returns (p: Ptr)
      requires 1 <= n <= |lists| && lists[n - 1] != [] && lists[n - 1][0] in spans
      modifies this
      ensures (Abs(), p) == TakeExact(old(Abs()), n)
    {
      p := lists[n - 1][0];
      lists := lists[n - 1 := lists[n - 1][1..]];
      TagAll(spans[p].first, spans[p].count, p);
    }

    method ServeSplit(n: nat, i: nat) returns (p: Ptr)
      requires n >= 1 && n - 1 < i < |lists| && lists[i] != [] && lists[i][0] in spans
      requires spans[lists[i][0]].count == i + 1 && PoolOk(Abs())
      modifies this
      ensures (Abs(), p) == Split(old(Abs()), n, i)
    {
      var whole := lists[i][0];
      p := CutSpan(n, i);
      RelinkSpan(whole, p);
    }

    /** Takes the span out of its bucket and cuts its first n pages off. */
    method CutSpan(n: nat, i: nat) returns (p: Ptr)
      requires n >= 1 && n - 1 < i < |lists| && lists[i] != [] && lists[i][0] in spans
      requires spans[lists[i][0]].count == i + 1 && PoolOk(Abs())
      modifies this
      ensures (Abs(), p) == CutHead(old(Abs()), n, i)
      ensures old(lists[i][0]) in spans && p in spans && p != old(lists[i][0])
      ensures spans[old(lists[i][0])].count == i + 1 - n && |lists| == |old(lists)|
    {
      var whole := lists[i][0];
      lists := lists[i := lists[i][1..]];
      NewIsFresh(Abs(), NEW_SPAN);
      p := NewSpan();
      var s := spans[whole];
      spans := spans[p := NEW_SPAN.(first := s.first, count := n)];
      spans := spans[whole := s.(first := s.first + n, count := s.count - n)];
    }

    /** Links the rest and tags both parts. */
    method RelinkSpan(whole: Ptr, p: Ptr)
      requires whole in spans && p in spans && 1 <= spans[whole].count <= |lists|
      modifies this
      ensures Abs() == Relink(old(Abs()), whole, p)
    {
      var left := spans[whole].count;
      lists := lists[left - 1 := [whole] + lists[left - 1]];
      tags := tags[spans[whole].first := whole];
      tags := tags[spans[whole].first + left - 1 := whole];
      TagAll(spans[p].first, spans[p].count, p);
    }

    method RefillFromOs(os: Page)
      requires |lists| == MAX_PAGE_COUNT
      modifies this
      ensures Abs() == Refill(old(Abs()), os)
    {
      var p := NewSpan();
      spans := spans[p := NEW_SPAN.(first := os, count := MAX_PAGE_COUNT)];
      lists := lists[MAX_PAGE_COUNT - 1 := [p] + lists[MAX_PAGE_COUNT - 1]];
    }

    /** The body of `create_pc_span`; it runs once more after a refill. */
    method Serve(n: nat, os: Page) returns (p: Ptr)
      requires n >= 1 && HeadsOk(Abs()) && PoolOk(Abs())
      modifies this
      ensures (Abs(), p) == Create(old(Abs()), n, os)
      decreases n <= MAX_PAGE_COUNT && FirstFit(lists, n - 1) == MAX_PAGE_COUNT
    {
      if n > MAX_PAGE_COUNT {
        p := ServeBig(n, os);
        return;
      }
      if lists[n - 1] != [] {
        FirstFitIs(lists, n - 1, n - 1);
        p := ServeExact(n);
        return;
      }
      for i := n - 1 to MAX_PAGE_COUNT
        invariant Abs() == old(Abs())
        invariant forall k :: n - 1 <= k < i ==> lists[k] == []
      {
        if lists[i] != [] {
          FirstFitIs(lists, n - 1, i);
          p := ServeSplit(n, i);
          return;
        }
      }
      FirstFitIs(lists, n - 1, MAX_PAGE_COUNT);
      RefillHeads(Abs(), os);
      RefillFromOs(os);
      FirstFitIs(lists, n - 1, MAX_PAGE_COUNT - 1);
      p := Serve(n, os);
    }

    /** The body of a merge loop: span `q` is swallowed by `p`. */
    method AbsorbSpan(p: Ptr, q: Ptr, first: Page)
      requires p in spans && q in spans && p != q && 1 <= spans[q].count <= |lists|
      modifies this
      ensures Abs() == Absorb(old(Abs()), p, q, first)
    {
      spans := spans[p := spans[p].(first := first, count := spans[p].count + spans[q].count)];
      var b := spans[q].count - 1;
      lists := lists[b := Without(lists[b], q)];
      spans := spans - {q};
      dead := [q] + dead;
    }

    /** The left merge loop. The lookups are safe because the map, stale entries and all, is right
        about the pages next to a span. */
    method MergeLeftLoop(p: Ptr, ghost v: View) returns (ghost v': View)
      requires Inv(Abs(), v, {p}, {p}) && p in spans && spans[p].count <= MAX_PAGE_COUNT
      modifies this
      ensures Abs() == MergeLeft(old(Abs()), p) && Merged(old(Abs()), v, Abs(), v', p)
    {
      hide PoolOk, BucketsOk, MarksOk, OwnersOk, TagsOk, KeepsOthers, Grown, FreeRuns;
      v' := v;
      MergedRefl(Abs(), v, p);
      while true
        invariant Merged(old(Abs()), v, Abs(), v', p)
        invariant MergeLeft(Abs(), p) == MergeLeft(old(Abs()), p)
        decreases spans.Keys
      {
        FirstPositive(Abs(), v', p);
        var g := spans[p].first - 1;
        NeighbourLookup(Abs(), v', {p}, p, g);
        if g !in tags { break; }
        var q := tags[g];
        if spans[q].inUse { break; }
        if spans[q].count + spans[p].count > MAX_PAGE_COUNT { break; }
        FreeSpanFacts(Abs(), v', p, q);
        ghost var st, v0 := Abs(), v';
        LooseFacts(st, v0, p);
        v' := MergeLeftStep(st, v0, p, AbsorbLeft(st, p));
        AbsorbSpan(p, q, spans[q].first);
        MergedTrans(old(Abs()), v, st, v0, Abs(), v', p);
      }
    }

    /** The right merge loop. */
    method MergeRightLoop(p: Ptr, ghost v: View) returns (ghost v': View)
      requires Inv(Abs(), v, {p}, {p}) && p in spans && spans[p].count <= MAX_PAGE_COUNT
      modifies this
      ensures Abs() == MergeRight(old(Abs()), p) && Merged(old(Abs()), v, Abs(), v', p)
    {
      hide PoolOk, BucketsOk, MarksOk, OwnersOk, TagsOk, KeepsOthers, Grown, FreeRuns;
      v' := v;
      MergedRefl(Abs(), v, p);
      while true
        invariant Merged(old(Abs()), v, Abs(), v', p)
        invariant MergeRight(Abs(), p) == MergeRight(old(Abs()), p)
        decreases spans.Keys
      {
        var g := spans[p].first + spans[p].count;
        NeighbourLookup(Abs(), v', {p}, p, g);
        if g !in tags { break; }
        var q := tags[g];
        if spans[q].inUse { break; }
        if spans[q].count + spans[p].count > MAX_PAGE_COUNT { break; }
        FreeSpanFacts(Abs(), v', p, q);
        ghost var st, v0 := Abs(), v';
        LooseFacts(st, v0, p);
        v' := MergeRightStep(st, v0, p, AbsorbRight(st, p));
        AbsorbSpan(p, q, spans[p].first);
        MergedTrans(old(Abs()), v, st, v0, Abs(), v', p);
      }
    }

    /** `recover_span_to_page_cache`. A span of more than 128 pages goes back to the OS and its object
        to the pool; its map entries stay, see PageRecover.SourceRecoverIsGood. */
    method Recover(p: Ptr, ghost v: View)
      requires Good(Abs(), v) && p in spans && p !in v.linked
      modifies this
      ensures Abs() == PageModel.Recover(old(Abs()), p)
      ensures old(spans[p].count) <= MAX_PAGE_COUNT ==> exists v' :: Recovered(old(Abs()), v, Abs(), v', p)
      ensures old(spans[p].count) > MAX_PAGE_COUNT ==>
                spans == old(spans) - {p} && dead == [p] + old(dead) && lists == old(lists) && tags == old(tags) && bump == old(bump)
    {
      hide Inv, PoolOk, BucketsOk, MarksOk, OwnersOk, TagsOk, KeepsOthers, Grown, FreeRuns, Blocked, Recovered, RecoverSmall;
      if spans[p].count > MAX_PAGE_COUNT {
        spans := spans - {p};
        dead := [p] + dead;
      } else {
        ghost var v' := RecoverAndMerge(p, v);
      }
    }

    method RecoverAndMerge(p: Ptr, ghost v: View) returns (ghost v': View)
      requires Good(Abs(), v) && p in spans && p !in v.linked && spans[p].count <= MAX_PAGE_COUNT
      modifies this
      ensures Abs() == RecoverSmall(old(Abs()), p)
      ensures Recovered(old(Abs()), v, Abs(), v', p)
    {
      hide Inv, KeepsOthers, Grown, FreeRuns, Blocked, Recovered;
      Loosen(Abs(), v, p);
      v' := MergeLeftLoop(p, v);
      v' := MergeRightLoop(p, v');
      LooseFacts(Abs(), v', p);
      FinishSpan(p);
      v' := RecoverSmallKeeps(old(Abs()), v, p, Abs());
    }

    method FinishSpan(p: Ptr)
      requires p in spans && 1 <= spans[p].count <= |lists|
      modifies this
      ensures Abs() == Finish(old(Abs()), p)
    {
      var b := spans[p].count - 1;
      lists := lists[b := [p] + lists[b]];
      spans := spans[p := spans[p].(inUse := false)];
      tags := tags[spans[p].first := p];
      tags := tags[spans[p].first + spans[p].count - 1 := p];
    }

    /** `find_span_by_address`: any address inside a handed-out span of at most 128 pages, and the first
        address of a larger one, finds that span. */
    method FindSpan(address: nat, ghost v: View) returns (r: Ptr)
      requires Good(Abs(), v)
      requires address / PAGE in v.own
      requires var p := v.own[address / PAGE];
               p !in v.linked && (spans[p].count <= MAX_PAGE_COUNT || address / PAGE == spans[p].first)
      ensures r == v.own[address / PAGE]
    {
      var g := address / PAGE;
      assert Owns(spans[v.own[g]], g);
      assert Tagged(spans[v.own[g]], v.own[g], tags, false);
      r := tags[g];
    }
  }
}
