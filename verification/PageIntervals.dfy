/** The free page runs of the page cache, as a set of intervals: what serving and recovering a span do to it,
    whatever span objects and buckets stand for them. */
module PageIntervals {
  import opened SizeClasses
  import opened PageModel
  import opened PageInvariant

  datatype Interval = Interval(first: Page, count: nat)

  function IntervalOf(s: Span): Interval { Interval(s.first, s.count) }

  function FreeRuns(spans: map<Ptr, Span>, linked: set<Ptr>): set<Interval> {
    set q | q in linked && q in spans :: IntervalOf(spans[q])
  }

  /** Run i stands first in its bucket. */
  predicate IsHead(st: Pages, i: Interval) {
    && 1 <= i.count <= |st.lists| && st.lists[i.count - 1] != []
    && var h := st.lists[i.count - 1][0]; h in st.spans && IntervalOf(st.spans[h]) == i
  }

  predicate Fits(free: set<Interval>, n: nat) { exists i :: i in free && n <= i.count }

  /** The run that n pages are cut from: a least one that is large enough, or a new one from the OS. */
  ghost predicate BestRun(free: set<Interval>, n: nat, os: Page, i: Interval) {
    if Fits(free, n) then i in free && n <= i.count && forall j :: j in free && n <= j.count ==> i.count <= j.count
    else i == Interval(os, if n > MAX_PAGE_COUNT then n else MAX_PAGE_COUNT)
  }

  /** Cutting n pages off the front of run i. */
  function CutFrom(free: set<Interval>, i: Interval, n: nat): set<Interval> {
    (free - {i}) + if i.count > n then {Interval(i.first + n, i.count - n)} else {}
  }

  predicate Within(j: Interval, i: Interval) { i.first <= j.first && j.first + j.count <= i.first + i.count }

  predicate Has(i: Interval, g: Page) { i.first <= g < i.first + i.count }

  /** Every page of i' is one of i or of a free run that lies in i'. */
  ghost predicate MadeOf(free: set<Interval>, i: Interval, i': Interval) {
    forall g {:trigger Has(i', g)} :: Has(i', g) ==> Has(i, g) || exists j :: j in free && Within(j, i') && Has(j, g)
  }

  /** Run i has grown to i' by taking in exactly the free runs that lie in i'. */
  ghost predicate Grown(free: set<Interval>, i: Interval, free': set<Interval>, i': Interval) {
    && Within(i, i') && MadeOf(free, i, i')
    && (forall j :: j in free' <==> j in free && !Within(j, i'))
  }

  /** No free run next to run i is small enough to join it. */
  ghost predicate LeftStops(free: set<Interval>, i: Interval) {
    forall j :: j in free && j.first + j.count == i.first ==> j.count + i.count > MAX_PAGE_COUNT
  }

  ghost predicate RightStops(free: set<Interval>, i: Interval) {
    forall j :: j in free && j.first == i.first + i.count ==> j.count + i.count > MAX_PAGE_COUNT
  }

  /** Run i is given back: it grows to the left as far as possible, then to the right as far as possible, and what
      comes out is free. */
  ghost predicate Joined(free: set<Interval>, i: Interval, free': set<Interval>, i': Interval) {
    && Within(i, i') && MadeOf(free, i, i') && i'.count <= MAX_PAGE_COUNT
    && (forall j :: j in free' <==> j == i' || (j in free && !Within(j, i')))
    && LeftStops(free, Interval(i'.first, i.first + i.count - i'.first)) && RightStops(free, i')
  }

  // ----- facts ----------------------------------------------------------------------------

  /** Different spans have different pages. */
  lemma RunsDiffer(spans: map<Ptr, Span>, own: map<Page, Ptr>, p: Ptr, q: Ptr)
    requires OwnersOk(spans, own) && p in spans && q in spans && p != q && spans[p].count >= 1 && spans[q].count >= 1
    ensures var a, b := IntervalOf(spans[p]), IntervalOf(spans[q]);
            a.first + a.count <= b.first || b.first + b.count <= a.first
  {
    var a, b := spans[p], spans[q];
    assert Owns(a, a.first) && Owns(b, b.first);
    assert !Owns(a, b.first) && !Owns(b, a.first);
  }

  lemma RunsWithout(spans: map<Ptr, Span>, own: map<Page, Ptr>, linked: set<Ptr>, p: Ptr)
    requires OwnersOk(spans, own) && p in linked && p in spans && forall q :: q in spans ==> spans[q].count >= 1
    ensures FreeRuns(spans, linked - {p}) == FreeRuns(spans, linked) - {IntervalOf(spans[p])}
  {
    forall q | q in linked && q in spans && q != p
      ensures IntervalOf(spans[q]) != IntervalOf(spans[p])
    {
      RunsDiffer(spans, own, p, q);
    }
  }

  /** A fresh run is none of the free ones. */
  lemma FreshRun(spans: map<Ptr, Span>, own: map<Page, Ptr>, linked: set<Ptr>, os: Page, n: nat)
    requires OwnersOk(spans, own) && Fresh(own, os, n) && n >= 1
    ensures Interval(os, n) !in FreeRuns(spans, linked)
  {
    assert os in Range(os, n);
    forall q | q in linked && q in spans
      ensures IntervalOf(spans[q]) != Interval(os, n)
    {
      assert spans[q].count >= 1 ==> Owns(spans[q], spans[q].first);
    }
  }

  /** What becomes of a span that is not linked does not matter. */
  lemma RunsBeside(spans: map<Ptr, Span>, linked: set<Ptr>, p: Ptr, s: Span)
    requires p !in linked
    ensures FreeRuns(spans[p := s], linked) == FreeRuns(spans, linked)
    ensures FreeRuns(spans - {p}, linked) == FreeRuns(spans, linked)
  {
    assert forall q :: q in linked && q in spans[p := s] <==> q in linked && q in spans;
  }

  lemma RunsPlus(spans: map<Ptr, Span>, linked: set<Ptr>, p: Ptr)
    requires p in spans
    ensures FreeRuns(spans, linked + {p}) == FreeRuns(spans, linked) + {IntervalOf(spans[p])}
  {
  }

  /** One turn of a merge loop. */
  lemma AbsorbGrows(spans: map<Ptr, Span>, own: map<Page, Ptr>, linked: set<Ptr>, p: Ptr, q: Ptr, s: Span)
    requires OwnersOk(spans, own) && p in spans && q in spans && p != q && q in linked && p !in linked
    requires forall r :: r in spans ==> spans[r].count >= 1
    requires Joins(spans[p], spans[q], s)
    ensures Grown(FreeRuns(spans, linked), IntervalOf(spans[p]), FreeRuns(spans[p := s] - {q}, linked - {q}), IntervalOf(s))
  {
    var i' := IntervalOf(s);
    forall r | r in linked && r in spans
      ensures Within(IntervalOf(spans[r]), i') <==> r == q
    {
      RunsDiffer(spans, own, p, r);
      if r != q { RunsDiffer(spans, own, q, r); }
    }
    assert IntervalOf(spans[q]) in FreeRuns(spans, linked);
    assert forall g :: Has(i', g) ==> Has(IntervalOf(spans[p]), g) || Has(IntervalOf(spans[q]), g);
    RunsWithout(spans, own, linked, q);
    RunsBeside(spans, linked - {q}, p, s);
    RunsBeside(spans[p := s], linked - {q}, q, s);
  }

  lemma GrownRefl(spans: map<Ptr, Span>, own: map<Page, Ptr>, linked: set<Ptr>, p: Ptr)
    requires OwnersOk(spans, own) && p in spans && p !in linked && forall r :: r in spans ==> spans[r].count >= 1
    ensures Grown(FreeRuns(spans, linked), IntervalOf(spans[p]), FreeRuns(spans, linked), IntervalOf(spans[p]))
  {
    forall r | r in linked && r in spans
      ensures !Within(IntervalOf(spans[r]), IntervalOf(spans[p]))
    {
      RunsDiffer(spans, own, p, r);
    }
  }

  lemma GrownTrans(a: set<Interval>, i: Interval, b: set<Interval>, j: Interval, c: set<Interval>, k: Interval)
    requires Grown(a, i, b, j) && Grown(b, j, c, k)
    ensures Grown(a, i, c, k)
  {
    forall g | Has(k, g)
      ensures Has(i, g) || exists x :: x in a && Within(x, k) && Has(x, g)
    {
      if !Has(j, g) {
        var x :| x in b && Within(x, k) && Has(x, g);
      } else if !Has(i, g) {
        var x :| x in a && Within(x, j) && Has(x, g);
      }
    }
  }

  /** Both loops and the linking. */
  lemma LoopsJoin(free: set<Interval>, i: Interval, free1: set<Interval>, i1: Interval, free2: set<Interval>, i2: Interval)
    requires Grown(free, i, free1, i1) && i1.first + i1.count == i.first + i.count && LeftStops(free1, i1)
    requires Grown(free1, i1, free2, i2) && i2.first == i1.first && RightStops(free2, i2) && i2.count <= MAX_PAGE_COUNT
    requires forall j :: j in free ==> j.count >= 1
    ensures Joined(free, i, free2 + {i2}, i2)
  {
    GrownTrans(free, i, free1, i1, free2, i2);
  }

  /** Free runs do not overlap each other or the run that is given back. */
  ghost predicate RunsApart(free: set<Interval>, i: Interval) {
    && i.count >= 1 && (forall j :: j in free ==> j.count >= 1)
    && (forall j, g {:trigger j in free, Has(i, g)} :: j in free && Has(i, g) ==> !Has(j, g))
    && (forall j, k, g {:trigger Has(j, g), Has(k, g)} :: j in free && k in free && Has(j, g) && Has(k, g) ==> j == k)
  }

  /** Where x reaches further to the left than y, a free run in x ends where y begins. */
  lemma LeftEdge(free: set<Interval>, i: Interval, x: Interval, y: Interval) returns (j: Interval)
    requires RunsApart(free, i) && Within(i, x) && MadeOf(free, i, x) && Within(i, y) && MadeOf(free, i, y) && x.first < y.first
    ensures j in free && Within(j, x) && j.first + j.count == y.first
  {
    assert Has(x, y.first - 1) && Has(y, y.first);
    j :| j in free && Within(j, x) && Has(j, y.first - 1);
    assert !Has(j, y.first);
  }

  lemma RightEdge(free: set<Interval>, i: Interval, x: Interval, y: Interval) returns (j: Interval)
    requires RunsApart(free, i) && Within(i, x) && MadeOf(free, i, x) && Within(i, y) && MadeOf(free, i, y)
    requires y.first + y.count < x.first + x.count
    ensures j in free && Within(j, x) && j.first == y.first + y.count
  {
    var end := y.first + y.count;
    assert Has(x, end) && Has(y, end - 1);
    j :| j in free && Within(j, x) && Has(j, end);
    assert !Has(j, end - 1);
  }

  lemma SameFirst(free: set<Interval>, i: Interval, a: set<Interval>, x: Interval, b: set<Interval>, y: Interval)
    requires RunsApart(free, i) && Joined(free, i, a, x) && Joined(free, i, b, y)
    ensures x.first >= y.first
  {
    if x.first < y.first {
      var j := LeftEdge(free, i, x, y);
    }
  }

  lemma SameEnd(free: set<Interval>, i: Interval, a: set<Interval>, x: Interval, b: set<Interval>, y: Interval)
    requires RunsApart(free, i) && Joined(free, i, a, x) && Joined(free, i, b, y) && x.first == y.first
    ensures x.count <= y.count
  {
    if y.count < x.count {
      var j := RightEdge(free, i, x, y);
    }
  }

  /** There is only one way to give a run back. */
  lemma JoinedOnce(free: set<Interval>, i: Interval, a: set<Interval>, x: Interval, b: set<Interval>, y: Interval)
    requires RunsApart(free, i) && Joined(free, i, a, x) && Joined(free, i, b, y)
    ensures x == y && a == b
  {
    SameFirst(free, i, a, x, b, y);
    SameFirst(free, i, b, y, a, x);
    SameEnd(free, i, a, x, b, y);
    SameEnd(free, i, b, y, a, x);
  }
}
