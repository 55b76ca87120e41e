/** The invariant of the page cache and what its elementary changes do to it. */
module PageInvariant {
  import opened Common
  import opened SizeClasses
  import opened PageModel

  // ----- the invariant ------------------------------------------------------------

  ghost predicate Owns(s: Span, g: Page) {
    In(s.first, s.count, g)
  }

  /** Bucket n - 1 links exactly the free spans of n pages, each once. */
  ghost predicate BucketsOk(spans: map<Ptr, Span>, lists: seq<seq<Ptr>>, linked: set<Ptr>) {
    && |lists| == MAX_PAGE_COUNT
    && (forall p :: p in linked ==> p in spans && spans[p].count <= MAX_PAGE_COUNT)
    && (forall i :: 0 <= i < |lists| ==> NoDup(lists[i]))
    && (forall i, p {:trigger p in lists[i]} :: 0 <= i < |lists| ==> (p in lists[i] <==> p in linked && spans[p].count == i + 1))
  }

  /** A span is either linked or marked as in use. Spans in `loose` are on their way from one
      to the other: not linked, whatever their mark. */
  ghost predicate MarksOk(spans: map<Ptr, Span>, linked: set<Ptr>, loose: set<Ptr>) {
    && linked !! loose
    && forall p {:trigger p in spans} {:trigger spans[p]} :: p in spans ==>
         && spans[p].first >= 1 && spans[p].count >= 1
         && (p in loose || spans[p].inUse == (p !in linked))
  }

  /** `own` maps every page held from the OS to its one span. */
  ghost predicate OwnersOk(spans: map<Ptr, Span>, own: map<Page, Ptr>) {
    && (forall g {:trigger g in own} {:trigger own[g]} :: g in own ==> own[g] in spans && Owns(spans[own[g]], g))
    && (forall p, g {:trigger Owns(spans[p], g)} :: p in spans && Owns(spans[p], g) ==> g in own && own[g] == p)
  }

  ghost predicate TagAt(tags: map<Page, Ptr>, g: Page, p: Ptr) {
    g in tags && tags[g] == p
  }

  ghost predicate Tagged(s: Span, p: Ptr, tags: map<Page, Ptr>, free: bool) {
    && s.count >= 1
    && TagAt(tags, s.first, p)
    && TagAt(tags, Last(s), p)
    && (!free && s.count <= MAX_PAGE_COUNT ==> forall g {:trigger Owns(s, g)} {:trigger TagAt(tags, g, p)} :: Owns(s, g) ==> TagAt(tags, g, p))
  }

  /** Boundary tags: the map finds a span from both its end pages, and a handed-out span of
      at most 128 pages from each of its pages. Spans in `x` are exempt. */
  ghost predicate TagsOk(spans: map<Ptr, Span>, tags: map<Page, Ptr>, linked: set<Ptr>, x: set<Ptr>) {
    forall p {:trigger p in spans} {:trigger spans[p]} :: p in spans && p !in x ==> Tagged(spans[p], p, tags, p in linked)
  }

  /** What the page cache knows implicitly: the owner of every page and the free spans. */
  datatype View = View(own: map<Page, Ptr>, linked: set<Ptr>)

  ghost predicate Inv(st: Pages, v: View, loose: set<Ptr>, x: set<Ptr>) {
    && PoolOk(st)
    && BucketsOk(st.spans, st.lists, v.linked)
    && MarksOk(st.spans, v.linked, loose)
    && OwnersOk(st.spans, v.own)
    && TagsOk(st.spans, st.tags, v.linked, x)
    && st.tags.Keys <= v.own.Keys // only pages held from the OS have an entry
  }

  /** Between calls: nothing loose, nothing exempt. */
  ghost predicate Good(st: Pages, v: View) {
    Inv(st, v, {}, {})
  }

  /** The OS returns pages that are not held, never page 0. */
  ghost predicate Fresh(own: map<Page, Ptr>, os: Page, n: nat) {
    os >= 1 && Range(os, n) !! own.Keys
  }

  // ----- elementary changes, clause by clause -------------------------------------

  lemma BucketsAdd(spans: map<Ptr, Span>, lists: seq<seq<Ptr>>, linked: set<Ptr>, p: Ptr, s: Span)
    requires BucketsOk(spans, lists, linked) && p !in linked
    ensures BucketsOk(spans[p := s], lists, linked)
  {
  }

  lemma MarksAdd(spans: map<Ptr, Span>, linked: set<Ptr>, loose: set<Ptr>, p: Ptr, s: Span)
    requires MarksOk(spans, linked, loose) && p !in linked && s.first >= 1 && s.count >= 1
    ensures MarksOk(spans[p := s], linked, loose + {p})
    ensures s.inUse ==> MarksOk(spans[p := s], linked, loose - {p})
  {
  }

  lemma OwnersAdd(spans: map<Ptr, Span>, own: map<Page, Ptr>, p: Ptr, s: Span)
    requires OwnersOk(spans, own) && p !in spans && Fresh(own, s.first, s.count)
    ensures OwnersOk(spans[p := s], TagRange(own, s.first, s.count, p))
  {
  }

  lemma OwnersMark(spans: map<Ptr, Span>, own: map<Page, Ptr>, p: Ptr, s: Span)
    requires OwnersOk(spans, own) && p in spans && s.first == spans[p].first && s.count == spans[p].count
    ensures OwnersOk(spans[p := s], own)
  {
    assert forall g :: Owns(s, g) ==> Owns(spans[p], g);
  }

  lemma OwnersCut(spans: map<Ptr, Span>, own: map<Page, Ptr>, p: Ptr, q: Ptr, head: Span, tail: Span)
    requires OwnersOk(spans, own) && p in spans && q !in spans
    requires head.first == spans[p].first && tail.first == head.first + head.count
    requires head.count + tail.count == spans[p].count
    ensures OwnersOk(spans[q := head][p := tail], TagRange(own, head.first, head.count, q))
  {
    var spans', own' := spans[q := head][p := tail], TagRange(own, head.first, head.count, q);
    forall g | g in own'
      ensures own'[g] in spans' && Owns(spans'[own'[g]], g)
    {
      assert Owns(head, g) || (g in own && own'[g] == own[g]);
    }
    forall o, g | o in spans' && Owns(spans'[o], g)
      ensures g in own' && own'[g] == o
    {
      if o == p || o == q {
        assert Owns(spans[p], g);
      } else {
        assert own[g] == o;
        assert !Owns(spans[p], g);
      }
    }
  }

  ghost predicate Joins(a: Span, b: Span, s: Span) {
    && s.count == a.count + b.count
    && (b.first + b.count == a.first || a.first + a.count == b.first)
    && s.first == (if b.first + b.count == a.first then b.first else a.first)
  }

  lemma OwnersMerge(spans: map<Ptr, Span>, own: map<Page, Ptr>, p: Ptr, q: Ptr, s: Span)
    requires OwnersOk(spans, own) && p in spans && q in spans && p != q && Joins(spans[p], spans[q], s)
    ensures OwnersOk(spans[p := s] - {q}, TagRange(own, spans[q].first, spans[q].count, p))
  {
    var spans', own' := spans[p := s] - {q}, TagRange(own, spans[q].first, spans[q].count, p);
    forall g | g in own'
      ensures own'[g] in spans' && Owns(spans'[own'[g]], g)
    {
      JoinedOwns(spans[p], spans[q], s, g);
      assert Owns(spans[q], g) || (g in own && own'[g] == own[g]);
    }
    forall o, g | o in spans' && Owns(spans'[o], g)
      ensures g in own' && own'[g] == o
    {
      JoinedOwns(spans[p], spans[q], s, g);
      if o != p {
        assert own[g] == o;
        assert !Owns(spans[q], g);
      }
    }
  }

  lemma JoinedOwns(a: Span, b: Span, s: Span, g: Page)
    requires Joins(a, b, s)
    ensures Owns(s, g) <==> Owns(a, g) || Owns(b, g)
  {
  }

  lemma TagsChange(spans: map<Ptr, Span>, tags: map<Page, Ptr>, linked: set<Ptr>, x: set<Ptr>, p: Ptr, s: Span)
    requires TagsOk(spans, tags, linked, x)
    ensures TagsOk(spans[p := s], tags, linked, x + {p})
  {
  }

  lemma TagsMark(spans: map<Ptr, Span>, tags: map<Page, Ptr>, linked: set<Ptr>, x: set<Ptr>, p: Ptr, s: Span)
    requires TagsOk(spans, tags, linked, x)
    requires p in spans && s.first == spans[p].first && s.count == spans[p].count
    ensures TagsOk(spans[p := s], tags, linked, x)
  {
    if p !in x {
      assert Tagged(spans[p], p, tags, p in linked);
      assert Tagged(s, p, tags, p in linked);
    }
  }

  /** Writing entries only on pages of `p` leaves the tags of the other spans alone. */
  lemma TagsWrite(spans: map<Ptr, Span>, own: map<Page, Ptr>, tags: map<Page, Ptr>, tags': map<Page, Ptr>,
                  linked: set<Ptr>, x: set<Ptr>, p: Ptr)
    requires TagsOk(spans, tags, linked, x) && OwnersOk(spans, own)
    requires p in spans && Tagged(spans[p], p, tags', p in linked)
    requires forall g :: g in tags ==> g in tags' && (tags'[g] == tags[g] || Owns(spans[p], g))
    ensures TagsOk(spans, tags', linked, x - {p})
  {
    forall q | q in spans && q !in x - {p}
      ensures Tagged(spans[q], q, tags', q in linked)
    {
      if q != p {
        var s := spans[q];
        assert Tagged(s, q, tags, q in linked);
        forall g | Owns(s, g) && TagAt(tags, g, q)
          ensures TagAt(tags', g, q)
        {
          assert own[g] == q;
        }
        assert Owns(s, s.first) && Owns(s, Last(s));
      }
    }
  }

  // ----- elementary changes keep the whole invariant ------------------------------

  /** A span `p` on pages that were not held, not linked and not tagged yet. */
  lemma AddKeeps(st: Pages, st': Pages, p: Ptr, s: Span, v: View, loose: set<Ptr>, x: set<Ptr>)
    requires Inv(st, v, loose, x) && PoolOk(st')
    requires p !in st.spans && s.first >= 1 && s.count >= 1 && Fresh(v.own, s.first, s.count)
    requires st'.spans == st.spans[p := s] && st'.lists == st.lists && st'.tags == st.tags
    ensures Inv(st', v.(own := TagRange(v.own, s.first, s.count, p)), loose + {p}, x + {p})
  {
    BucketsAdd(st.spans, st.lists, v.linked, p, s);
    MarksAdd(st.spans, v.linked, loose, p, s);
    OwnersAdd(st.spans, v.own, p, s);
    TagsChange(st.spans, st.tags, v.linked, x, p, s);
  }

  /** Taking span `p` out of its bucket. */
  lemma UnlinkKeeps(st: Pages, st': Pages, p: Ptr, rest: seq<Ptr>, v: View, loose: set<Ptr>, x: set<Ptr>)
    requires Inv(st, v, loose, x) && p in v.linked && 1 <= st.spans[p].count <= |st.lists|
    requires NoDup(rest) && forall q :: q in rest <==> q in st.lists[st.spans[p].count - 1] && q != p
    requires st' == st.(lists := st.lists[st.spans[p].count - 1 := rest])
    ensures Inv(st', v.(linked := v.linked - {p}), loose + {p}, x + {p})
  {
  }

  /** Putting a loose span at the front of its bucket. */
  lemma LinkKeeps(st: Pages, st': Pages, p: Ptr, v: View, loose: set<Ptr>, x: set<Ptr>)
    requires Inv(st, v, loose, x) && p in loose && p in x
    requires p in st.spans && !st.spans[p].inUse && 1 <= st.spans[p].count <= MAX_PAGE_COUNT
    requires var b := st.spans[p].count - 1;
             st' == st.(lists := st.lists[b := [p] + st.lists[b]])
    ensures Inv(st', v.(linked := v.linked + {p}), loose - {p}, x)
  {
    assert p !in st.lists[st.spans[p].count - 1];
  }

  /** Setting or clearing the mark of a span that is not linked. */
  lemma MarkKeeps(st: Pages, st': Pages, p: Ptr, s: Span, v: View, loose: set<Ptr>, x: set<Ptr>)
    requires Inv(st, v, loose, x) && p in st.spans && p !in v.linked
    requires s.first == st.spans[p].first && s.count == st.spans[p].count
    requires st' == st.(spans := st.spans[p := s])
    ensures Inv(st', v, if s.inUse then loose - {p} else loose + {p}, x)
  {
    BucketsAdd(st.spans, st.lists, v.linked, p, s);
    MarksAdd(st.spans, v.linked, loose, p, s);
    OwnersMark(st.spans, v.own, p, s);
    TagsMark(st.spans, st.tags, v.linked, x, p, s);
  }

  /** Tagging both ends of a free or big span. */
  lemma TagEndsKeeps(st: Pages, st': Pages, p: Ptr, v: View, loose: set<Ptr>, x: set<Ptr>)
    requires Inv(st, v, loose, x) && p in st.spans
    requires p in v.linked || st.spans[p].count > MAX_PAGE_COUNT
    requires st' == st.(tags := TagEnds(st.tags, st.spans[p], p))
    ensures Inv(st', v, loose, x - {p})
  {
    var s := st.spans[p];
    assert Owns(s, s.first) && Owns(s, Last(s));
    TagsWrite(st.spans, v.own, st.tags, st'.tags, v.linked, x, p);
  }

  /** Tagging every page of a span. */
  lemma TagRangeKeeps(st: Pages, st': Pages, p: Ptr, v: View, loose: set<Ptr>, x: set<Ptr>)
    requires Inv(st, v, loose, x) && p in st.spans
    requires st' == st.(tags := TagRange(st.tags, st.spans[p].first, st.spans[p].count, p))
    ensures Inv(st', v, loose, x - {p})
  {
    var s := st.spans[p];
    assert Owns(s, s.first) && Owns(s, Last(s));
    assert forall g :: Owns(s, g) ==> g in v.own;
    TagsWrite(st.spans, v.own, st.tags, st'.tags, v.linked, x, p);
  }

  /** Cutting the first pages off a loose span into a new span `q`. */
  lemma CutKeeps(st: Pages, st': Pages, p: Ptr, q: Ptr, head: Span, tail: Span,
                 v: View, loose: set<Ptr>, x: set<Ptr>)
    requires Inv(st, v, loose, x) && PoolOk(st')
    requires p in st.spans && p in loose && p in x && q !in st.spans
    requires head.first == st.spans[p].first && tail.first == head.first + head.count
    requires head.count + tail.count == st.spans[p].count && head.count >= 1 && tail.count >= 1
    requires st'.spans == st.spans[q := head][p := tail] && st'.lists == st.lists && st'.tags == st.tags
    ensures Inv(st', v.(own := TagRange(v.own, head.first, head.count, q)), loose + {q}, x + {q})
  {
    BucketsAdd(st.spans, st.lists, v.linked, q, head);
    BucketsAdd(st.spans[q := head], st.lists, v.linked, p, tail);
    MarksAdd(st.spans, v.linked, loose, q, head);
    MarksAdd(st.spans[q := head], v.linked, loose + {q}, p, tail);
    assert loose + {q} + {p} == loose + {q};
    OwnersCut(st.spans, v.own, p, q, head, tail);
    TagsChange(st.spans, st.tags, v.linked, x, q, head);
    TagsChange(st.spans[q := head], st.tags, v.linked, x + {q}, p, tail);
    assert x + {q} + {p} == x + {q};
  }

  /** Deleting a loose span `q` and giving its pages to the adjacent loose span `p`. */
  lemma MergeKeeps(st: Pages, st': Pages, p: Ptr, q: Ptr, s: Span, v: View, loose: set<Ptr>, x: set<Ptr>)
    requires Inv(st, v, loose, x) && PoolOk(st')
    requires p in st.spans && q in st.spans && p != q && {p, q} <= loose && {p, q} <= x
    requires Joins(st.spans[p], st.spans[q], s)
    requires st'.spans == st.spans[p := s] - {q} && st'.lists == st.lists && st'.tags == st.tags
    ensures Inv(st', v.(own := TagRange(v.own, st.spans[q].first, st.spans[q].count, p)), loose - {q}, x - {q})
  {
    BucketsAdd(st.spans, st.lists, v.linked, p, s);
    MarksAdd(st.spans, v.linked, loose, p, s);
    OwnersMerge(st.spans, v.own, p, q, s);
    TagsChange(st.spans, st.tags, v.linked, x, p, s);
  }

  lemma EmptyIsGood()
    ensures Good(Empty(), View(map[], {}))
  {
  }
}
