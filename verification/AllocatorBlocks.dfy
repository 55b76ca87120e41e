/** Bookkeeping lemmas for the allocator proof: block lists, block geometry, counting. */
module AllocatorBlocks {
  import opened Common
  import opened SizeClasses
  import opened PageModel
  import opened PageInvariant
  import opened PageCreate
  import opened PageRecover
  import opened Allocator
  import Bits

  /** Auxiliary: the span a carved block belongs to and the place it is at. */
  datatype Entry = Entry(span: Ptr, place: Place)

  predicate IsList(x: Place) { x.Home? || x.Cached? || x.Moving? }

  /** Every block is at exactly one place: the lists have no duplicates and agree with `own`. */
  ghost predicate Placed(blocks: map<Place, seq<Addr>>, own: map<Addr, Entry>) {
    && (forall x :: x in blocks ==> IsList(x))
    && (forall x :: NoDup(On(blocks, x)))
    && (forall x, b {:trigger b in On(blocks, x)} :: b in On(blocks, x) ==> b in own && own[b].place == x)
    && (forall b :: b in own && IsList(own[b].place) ==> b in On(blocks, own[b].place))
  }

  function Relocate(own: map<Addr, Entry>, moved: seq<Addr>, y: Place): map<Addr, Entry> {
    map b | b in own :: if b in moved then own[b].(place := y) else own[b]
  }

  lemma SplitNoDup<T>(s: seq<T>, k: nat)
    requires NoDup(s) && k <= |s|
    ensures NoDup(s[..k]) && NoDup(s[k..])
    ensures forall b :: b in s <==> b in s[..k] || b in s[k..]
    ensures forall b :: b in s[..k] ==> b !in s[k..]
  {
    assert s == s[..k] + s[k..];
  }

  lemma JoinNoDup<T>(s: seq<T>, r: seq<T>)
    requires NoDup(s) && NoDup(r) && forall b :: b in s ==> b !in r
    ensures NoDup(s + r)
    ensures forall b :: b in s + r <==> b in s || b in r
  {
    forall i, j | 0 <= i < j < |s + r|
      ensures (s + r)[i] != (s + r)[j]
    {
      if i < |s| <= j {
        assert s[i] in s && r[j - |s|] in r;
      }
    }
  }

  /** Moving the front of one list to the front of another. */
  lemma MovePlaced(blocks: map<Place, seq<Addr>>, own: map<Addr, Entry>, x: Place, y: Place, k: nat)
    requires Placed(blocks, own) && IsList(x) && IsList(y) && x != y && k <= |On(blocks, x)|
    ensures Placed(MoveFront(blocks, x, y, k), Relocate(own, On(blocks, x)[..k], y))
  {
    var s, r := On(blocks, x), On(blocks, y);
    SplitNoDup(s, k);
    JoinNoDup(s[..k], r);
    var blocks', own' := MoveFront(blocks, x, y, k), Relocate(own, s[..k], y);
    assert On(blocks', x) == s[k..] && On(blocks', y) == s[..k] + r;
    assert forall z :: z != x && z != y ==> On(blocks', z) == On(blocks, z);
  }

  /** Taking the first block off a list, to a place that is not a list. */
  lemma PopPlaced(blocks: map<Place, seq<Addr>>, own: map<Addr, Entry>, x: Place, y: Place)
    requires Placed(blocks, own) && IsList(x) && !IsList(y) && On(blocks, x) != []
    ensures Placed(blocks[x := On(blocks, x)[1..]], Relocate(own, [On(blocks, x)[0]], y))
  {
    var s := On(blocks, x);
    SplitNoDup(s, 1);
    assert s[..1] == [s[0]];
    var blocks' := blocks[x := s[1..]];
    assert On(blocks', x) == s[1..];
    assert forall z :: z != x ==> On(blocks', z) == On(blocks, z);
  }

  /** Putting a block that is on no list in front of one. */
  lemma PushPlaced(blocks: map<Place, seq<Addr>>, own: map<Addr, Entry>, b: Addr, x: Place)
    requires Placed(blocks, own) && IsList(x) && b in own && !IsList(own[b].place)
    ensures Placed(blocks[x := [b] + On(blocks, x)], Relocate(own, [b], x))
  {
    JoinNoDup([b], On(blocks, x));
    var blocks' := blocks[x := [b] + On(blocks, x)];
    assert On(blocks', x) == [b] + On(blocks, x);
    assert forall z :: z != x ==> On(blocks', z) == On(blocks, z);
  }

  /** From one place that is not a list to another. */
  lemma HandPlaced(blocks: map<Place, seq<Addr>>, own: map<Addr, Entry>, b: Addr, y: Place)
    requires Placed(blocks, own) && b in own && !IsList(own[b].place) && !IsList(y)
    ensures Placed(blocks, Relocate(own, [b], y))
  {
  }

  // ----- adding and removing a whole span of blocks --------------------------------

  function AddEntries(own: map<Addr, Entry>, chain: seq<Addr>, p: Ptr): map<Addr, Entry> {
    own + map b | b in chain :: Entry(p, Home(p))
  }

  lemma AddPlaced(blocks: map<Place, seq<Addr>>, own: map<Addr, Entry>, p: Ptr, chain: seq<Addr>)
    requires Placed(blocks, own) && NoDup(chain) && On(blocks, Home(p)) == []
    requires forall b :: b in chain ==> b !in own
    ensures Placed(blocks[Home(p) := chain], AddEntries(own, chain, p))
  {
    var blocks', own' := blocks[Home(p) := chain], AddEntries(own, chain, p);
    assert On(blocks', Home(p)) == chain;
    assert forall z :: z != Home(p) ==> On(blocks', z) == On(blocks, z);
    forall b | b in own' && IsList(own'[b].place)
      ensures b in On(blocks', own'[b].place)
    {
      if b !in chain {
        assert b in On(blocks, own[b].place);
      }
    }
  }

  lemma DropPlaced(blocks: map<Place, seq<Addr>>, own: map<Addr, Entry>, p: Ptr, gone: set<Addr>)
    requires Placed(blocks, own)
    requires forall b :: b in gone <==> b in On(blocks, Home(p))
    ensures Placed(blocks - {Home(p)}, own - gone)
  {
    var blocks' := blocks - {Home(p)};
    assert On(blocks', Home(p)) == [];
    assert forall z :: z != Home(p) ==> On(blocks', z) == On(blocks, z);
  }

  // ----- geometry -------------------------------------------------------------------

  /** Address `a` starts a block of span `s` that lies inside the span. */
  ghost predicate IsBlock(s: Span, a: Addr) {
    s.blockSize >= 1 && exists i: nat :: i < BlockCount(s) && a == BlockAt(s, i)
  }

  lemma AllBlocksExact(s: Span)
    requires s.blockSize >= 1
    ensures forall a :: a in AllBlocks(s) <==> IsBlock(s, a)
    ensures NoDup(AllBlocks(s))
  {
    var r := AllBlocks(s);
    forall a | IsBlock(s, a)
      ensures a in r
    {
      var i: nat :| i < BlockCount(s) && a == BlockAt(s, i);
      assert r[i] == a;
    }
    forall i, j | 0 <= i < j < |r|
      ensures r[i] != r[j]
    {
      BlocksApart(s, i, j);
    }
  }

  lemma BlocksApart(s: Span, i: nat, j: nat)
    requires s.blockSize >= 1 && i < j
    ensures BlockAt(s, i) + s.blockSize <= BlockAt(s, j)
  {
    MultiplesApart(i, j, s.blockSize);
  }

  lemma MultiplesApart(i: int, j: int, c: int)
    requires i < j && c >= 1
    ensures i * c + c <= j * c
  {
    assert (j - i - 1) * c >= 0;
    assert (j - i - 1) * c == j * c - i * c - c;
  }

  /** A block lies inside its span, so every page it starts on belongs to the span. */
  lemma BlockInside(s: Span, a: Addr)
    requires IsBlock(s, a)
    ensures Base(s) <= a && a + s.blockSize <= Base(s) + s.count * PAGE
    ensures Owns(s, a / PAGE)
  {
    var i: nat :| i < BlockCount(s) && a == BlockAt(s, i);
    WholeBlocks(s.count * PAGE, s.blockSize, i);
    PageOf(s.first, s.count, a);
  }

  lemma WholeBlocks(bytes: nat, c: nat, i: nat)
    requires c >= 1 && i < bytes / c
    ensures 0 <= i * c && i * c + c <= bytes
  {
    Bits.QuotientAtLeast(bytes, c, i + 1);
  }

  lemma PageOf(first: nat, count: nat, a: nat)
    requires first * PAGE <= a < first * PAGE + count * PAGE
    ensures first <= a / PAGE < first + count
  {
  }

  /** Two different blocks of a span do not overlap. */
  lemma BlocksDisjoint(s: Span, a: Addr, b: Addr)
    requires IsBlock(s, a) && IsBlock(s, b) && a != b
    ensures a + s.blockSize <= b || b + s.blockSize <= a
  {
    var i: nat :| i < BlockCount(s) && a == BlockAt(s, i);
    var j: nat :| j < BlockCount(s) && b == BlockAt(s, j);
    if i < j {
      BlocksApart(s, i, j);
    } else {
      BlocksApart(s, j, i);
    }
  }

  // ----- counting -------------------------------------------------------------------

  function Elements<T>(s: seq<T>): set<T> { set b | b in s }

  lemma {:induction false} NoDupCard<T>(s: seq<T>)
    requires NoDup(s)
    ensures |Elements(s)| == |s|
  {
    if s != [] {
      PopIsUnlink(s);
      NoDupCard(s[1..]);
      assert Elements(s) == {s[0]} + Elements(s[1..]);
    }
  }

  /** A duplicate-free list of blocks that is as long as the list of all blocks misses none. */
  lemma AllHome<T>(s: seq<T>, all: seq<T>)
    requires NoDup(s) && NoDup(all) && |s| == |all| && forall b :: b in s ==> b in all
    ensures forall b :: b in all ==> b in s
  {
    NoDupCard(s);
    NoDupCard(all);
    SubsetFull(Elements(s), Elements(all));
    forall b | b in all
      ensures b in s
    {
      assert b in Elements(all);
    }
  }

  lemma SubsetFull<T>(a: set<T>, b: set<T>)
    requires a <= b && |a| == |b|
    ensures a == b
  {
    if a != b {
      var x :| x in b && x !in a;
      SubsetCard(a, b - {x});
    }
  }

  lemma {:induction false} SubsetCard<T>(a: set<T>, b: set<T>)
    requires a <= b
    ensures |a| <= |b|
  {
    if a != {} {
      var x :| x in a;
      SubsetCard(a - {x}, b - {x});
    }
  }
}
