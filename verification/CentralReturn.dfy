/** Taking a run of blocks back into a bin (`recover_blocks_to_spans`), on the heap of next pointers: the
    loop with the evident intent, the loop as written, and what becomes of the span accounting. */
module CentralReturn {
  import opened FreeLists

  type Ptr = nat

  /** The blocks of a run that belong to span p, in run order. */
  function OfSpan(run: seq<Addr>, spanOf: map<Addr, Ptr>, p: Ptr): (r: seq<Addr>)
    ensures |r| <= |run| && forall b :: b in r ==> b in run && b in spanOf && spanOf[b] == p
  {
    if run == [] then []
    else if run[0] in spanOf && spanOf[run[0]] == p then [run[0]] + OfSpan(run[1..], spanOf, p)
    else OfSpan(run[1..], spanOf, p)
  }

  function Reverse(s: seq<Addr>): (r: seq<Addr>)
    ensures |r| == |s| && forall b :: b in r <==> b in s
  {
    if s == [] then [] else Reverse(s[1..]) + [s[0]]
  }

  /** The shared state of one bin: next cells, head and use count of each span in the bin. */
  datatype Bin = Bin(next: map<Addr, Addr>, heads: map<Ptr, Addr>, uses: map<Ptr, nat>)

  /** Span accounting: the chain of each span holds blocks of that span, as many as are not handed out. */
  ghost predicate Accounts(b: Bin, chains: map<Ptr, seq<Addr>>, total: map<Ptr, nat>, spanOf: map<Addr, Ptr>) {
    && b.heads.Keys == b.uses.Keys == chains.Keys && chains.Keys <= total.Keys
    && (forall p :: p in chains ==>
          Chain(b.next, b.heads[p], chains[p]) && |chains[p]| + b.uses[p] == total[p] && b.uses[p] >= 1)
    && (forall p, x {:trigger x in chains[p]} :: p in chains && x in chains[p] ==> x in spanOf && spanOf[x] == p)
  }

  /** The run is made of blocks that are out: on no chain, of spans in the bin, not more than their use counts. */
  ghost predicate RunIsOut(b: Bin, chains: map<Ptr, seq<Addr>>, spanOf: map<Addr, Ptr>, run: seq<Addr>) {
    && (forall x :: x in run ==> x in spanOf && spanOf[x] in chains && x !in chains[spanOf[x]])
    && (forall i, j :: 0 <= i < j < |run| ==> run[i] != run[j])
    && forall p {:trigger OfSpan(run, spanOf, p)} :: p in b.uses ==> |OfSpan(run, spanOf, p)| <= b.uses[p]
  }

  /** One turn of the loop. `asWritten` selects what the source stores as the span's new head: the block
      after the returned one, where the returned block is meant. */
  function GiveOne(b: Bin, x: Addr, p: Ptr, asWritten: bool): Bin
    requires x in b.next && p in b.heads && p in b.uses && b.uses[p] >= 1
  {
    var next' := b.next[x := b.heads[p]];
    if b.uses[p] == 1 then Bin(next', b.heads - {p}, b.uses - {p})
    else Bin(next', b.heads[p := if asWritten then b.next[x] else x], b.uses[p := b.uses[p] - 1])
  }

  /** The whole loop. */
  function GiveAll(b: Bin, run: seq<Addr>, spanOf: map<Addr, Ptr>, asWritten: bool): (r: Bin)
    decreases |run|
  {
    if run == [] then b
    else
      var x := run[0];
      if x in spanOf && x in b.next && spanOf[x] in b.heads && spanOf[x] in b.uses && b.uses[spanOf[x]] >= 1
      then GiveAll(GiveOne(b, x, spanOf[x], asWritten), run[1..], spanOf, asWritten)
      else b
  }

  // ----- the loops ------------------------------------------------------------------

  class CentralBin {
    const mem: Memory
    var heads: map<Ptr, Addr>   // _freelist_header of the spans in the bin
    var uses: map<Ptr, nat>     // _use_count

    constructor (m: Memory)
      ensures mem == m && heads == map[] && uses == map[]
    {
      mem := m;
      heads, uses := map[], map[];
    }

    ghost function Abs(): Bin
      reads this, mem
    {
      Bin(mem.next, heads, uses)
    }

    /** One turn of the loop; true if the span left the bin. */
    method GiveBack(at: Addr, p: Ptr, asWritten: bool) returns (left: bool)
      requires at in mem.next && p in heads && p in uses && uses[p] >= 1
      modifies this, mem
      ensures Abs() == GiveOne(old(Abs()), at, p, asWritten)
      ensures left <==> old(uses[p]) == 1
      ensures uses == if left then old(uses) - {p} else old(uses)[p := old(uses[p]) - 1]
      ensures old(heads.Keys == uses.Keys) ==> heads.Keys == uses.Keys
      ensures mem.next == old(mem.next)[at := old(heads[p])]
    {
      ghost var before := Abs();
      var next := mem.next[at];
      mem.next := mem.next[at := heads[p]];
      heads := heads[p := if asWritten then next else at];
      uses := uses[p := uses[p] - 1];
      left := uses[p] == 0;
      if left {
        heads, uses := heads - {p}, uses - {p};
      }
      GiveOneIs(before, Abs(), at, p, asWritten);
    }

    /** `recover_blocks_to_spans` over the chain at `start`. `idle` lists the spans that left the bin for the
        page cache. */
    method Return(start: Addr, spanOf: map<Addr, Ptr>, asWritten: bool, ghost run: seq<Addr>) returns (idle: set<Ptr>)
      requires Chain(mem.next, start, run) && heads.Keys == uses.Keys && Fits(uses, run, spanOf)
      modifies this, mem
      ensures Abs() == GiveAll(old(Abs()), run, spanOf, asWritten)
      ensures idle == old(uses).Keys - uses.Keys && uses.Keys <= old(uses).Keys
    {
      idle := {};
      var at := start;
      ghost var rest := run;
      hide Fits, OfSpan, Chain, GiveOne, GiveAll;
      GiveAllNone(spanOf, asWritten);
      ChainStart(mem.next, at, rest);
      while at != NULL
        invariant Chain(mem.next, at, rest) && (at != NULL <==> rest != []) && (rest != [] ==> at == rest[0] && at in mem.next)
        invariant Fits(uses, rest, spanOf) && heads.Keys == uses.Keys
        invariant GiveAll(Abs(), rest, spanOf, asWritten) == GiveAll(old(Abs()), run, spanOf, asWritten)
        invariant idle == old(uses).Keys - uses.Keys && uses.Keys <= old(uses).Keys
        decreases |rest|
      {
        FitsStep(uses, rest, spanOf);
        var p, next := spanOf[at], mem.next[at];
        GiveAllStep(Abs(), rest, spanOf, asWritten);
        ghost var before := mem.next;
        var left := GiveBack(at, p, asWritten);
        if left { idle := idle + {p}; }
        RestStays(before, mem.next, rest);
        at := next;
        rest := rest[1..];
        ChainStart(mem.next, at, rest);
      }
    }
  }

  lemma ChainStart(next: map<Addr, Addr>, at: Addr, rest: seq<Addr>)
    requires Chain(next, at, rest)
    ensures at != NULL <==> rest != []
    ensures rest != [] ==> at == rest[0] && at in next
  {
  }

  /** The rest of the run stays a chain when the link of its first block is overwritten. */
  lemma RestStays(next: map<Addr, Addr>, next': map<Addr, Addr>, rest: seq<Addr>)
    requires rest != [] && Chain(next, rest[0], rest) && rest[0] in next' && next' == next[rest[0] := next'[rest[0]]]
    ensures Chain(next', next[rest[0]], rest[1..])
  {
    ChainIsSegment(next, rest[0], rest);
    ChainFrame(next, next', next[rest[0]], rest[1..]);
  }

  lemma GiveAllStep(b: Bin, run: seq<Addr>, spanOf: map<Addr, Ptr>, asWritten: bool)
    requires run != [] && run[0] in spanOf && run[0] in b.next
    requires spanOf[run[0]] in b.heads && spanOf[run[0]] in b.uses && b.uses[spanOf[run[0]]] >= 1
    ensures GiveAll(b, run, spanOf, asWritten) == GiveAll(GiveOne(b, run[0], spanOf[run[0]], asWritten), run[1..], spanOf, asWritten)
  {
  }

  lemma GiveAllNone(spanOf: map<Addr, Ptr>, asWritten: bool)
    ensures forall b :: GiveAll(b, [], spanOf, asWritten) == b
  {
  }

  /** Every block of the run has a span with a use count that covers all of its blocks in the run. */
  ghost predicate Fits(uses: map<Ptr, nat>, run: seq<Addr>, spanOf: map<Addr, Ptr>) {
    && (forall x :: x in run ==> x in spanOf && spanOf[x] in uses)
    && forall p {:trigger OfSpan(run, spanOf, p)} :: p in uses ==> |OfSpan(run, spanOf, p)| <= uses[p] && uses[p] >= 1
  }

  lemma KeysAgree(b: Bin, chains: map<Ptr, seq<Addr>>, total: map<Ptr, nat>, spanOf: map<Addr, Ptr>)
    requires Accounts(b, chains, total, spanOf)
    ensures b.heads.Keys == b.uses.Keys
  {
  }

  lemma RestDiffers(next: map<Addr, Addr>, rest: seq<Addr>)
    requires Segment(next, rest) && rest != []
    ensures rest[0] !in rest[1..] && rest[0] in next && rest[0] != NULL
  {
  }

  lemma RunFitsOf(b: Bin, chains: map<Ptr, seq<Addr>>, total: map<Ptr, nat>, spanOf: map<Addr, Ptr>, run: seq<Addr>)
    requires Accounts(b, chains, total, spanOf) && RunIsOut(b, chains, spanOf, run)
    ensures Fits(b.uses, run, spanOf)
  {
  }

  lemma OfRest(run: seq<Addr>, spanOf: map<Addr, Ptr>, p: Ptr)
    requires run != []
    ensures OfSpan(run, spanOf, p) ==
            (if run[0] in spanOf && spanOf[run[0]] == p then [run[0]] else []) + OfSpan(run[1..], spanOf, p)
  {
  }

  /** After one turn the rest of the run still fits. */
  lemma FitsStep(uses: map<Ptr, nat>, run: seq<Addr>, spanOf: map<Addr, Ptr>)
    requires Fits(uses, run, spanOf) && run != []
    ensures run[0] in spanOf && spanOf[run[0]] in uses && uses[spanOf[run[0]]] >= 1
    ensures var p := spanOf[run[0]];
            Fits(if uses[p] == 1 then uses - {p} else uses[p := uses[p] - 1], run[1..], spanOf)
  {
    var p := spanOf[run[0]];
    var uses' := if uses[p] == 1 then uses - {p} else uses[p := uses[p] - 1];
    OfRest(run, spanOf, p);
    forall x | x in run[1..]
      ensures x in spanOf && spanOf[x] in uses'
    {
      assert x in run;
      OfHas(run[1..], spanOf, x);
    }
    forall q | q in uses'
      ensures |OfSpan(run[1..], spanOf, q)| <= uses'[q] && uses'[q] >= 1
    {
      OfRest(run, spanOf, q);
      assert |OfSpan(run, spanOf, q)| <= uses[q];
    }
  }

  lemma {:induction false} OfHas(run: seq<Addr>, spanOf: map<Addr, Ptr>, x: Addr)
    requires x in run && x in spanOf
    ensures x in OfSpan(run, spanOf, spanOf[x])
  {
    if run[0] != x {
      OfHas(run[1..], spanOf, x);
    }
  }

  lemma GiveOneIs(b: Bin, b': Bin, x: Addr, p: Ptr, asWritten: bool)
    requires x in b.next && p in b.heads && p in b.uses && b.uses[p] >= 1
    requires b'.next == b.next[x := b.heads[p]]
    requires if b.uses[p] == 1
             then b'.heads == b.heads[p := if asWritten then b.next[x] else x] - {p} && b'.uses == b.uses[p := 0] - {p}
             else b'.heads == b.heads[p := if asWritten then b.next[x] else x] && b'.uses == b.uses[p := b.uses[p] - 1]
    ensures b' == GiveOne(b, x, p, asWritten)
  {
    assert b.heads[p := if asWritten then b.next[x] else x] - {p} == b.heads - {p};
    assert b.uses[p := 0] - {p} == b.uses - {p};
  }

  // ----- the intended loop keeps the accounting ---------------------------------------

  /** The chains after the run came home: its blocks in front, in reverse order; spans all of whose blocks
      are home are gone. */
  function After(chains: map<Ptr, seq<Addr>>, uses: map<Ptr, nat>, run: seq<Addr>, spanOf: map<Addr, Ptr>): map<Ptr, seq<Addr>> {
    map p | p in chains && p in uses && |OfSpan(run, spanOf, p)| < uses[p] :: Reverse(OfSpan(run, spanOf, p)) + chains[p]
  }

  lemma ReverseStep(x: Addr, r: seq<Addr>, s: seq<Addr>)
    ensures Reverse([x] + r) + s == Reverse(r) + ([x] + s)
  {
    assert ([x] + r)[1..] == r;
  }

  lemma GiveOneChains(b: Bin, chains: map<Ptr, seq<Addr>>, p: Ptr, x: Addr, b': Bin, chains': map<Ptr, seq<Addr>>)
    requires b.heads.Keys == b.uses.Keys == chains.Keys && p in chains && x != NULL && x in b.next && b.uses[p] >= 1
    requires forall q :: q in chains ==> Chain(b.next, b.heads[q], chains[q]) && x !in chains[q]
    requires b' == GiveOne(b, x, p, false)
    requires chains' == if b.uses[p] == 1 then chains - {p} else chains[p := [x] + chains[p]]
    ensures b'.heads.Keys == b'.uses.Keys == chains'.Keys
    ensures forall q :: q in chains' ==> Chain(b'.next, b'.heads[q], chains'[q])
  {
    forall q | q in chains'
      ensures Chain(b'.next, b'.heads[q], chains'[q])
    {
      if q == p {
        ChainHead(b.next, b.heads[p], chains[p], x);
      } else {
        ChainFrame(b.next, b'.next, b.heads[q], chains[q]);
      }
    }
  }

  lemma GiveOneKeeps(b: Bin, chains: map<Ptr, seq<Addr>>, total: map<Ptr, nat>, spanOf: map<Addr, Ptr>, run: seq<Addr>)
    returns (chains': map<Ptr, seq<Addr>>)
    requires Accounts(b, chains, total, spanOf) && RunIsOut(b, chains, spanOf, run) && run != []
    requires run[0] != NULL && run[0] in b.next && run[0] in spanOf && spanOf[run[0]] in b.uses
    ensures var p := spanOf[run[0]];
            && chains' == (if b.uses[p] == 1 then chains - {p} else chains[p := [run[0]] + chains[p]])
            && Accounts(GiveOne(b, run[0], p, false), chains', total, spanOf)
  {
    var x, p := run[0], spanOf[run[0]];
    assert forall q :: q in chains ==> x !in chains[q];
    hide RunIsOut, Chain;
    chains' := if b.uses[p] == 1 then chains - {p} else chains[p := [x] + chains[p]];
    GiveOneChains(b, chains, p, x, GiveOne(b, x, p, false), chains');
    hide Accounts, GiveOne;
    GiveOneAccounts(b, chains, total, spanOf, p, x, GiveOne(b, x, p, false), chains');
  }

  lemma GiveOneAccounts(b: Bin, chains: map<Ptr, seq<Addr>>, total: map<Ptr, nat>, spanOf: map<Addr, Ptr>, p: Ptr, x: Addr,
                        b': Bin, chains': map<Ptr, seq<Addr>>)
    requires Accounts(b, chains, total, spanOf) && p in chains && x in spanOf && spanOf[x] == p && x in b.next
    requires b' == GiveOne(b, x, p, false)
    requires chains' == if b.uses[p] == 1 then chains - {p} else chains[p := [x] + chains[p]]
    requires b'.heads.Keys == b'.uses.Keys == chains'.Keys
    requires forall q :: q in chains' ==> Chain(b'.next, b'.heads[q], chains'[q])
    ensures Accounts(b', chains', total, spanOf)
  {
    hide Chain;
    forall q | q in chains'
      ensures |chains'[q]| + b'.uses[q] == total[q] && b'.uses[q] >= 1
      ensures forall y :: y in chains'[q] ==> y in spanOf && spanOf[y] == q
    {
    }
  }

  lemma RunStaysOut(b: Bin, chains: map<Ptr, seq<Addr>>, total: map<Ptr, nat>, spanOf: map<Addr, Ptr>, run: seq<Addr>,
                    chains': map<Ptr, seq<Addr>>, b': Bin)
    requires Accounts(b, chains, total, spanOf) && RunIsOut(b, chains, spanOf, run) && run != []
    requires run[0] in b.next && run[0] in spanOf && spanOf[run[0]] in b.uses
    requires b' == GiveOne(b, run[0], spanOf[run[0]], false)
    requires chains' == (if b.uses[spanOf[run[0]]] == 1 then chains - {spanOf[run[0]]}
                         else chains[spanOf[run[0]] := [run[0]] + chains[spanOf[run[0]]]])
    ensures RunIsOut(b', chains', spanOf, run[1..])
  {
    RunFitsOf(b, chains, total, spanOf, run);
    FitsStep(b.uses, run, spanOf);
    forall x | x in run[1..]
      ensures x in spanOf && spanOf[x] in chains' && x !in chains'[spanOf[x]]
    {
      assert x in run && spanOf[x] in b'.uses;
      var i: nat :| i < |run[1..]| && run[1..][i] == x;
      assert run[i + 1] == x && run[0] != run[i + 1];
    }
  }

  lemma AfterStep(chains: map<Ptr, seq<Addr>>, uses: map<Ptr, nat>, run: seq<Addr>, spanOf: map<Addr, Ptr>, p: Ptr)
    requires run != [] && run[0] in spanOf && spanOf[run[0]] == p && p in chains && p in uses && uses[p] >= 1
    requires |OfSpan(run, spanOf, p)| <= uses[p]
    ensures After(chains, uses, run, spanOf)
         == After(if uses[p] == 1 then chains - {p} else chains[p := [run[0]] + chains[p]],
                  if uses[p] == 1 then uses - {p} else uses[p := uses[p] - 1], run[1..], spanOf)
  {
    var chains' := if uses[p] == 1 then chains - {p} else chains[p := [run[0]] + chains[p]];
    var uses' := if uses[p] == 1 then uses - {p} else uses[p := uses[p] - 1];
    forall q
      ensures q in After(chains, uses, run, spanOf) <==> q in After(chains', uses', run[1..], spanOf)
      ensures q in After(chains, uses, run, spanOf) ==> After(chains, uses, run, spanOf)[q] == After(chains', uses', run[1..], spanOf)[q]
    {
      OfRest(run, spanOf, q);
      ReverseStep(run[0], OfSpan(run[1..], spanOf, p), if p in chains then chains[p] else []);
    }
  }

  lemma GiveOneFits(b: Bin, chains: map<Ptr, seq<Addr>>, total: map<Ptr, nat>, spanOf: map<Addr, Ptr>, run: seq<Addr>)
    requires Accounts(b, chains, total, spanOf) && RunIsOut(b, chains, spanOf, run) && run != []
    requires forall x :: x in run ==> x != NULL && x in b.next
    ensures run[0] in spanOf && spanOf[run[0]] in chains && spanOf[run[0]] in b.uses && spanOf[run[0]] in b.heads
    ensures b.uses[spanOf[run[0]]] >= 1 && |OfSpan(run, spanOf, spanOf[run[0]])| <= b.uses[spanOf[run[0]]]
    ensures run[0] != NULL && run[0] in b.next
    ensures forall x :: x in run[1..] ==> x != NULL && x in GiveOne(b, run[0], spanOf[run[0]], false).next
  {
    assert run[0] in run;
    assert forall x :: x in run[1..] ==> x in run;
  }

  lemma OneUse(b: Bin, x: Addr, p: Ptr)
    requires x in b.next && p in b.heads && p in b.uses && b.uses[p] >= 1
    ensures GiveOne(b, x, p, false).uses == if b.uses[p] == 1 then b.uses - {p} else b.uses[p := b.uses[p] - 1]
  {
  }

  lemma AfterNothing(b: Bin, chains: map<Ptr, seq<Addr>>, total: map<Ptr, nat>, spanOf: map<Addr, Ptr>)
    requires Accounts(b, chains, total, spanOf)
    ensures After(chains, b.uses, [], spanOf) == chains
  {
    forall p | p in chains
      ensures Reverse([]) + chains[p] == chains[p]
    {
    }
  }

  /** The loop with the evident intent: each block comes home to its own span, the accounting stays exact, and
      a span leaves the bin exactly when all its blocks are home. */
  lemma {:induction false} ReturnIntended(b: Bin, chains: map<Ptr, seq<Addr>>, total: map<Ptr, nat>, spanOf: map<Addr, Ptr>,
                                          run: seq<Addr>)
    requires Accounts(b, chains, total, spanOf) && RunIsOut(b, chains, spanOf, run)
    requires forall x :: x in run ==> x != NULL && x in b.next
    ensures Accounts(GiveAll(b, run, spanOf, false), After(chains, b.uses, run, spanOf), total, spanOf)
    decreases |run|
  {
    hide Accounts, RunIsOut, After, GiveOne, OfSpan;
    if run == [] {
      AfterNothing(b, chains, total, spanOf);
    } else {
      GiveOneFits(b, chains, total, spanOf, run);
      var p := spanOf[run[0]];
      var b1 := GiveOne(b, run[0], p, false);
      OneUse(b, run[0], p);
      var chains1 := GiveOneKeeps(b, chains, total, spanOf, run);
      RunStaysOut(b, chains, total, spanOf, run, chains1, b1);
      ReturnIntended(b1, chains1, total, spanOf, run[1..]);
      AfterStep(chains, b.uses, run, spanOf, p);
    }
  }

  // ----- the loop as written ----------------------------------------------------------

  lemma {:induction false} OfNone(run: seq<Addr>, spanOf: map<Addr, Ptr>, p: Ptr)
    requires OfSpan(run, spanOf, p) == []
    ensures forall x :: x in run && x in spanOf ==> spanOf[x] != p
  {
    if run != [] {
      OfNone(run[1..], spanOf, p);
    }
  }

  /** What the loop as written does to span p: untouched if the run has no block of p; gone if all its blocks are
      home; otherwise its head is NULL or a block of some other span. */
  ghost predicate Stray(b: Bin, b': Bin, run: seq<Addr>, spanOf: map<Addr, Ptr>, p: Ptr) {
    var n := |OfSpan(run, spanOf, p)|;
    && b'.heads.Keys == b'.uses.Keys
    && (p in b'.uses <==> p in b.uses && n < b.uses[p])
    && (p in b'.uses ==> b'.uses[p] == b.uses[p] - n)
    && (p in b'.uses && n == 0 ==> p in b.heads && b'.heads[p] == b.heads[p])
    && (p in b'.uses && n > 0 ==> b'.heads[p] == NULL || (b'.heads[p] in spanOf && spanOf[b'.heads[p]] != p))
  }

  lemma StrayStep(b: Bin, run: seq<Addr>, spanOf: map<Addr, Ptr>, p: Ptr, b1: Bin, b': Bin)
    requires b.heads.Keys == b.uses.Keys && Fits(b.uses, run, spanOf) && run != [] && run[0] in b.next
    requires b.next[run[0]] == HeadOf(run[1..])
    requires run[0] in spanOf && spanOf[run[0]] in b.uses && b.uses[spanOf[run[0]]] >= 1
    requires b1 == GiveOne(b, run[0], spanOf[run[0]], true)
    requires Stray(b1, b', run[1..], spanOf, p)
    ensures Stray(b, b', run, spanOf, p)
  {
    OfRest(run, spanOf, p);
    if OfSpan(run[1..], spanOf, p) == [] && run[1..] != [] {
      OfNone(run[1..], spanOf, p);
      assert run[1] in run && run[1..][0] in run[1..];
    }
  }

  lemma {:induction false} AsWrittenStrays(b: Bin, start: Addr, run: seq<Addr>, spanOf: map<Addr, Ptr>, p: Ptr)
    requires b.heads.Keys == b.uses.Keys && Fits(b.uses, run, spanOf) && Chain(b.next, start, run)
    ensures Stray(b, GiveAll(b, run, spanOf, true), run, spanOf, p)
    decreases |run|
  {
    if run != [] {
      FitsStep(b.uses, run, spanOf);
      ChainIsSegment(b.next, start, run);
      RestDiffers(b.next, run);
      var q := spanOf[run[0]];
      var b1 := GiveOne(b, run[0], q, true);
      ChainFrame(b.next, b1.next, b.next[run[0]], run[1..]);
      AsWrittenStrays(b1, b.next[run[0]], run[1..], spanOf, p);
      StrayStep(b, run, spanOf, p, b1, GiveAll(b, run, spanOf, true));
    }
  }

  /** Only cells of the run are written. */
  lemma {:induction false} GiveAllFrame(b: Bin, run: seq<Addr>, spanOf: map<Addr, Ptr>, asWritten: bool)
    ensures forall x :: x in b.next && x !in run ==>
              (x in GiveAll(b, run, spanOf, asWritten).next && GiveAll(b, run, spanOf, asWritten).next[x] == b.next[x])
    ensures GiveAll(b, run, spanOf, asWritten).uses.Keys <= b.uses.Keys
    decreases |run|
  {
    if run != [] {
      var x := run[0];
      if x in spanOf && x in b.next && spanOf[x] in b.heads && spanOf[x] in b.uses && b.uses[spanOf[x]] >= 1 {
        GiveAllFrame(GiveOne(b, x, spanOf[x], asWritten), run[1..], spanOf, asWritten);
      }
    }
  }

  lemma StrayBreaks(b: Bin, b': Bin, chains: map<Ptr, seq<Addr>>, chains': map<Ptr, seq<Addr>>, total: map<Ptr, nat>,
                    spanOf: map<Addr, Ptr>, run: seq<Addr>, p: Ptr)
    requires Accounts(b, chains, total, spanOf) && Accounts(b', chains', total, spanOf) && Stray(b, b', run, spanOf, p)
    requires p in b.uses && |OfSpan(run, spanOf, p)| <= b.uses[p]
    ensures OfSpan(run, spanOf, p) == [] || |OfSpan(run, spanOf, p)| == b.uses[p]
  {
    assert p in chains' ==> |chains'[p]| == 0 || chains'[p][0] in chains'[p];
  }

  /** As written, `span->_freelist_header = next`, returning a run keeps the span accounting exactly when each
      span of the bin either has no block in the run or gets all its blocks back with it (and leaves the bin).
      Any other returned block is lost: no chain leads to it, though the use count has gone down. */
  lemma ReturnAsWritten(b: Bin, chains: map<Ptr, seq<Addr>>, total: map<Ptr, nat>, spanOf: map<Addr, Ptr>,
                        start: Addr, run: seq<Addr>)
    requires Accounts(b, chains, total, spanOf) && RunIsOut(b, chains, spanOf, run) && Chain(b.next, start, run)
    ensures (exists chains' :: Accounts(GiveAll(b, run, spanOf, true), chains', total, spanOf)) <==>
            (forall p :: p in b.uses ==> OfSpan(run, spanOf, p) == [] || |OfSpan(run, spanOf, p)| == b.uses[p])
  {
    var b' := GiveAll(b, run, spanOf, true);
    RunFitsOf(b, chains, total, spanOf, run);
    KeysAgree(b, chains, total, spanOf);
    forall p
      ensures Stray(b, b', run, spanOf, p)
    {
      AsWrittenStrays(b, start, run, spanOf, p);
    }
    if chains' :| Accounts(b', chains', total, spanOf) {
      forall p | p in b.uses
        ensures OfSpan(run, spanOf, p) == [] || |OfSpan(run, spanOf, p)| == b.uses[p]
      {
        StrayBreaks(b, b', chains, chains', total, spanOf, run, p);
      }
    }
    if forall p :: p in b.uses ==> OfSpan(run, spanOf, p) == [] || |OfSpan(run, spanOf, p)| == b.uses[p] {
      StrayKeeps(b, b', chains, total, spanOf, start, run);
    }
  }

  lemma StrayKeeps(b: Bin, b': Bin, chains: map<Ptr, seq<Addr>>, total: map<Ptr, nat>, spanOf: map<Addr, Ptr>,
                   start: Addr, run: seq<Addr>)
    requires Accounts(b, chains, total, spanOf) && RunIsOut(b, chains, spanOf, run) && Chain(b.next, start, run)
    requires b' == GiveAll(b, run, spanOf, true) && forall p :: Stray(b, b', run, spanOf, p)
    requires forall p :: p in b.uses ==> OfSpan(run, spanOf, p) == [] || |OfSpan(run, spanOf, p)| == b.uses[p]
    ensures exists chains' :: Accounts(b', chains', total, spanOf)
  {
    StrayKeys(b, b', chains, total, spanOf, run);
    forall p | p in b'.uses
      ensures Settled(b', chains, total, spanOf, p)
    {
      StrayLeaves(b, b', chains, total, spanOf, start, run, p);
    }
    hide Settled, GiveAll, Stray, Accounts, RunIsOut, Chain;
    var chains' := SettledAll(b', chains, total, spanOf);
  }

  ghost predicate Settled(b: Bin, chains: map<Ptr, seq<Addr>>, total: map<Ptr, nat>, spanOf: map<Addr, Ptr>, p: Ptr) {
    && p in chains && p in total && p in b.heads && p in b.uses && Chain(b.next, b.heads[p], chains[p])
    && |chains[p]| + b.uses[p] == total[p] && b.uses[p] >= 1
    && forall x :: x in chains[p] ==> x in spanOf && spanOf[x] == p
  }

  lemma SettledAll(b: Bin, chains: map<Ptr, seq<Addr>>, total: map<Ptr, nat>, spanOf: map<Addr, Ptr>)
    returns (chains': map<Ptr, seq<Addr>>)
    requires b.heads.Keys == b.uses.Keys <= chains.Keys <= total.Keys
    requires forall p :: p in b.uses ==> Settled(b, chains, total, spanOf, p)
    ensures Accounts(b, chains', total, spanOf)
  {
    hide Chain;
    chains' := map p | p in chains && p in b.uses :: chains[p];
    assert chains'.Keys == b.uses.Keys;
    assert forall p :: p in chains' ==> Settled(b, chains, total, spanOf, p);
  }

  lemma StrayKeys(b: Bin, b': Bin, chains: map<Ptr, seq<Addr>>, total: map<Ptr, nat>, spanOf: map<Addr, Ptr>, run: seq<Addr>)
    requires Accounts(b, chains, total, spanOf) && forall p :: Stray(b, b', run, spanOf, p)
    ensures b'.heads.Keys == b'.uses.Keys && b'.uses.Keys <= chains.Keys <= total.Keys
  {
    assert Stray(b, b', run, spanOf, 0);
    forall p | p in b'.uses
      ensures p in chains
    {
      assert Stray(b, b', run, spanOf, p);
    }
  }

  /** A span without a block in the run is as before. */
  lemma StrayLeaves(b: Bin, b': Bin, chains: map<Ptr, seq<Addr>>, total: map<Ptr, nat>, spanOf: map<Addr, Ptr>,
                    start: Addr, run: seq<Addr>, p: Ptr)
    requires Accounts(b, chains, total, spanOf) && RunIsOut(b, chains, spanOf, run) && Chain(b.next, start, run)
    requires b' == GiveAll(b, run, spanOf, true) && Stray(b, b', run, spanOf, p) && p in b'.uses
    requires OfSpan(run, spanOf, p) == [] || |OfSpan(run, spanOf, p)| == b.uses[p]
    ensures Settled(b', chains, total, spanOf, p)
  {
    GiveAllFrame(b, run, spanOf, true);
    ChainOutside(b, chains, spanOf, run, p);
    ChainFrame(b.next, b'.next, b.heads[p], chains[p]) by {
      ChainCells(b.next, b.heads[p], chains[p]);
    }
  }

  lemma ChainCells(next: map<Addr, Addr>, head: Addr, s: seq<Addr>)
    requires Chain(next, head, s)
    ensures forall x :: x in s ==> x in next
  {
    ChainIsSegment(next, head, s);
  }

  lemma ChainOutside(b: Bin, chains: map<Ptr, seq<Addr>>, spanOf: map<Addr, Ptr>, run: seq<Addr>, p: Ptr)
    requires RunIsOut(b, chains, spanOf, run) && p in chains && OfSpan(run, spanOf, p) == []
    requires forall x :: x in chains[p] ==> x in spanOf && spanOf[x] == p
    ensures forall x :: x in chains[p] ==> x !in run
  {
    OfNone(run, spanOf, p);
  }

  /** A concrete loss: span 0 has two blocks, at 8 and 16, both handed out; 8 comes back alone. */
  lemma ReturnLoses()
    ensures var b := Bin(map[8 := NULL, 16 := NULL], map[0 := NULL], map[0 := 2]);
            var spanOf := map[8 := 0, 16 := 0];
            && Accounts(b, map[0 := []], map[0 := 2], spanOf)
            && !exists chains' :: Accounts(GiveAll(b, [8], spanOf, true), chains', map[0 := 2], spanOf)
  {
    var b := Bin(map[8 := NULL, 16 := NULL], map[0 := NULL], map[0 := 2]);
    var spanOf := map[8 := 0, 16 := 0];
    var run: seq<Addr> := [8];
    OfRest(run, spanOf, 0);
    assert run[1..] == [];
    assert OfSpan(run, spanOf, 0) == [8];
    assert Chain(b.next, 8, run);
    ReturnAsWritten(b, map[0 := []], map[0 := 2], spanOf, 8, run);
  }
}
