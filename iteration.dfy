/** The iterative estimator (`iterate_pagerank`): synchronous fixed-point updates
    of a rank table, starting from the uniform table, until no entry changes by
    as much as the threshold. */
module Iteration {
  import opened Graph

  /** The convergence threshold of `iterate_pagerank`. */
  const Threshold: real := 0.001

  function Abs(x: real): (r: real)
  {
    if x < 0.0 then -x else x
  }

  /** The rank that page `q` passes to page `p` in one update: a sink spreads
      damping·rank/N over every page; any other page gives damping·rank/|links|
      to each page it links to and nothing to the rest. */
  function Share(corpus: Corpus, damping: real, rank: Table, q: Page, p: Page): (r: real)
    requires q in corpus && q in rank
  {
    Portion(corpus, q, damping * rank[q], p)
  }

  /** The part of an amount `x` given out by `q` that reaches `p`: a sink
      spreads it evenly over the corpus, any other page evenly over its links. */
  function Portion(corpus: Corpus, q: Page, x: real, p: Page): (r: real)
    requires q in corpus
  {
    if |corpus[q]| == 0 then x / |corpus| as real
    else if p in corpus[q] then x / |corpus[q]| as real
    else 0.0
  }

  /** The rank flowing into `p` from the pages of `qs`. */
  function Inflow(corpus: Corpus, damping: real, rank: Table, qs: seq<Page>, p: Page): (r: real)
    requires forall q | q in qs :: q in corpus && q in rank
  {
    if qs == [] then 0.0
    else Inflow(corpus, damping, rank, qs[..|qs| - 1], p) + Share(corpus, damping, rank, qs[|qs| - 1], p)
  }

  /** One update: every page gets (1 - damping)/N plus what flows into it, all
      computed from the previous table `rank` alone. */
  function Updated(corpus: Corpus, order: seq<Page>, damping: real, rank: Table): (t: Table)
    requires Enumerates(order, corpus.Keys) && rank.Keys == corpus.Keys
  {
    map p | p in corpus :: (1.0 - damping) / |corpus| as real + Inflow(corpus, damping, rank, order, p)
  }

  /** A table with the entries of an update is that update. */
  lemma IsUpdated(corpus: Corpus, order: seq<Page>, damping: real, rank: Table, t: Table)
    requires Enumerates(order, corpus.Keys) && rank.Keys == corpus.Keys
    requires t.Keys == corpus.Keys
    requires forall p | p in t :: t[p] == (1.0 - damping) / |corpus| as real + Inflow(corpus, damping, rank, order, p)
    ensures t == Updated(corpus, order, damping, rank)
  {
    var u := Updated(corpus, order, damping, rank);
    assert t.Keys == u.Keys;
    forall p | p in t ensures t[p] == u[p] {
    }
  }

  /** The starting table: 1/N for every page. */
  function Uniform(corpus: Corpus): (t: Table)
  {
    map p | p in corpus :: 1.0 / |corpus| as real
  }

  /** The table after `k` updates of the uniform one. */
  function Ranks(corpus: Corpus, order: seq<Page>, damping: real, k: nat): (t: Table)
    requires Enumerates(order, corpus.Keys)
    ensures t.Keys == corpus.Keys
  {
    if k == 0 then Uniform(corpus)
    else Updated(corpus, order, damping, Ranks(corpus, order, damping, k - 1))
  }

  /** The largest change of any entry between `prev` and `next`, taken over
      the pages of `order`. */
  function MaxDifference(order: seq<Page>, next: Table, prev: Table): (r: real)
    requires order != []
    requires forall p | p in order :: p in next && p in prev
  {
    var last := order[|order| - 1];
    var d := Abs(next[last] - prev[last]);
    if |order| == 1 then d
    else
      var m := MaxDifference(order[..|order| - 1], next, prev);
      if d > m then d else m
  }

  /** `MaxDifference` bounds every change and is the change of some page. */
  lemma {:induction false} MaxDifferenceIsMaximum(order: seq<Page>, next: Table, prev: Table)
    requires order != []
    requires forall p | p in order :: p in next && p in prev
    ensures forall p | p in order :: Abs(next[p] - prev[p]) <= MaxDifference(order, next, prev)
    ensures exists p | p in order :: Abs(next[p] - prev[p]) == MaxDifference(order, next, prev)
  {
    var last := order[|order| - 1];
    var m := MaxDifference(order, next, prev);
    if |order| == 1 {
      assert order == [last];
      assert Abs(next[last] - prev[last]) == m;
    } else {
      var rest := order[..|order| - 1];
      assert order == rest + [last];
      MaxDifferenceIsMaximum(rest, next, prev);
      var q :| q in rest && Abs(next[q] - prev[q]) == MaxDifference(rest, next, prev);
      if Abs(next[last] - prev[last]) == m {
        assert last in order;
      } else {
        assert q in order && Abs(next[q] - prev[q]) == m;
      }
    }
  }

  /** The update of the `k`-th table changes no entry by as much as the threshold. */
  predicate ConvergedAt(corpus: Corpus, order: seq<Page>, damping: real, k: nat)
    requires Enumerates(order, corpus.Keys) && order != []
  {
    MaxDifference(order, Ranks(corpus, order, damping, k + 1), Ranks(corpus, order, damping, k)) < Threshold
  }

  /** What the loop may return when it is allowed `fuel` updates: the `k`-th
      table for the first `k` whose update converges (the table from before
      that update), or None when none of the first `fuel` updates converges. */
  ghost predicate Outcome(corpus: Corpus, order: seq<Page>, damping: real, fuel: nat, result: Option<Table>)
    requires Enumerates(order, corpus.Keys) && order != []
  {
    match result
    case Some(t) =>
      exists k: nat | k < fuel ::
        && t == Ranks(corpus, order, damping, k)
        && ConvergedAt(corpus, order, damping, k)
        && forall j: nat | j < k :: !ConvergedAt(corpus, order, damping, j)
    case None =>
      forall k: nat | k < fuel :: !ConvergedAt(corpus, order, damping, k)
  }

  /** The iteration is deterministic: one outcome for each corpus, damping
      factor and bound. */
  lemma OutcomeIsUnique(corpus: Corpus, order: seq<Page>, damping: real, fuel: nat, r1: Option<Table>, r2: Option<Table>)
    requires Enumerates(order, corpus.Keys) && order != []
    requires Outcome(corpus, order, damping, fuel, r1) && Outcome(corpus, order, damping, fuel, r2)
    ensures r1 == r2
  {
    if r1.Some? && r2.Some? {
      var k1: nat :| k1 < fuel && r1.value == Ranks(corpus, order, damping, k1)
        && ConvergedAt(corpus, order, damping, k1)
        && forall j: nat | j < k1 :: !ConvergedAt(corpus, order, damping, j);
      var k2: nat :| k2 < fuel && r2.value == Ranks(corpus, order, damping, k2)
        && ConvergedAt(corpus, order, damping, k2)
        && forall j: nat | j < k2 :: !ConvergedAt(corpus, order, damping, j);
      assert k1 == k2;
    }
  }

  /** One pass of the loop of `iterate_pagerank`: the new table, page by page, each entry accumulated over
      every page of the corpus from the previous table only. */
  method UpdateRanks(corpus: Corpus, order: seq<Page>, damping: real, pagerank: Table)
    returns (newPagerank: Table)
    requires Enumerates(order, corpus.Keys) && order != [] && pagerank.Keys == corpus.Keys
    ensures newPagerank == Updated(corpus, order, damping, pagerank)
  {
    EnumeratesSize(order, corpus.Keys);
    var n := |corpus| as real;
    newPagerank := map[];
    for i := 0 to |order|
      invariant newPagerank.Keys == Elements(order[..i])
      invariant forall p | p in newPagerank ::
        newPagerank[p] == (1.0 - damping) / n + Inflow(corpus, damping, pagerank, order, p)
    {
      var page := order[i];
      assert order[..i + 1] == order[..i] + [page];
      newPagerank := newPagerank[page := (1.0 - damping) / n];
      newPagerank := AddInflow(corpus, order, damping, pagerank, newPagerank, page);
    }
    assert order[..|order|] == order;
    IsUpdated(corpus, order, damping, pagerank, newPagerank);
  }

  /** The inner loop of `iterate_pagerank`: every page of the corpus adds its share
      of the previous rank to the entry of `page`. */
  method AddInflow(corpus: Corpus, order: seq<Page>, damping: real, pagerank: Table, current: Table, page: Page)
    returns (newPagerank: Table)
    requires Enumerates(order, corpus.Keys) && pagerank.Keys == corpus.Keys
    requires page in current
    ensures newPagerank == current[page := current[page] + Inflow(corpus, damping, pagerank, order, page)]
  {
    newPagerank := current;
    for j := 0 to |order|
      invariant newPagerank.Keys == current.Keys
      invariant newPagerank[page] == current[page] + Inflow(corpus, damping, pagerank, order[..j], page)
      invariant forall p | p in current && p != page :: newPagerank[p] == current[p]
    {
      assert order[..j + 1][..j] == order[..j];
      newPagerank := AddShare(corpus, damping, pagerank, newPagerank, order[j], page);
    }
    assert order[..|order|] == order;
    assert newPagerank == current[page := current[page] + Inflow(corpus, damping, pagerank, order, page)];
  }

  /** The body of the inner loop: `possiblePage` passes its share of the
      previous rank to `page`. */
  method AddShare(corpus: Corpus, damping: real, pagerank: Table, current: Table, possiblePage: Page, page: Page)
    returns (newPagerank: Table)
    requires possiblePage in corpus && possiblePage in pagerank && page in current
    ensures newPagerank == current[page := current[page] + Share(corpus, damping, pagerank, possiblePage, page)]
  {
    newPagerank := current;
    if |corpus[possiblePage]| == 0 {
      newPagerank := newPagerank[page := newPagerank[page] + damping * pagerank[possiblePage] / |corpus| as real];
    } else if page in corpus[possiblePage] {
      newPagerank := newPagerank[page :=
        newPagerank[page] + damping * pagerank[possiblePage] / |corpus[possiblePage]| as real];
    }
  }

  /** `iterate_pagerank(corpus, damping_factor)`, allowed at most `fuel`
      updates. */
  method IteratePagerank(corpus: Corpus, order: seq<Page>, damping: real, fuel: nat)
    returns (result: Option<Table>)
    requires Enumerates(order, corpus.Keys) && order != []
    ensures Outcome(corpus, order, damping, fuel, result)
    ensures result.Some? && WellFormed(corpus) && 0.0 <= damping <= 1.0 ==> IsDistribution(order, result.value)
  {
    EnumeratesSize(order, corpus.Keys);
    var n := |corpus| as real;
    var pagerank := Fill(order, 1.0 / n);
    assert pagerank == Ranks(corpus, order, damping, 0);
    var k := 0;
    while k < fuel
      invariant k <= fuel
      invariant pagerank == Ranks(corpus, order, damping, k)
      invariant forall j: nat | j < k :: !ConvergedAt(corpus, order, damping, j)
    {
      var newPagerank := UpdateRanks(corpus, order, damping, pagerank);
      NextRanks(corpus, order, damping, k, pagerank, newPagerank);
      var difference := MaxDifference(order, newPagerank, pagerank);
      if difference < Threshold {
        result := Some(pagerank);
        Found(corpus, order, damping, fuel, k);
        RanksAreDistributionsIfSound(corpus, order, damping, k);
        return;
      }
      NotYetConverged(corpus, order, damping, k);
      pagerank := newPagerank;
      k := k + 1;
    }
    NotFound(corpus, order, damping, fuel);
    return None;
  }

  lemma NextRanks(corpus: Corpus, order: seq<Page>, damping: real, k: nat, pagerank: Table, newPagerank: Table)
    requires Enumerates(order, corpus.Keys) && order != []
    requires pagerank == Ranks(corpus, order, damping, k)
    requires newPagerank == Updated(corpus, order, damping, pagerank)
    ensures newPagerank == Ranks(corpus, order, damping, k + 1)
    ensures ConvergedAt(corpus, order, damping, k) <==> MaxDifference(order, newPagerank, pagerank) < Threshold
  {
  }

  lemma Found(corpus: Corpus, order: seq<Page>, damping: real, fuel: nat, k: nat)
    requires Enumerates(order, corpus.Keys) && order != []
    requires k < fuel && ConvergedAt(corpus, order, damping, k)
    requires forall j: nat | j < k :: !ConvergedAt(corpus, order, damping, j)
    ensures Outcome(corpus, order, damping, fuel, Some(Ranks(corpus, order, damping, k)))
  {
  }

  lemma NotFound(corpus: Corpus, order: seq<Page>, damping: real, fuel: nat)
    requires Enumerates(order, corpus.Keys) && order != []
    requires forall j: nat | j < fuel :: !ConvergedAt(corpus, order, damping, j)
    ensures Outcome(corpus, order, damping, fuel, None)
  {
  }

  /** One more update that does not converge. */
  lemma NotYetConverged(corpus: Corpus, order: seq<Page>, damping: real, k: nat)
    requires Enumerates(order, corpus.Keys) && order != []
    requires forall j: nat | j < k :: !ConvergedAt(corpus, order, damping, j)
    requires !ConvergedAt(corpus, order, damping, k)
    ensures forall j: nat | j < k + 1 :: !ConvergedAt(corpus, order, damping, j)
  {
  }

  lemma RanksAreDistributionsIfSound(corpus: Corpus, order: seq<Page>, damping: real, k: nat)
    requires Enumerates(order, corpus.Keys) && order != []
    ensures WellFormed(corpus) && 0.0 <= damping <= 1.0 ==> IsDistribution(order, Ranks(corpus, order, damping, k))
  {
    if WellFormed(corpus) && 0.0 <= damping <= 1.0 {
      RanksAreDistributions(corpus, order, damping, k);
    }
  }

  // The update keeps a probability distribution. The proof sums the flow of
  // rank between pages once by destination and once by source.

  /** The sum over the source pages `qs` of the flow `f(q, p)` into `p`. */
  ghost function Row(f: (Page, Page) -> real, qs: seq<Page>, p: Page): (r: real)
  {
    if qs == [] then 0.0 else Row(f, qs[..|qs| - 1], p) + f(qs[|qs| - 1], p)
  }

  /** The sum over the destination pages `ps` of the flow `f(q, p)` out of `q`. */
  ghost function Column(f: (Page, Page) -> real, q: Page, ps: seq<Page>): (r: real)
  {
    if ps == [] then 0.0 else Column(f, q, ps[..|ps| - 1]) + f(q, ps[|ps| - 1])
  }

  /** The flow from `qs` into `ps`, summed by destination. */
  ghost function ByDestination(f: (Page, Page) -> real, ps: seq<Page>, qs: seq<Page>): (r: real)
  {
    if ps == [] then 0.0 else ByDestination(f, ps[..|ps| - 1], qs) + Row(f, qs, ps[|ps| - 1])
  }

  /** The flow from `qs` into `ps`, summed by source. */
  ghost function BySource(f: (Page, Page) -> real, qs: seq<Page>, ps: seq<Page>): (r: real)
  {
    if qs == [] then 0.0 else BySource(f, qs[..|qs| - 1], ps) + Column(f, qs[|qs| - 1], ps)
  }

  lemma {:induction false} NoSources(f: (Page, Page) -> real, ps: seq<Page>)
    ensures ByDestination(f, ps, []) == 0.0
  {
    if ps != [] {
      NoSources(f, ps[..|ps| - 1]);
    }
  }

  /** One more source page adds its column. */
  lemma {:induction false} AddSource(f: (Page, Page) -> real, ps: seq<Page>, qs: seq<Page>, q: Page)
    ensures ByDestination(f, ps, qs + [q]) == ByDestination(f, ps, qs) + Column(f, q, ps)
  {
    assert (qs + [q])[..|qs|] == qs;
    if ps != [] {
      AddSource(f, ps[..|ps| - 1], qs, q);
    }
  }

  /** Summing a flow by destination or by source gives the same total. */
  lemma {:induction false} Exchange(f: (Page, Page) -> real, ps: seq<Page>, qs: seq<Page>)
    ensures ByDestination(f, ps, qs) == BySource(f, qs, ps)
  {
    if qs == [] {
      NoSources(f, ps);
    } else {
      var rest, last := qs[..|qs| - 1], qs[|qs| - 1];
      assert qs == rest + [last];
      Exchange(f, ps, rest);
      AddSource(f, ps, rest, last);
    }
  }

  /** The flow of one update as a total function of source and destination. */
  ghost function Flow(corpus: Corpus, damping: real, rank: Table): (f: (Page, Page) -> real)
  {
    (q: Page, p: Page) => if q in corpus && q in rank then Share(corpus, damping, rank, q, p) else 0.0
  }

  lemma {:induction false} InflowIsRow(corpus: Corpus, damping: real, rank: Table, qs: seq<Page>, p: Page)
    requires forall q | q in qs :: q in corpus && q in rank
    ensures Inflow(corpus, damping, rank, qs, p) == Row(Flow(corpus, damping, rank), qs, p)
  {
    if qs != [] {
      InflowIsRow(corpus, damping, rank, qs[..|qs| - 1], p);
    }
  }

  /** The portions of `x` that `q` gives to each page. */
  function Spread(corpus: Corpus, q: Page, x: real): (t: Table)
    requires q in corpus
  {
    map p | p in corpus :: Portion(corpus, q, x, p)
  }

  lemma {:induction false} ColumnIsSpread(corpus: Corpus, damping: real, rank: Table, q: Page, ps: seq<Page>)
    requires q in corpus && q in rank
    requires forall p | p in ps :: p in corpus
    ensures Column(Flow(corpus, damping, rank), q, ps) == Sum(ps, Spread(corpus, q, damping * rank[q]))
  {
    if ps != [] {
      ColumnIsSpread(corpus, damping, rank, q, ps[..|ps| - 1]);
    }
  }

  /** With no dangling links, the portions of `x` add up to `x`. */
  lemma SpreadAll(corpus: Corpus, order: seq<Page>, q: Page, x: real)
    requires Enumerates(order, corpus.Keys) && WellFormed(corpus)
    requires q in corpus
    ensures Sum(order, Spread(corpus, q, x)) == x
  {
    var g := Spread(corpus, q, x);
    var links := corpus[q];
    EnumeratesSize(order, corpus.Keys);
    TimesIsProduct(|order|, 0.0);
    if |links| == 0 {
      SumAffine(order, g, x / |corpus| as real, 0.0, {});
      TimesIsProduct(|{} * Elements(order)|, 0.0);
      TimesShare(|corpus|, x);
    } else {
      SumAffine(order, g, 0.0, x / |links| as real, links);
      assert links * Elements(order) == links;
      TimesShare(|links|, x);
    }
  }

  /** With no dangling links, a page gives away exactly damping times its rank. */
  lemma GivesAll(corpus: Corpus, order: seq<Page>, damping: real, rank: Table, q: Page)
    requires Enumerates(order, corpus.Keys) && WellFormed(corpus)
    requires q in corpus && q in rank
    ensures Column(Flow(corpus, damping, rank), q, order) == damping * rank[q]
  {
    ColumnIsSpread(corpus, damping, rank, q, order);
    SpreadAll(corpus, order, q, damping * rank[q]);
  }

  /** Summed by source, a flow adds up the columns of the sources. */
  lemma {:induction false} BySourceSum(f: (Page, Page) -> real, qs: seq<Page>, ps: seq<Page>, columns: Table)
    requires forall q | q in qs :: q in columns && Column(f, q, ps) == columns[q]
    ensures BySource(f, qs, ps) == Sum(qs, columns)
  {
    if qs != [] {
      BySourceSum(f, qs[..|qs| - 1], ps, columns);
    }
  }

  function Scaled(rank: Table, c: real): (t: Table)
  {
    map p | p in rank :: c * rank[p]
  }

  /** With no dangling links, the pages give away damping times their total rank. */
  lemma OutflowSum(corpus: Corpus, order: seq<Page>, damping: real, rank: Table)
    requires Enumerates(order, corpus.Keys) && WellFormed(corpus) && rank.Keys == corpus.Keys
    ensures BySource(Flow(corpus, damping, rank), order, order) == damping * Sum(order, rank)
  {
    var columns := Scaled(rank, damping);
    forall q | q in order ensures q in columns && Column(Flow(corpus, damping, rank), q, order) == columns[q] {
      GivesAll(corpus, order, damping, rank, q);
    }
    BySourceSum(Flow(corpus, damping, rank), order, order, columns);
    SumScale(order, rank, columns, damping);
  }

  lemma {:induction false} InflowNonnegative(corpus: Corpus, damping: real, rank: Table, qs: seq<Page>, p: Page)
    requires 0.0 <= damping
    requires forall q | q in qs :: q in corpus && q in rank && 0.0 <= rank[q]
    ensures 0.0 <= Inflow(corpus, damping, rank, qs, p)
  {
    if qs != [] {
      var q := qs[|qs| - 1];
      InflowNonnegative(corpus, damping, rank, qs[..|qs| - 1], p);
      ShareNonnegative(damping * rank[q], |corpus|);
      if |corpus[q]| > 0 {
        ShareNonnegative(damping * rank[q], |corpus[q]|);
      }
    }
  }

  /** The new table's entries add up to N·(1 - damping)/N plus the whole inflow. */
  lemma {:induction false} SumUpdated(corpus: Corpus, order: seq<Page>, damping: real, rank: Table, ps: seq<Page>)
    requires Enumerates(order, corpus.Keys) && rank.Keys == corpus.Keys && |corpus| > 0
    requires forall p | p in ps :: p in corpus
    ensures Sum(ps, Updated(corpus, order, damping, rank))
         == Times(|ps|, (1.0 - damping) / |corpus| as real) + ByDestination(Flow(corpus, damping, rank), ps, order)
  {
    if ps != [] {
      SumUpdated(corpus, order, damping, rank, ps[..|ps| - 1]);
      InflowIsRow(corpus, damping, rank, order, ps[|ps| - 1]);
    }
  }

  /** For a damping factor in [0, 1] and no dangling links, one update maps a
      probability distribution to a probability distribution. */
  lemma UpdatedIsDistribution(corpus: Corpus, order: seq<Page>, damping: real, rank: Table)
    requires Enumerates(order, corpus.Keys) && WellFormed(corpus) && 0.0 <= damping <= 1.0
    requires rank.Keys == corpus.Keys && IsDistribution(order, rank)
    ensures IsDistribution(order, Updated(corpus, order, damping, rank))
  {
    var t := Updated(corpus, order, damping, rank);
    EnumeratesSize(order, corpus.Keys);
    SumUpdated(corpus, order, damping, rank, order);
    TimesShare(|corpus|, 1.0 - damping);
    Exchange(Flow(corpus, damping, rank), order, order);
    OutflowSum(corpus, order, damping, rank);
    assert Sum(order, t) == 1.0;
    forall p | p in order ensures 0.0 <= t[p] {
      InflowNonnegative(corpus, damping, rank, order, p);
      ShareNonnegative(1.0 - damping, |corpus|);
    }
    forall p | p in order ensures t[p] <= 1.0 {
      SumBoundsEach(order, t, p);
    }
  }

  lemma UniformIsDistribution(corpus: Corpus, order: seq<Page>)
    requires Enumerates(order, corpus.Keys) && order != []
    ensures IsDistribution(order, Uniform(corpus))
  {
    var t := Uniform(corpus);
    EnumeratesSize(order, corpus.Keys);
    SumAffine(order, t, 1.0 / |corpus| as real, 0.0, {});
    TimesIsProduct(|{} * Elements(order)|, 0.0);
    TimesShare(|corpus|, 1.0);
    forall p | p in order ensures 0.0 <= t[p] <= 1.0 {
      ShareNonnegative(1.0, |corpus|);
      SumBoundsEach(order, t, p);
    }
  }

  /** Every table of the iteration is a probability distribution. */
  lemma {:induction false} RanksAreDistributions(corpus: Corpus, order: seq<Page>, damping: real, k: nat)
    requires Enumerates(order, corpus.Keys) && order != []
    requires WellFormed(corpus) && 0.0 <= damping <= 1.0
    ensures IsDistribution(order, Ranks(corpus, order, damping, k))
  {
    if k == 0 {
      UniformIsDistribution(corpus, order);
    } else {
      RanksAreDistributions(corpus, order, damping, k - 1);
      UpdatedIsDistribution(corpus, order, damping, Ranks(corpus, order, damping, k - 1));
    }
  }
}
