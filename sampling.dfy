/** The sampling estimator (`sample_pagerank`). The random choices are an input:
    `picks[0]` is the uniformly chosen start page and `picks[i]`, for i >= 1,
    the page drawn from the transition distribution of `picks[i - 1]`. */
module Sampling {
  import opened Graph
  import opened Transitions

  /** How often `p` was visited. */
  function Visits(picks: seq<Page>, p: Page): (r: nat)
  {
    multiset(picks)[p]
  }

  /** The visit count of every page of the corpus. */
  function Counts(corpus: Corpus, picks: seq<Page>): (t: Table)
  {
    map p | p in corpus :: Visits(picks, p) as real
  }

  /** The visit frequency of every page of the corpus. */
  function Frequencies(corpus: Corpus, picks: seq<Page>): (t: Table)
    requires picks != []
  {
    map p | p in corpus :: Visits(picks, p) as real / |picks| as real
  }

  /** When every visit is to a page of the corpus, the counts add up to the
      number of visits. */
  lemma {:induction false} CountsSum(corpus: Corpus, order: seq<Page>, picks: seq<Page>)
    requires Enumerates(order, corpus.Keys)
    requires forall i | 0 <= i < |picks| :: picks[i] in corpus
    ensures Sum(order, Counts(corpus, picks)) == |picks| as real
  {
    if picks == [] {
      NoCounts(corpus, order);
    } else {
      var i := |picks| - 1;
      var rest := picks[..i];
      CountsSum(corpus, order, rest);
      CountsStep(corpus, picks, i);
      assert picks[..i + 1] == picks;
      SumUpdate(order, Counts(corpus, rest), Counts(corpus, picks), picks[i]);
    }
  }

  /** Before any visit every count is zero. */
  lemma NoCounts(corpus: Corpus, order: seq<Page>)
    requires Enumerates(order, corpus.Keys)
    ensures Sum(order, Counts(corpus, [])) == 0.0
  {
    SumAffine(order, Counts(corpus, []), 0.0, 0.0, {});
    TimesIsProduct(|order|, 0.0);
    TimesIsProduct(|{} * Elements(order)|, 0.0);
  }

  /** The visit frequencies of a walk over the corpus form a probability
      distribution. */
  lemma FrequenciesAreDistribution(corpus: Corpus, order: seq<Page>, picks: seq<Page>)
    requires Enumerates(order, corpus.Keys)
    requires picks != []
    requires forall i | 0 <= i < |picks| :: picks[i] in corpus
    ensures IsDistribution(order, Frequencies(corpus, picks))
  {
    var n := |picks| as real;
    var counts, freq := Counts(corpus, picks), Frequencies(corpus, picks);
    CountsSum(corpus, order, picks);
    SumDivide(order, counts, freq, n);
    DivideSelf(n);
    forall p | p in order ensures 0.0 <= freq[p] <= 1.0 {
      FrequencyBounds(picks, p);
    }
  }

  lemma FrequencyBounds(picks: seq<Page>, p: Page)
    requires picks != []
    ensures 0.0 <= Visits(picks, p) as real / |picks| as real <= 1.0
  {
    assert multiset(picks)[p] <= |multiset(picks)|;
    ShareNonnegative(Visits(picks, p) as real, |picks|);
  }

  /** `sample_pagerank(corpus, damping_factor, n)` with the random choices
      given by `picks`. Each draw is a page that the transition distribution of
      the current page gives a positive weight. */
  method SamplePagerank(corpus: Corpus, order: seq<Page>, damping: real, n: nat, picks: seq<Page>)
    returns (pagerank: Table)
    requires Enumerates(order, corpus.Keys)
    requires WellFormed(corpus)
    requires n >= 1 && |picks| == n
    requires forall i | 0 <= i < n :: picks[i] in corpus
    requires forall i | 1 <= i < n :: Transition(corpus, picks[i - 1], damping)[picks[i]] > 0.0
    ensures pagerank == Frequencies(corpus, picks)
    ensures IsDistribution(order, pagerank)
  {
    // Every count starts at zero.
    pagerank := Fill(order, 0.0);
    assert pagerank == Counts(corpus, []);
    pagerank := Walk(corpus, order, damping, picks, pagerank);
    // Counts into frequencies.
    var counts := pagerank;
    pagerank := Divide(order, counts, n as real);
    CountsToFrequencies(corpus, picks, counts, pagerank);
    FrequenciesAreDistribution(corpus, order, picks);
  }

  /** The walk: the start page and then `|picks| - 1` draws, each from the
      transition distribution of the page before it, each adding one visit to
      the page drawn. */
  method Walk(corpus: Corpus, order: seq<Page>, damping: real, picks: seq<Page>, start: Table)
    returns (pagerank: Table)
    requires Enumerates(order, corpus.Keys)
    requires WellFormed(corpus)
    requires |picks| >= 1 && start == Counts(corpus, [])
    requires forall i | 0 <= i < |picks| :: picks[i] in corpus
    requires forall i | 1 <= i < |picks| :: Transition(corpus, picks[i - 1], damping)[picks[i]] > 0.0
    ensures pagerank == Counts(corpus, picks)
  {
    pagerank := start;
    // The first page, chosen at random.
    var currentPage := picks[0];
    pagerank := pagerank[currentPage := pagerank[currentPage] + 1.0];
    CountsStep(corpus, picks, 0);
    // The remaining samples, each drawn from the transition distribution.
    for i := 0 to |picks| - 1
      invariant currentPage == picks[i]
      invariant pagerank == Counts(corpus, picks[..i + 1])
    {
      currentPage := Draw(corpus, order, damping, currentPage, picks[i + 1]);
      pagerank := pagerank[currentPage := pagerank[currentPage] + 1.0];
      CountsStep(corpus, picks, i + 1);
    }
    assert picks[..|picks|] == picks;
  }

  /** One draw: the transition distribution of `currentPage`, and the page
      `pick` that the random choice weighted by it returned. On a corpus
      without dangling links the transition model always succeeds, so the
      walk never meets its KeyError. */
  method Draw(corpus: Corpus, order: seq<Page>, damping: real, currentPage: Page, pick: Page)
    returns (nextPage: Page)
    requires Enumerates(order, corpus.Keys) && WellFormed(corpus)
    requires currentPage in corpus && pick in corpus
    requires Transition(corpus, currentPage, damping)[pick] > 0.0
    ensures nextPage == pick
    ensures Transition(corpus, currentPage, damping)[nextPage] > 0.0
  {
    var distribution := TransitionModel(corpus, order, currentPage, damping);
    assert distribution.Success?;
    nextPage := pick;
    assert distribution.value[nextPage] > 0.0;
  }

  lemma CountsToFrequencies(corpus: Corpus, picks: seq<Page>, counts: Table, u: Table)
    requires picks != [] && counts == Counts(corpus, picks)
    requires u.Keys == counts.Keys
    requires forall p | p in u :: u[p] == counts[p] / |picks| as real
    ensures u == Frequencies(corpus, picks)
  {
  }

  /** Every entry of `t` divided by `n`, one page of `order` at a time. */
  method Divide(order: seq<Page>, t: Table, n: real) returns (u: Table)
    requires Distinct(order) && Elements(order) == t.Keys
    requires n != 0.0
    ensures u.Keys == t.Keys
    ensures forall p | p in u :: u[p] == t[p] / n
  {
    u := t;
    for i := 0 to |order|
      invariant u.Keys == t.Keys
      invariant forall p | p in u :: u[p] == if p in Elements(order[..i]) then t[p] / n else t[p]
    {
      assert order[..i + 1] == order[..i] + [order[i]];
      DistinctAt(order, i);
      u := u[order[i] := u[order[i]] / n];
    }
    assert order[..|order|] == order;
  }

  /** Visiting `picks[i]` adds one to its count and leaves every other count
      as it was. */
  lemma CountsStep(corpus: Corpus, picks: seq<Page>, i: nat)
    requires i < |picks| && picks[i] in corpus
    ensures Counts(corpus, picks[..i + 1]) == Counts(corpus, picks[..i])[picks[i] := Counts(corpus, picks[..i])[picks[i]] + 1.0]
  {
    assert picks[..i + 1] == picks[..i] + [picks[i]];
    assert multiset(picks[..i + 1]) == multiset(picks[..i]) + multiset{picks[i]};
  }
}
