/** The random surfer's one-step distribution (`transition_model`). */
module Transitions {
  import opened Graph

  /** A dictionary lookup of an absent key. */
  datatype Error = KeyError(key: Page)

  datatype Result<T> = Success(value: T) | Failure(error: Error)

  /** The next-page distribution for a surfer on `page`: from a sink, every
      page with probability 1/N; otherwise (1 - damping)/N for every page, plus
      damping/|links| for each page that `page` links to. */
  function Transition(corpus: Corpus, page: Page, damping: real): (t: Table)
    requires page in corpus
  {
    var n := |corpus| as real;
    var links := corpus[page];
    map p | p in corpus ::
      if |links| == 0 then 1.0 / n
      else (1.0 - damping) / n + (if p in links then damping / |links| as real else 0.0)
  }

  /** For a damping factor in [0, 1] and a page without dangling links, the
      transition is a probability distribution over the corpus. */
  lemma TransitionIsDistribution(corpus: Corpus, order: seq<Page>, page: Page, damping: real)
    requires Enumerates(order, corpus.Keys)
    requires page in corpus && corpus[page] <= corpus.Keys
    requires 0.0 <= damping <= 1.0
    ensures IsDistribution(order, Transition(corpus, page, damping))
  {
    var t := Transition(corpus, page, damping);
    var n := |corpus|;
    var links := corpus[page];
    EnumeratesSize(order, corpus.Keys);
    assert |corpus.Keys| == n;
    if |links| == 0 {
      SumAffine(order, t, 1.0 / n as real, 0.0, {});
      assert Times(|{} * Elements(order)|, 0.0) == 0.0;
      TimesShare(n, 1.0);
    } else {
      SumAffine(order, t, (1.0 - damping) / n as real, damping / |links| as real, links);
      assert links * Elements(order) == links;
      TimesShare(n, 1.0 - damping);
      TimesShare(|links|, damping);
    }
    forall p | p in order ensures 0.0 <= t[p] {
      if |links| == 0 {
        ShareNonnegative(1.0, n);
      } else {
        ShareNonnegative(1.0 - damping, n);
        ShareNonnegative(damping, |links|);
      }
    }
    SumNonnegative(order, t);
    forall p | p in order ensures t[p] <= 1.0 {
      SumBoundsEach(order, t, p);
    }
  }

  /** `transition_model(corpus, page, damping_factor)`; `order` is the order in
      which the dictionary `corpus` is iterated. A missing `page`, or a link of
      `page` to a page outside the corpus, raises KeyError. */
  method TransitionModel(corpus: Corpus, order: seq<Page>, page: Page, damping: real) returns (r: Result<Table>)
    requires Enumerates(order, corpus.Keys)
    ensures r.Failure? <==> page !in corpus || !(corpus[page] <= corpus.Keys)
    ensures page !in corpus ==> r == Failure(KeyError(page))
    ensures r.Failure? ==> r.error.key !in corpus
    ensures r.Failure? && page in corpus ==> r.error.key in corpus[page]
    ensures r.Success? ==> r.value == Transition(corpus, page, damping)
    ensures r.Success? ==> r.value.Keys == corpus.Keys
    ensures r.Success? && |corpus[page]| == 0 ==> forall p | p in corpus :: r.value[p] == 1.0 / |corpus| as real
    ensures r.Success? && |corpus[page]| > 0 ==> forall p | p in corpus && p !in corpus[page] ::
      r.value[p] == (1.0 - damping) / |corpus| as real
    ensures r.Success? && |corpus[page]| > 0 ==> forall p | p in corpus[page] ::
      r.value[p] == (1.0 - damping) / |corpus| as real + damping / |corpus[page]| as real
    ensures r.Success? && 0.0 <= damping <= 1.0 ==> IsDistribution(order, r.value)
  {
    var n := |corpus| as real;
    var probabilities: Table := map[];
    if page !in corpus {
      return Failure(KeyError(page));
    }
    if |corpus[page]| == 0 {
      probabilities := Fill(order, 1.0 / n);
      assert probabilities == Transition(corpus, page, damping);
      r := Success(probabilities);
      TransitionIsDistributionIfSound(corpus, order, page, damping);
      return;
    }
    // A base probability for every page.
    probabilities := Fill(order, (1.0 - damping) / n);
    // The extra probability of following one of the links.
    r := AddShares(probabilities, corpus[page], damping / |corpus[page]| as real);
    if r.Success? {
      assert r.value == Transition(corpus, page, damping);
      TransitionIsDistributionIfSound(corpus, order, page, damping);
    }
  }

  /** `share` added to the entry of every page of `links`, one link at a time
      in some order; a link without an entry raises KeyError. */
  method AddShares(probabilities: Table, links: set<Page>, share: real) returns (r: Result<Table>)
    ensures r.Failure? <==> !(links <= probabilities.Keys)
    ensures r.Failure? ==> r.error.key in links && r.error.key !in probabilities
    ensures r.Success? ==> r.value.Keys == probabilities.Keys
    ensures r.Success? ==> forall p | p in probabilities ::
      r.value[p] == probabilities[p] + (if p in links then share else 0.0)
  {
    var t := probabilities;
    var remaining := links;
    while remaining != {}
      invariant remaining <= links
      invariant links - remaining <= probabilities.Keys
      invariant t.Keys == probabilities.Keys
      invariant forall p | p in t :: t[p] == probabilities[p] + (if p in links - remaining then share else 0.0)
      decreases remaining
    {
      var linkedPage :| linkedPage in remaining;
      if linkedPage !in t {
        return Failure(KeyError(linkedPage));
      }
      t := t[linkedPage := t[linkedPage] + share];
      remaining := remaining - {linkedPage};
    }
    return Success(t);
  }

  lemma TransitionIsDistributionIfSound(corpus: Corpus, order: seq<Page>, page: Page, damping: real)
    requires Enumerates(order, corpus.Keys)
    requires page in corpus && corpus[page] <= corpus.Keys
    ensures 0.0 <= damping <= 1.0 ==> IsDistribution(order, Transition(corpus, page, damping))
  {
    if 0.0 <= damping <= 1.0 {
      TransitionIsDistribution(corpus, order, page, damping);
    }
  }
}
