/** Small corpora worked through by hand: the transition model of a
    three-page corpus, and the iteration on one and two pages, including a
    run whose result is the table from before the last update. */
module Scenarios {
  import opened Graph
  import opened Transitions
  import opened Iteration

  /** Page 1 links to pages 2 and 3, which link to each other. */
  function ThreePages(): (c: Corpus)
  {
    map["1.html" := {"2.html", "3.html"}, "2.html" := {"3.html"}, "3.html" := {"2.html"}]
  }

  /** From page 1 with damping 0.85: 0.15/3 for every page, plus 0.85/2 for
      each of its two links. */
  lemma ThreePageTransition()
    ensures Transition(ThreePages(), "1.html", 0.85) == map["1.html" := 0.05, "2.html" := 0.475, "3.html" := 0.475]
  {
    var corpus := ThreePages();
    ThreePageSizes();
    var t := Transition(corpus, "1.html", 0.85);
    var expected := map["1.html" := 0.05, "2.html" := 0.475, "3.html" := 0.475];
    assert t.Keys == expected.Keys;
    forall p | p in t ensures t[p] == expected[p] {
      assert p in corpus["1.html"] <==> p != "1.html";
    }
  }

  lemma ThreePageSizes()
    ensures |ThreePages()| == 3 && |ThreePages()["1.html"]| == 2
  {
    assert ThreePages().Keys == {"1.html", "2.html", "3.html"};
  }

  /** A lone page keeps rank 1 and the iteration stops after one update. */
  lemma OnePageIteration(x: Page, damping: real, fuel: nat)
    requires fuel >= 1
    ensures Enumerates([x], {x})
    ensures Outcome(map[x := {}], [x], damping, fuel, Some(map[x := 1.0]))
  {
    var corpus, order := map[x := {}], [x];
    OnePageRanks(x, damping);
    assert |corpus| == 1;
    assert MaxDifference(order, map[x := 1.0], map[x := 1.0]) == 0.0;
    Found(corpus, order, damping, fuel, 0);
  }

  lemma OnePageRanks(x: Page, damping: real)
    ensures Enumerates([x], {x})
    ensures Ranks(map[x := {}], [x], damping, 0) == map[x := 1.0]
    ensures Ranks(map[x := {}], [x], damping, 1) == map[x := 1.0]
  {
    var corpus, order, one := map[x := {}], [x], map[x := 1.0];
    assert [x][..0] == [];
    assert |corpus| == 1;
    Whole(1.0, |corpus|);
    assert Uniform(corpus) == one;
    Whole(1.0 - damping, |corpus|);
    Whole(damping * 1.0, |corpus|);
    assert Inflow(corpus, damping, one, order, x) == damping;
    assert Distinct([]) && Elements([x]) == {x} && corpus.Keys == {x};
    assert Updated(corpus, order, damping, one) == one;
  }

  /** Two pages linking to each other: the uniform table is already the fixed
      point, for any damping factor. */
  lemma MutualPairIteration(x: Page, y: Page, damping: real, fuel: nat)
    requires x != y && fuel >= 1
    ensures Enumerates([x, y], {x, y})
    ensures Outcome(map[x := {y}, y := {x}], [x, y], damping, fuel, Some(map[x := 0.5, y := 0.5]))
  {
    var corpus, order := map[x := {y}, y := {x}], [x, y];
    PairEnumerates(corpus, x, y);
    var half := map[x := 0.5, y := 0.5];
    UniformPair(corpus, x, y);
    MutualPairUpdate(x, y, damping);
    assert MaxDifference(order, half, half) == 0.0;
    Found(corpus, order, damping, fuel, 0);
  }

  lemma MutualPairUpdate(x: Page, y: Page, damping: real)
    requires x != y
    ensures Enumerates([x, y], {x, y})
    ensures Updated(map[x := {y}, y := {x}], [x, y], damping, map[x := 0.5, y := 0.5]) == map[x := 0.5, y := 0.5]
  {
    var corpus, rank := map[x := {y}, y := {x}], map[x := 0.5, y := 0.5];
    PairEnumerates(corpus, x, y);
    PairUpdated(corpus, x, y, damping, rank);
    Whole(damping * 0.5, |corpus[x]|);
    Whole(damping * 0.5, |corpus[y]|);
    Halve(1.0 - damping, |corpus|);
  }

  lemma PairEnumerates(corpus: Corpus, x: Page, y: Page)
    requires corpus.Keys == {x, y} && x != y
    ensures Enumerates([x, y], corpus.Keys) && |corpus| == 2
  {
    assert [x, y][..1] == [x];
    assert [x][..0] == [];
    assert Elements([x, y]) == {x, y};
    assert |corpus.Keys| == 2;
  }

  /** Over two pages the uniform table gives each one half. */
  lemma UniformPair(corpus: Corpus, x: Page, y: Page)
    requires corpus.Keys == {x, y} && x != y
    ensures Uniform(corpus) == map[x := 0.5, y := 0.5]
  {
    PairEnumerates(corpus, x, y);
    Halve(1.0, |corpus|);
  }

  /** One update over two pages, entry by entry. */
  lemma PairUpdated(corpus: Corpus, x: Page, y: Page, damping: real, rank: Table)
    requires corpus.Keys == {x, y} && x != y && rank.Keys == corpus.Keys
    ensures Enumerates([x, y], corpus.Keys)
    ensures Updated(corpus, [x, y], damping, rank) == map[
      x := (1.0 - damping) / |corpus| as real + Share(corpus, damping, rank, x, x) + Share(corpus, damping, rank, y, x),
      y := (1.0 - damping) / |corpus| as real + Share(corpus, damping, rank, x, y) + Share(corpus, damping, rank, y, y)]
  {
    PairEnumerates(corpus, x, y);
    InflowOfPair(corpus, damping, rank, x, y, x);
    InflowOfPair(corpus, damping, rank, x, y, y);
  }

  lemma InflowOfPair(corpus: Corpus, damping: real, rank: Table, x: Page, y: Page, p: Page)
    requires x in corpus && y in corpus && x in rank && y in rank
    ensures Inflow(corpus, damping, rank, [x, y], p) == Share(corpus, damping, rank, x, p) + Share(corpus, damping, rank, y, p)
  {
    assert [x, y][..1] == [x];
    assert [x][..0] == [];
    assert Inflow(corpus, damping, rank, [x], p) == Share(corpus, damping, rank, x, p);
  }

  lemma Halve(v: real, n: nat)
    requires n == 2
    ensures v / n as real == v / 2.0
  {
  }

  lemma Whole(v: real, n: nat)
    requires n == 1
    ensures v / n as real == v
  {
  }

  /** Page x links to page y, which has no links. With a small damping factor
      the first update moves rank from x to y by damping/4, under the
      threshold, so the iteration stops at once and returns the uniform table
      it started from, not the updated one. */
  lemma IntoSinkReturnsTableBeforeUpdate(x: Page, y: Page, damping: real, fuel: nat)
    requires x != y && 0.0 < damping < 0.004 && fuel >= 1
    ensures Enumerates([x, y], {x, y})
    ensures Ranks(map[x := {y}, y := {}], [x, y], damping, 1) == map[x := 0.5 - damping / 4.0, y := 0.5 + damping / 4.0]
    ensures Outcome(map[x := {y}, y := {}], [x, y], damping, fuel, Some(map[x := 0.5, y := 0.5]))
  {
    var corpus, order := map[x := {y}, y := {}], [x, y];
    PairEnumerates(corpus, x, y);
    var half := map[x := 0.5, y := 0.5];
    var next := map[x := 0.5 - damping / 4.0, y := 0.5 + damping / 4.0];
    UniformPair(corpus, x, y);
    IntoSinkUpdate(x, y, damping);
    assert MaxDifference(order, next, half) == damping / 4.0;
    Found(corpus, order, damping, fuel, 0);
  }

  lemma IntoSinkUpdate(x: Page, y: Page, damping: real)
    requires x != y
    ensures Enumerates([x, y], {x, y})
    ensures Updated(map[x := {y}, y := {}], [x, y], damping, map[x := 0.5, y := 0.5])
         == map[x := 0.5 - damping / 4.0, y := 0.5 + damping / 4.0]
  {
    var corpus, rank := map[x := {y}, y := {}], map[x := 0.5, y := 0.5];
    PairEnumerates(corpus, x, y);
    PairUpdated(corpus, x, y, damping, rank);
    Whole(damping * 0.5, |corpus[x]|);
    Halve(damping * 0.5, |corpus|);
    Halve(1.0 - damping, |corpus|);
  }
}
