/** The link graph of a corpus of pages, rank tables over its pages, and sums of
    table values taken along a fixed enumeration of the pages. */
module Graph {

  /** A page is named by its file name. */
  type Page = string

  /** Each page of the corpus mapped to the set of pages it links to. */
  type Corpus = map<Page, set<Page>>

  /** A probability, or a visit count, for each page. */
  type Table = map<Page, real>

  datatype Option<T> = None | Some(value: T)

  /** No dangling links: every link names a page of the corpus. */
  predicate WellFormed(corpus: Corpus)
  {
    forall p | p in corpus :: corpus[p] <= corpus.Keys
  }

  /** No page occurs twice in `s`. */
  predicate Distinct(s: seq<Page>)
  {
    s == [] || (Distinct(s[..|s| - 1]) && s[|s| - 1] !in s[..|s| - 1])
  }

  function Elements(s: seq<Page>): (r: set<Page>)
  {
    set p | p in s
  }

  /** `order` lists every page of `keys` exactly once; it stands for
      `list(corpus.keys())`, the order in which a dictionary is iterated. */
  predicate Enumerates(order: seq<Page>, keys: set<Page>)
  {
    Distinct(order) && Elements(order) == keys
  }

  /** The sum of the values of `t` at the pages of `s`. */
  function Sum(s: seq<Page>, t: Table): (r: real)
    requires forall p | p in s :: p in t
  {
    if s == [] then 0.0 else Sum(s[..|s| - 1], t) + t[s[|s| - 1]]
  }

  /** `t` is a probability distribution over exactly the pages of `order`. */
  predicate IsDistribution(order: seq<Page>, t: Table)
  {
    && (forall p | p in t :: p in order)
    && (forall p | p in order :: p in t && 0.0 <= t[p] <= 1.0)
    && Sum(order, t) == 1.0
  }

  /** A table giving `value` to every page of `order`, filled in page by page,
      in the order of `order`. */
  method Fill(order: seq<Page>, value: real) returns (t: Table)
    ensures t.Keys == Elements(order)
    ensures forall p | p in t :: t[p] == value
  {
    t := map[];
    for i := 0 to |order|
      invariant t.Keys == Elements(order[..i])
      invariant forall p | p in t :: t[p] == value
    {
      assert order[..i + 1] == order[..i] + [order[i]];
      t := t[order[i] := value];
    }
    assert order[..|order|] == order;
  }

  /** Splitting off the last page of a duplicate-free sequence. */
  lemma SplitLast(s: seq<Page>)
    requires Distinct(s) && s != []
    ensures Distinct(s[..|s| - 1])
    ensures Elements(s) == Elements(s[..|s| - 1]) + {s[|s| - 1]}
    ensures s[|s| - 1] !in Elements(s[..|s| - 1])
  {
    var rest, last := s[..|s| - 1], s[|s| - 1];
    assert Distinct(rest) && last !in rest;
    assert s == rest + [last];
    assert Elements(s) == Elements(rest) + {last};
  }

  /** In a duplicate-free sequence no page occurs before its own position. */
  lemma {:induction false} DistinctAt(s: seq<Page>, i: nat)
    requires Distinct(s) && i < |s|
    ensures s[i] !in Elements(s[..i])
  {
    if i < |s| - 1 {
      var rest := s[..|s| - 1];
      assert rest[i] == s[i] && rest[..i] == s[..i];
      DistinctAt(rest, i);
    }
  }

  /** An enumeration has as many entries as there are keys. */
  lemma {:induction false} EnumeratesSize(order: seq<Page>, keys: set<Page>)
    requires Enumerates(order, keys)
    ensures |order| == |keys|
  {
    if order != [] {
      var rest, last := order[..|order| - 1], order[|order| - 1];
      SplitLast(order);
      assert Elements(rest) == keys - {last};
      EnumeratesSize(rest, keys - {last});
    }
  }

  lemma {:induction false} SumNonnegative(s: seq<Page>, t: Table)
    requires forall p | p in s :: p in t && 0.0 <= t[p]
    ensures 0.0 <= Sum(s, t)
  {
    if s != [] {
      SumNonnegative(s[..|s| - 1], t);
    }
  }

  /** With no negative values, each value is at most the sum. */
  lemma {:induction false} SumBoundsEach(s: seq<Page>, t: Table, x: Page)
    requires forall p | p in s :: p in t && 0.0 <= t[p]
    requires x in s
    ensures t[x] <= Sum(s, t)
  {
    var rest, last := s[..|s| - 1], s[|s| - 1];
    assert s == rest + [last];
    SumNonnegative(rest, t);
    if x != last {
      SumBoundsEach(rest, t, x);
    }
  }

  /** `n` copies of `x` added up; kept apart from `*` so that the sums below
      stay linear for the solver. */
  function Times(n: nat, x: real): (r: real)
  {
    if n == 0 then 0.0 else Times(n - 1, x) + x
  }

  lemma {:induction false} TimesIsProduct(n: nat, x: real)
    ensures Times(n, x) == n as real * x
  {
    if n > 0 {
      TimesIsProduct(n - 1, x);
    }
  }

  /** `n` equal shares of `x` add up to `x`. */
  lemma TimesShare(n: nat, x: real)
    requires n > 0
    ensures Times(n, x / n as real) == x
  {
    TimesIsProduct(n, x / n as real);
  }

  /** A non-negative amount shared out among `n` pages gives each a
      non-negative share. */
  lemma ShareNonnegative(x: real, n: nat)
    requires 0.0 <= x && n > 0
    ensures 0.0 <= x / n as real
  {
  }

  /** Values that are `a` everywhere, plus `b` on the pages of `bonus`, sum to
      `a` once per page plus `b` once per bonus page among them. */
  lemma {:induction false} SumAffine(s: seq<Page>, t: Table, a: real, b: real, bonus: set<Page>)
    requires Distinct(s)
    requires forall p | p in s :: p in t && t[p] == a + (if p in bonus then b else 0.0)
    ensures Sum(s, t) == Times(|s|, a) + Times(|bonus * Elements(s)|, b)
  {
    if s == [] {
      assert bonus * Elements(s) == {};
    } else {
      var rest, last := s[..|s| - 1], s[|s| - 1];
      SplitLast(s);
      SumAffine(rest, t, a, b, bonus);
      CountLast(s, bonus);
      assert Sum(s, t) == Sum(rest, t) + t[last];
      assert Times(|s|, a) == Times(|rest|, a) + a;
      var k := |bonus * Elements(rest)|;
      if last in bonus {
        assert Times(k + 1, b) == Times(k, b) + b;
      }
    }
  }

  /** How the number of `bonus` pages in `s` grows with the last page of `s`. */
  lemma CountLast(s: seq<Page>, bonus: set<Page>)
    requires Distinct(s) && s != []
    ensures |bonus * Elements(s)| == |bonus * Elements(s[..|s| - 1])| + (if s[|s| - 1] in bonus then 1 else 0)
  {
    var rest, last := s[..|s| - 1], s[|s| - 1];
    SplitLast(s);
    if last in bonus {
      assert bonus * Elements(s) == bonus * Elements(rest) + {last};
    } else {
      assert bonus * Elements(s) == bonus * Elements(rest);
    }
  }

  /** Changing the value at one page changes the sum by the difference, if the
      page occurs (once) in `s`, and not at all otherwise. */
  lemma {:induction false} SumUpdate(s: seq<Page>, t: Table, u: Table, x: Page)
    requires Distinct(s)
    requires forall p | p in s :: p in t && p in u
    requires forall p | p in s && p != x :: u[p] == t[p]
    ensures Sum(s, u) == Sum(s, t) + (if x in s then u[x] - t[x] else 0.0)
  {
    if s != [] {
      var rest, last := s[..|s| - 1], s[|s| - 1];
      SplitLast(s);
      assert x in s <==> x in rest || x == last;
      SumUpdate(rest, t, u, x);
    }
  }

  /** Scaling every value scales the sum. */
  lemma {:induction false} SumScale(s: seq<Page>, t: Table, u: Table, c: real)
    requires forall p | p in s :: p in t && p in u && u[p] == c * t[p]
    ensures Sum(s, u) == c * Sum(s, t)
  {
    if s != [] {
      SumScale(s[..|s| - 1], t, u, c);
    }
  }

  /** Dividing every value divides the sum. */
  lemma {:induction false} SumDivide(s: seq<Page>, t: Table, u: Table, c: real)
    requires c != 0.0
    requires forall p | p in s :: p in t && p in u && u[p] == t[p] / c
    ensures Sum(s, u) == Sum(s, t) / c
  {
    if s != [] {
      var rest, last := s[..|s| - 1], s[|s| - 1];
      SumDivide(rest, t, u, c);
      DivideAdd(Sum(rest, t), t[last], c);
    }
  }

  lemma DivideSelf(x: real)
    requires x != 0.0
    ensures x / x == 1.0
  {
  }

  lemma DivideAdd(x: real, y: real, c: real)
    requires c != 0.0
    ensures x / c + y / c == (x + y) / c
  {
  }
}
