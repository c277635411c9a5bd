# PageRank, modelled in Dafny

A model of the PageRank program in `pagerank/pagerank.py`. The program
builds the link graph of a directory of HTML pages. It then estimates each
page's PageRank in two ways:

- by sampling a random surfer's walk (`sample_pagerank`);
- by iterating the PageRank update until no rank changes by 0.001 or more
  (`iterate_pagerank`).

The model covers the link filtering of `crawl`, `transition_model`,
`sample_pagerank` and `iterate_pagerank`. Each is written imperatively, as
in the program: tables are rebuilt entry by entry by loops, as map values
(the program's dictionaries are local, so no aliasing is lost), and every
method is proved against a specification function.

- `graph.dfy` (module `Graph`):
  - pages, the corpus (page to set of linked pages) and rank tables
    (`map<Page, real>`);
  - `order`, a duplicate-free enumeration of the corpus keys, standing for
    the order in which a Python dictionary is iterated;
  - `Sum` along that order, and the predicate `IsDistribution`;
  - `WellFormed`: no link leaves the corpus.
- `crawling.dfy`: the set logic of `crawl`.
- `transitions.dfy`: `transition_model`, with KeyError as a `Failure` result.
- `sampling.dfy`: `sample_pagerank`, with the random choices passed in as a
  sequence of picks.
- `iteration.dfy`: `iterate_pagerank`, with the `while True` loop bounded by
  a fuel argument. It also holds the proof that one update keeps a
  probability distribution: the flow of rank is summed once by destination
  and once by source.
- `scenarios.dfy`: small corpora worked through exactly.
  - A three-page transition model.
  - A lone page.
  - Two pages linking to each other.
  - A page linking into a sink. With a small damping factor, the iteration
    returns the uniform table it started from, not the updated table. This
    is because the loop breaks before it replaces the table.

Probabilities are exact `real` numbers.

## Model

| member | source | states |
|---|---|---|
| Crawling.FilterLinks | pagerank/pagerank.py:39-46 | the keys are the pages given; a page's links are exactly its extracted targets that are other pages of the corpus; so no self-links and no dangling links |
| Graph.Fill | pagerank/pagerank.py:114-116 | the table built page by page gives the one value to exactly the pages of the enumeration |
| Transitions.TransitionModel | pagerank/pagerank.py:51-75 | fails exactly when the page is missing or links outside the corpus; a missing page is itself the key named, otherwise a link outside the corpus is. Otherwise: it returns the corpus keys; a sink page gives 1/N to every page; a non-sink page gives (1-d)/N to every non-link and (1-d)/N + d/L to every link, L the number of links; for 0 <= d <= 1 the result is a probability distribution |
| Transitions.AddShares | pagerank/pagerank.py:71-74 | adds the share to the entry of every link and to no other entry; fails, naming a link, exactly when some link has no entry |
| Transitions.TransitionIsDistribution | pagerank/pagerank.py:52-58 | for 0 <= d <= 1 and a page without dangling links, the transition values lie in [0, 1] and sum to 1 over the corpus |
| Sampling.SamplePagerank | pagerank/pagerank.py:77-102 | the result maps every corpus page to its visit count divided by n, and is a probability distribution |
| Sampling.Walk | pagerank/pagerank.py:89-98 | after the start page and n-1 draws, the table holds each page's number of visits |
| Sampling.Draw | pagerank/pagerank.py:94-97 | the page drawn is the pick, which the transition distribution of the current page gives a positive weight |
| Sampling.CountsStep | pagerank/pagerank.py:98 | a visit adds one to the visited page's count and leaves every other count unchanged |
| Sampling.NoCounts | pagerank/pagerank.py:86-88 | the counts start at zero, so they sum to zero |
| Sampling.CountsSum | pagerank/pagerank.py:86-98 | when every visit is to a corpus page, the counts add up to the number of visits |
| Sampling.Divide | pagerank/pagerank.py:100-101 | every entry is divided by n and no key is added or lost |
| Sampling.CountsToFrequencies | pagerank/pagerank.py:99-101 | the counts divided by n are the visit frequencies |
| Sampling.FrequencyBounds | pagerank/pagerank.py:82-84 | a visit frequency lies in [0, 1] |
| Sampling.FrequenciesAreDistribution | pagerank/pagerank.py:82-84 | the visit frequencies lie in [0, 1] and sum to exactly 1 |
| Iteration.Ranks | pagerank/pagerank.py:113-138 | the k-th table of the iteration has exactly the corpus keys |
| Iteration.UpdateRanks | pagerank/pagerank.py:118-130 | the table built by the nested loops is the update of the previous table, computed from the previous table only |
| Iteration.AddInflow | pagerank/pagerank.py:122-130 | the inner loop adds to the page's entry the shares of every corpus page and changes no other entry |
| Iteration.AddShare | pagerank/pagerank.py:123-130 | a sink adds d·r/N, a page linking to the target adds d·r/L (L the number of links), and any other page adds nothing |
| Iteration.MaxDifferenceIsMaximum | pagerank/pagerank.py:132-135 | the difference is at least every page's absolute change and equals some page's absolute change |
| Iteration.IteratePagerank | pagerank/pagerank.py:113-139 | the result is the table from before the first update that changes no entry by 0.001 or more, or None when no update within the fuel converges; the result is a probability distribution for a corpus without dangling links and 0 <= d <= 1 |
| Iteration.NextRanks | pagerank/pagerank.py:131-138 | the update of the k-th table is the (k+1)-th table, and the loop's test passes exactly when the k-th step converges |
| Iteration.Found | pagerank/pagerank.py:136-137 | breaking at the first converged step is the outcome of the iteration |
| Iteration.NotFound | pagerank/pagerank.py:117 | running out of fuel with no converged step is the outcome None |
| Iteration.OutcomeIsUnique | pagerank/pagerank.py:117-139 | the iteration has one outcome for each corpus, damping factor and bound |
| Iteration.InflowNonnegative | pagerank/pagerank.py:122-130 | for a non-negative damping factor and table, the inflow into a page is non-negative |
| Iteration.SpreadAll | pagerank/pagerank.py:123-130 | without dangling links, the portions a page hands out add up to the amount it hands out |
| Iteration.GivesAll | pagerank/pagerank.py:122-130 | without dangling links, a page gives away exactly d times its rank, summed over all destinations |
| Iteration.Exchange | pagerank/pagerank.py:119-130 | the rank flowing between pages adds up to the same total summed by destination or by source |
| Iteration.OutflowSum | pagerank/pagerank.py:119-130 | without dangling links, the pages give away d times their total rank |
| Iteration.SumUpdated | pagerank/pagerank.py:118-130 | the new entries add up to N·(1-d)/N plus the total flow |
| Iteration.UpdatedIsDistribution | pagerank/pagerank.py:118-130 | for 0 <= d <= 1 and no dangling links, one update maps a probability distribution to a probability distribution |
| Iteration.UniformIsDistribution | pagerank/pagerank.py:113-116 | the starting table 1/N is a probability distribution |
| Iteration.RanksAreDistributions | pagerank/pagerank.py:109-111 | every table of the iteration lies in [0, 1] and sums to 1 |
| Scenarios.ThreePageTransition | pagerank/pagerank.py:60-75 | page 1, linking to pages 2 and 3, with d = 0.85 gives 0.05, 0.475, 0.475 |
| Scenarios.OnePageIteration | pagerank/pagerank.py:113-139 | a lone page's iteration returns rank 1 |
| Scenarios.OnePageRanks | pagerank/pagerank.py:113-130 | a lone page keeps rank 1 across an update |
| Scenarios.MutualPairIteration | pagerank/pagerank.py:113-139 | two pages linking to each other get 1/2 each, for any damping factor |
| Scenarios.MutualPairUpdate | pagerank/pagerank.py:118-130 | for two pages linking to each other, the uniform table is a fixed point of the update |
| Scenarios.PairUpdated | pagerank/pagerank.py:118-130 | over two pages, each new entry is (1-d)/N plus the shares of both pages |
| Scenarios.IntoSinkUpdate | pagerank/pagerank.py:118-130 | when x links to the sink y, one update moves d/4 of rank from x to y |
| Scenarios.IntoSinkReturnsTableBeforeUpdate | pagerank/pagerank.py:132-139 | for 0 < d < 0.004 the first update changes ranks by only d/4, so the result is the uniform table, not the updated one |

## Left out

- `main` (pagerank/pagerank.py:10-21) is not modelled: argument parsing, printing and number formatting.
- In `crawl`, listing the directory, skipping files not ending in `.html`, reading the files and matching links with a regular expression (pagerank/pagerank.py:33-38) are not modelled. The input is the map from each page to the list of link targets extracted from it.
- `random.choice` and `random.choices` (pagerank/pagerank.py:90, 97) are not modelled. The chosen pages are an input: the first is a corpus page and each later one has a positive weight in the transition from the page before it. No statistical property of the sampler (for example, closeness to the iterated ranks) is stated.
- The order in which `transition_model` visits the set of links (pagerank/pagerank.py:73) is a nondeterministic choice, and the distribution returned does not depend on it. When several links leave the corpus, which one the KeyError names does depend on it, and the model leaves that open (AddShares names some such link). The order in which `crawl` visits its pages (pagerank/pagerank.py:42, the order of `os.listdir` at line 33) is a nondeterministic choice as well. The dictionary order of the corpus elsewhere is the `order` argument.
- Floating-point rounding is not modelled: arithmetic is on exact reals.
- The empty corpus is excluded from SamplePagerank (its first pick must be a corpus page) and from IteratePagerank (`order != []`). On an empty corpus `sample_pagerank` fails in `random.choice` at pagerank/pagerank.py:90, and `iterate_pagerank` raises ValueError from `max` of an empty sequence at line 132. TransitionModel does not exclude it: the lookup at line 63 raises KeyError, modelled as a `Failure` naming the page.
- SamplePagerank: requires n >= 1 (n is a `nat`, with `|picks| == n`). With n = 0 the division at pagerank/pagerank.py:101 raises ZeroDivisionError, and with a negative n the loop at line 93 does not run and line 101 gives the start page the negative value 1/n; neither case is modelled. It also requires a corpus without dangling links, because otherwise `transition_model` can raise KeyError at line 74 during the walk. That error path is modelled in TransitionModel itself.
- IteratePagerank: the `while True` loop is bounded by `fuel` updates. None means that no update within the bound converged. Whether the loop terminates, and how fast, is not proved.
