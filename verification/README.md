# PageRank, modelled in Dafny

A model of the PageRank core of `pagerank.py`. The model has five parts.

- **`Corpus`** models the link filter that `crawl` applies once the links have been extracted. It drops self-links (line 41). It then keeps only links to pages of the corpus (lines 44-48).
- **`Transition`** models `transition_model`, the damped random-surfer distribution over the next page.
- **`Sampling`** models `sample_pagerank`. Its random draws are injected as parameters: a start page and a sequence of chosen pages.
- **`Iteration`** models `iterate_pagerank`. That covers the one-round update (computed from a snapshot into a fresh map), the 0.001 convergence test and the outer loop.
- **`Mass`** follows the total rank through the rounds of `iterate_pagerank`. It proves the range that function's docstring promises (lines 108-110): for `0 <= d <= 1` every value lies between 0 and 1, and the values never add up to more than 1. In a non-empty, well-formed corpus (every link names another page of the corpus) with no sinks, they add up to exactly 1 in every round.

**`Sums`** is a small helper module. It sums a real-valued map over a set of keys and proves the facts about sums that the other modules use.

Python floats are modelled as exact `real`s. A page is a `string`. A corpus is a `map<Page, set<Page>>`.

## Where the documented behaviour and the code differ

The model follows the code.

- **A sink passes nothing to itself, and withholds that part of its rank.** PageRank is often described with a sink's rank spread over all pages, itself included. In `iterate_pagerank` the `item != sItem` test at line 123 keeps every page from passing anything to itself, and that includes a sink. So one round does not preserve the total rank.
  - `Iteration.SinkLosesMass` shows this on a single page with no links and damping 0.85. The total drops from 1 to 0.15 in the first round.
  - `Iteration.SinkSettlesInSecondRound` shows that the second round then settles. On that corpus the iteration therefore returns a map whose values sum to 0.15, not to 1.
  - `Mass.RoundTotal` gives the general account for a well-formed corpus, where every link names another page of the corpus. After a round, the total plus `d / N` of each sink's previous rank equals `1 - d` plus `d` times the previous total. In a well-formed corpus with no sinks the total therefore stays 1 in every round (`Mass.NoSinksKeepTotal`). Self-links break this even without sinks: `crawl` removes them, but a corpus built by hand may keep them, and line 123 drops what such a page passes to itself. With `d > 0`, any sink that holds rank makes the round lose part of it. For `0 <= d <= 1` the total never exceeds 1 (`Mass.TotalAtMostOne`).
- **The stopping test compares two consecutive rounds.** The returned map is within 0.001 of the snapshot it was computed from, page by page. The model does not claim that one more round would leave it unchanged within 0.001.

## Model

| member | source | states |
|---|---|---|
| Corpus.StripSelfLinks | pagerank.py:41 | Same pages as the extraction. A page links to `q` exactly when `q` is one of its raw targets and is not the page itself. |
| Corpus.KeepCorpusLinks | pagerank.py:44-48 | Same pages. A link survives exactly when its target is a page of the corpus. |
| Corpus.CrawlLinks | pagerank.py:41-48 | The filtered corpus keeps the extracted pages. It is well formed: every link is a page and no page links to itself. A page links to `q` exactly when `q` is a page, differs from it and is among its raw targets, so every link set is contained in the raw links. |
| Corpus.KeepCorpusLinksIdempotent | pagerank.py:44-48 | Applying the corpus-link filter a second time changes nothing. |
| Corpus.CrawlLinksKeepsWellFormed | pagerank.py:41-48 | On raw links that already describe a well-formed corpus, the filter gives back exactly that corpus. |
| Transition.Probability | pagerank.py:65-70 | For `d >= 0` the probability of moving to any page is at least the jump share `(1-d)/N`. For `d > 0` a page the current page links to gets strictly more. |
| Transition.TransitionModel | pagerank.py:62-74 | One entry per corpus page. From a sink every entry is `1/N`. Otherwise a linked page gets `(1-d)/N + d/|L|` and any other page gets exactly `(1-d)/N`. |
| Transition.TryTransitionModel | pagerank.py:63 | Fails with the page as a missing key exactly when the current page is not in the corpus. Otherwise it returns the distribution. |
| Transition.TransitionSumsToOne | pagerank.py:62-74 | When the current page's links are all corpus pages, the entries add up to exactly 1. |
| Transition.TransitionLowerBound | pagerank.py:65-70 | For `d >= 0` no entry is below the jump share `(1-d)/N`. For `0 <= d <= 1` every entry is non-negative. |
| Transition.LinkedPageMoreLikely | pagerank.py:65-68 | For `d > 0` a linked page is strictly more likely than an unlinked one. |
| Transition.LineCorpusFromA | pagerank.py:62-74 | On the line corpus A -> B -> C with damping 0.85, the distribution from A is `{A: 0.05, B: 0.9, C: 0.05}`. |
| Sampling.Visits | pagerank.py:93-98 | The first `n` pages the walk stands on, as a sequence of length `max(n, 0)`: the start page at position 0, then the `i`-th draw at position `i`. |
| Sampling.Tally | pagerank.py:95-96 | One counter per corpus page after a sequence of visits. Its content is stated by `TallyCounts` and `TallyTotal`. |
| Sampling.DrawNext | pagerank.py:97-98 | The next page is the oracle's draw, and that draw is a key of the current page's transition distribution. |
| Sampling.TallyCounts | pagerank.py:95-96 | After a walk, each counter holds `1/n` added once per visit of its page. |
| Sampling.TallyTotal | pagerank.py:95-96 | After a walk, the counters add up to `1/n` once per step. |
| Sampling.TallyStep | pagerank.py:95-98 | Adding one step's share to the counter of the page the walk stands on, then moving to the next draw, gives the tally of the walk one step longer. |
| Sampling.WalkStep | pagerank.py:96-98 | One pass of the sampling loop turns the counters of the first `count` visits into those of the first `count + 1`, and moves the walk to the page it stands on at step `count + 1`. |
| Sampling.SampleTotal | pagerank.py:89-100 | A walk of `n >= 1` visits, each adding `1/n`, leaves counters that add up to exactly 1. |
| Sampling.SampleRange | pagerank.py:85-86 | After a walk of `n >= 1` visits, each adding `1/n`, every counter lies between 0 and 1. |
| Sampling.SamplePageRank | pagerank.py:89-100 | One counter per corpus page. For `n <= 0` all counters are 0. For `n >= 1` the counters are the tally of the walk's `n` visits (the start page, then each draw in order), `1/n` per visit. They sum to exactly 1. Every counter lies between 0 and 1 for every `n`. |
| Iteration.InitialRanks | pagerank.py:114-115 | One entry per corpus page, each greater than 0 and at most 1. |
| Iteration.InitialRanksTotal | pagerank.py:113-115 | On a non-empty corpus the starting ranks `1/N` add up to 1. |
| Iteration.Share | pagerank.py:123-129 | A page passes nothing to itself. With `d >= 0` and a non-negative rank, what it passes to any one page lies between 0 and `d` times its rank. |
| Iteration.NewRank | pagerank.py:121-130 | Definition of the new rank: the jump share plus what every page passes on. `RankOf` shows it is the sum the inner loop computes; `NewRankLowerBound` and `NewRankIgnoresOwnRank` state its properties. |
| Iteration.Inflow | pagerank.py:122-129 | Definition of what the pages of a set pass on to one page, summed one page at a time in any order. `InflowRemove` shows the order does not matter, and `RankOf` shows it is the sum the inner loop builds. |
| Iteration.InflowRemove | pagerank.py:122-129 | The inner loop over `sItem` may visit the pages in any order: any page can be taken first without changing the sum. |
| Iteration.RankOf | pagerank.py:121-129 | The inner loop yields the jump share plus what every other page passes on to `item`, computed from the snapshot alone. |
| Iteration.NewRankLowerBound | pagerank.py:121-129 | With `d >= 0` and a non-negative snapshot, a new rank is at least the jump share `(1-d)/N`. |
| Iteration.NewRankIgnoresOwnRank | pagerank.py:123 | A page's new rank does not depend on its own previous rank. |
| Iteration.RoundOver | pagerank.py:119-130 | The round restricted to a set of pages has exactly those pages as keys. `RoundOverValues` states that each holds its new rank. |
| Iteration.Iterate | pagerank.py:113-138 | Every snapshot has exactly the corpus pages as keys. `IterateValues` states what each holds. |
| Iteration.IterateValues | pagerank.py:119-130 | After round `k` every page holds the new rank computed from the snapshot of round `k-1`. |
| Iteration.Drift | pagerank.py:131 | Definition: how far one page moved between two snapshots, the absolute difference line 131 compares with 0.001. |
| Iteration.WithinTolerance | pagerank.py:131-132 | Definition: no page of a set moved by more than 0.001. `WithinToleranceStep` and `UpdateStep` relate it to the `continuing` flag. |
| Iteration.WithinToleranceStep | pagerank.py:131-132 | Checking one more page keeps "no page moved by more than 0.001" exactly when that page moved by at most 0.001. |
| Iteration.UpdateStep | pagerank.py:118-132 | One pass of the `while` body gives a fresh map with the new rank of every page. It reports continuing exactly when some page moved by more than 0.001. |
| Iteration.IterateFrom | pagerank.py:119-130 | Any map holding the new rank of every corpus page, computed from snapshot `round`, is snapshot `round + 1`. |
| Iteration.Settled | pagerank.py:131-135 | Definition: round `k` (for `k >= 1`) moved no page by more than 0.001, so the loop returns after it. |
| Iteration.NoneSettled | pagerank.py:134-138 | Definition: none of the rounds from the first to the `k`-th settled, so the loop went on after each. `NoneSettledBefore` unfolds it. |
| Iteration.FirstSettled | pagerank.py:134-135 | Definition: round `k` settled and no earlier round did. It is what `converged` means in `IteratePageRank`. |
| Iteration.RoundStep | pagerank.py:117-138 | After a run of unsettled rounds, a round's map is the next snapshot. If no page moved by more than 0.001, this is the first round to settle. Otherwise the unsettled run grows by one. |
| Iteration.NextRound | pagerank.py:117-138 | One pass of the `while` body, related to the rounds before it as in `RoundStep`. |
| Iteration.IteratePageRank | pagerank.py:113-138 | The result is the snapshot of the round where the loop stopped. If it converged, that round is the first to settle. Otherwise all `maxRounds` rounds ran and none settled. |
| Iteration.NoneSettledBefore | pagerank.py:134-138 | Within an unsettled run, no single round from the first to the last settled. |
| Iteration.RoundLowerBound | pagerank.py:119-130 | For `0 <= d <= 1`, after a non-negative snapshot every page gets at least the jump share, which is non-negative. |
| Iteration.IterateNonNegative | pagerank.py:113-130 | For `0 <= d <= 1` every snapshot is non-negative. |
| Iteration.IterateLowerBound | pagerank.py:119-130 | For `0 <= d <= 1`, from the first round on every page holds at least `(1-d)/N`. |
| Iteration.LoneSinkRound | pagerank.py:122-130 | In a corpus of one sink with damping 0.85, every round gives the page exactly 0.15. |
| Iteration.SinkLosesMass | pagerank.py:122-132 | In that corpus the total is 1 before the first round and 0.15 after it, and the first round does not settle. |
| Iteration.SinkSettlesInSecondRound | pagerank.py:131-135 | In that corpus the second round repeats the first and settles. |
| Mass.SentSplit | pagerank.py:120-129 | What a set of pages sends to a set of targets equals what one target receives plus what they send to the other targets. Summing the inner loop by sender or by receiver gives the same. |
| Mass.RoundSum | pagerank.py:119-130 | The new ranks of a set of pages add up to one jump share per page plus everything the corpus sends to them. |
| Mass.PortionWhole | pagerank.py:124-129 | A page's portion, repeated once per page it is divided among (its links, or every page for a sink), makes `d` times its rank. The portion is non-negative for non-negative `d` and rank. |
| Mass.OutflowByReceivers | pagerank.py:123-129 | A page passes one portion to each corpus page among its links other than itself, or, as a sink, to each other page, and nothing else. |
| Mass.OutflowAtMost | pagerank.py:123-129 | For non-negative `d` and rank, a page passes on between 0 and `d` times its rank. |
| Mass.OutflowExact | pagerank.py:123-129 | In a well-formed corpus a page with links passes on exactly `d` times its rank. A sink passes on `d` times its rank less the one portion it withholds, the one line 123 keeps it from passing to itself. |
| Mass.SinkPortionValue | pagerank.py:123-129 | The portion a sink withholds is `d / N` of its rank. |
| Mass.SentExact | pagerank.py:120-129 | In a well-formed corpus, what a set of pages sends plus the portions its sinks withhold equals `d` times their summed rank. |
| Mass.SentAtMost | pagerank.py:120-129 | For `d >= 0` and non-negative ranks, a set of pages sends at most `d` times its summed rank. |
| Mass.IterateRound | pagerank.py:119-130 | Snapshot `k` is one round applied to snapshot `k - 1`. |
| Mass.RoundTotal | pagerank.py:119-130 | In a well-formed corpus, the total after a round plus the portions the sinks withheld equals `1 - d` plus `d` times the total before it. |
| Mass.RoundKeepsOne | pagerank.py:119-130 | In a well-formed corpus without sinks, a round takes a total of 1 to a total of 1. |
| Mass.IterateKeepsOne | pagerank.py:117-138 | In a well-formed corpus without sinks, a snapshot adds up to 1 when the one before it does. |
| Mass.RoundAtMostOne | pagerank.py:119-130 | For `0 <= d <= 1`, a round of non-negative ranks adding up to at most 1 gives ranks adding up to at most 1, on any corpus. |
| Mass.StartTotal | pagerank.py:113-115 | The starting snapshot of a non-empty corpus adds up to 1. |
| Mass.NoSinksKeepTotal | pagerank.py:108-138 | In a well-formed, non-empty corpus without sinks, every snapshot adds up to exactly 1, as the docstring promises. |
| Mass.TotalAtMostOne | pagerank.py:108-138 | For `0 <= d <= 1`, on any corpus, no snapshot adds up to more than 1. |
| Mass.RankAtMostOne | pagerank.py:108-110 | For `0 <= d <= 1`, every value of every snapshot lies between 0 and 1, as the docstring promises. |

## Left out

- `main` (lines 10-23): argument checking and printing the results are command-line I/O.
- Directory listing, file reading and the regular expression that extracts `href` targets (lines 35-40) are I/O and a foreign regex engine. The model starts from the extracted targets of each page.
- Floating-point rounding: every value is an exact real, and the 0.001 comparison is exact.
- The statistics of `random.choice` and `random.choices`: the start page and every draw come from the caller, and the model does not say how likely any draw is.
- Sampling.DrawNext: only requires the draw to be a corpus page, which is a key of the distribution. The weights `random.choices` uses are not modelled.
- Sampling.SamplePageRank: requires the start page to be a corpus page. On an empty corpus `random.choice` raises instead, and that failure is not modelled. Neither is the `ValueError` that `random.choices` raises at line 98 when the weights add up to 0 or less. That can happen when `d` lies outside `[0, 1]` or the corpus is not well formed: for `{A: {X}}` with `d = 1`, the only weight is 0. On a well-formed corpus the weights add up to 1 (`Transition.TransitionSumsToOne`), so the failure cannot arise there.
- Iteration.IteratePageRank: the unbounded `while True` (line 117) is bounded by `maxRounds`. Running out is reported rather than looping on, and with `maxRounds = 0` the starting ranks are returned, although the source always runs at least one round. No termination proof is given for the unbounded loop.
- The damping factor is not validated by the source, and neither is it by the model. The lemmas that need `0 <= d <= 1` (or `d >= 0`, `d > 0`) require it.
- Dictionary iteration order: the model takes pages in an arbitrary order. With exact reals the result does not depend on it (`Iteration.InflowRemove`).
