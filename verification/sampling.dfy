/**
  The Monte Carlo estimator `sample_pagerank` (pagerank.py, lines 80-100).

  The two random draws are injected: `start` is the page `random.choice`
  picks from the corpus keys (line 93), and `choices[i]` is the page
  `random.choices` draws from the transition distribution after the `i`-th
  step (line 98). The model only demands that every drawn page be a key of
  the distribution it is drawn from, which are the corpus keys; how likely
  each draw is does not enter the model.
 */
module Sampling {
  import opened Corpus
  import opened Sums
  import opened Transition

  /** The pages the walk stands on at steps `0 .. n - 1`: the start page, then each draw in turn. */
  function Visits(start: Page, choices: seq<Page>, n: int): (v: seq<Page>)
    requires n <= |choices| + 1
    ensures |v| == if n <= 0 then 0 else n
    ensures n > 0 ==> v[0] == start
    ensures forall i | 0 < i < |v| :: v[i] == choices[i - 1]
  {
    if n <= 0 then [] else ([start] + choices)[..n]
  }

  /**
    The counters after the walk has visited `visited`, in order, when each
    visit adds `step` to the counter of the visited page and every counter
    starts at zero.
   */
  function Tally(c: Corpus, visited: seq<Page>, step: real): (ranks: Distribution)
    requires forall i | 0 <= i < |visited| :: visited[i] in c
    ensures ranks.Keys == c.Keys
  {
    if visited == [] then
      map p | p in c :: 0.0
    else
      var before := Tally(c, visited[..|visited| - 1], step);
      var page := visited[|visited| - 1];
      before[page := before[page] + step]
  }

  /** Each counter holds `step` added once per visit of its page. */
  lemma {:induction false} TallyCounts(c: Corpus, visited: seq<Page>, step: real)
    requires forall i | 0 <= i < |visited| :: visited[i] in c
    ensures forall p | p in c :: Tally(c, visited, step)[p] == Repeat(multiset(visited)[p], step)
  {
    if visited != [] {
      var prefix := visited[..|visited| - 1];
      var page := visited[|visited| - 1];
      assert visited == prefix + [page];
      TallyCounts(c, prefix, step);
      forall p | p in c
        ensures Tally(c, visited, step)[p] == Repeat(multiset(visited)[p], step)
      {
        if p == page {
          assert multiset(visited)[p] == multiset(prefix)[p] + 1;
        } else {
          assert multiset(visited)[p] == multiset(prefix)[p];
        }
      }
    }
  }

  /** The counters add up to `step` once per visit. */
  lemma {:induction false} TallyTotal(c: Corpus, visited: seq<Page>, step: real)
    requires forall i | 0 <= i < |visited| :: visited[i] in c
    ensures Total(Tally(c, visited, step)) == Repeat(|visited|, step)
  {
    if visited == [] {
      SumOverConstant(Tally(c, visited, step), c.Keys, 0.0);
    } else {
      var prefix := visited[..|visited| - 1];
      var page := visited[|visited| - 1];
      TallyTotal(c, prefix, step);
      SumOverBump(Tally(c, prefix, step), c.Keys, page, step);
    }
  }

  /** The page the walk stands on at step `i`. */
  function At(start: Page, choices: seq<Page>, i: nat): Page
    requires i <= |choices|
  {
    if i == 0 then start else choices[i - 1]
  }

  /** The counters after the first `count` visits of the walk. */
  ghost function Counters(c: Corpus, start: Page, choices: seq<Page>, count: nat, step: real): (ranks: Distribution)
    requires count <= |choices|
    requires start in c
    requires forall i | 0 <= i < |choices| :: choices[i] in c
    ensures ranks.Keys == c.Keys
  {
    Tally(c, Visits(start, choices, count), step)
  }

  /** One more step adds `step` to the counter of the page the walk stands on. */
  lemma TallyStep(c: Corpus, start: Page, choices: seq<Page>, count: nat, step: real, ranks: Distribution)
    requires count < |choices|
    requires start in c
    requires forall i | 0 <= i < |choices| :: choices[i] in c
    requires ranks == Counters(c, start, choices, count, step)
    ensures var page := At(start, choices, count);
      ranks[page := ranks[page] + step] == Counters(c, start, choices, count + 1, step)
  {
    var longer := Visits(start, choices, count + 1);
    assert longer[..count] == Visits(start, choices, count);
  }

  /** A walk of `n` visits, each adding `1/n`, leaves counters that add up to exactly one. */
  lemma SampleTotal(c: Corpus, visited: seq<Page>, n: int)
    requires n > 0 && |visited| == n
    requires forall i | 0 <= i < |visited| :: visited[i] in c
    ensures Total(Tally(c, visited, 1.0 / n as real)) == 1.0
  {
    TallyTotal(c, visited, 1.0 / n as real);
    RepeatFraction(n, 1.0);
  }

  /**
    The range the docstring of `sample_pagerank` (lines 85-86) gives: after
    a walk of `n` visits, each adding `1/n`, every counter lies between 0
    and 1.
   */
  lemma SampleRange(c: Corpus, visited: seq<Page>, n: int)
    requires n > 0 && |visited| == n
    requires forall i | 0 <= i < |visited| :: visited[i] in c
    ensures forall p | p in c :: 0.0 <= Tally(c, visited, 1.0 / n as real)[p] <= 1.0
  {
    var step := 1.0 / n as real;
    assert 0.0 < step;
    var ranks := Tally(c, visited, step);
    TallyCounts(c, visited, step);
    SampleTotal(c, visited, n);
    forall p | p in c
      ensures 0.0 <= ranks[p]
    {
      RepeatAtMost(0, multiset(visited)[p], step);
    }
    forall p | p in c
      ensures ranks[p] <= 1.0
    {
      SumOverRemove(ranks, ranks.Keys, p);
      SumOverNonNegative(ranks, ranks.Keys - {p});
    }
  }

  /**
    Lines 97-98: the next page is drawn from the keys of the current page's
    transition distribution. The oracle supplies the draw, and a draw that
    is a page of the corpus is always one of those keys.
   */
  method DrawNext(c: Corpus, page: Page, d: real, choice: Page) returns (next: Page)
    requires page in c
    requires choice in c
    ensures next == choice
    ensures next in TransitionModel(c, page, d)
  {
    next := choice;
  }

  /**
    Lines 96-98, one pass of the loop: the counter of the page the walk
    stands on goes up by `step`, and the walk moves to the next draw.
   */
  method WalkStep(c: Corpus, d: real, start: Page, choices: seq<Page>, count: nat, step: real,
                  ranks: Distribution, page: Page)
    returns (after: Distribution, next: Page)
    requires count < |choices|
    requires start in c
    requires forall i | 0 <= i < |choices| :: choices[i] in c
    requires page == At(start, choices, count)
    requires ranks == Counters(c, start, choices, count, step)
    ensures after == Counters(c, start, choices, count + 1, step)
    ensures next == At(start, choices, count + 1)
  {
    TallyStep(c, start, choices, count, step, ranks);
    after := ranks[page := ranks[page] + step];
    next := DrawNext(c, page, d, choices[count]);
  }

  /**
    Lines 89-100. Every page starts at zero and each of the `n` steps adds
    `1/n` to the page the walk stands on, so the result is the tally of the
    walk's visits (by `TallyCounts`, a page holds `1/n` once per visit), the
    values add up to exactly one and each lies between 0 and 1. For `n <= 0`
    the loop does not run and every page keeps zero.
   */
  method SamplePageRank(c: Corpus, d: real, n: int, start: Page, choices: seq<Page>)
    returns (ranks: Distribution)
    requires start in c
    requires n <= |choices|
    requires forall i | 0 <= i < |choices| :: choices[i] in c
    ensures ranks.Keys == c.Keys
    ensures n <= 0 ==> forall p | p in ranks :: ranks[p] == 0.0
    ensures n > 0 ==> ranks == Tally(c, Visits(start, choices, n), 1.0 / n as real)
    ensures n > 0 ==> Total(ranks) == 1.0
    ensures forall p | p in ranks :: 0.0 <= ranks[p] <= 1.0
  {
    ranks := map p | p in c :: 0.0;
    var page := start;
    // Line 96 adds 1/n at every step; it is only evaluated when the loop runs.
    var share := if n > 0 then 1.0 / n as real else 0.0;
    var count := 0;
    while count < n
      invariant 0 <= count <= if n > 0 then n else 0
      invariant page == At(start, choices, count)
      invariant ranks == Counters(c, start, choices, count, share)
    {
      ranks, page := WalkStep(c, d, start, choices, count, share, ranks, page);
      count := count + 1;
    }
    if n > 0 {
      assert count == n && share == 1.0 / n as real;
      SampleTotal(c, Visits(start, choices, n), n);
      SampleRange(c, Visits(start, choices, n), n);
    }
  }
}
