/**
  The iterative estimator `iterate_pagerank` (pagerank.py, lines 103-138).

  Every page starts at `1/N`. A round computes a fresh map from a snapshot
  of the previous one: page `p` gets the jump share `(1 - d) / N`, plus,
  from every OTHER page `q`, `d * rank(q) / |links(q)|` when `q` links to
  `p`, or `d * rank(q) / N` when `q` has no links at all. Because of the
  `item != sItem` test at line 123 a sink does not pass anything to itself,
  so a round does not in general preserve the total rank (see
  `SinkLosesMass`). Rounds repeat until no page moved by more than 0.001.

  The source loops with `while True`; the model takes a bound on the number
  of rounds and reports when it ran out.
 */
module Iteration {
  import opened Corpus
  import opened Sums
  import opened Transition

  /** Line 131: a page that moved by more than this keeps the iteration going. */
  const Tolerance: real := 0.001

  function Abs(x: real): real {
    if x < 0.0 then -x else x
  }

  /** Lines 114-115: every page starts at `1/N`. */
  function InitialRanks(c: Corpus): (ranks: Distribution)
    ensures ranks.Keys == c.Keys
    ensures forall p | p in ranks :: 0.0 < ranks[p] <= 1.0
  {
    map p | p in c :: 1.0 / |c| as real
  }

  /**
    Lines 123-129: what page `q` passes on to page `p` in one round,
    computed from the snapshot `ranks`. The test at line 123 means a page
    passes nothing on to itself, not even when it is a sink.
   */
  function Share(c: Corpus, d: real, ranks: Distribution, q: Page, p: Page): (s: real)
    requires q in c && q in ranks
    ensures q == p ==> s == 0.0
    ensures 0.0 <= d && 0.0 <= ranks[q] ==> 0.0 <= s <= d * ranks[q]
  {
    if q == p then 0.0
    else if |c[q]| > 0 then
      (if p in c[q] then
         assert 0.0 <= d && 0.0 <= ranks[q] ==> 0.0 <= d * (ranks[q] / |c[q]| as real) <= d * ranks[q] by {
           if 0.0 <= d && 0.0 <= ranks[q] { PartAtMost(d, ranks, q, |c[q]|); }
         }
         d * (ranks[q] / |c[q]| as real)
       else 0.0)
    else
      assert 0.0 <= d && 0.0 <= ranks[q] ==> 0.0 <= d * (ranks[q] / |c| as real) <= d * ranks[q] by {
        if 0.0 <= d && 0.0 <= ranks[q] { PartAtMost(d, ranks, q, |c|); }
      }
      d * (ranks[q] / |c| as real)
  }

  /** What the pages of `from` pass on to `p`, taken one page at a time in any order. */
  ghost function Inflow(c: Corpus, d: real, ranks: Distribution, p: Page, from: set<Page>): real
    requires from <= c.Keys <= ranks.Keys
    decreases from
  {
    if from == {} then 0.0
    else
      var q :| q in from;
      Share(c, d, ranks, q, p) + Inflow(c, d, ranks, p, from - {q})
  }

  /** The order is immaterial: any page of `from` can be taken first. */
  lemma {:induction false} InflowRemove(c: Corpus, d: real, ranks: Distribution, p: Page, from: set<Page>, y: Page)
    requires from <= c.Keys <= ranks.Keys
    requires y in from
    ensures Inflow(c, d, ranks, p, from) == Share(c, d, ranks, y, p) + Inflow(c, d, ranks, p, from - {y})
    decreases from
  {
    var q :| q in from && Inflow(c, d, ranks, p, from) == Share(c, d, ranks, q, p) + Inflow(c, d, ranks, p, from - {q});
    if q != y {
      InflowRemove(c, d, ranks, p, from - {q}, y);
      InflowRemove(c, d, ranks, p, from - {y}, q);
      assert from - {q} - {y} == from - {y} - {q};
    }
  }

  /** Two snapshots whose shares to `p` agree on `from` give the same inflow. */
  lemma {:induction false} InflowAgree(c: Corpus, d: real, r1: Distribution, r2: Distribution, p: Page, from: set<Page>)
    requires from <= c.Keys && c.Keys <= r1.Keys && c.Keys <= r2.Keys
    requires forall q | q in from :: Share(c, d, r1, q, p) == Share(c, d, r2, q, p)
    ensures Inflow(c, d, r1, p, from) == Inflow(c, d, r2, p, from)
    decreases from
  {
    if from != {} {
      var q :| q in from;
      InflowRemove(c, d, r1, p, from, q);
      InflowRemove(c, d, r2, p, from, q);
      InflowAgree(c, d, r1, r2, p, from - {q});
    }
  }

  /** Non-negative shares give a non-negative inflow. */
  lemma {:induction false} InflowNonNegative(c: Corpus, d: real, ranks: Distribution, p: Page, from: set<Page>)
    requires from <= c.Keys <= ranks.Keys
    requires forall q | q in from :: Share(c, d, ranks, q, p) >= 0.0
    ensures Inflow(c, d, ranks, p, from) >= 0.0
    decreases from
  {
    if from != {} {
      var q :| q in from;
      InflowRemove(c, d, ranks, p, from, q);
      InflowNonNegative(c, d, ranks, p, from - {q});
    }
  }

  /** The new rank of `p`: the jump share plus everything the other pages pass on to it. */
  ghost function NewRank(c: Corpus, d: real, ranks: Distribution, p: Page): real
    requires p in c
    requires c.Keys <= ranks.Keys
  {
    JumpShare(c, d) + Inflow(c, d, ranks, p, c.Keys)
  }

  /** How far page `p` moved from `before` to `after`. */
  function Drift(before: Distribution, after: Distribution, p: Page): real
    requires p in before && p in after
  {
    Abs(before[p] - after[p])
  }

  /** No page of `pages` moved by more than the tolerance. */
  predicate WithinTolerance(pages: set<Page>, before: Distribution, after: Distribution)
    requires pages <= before.Keys && pages <= after.Keys
  {
    forall p {:trigger Drift(before, after, p)} | p in pages :: Drift(before, after, p) <= Tolerance
  }

  /** The snapshot after `k` rounds. */
  ghost function Iterate(c: Corpus, d: real, k: nat): (ranks: Distribution)
    ensures ranks.Keys == c.Keys
    decreases k, 1
  {
    if k == 0 then InitialRanks(c) else RoundOver(c, d, k, c.Keys)
  }

  /**
    Round `k` restricted to the pages of `pages`: each gets its new rank
    computed from the snapshot after `k - 1` rounds, filled in one page at
    a time in any order.
   */
  ghost function RoundOver(c: Corpus, d: real, k: nat, pages: set<Page>): (next: Distribution)
    requires k >= 1 && pages <= c.Keys
    ensures next.Keys == pages
    decreases k, 0, pages
  {
    if pages == {} then map[]
    else
      var p :| p in pages;
      RoundOver(c, d, k, pages - {p})[p := NewRank(c, d, Iterate(c, d, k - 1), p)]
  }

  /** Every page filled in holds its new rank. */
  lemma {:induction false} RoundOverValues(c: Corpus, d: real, k: nat, pages: set<Page>)
    requires k >= 1 && pages <= c.Keys
    ensures forall p | p in pages :: RoundOver(c, d, k, pages)[p] == NewRank(c, d, Iterate(c, d, k - 1), p)
    decreases pages
  {
    if pages != {} {
      var p :| p in pages && RoundOver(c, d, k, pages) == RoundOver(c, d, k, pages - {p})[p := NewRank(c, d, Iterate(c, d, k - 1), p)];
      RoundOverValues(c, d, k, pages - {p});
    }
  }

  /** Lines 119-130: after round `k` every page holds the new rank computed from the snapshot before it. */
  lemma IterateValues(c: Corpus, d: real, k: nat)
    requires k >= 1
    ensures forall p | p in c :: Iterate(c, d, k)[p] == NewRank(c, d, Iterate(c, d, k - 1), p)
  {
    RoundOverValues(c, d, k, c.Keys);
  }

  /** Round `k` moved no page by more than the tolerance. */
  ghost predicate Settled(c: Corpus, d: real, k: nat) {
    k >= 1 && WithinTolerance(c.Keys, Iterate(c, d, k - 1), Iterate(c, d, k))
  }

  /**
    Lines 121-129 for one page: starting from the jump share, add what each
    other page passes on, one page at a time.
   */
  method RankOf(c: Corpus, d: real, ranks: Distribution, item: Page) returns (prob: real)
    requires item in c
    requires c.Keys <= ranks.Keys
    ensures prob == NewRank(c, d, ranks, item)
  {
    prob := (1.0 - d) / |c| as real;
    var others := c.Keys;
    while others != {}
      invariant others <= c.Keys
      invariant prob + Inflow(c, d, ranks, item, others) == NewRank(c, d, ranks, item)
      decreases others
    {
      var sItem :| sItem in others;
      InflowRemove(c, d, ranks, item, others, sItem);
      prob := prob + Share(c, d, ranks, sItem, item);
      others := others - {sItem};
    }
  }

  /** Checking one more page: the pages checked so far, and the new one. */
  lemma WithinToleranceStep(pages: set<Page>, ranks: Distribution, before: Distribution, item: Page, v: real)
    requires pages <= ranks.Keys && pages == before.Keys
    requires item in ranks && item !in pages
    ensures WithinTolerance(pages + {item}, ranks, before[item := v])
        <==> WithinTolerance(pages, ranks, before) && Abs(ranks[item] - v) <= Tolerance
  {
    var after := before[item := v];
    forall p | p in pages
      ensures Drift(ranks, after, p) == Drift(ranks, before, p)
    {
      assert after[p] == before[p];
    }
    assert Drift(ranks, after, item) == Abs(ranks[item] - v);
  }

  /**
    Lines 119-132, one round: a fresh map with the new rank of every page,
    computed from the snapshot `ranks` alone, and whether some page moved
    by more than the tolerance.
   */
  method UpdateStep(c: Corpus, d: real, ranks: Distribution) returns (next: Distribution, continuing: bool)
    requires c.Keys <= ranks.Keys
    ensures next.Keys == c.Keys
    ensures forall p | p in next :: next[p] == NewRank(c, d, ranks, p)
    ensures continuing <==> !WithinTolerance(c.Keys, ranks, next)
  {
    continuing := false;
    next := map[];
    var todo := c.Keys;
    ghost var done: set<Page> := {};
    while todo != {}
      invariant todo <= c.Keys
      invariant done == c.Keys - todo
      invariant next.Keys == done
      invariant forall p | p in next :: next[p] == NewRank(c, d, ranks, p)
      invariant continuing <==> !WithinTolerance(done, ranks, next)
      decreases todo
    {
      var item :| item in todo;
      var prob := RankOf(c, d, ranks, item);
      WithinToleranceStep(done, ranks, next, item, prob);
      next := next[item := prob];
      if Abs(ranks[item] - next[item]) > Tolerance {
        continuing := true;
      }
      done := done + {item};
      todo := todo - {item};
    }
  }

  /** No round from the first to the `k`-th settled. */
  ghost predicate NoneSettled(c: Corpus, d: real, k: nat) {
    k == 0 || (!Settled(c, d, k) && NoneSettled(c, d, k - 1))
  }

  /** `NoneSettled` up to `k` rules out every round from the first to the `k`-th. */
  lemma {:induction false} NoneSettledBefore(c: Corpus, d: real, k: nat, j: nat)
    requires NoneSettled(c, d, k)
    requires 1 <= j <= k
    ensures !Settled(c, d, j)
  {
    if j < k {
      NoneSettledBefore(c, d, k - 1, j);
    }
  }

  /** Round `k` is the first round that settles. */
  ghost predicate FirstSettled(c: Corpus, d: real, k: nat) {
    k >= 1 && Settled(c, d, k) && NoneSettled(c, d, k - 1)
  }

  /** A map with the new rank of every page, computed from snapshot `round`, is snapshot `round + 1`. */
  lemma IterateFrom(c: Corpus, d: real, round: nat, ranks: Distribution, next: Distribution)
    requires ranks == Iterate(c, d, round)
    requires next.Keys == c.Keys
    requires forall p | p in next :: next[p] == NewRank(c, d, ranks, p)
    ensures next == Iterate(c, d, round + 1)
  {
    IterateValues(c, d, round + 1);
  }

  /**
    One round of the loop after `round` unsettled rounds: a map with the
    new rank of every page is the next snapshot; when no page moved by more
    than the tolerance it is the first to settle, and otherwise the
    unsettled run grows by one.
   */
  lemma RoundStep(c: Corpus, d: real, round: nat, ranks: Distribution, next: Distribution, continuing: bool)
    requires ranks == Iterate(c, d, round)
    requires NoneSettled(c, d, round)
    requires next.Keys == c.Keys
    requires forall p | p in next :: next[p] == NewRank(c, d, ranks, p)
    requires continuing <==> !WithinTolerance(c.Keys, ranks, next)
    ensures next == Iterate(c, d, round + 1)
    ensures !continuing ==> FirstSettled(c, d, round + 1)
    ensures continuing ==> NoneSettled(c, d, round + 1)
  {
    IterateFrom(c, d, round, ranks, next);
  }

  /** One pass of the `while` body after `round` unsettled rounds, checked against the rounds before it. */
  method NextRound(c: Corpus, d: real, round: nat, ranks: Distribution) returns (next: Distribution, continuing: bool)
    requires ranks == Iterate(c, d, round)
    requires NoneSettled(c, d, round)
    ensures next == Iterate(c, d, round + 1)
    ensures !continuing ==> FirstSettled(c, d, round + 1)
    ensures continuing ==> NoneSettled(c, d, round + 1)
  {
    next, continuing := UpdateStep(c, d, ranks);
    RoundStep(c, d, round, ranks, next, continuing);
  }

  /**
    Lines 113-138 with at most `maxRounds` rounds. `ranks` is the snapshot
    after `rounds` rounds. When `converged`, that round is the first that
    moved no page by more than the tolerance, and every earlier round moved
    some page further; otherwise all `maxRounds` rounds ran and none settled.
   */
  method IteratePageRank(c: Corpus, d: real, maxRounds: nat) returns (ranks: Distribution, rounds: nat, converged: bool)
    ensures rounds <= maxRounds
    ensures ranks == Iterate(c, d, rounds)
    ensures converged ==> FirstSettled(c, d, rounds)
    ensures !converged ==> rounds == maxRounds && NoneSettled(c, d, maxRounds)
  {
    ranks := InitialRanks(c);
    rounds := 0;
    converged := false;
    while !converged && rounds < maxRounds
      invariant rounds <= maxRounds
      invariant ranks == Iterate(c, d, rounds)
      invariant converged ==> FirstSettled(c, d, rounds)
      invariant !converged ==> NoneSettled(c, d, rounds)
      decreases maxRounds - rounds
    {
      var temporary, continuing := NextRound(c, d, rounds, ranks);
      ranks := temporary;
      rounds := rounds + 1;
      converged := !continuing;
    }
  }

  /** With at least one page, the starting ranks add up to one. */
  lemma InitialRanksTotal(c: Corpus)
    requires |c| > 0
    ensures Total(InitialRanks(c)) == 1.0
  {
    var ranks := InitialRanks(c);
    SumOverMarked(ranks, ranks.Keys, {}, 1.0 / |c| as real, 0.0);
    assert |ranks.Keys| == |c|;
    RepeatFraction(|c|, 1.0);
  }

  /**
    A page never gets less than the jump share when the damping factor and
    the snapshot's ranks are non-negative: everything passed on is then
    non-negative.
   */
  lemma NewRankLowerBound(c: Corpus, d: real, ranks: Distribution, p: Page)
    requires p in c
    requires c.Keys <= ranks.Keys
    requires 0.0 <= d
    requires forall q | q in c :: ranks[q] >= 0.0
    ensures NewRank(c, d, ranks, p) >= JumpShare(c, d)
  {
    forall q | q in c
      ensures Share(c, d, ranks, q, p) >= 0.0
    {
      assert ranks[q] / |c| as real >= 0.0;
      if |c[q]| > 0 {
        assert ranks[q] / |c[q]| as real >= 0.0;
      }
    }
    InflowNonNegative(c, d, ranks, p, c.Keys);
  }

  /**
    The new rank of a page does not depend on its own previous rank: the
    test at line 123 keeps a page from passing anything on to itself.
   */
  lemma NewRankIgnoresOwnRank(c: Corpus, d: real, ranks: Distribution, p: Page, v: real)
    requires p in c
    requires c.Keys <= ranks.Keys
    ensures NewRank(c, d, ranks[p := v], p) == NewRank(c, d, ranks, p)
  {
    var changed := ranks[p := v];
    forall q | q in c
      ensures Share(c, d, changed, q, p) == Share(c, d, ranks, q, p)
    {
      if q != p {
        assert changed[q] == ranks[q];
      }
    }
    InflowAgree(c, d, changed, ranks, p, c.Keys);
  }

  /**
    A round after a non-negative snapshot with `0 <= d <= 1` gives every
    page at least the jump share, which is itself non-negative.
   */
  lemma RoundLowerBound(c: Corpus, d: real, k: nat)
    requires k >= 1
    requires 0.0 <= d <= 1.0
    requires forall q | q in c :: Iterate(c, d, k - 1)[q] >= 0.0
    ensures forall p | p in c :: Iterate(c, d, k)[p] >= JumpShare(c, d) >= 0.0
  {
    IterateValues(c, d, k);
    forall p | p in c
      ensures Iterate(c, d, k)[p] >= JumpShare(c, d) >= 0.0
    {
      assert (1.0 - d) / |c| as real >= 0.0;
      NewRankLowerBound(c, d, Iterate(c, d, k - 1), p);
    }
  }

  /** For `0 <= d <= 1` every snapshot is non-negative. */
  lemma {:induction false} IterateNonNegative(c: Corpus, d: real, k: nat)
    requires 0.0 <= d <= 1.0
    ensures forall p | p in c :: Iterate(c, d, k)[p] >= 0.0
  {
    if k == 0 {
      forall p | p in c
        ensures Iterate(c, d, 0)[p] >= 0.0
      {
        assert 1.0 / |c| as real >= 0.0;
      }
    } else {
      IterateNonNegative(c, d, k - 1);
      RoundLowerBound(c, d, k);
    }
  }

  /** For `0 <= d <= 1`, from the first round on every page holds at least the jump share. */
  lemma IterateLowerBound(c: Corpus, d: real, k: nat)
    requires k >= 1
    requires 0.0 <= d <= 1.0
    ensures forall p | p in c :: Iterate(c, d, k)[p] >= JumpShare(c, d)
  {
    IterateNonNegative(c, d, k - 1);
    RoundLowerBound(c, d, k);
  }

  /** A corpus of one page without links. */
  function LoneSink(): (c: Corpus)
    ensures WellFormed(c)
  {
    map["A" := {}]
  }

  /** A lone page has no other page to receive anything from. */
  lemma LoneSinkReceivesNothing(ranks: Distribution)
    requires ranks.Keys == LoneSink().Keys
    ensures Inflow(LoneSink(), 0.85, ranks, "A", {"A"}) == 0.0
  {
    InflowRemove(LoneSink(), 0.85, ranks, "A", {"A"}, "A");
    assert {"A"} - {"A"} == {};
  }

  /** In a lone sink nothing is passed on, so every round gives the page the jump share 0.15. */
  lemma LoneSinkRound(k: nat)
    requires k >= 1
    ensures Iterate(LoneSink(), 0.85, k) == map["A" := 0.15]
  {
    var c := LoneSink();
    assert c.Keys == {"A"};
    IterateValues(c, 0.85, k);
    LoneSinkReceivesNothing(Iterate(c, 0.85, k - 1));
    assert JumpShare(c, 0.85) == 0.15 by {
      assert |c| == 1;
    }
    assert NewRank(c, 0.85, Iterate(c, 0.85, k - 1), "A") == 0.15;
  }

  /**
    A round does not preserve the total rank. In a corpus of one sink with
    damping 0.85 the page starts at 1, passes nothing on to itself, and so
    gets only the jump share 0.15: the total drops from 1 to 0.15, and the
    page moved by 0.85, so the first round does not settle.
   */
  lemma SinkLosesMass()
    ensures Total(Iterate(LoneSink(), 0.85, 0)) == 1.0
    ensures Iterate(LoneSink(), 0.85, 1) == map["A" := 0.15]
    ensures Total(Iterate(LoneSink(), 0.85, 1)) == 0.15
    ensures !Settled(LoneSink(), 0.85, 1)
  {
    var c := LoneSink();
    InitialRanksTotal(c);
    var zero := Iterate(c, 0.85, 0);
    assert zero["A"] == 1.0;
    LoneSinkRound(1);
    var one := Iterate(c, 0.85, 1);
    SumOverConstant(one, one.Keys, 0.15);
    assert |one.Keys| == 1;
    assert Drift(zero, one, "A") == 0.85;
  }

  /** After the first round the lone sink stays at 0.15, so the second round settles. */
  lemma SinkSettlesInSecondRound()
    ensures Iterate(LoneSink(), 0.85, 2) == Iterate(LoneSink(), 0.85, 1)
    ensures Settled(LoneSink(), 0.85, 2)
  {
    LoneSinkRound(1);
    LoneSinkRound(2);
  }
}
