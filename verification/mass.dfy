/**
  How one round of `iterate_pagerank` (pagerank.py, lines 119-130) changes
  the total rank.

  Summing the new ranks page by page, the jump shares give `1 - d`, and the
  rest is what every page passes on, summed over the pages it reaches. A
  page with links passes on all of `d` times its rank when its links are
  corpus pages other than itself. A sink passes `d / N` of its rank to each
  of the other `N - 1` pages and nothing to itself (line 123), so it loses
  `d / N` of its rank in every round. Hence the total stays one when there
  are no sinks, drops by what the sinks withhold when there are, and
  never grows above one.
 */
module Mass {
  import opened Corpus
  import opened Sums
  import opened Transition
  import opened Iteration

  /** The pages without links. */
  function Sinks(c: Corpus): set<Page> {
    set q | q in c && |c[q]| == 0
  }

  /** What page `q` passes on to the pages of `targets` in one round. */
  ghost function Outflow(c: Corpus, d: real, ranks: Distribution, q: Page, targets: set<Page>): real
    requires q in c && q in ranks
    decreases targets
  {
    if targets == {} then 0.0
    else
      var p :| p in targets;
      Share(c, d, ranks, q, p) + Outflow(c, d, ranks, q, targets - {p})
  }

  /** Any page of `targets` can be taken out of the outflow first. */
  lemma {:induction false} OutflowRemove(c: Corpus, d: real, ranks: Distribution, q: Page, targets: set<Page>, y: Page)
    requires q in c && q in ranks
    requires y in targets
    ensures Outflow(c, d, ranks, q, targets) == Share(c, d, ranks, q, y) + Outflow(c, d, ranks, q, targets - {y})
    decreases targets
  {
    var p :| p in targets && Outflow(c, d, ranks, q, targets) == Share(c, d, ranks, q, p) + Outflow(c, d, ranks, q, targets - {p});
    if p != y {
      OutflowRemove(c, d, ranks, q, targets - {p}, y);
      OutflowRemove(c, d, ranks, q, targets - {y}, p);
      assert targets - {p} - {y} == targets - {y} - {p};
    }
  }

  /** What the pages of `from` pass on to the pages of `targets` in one round. */
  ghost function Sent(c: Corpus, d: real, ranks: Distribution, from: set<Page>, targets: set<Page>): real
    requires from <= c.Keys <= ranks.Keys
    decreases from
  {
    if from == {} then 0.0
    else
      var q :| q in from;
      Outflow(c, d, ranks, q, targets) + Sent(c, d, ranks, from - {q}, targets)
  }

  /** Any page of `from` can be taken out of the sum first. */
  lemma {:induction false} SentRemove(c: Corpus, d: real, ranks: Distribution, from: set<Page>, targets: set<Page>, y: Page)
    requires from <= c.Keys <= ranks.Keys
    requires y in from
    ensures Sent(c, d, ranks, from, targets) == Outflow(c, d, ranks, y, targets) + Sent(c, d, ranks, from - {y}, targets)
    decreases from
  {
    var q :| q in from && Sent(c, d, ranks, from, targets) == Outflow(c, d, ranks, q, targets) + Sent(c, d, ranks, from - {q}, targets);
    if q != y {
      SentRemove(c, d, ranks, from - {q}, targets, y);
      SentRemove(c, d, ranks, from - {y}, targets, q);
      assert from - {q} - {y} == from - {y} - {q};
    }
  }

  /** Nothing is sent to no page. */
  lemma {:induction false} SentToNothing(c: Corpus, d: real, ranks: Distribution, from: set<Page>)
    requires from <= c.Keys <= ranks.Keys
    ensures Sent(c, d, ranks, from, {}) == 0.0
    decreases from
  {
    if from != {} {
      var q :| q in from;
      SentRemove(c, d, ranks, from, {}, q);
      SentToNothing(c, d, ranks, from - {q});
    }
  }

  /**
    Summing by sender or by receiver gives the same: what is sent to `targets`
    is what `p` receives plus what is sent to the rest of `targets`.
   */
  lemma {:induction false} SentSplit(c: Corpus, d: real, ranks: Distribution, from: set<Page>, targets: set<Page>, p: Page)
    requires from <= c.Keys <= ranks.Keys
    requires p in targets
    ensures Sent(c, d, ranks, from, targets) == Inflow(c, d, ranks, p, from) + Sent(c, d, ranks, from, targets - {p})
    decreases from
  {
    if from != {} {
      var q :| q in from;
      SentRemove(c, d, ranks, from, targets, q);
      SentRemove(c, d, ranks, from, targets - {p}, q);
      OutflowRemove(c, d, ranks, q, targets, p);
      InflowRemove(c, d, ranks, p, from, q);
      SentSplit(c, d, ranks, from - {q}, targets, p);
    }
  }

  /**
    The new ranks of the pages of `targets` add up to a jump share for each of
    them plus everything the corpus sends to them.
   */
  lemma {:induction false} RoundSum(c: Corpus, d: real, ranks: Distribution, next: Distribution, targets: set<Page>)
    requires |c| > 0
    requires targets <= c.Keys <= ranks.Keys && targets <= next.Keys
    requires forall p | p in targets :: next[p] == NewRank(c, d, ranks, p)
    ensures SumOver(next, targets) == Repeat(|targets|, JumpShare(c, d)) + Sent(c, d, ranks, c.Keys, targets)
    decreases targets
  {
    if targets == {} {
      SentToNothing(c, d, ranks, c.Keys);
    } else {
      var p :| p in targets;
      SumOverRemove(next, targets, p);
      RoundSum(c, d, ranks, next, targets - {p});
      SentSplit(c, d, ranks, c.Keys, targets, p);
      assert |targets| == |targets - {p}| + 1;
    }
  }

  /**
    When `q` passes the same portion `u` to each page of `receivers` and
    nothing to any other page, it passes `u` once per receiver in `targets`.
   */
  lemma {:induction false} OutflowCount(c: Corpus, d: real, ranks: Distribution, q: Page, targets: set<Page>,
                                        receivers: set<Page>, u: real)
    requires q in c && q in ranks
    requires forall p | p in targets :: Share(c, d, ranks, q, p) == (if p in receivers then u else 0.0)
    ensures Outflow(c, d, ranks, q, targets) == Repeat(|targets * receivers|, u)
    decreases targets
  {
    if targets == {} {
      assert targets * receivers == {};
    } else {
      var p :| p in targets;
      var rest := targets - {p};
      OutflowRemove(c, d, ranks, q, targets, p);
      OutflowCount(c, d, ranks, q, rest, receivers, u);
      if p in receivers {
        assert targets * receivers == rest * receivers + {p};
      } else {
        assert targets * receivers == rest * receivers;
      }
    }
  }

  /** How many pages share what page `q` passes on: its links, or every page for a sink. */
  function Divisor(c: Corpus, q: Page): nat
    requires q in c
  {
    if |c[q]| > 0 then |c[q]| else |c|
  }

  /** The portion page `q` passes on to each page that receives from it. */
  function Portion(c: Corpus, d: real, ranks: Distribution, q: Page): real
    requires q in c && q in ranks
  {
    d * (ranks[q] / Divisor(c, q) as real)
  }

  /** `Divisor(c, q)` portions make `d` times the rank of `q`, and no portion is negative. */
  lemma PortionWhole(c: Corpus, d: real, ranks: Distribution, q: Page)
    requires q in c && q in ranks
    ensures Repeat(Divisor(c, q), Portion(c, d, ranks, q)) == d * ranks[q]
    ensures 0.0 <= d && 0.0 <= ranks[q] ==> 0.0 <= Portion(c, d, ranks, q)
  {
    var n := Divisor(c, q);
    RepeatIsProduct(n, Portion(c, d, ranks, q));
    assert n as real * (ranks[q] / n as real) == ranks[q];
  }

  /**
    Page `q` passes a portion to each of its links in the corpus other than
    itself, or, as a sink, to each other page.
   */
  lemma OutflowByReceivers(c: Corpus, d: real, ranks: Distribution, q: Page)
    requires q in c && q in ranks
    ensures Outflow(c, d, ranks, q, c.Keys)
         == Repeat(|c.Keys * ((if |c[q]| > 0 then c[q] else c.Keys) - {q})|, Portion(c, d, ranks, q))
  {
    var receivers := (if |c[q]| > 0 then c[q] else c.Keys) - {q};
    forall p | p in c.Keys
      ensures Share(c, d, ranks, q, p) == (if p in receivers then Portion(c, d, ranks, q) else 0.0)
    {
    }
    OutflowCount(c, d, ranks, q, c.Keys, receivers, Portion(c, d, ranks, q));
  }

  /**
    With non-negative damping and rank, a page passes on at most `d` times
    its rank, and nothing negative.
   */
  lemma OutflowAtMost(c: Corpus, d: real, ranks: Distribution, q: Page)
    requires q in c && q in ranks
    requires 0.0 <= d && 0.0 <= ranks[q]
    ensures 0.0 <= Outflow(c, d, ranks, q, c.Keys) <= d * ranks[q]
  {
    var pool := if |c[q]| > 0 then c[q] else c.Keys;
    OutflowByReceivers(c, d, ranks, q);
    PortionWhole(c, d, ranks, q);
    SubsetSize(c.Keys * (pool - {q}), pool);
    RepeatAtMost(|c.Keys * (pool - {q})|, Divisor(c, q), Portion(c, d, ranks, q));
  }

  /**
    In a well-formed corpus a page with links passes on exactly `d` times
    its rank; a sink withholds the one portion it would have passed on to
    itself.
   */
  lemma OutflowExact(c: Corpus, d: real, ranks: Distribution, q: Page)
    requires WellFormed(c)
    requires q in c && q in ranks
    ensures Outflow(c, d, ranks, q, c.Keys)
         == d * ranks[q] - (if q in Sinks(c) then Portion(c, d, ranks, q) else 0.0)
  {
    OutflowByReceivers(c, d, ranks, q);
    PortionWhole(c, d, ranks, q);
    if |c[q]| > 0 {
      assert c.Keys * (c[q] - {q}) == c[q];
    } else {
      assert c.Keys * (c.Keys - {q}) == c.Keys - {q};
      assert |c.Keys - {q}| == |c| - 1;
    }
  }

  /**
    The portion each sink withholds in a round: `d / N` of its rank, the
    part line 123 stops it from passing to itself.
   */
  ghost function SinkPortions(c: Corpus, d: real, ranks: Distribution): (kept: map<Page, real>)
    requires c.Keys <= ranks.Keys
    ensures kept.Keys == Sinks(c)
  {
    map q | q in Sinks(c) :: Portion(c, d, ranks, q)
  }

  /**
    In a well-formed corpus the pages of `from` send `d` times their rank,
    less the portions the sinks among them withhold.
   */
  lemma {:induction false} SentExact(c: Corpus, d: real, ranks: Distribution, from: set<Page>)
    requires WellFormed(c)
    requires from <= c.Keys <= ranks.Keys
    ensures Sent(c, d, ranks, from, c.Keys) + SumOver(SinkPortions(c, d, ranks), from * Sinks(c))
         == SumOver(Scale(d, ranks), from)
    decreases from
  {
    if from == {} {
      assert from * Sinks(c) == {};
    } else {
      var q :| q in from;
      SentRemove(c, d, ranks, from, c.Keys, q);
      SumOverRemove(Scale(d, ranks), from, q);
      SentExact(c, d, ranks, from - {q});
      OutflowExact(c, d, ranks, q);
      if q in Sinks(c) {
        assert from * Sinks(c) - {q} == (from - {q}) * Sinks(c);
        SumOverRemove(SinkPortions(c, d, ranks), from * Sinks(c), q);
      } else {
        assert from * Sinks(c) == (from - {q}) * Sinks(c);
      }
    }
  }

  /** With non-negative damping and ranks, the pages of `from` send at most `d` times their rank. */
  lemma {:induction false} SentAtMost(c: Corpus, d: real, ranks: Distribution, from: set<Page>)
    requires from <= c.Keys <= ranks.Keys
    requires 0.0 <= d
    requires forall q | q in from :: 0.0 <= ranks[q]
    ensures Sent(c, d, ranks, from, c.Keys) <= SumOver(Scale(d, ranks), from)
    decreases from
  {
    if from != {} {
      var q :| q in from;
      SentRemove(c, d, ranks, from, c.Keys, q);
      SumOverRemove(Scale(d, ranks), from, q);
      SentAtMost(c, d, ranks, from - {q});
      OutflowAtMost(c, d, ranks, q);
    }
  }

  /** Pointwise, `after` is the round of lines 119-130 applied to `before`. */
  ghost predicate RoundOf(c: Corpus, d: real, before: Distribution, after: Distribution)
  {
    && |c| > 0
    && before.Keys == c.Keys && after.Keys == c.Keys
    && forall p | p in c :: after[p] == NewRank(c, d, before, p)
  }

  /** Snapshot `k` is one round applied to snapshot `k - 1`. */
  lemma IterateRound(c: Corpus, d: real, k: nat)
    requires |c| > 0 && k >= 1
    ensures RoundOf(c, d, Iterate(c, d, k - 1), Iterate(c, d, k))
  {
    IterateValues(c, d, k);
  }

  /**
    Lines 119-130 summed over a well-formed corpus: the total after a round,
    plus the portions the sinks withheld, is `1 - d` plus `d` times the
    total before it.
   */
  lemma RoundTotal(c: Corpus, d: real, before: Distribution, after: Distribution)
    requires WellFormed(c)
    requires RoundOf(c, d, before, after)
    ensures Total(after) + SumOver(SinkPortions(c, d, before), Sinks(c)) == (1.0 - d) + d * Total(before)
  {
    RoundSum(c, d, before, after, c.Keys);
    RepeatFraction(|c|, 1.0 - d);
    SentExact(c, d, before, c.Keys);
    TotalScale(d, before);
    assert c.Keys * Sinks(c) == Sinks(c);
    assert Total(Scale(d, before)) == d * Total(before);
  }

  /** The portion a sink withholds is `d / N` of its rank. */
  lemma SinkPortionValue(c: Corpus, d: real, ranks: Distribution, q: Page)
    requires c.Keys <= ranks.Keys
    requires q in Sinks(c)
    ensures SinkPortions(c, d, ranks)[q] == d * (ranks[q] / |c| as real)
  {
  }

  /** A round keeps a total of one when the corpus has no sinks. */
  lemma RoundKeepsOne(c: Corpus, d: real, before: Distribution, after: Distribution)
    requires WellFormed(c) && Sinks(c) == {}
    requires RoundOf(c, d, before, after)
    requires Total(before) == 1.0
    ensures Total(after) == 1.0
  {
    RoundTotal(c, d, before, after);
  }

  /**
    Snapshot `k` of the iteration under a non-recursive name, so that a
    statement about it does not unfold the rounds behind it.
   */
  ghost function Snapshot(c: Corpus, d: real, k: nat): (ranks: Distribution)
    ensures ranks.Keys == c.Keys
  {
    Iterate(c, d, k)
  }

  /** Snapshot `k` adds up to one when snapshot `k - 1` does and the corpus has no sinks. */
  lemma IterateKeepsOne(c: Corpus, d: real, k: nat)
    requires WellFormed(c) && |c| > 0 && Sinks(c) == {}
    requires k >= 1 && Total(Snapshot(c, d, k - 1)) == 1.0
    ensures Total(Snapshot(c, d, k)) == 1.0
  {
    IterateRound(c, d, k);
    RoundKeepsOne(c, d, Iterate(c, d, k - 1), Iterate(c, d, k));
  }

  /** With `0 <= d <= 1`, a round of non-negative ranks that add up to at most one adds up to at most one. */
  lemma RoundAtMostOne(c: Corpus, d: real, before: Distribution, after: Distribution)
    requires 0.0 <= d <= 1.0
    requires RoundOf(c, d, before, after)
    requires forall p | p in c :: 0.0 <= before[p]
    requires Total(before) <= 1.0
    ensures Total(after) <= 1.0
  {
    RoundSum(c, d, before, after, c.Keys);
    RepeatFraction(|c|, 1.0 - d);
    SentAtMost(c, d, before, c.Keys);
    ScaleTotalAtMost(d, before);
  }

  /** The starting snapshot adds up to one. */
  lemma StartTotal(c: Corpus, d: real)
    requires |c| > 0
    ensures Total(Snapshot(c, d, 0)) == 1.0
  {
    InitialRanksTotal(c);
  }

  /** The induction behind `NoSinksKeepTotal`, stated over `Snapshot`. */
  lemma {:induction false} SnapshotsKeepOne(c: Corpus, d: real, k: nat)
    requires WellFormed(c) && |c| > 0
    requires Sinks(c) == {}
    ensures Total(Snapshot(c, d, k)) == 1.0
    decreases k
  {
    if k > 0 {
      SnapshotsKeepOne(c, d, k - 1);
      IterateKeepsOne(c, d, k);
    } else {
      StartTotal(c, d);
    }
  }

  /** In a well-formed corpus without sinks every snapshot adds up to exactly one. */
  lemma NoSinksKeepTotal(c: Corpus, d: real, k: nat)
    requires WellFormed(c) && |c| > 0
    requires Sinks(c) == {}
    ensures Total(Iterate(c, d, k)) == 1.0
  {
    SnapshotsKeepOne(c, d, k);
  }

  /** For `0 <= d <= 1`, on any corpus, no snapshot adds up to more than one. */
  lemma {:induction false} TotalAtMostOne(c: Corpus, d: real, k: nat)
    requires 0.0 <= d <= 1.0
    ensures Total(Iterate(c, d, k)) <= 1.0
    decreases k
  {
    if |c| == 0 {
      assert Iterate(c, d, k).Keys == {};
    } else if k == 0 {
      InitialRanksTotal(c);
    } else {
      TotalAtMostOne(c, d, k - 1);
      IterateNonNegative(c, d, k - 1);
      IterateRound(c, d, k);
      RoundAtMostOne(c, d, Iterate(c, d, k - 1), Iterate(c, d, k));
    }
  }

  /**
    The range the docstring of `iterate_pagerank` (lines 108-109) gives:
    for `0 <= d <= 1` every value of every snapshot lies between 0 and 1.
   */
  lemma RankAtMostOne(c: Corpus, d: real, k: nat)
    requires 0.0 <= d <= 1.0
    ensures forall p | p in c :: 0.0 <= Iterate(c, d, k)[p] <= 1.0
  {
    var ranks := Iterate(c, d, k);
    TotalAtMostOne(c, d, k);
    IterateNonNegative(c, d, k);
    forall p | p in c
      ensures ranks[p] <= 1.0
    {
      SumOverRemove(ranks, ranks.Keys, p);
      SumOverNonNegative(ranks, ranks.Keys - {p});
    }
  }
}
