/**
  The damped random-surfer transition model, `transition_model`
  (pagerank.py, lines 53-74).

  Python floats are modelled as exact reals and the damping factor is not
  validated, as in the source: every statement below holds for any real
  `d` unless a lemma says otherwise.
 */
module Transition {
  import opened Corpus
  import opened Sums

  /** A distribution over the next page, or a ranking: a real per page. */
  type Distribution = map<Page, real>

  /** The failure `transition_model` can raise: the current page is not in the corpus. */
  datatype Result<T> = Ok(value: T) | KeyNotFound(page: Page)

  /** The share every page gets from a random jump, `(1 - d) / N`. */
  function JumpShare(c: Corpus, d: real): real
    requires |c| > 0
  {
    (1.0 - d) / |c| as real
  }

  /**
    Lines 65-70, the probability of moving from `page` to `q`: the
    random-jump share, plus `d / |L|` when `q` is one of the links `L` of
    `page`, or plus `d / N` for every `q` when `page` has no links.
   */
  function Probability(c: Corpus, page: Page, d: real, q: Page): (prob: real)
    requires page in c
    ensures 0.0 <= d ==> prob >= JumpShare(c, d)
    ensures 0.0 < d && q in c[page] ==> prob > JumpShare(c, d)
  {
    var links := c[page];
    var prob := (1.0 - d) / |c| as real;
    if |links| > 0 then
      (if q in links then prob + d / |links| as real else prob)
    else
      prob + d / |c| as real
  }

  /**
    Lines 62-74: one entry per page of the corpus. From a sink the
    distribution is uniform; otherwise each link gets the jump share plus
    an equal part of `d`, and every other page gets only the jump share.
   */
  function TransitionModel(c: Corpus, page: Page, d: real): (dist: Distribution)
    requires page in c
    ensures dist.Keys == c.Keys
    ensures c[page] == {} ==> forall q | q in dist :: dist[q] == 1.0 / |c| as real
    ensures c[page] != {} ==> forall q | q in dist && q in c[page] ::
              dist[q] == JumpShare(c, d) + d / |c[page]| as real
    ensures c[page] != {} ==> forall q | q in dist && q !in c[page] :: dist[q] == JumpShare(c, d)
  {
    map q | q in c :: Probability(c, page, d, q)
  }

  /** Line 63 raises when the current page is not a key of the corpus. */
  function TryTransitionModel(c: Corpus, page: Page, d: real): (r: Result<Distribution>)
    ensures r.KeyNotFound? <==> page !in c
    ensures r.KeyNotFound? ==> r.page == page
    ensures r.Ok? ==> r.value == TransitionModel(c, page, d)
  {
    if page in c then Ok(TransitionModel(c, page, d)) else KeyNotFound(page)
  }

  /**
    When every link of the current page is a page of the corpus, the
    distribution sums to exactly one: `N` jump shares of `(1 - d) / N`, plus
    either `|L|` link shares of `d / |L|` or `N` sink shares of `d / N`.
   */
  lemma TransitionSumsToOne(c: Corpus, page: Page, d: real)
    requires page in c
    requires c[page] <= c.Keys
    ensures Total(TransitionModel(c, page, d)) == 1.0
  {
    var dist := TransitionModel(c, page, d);
    var links := c[page];
    assert |dist.Keys| == |c|;
    if links == {} {
      SumOverMarked(dist, dist.Keys, {}, 1.0 / |c| as real, 0.0);
      RepeatFraction(|c|, 1.0);
    } else {
      SumOverMarked(dist, dist.Keys, links, JumpShare(c, d), d / |links| as real);
      assert dist.Keys * links == links;
      RepeatFraction(|c|, 1.0 - d);
      RepeatFraction(|links|, d);
    }
  }

  /**
    With a non-negative damping factor no page gets less than the jump
    share, and with `d <= 1` that share, hence every entry, is non-negative.
   */
  lemma TransitionLowerBound(c: Corpus, page: Page, d: real)
    requires page in c
    requires 0.0 <= d
    ensures forall q | q in c :: TransitionModel(c, page, d)[q] >= JumpShare(c, d)
    ensures d <= 1.0 ==> forall q | q in c :: TransitionModel(c, page, d)[q] >= 0.0
  {
  }

  /**
    With a positive damping factor, a page the current page links to is
    strictly more likely than one it does not link to.
   */
  lemma LinkedPageMoreLikely(c: Corpus, page: Page, d: real, linked: Page, other: Page)
    requires page in c
    requires 0.0 < d
    requires linked in c[page] && linked in c
    requires other in c && other !in c[page]
    ensures TransitionModel(c, page, d)[linked] > TransitionModel(c, page, d)[other]
  {
  }

  /** Three pages in a line, A -> B -> C, with C a sink. */
  function LineCorpus(): (c: Corpus)
    ensures WellFormed(c)
  {
    map["A" := {"B"}, "B" := {"C"}, "C" := {}]
  }

  /** From A with damping 0.85: 0.05 to A and C, 0.05 + 0.85 = 0.9 to B. */
  lemma LineCorpusFromA()
    ensures TransitionModel(LineCorpus(), "A", 0.85) == map["A" := 0.05, "B" := 0.9, "C" := 0.05]
  {
    // The two sizes are what the divisions need; without them the solver
    // works several times harder to find them.
    var c := LineCorpus();
    assert |c| == 3;
    assert |c["A"]| == 1;
  }
}
