/**
  The corpus graph and the link filter that `crawl` applies after reading the
  HTML files (pagerank.py, lines 41 and 44-48).

  Listing the directory, reading each file and extracting the `href` targets
  with a regular expression happen before this point; the model starts from
  what that extraction produced: for every page file, the list of link
  targets found in it, in document order and possibly with repeats.
 */
module Corpus {

  /** A page is identified by its file name. */
  type Page = string

  /** What the extraction yields: each page file with the raw link targets found in it. */
  type RawLinks = map<Page, seq<Page>>

  /** Each page with its outgoing links. */
  type Corpus = map<Page, set<Page>>

  /** Every link points at a page of the corpus, and no page links to itself. */
  ghost predicate WellFormed(c: Corpus) {
    forall p | p in c :: c[p] <= c.Keys && p !in c[p]
  }

  /** Line 41: the distinct targets of a page, without the page itself. */
  function StripSelfLinks(raw: RawLinks): (pages: map<Page, set<Page>>)
    ensures pages.Keys == raw.Keys
    ensures forall p, q | p in pages :: q in pages[p] <==> q in raw[p] && q != p
  {
    map p | p in raw :: (set q | q in raw[p]) - {p}
  }

  /** Lines 44-48: keep only the links whose target is itself a page of the corpus. */
  function KeepCorpusLinks(pages: map<Page, set<Page>>): (c: Corpus)
    ensures c.Keys == pages.Keys
    ensures forall p, q | p in c :: q in c[p] <==> q in pages[p] && q in pages
  {
    map p | p in pages :: set q | q in pages[p] && q in pages
  }

  /**
    The whole post-pass of `crawl`: the result is a well-formed corpus over
    the same pages, and a page links to another exactly when that other page
    is in the corpus, differs from it, and appears among its raw targets.
   */
  function CrawlLinks(raw: RawLinks): (c: Corpus)
    ensures c.Keys == raw.Keys
    ensures WellFormed(c)
    ensures forall p | p in c :: forall q :: q in c[p] <==> q in raw[p] && q != p && q in raw
  {
    KeepCorpusLinks(StripSelfLinks(raw))
  }

  /** Keeping corpus links twice is the same as keeping them once. */
  lemma KeepCorpusLinksIdempotent(pages: map<Page, set<Page>>)
    ensures KeepCorpusLinks(KeepCorpusLinks(pages)) == KeepCorpusLinks(pages)
  {
    var once := KeepCorpusLinks(pages);
    var twice := KeepCorpusLinks(once);
    forall p | p in once
      ensures twice[p] == once[p]
    {
      assert forall q :: q in twice[p] <==> q in once[p];
    }
  }

  /**
    The filter changes nothing on input that already describes a well-formed
    corpus: if the raw targets of each page are exactly its links in `c`,
    the post-pass gives back `c`.
   */
  lemma CrawlLinksKeepsWellFormed(raw: RawLinks, c: Corpus)
    requires WellFormed(c)
    requires raw.Keys == c.Keys
    requires forall p | p in raw :: (set q | q in raw[p]) == c[p]
    ensures CrawlLinks(raw) == c
  {
    var r := CrawlLinks(raw);
    forall p | p in c
      ensures r[p] == c[p]
    {
      assert forall q :: q in raw[p] <==> q in c[p] by {
        forall q ensures q in raw[p] <==> q in c[p] {
          assert q in raw[p] <==> q in (set q' | q' in raw[p]);
        }
      }
      assert forall q :: q in r[p] <==> q in c[p];
    }
  }
}
