/** URL deduplication: the first article carrying each non-empty URL is kept,
    later ones with the same URL are dropped, and so is every article whose
    URL is empty. */
module Dedup {
  import opened Sequences
  import opened Articles

  /** The non-empty URLs the articles carry. */
  ghost function UrlsOf(articles: seq<Article>): set<string> {
    set a | a in articles && a.url != "" :: a.url
  }

  /** Article `a`, coming after `before`, is kept: its URL is non-empty and
      no earlier article carries it. */
  function FirstUrl(): (seq<Article>, Article) -> bool {
    (before: seq<Article>, a: Article) => a.url != "" && forall b :: b in before ==> b.url != a.url
  }

  /** What `deduplicate_articles(articles)` returns. */
  function Deduplicated(articles: seq<Article>): seq<Article> {
    SelectBy(articles, FirstUrl())
  }

  /** The URLs of one more article. */
  lemma UrlsOfStep(articles: seq<Article>, i: nat)
    requires i < |articles|
    ensures UrlsOf(articles[..i + 1]) ==
      UrlsOf(articles[..i]) + (if articles[i].url != "" then {articles[i].url} else {})
  {
    assert articles[..i + 1] == articles[..i] + [articles[i]];
  }

  /** A URL is seen exactly when an earlier article carries it. */
  lemma UrlsOfSeen(before: seq<Article>, url: string)
    requires url != ""
    ensures url in UrlsOf(before) <==> exists b :: b in before && b.url == url
  {
  }

  method Deduplicate(articles: seq<Article>) returns (unique: seq<Article>)
    ensures unique == Deduplicated(articles)
  {
    var seenUrls: set<string> := {};
    unique := [];
    for i := 0 to |articles|
      invariant unique == SelectBy(articles[..i], FirstUrl())
      invariant seenUrls == UrlsOf(articles[..i])
    {
      var article := articles[i];
      var url := article.url;
      SelectByStep(articles, i, FirstUrl());
      UrlsOfStep(articles, i);
      if url != "" {
        UrlsOfSeen(articles[..i], url);
      }
      if url != "" && url !in seenUrls {
        seenUrls := seenUrls + {url};
        unique := unique + [article];
      }
    }
    assert articles[..|articles|] == articles;
  }

  /** The articles carry non-empty, pairwise distinct URLs. */
  ghost predicate DistinctUrls(articles: seq<Article>) {
    (forall i :: 0 <= i < |articles| ==> articles[i].url != "") &&
    (forall i, j :: 0 <= i < j < |articles| ==> articles[i].url != articles[j].url)
  }

  /** `FirstUrl` in terms of the URLs seen so far. */
  lemma FirstUrlSeen(before: seq<Article>, a: Article)
    ensures FirstUrl()(before, a) <==> a.url != "" && a.url !in UrlsOf(before)
  {
    if a.url != "" {
      UrlsOfSeen(before, a.url);
    }
  }

  /** Deduplicating keeps one article for every URL, and no other URL:
      every non-empty URL of the input is still present. */
  lemma {:induction false} DeduplicatedUrlsOf(articles: seq<Article>)
    ensures UrlsOf(Deduplicated(articles)) == UrlsOf(articles)
  {
    if articles != [] {
      var init, last := articles[..|articles| - 1], articles[|articles| - 1];
      DeduplicatedUrlsOf(init);
      FirstUrlSeen(init, last);
      assert articles == init + [last];
      var u := Deduplicated(init);
      if FirstUrl()(init, last) {
        assert UrlsOf(u + [last]) == UrlsOf(u) + {last.url};
      }
      assert UrlsOf(init + [last]) == UrlsOf(init) + (if last.url != "" then {last.url} else {});
    }
  }

  /** Every kept article has a non-empty URL, and no two kept articles share one. */
  lemma {:induction false} DeduplicatedDistinctUrls(articles: seq<Article>)
    ensures DistinctUrls(Deduplicated(articles))
  {
    if articles != [] {
      var init, last := articles[..|articles| - 1], articles[|articles| - 1];
      DeduplicatedDistinctUrls(init);
      var u := Deduplicated(init);
      if FirstUrl()(init, last) {
        FirstUrlSeen(init, last);
        DeduplicatedUrlsOf(init);
        assert forall i :: 0 <= i < |u| ==> u[i] in u;
        assert forall i :: 0 <= i < |u| ==> u[i].url != last.url;
      }
    }
  }

  /** There are as many kept articles as distinct non-empty URLs. */
  lemma {:induction false} DeduplicatedCount(articles: seq<Article>)
    ensures |Deduplicated(articles)| == |UrlsOf(articles)|
  {
    if articles != [] {
      var n := |articles| - 1;
      var init, last := articles[..n], articles[n];
      DeduplicatedCount(init);
      FirstUrlSeen(init, last);
      UrlsOfStep(articles, n);
      assert articles[..n + 1] == articles;
      if FirstUrl()(init, last) {
        assert Deduplicated(articles) == Deduplicated(init) + [last];
        assert UrlsOf(articles) == UrlsOf(init) + {last.url};
      } else {
        assert Deduplicated(articles) == Deduplicated(init);
        assert UrlsOf(articles) == UrlsOf(init);
      }
    }
  }

  /** A list whose URLs are already non-empty and distinct is kept whole. */
  lemma {:induction false} DeduplicatedDistinct(articles: seq<Article>)
    requires DistinctUrls(articles)
    ensures Deduplicated(articles) == articles
  {
    if articles != [] {
      var init, last := articles[..|articles| - 1], articles[|articles| - 1];
      assert DistinctUrls(init);
      DeduplicatedDistinct(init);
      forall b | b in init ensures b.url != last.url {
        var i :| 0 <= i < |init| && init[i] == b;
        assert articles[i] == b;
      }
    }
  }

  /** Deduplicating twice is deduplicating once. */
  lemma DeduplicatedIdempotent(articles: seq<Article>)
    ensures Deduplicated(Deduplicated(articles)) == Deduplicated(articles)
  {
    DeduplicatedDistinctUrls(articles);
    DeduplicatedDistinct(Deduplicated(articles));
  }

  /** The output is the subsequence of the input, in order and with records
      unchanged, made of the positions `k` whose URL is non-empty and carried
      by no article before `k`. */
  lemma DeduplicatedFirstOccurrences(articles: seq<Article>)
    ensures Increasing(SelectedIdx(articles, FirstUrl()))
    ensures Picks(Deduplicated(articles), articles, SelectedIdx(articles, FirstUrl()))
    ensures forall k :: k in SelectedIdx(articles, FirstUrl()) <==>
      0 <= k < |articles| && articles[k].url != "" &&
      forall j :: 0 <= j < k ==> articles[j].url != articles[k].url
  {
    SelectByExact(articles, FirstUrl());
    forall k | 0 <= k < |articles|
      ensures FirstUrl()(articles[..k], articles[k]) <==>
        articles[k].url != "" && forall j :: 0 <= j < k ==> articles[j].url != articles[k].url
    {
      FirstUrlAt(articles, k);
    }
  }

  /** The article at position `k` is kept exactly when no earlier position
      carries its URL. */
  lemma FirstUrlAt(articles: seq<Article>, k: nat)
    requires k < |articles|
    ensures FirstUrl()(articles[..k], articles[k]) <==>
      articles[k].url != "" && forall j :: 0 <= j < k ==> articles[j].url != articles[k].url
  {
    assert forall j :: 0 <= j < k ==> articles[..k][j] == articles[j];
  }

  /** One more article at the end is kept exactly when its URL is non-empty
      and new. */
  lemma DeduplicatedSnoc(articles: seq<Article>, a: Article)
    ensures Deduplicated(articles + [a]) ==
      Deduplicated(articles) + (if a.url != "" && a.url !in UrlsOf(articles) then [a] else [])
  {
    var xs := articles + [a];
    assert xs[..|xs| - 1] == articles;
    FirstUrlSeen(articles, a);
  }

  /** Five articles where the second and the fourth share a URL and the others
      are distinct: four remain, the second kept and the fourth dropped. */
  lemma DeduplicatedExample(a1: Article, a2: Article, a3: Article, a4: Article, a5: Article)
    requires a1.url != "" && a2.url != "" && a3.url != "" && a5.url != ""
    requires a1.url != a2.url && a1.url != a3.url && a1.url != a5.url
    requires a2.url != a3.url && a2.url != a5.url && a3.url != a5.url
    requires a4.url == a2.url
    ensures Deduplicated([a1, a2, a3, a4, a5]) == [a1, a2, a3, a5]
  {
    var four := [a1, a2, a3, a4];
    ExampleRepeat(a1, a2, a3, a4);
    DeduplicatedSnoc(four, a5);
    assert a5.url !in UrlsOf(four) by {
      UrlsOfSeen(four, a5.url);
    }
    assert four + [a5] == [a1, a2, a3, a4, a5];
  }

  /** The fourth article repeats the second one's URL and is dropped. */
  lemma ExampleRepeat(a1: Article, a2: Article, a3: Article, a4: Article)
    requires a1.url != "" && a2.url != "" && a3.url != ""
    requires a1.url != a2.url && a1.url != a3.url && a2.url != a3.url
    requires a4.url == a2.url
    ensures Deduplicated([a1, a2, a3, a4]) == [a1, a2, a3]
  {
    var first := [a1, a2, a3];
    DeduplicatedDistinct(first);
    DeduplicatedSnoc(first, a4);
    assert a4.url in UrlsOf(first) by {
      assert a2 in first;
    }
    assert first + [a4] == [a1, a2, a3, a4];
  }
}
