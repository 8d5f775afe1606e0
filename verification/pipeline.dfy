/** The fetch stage's entry point: the three adapters in turn, their records
    concatenated, then the recency filter, then URL deduplication, wrapped in
    the batch that is written out. The credential, the clocks, the network and
    the date parser are parameters. */
module Pipeline {
  import opened Wrappers
  import opened Sequences
  import opened Articles
  import opened Adapters
  import opened Recency
  import opened Dedup

  /** What is written to the output file. */
  datatype ArticleBatch = ArticleBatch(fetchedAt: string, totalCount: nat, articles: seq<Article>)

  /** How a run ends: without an NYT API key nothing is fetched or written. */
  datatype RunOutcome = MissingApiKey | Written(batch: ArticleBatch)

  /** Everything the three adapters return, NYT first, then Bloomberg, then Guardian. */
  function AllArticles(fetch: string -> SectionFetch, feed: string -> FeedFetch): seq<Article> {
    NytArticles(fetch) + BloombergArticles(feed) + GuardianArticles(feed)
  }

  /** The articles of the batch: the fetched ones filtered to the window, then deduplicated. */
  function BatchArticles(fetch: string -> SectionFetch, feed: string -> FeedFetch, now: int, hours: int,
                         parse: string -> Option<Stamp>): seq<Article> {
    Deduplicated(Recent(AllArticles(fetch, feed), now, hours, parse))
  }

  /** The three adapters in turn, each one's records appended to the list. */
  method FetchAll(fetch: string -> SectionFetch, feed: string -> FeedFetch) returns (allArticles: seq<Article>)
    ensures allArticles == AllArticles(fetch, feed)
  {
    allArticles := [];
    var nyt := FetchNyt(fetch);
    allArticles := allArticles + nyt;
    assert allArticles == nyt;
    var bloomberg := FetchBloomberg(feed);
    allArticles := allArticles + bloomberg;
    var guardian := FetchGuardian(feed);
    allArticles := allArticles + guardian;
  }

  /** `main`: `apiKey` is the `NYT_API_KEY` variable, `hours` the `--hours`
      option, `now` the clock when the window is computed and `fetchedAt` the
      ISO-8601 rendering of the clock when the batch is built. */
  method RunPipeline(apiKey: Option<string>, hours: int, now: int, fetchedAt: string,
                     fetch: string -> SectionFetch, feed: string -> FeedFetch,
                     parse: string -> Option<Stamp>)
    returns (outcome: RunOutcome)
    ensures apiKey.None? || apiKey.value == "" ==> outcome == MissingApiKey
    ensures apiKey.Some? && apiKey.value != "" ==>
      outcome == Written(ArticleBatch(fetchedAt, |BatchArticles(fetch, feed, now, hours, parse)|,
                                      BatchArticles(fetch, feed, now, hours, parse)))
  {
    if apiKey.None? || apiKey.value == "" {
      return MissingApiKey;
    }
    var allArticles := FetchAll(fetch, feed);
    var filtered := FilterRecent(allArticles, now, hours, parse);
    var unique := Deduplicate(filtered);
    outcome := Written(ArticleBatch(fetchedAt, |unique|, unique));
  }

  /** Every article of the batch was fetched and lies in the window, carries a
      non-empty URL that no other article of the batch carries, and every
      non-empty URL among the fetched articles in the window is present. */
  lemma BatchArticlesProperties(fetch: string -> SectionFetch, feed: string -> FeedFetch, now: int, hours: int,
                                parse: string -> Option<Stamp>)
    ensures forall a :: a in BatchArticles(fetch, feed, now, hours, parse) ==>
      a in AllArticles(fetch, feed) && IsRecent(a, Cutoff(now, hours), parse)
    ensures DistinctUrls(BatchArticles(fetch, feed, now, hours, parse))
    ensures UrlsOf(BatchArticles(fetch, feed, now, hours, parse)) ==
      UrlsOf(Recent(AllArticles(fetch, feed), now, hours, parse))
  {
    var recent := Recent(AllArticles(fetch, feed), now, hours, parse);
    RecentMembers(AllArticles(fetch, feed), now, hours, parse);
    SelectBySubset(recent, FirstUrl());
    DeduplicatedDistinctUrls(recent);
    DeduplicatedUrlsOf(recent);
  }

  /** When every source fails, the batch is empty and its count is 0. */
  lemma AllSourcesFail(fetch: string -> SectionFetch, feed: string -> FeedFetch, now: int, hours: int,
                       parse: string -> Option<Stamp>)
    requires forall s :: s in NytSections ==> fetch(s) == FetchFailed
    requires forall u :: u in BloombergFeeds || u in GuardianFeeds ==> feed(u) == FeedFailed
    ensures AllArticles(fetch, feed) == []
    ensures BatchArticles(fetch, feed, now, hours, parse) == []
  {
    CollectNothing(NytSections, NytUnits(fetch));
    CollectNothing(BloombergFeeds, BloombergUnits(feed));
    CollectNothing(GuardianFeeds, GuardianUnits(feed));
  }
}
