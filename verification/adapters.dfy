/** The three source adapters of the fetch stage: each walks a fixed list of
    upstream units (NYT sections, Bloomberg feeds, Guardian feeds), maps every
    item of a unit to one `Article`, and treats a unit whose fetch fails as
    contributing nothing. The network is a parameter: `fetch(section)` is what
    the NYT request for `section` gave, `feed(url)` what parsing `url` gave. */
module Adapters {
  import opened Wrappers
  import opened Text
  import opened Sequences
  import opened Articles

  const NytSource := "NYT"
  const BloombergSource := "Bloomberg"
  const GuardianSource := "Guardian"

  /** The NYT Top Stories sections, in request order. */
  const NytSections: seq<string> := ["technology", "business", "world"]

  const BloombergFeeds: seq<string> := [
    "https://feeds.bloomberg.com/markets/news.rss",
    "https://feeds.bloomberg.com/technology/news.rss",
    "https://feeds.bloomberg.com/politics/news.rss"]

  const GuardianFeeds: seq<string> := [
    "https://www.theguardian.com/world/rss",
    "https://www.theguardian.com/business/rss",
    "https://www.theguardian.com/technology/rss"]

  /** The longest Guardian abstract that is stored. */
  const MaxAbstract: nat := 500

  /** The outcome of one NYT section request: the request or the JSON decoding
      failed, or the body was decoded; `results` is `None` when the body has
      no `results` key. */
  datatype SectionFetch = FetchFailed | Fetched(results: Option<seq<Fields>>)

  /** One feed entry: its string fields, and the ISO-8601 text of its
      structured date when the feed supplied one. */
  datatype FeedEntry = FeedEntry(fields: Fields, parsedIso: Option<string>)

  /** The outcome of parsing one feed. */
  datatype FeedFetch = FeedFailed | FeedParsed(entries: seq<FeedEntry>)

  // ---------------------------------------------------------------- sections

  /** The Bloomberg section of a feed URL: the first of "markets",
      "technology", "politics" that the URL contains, else "general". */
  function BloombergSection(url: string): (r: string)
    ensures r in {"markets", "technology", "politics", "general"}
    ensures r == "markets" <==> Contains(url, "markets")
    ensures r == "technology" <==> !Contains(url, "markets") && Contains(url, "technology")
    ensures r == "politics" <==>
      !Contains(url, "markets") && !Contains(url, "technology") && Contains(url, "politics")
    ensures r == "general" <==>
      !Contains(url, "markets") && !Contains(url, "technology") && !Contains(url, "politics")
  {
    if Contains(url, "markets") then "markets"
    else if Contains(url, "technology") then "technology"
    else if Contains(url, "politics") then "politics"
    else "general"
  }

  /** The Guardian section of a feed URL: the first of "world", "business",
      "technology" that the URL contains, else "general". */
  function GuardianSection(url: string): (r: string)
    ensures r in {"world", "business", "technology", "general"}
    ensures r == "world" <==> Contains(url, "world")
    ensures r == "business" <==> !Contains(url, "world") && Contains(url, "business")
    ensures r == "technology" <==>
      !Contains(url, "world") && !Contains(url, "business") && Contains(url, "technology")
    ensures r == "general" <==>
      !Contains(url, "world") && !Contains(url, "business") && !Contains(url, "technology")
  {
    if Contains(url, "world") then "world"
    else if Contains(url, "business") then "business"
    else if Contains(url, "technology") then "technology"
    else "general"
  }

  // ------------------------------------------------------------ one record

  /** The record for one NYT result item; absent keys read as "". */
  function NytRecord(section: string, item: Fields): (a: Article)
    ensures a.source == NytSource && a.section == section
    ensures a.title == (if "title" in item then item["title"] else "")
    ensures a.abstractText == (if "abstract" in item then item["abstract"] else "")
    ensures a.url == (if "url" in item then item["url"] else "")
    ensures a.publishedDate == (if "published_date" in item then item["published_date"] else "")
  {
    Article(NytSource, section, Get(item, "title", ""), Get(item, "abstract", ""),
            Get(item, "url", ""), Get(item, "published_date", ""))
  }

  /** An entry's date: the structured date when present, else its raw
      `published` text, else "". An entry is never dropped for lack of a date. */
  function PublishedText(e: FeedEntry): (r: string)
    ensures e.parsedIso.Some? ==> r == e.parsedIso.value
    ensures e.parsedIso.None? && "published" in e.fields ==> r == e.fields["published"]
    ensures e.parsedIso.None? && "published" !in e.fields ==> r == ""
  {
    match e.parsedIso
    case Some(iso) => iso
    case None => Get(e.fields, "published", "")
  }

  /** The record for one Bloomberg entry; the summary is kept as it is. */
  function BloombergRecord(section: string, e: FeedEntry): (a: Article)
    ensures a.source == BloombergSource && a.section == section
    ensures a.title == Get(e.fields, "title", "")
    ensures a.abstractText == Get(e.fields, "summary", "")
    ensures a.url == Get(e.fields, "link", "")
    ensures a.publishedDate == PublishedText(e)
  {
    Article(BloombergSource, section, Get(e.fields, "title", ""), Get(e.fields, "summary", ""),
            Get(e.fields, "link", ""), PublishedText(e))
  }

  /** A Guardian summary with its tags removed, cut to `MaxAbstract` characters. */
  function GuardianAbstract(summary: string): (r: string)
    ensures |r| <= MaxAbstract && |r| <= |summary|
    ensures r <= StripTags(summary)
    ensures |StripTags(summary)| <= MaxAbstract ==> r == StripTags(summary)
    ensures |StripTags(summary)| > MaxAbstract ==> r == StripTags(summary)[..MaxAbstract]
  {
    Truncate(StripTags(summary), MaxAbstract)
  }

  /** A stored Guardian abstract holds no tag. */
  lemma GuardianAbstractNoTag(summary: string)
    ensures NoTag(GuardianAbstract(summary))
  {
    var stripped := StripTags(summary);
    var r := GuardianAbstract(summary);
    StripTagsNoTag(summary);
    forall i, j | 0 <= i < j <= |r| ensures !IsTag(r[i..j]) {
      assert r[i..j] == stripped[i..j];
    }
  }

  /** The HTML summary `<p>Hello <b>world</b></p>` is stored as `Hello world`. */
  lemma GuardianAbstractExample(p: string, b: string, pc: string, bc: string, hello: string, world: string)
    requires p == "<p>" && b == "<b>" && pc == "</p>" && bc == "</b>"
    requires hello == "Hello " && world == "world"
    ensures GuardianAbstract(p + hello + b + world + bc + pc) == "Hello world"
  {
    var summary := p + hello + b + world + bc + pc;
    ExampleTags(p, b, pc, bc);
    assert summary == p + (hello + (b + (world + (bc + pc))));
    ExampleStrip(summary, p, b, pc, bc, hello, world);
    assert hello + world == "Hello world";
  }

  /** The four tags of the example each match `<[^>]+>`. */
  lemma ExampleTags(p: string, b: string, pc: string, bc: string)
    requires p == "<p>" && b == "<b>" && pc == "</p>" && bc == "</b>"
    ensures IsTag(p) && IsTag(b) && IsTag(pc) && IsTag(bc)
  {
  }

  /** Stripping removes the tags around and between two runs of plain text. */
  lemma ExampleStrip(summary: string, p: string, b: string, pc: string, bc: string, hello: string, world: string)
    requires IsTag(p) && IsTag(b) && IsTag(pc) && IsTag(bc)
    requires '<' !in hello && '<' !in world
    requires summary == p + (hello + (b + (world + (bc + pc))))
    ensures StripTags(summary) == hello + world
  {
    var tail := world + (bc + pc);
    var rest := hello + (b + tail);
    calc {
      StripTags(summary);
      { StripTagsAfterTag(p, rest); }
      StripTags(rest);
      { StripTagsPrefix(hello, b + tail); }
      hello + StripTags(b + tail);
      { StripTagsAfterTag(b, tail); }
      hello + StripTags(tail);
      { StripTagsPrefix(world, bc + pc); }
      hello + (world + StripTags(bc + pc));
      { StripTagsAfterTag(bc, pc); assert pc == pc + []; StripTagsAfterTag(pc, []); }
      hello + world;
    }
  }

  /** The record for one Guardian entry: the summary is stripped and cut. */
  function GuardianRecord(section: string, e: FeedEntry): (a: Article)
    ensures a.source == GuardianSource && a.section == section
    ensures a.title == Get(e.fields, "title", "")
    ensures a.abstractText == GuardianAbstract(Get(e.fields, "summary", ""))
    ensures a.url == Get(e.fields, "link", "")
    ensures a.publishedDate == PublishedText(e)
  {
    Article(GuardianSource, section, Get(e.fields, "title", ""),
            GuardianAbstract(Get(e.fields, "summary", "")),
            Get(e.fields, "link", ""), PublishedText(e))
  }

  // ------------------------------------------------------------- one unit

  function NytRecordOf(section: string): Fields -> Article {
    item => NytRecord(section, item)
  }

  function BloombergRecordOf(section: string): FeedEntry -> Article {
    e => BloombergRecord(section, e)
  }

  function GuardianRecordOf(section: string): FeedEntry -> Article {
    e => GuardianRecord(section, e)
  }

  /** The records of one NYT section: none when the request failed, one per
      result item otherwise (no `results` key reads as no items). */
  function NytUnit(section: string, f: SectionFetch): seq<Article> {
    match f
    case FetchFailed => []
    case Fetched(results) => MapSeq(results.GetOr([]), NytRecordOf(section))
  }

  function BloombergUnit(url: string, f: FeedFetch): seq<Article> {
    match f
    case FeedFailed => []
    case FeedParsed(entries) => MapSeq(entries, BloombergRecordOf(BloombergSection(url)))
  }

  function GuardianUnit(url: string, f: FeedFetch): seq<Article> {
    match f
    case FeedFailed => []
    case FeedParsed(entries) => MapSeq(entries, GuardianRecordOf(GuardianSection(url)))
  }

  function NytUnits(fetch: string -> SectionFetch): string -> seq<Article> {
    section => NytUnit(section, fetch(section))
  }

  function BloombergUnits(feed: string -> FeedFetch): string -> seq<Article> {
    url => BloombergUnit(url, feed(url))
  }

  function GuardianUnits(feed: string -> FeedFetch): string -> seq<Article> {
    url => GuardianUnit(url, feed(url))
  }

  // ------------------------------------------------------------- adapters

  /** What `fetch_nyt_articles` returns. */
  function NytArticles(fetch: string -> SectionFetch): seq<Article> {
    Collect(NytSections, NytUnits(fetch))
  }

  /** What `fetch_bloomberg_articles` returns. */
  function BloombergArticles(feed: string -> FeedFetch): seq<Article> {
    Collect(BloombergFeeds, BloombergUnits(feed))
  }

  /** What `fetch_guardian_articles` returns. */
  function GuardianArticles(feed: string -> FeedFetch): seq<Article> {
    Collect(GuardianFeeds, GuardianUnits(feed))
  }

  /** One NYT section: the loop over its result items. */
  method FetchNytSection(section: string, f: SectionFetch) returns (records: seq<Article>)
    ensures records == NytUnit(section, f)
  {
    records := [];
    match f {
      case FetchFailed =>
        // the request or the JSON decoding raised: logged, nothing added
      case Fetched(results) =>
        var items := results.GetOr([]);
        for k := 0 to |items|
          invariant records == MapSeq(items[..k], NytRecordOf(section))
        {
          records := records + [NytRecord(section, items[k])];
          MapSeqStep(items, k, NytRecordOf(section));
        }
        assert items[..|items|] == items;
    }
  }

  method FetchNyt(fetch: string -> SectionFetch) returns (articles: seq<Article>)
    ensures articles == NytArticles(fetch)
  {
    articles := [];
    for i := 0 to |NytSections|
      invariant articles == Collect(NytSections[..i], NytUnits(fetch))
    {
      var section := NytSections[i];
      var records := FetchNytSection(section, fetch(section));
      articles := articles + records;
      CollectStep(NytSections, i, NytUnits(fetch));
    }
    assert NytSections[..|NytSections|] == NytSections;
  }

  /** One Bloomberg feed: the loop over its entries. */
  method FetchBloombergFeed(url: string, f: FeedFetch) returns (records: seq<Article>)
    ensures records == BloombergUnit(url, f)
  {
    records := [];
    match f {
      case FeedFailed =>
        // parsing raised: logged, nothing added
      case FeedParsed(entries) =>
        var section := BloombergSection(url);
        for k := 0 to |entries|
          invariant records == MapSeq(entries[..k], BloombergRecordOf(section))
        {
          records := records + [BloombergRecord(section, entries[k])];
          MapSeqStep(entries, k, BloombergRecordOf(section));
        }
        assert entries[..|entries|] == entries;
    }
  }

  method FetchBloomberg(feed: string -> FeedFetch) returns (articles: seq<Article>)
    ensures articles == BloombergArticles(feed)
  {
    articles := [];
    for i := 0 to |BloombergFeeds|
      invariant articles == Collect(BloombergFeeds[..i], BloombergUnits(feed))
    {
      var url := BloombergFeeds[i];
      var records := FetchBloombergFeed(url, feed(url));
      articles := articles + records;
      CollectStep(BloombergFeeds, i, BloombergUnits(feed));
    }
    assert BloombergFeeds[..|BloombergFeeds|] == BloombergFeeds;
  }

  /** One Guardian feed: the loop over its entries. */
  method FetchGuardianFeed(url: string, f: FeedFetch) returns (records: seq<Article>)
    ensures records == GuardianUnit(url, f)
  {
    records := [];
    match f {
      case FeedFailed =>
        // parsing raised: logged, nothing added
      case FeedParsed(entries) =>
        var section := GuardianSection(url);
        for k := 0 to |entries|
          invariant records == MapSeq(entries[..k], GuardianRecordOf(section))
        {
          records := records + [GuardianRecord(section, entries[k])];
          MapSeqStep(entries, k, GuardianRecordOf(section));
        }
        assert entries[..|entries|] == entries;
    }
  }

  method FetchGuardian(feed: string -> FeedFetch) returns (articles: seq<Article>)
    ensures articles == GuardianArticles(feed)
  {
    articles := [];
    for i := 0 to |GuardianFeeds|
      invariant articles == Collect(GuardianFeeds[..i], GuardianUnits(feed))
    {
      var url := GuardianFeeds[i];
      var records := FetchGuardianFeed(url, feed(url));
      articles := articles + records;
      CollectStep(GuardianFeeds, i, GuardianUnits(feed));
    }
    assert GuardianFeeds[..|GuardianFeeds|] == GuardianFeeds;
  }

  // --------------------------------------------------------------- facts

  /** The number of records one NYT request yields. */
  function NytItemCount(f: SectionFetch): nat {
    match f
    case FetchFailed => 0
    case Fetched(results) => |results.GetOr([])|
  }

  /** The number of records one parsed feed yields. */
  function EntryCount(f: FeedFetch): nat {
    match f
    case FeedFailed => 0
    case FeedParsed(entries) => |entries|
  }

  /** One record per result item of every section that was fetched. */
  lemma NytArticlesCount(fetch: string -> SectionFetch)
    ensures |NytArticles(fetch)| == SumOver(NytSections, s => NytItemCount(fetch(s)))
  {
    CollectLength(NytSections, NytUnits(fetch), s => NytItemCount(fetch(s)));
  }

  /** One record per entry of every feed that was parsed. */
  lemma BloombergArticlesCount(feed: string -> FeedFetch)
    ensures |BloombergArticles(feed)| == SumOver(BloombergFeeds, u => EntryCount(feed(u)))
  {
    CollectLength(BloombergFeeds, BloombergUnits(feed), u => EntryCount(feed(u)));
  }

  lemma GuardianArticlesCount(feed: string -> FeedFetch)
    ensures |GuardianArticles(feed)| == SumOver(GuardianFeeds, u => EntryCount(feed(u)))
  {
    CollectLength(GuardianFeeds, GuardianUnits(feed), u => EntryCount(feed(u)));
  }

  /** Every NYT record is labelled "NYT" and with one of the requested sections,
      and comes from a result item of that section's response. */
  lemma NytArticleOrigin(fetch: string -> SectionFetch, a: Article)
    requires a in NytArticles(fetch)
    ensures a.source == NytSource && a.section in NytSections
    ensures fetch(a.section).Fetched? && a in MapSeq(fetch(a.section).results.GetOr([]), NytRecordOf(a.section))
  {
    CollectMember(NytSections, NytUnits(fetch), a);
    var k :| 0 <= k < |NytSections| && a in NytUnits(fetch)(NytSections[k]);
    var items := fetch(NytSections[k]).results.GetOr([]);
    var j :| 0 <= j < |items| && a == MapSeq(items, NytRecordOf(NytSections[k]))[j];
  }

  /** Every Bloomberg record is labelled "Bloomberg" and with the section of the
      feed it was read from, and that feed was parsed. */
  lemma BloombergArticleOrigin(feed: string -> FeedFetch, a: Article)
    requires a in BloombergArticles(feed)
    ensures a.source == BloombergSource
    ensures exists k :: (0 <= k < |BloombergFeeds| && feed(BloombergFeeds[k]).FeedParsed? &&
                         a.section == BloombergSection(BloombergFeeds[k]))
  {
    CollectMember(BloombergFeeds, BloombergUnits(feed), a);
    var k :| 0 <= k < |BloombergFeeds| && a in BloombergUnits(feed)(BloombergFeeds[k]);
    var url := BloombergFeeds[k];
    var entries := feed(url).entries;
    var j :| 0 <= j < |entries| && a == MapSeq(entries, BloombergRecordOf(BloombergSection(url)))[j];
  }

  /** Every Guardian record is labelled "Guardian" and with the section of the
      feed it was read from, and its abstract holds no tag and at most
      `MaxAbstract` characters. */
  lemma GuardianArticleOrigin(feed: string -> FeedFetch, a: Article)
    requires a in GuardianArticles(feed)
    ensures a.source == GuardianSource
    ensures exists k :: (0 <= k < |GuardianFeeds| && feed(GuardianFeeds[k]).FeedParsed? &&
                         a.section == GuardianSection(GuardianFeeds[k]))
    ensures NoTag(a.abstractText) && |a.abstractText| <= MaxAbstract
  {
    CollectMember(GuardianFeeds, GuardianUnits(feed), a);
    var k :| 0 <= k < |GuardianFeeds| && a in GuardianUnits(feed)(GuardianFeeds[k]);
    var url := GuardianFeeds[k];
    var entries := feed(url).entries;
    var j :| 0 <= j < |entries| && a == MapSeq(entries, GuardianRecordOf(GuardianSection(url)))[j];
    var summary := Get(entries[j].fields, "summary", "");
    assert a == GuardianRecord(GuardianSection(url), entries[j]);
    assert a.abstractText == GuardianAbstract(summary);
    GuardianAbstractNoTag(summary);
  }

  /** A section whose request fails is skipped and nothing else changes: the
      result is what a run in which every other section answered the same
      returns for the sections before it, then for those after it. */
  lemma NytFailureIsolated(fetch: string -> SectionFetch, other: string -> SectionFetch, i: nat)
    requires i < |NytSections| && fetch(NytSections[i]) == FetchFailed
    requires forall k :: 0 <= k < |NytSections| && k != i ==> fetch(NytSections[k]) == other(NytSections[k])
    ensures NytArticles(fetch) ==
      Collect(NytSections[..i], NytUnits(other)) + Collect(NytSections[i + 1..], NytUnits(other))
  {
    FailingUnitIsolated(NytSections, i, NytUnits(other), NytUnits(fetch));
  }

  /** A Bloomberg feed that fails to parse is skipped and nothing else changes. */
  lemma BloombergFailureIsolated(feed: string -> FeedFetch, other: string -> FeedFetch, i: nat)
    requires i < |BloombergFeeds| && feed(BloombergFeeds[i]) == FeedFailed
    requires forall k :: 0 <= k < |BloombergFeeds| && k != i ==> feed(BloombergFeeds[k]) == other(BloombergFeeds[k])
    ensures BloombergArticles(feed) ==
      Collect(BloombergFeeds[..i], BloombergUnits(other)) + Collect(BloombergFeeds[i + 1..], BloombergUnits(other))
  {
    FailingUnitIsolated(BloombergFeeds, i, BloombergUnits(other), BloombergUnits(feed));
  }

  /** A Guardian feed that fails to parse is skipped and nothing else changes. */
  lemma GuardianFailureIsolated(feed: string -> FeedFetch, other: string -> FeedFetch, i: nat)
    requires i < |GuardianFeeds| && feed(GuardianFeeds[i]) == FeedFailed
    requires forall k :: 0 <= k < |GuardianFeeds| && k != i ==> feed(GuardianFeeds[k]) == other(GuardianFeeds[k])
    ensures GuardianArticles(feed) ==
      Collect(GuardianFeeds[..i], GuardianUnits(other)) + Collect(GuardianFeeds[i + 1..], GuardianUnits(other))
  {
    FailingUnitIsolated(GuardianFeeds, i, GuardianUnits(other), GuardianUnits(feed));
  }
}
