/** The selection stage: the article list rendered as the prompt's Markdown
    list, the reply's text blocks joined into the result, and the decision to
    skip the selection service when there is no article. The service, the
    clock and the files are parameters. */
module Prompt {
  import opened Wrappers
  import opened Text
  import opened Sequences
  import opened Articles
  import opened Pipeline

  const UntitledDefault := "タイトルなし"
  const UnknownDefault := "不明"
  const NoAbstractDefault := "概要なし"

  /** What is written instead of a selection when there is no article. */
  const NoArticlesNotice := ":warning: 本日は選定対象の記事がありませんでした。"

  /** `## 記事リスト（` and `件）\n`, around the count in the header line. */
  const HeaderOpen := "## 記事リスト（"
  const HeaderClose := "件）\n"

  /** The first line: it states the number of articles in decimal between
      `HeaderOpen` and `HeaderClose`. */
  function Header(count: nat): (h: string)
    ensures |h| > |HeaderOpen| + |HeaderClose|
    ensures h[..|HeaderOpen|] == HeaderOpen && h[|h| - |HeaderClose|..] == HeaderClose
    ensures var digits := h[|HeaderOpen|..|h| - |HeaderClose|];
      (forall i :: 0 <= i < |digits| ==> IsDigit(digits[i])) && DigitsValue(digits) == count
  {
    var digits := NatToString(count);
    var h := HeaderOpen + digits + HeaderClose;
    assert h[..|HeaderOpen|] == HeaderOpen;
    assert h[|h| - |HeaderClose|..] == HeaderClose;
    assert h[|HeaderOpen|..|h| - |HeaderClose|] == digits;
    NatToStringRoundTrip(count);
    h
  }

  /** The seven lines of the article numbered `number`; an absent key takes its
      default, a present one is used as it is, even when empty. */
  function ArticleLines(number: nat, article: Fields): (lines: seq<string>)
    ensures |lines| == 7 && lines[6] == ""
  {
    ["### " + NatToString(number) + ". " + Get(article, "title", UntitledDefault),
     "- **メディア**: " + Get(article, "source", UnknownDefault),
     "- **セクション**: " + Get(article, "section", UnknownDefault),
     "- **公開日時**: " + Get(article, "published_date", UnknownDefault),
     "- **URL**: " + Get(article, "url", ""),
     "- **概要**: " + Get(article, "abstract", NoAbstractDefault),
     ""]
  }

  /** The lines of all articles, numbered from 1 in list order. */
  function BlockLines(articles: seq<Fields>): seq<string> {
    if articles == [] then []
    else BlockLines(articles[..|articles| - 1]) + ArticleLines(|articles|, articles[|articles| - 1])
  }

  /** The list of lines `format_articles_for_prompt` joins. */
  function PromptLines(articles: seq<Fields>): seq<string> {
    [Header(|articles|)] + BlockLines(articles)
  }

  /** What `format_articles_for_prompt` returns; `articles` is the value of the
      data's `articles` key, `None` when the key is absent. */
  function PromptText(articles: Option<seq<Fields>>): string {
    Join(PromptLines(articles.GetOr([])), "\n")
  }

  method FormatArticlesForPrompt(data: Option<seq<Fields>>) returns (text: string)
    ensures text == PromptText(data)
  {
    var articles := data.GetOr([]);
    var lines := [Header(|articles|)];
    for i := 0 to |articles|
      invariant lines == [Header(|articles|)] + BlockLines(articles[..i])
    {
      var article := articles[i];
      var number := i + 1;
      var before := lines;
      var title := "### " + NatToString(number) + ". " + Get(article, "title", UntitledDefault);
      var source := "- **メディア**: " + Get(article, "source", UnknownDefault);
      var section := "- **セクション**: " + Get(article, "section", UnknownDefault);
      var published := "- **公開日時**: " + Get(article, "published_date", UnknownDefault);
      var url := "- **URL**: " + Get(article, "url", "");
      var summary := "- **概要**: " + Get(article, "abstract", NoAbstractDefault);
      lines := lines + [title];
      lines := lines + [source];
      lines := lines + [section];
      lines := lines + [published];
      lines := lines + [url];
      lines := lines + [summary];
      lines := lines + [""];
      AppendSeven(before, title, source, section, published, url, summary, "");
      ArticleLinesAre(number, article);
      BlockLinesStep(articles, i);
    }
    assert articles[..|articles|] == articles;
    text := Join(lines, "\n");
  }

  /** Seven appends of one line each add the seven lines in order. */
  lemma AppendSeven(xs: seq<string>, a: string, b: string, c: string, d: string, e: string, f: string, g: string)
    ensures xs + [a] + [b] + [c] + [d] + [e] + [f] + [g] == xs + [a, b, c, d, e, f, g]
  {
  }

  /** The seven lines of an article, one by one. */
  lemma ArticleLinesAre(number: nat, article: Fields)
    ensures ArticleLines(number, article) ==
      [ "### " + NatToString(number) + ". " + Get(article, "title", UntitledDefault),
        "- **メディア**: " + Get(article, "source", UnknownDefault),
        "- **セクション**: " + Get(article, "section", UnknownDefault),
        "- **公開日時**: " + Get(article, "published_date", UnknownDefault),
        "- **URL**: " + Get(article, "url", ""),
        "- **概要**: " + Get(article, "abstract", NoAbstractDefault),
        "" ]
  {
  }

  /** One more article: what the loop adds at step `i`. */
  lemma BlockLinesStep(articles: seq<Fields>, i: nat)
    requires i < |articles|
    ensures BlockLines(articles[..i + 1]) == BlockLines(articles[..i]) + ArticleLines(i + 1, articles[i])
  {
    assert articles[..i + 1][..i] == articles[..i];
  }

  /** Seven lines per article. */
  lemma {:induction false} BlockLinesCount(articles: seq<Fields>)
    ensures |BlockLines(articles)| == 7 * |articles|
  {
    if articles != [] {
      BlockLinesCount(articles[..|articles| - 1]);
    }
  }

  /** Line `j` of the block of article `i` (from 0) is line `j` of
      `ArticleLines(i + 1, articles[i])`: the articles are numbered
      consecutively from 1 in list order. */
  lemma {:induction false} BlockLinesAt(articles: seq<Fields>, i: nat, j: nat)
    requires i < |articles| && j < 7
    ensures 7 * i + j < |BlockLines(articles)|
    ensures BlockLines(articles)[7 * i + j] == ArticleLines(i + 1, articles[i])[j]
  {
    var init := articles[..|articles| - 1];
    BlockLinesCount(init);
    if i < |init| {
      BlockLinesAt(init, i, j);
    }
  }

  /** The line list is the header followed by seven lines per article: 1 + 7N lines. */
  lemma PromptLinesShape(articles: seq<Fields>)
    ensures |PromptLines(articles)| == 1 + 7 * |articles|
    ensures PromptLines(articles)[0] == Header(|articles|)
    ensures forall i :: 0 <= i < |articles| ==>
      PromptLines(articles)[1 + 7 * i..8 + 7 * i] == ArticleLines(i + 1, articles[i])
  {
    BlockLinesCount(articles);
    forall i | 0 <= i < |articles|
      ensures PromptLines(articles)[1 + 7 * i..8 + 7 * i] == ArticleLines(i + 1, articles[i])
    {
      PromptBlockAt(articles, i);
    }
  }

  /** The seven lines after the header that belong to article `i`. */
  lemma PromptBlockAt(articles: seq<Fields>, i: nat)
    requires i < |articles|
    ensures 8 + 7 * i <= |PromptLines(articles)|
    ensures PromptLines(articles)[1 + 7 * i..8 + 7 * i] == ArticleLines(i + 1, articles[i])
  {
    BlockLinesCount(articles);
    var all, block := PromptLines(articles), BlockLines(articles);
    var lines := ArticleLines(i + 1, articles[i]);
    forall j | 0 <= j < 7
      ensures all[1 + 7 * i + j] == lines[j]
    {
      BlockLinesAt(articles, i, j);
      assert all[1 + 7 * i + j] == block[7 * i + j];
    }
  }

  /** The rendered text of a non-empty list is the header line, a newline,
      and the joined lines of the articles. */
  lemma PromptTextSplit(articles: seq<Fields>)
    requires articles != []
    ensures PromptText(Some(articles)) == Header(|articles|) + "\n" + Join(BlockLines(articles), "\n")
  {
    BlockLinesCount(articles);
    JoinAppend([Header(|articles|)], BlockLines(articles), "\n");
  }

  /** The joined lines of the articles are those of all but the last article,
      a newline, and the joined seven lines of the last one, numbered
      `|articles|`. */
  lemma BlockTextStep(articles: seq<Fields>)
    requires |articles| >= 2
    ensures Join(BlockLines(articles), "\n") ==
      Join(BlockLines(articles[..|articles| - 1]), "\n") + "\n" +
      Join(ArticleLines(|articles|, articles[|articles| - 1]), "\n")
  {
    BlockLinesCount(articles[..|articles| - 1]);
    JoinAppend(BlockLines(articles[..|articles| - 1]), ArticleLines(|articles|, articles[|articles| - 1]), "\n");
  }

  /** An article as the fetch stage stores it has all six keys, so none of
      its values is replaced by a default, empty ones included. */
  lemma StoredArticleLines(number: nat, a: Article)
    ensures ArticleLines(number, ToFields(a)) ==
      ["### " + NatToString(number) + ". " + a.title,
       "- **メディア**: " + a.source,
       "- **セクション**: " + a.section,
       "- **公開日時**: " + a.publishedDate,
       "- **URL**: " + a.url,
       "- **概要**: " + a.abstractText,
       ""]
  {
  }

  /** An article without any of the keys is shown with every default. */
  lemma EmptyArticleLines(number: nat)
    ensures ArticleLines(number, map[]) ==
      ["### " + NatToString(number) + ". " + "タイトルなし",
       "- **メディア**: " + "不明",
       "- **セクション**: " + "不明",
       "- **公開日時**: " + "不明",
       "- **URL**: ",
       "- **概要**: " + "概要なし",
       ""]
  {
    assert "- **URL**: " + "" == "- **URL**: ";
  }

  /** Data without an `articles` key is rendered as an empty list: the header
      line alone, with the count 0. */
  lemma MissingArticlesKey()
    ensures PromptText(None) == PromptText(Some([]))
    ensures PromptText(None) == Header(0)
  {
  }

  // ------------------------------------------------------------ the reply

  /** One block of the service's reply; only blocks of type "text" carry text
      that is used. */
  datatype ContentBlock = ContentBlock(blockType: string, text: string)

  /** The texts of the reply's text blocks, in order. */
  function ReplyText(blocks: seq<ContentBlock>): string {
    if blocks == [] then ""
    else
      var last := blocks[|blocks| - 1];
      ReplyText(blocks[..|blocks| - 1]) + (if last.blockType == "text" then last.text else "")
  }

  method CollectReplyText(content: seq<ContentBlock>) returns (result: string)
    ensures result == ReplyText(content)
  {
    result := "";
    for i := 0 to |content|
      invariant result == ReplyText(content[..i])
    {
      var block := content[i];
      if block.blockType == "text" {
        result := result + block.text;
      }
      assert content[..i + 1][..i] == content[..i];
    }
    assert content[..|content|] == content;
  }

  /** The text of two replies one after the other is the two texts one after the other. */
  lemma {:induction false} ReplyTextAppend(a: seq<ContentBlock>, b: seq<ContentBlock>)
    ensures ReplyText(a + b) == ReplyText(a) + ReplyText(b)
    decreases |b|
  {
    if b == [] {
      assert a + b == a;
    } else {
      var init := b[..|b| - 1];
      assert (a + b)[..|a + b| - 1] == a + init;
      ReplyTextAppend(a, init);
    }
  }

  /** A block that is not a text block, wherever it stands, adds nothing. */
  lemma ReplyTextIgnoresOthers(before: seq<ContentBlock>, block: ContentBlock, after: seq<ContentBlock>)
    requires block.blockType != "text"
    ensures ReplyText(before + [block] + after) == ReplyText(before + after)
  {
    ReplyTextAppend(before + [block], after);
    ReplyTextAppend(before, after);
  }

  /** A text block contributes its text. */
  lemma ReplyTextOfText(before: seq<ContentBlock>, t: string, after: seq<ContentBlock>)
    ensures ReplyText(before + [ContentBlock("text", t)] + after) == ReplyText(before) + t + ReplyText(after)
  {
    ReplyTextAppend(before + [ContentBlock("text", t)], after);
  }

  // --------------------------------------------------------- the decision

  /** The instruction line and the start of the date line, before the date. */
  const MessageOpen := "以下の記事リストから、選定基準に基づいて記事を選んでください。\n今日の日付は "
  /** The end of the date line and the blank line before the list. */
  const DateClose := " です。\n\n"

  /** The user message sent with the rendered list; `today` is the date
      rendered as `%Y年%m月%d日`. It is the instruction line, the date line
      naming `today`, a blank line, the list and a final newline. */
  function UserMessage(today: string, articlesText: string): (m: string)
    ensures |m| == |MessageOpen| + |today| + |DateClose| + |articlesText| + 1
    ensures m[..|MessageOpen|] == MessageOpen
    ensures m[|MessageOpen|..|MessageOpen| + |today|] == today
    ensures m[|MessageOpen| + |today|..|MessageOpen| + |today| + |DateClose|] == DateClose
    ensures m[|m| - |articlesText| - 1..|m| - 1] == articlesText && m[|m| - 1] == '\n'
  {
    var m := MessageOpen + today + DateClose + articlesText + "\n";
    assert m[..|MessageOpen|] == MessageOpen;
    assert m[|MessageOpen|..|MessageOpen| + |today|] == today;
    assert m[|MessageOpen| + |today|..|MessageOpen| + |today| + |DateClose|] == DateClose;
    m
  }

  /** How the selection step ends: without an Anthropic API key nothing is
      written; otherwise the text written to the output file. */
  datatype SelectionOutcome = NoApiKey | Output(text: string)

  /** The text written: the fixed notice when there is no article, otherwise
      the text of the reply to the system prompt and the user message.
      `respond(system, user)` stands for the service. */
  function SelectionText(articles: Option<seq<Fields>>, promptTemplate: string, today: string,
                         respond: (string, string) -> seq<ContentBlock>): string {
    if |articles.GetOr([])| == 0 then NoArticlesNotice
    else ReplyText(respond(promptTemplate, UserMessage(today, PromptText(articles))))
  }

  /** `main` of the selection step, after the files have been read. */
  method RunSelection(apiKey: Option<string>, articlesData: Option<seq<Fields>>, promptTemplate: string,
                      today: string, respond: (string, string) -> seq<ContentBlock>)
    returns (outcome: SelectionOutcome)
    ensures apiKey.None? || apiKey.value == "" ==> outcome == NoApiKey
    ensures apiKey.Some? && apiKey.value != "" ==>
      outcome == Output(SelectionText(articlesData, promptTemplate, today, respond))
  {
    if apiKey.None? || apiKey.value == "" {
      return NoApiKey;
    }
    var articleCount := |articlesData.GetOr([])|;
    if articleCount == 0 {
      return Output(NoArticlesNotice);
    }
    var articlesText := FormatArticlesForPrompt(articlesData);
    var userMessage := UserMessage(today, articlesText);
    var result := CollectReplyText(respond(promptTemplate, userMessage));
    outcome := Output(result);
  }

  /** With no article (or no `articles` key) the notice is written whatever
      the service would answer: the service is not asked. */
  lemma ZeroArticlesSkip(articles: Option<seq<Fields>>, promptTemplate: string, today: string,
                         respond: (string, string) -> seq<ContentBlock>,
                         other: (string, string) -> seq<ContentBlock>)
    requires articles.None? || articles.value == []
    ensures SelectionText(articles, promptTemplate, today, respond) == NoArticlesNotice
    ensures SelectionText(articles, promptTemplate, today, respond) ==
      SelectionText(articles, promptTemplate, today, other)
  {
  }

  /** With at least one article, the written text is the reply's text to a
      message that carries the rendered list. */
  lemma SomeArticlesAsk(articles: seq<Fields>, promptTemplate: string, today: string,
                        respond: (string, string) -> seq<ContentBlock>)
    requires articles != []
    ensures SelectionText(Some(articles), promptTemplate, today, respond) ==
      ReplyText(respond(promptTemplate, UserMessage(today, PromptText(Some(articles)))))
    ensures var text, m := PromptText(Some(articles)), UserMessage(today, PromptText(Some(articles)));
      Header(|articles|) <= text && m[|m| - |text| - 1..] == text + "\n"
  {
    PromptStartsWithHeader(articles);
    MessageEndsWithList(today, PromptText(Some(articles)));
  }

  /** The rendered list starts with its header line. */
  lemma PromptStartsWithHeader(articles: seq<Fields>)
    ensures Header(|articles|) <= PromptText(Some(articles))
  {
    var lines := PromptLines(articles);
    assert lines[0] == Header(|articles|);
  }

  /** The user message ends with the rendered list and a newline. */
  lemma MessageEndsWithList(today: string, text: string)
    ensures var m := UserMessage(today, text); m[|m| - |text| - 1..] == text + "\n"
  {
    var m := UserMessage(today, text);
    assert m[|m| - |text| - 1..] == m[|m| - |text| - 1..|m| - 1] + [m[|m| - 1]];
  }

  /** The articles the selection step reads back from a written batch. */
  function StoredArticles(batch: ArticleBatch): (r: Option<seq<Fields>>)
    ensures r.Some? && |r.value| == |batch.articles|
    ensures forall k :: 0 <= k < |batch.articles| ==> r.value[k] == ToFields(batch.articles[k])
  {
    Some(MapSeq(batch.articles, ToFields))
  }

  /** When every source fails, the batch holds no article and the selection
      step writes the notice without asking the service. */
  lemma NothingFetchedSkipsSelection(fetch: string -> Adapters.SectionFetch, feed: string -> Adapters.FeedFetch,
                                     now: int, hours: int, parse: string -> Option<Recency.Stamp>,
                                     fetchedAt: string, promptTemplate: string, today: string,
                                     respond: (string, string) -> seq<ContentBlock>)
    requires forall s :: s in Adapters.NytSections ==> fetch(s) == Adapters.FetchFailed
    requires forall u :: u in Adapters.BloombergFeeds || u in Adapters.GuardianFeeds ==> feed(u) == Adapters.FeedFailed
    ensures var articles := BatchArticles(fetch, feed, now, hours, parse);
      var batch := ArticleBatch(fetchedAt, |articles|, articles);
      batch.totalCount == 0 && batch.articles == [] &&
      SelectionText(StoredArticles(batch), promptTemplate, today, respond) == NoArticlesNotice
  {
    AllSourcesFail(fetch, feed, now, hours, parse);
  }
}
