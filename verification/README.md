# News curation pipeline — a Dafny model

The system gathers news articles every morning and posts a curated selection
to a chat channel. It has three steps:

1. **Fetch** (`fetch_articles.py`).
   - Three source adapters run one after the other:
     - the New York Times Top Stories API, one request per section;
     - three Bloomberg RSS feeds;
     - three Guardian RSS feeds.
   - Each adapter turns every item into an article record with six fields.
   - The records are filtered to a time window (48 hours by default).
   - They are then deduplicated by URL and written out as a batch with a count.
2. **Select** (`select_articles.py`).
   - The batch is rendered as a Markdown list and sent to a language-model
     service.
   - The text blocks of the reply are joined into the result.
   - With no article, a fixed notice is written and the service is not asked.
3. **Post** (`post_to_slack.py`).
   - The step decides between an error notification, a message given on the
     command line and the selection file.
   - It refuses whitespace-only messages.
   - It cuts messages longer than 39,000 characters and appends a notice.

The model holds the data shaping in those three steps. Every operation is a
function, or a method whose loop matches the source. The modules are:

- `Text`: substring search, tag stripping as a recursive function, slicing,
  whitespace, joining, and decimal digits.
- `Sequences`: two shared list shapes:
  - keeping some elements in order (`SelectBy`);
  - concatenating the records of a fixed list of units (`Collect`).
- `Articles`: the record.
- `Adapters`: the three adapters.
- `Recency`: the time-window filter.
- `Dedup`: URL deduplication.
- `Pipeline`: the fetch step's entry point.
- `Prompt`: the select step.
- `Slack`: the post step.

The world outside the program is passed in as parameters:

- `fetch(section)` is the outcome of one NYT request.
- `feed(url)` is the outcome of parsing one feed.
- `parse` stands for `datetime.fromisoformat`. It gives a local reading plus an
  optional UTC offset, in microseconds.
- `now` is the clock.
- `respond(system, user)` stands for the language-model service.
- The environment variables, command-line options and file contents are
  `Option` values.

Absent keys and absent files are modelled as `None`, and the code's error
paths are modelled rather than excluded by preconditions.

**Empty URLs in deduplication.** The code (`fetch_articles.py:193`,
`if url and url not in seen_urls`) drops every article whose URL is empty;
`Dedup.DeduplicatedDistinctUrls` proves that every kept article has a
non-empty URL.

## Model

| member | source | states |
|---|---|---|
| `Text.Contains` | fetch_articles.py:136-153 | Python's `sub in s`: true exactly when `sub` occurs as a contiguous block of `s` at some index |
| `Text.TagLength` | fetch_articles.py:117 | the length of the one `<[^>]+>` match that starts the string, if any; when there is none, no prefix is a tag |
| `Text.StripTags` | fetch_articles.py:117 | `re.sub(r'<[^>]+>', '', s)` as a left-to-right scan; the result is never longer than the input |
| `Text.StripTagsNoTag` | fetch_articles.py:117 | nothing that matches `<[^>]+>` is left after stripping |
| `Text.StripTagsChars` | fetch_articles.py:117 | stripping only removes characters |
| `Text.StripTagsPlain` | fetch_articles.py:117 | text without `<` is left as it is |
| `Text.StripTagsPrefix` | fetch_articles.py:117 | text without `<` in front of the rest passes through unchanged |
| `Text.StripTagsAfterTag` | fetch_articles.py:117 | a leading tag is removed and the rest is stripped |
| `Text.TagUnique` | fetch_articles.py:117 | a string starts with at most one tag, because `[^>]+` stops at the first `>` |
| `Text.Truncate` | fetch_articles.py:118 | `s[:n] if len(s) > n else s`: a prefix of `s` of length at most `n`, `s` itself when it fits, exactly `n` long otherwise |
| `Text.NatToString` | select_articles.py:45 | `str(n)` for a count: at least one character, all decimal digits, with a leading `0` only for zero |
| `Text.Join` | select_articles.py:56 | `"\n".join(lines)`: no lines give ""; one line gives that line; otherwise the text starts with the first line and ends with the last |
| `Text.JoinAppend` | select_articles.py:56 | joining two non-empty lists of lines is joining each and putting one separator between them; with the one-line case this fixes the joined text as every line in order with the separator between neighbours |
| `Text.Strip` | post_to_slack.py:86 | `message.strip()`: nothing is left exactly when every character is whitespace in the sense of Python's `str.isspace`; what is left neither starts nor ends with whitespace, and is no longer than the message |
| `Text.IsSpaceAscii` | post_to_slack.py:86 | the whitespace `strip` removes includes, among ASCII characters, exactly space, tab, newline, carriage return, vertical tab, form feed and the separators `\x1c`..`\x1f` |
| `Text.NatToStringRoundTrip` | select_articles.py:45 | the decimal text of a count reads back as that count |
| `Adapters.BloombergSection` | fetch_articles.py:145-153 | "markets", "technology" or "politics", the first one the URL contains, in that priority; "general" exactly when it contains none; always one of the four |
| `Adapters.GuardianSection` | fetch_articles.py:134-142 | "world", "business" or "technology", the first one the URL contains, in that priority; "general" exactly when it contains none; always one of the four |
| `Adapters.NytRecord` | fetch_articles.py:55-62 | the record of one result item: source "NYT", the requested section, and title, abstract, url and published_date from the item, "" when the item lacks the key |
| `Adapters.PublishedText` | fetch_articles.py:81-83 | an entry's date is its structured date when present, otherwise its raw `published` text, otherwise "" |
| `Adapters.BloombergRecord` | fetch_articles.py:80-92 | the record of one Bloomberg entry: source "Bloomberg", the feed's section, the summary unchanged, the link as url, and the entry's date |
| `Adapters.GuardianAbstract` | fetch_articles.py:114-118 | the stored abstract is the tag-stripped summary when that has at most 500 characters, and exactly its first 500 characters otherwise |
| `Adapters.GuardianAbstractNoTag` | fetch_articles.py:117-118 | a stored Guardian abstract holds no tag |
| `Adapters.GuardianAbstractExample` | fetch_articles.py:114-118 | `<p>Hello <b>world</b></p>` is stored as `Hello world` |
| `Adapters.GuardianRecord` | fetch_articles.py:108-127 | the record of one Guardian entry: source "Guardian", the feed's section, the stripped and cut summary, the link as url, and the entry's date |
| `Adapters.FetchNytSection` | fetch_articles.py:49-66 | one section's loop: nothing when the request or decoding failed, else one record per result item in order; no `results` key gives no items |
| `Adapters.FetchNyt` | fetch_articles.py:41-68 | the sections in order, each section's records appended to the list |
| `Adapters.FetchBloombergFeed` | fetch_articles.py:76-94 | one feed's loop: nothing when parsing failed, else one record per entry in order |
| `Adapters.FetchBloomberg` | fetch_articles.py:71-96 | the feeds in order, each feed's records appended to the list |
| `Adapters.FetchGuardianFeed` | fetch_articles.py:104-129 | one feed's loop: nothing when parsing failed, else one record per entry in order |
| `Adapters.FetchGuardian` | fetch_articles.py:99-131 | the feeds in order, each feed's records appended to the list |
| `Adapters.NytArticlesCount` | fetch_articles.py:45-62 | the number of NYT records is the sum, over the sections, of the result items of each section that was fetched |
| `Adapters.BloombergArticlesCount` | fetch_articles.py:75-92 | the number of Bloomberg records is the sum of the entries of the feeds that were parsed; no entry is skipped for lack of a date |
| `Adapters.GuardianArticlesCount` | fetch_articles.py:103-127 | the number of Guardian records is the sum of the entries of the feeds that were parsed |
| `Adapters.NytArticleOrigin` | fetch_articles.py:45-66 | every NYT record is labelled "NYT" and with a requested section, and comes from a result item of a section whose request succeeded |
| `Adapters.BloombergArticleOrigin` | fetch_articles.py:75-94 | every Bloomberg record is labelled "Bloomberg" and with the section of a configured feed that was parsed |
| `Adapters.GuardianArticleOrigin` | fetch_articles.py:103-129 | every Guardian record is labelled "Guardian" and with the section of a configured feed that was parsed; its abstract holds no tag and at most 500 characters |
| `Adapters.NytFailureIsolated` | fetch_articles.py:63-66 | a section whose request fails is skipped; the records of the other sections are exactly those of a run where they answer the same |
| `Adapters.BloombergFailureIsolated` | fetch_articles.py:93-94 | a feed that fails is skipped; the other feeds' records are unchanged and in order |
| `Adapters.GuardianFailureIsolated` | fetch_articles.py:128-129 | a feed that fails is skipped; the other feeds' records are unchanged and in order |
| `Recency.ReplaceZ` | fetch_articles.py:173 | `replace("Z", "+00:00")`: no `Z` is left, and the text only grows |
| `Recency.ReplaceZAppend` | fetch_articles.py:173 | the replacement applies to every `Z`, wherever it stands: it distributes over concatenation |
| `Recency.ReplaceZNone` | fetch_articles.py:173 | a date without `Z` reaches the parser unchanged |
| `Recency.ReplaceZTrailing` | fetch_articles.py:173 | a trailing `Z` becomes the offset `+00:00` |
| `Recency.UtcInstant` | fetch_articles.py:174-177 | a naive date is read as UTC; an aware one is its wall-clock reading minus its offset |
| `Recency.Cutoff` | fetch_articles.py:161 | the cutoff lies `hours` hours before `now`, and never after `now` for a non-negative window |
| `Recency.IsRecent` | fetch_articles.py:165-181 | an article with an empty date, or a date that does not parse once `Z` is replaced, is kept; a parsed date is kept exactly when its UTC instant is at or after the cutoff |
| `Recency.FilterRecent` | fetch_articles.py:156-183 | the loop returns the articles `IsRecent` accepts, in input order |
| `Recency.RecentSubsequence` | fetch_articles.py:161-183 | the output is an order-preserving subsequence of the input with unchanged records, made of exactly the positions whose article is recent |
| `Recency.RecentMembers` | fetch_articles.py:164-181 | an article is in the output exactly when it is in the input and recent |
| `Recency.RecentKeepsUndated` | fetch_articles.py:166-169 | fail-open: an article with an empty date, or a date that does not parse, is kept whatever the window |
| `Recency.RecentThreshold` | fetch_articles.py:161-178 | an article whose date parses is kept exactly when its instant is at or after `now - hours`; a naive date is read as UTC |
| `Recency.RecentMonotone` | fetch_articles.py:161 | a wider window keeps every article a narrower one keeps |
| `Recency.RecentExample` | fetch_articles.py:161-178 | an article dated 72 hours ago is dropped with a 48-hour window and kept with a 96-hour window |
| `Dedup.Deduplicate` | fetch_articles.py:186-197 | the loop with its seen-set returns the deduplicated list; the set is the list's non-empty URLs so far |
| `Dedup.DeduplicatedDistinctUrls` | fetch_articles.py:192-195 | every kept article has a non-empty URL, and no two kept articles share one |
| `Dedup.DeduplicatedUrlsOf` | fetch_articles.py:192-195 | every non-empty URL of the input is still carried by a kept article |
| `Dedup.DeduplicatedCount` | fetch_articles.py:188-197 | there are as many kept articles as distinct non-empty URLs |
| `Dedup.DeduplicatedDistinct` | fetch_articles.py:186-197 | a list whose URLs are already non-empty and distinct is kept whole |
| `Dedup.DeduplicatedIdempotent` | fetch_articles.py:186-197 | deduplicating twice is deduplicating once |
| `Dedup.DeduplicatedFirstOccurrences` | fetch_articles.py:191-195 | the output is the order-preserving subsequence of the positions whose URL is non-empty and carried by no earlier article |
| `Dedup.DeduplicatedSnoc` | fetch_articles.py:193-195 | one more article is kept exactly when its URL is non-empty and not seen before |
| `Dedup.DeduplicatedExample` | fetch_articles.py:186-197 | five articles where the second and fourth share a URL leave four, with the second kept and the fourth dropped |
| `Pipeline.FetchAll` | fetch_articles.py:224-239 | NYT, then Bloomberg, then Guardian records, appended in that order |
| `Pipeline.RunPipeline` | fetch_articles.py:215-255 | without an NYT API key nothing is fetched; otherwise the batch holds the deduplicated, filtered records and its count is their number |
| `Pipeline.BatchArticlesProperties` | fetch_articles.py:243-255 | every batch article was fetched and lies in the window; URLs in the batch are non-empty and distinct; every non-empty URL in the window is present |
| `Pipeline.AllSourcesFail` | fetch_articles.py:224-255 | when every source fails, the batch is empty |
| `Prompt.ArticleLines` | select_articles.py:48-54 | seven lines per article, the last one empty |
| `Prompt.FormatArticlesForPrompt` | select_articles.py:41-56 | the loop builds the header and seven lines per article, then joins them with newlines; a missing `articles` key reads as an empty list |
| `Prompt.Header` | select_articles.py:45 | the header line is `## 記事リスト（`, then decimal digits whose value is the number of articles, then `件）` and a newline |
| `Prompt.BlockLinesCount` | select_articles.py:47-54 | seven lines per article |
| `Prompt.BlockLinesAt` | select_articles.py:47-54 | line `j` of article `i`'s block is line `j` of the lines of that article, numbered `i + 1` |
| `Prompt.PromptLinesShape` | select_articles.py:45-54 | 1 + 7N lines: the header first, then each article's seven lines in list order, numbered consecutively from 1 |
| `Prompt.PromptTextSplit` | select_articles.py:45-56 | the returned text of a non-empty list is the header line, a newline, and the articles' lines joined by newlines |
| `Prompt.BlockTextStep` | select_articles.py:47-56 | the joined article lines are those of the earlier articles, a newline, and the last article's seven lines joined by newlines, numbered with its position |
| `Prompt.StoredArticleLines` | select_articles.py:48-53 | a stored article has every key, so no value is replaced by a default, empty ones included |
| `Prompt.EmptyArticleLines` | select_articles.py:48-53 | with no keys, title shows `タイトルなし`, source, section and date show `不明`, url is empty, and abstract shows `概要なし` |
| `Prompt.MissingArticlesKey` | select_articles.py:43-45 | data without `articles` renders like an empty list: the header with count 0 alone |
| `Prompt.CollectReplyText` | select_articles.py:92-95 | the loop returns the texts of the text blocks, in order |
| `Prompt.ReplyTextAppend` | select_articles.py:92-95 | the reply text of two block lists in sequence is their texts in sequence |
| `Prompt.ReplyTextIgnoresOthers` | select_articles.py:94 | a block that is not a text block adds nothing, wherever it stands |
| `Prompt.ReplyTextOfText` | select_articles.py:94-95 | a text block contributes exactly its text at its place |
| `Prompt.UserMessage` | select_articles.py:74-78 | the user message is the instruction line, `今日の日付は ` followed by `today` and ` です。`, a blank line, the rendered list and a final newline, with nothing else |
| `Prompt.RunSelection` | select_articles.py:119-158 | without an API key nothing is written; with zero articles the notice is written; otherwise the reply text to the rendered list is written |
| `Prompt.ZeroArticlesSkip` | select_articles.py:139-147 | with no article, or no `articles` key, the output is `:warning: 本日は選定対象の記事がありませんでした。` whatever the service would answer |
| `Prompt.SomeArticlesAsk` | select_articles.py:149-158 | with at least one article, the output is the reply text to the user message; that message ends with the rendered list and a newline, and the list starts with the header line |
| `Prompt.StoredArticles` | fetch_articles.py:251-258 | the articles read back from a written batch are, position by position, the six-field records of the batch's articles |
| `Prompt.NothingFetchedSkipsSelection` | select_articles.py:139-147 | when every source fails, the batch has count 0 and no article, and selection writes the notice |
| `Slack.ErrorMessage` | post_to_slack.py:41 | the notification is the fixed header, then the error text inside a code fence |
| `Slack.ErrorMessageRoundTrip` | post_to_slack.py:41 | the notification is injective: a message that yields an error text is exactly that text's notification (the recovery half follows from `ErrorMessage`'s own contract); the program itself never reads a notification back |
| `Slack.FitMessage` | post_to_slack.py:94-97 | a message of at most 39,000 characters is unchanged; a longer one becomes its first 39,000 characters then the notice; the result is at most 39,000 plus the notice's length |
| `Slack.FitMessageKeepsStart` | post_to_slack.py:97 | the fitted message begins with the message's first 39,000 characters; the notice is not whitespace |
| `Slack.FitMessageNotBlank` | post_to_slack.py:86-97 | fitting a message that is not whitespace-only gives one that is not either |
| `Slack.ChosenMessage` | post_to_slack.py:75-84 | a non-empty `--message` is used, otherwise the input file's content |
| `Slack.Decide` | post_to_slack.py:62-99 | an error notification posts the error text wrapped; any other post is not whitespace-only (its `strip()` is non-empty) and fits the length bound |
| `Slack.DecidePrecedence` | post_to_slack.py:62-97 | no webhook: nothing is done; then a non-empty `--error` wins; then the chosen message is posted, fitted, unless missing or blank |
| `Slack.MessageOverridesFile` | post_to_slack.py:75-84 | with a non-empty `--message` the input file does not matter |
| `Slack.BlankNeverPosted` | post_to_slack.py:86-88 | a whitespace-only message is never posted |

## Left out

- Network calls are parameters:
  - the NYT request and its JSON decoding (`requests.get`);
  - `feedparser.parse`;
  - the language-model service call;
  - the webhook POST.
- The POST's success and failure are not modelled, and neither are the exit
  codes that follow from them.
- `datetime.fromisoformat`, the clock and the `published_parsed` → `isoformat()`
  rendering are not modelled:
  - the parser is a parameter;
  - the clock is `now`;
  - the rendered structured date is an opaque string on each feed entry.
- `OverflowError` is not modelled. It arises when the window reaches outside
  the representable datetime range.
- `strftime` of today's date is a string parameter.
- A feed or request that raises part-way through its entries is modelled as
  contributing nothing. The source keeps the records appended before the
  exception. In practice the fetch and the parse are the calls that raise,
  and both run before the loop.
- JSON values that are not strings are not modelled:
  - `null`, numbers and nested objects;
  - items that are not objects, which the source would fail on with an
    uncaught `TypeError` or `AttributeError`.
  - Records and JSON objects are maps from strings to strings.
- Argument parsing, file reads and writes, `json.dump`/`json.load`, the
  existence checks on input and prompt files, logging and progress output
  are left out. Also left out: the `sys.exit` codes other than the outcomes
  modelled as `RunOutcome`, `SelectionOutcome` and `Slack.Action`.
- The API-error and JSON-error handlers of the select step are not modelled.
- `Adapters.BloombergSection`, `Adapters.GuardianSection`: the configured
  feed URLs are not proved to map to their own sections. The contracts state
  the priority rule for every URL.
