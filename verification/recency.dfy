/** The recency filter of the fetch stage: an article is dropped only when its
    date parses and lies before the cutoff; an absent or unreadable date keeps
    it. The clock and the ISO-8601 parser are parameters. */
module Recency {
  import opened Wrappers
  import opened Sequences
  import opened Articles

  /** Microseconds, the resolution of the timestamps compared. */
  const MicrosPerHour: int := 3600 * 1000000

  /** What parsing an ISO-8601 text gives: the local wall-clock reading in
      microseconds and, for an aware timestamp, its UTC offset in
      microseconds; `offset == None` is a naive timestamp. */
  datatype Stamp = Stamp(local: int, offset: Option<int>)

  /** The instant a parsed timestamp denotes; a naive timestamp is read as UTC. */
  function UtcInstant(st: Stamp): (t: int)
    ensures st.offset.None? ==> t == st.local
    ensures st.offset.Some? ==> t + st.offset.value == st.local
  {
    st.local - st.offset.GetOr(0)
  }

  /** `s.replace("Z", "+00:00")`: every `Z`, wherever it stands, becomes `+00:00`. */
  function ReplaceZ(s: string): (r: string)
    ensures 'Z' !in r
    ensures |r| >= |s|
  {
    if s == [] then []
    else (if s[0] == 'Z' then "+00:00" else [s[0]]) + ReplaceZ(s[1..])
  }

  /** What one character is replaced by. */
  function ReplaceZChar(c: char): string {
    if c == 'Z' then "+00:00" else [c]
  }

  /** Replacing in a text that starts with `c`. */
  lemma ReplaceZCons(c: char, rest: string)
    ensures ReplaceZ([c] + rest) == ReplaceZChar(c) + ReplaceZ(rest)
  {
    assert ([c] + rest)[1..] == rest;
  }

  /** Replacing distributes over concatenation. */
  lemma {:induction false} ReplaceZAppend(a: string, b: string)
    ensures ReplaceZ(a + b) == ReplaceZ(a) + ReplaceZ(b)
    decreases |a|
  {
    if a == [] {
      assert a + b == b;
    } else {
      var c, tail := a[0], a[1..];
      FirstAndRest(a, b);
      ReplaceZCons(c, tail + b);
      ReplaceZCons(c, tail);
      ReplaceZAppend(tail, b);
      Regroup(ReplaceZChar(c), ReplaceZ(tail), ReplaceZ(b));
    }
  }

  /** A non-empty text is its first character followed by the rest. */
  lemma FirstAndRest(a: string, b: string)
    requires a != []
    ensures a == [a[0]] + a[1..] && a + b == [a[0]] + (a[1..] + b)
  {
  }

  lemma Regroup(x: string, y: string, z: string)
    ensures x + (y + z) == (x + y) + z
  {
  }

  /** A text without `Z` is handed to the parser unchanged. */
  lemma {:induction false} ReplaceZNone(s: string)
    requires 'Z' !in s
    ensures ReplaceZ(s) == s
  {
    if s != [] {
      ReplaceZNone(s[1..]);
    }
  }

  /** A trailing `Z` becomes the offset `+00:00`. */
  lemma ReplaceZTrailing(s: string)
    requires 'Z' !in s
    ensures ReplaceZ(s + "Z") == s + "+00:00"
  {
    ReplaceZAppend(s, "Z");
    ReplaceZNone(s);
  }

  /** The earliest instant still kept: `now - timedelta(hours=hours)`. */
  function Cutoff(now: int, hours: int): (c: int)
    ensures c + hours * MicrosPerHour == now
    ensures hours >= 0 ==> c <= now
  {
    now - hours * MicrosPerHour
  }

  /** Whether the filter keeps article `a`: no date, a date that does not
      parse, or a date at or after the cutoff. */
  function IsRecent(a: Article, cutoff: int, parse: string -> Option<Stamp>): (r: bool)
    ensures a.publishedDate == "" ==> r
    ensures a.publishedDate != "" && parse(ReplaceZ(a.publishedDate)).None? ==> r
    ensures a.publishedDate != "" && parse(ReplaceZ(a.publishedDate)).Some? ==>
      (r <==> UtcInstant(parse(ReplaceZ(a.publishedDate)).value) >= cutoff)
  {
    if a.publishedDate == "" then true
    else
      match parse(ReplaceZ(a.publishedDate))
      case None => true
      case Some(st) => UtcInstant(st) >= cutoff
  }

  function RecentKeep(cutoff: int, parse: string -> Option<Stamp>): (seq<Article>, Article) -> bool {
    (before, a) => IsRecent(a, cutoff, parse)
  }

  /** What `filter_recent_articles(articles, hours)` returns at time `now`. */
  function Recent(articles: seq<Article>, now: int, hours: int, parse: string -> Option<Stamp>): seq<Article> {
    SelectBy(articles, RecentKeep(Cutoff(now, hours), parse))
  }

  method FilterRecent(articles: seq<Article>, now: int, hours: int, parse: string -> Option<Stamp>)
    returns (filtered: seq<Article>)
    ensures filtered == Recent(articles, now, hours, parse)
  {
    var cutoff := Cutoff(now, hours);
    filtered := [];
    for i := 0 to |articles|
      invariant filtered == SelectBy(articles[..i], RecentKeep(cutoff, parse))
    {
      var article := articles[i];
      SelectByStep(articles, i, RecentKeep(cutoff, parse));
      if article.publishedDate == "" {
        // no date: kept
        filtered := filtered + [article];
      } else {
        match parse(ReplaceZ(article.publishedDate)) {
          case None =>
            // the date does not parse: kept
            filtered := filtered + [article];
          case Some(pubDate) =>
            if UtcInstant(pubDate) >= cutoff {
              filtered := filtered + [article];
            }
        }
      }
    }
    assert articles[..|articles|] == articles;
  }

  /** The filtered list is the subsequence of the input, in order and with
      records unchanged, made of the articles `IsRecent` accepts. */
  lemma RecentSubsequence(articles: seq<Article>, now: int, hours: int, parse: string -> Option<Stamp>)
    ensures var keep := RecentKeep(Cutoff(now, hours), parse);
      Increasing(SelectedIdx(articles, keep)) &&
      Picks(Recent(articles, now, hours, parse), articles, SelectedIdx(articles, keep)) &&
      forall k :: k in SelectedIdx(articles, keep) <==>
        0 <= k < |articles| && IsRecent(articles[k], Cutoff(now, hours), parse)
  {
    SelectByExact(articles, RecentKeep(Cutoff(now, hours), parse));
  }

  /** An article is in the output exactly when it is in the input and recent. */
  lemma RecentMembers(articles: seq<Article>, now: int, hours: int, parse: string -> Option<Stamp>)
    ensures forall a :: a in Recent(articles, now, hours, parse) <==>
      a in articles && IsRecent(a, Cutoff(now, hours), parse)
  {
    var cutoff := Cutoff(now, hours);
    SelectByMembers(articles, RecentKeep(cutoff, parse), a => IsRecent(a, cutoff, parse));
  }

  /** Fail-open: an article without a date, or whose date does not parse, is
      kept whatever the window is. */
  lemma RecentKeepsUndated(articles: seq<Article>, a: Article, now: int, hours: int, parse: string -> Option<Stamp>)
    requires a in articles
    requires a.publishedDate == "" || parse(ReplaceZ(a.publishedDate)).None?
    ensures a in Recent(articles, now, hours, parse)
  {
    RecentMembers(articles, now, hours, parse);
  }

  /** An article whose date parses is kept exactly when its instant is at or
      after `now - hours`. */
  lemma RecentThreshold(articles: seq<Article>, a: Article, st: Stamp, now: int, hours: int, parse: string -> Option<Stamp>)
    requires a in articles && a.publishedDate != ""
    requires parse(ReplaceZ(a.publishedDate)) == Some(st)
    ensures a in Recent(articles, now, hours, parse) <==> UtcInstant(st) >= now - hours * MicrosPerHour
  {
    RecentMembers(articles, now, hours, parse);
  }

  /** A wider window keeps everything a narrower one keeps. */
  lemma RecentMonotone(articles: seq<Article>, now: int, narrow: int, wide: int, parse: string -> Option<Stamp>)
    requires narrow <= wide
    ensures forall a :: a in Recent(articles, now, narrow, parse) ==> a in Recent(articles, now, wide, parse)
  {
    RecentMembers(articles, now, narrow, parse);
    RecentMembers(articles, now, wide, parse);
  }

  /** An article dated 72 hours before `now` is dropped with a 48-hour window
      and kept with a 96-hour window. */
  lemma RecentExample(a: Article, st: Stamp, now: int, parse: string -> Option<Stamp>)
    requires a.publishedDate != "" && parse(ReplaceZ(a.publishedDate)) == Some(st)
    requires UtcInstant(st) == now - 72 * MicrosPerHour
    ensures Recent([a], now, 48, parse) == []
    ensures Recent([a], now, 96, parse) == [a]
  {
    SelectByStep([a], 0, RecentKeep(Cutoff(now, 48), parse));
    SelectByStep([a], 0, RecentKeep(Cutoff(now, 96), parse));
    assert [a][..0] == [] && [a][..1] == [a];
    assert !IsRecent(a, Cutoff(now, 48), parse);
    assert IsRecent(a, Cutoff(now, 96), parse);
  }
}
