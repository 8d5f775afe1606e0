/** String helpers that stand for the Python library calls the pipeline uses:
    the `in` substring test, `re.sub(r'<[^>]+>', '', s)`, slicing to a maximum
    length, `str.strip()` emptiness, `"\n".join` and `str(n)` for naturals. */
module Text {
  import opened Wrappers

  /** `sub` occurs in `s` starting at index `i`. */
  ghost predicate OccursAt(s: string, sub: string, i: int) {
    0 <= i <= |s| - |sub| && s[i..i + |sub|] == sub
  }

  /** Python's `sub in s`: does `sub` occur as a contiguous block of `s`? */
  function Contains(s: string, sub: string): (r: bool)
    ensures r <==> exists i :: OccursAt(s, sub, i)
    decreases |s|
  {
    if |s| < |sub| then false
    else if s[..|sub|] == sub then
      assert OccursAt(s, sub, 0);
      true
    else
      var rest := Contains(s[1..], sub);
      forall i | 0 <= i
        ensures OccursAt(s[1..], sub, i) <==> OccursAt(s, sub, i + 1)
      {
        OccursShift(s, sub, i);
      }
      assert !OccursAt(s, sub, 0);
      assert forall i :: OccursAt(s, sub, i) ==> i == 0 || OccursAt(s[1..], sub, i - 1);
      rest
  }

  /** An occurrence in `s[1..]` is an occurrence in `s` one position later. */
  lemma OccursShift(s: string, sub: string, i: nat)
    requires |s| >= 1
    ensures OccursAt(s[1..], sub, i) <==> OccursAt(s, sub, i + 1)
  {
    if 0 <= i <= |s| - 1 - |sub| {
      assert s[1..][i..i + |sub|] == s[i + 1..i + 1 + |sub|];
    }
  }

  /** The index of the first `c` in `s`, if any. */
  function IndexOf(s: string, c: char): (r: Option<nat>)
    ensures r.Some? ==> r.value < |s| && s[r.value] == c && c !in s[..r.value]
    ensures r.None? ==> c !in s
  {
    if s == [] then None
    else if s[0] == c then Some(0)
    else
      match IndexOf(s[1..], c)
      case None => None
      case Some(k) =>
        assert s[..k + 1] == [s[0]] + s[1..][..k];
        Some(k + 1)
  }

  /** A complete match of the pattern `<[^>]+>`: an opening `<`, at least one
      character that is not `>`, and the closing `>`. */
  ghost predicate IsTag(t: string) {
    |t| >= 3 && t[0] == '<' && t[|t| - 1] == '>' && '>' !in t[1..|t| - 1]
  }

  /** No block of `s` matches `<[^>]+>`. */
  ghost predicate NoTag(s: string) {
    forall i, j :: 0 <= i < j <= |s| ==> !IsTag(s[i..j])
  }

  /** The length of the tag that `s` starts with, if it starts with one; the
      `[^>]+` part stops at the first `>`, so there is at most one. */
  function TagLength(s: string): (r: Option<nat>)
    ensures r.Some? ==> r.value <= |s| && IsTag(s[..r.value])
    ensures r.None? ==> forall n :: 0 <= n <= |s| ==> !IsTag(s[..n])
  {
    if |s| == 0 || s[0] != '<' then None
    else
      match IndexOf(s[1..], '>')
      case None =>
        assert forall n :: 3 <= n <= |s| ==> s[..n][n - 1] == s[1..][n - 2];
        None
      case Some(k) =>
        if k == 0 then
          assert forall n :: 3 <= n <= |s| ==> s[..n][1..n - 1][0] == '>';
          None
        else
          assert s[..k + 2][1..k + 1] == s[1..][..k];
          Some(k + 2)
  }

  /** `re.sub(r'<[^>]+>', '', s)`: scanning left to right, every tag is
      removed and every other character is kept. */
  function StripTags(s: string): (r: string)
    ensures |r| <= |s|
    decreases |s|
  {
    if s == [] then []
    else
      match TagLength(s)
      case Some(n) => StripTags(s[n..])
      case None => [s[0]] + StripTags(s[1..])
  }

  /** Stripping only removes characters. */
  lemma {:induction false} StripTagsChars(s: string)
    ensures forall c :: c in StripTags(s) ==> c in s
    decreases |s|
  {
    if s != [] {
      match TagLength(s)
      case Some(n) =>
        StripTagsChars(s[n..]);
        assert forall c :: c in s[n..] ==> c in s;
      case None =>
        StripTagsChars(s[1..]);
        assert forall c :: c in s[1..] ==> c in s;
    }
  }

  /** A text without `<` has no tag and is left as it is. */
  lemma {:induction false} StripTagsPlain(s: string)
    requires '<' !in s
    ensures StripTags(s) == s
    decreases |s|
  {
    if s != [] {
      assert s == [s[0]] + s[1..];
      StripTagsPlain(s[1..]);
    }
  }

  /** Text without `<` in front of the rest passes through stripping unchanged. */
  lemma {:induction false} StripTagsPrefix(plain: string, rest: string)
    requires '<' !in plain
    ensures StripTags(plain + rest) == plain + StripTags(rest)
    decreases |plain|
  {
    if plain != [] {
      var s := plain + rest;
      assert s[0] == plain[0] && s[1..] == plain[1..] + rest;
      StripTagsPrefix(plain[1..], rest);
    } else {
      assert plain + rest == rest;
    }
  }

  /** A leading tag is dropped. */
  lemma StripTagsAfterTag(tag: string, rest: string)
    requires IsTag(tag)
    ensures StripTags(tag + rest) == StripTags(rest)
  {
    var s := tag + rest;
    var n := |tag|;
    assert s[..n] == tag;
    match TagLength(s)
    case None =>
      assert false;
    case Some(m) =>
      if m != n {
        TagUnique(s, m, n);
      }
      assert s[n..] == rest;
  }

  /** A string starts with at most one tag: the first `>` closes it. */
  lemma TagUnique(s: string, m: nat, n: nat)
    requires m <= |s| && n <= |s| && IsTag(s[..m]) && IsTag(s[..n])
    ensures m == n
  {
    TagCloses(s, m);
    TagCloses(s, n);
  }

  /** The tag `s[..m]` ends at the first `>` after its opening `<`. */
  lemma TagCloses(s: string, m: nat)
    requires m <= |s| && IsTag(s[..m])
    ensures m >= 3 && s[m - 1] == '>' && forall k :: 1 <= k < m - 1 ==> s[k] != '>'
  {
    assert forall k :: 1 <= k < m - 1 ==> s[k] == s[..m][1..m - 1][k - 1];
  }

  /** Nothing that matches `<[^>]+>` is left after stripping. */
  lemma {:induction false} StripTagsNoTag(s: string)
    ensures NoTag(StripTags(s))
    decreases |s|
  {
    if s != [] {
      match TagLength(s)
      case Some(n) =>
        StripTagsNoTag(s[n..]);
      case None =>
        StripTagsNoTag(s[1..]);
        KeptFirstNoTag(s);
    }
  }

  /** When `s` does not start with a tag, keeping its first character in front
      of the stripped rest creates no tag. */
  lemma KeptFirstNoTag(s: string)
    requires s != [] && TagLength(s).None?
    requires NoTag(StripTags(s[1..]))
    ensures NoTag([s[0]] + StripTags(s[1..]))
  {
    var rest := StripTags(s[1..]);
    var r := [s[0]] + rest;
    forall i, j | 0 <= i < j <= |r|
      ensures !IsTag(r[i..j])
    {
      if i > 0 {
        NoTagShift(s[0], rest, i, j);
      } else if s[0] == '<' && j >= 3 {
        FirstCharNoTag(s, j);
      }
    }
  }

  /** A block that does not touch the first character lies within `rest`. */
  lemma NoTagShift(c: char, rest: string, i: int, j: int)
    requires NoTag(rest) && 0 < i < j <= |rest| + 1
    ensures !IsTag(([c] + rest)[i..j])
  {
    assert ([c] + rest)[i..j] == rest[i - 1..j - 1];
  }

  /** No tag can start at a kept `<`: either no `>` follows it in `s`, and so
      none follows it after stripping, or the stripped rest starts with `>`. */
  lemma FirstCharNoTag(s: string, j: int)
    requires s != [] && TagLength(s).None? && s[0] == '<'
    requires 3 <= j <= 1 + |StripTags(s[1..])|
    ensures !IsTag(([s[0]] + StripTags(s[1..]))[0..j])
  {
    if '>' in s[1..] {
      ClosedAfterOpen(s, j);
    } else {
      UnclosedOpen(s, j);
    }
  }

  /** No `>` after the `<`: none is left after stripping either. */
  lemma UnclosedOpen(s: string, j: int)
    requires s != [] && '>' !in s[1..]
    requires 3 <= j <= 1 + |StripTags(s[1..])|
    ensures !IsTag(([s[0]] + StripTags(s[1..]))[0..j])
  {
    var rest := StripTags(s[1..]);
    StripTagsChars(s[1..]);
    assert ([s[0]] + rest)[0..j][j - 1] == rest[j - 2];
  }

  /** A `>` follows the `<` but no tag starts there: it follows at once, and the
      stripped rest starts with it. */
  lemma ClosedAfterOpen(s: string, j: int)
    requires s != [] && TagLength(s).None? && s[0] == '<' && '>' in s[1..]
    requires 3 <= j <= 1 + |StripTags(s[1..])|
    ensures !IsTag(([s[0]] + StripTags(s[1..]))[0..j])
  {
    assert s[1] == '>' by {
      match IndexOf(s[1..], '>')
      case Some(k) =>
      case None =>
        assert false;
    }
    var t := s[1..];
    assert TagLength(t) == None;
    assert StripTags(t) == [t[0]] + StripTags(t[1..]);
    var r := [s[0]] + StripTags(t);
    assert r[0..j][1..j - 1][0] == '>';
  }

  /** `s[:n] if len(s) > n else s`: the longest prefix of `s` of length at most `n`. */
  function Truncate(s: string, n: nat): (r: string)
    ensures |r| <= n
    ensures r <= s
    ensures |s| <= n ==> r == s
    ensures |s| > n ==> |r| == n
  {
    if |s| > n then s[..n] else s
  }

  /** The characters Python's `str.isspace` accepts, which `str.strip` removes. */
  predicate IsSpace(c: char) {
    c in {' ', '\t', '\n', '\r', '\U{B}', '\U{C}', '\U{1C}', '\U{1D}', '\U{1E}', '\U{1F}',
          '\U{85}', '\U{A0}', '\U{1680}', '\U{2028}', '\U{2029}', '\U{202F}', '\U{205F}', '\U{3000}'}
    || ('\U{2000}' <= c <= '\U{200A}')
  }

  /** `s.strip()` is empty: every character is whitespace. */
  predicate IsBlank(s: string) {
    AllSatisfy(s, IsSpace)
  }

  /** Every character of `s` satisfies `p`. */
  predicate AllSatisfy(s: string, p: char -> bool) {
    forall i :: 0 <= i < |s| ==> p(s[i])
  }

  /** A concatenation satisfies `p` throughout exactly when both parts do. */
  lemma AllSatisfyAppend(a: string, b: string, p: char -> bool)
    ensures AllSatisfy(a + b, p) <==> AllSatisfy(a, p) && AllSatisfy(b, p)
  {
    var ab := a + b;
    assert forall k :: 0 <= k < |a| ==> ab[k] == a[k];
    assert forall k :: 0 <= k < |b| ==> ab[|a| + k] == b[k];
  }

  /** The number of characters satisfying `p` that `s` starts with. */
  function LeadCount(s: string, p: char -> bool): (n: nat)
    ensures n <= |s| && AllSatisfy(s[..n], p) && (n < |s| ==> !p(s[n]))
    decreases |s|
  {
    if s == [] || !p(s[0]) then 0
    else
      var n := LeadCount(s[1..], p);
      assert s[..n + 1] == [s[0]] + s[1..][..n];
      AllSatisfyAppend([s[0]], s[1..][..n], p);
      n + 1
  }

  /** The number of characters satisfying `p` that `s` ends with. */
  function TrailCount(s: string, p: char -> bool): (n: nat)
    ensures n <= |s| && AllSatisfy(s[|s| - n..], p) && (n < |s| ==> !p(s[|s| - n - 1]))
    decreases |s|
  {
    if s == [] || !p(s[|s| - 1]) then 0
    else
      var t := s[..|s| - 1];
      var n := TrailCount(t, p);
      assert s[|s| - (n + 1)..] == t[|t| - n..] + [s[|s| - 1]];
      AllSatisfyAppend(t[|t| - n..], [s[|s| - 1]], p);
      n + 1
  }

  /** `s` with the characters satisfying `p` removed from both ends: nothing is
      left exactly when every character satisfies `p`, and what is left
      neither starts nor ends with such a character. */
  function StripBy(s: string, p: char -> bool): (r: string)
    ensures |r| <= |s|
    ensures r == [] <==> AllSatisfy(s, p)
    ensures r == [] || (!p(r[0]) && !p(r[|r| - 1]))
  {
    var lead, trail := LeadCount(s, p), TrailCount(s, p);
    if lead == |s| then
      assert s[..lead] == s;
      []
    else
      s[lead..|s| - trail]
  }

  /** Python's `s.strip()`: whitespace removed from both ends. `not s.strip()`
      holds exactly for a text made of whitespace only. */
  function Strip(s: string): (r: string)
    ensures |r| <= |s|
    ensures r == [] <==> IsBlank(s)
    ensures r == [] || (!IsSpace(r[0]) && !IsSpace(r[|r| - 1]))
  {
    StripBy(s, IsSpace)
  }

  /** On ASCII, whitespace is the space, `\t`, `\n`, `\v`, `\f`, `\r` and
      the four separators `\x1c`..`\x1f`. */
  lemma IsSpaceAscii(c: char)
    requires c as int < 128
    ensures IsSpace(c) <==> c in " \t\n\r\U{B}\U{C}\U{1C}\U{1D}\U{1E}\U{1F}"
  {
  }

  /** `sep.join(parts)`: it starts with the first part and ends with the last;
      a single part is the whole text, and `JoinAppend` fixes the rest. */
  function Join(parts: seq<string>, sep: string): (r: string)
    ensures |parts| == 0 ==> r == ""
    ensures |parts| == 1 ==> r == parts[0]
    ensures |parts| >= 1 ==> parts[0] <= r
    ensures |parts| >= 1 ==>
      (|parts[|parts| - 1]| <= |r| && r[|r| - |parts[|parts| - 1]|..] == parts[|parts| - 1])
  {
    if |parts| == 0 then ""
    else if |parts| == 1 then parts[0]
    else
      var init := parts[..|parts| - 1];
      var r := Join(init, sep) + sep + parts[|parts| - 1];
      assert init[0] == parts[0];
      assert r[..|Join(init, sep)|] == Join(init, sep);
      r
  }

  /** Joining two non-empty lists of parts is joining each and putting one
      separator between the two texts. */
  lemma {:induction false} JoinAppend(a: seq<string>, b: seq<string>, sep: string)
    requires |a| >= 1 && |b| >= 1
    ensures Join(a + b, sep) == Join(a, sep) + sep + Join(b, sep)
    decreases |b|
  {
    var init := b[..|b| - 1];
    assert (a + b)[..|a + b| - 1] == a + init;
    assert (a + b)[|a + b| - 1] == b[|b| - 1];
    if |b| == 1 {
      assert a + init == a;
    } else {
      JoinAppend(a, init, sep);
    }
  }

  predicate IsDigit(c: char) {
    '0' <= c <= '9'
  }

  /** The decimal digit for `d`. */
  function DigitChar(d: nat): (c: char)
    requires d < 10
    ensures IsDigit(c) && c as int - '0' as int == d
  {
    ('0' as int + d) as char
  }

  /** `str(n)` for a natural number: its decimal digits, without leading zeros. */
  function NatToString(n: nat): (s: string)
    ensures |s| >= 1 && forall i :: 0 <= i < |s| ==> IsDigit(s[i])
    ensures s[0] == '0' ==> n == 0
    decreases n
  {
    if n < 10 then [DigitChar(n)]
    else NatToString(n / 10) + [DigitChar(n % 10)]
  }

  /** The number a string of decimal digits denotes. */
  function DigitsValue(s: string): nat
    requires forall i :: 0 <= i < |s| ==> IsDigit(s[i])
  {
    if s == [] then 0
    else
      assert IsDigit(s[|s| - 1]);
      DigitsValue(s[..|s| - 1]) * 10 + (s[|s| - 1] as int - '0' as int)
  }

  /** Reading the digits back gives the number that was written. */
  lemma {:induction false} NatToStringRoundTrip(n: nat)
    ensures DigitsValue(NatToString(n)) == n
    decreases n
  {
    var s := NatToString(n);
    if n >= 10 {
      var q, d := n / 10, n % 10;
      NatToStringRoundTrip(q);
      assert s[..|s| - 1] == NatToString(q);
      assert s[|s| - 1] == DigitChar(d);
      assert n == q * 10 + d;
    }
  }
}
