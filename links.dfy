/**
 The string handling of links: the members and messages parsers' handle
 normalisation (`MembersParserThread._clean_link`, src/main.py:255-264), the
 split of a post link into channel and post id that the comments and
 reactions parsers each carry (src/main.py:344-350 and 406-412), and the
 window's test for a post link, `re.search(r"/\d+(?:\?.*)?$", link)`
 (src/main.py:721).
 */
module Links {
  import opened Text

  const FullPrefix := "https://t.me/"
  const ShortPrefix := "t.me/"

  /** `s.replace("https://t.me/", "").replace("t.me/", "")`. */
  function DropPrefixes(s: string): string
  {
    RemoveAll(RemoveAll(s, FullPrefix), ShortPrefix)
  }

  lemma DropPrefixesAbsent(s: string)
    requires '/' !in s
    ensures DropPrefixes(s) == s
  {
    assert FullPrefix[12] == '/' && ShortPrefix[4] == '/';
    RemoveAllAbsent(s, FullPrefix, '/');
    RemoveAllAbsent(s, ShortPrefix, '/');
  }

  // ---------------------------------------------------------------------------
  // _clean_link
  // ---------------------------------------------------------------------------

  /** The handle the members and messages parsers look up for a link. */
  function CleanLink(link: string): (handle: string)
    ensures '/' !in handle && '?' !in handle
  {
    var s := DropPrefixes(Strip(link));
    var s := if |s| > 0 && s[0] == '@' then s[1..] else s;
    var s := if '/' in s then Split(s, '/')[0] else s;
    if '?' in s then Split(s, '?')[0] else s
  }

  /** A bare handle (no surrounding blanks, no `/`, `?` or leading `@`) is looked up as typed. */
  lemma {:induction false} CleanLinkKeepsBareHandle(link: string)
    requires link != [] ==> !IsSpace(link[0]) && !IsSpace(link[|link| - 1])
    requires '/' !in link && '?' !in link
    requires link == [] || link[0] != '@'
    ensures CleanLink(link) == link
  {
    StripUnchanged(link);
    DropPrefixesAbsent(link);
  }

  /** Every result without a leading `@` or surrounding blanks is a fixed point. */
  lemma CleanLinkFixedPoints(link: string)
    ensures var h := CleanLink(link);
      (h == [] || (h[0] != '@' && !IsSpace(h[0]) && !IsSpace(h[|h| - 1]))) ==> CleanLink(h) == h
  {
    var h := CleanLink(link);
    if h == [] || (h[0] != '@' && !IsSpace(h[0]) && !IsSpace(h[|h| - 1])) {
      CleanLinkKeepsBareHandle(h);
    }
  }

  /** A character Telegram allows in a public username. */
  predicate IsHandleChar(c: char)
  {
    ('a' <= c <= 'z') || ('A' <= c <= 'Z') || ('0' <= c <= '9') || c == '_'
  }

  predicate IsHandle(h: string)
  {
    h != [] && forall k :: 0 <= k < |h| ==> IsHandleChar(h[k])
  }

  /**
   The normalisation is not idempotent: a handle written with two `@` keeps
   one after the first pass and loses it only on the second.
   */
  lemma CleanLinkNotIdempotent(h: string)
    requires IsHandle(h)
    ensures CleanLink("@@" + h) == "@" + h
    ensures CleanLink(CleanLink("@@" + h)) == h
  {
    assert "@@" + h == "@" + ("@" + h);
    CleanLinkDropsOneAt("@" + h);
    CleanLinkDropsOneAt(h);
  }

  lemma CleanLinkDropsOneAt(h: string)
    requires h != [] && !IsSpace(h[|h| - 1]) && '/' !in h && '?' !in h
    ensures CleanLink("@" + h) == h
  {
    var s := "@" + h;
    assert s[1..] == h;
    StripUnchanged(s);
    DropPrefixesAbsent(s);
  }

  /** `rest` keeps whatever `RemoveAll` would take for either prefix. */
  lemma DropPrefixesFull(rest: string)
    requires ':' !in rest && '.' !in rest
    ensures DropPrefixes(FullPrefix + rest) == rest
    ensures DropPrefixes(ShortPrefix + rest) == rest
  {
    assert FullPrefix[5] == ':' && ShortPrefix[1] == '.';
    RemoveAllLeading(FullPrefix, rest);
    RemoveAllAbsent(rest, FullPrefix, ':');
    RemoveAllAbsent(rest, ShortPrefix, '.');
    assert ':' !in ShortPrefix + rest;
    RemoveAllAbsent(ShortPrefix + rest, FullPrefix, ':');
    RemoveAllLeading(ShortPrefix, rest);
  }

  /**
   A full link to a public chat, with a post path and query after the
   username, is looked up by the username alone.
   */
  lemma CleanLinkOfFullLink(h: string, tail: string)
    requires IsHandle(h)
    requires ':' !in tail && '.' !in tail && (tail != [] ==> !IsSpace(tail[|tail| - 1]))
    ensures CleanLink(FullPrefix + h + "/" + tail) == h
  {
    var rest := h + "/" + tail;
    var s := FullPrefix + rest;
    assert s == FullPrefix + h + "/" + tail;
    assert ':' !in h && '.' !in h && '/' !in h && '?' !in h && '@' != h[0];
    assert s[|s| - 1] == (if tail == [] then '/' else tail[|tail| - 1]);
    StripUnchanged(s);
    DropPrefixesFull(rest);
    IndexOfAfter(h, tail, '/');
  }

  // ---------------------------------------------------------------------------
  // The post-link split of the comments and reactions parsers
  // ---------------------------------------------------------------------------

  datatype PostLink = PostLink(channel: string, idText: string)

  /** The link text the split works on: stripped, with both prefixes removed. */
  function PostPath(link: string): string
  {
    DropPrefixes(Strip(link))
  }

  /**
   `parts = link.split("/")`; fewer than two parts is an invalid link;
   otherwise the channel is `parts[0]` (an `@` is kept) and the id text is
   `parts[1].split("?")[0]`.
   */
  function SplitPostLink(link: string): (r: Option<PostLink>)
    ensures r.None? <==> '/' !in PostPath(link)
  {
    var parts := Split(PostPath(link), '/');
    if |parts| < 2 then None else Some(PostLink(parts[0], Split(parts[1], '?')[0]))
  }

  /**
   A valid post link is `channel / rest`: the channel is everything before
   the first `/`, and the id text is what follows it up to the next `/` or
   `?`.
   */
  lemma SplitPostLinkShape(link: string)
    requires SplitPostLink(link).Some?
    ensures var p, path := SplitPostLink(link).value, PostPath(link);
      var rest := path[|p.channel| + 1..];
      && |p.channel| < |path|
      && path == p.channel + "/" + rest
      && '/' !in p.channel
      && p.idText == Before(Before(rest, '/'), '?')
      && '/' !in p.idText && '?' !in p.idText
  {
    SplitPathShape(PostPath(link));
  }

  lemma SplitPathShape(path: string)
    requires '/' in path
    ensures var parts := Split(path, '/');
      var channel, idText := parts[0], Split(parts[1], '?')[0];
      var rest := path[|channel| + 1..];
      && |channel| < |path|
      && path == channel + "/" + rest
      && '/' !in channel
      && idText == Before(Before(rest, '/'), '?')
      && '/' !in idText && '?' !in idText
  {
    var i := IndexOf(path, '/');
    SecondPiece(path, '/');
    assert path == path[..i] + "/" + path[i + 1..];
  }

  /**
   The channel part of a full post link is everything between the prefix and
   the first `/`, with an `@` kept; the post id stops at the query.
   */
  lemma SplitPostLinkOfFullLink(channel: string, id: string, query: string)
    requires channel != [] && !IsSpace(channel[0])
    requires ':' !in channel && '.' !in channel && '/' !in channel
    requires id != [] && AllDigits(id)
    requires ':' !in query && '.' !in query && '/' !in query
    requires query != [] ==> !IsSpace(query[|query| - 1])
    ensures SplitPostLink(FullPrefix + channel + "/" + id + "?" + query) == Some(PostLink(channel, id))
  {
    var piece := id + "?" + query;
    var rest := channel + "/" + piece;
    var s := FullPrefix + rest;
    assert s == FullPrefix + channel + "/" + id + "?" + query by {
      var front := FullPrefix + channel + "/";
      AppendAssoc(FullPrefix, channel + "/", piece);
      AppendAssoc(FullPrefix, channel, "/");
      AppendAssoc(front, id + "?", query);
      AppendAssoc(front, id, "?");
    }
    assert PostPath(s) == rest by {
      assert s[|s| - 1] == (if query == [] then '?' else query[|query| - 1]);
      StripUnchanged(s);
      DigitsHaveNoMarks(id);
      assert ':' !in piece && '.' !in piece;
      DropPrefixesFull(rest);
    }
    var parts := Split(rest, '/');
    assert |parts| >= 2 && parts[0] == channel && parts[1] == piece by {
      DigitsHaveNoMarks(id);
      assert '/' !in piece;
      assert rest[|channel|] == '/';
      IndexOfAfter(channel, piece, '/');
    }
    assert Split(piece, '?')[0] == id by {
      DigitsHaveNoMarks(id);
      IndexOfAfter(id, query, '?');
    }
  }

  // ---------------------------------------------------------------------------
  // The window's post-link test
  // ---------------------------------------------------------------------------

  /** Where `$` matches: the end of `s`, or just before a newline that ends `s`. */
  predicate EndAnchor(s: string, k: nat)
  {
    k == |s| || (k + 1 == |s| && s[k] == '\n')
  }

  /**
   A match of `/\d+(?:\?.*)?$` in `s` (digits taken as ASCII digits): the
   slash at `i`, the digits in `s[i + 1..j]`, the optional `?` and its
   newline-free tail in `s[j..k]`, and `$` at `k`.
   */
  predicate MatchesAt(s: string, i: nat, j: nat, k: nat)
  {
    && i + 1 < j <= k <= |s|
    && s[i] == '/' && AllDigits(s[i + 1..j])
    && (k == j || (s[j] == '?' && '\n' !in s[j + 1..k]))
    && EndAnchor(s, k)
  }

  /** `re.search(r"/\d+(?:\?.*)?$", s) is not None`, as the regular expression defines it. */
  ghost predicate PostLinkPattern(s: string)
  {
    exists i: nat, j: nat, k: nat :: MatchesAt(s, i, j, k)
  }

  /** The number of digits that end `s`. */
  function TrailingDigits(s: string): (n: nat)
    ensures n <= |s| && AllDigits(s[|s| - n..])
    ensures n < |s| ==> !IsDigit(s[|s| - n - 1])
  {
    if |s| > 0 && IsDigit(s[|s| - 1]) then
      var m := TrailingDigits(s[..|s| - 1]);
      DigitsGrow(s, m);
      1 + m
    else 0
  }

  /** A digit after a run of digits lengthens the run. */
  lemma DigitsGrow(s: string, m: nat)
    requires m < |s| && IsDigit(s[|s| - 1]) && AllDigits(s[..|s| - 1][|s| - 1 - m..])
    ensures AllDigits(s[|s| - 1 - m..])
  {
    assert s[|s| - 1 - m..][..m] == s[..|s| - 1][|s| - 1 - m..];
  }

  /** `s` ends with a slash and at least one digit. */
  predicate EndsWithPostId(s: string)
  {
    var n := TrailingDigits(s);
    0 < n < |s| && s[|s| - n - 1] == '/'
  }

  predicate PostIdAt(u: string, i: nat)
  {
    i + 1 < |u| && u[i] == '/' && AllDigits(u[i + 1..])
  }

  function DropFinalNewline(s: string): string
  {
    if |s| > 0 && s[|s| - 1] == '\n' then s[..|s| - 1] else s
  }

  /** Some `?` in `t[..j]` with no newline after it follows a slash and digits. */
  predicate QueryAfterPostId(t: string, j: nat)
    requires j <= |t|
  {
    j > 0 && t[j - 1] != '\n' &&
    ((t[j - 1] == '?' && EndsWithPostId(t[..j - 1])) || QueryAfterPostId(t, j - 1))
  }

  predicate QueryAt(t: string, q: nat, j: nat)
  {
    q < j <= |t| && t[q] == '?' && '\n' !in t[q + 1..j] && EndsWithPostId(t[..q])
  }

  /** The window's post-link test, scanning from the end of the link. */
  predicate IsPostLink(s: string)
  {
    var t := DropFinalNewline(s);
    EndsWithPostId(t) || QueryAfterPostId(t, |t|)
  }

  lemma EndsWithPostIdIff(u: string)
    ensures EndsWithPostId(u) <==> exists i: nat :: PostIdAt(u, i)
  {
    if EndsWithPostId(u) {
      PostIdOfEnd(u);
    }
    if i: nat :| PostIdAt(u, i) {
      EndOfPostId(u, i);
    }
  }

  lemma PostIdOfEnd(u: string)
    requires EndsWithPostId(u)
    ensures PostIdAt(u, |u| - TrailingDigits(u) - 1)
  {
  }

  lemma EndOfPostId(u: string, i: nat)
    requires PostIdAt(u, i)
    ensures EndsWithPostId(u)
  {
    assert u == u[..i + 1] + u[i + 1..];
    TrailingDigitsAfter(u[..i + 1], u[i + 1..]);
  }

  /** A `?` that the scan finds, given as the position where the query starts. */
  lemma {:induction false} QueryWitness(t: string, j: nat) returns (q: nat)
    requires j <= |t| && QueryAfterPostId(t, j)
    ensures QueryAt(t, q, j)
    decreases j
  {
    if t[j - 1] == '?' && EndsWithPostId(t[..j - 1]) {
      q := j - 1;
      assert t[q + 1..j] == [];
    } else {
      q := QueryWitness(t, j - 1);
      assert t[q + 1..j] == t[q + 1..j - 1] + [t[j - 1]];
    }
  }

  /** The scan from `j` backwards finds every query that ends at `j`. */
  lemma {:induction false} QueryScanned(t: string, q: nat, j: nat)
    requires QueryAt(t, q, j)
    ensures QueryAfterPostId(t, j)
    decreases j - q
  {
    if q < j - 1 {
      assert t[q + 1..j] == t[q + 1..j - 1] + [t[j - 1]];
      QueryScanned(t, q, j - 1);
    }
  }

  /** Without a `?` there is no query for the scan to find. */
  lemma {:induction false} NoQueryWithoutMark(t: string, j: nat)
    requires j <= |t| && '?' !in t[..j]
    ensures !QueryAfterPostId(t, j)
    decreases j
  {
    if j > 0 {
      assert t[..j] == t[..j - 1] + [t[j - 1]];
      NoQueryWithoutMark(t, j - 1);
    }
  }

  /** Where `$` can match: only at the end of the link without its final newline. */
  lemma AnchorIsEnd(s: string, i: nat, j: nat, k: nat)
    requires MatchesAt(s, i, j, k)
    ensures k == |DropFinalNewline(s)| && DropFinalNewline(s) == s[..k]
  {
  }

  /** The scan decides exactly the regular expression. */
  lemma IsPostLinkMatchesRegex(s: string)
    ensures IsPostLink(s) <==> PostLinkPattern(s)
  {
    if IsPostLink(s) {
      ScanFindsMatch(s);
    }
    if PostLinkPattern(s) {
      var i: nat, j: nat, k: nat :| MatchesAt(s, i, j, k);
      MatchIsScanned(s, i, j, k);
    }
  }

  lemma ScanFindsMatch(s: string)
    requires IsPostLink(s)
    ensures PostLinkPattern(s)
  {
    var t := DropFinalNewline(s);
    var k := |t|;
    assert t == s[..k] && EndAnchor(s, k);
    if EndsWithPostId(t) {
      EndsWithPostIdIff(t);
      var i: nat :| PostIdAt(t, i);
      assert s[i + 1..k] == t[i + 1..];
      assert MatchesAt(s, i, k, k);
    } else {
      var q := QueryWitness(t, k);
      EndsWithPostIdIff(t[..q]);
      var i: nat :| PostIdAt(t[..q], i);
      assert s[i + 1..q] == t[..q][i + 1..];
      assert s[i] == t[..q][i] == '/';
      assert s[q] == t[q] == '?';
      assert s[q + 1..k] == t[q + 1..k];
      assert i + 1 < q <= k <= |s|;
      assert AllDigits(s[i + 1..q]);
      assert EndAnchor(s, k);
      assert MatchesAt(s, i, q, k);
    }
  }

  lemma MatchIsScanned(s: string, i: nat, j: nat, k: nat)
    requires MatchesAt(s, i, j, k)
    ensures IsPostLink(s)
  {
    var t := DropFinalNewline(s);
    AnchorIsEnd(s, i, j, k);
    if k == j {
      assert t[i + 1..] == s[i + 1..j];
      assert PostIdAt(t, i);
      EndsWithPostIdIff(t);
    } else {
      assert t[..j] == s[..j];
      assert s[..j][i + 1..] == s[i + 1..j];
      assert PostIdAt(t[..j], i);
      EndsWithPostIdIff(t[..j]);
      assert t[j + 1..k] == s[j + 1..k];
      QueryScanned(t, j, k);
    }
  }

  /** The digits that end `u + d`, when `u` does not end in a digit, are `d`. */
  lemma {:induction false} TrailingDigitsAfter(u: string, d: string)
    requires AllDigits(d) && (u != [] ==> !IsDigit(u[|u| - 1]))
    ensures TrailingDigits(u + d) == |d|
    decreases |d|
  {
    if d == [] {
      assert u + d == u;
    } else {
      assert (u + d)[..|u + d| - 1] == u + d[..|d| - 1];
      TrailingDigitsAfter(u, d[..|d| - 1]);
    }
  }

  /**
   The window's test does not promise that the parsers can split the link:
   in `t.me/<digits>` the prefix removal takes the slash the test saw.
   */
  lemma PostLinkTestAdmitsUnsplittable(d: string)
    requires d != [] && AllDigits(d)
    ensures IsPostLink(ShortPrefix + d)
    ensures SplitPostLink(ShortPrefix + d) == None
  {
    var s := ShortPrefix + d;
    assert s[|s| - 1] == d[|d| - 1];
    TrailingDigitsAfter(ShortPrefix, d);
    assert s[|s| - |d| - 1] == '/';
    StripUnchanged(s);
    DigitsHaveNoMarks(d);
    DropPrefixesFull(d);
  }

  /**
   Conversely a link whose last piece is not a number fails the window's
   test although the parsers could split it.
   */
  lemma PostLinkTestRefusesSplittable(channel: string, word: string)
    requires channel != [] && !IsSpace(channel[0])
    requires word != [] && !IsDigit(word[|word| - 1]) && !IsSpace(word[|word| - 1])
    requires word[|word| - 1] != '\n'
    requires ':' !in channel + word && '.' !in channel + word && '?' !in channel + word
    ensures !IsPostLink(channel + "/" + word)
    ensures SplitPostLink(channel + "/" + word).Some?
  {
    var s := channel + "/" + word;
    assert s[|s| - 1] == word[|word| - 1];
    assert DropFinalNewline(s) == s;
    assert TrailingDigits(s) == 0;
    assert '?' !in s by {
      assert forall k :: 0 <= k < |s| ==> s[k] in channel + word || s[k] == '/';
    }
    assert s[..|s|] == s;
    NoQueryWithoutMark(s, |s|);
    StripUnchanged(s);
    assert ':' !in s && '.' !in s by {
      assert forall k :: 0 <= k < |s| ==> s[k] in channel + word || s[k] == '/';
    }
    RemoveAllAbsent(s, FullPrefix, ':');
    assert ShortPrefix[1] == '.';
    RemoveAllAbsent(s, ShortPrefix, '.');
    assert s[|channel|] == '/';
  }
}
