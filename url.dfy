/**
 * Python's `urllib.parse.urlparse` (CPython 3.11/3.12 behaviour), which the
 * server uses to take a pre-authenticated request (PAR) URL apart. Modelled:
 * stripping leading C0 controls and spaces, removing tab/CR/LF, recognising
 * the scheme, the `//netloc` part, the `#fragment`, the `?query` and, for the
 * schemes that use them, the `;params` of the last path segment.
 */
module Url {
  import opened Wrappers
  import opened Text

  datatype ParsedUrl = ParsedUrl(
    scheme: string,
    netloc: string,
    path: string,
    params: string,
    query: string,
    fragment: string)

  /** `urllib.parse.uses_params`: the schemes whose last path segment may carry `;params`. */
  const USES_PARAMS: set<string> := {
    "", "ftp", "hdl", "prospero", "http", "imap", "https", "shttp", "rtsp",
    "rtsps", "rtspu", "sip", "sips", "mms", "sftp", "tel"}

  predicate IsAsciiLetter(c: char) {
    'a' <= c <= 'z' || 'A' <= c <= 'Z'
  }

  /** `urllib.parse.scheme_chars`: letters, digits, `+`, `-` and `.`. */
  predicate IsSchemeChar(c: char) {
    IsAsciiLetter(c) || IsDigit(c) || c == '+' || c == '-' || c == '.'
  }

  /** The characters urlsplit deletes wherever they occur. */
  predicate IsUnsafe(c: char) {
    c == '\t' || c == '\r' || c == '\n'
  }

  predicate Excludes(s: string, cs: set<char>) {
    forall k :: 0 <= k < |s| ==> s[k] !in cs
  }

  predicate NoUnsafe(s: string) {
    forall k :: 0 <= k < |s| ==> !IsUnsafe(s[k])
  }

  /** `url.lstrip(_WHATWG_C0_CONTROL_OR_SPACE)`: drops leading code points 0 to 32. */
  function LStripControls(s: string): (r: string)
    ensures |r| <= |s| && r == s[|s| - |r|..]
    ensures r == [] || r[0] as int > 32
  {
    if |s| > 0 && s[0] as int <= 32 then LStripControls(s[1..]) else s
  }

  /** Deletes every tab, carriage return and line feed. */
  function RemoveUnsafe(s: string): (r: string)
    ensures NoUnsafe(r)
  {
    if |s| == 0 then ""
    else (if IsUnsafe(s[0]) then "" else [s[0]]) + RemoveUnsafe(s[1..])
  }

  lemma {:induction false} RemoveUnsafeKeepsSafe(s: string)
    requires NoUnsafe(s)
    ensures RemoveUnsafe(s) == s
  {
    if |s| > 0 {
      RemoveUnsafeKeepsSafe(s[1..]);
    }
  }

  /** The first index at or after `from` holding one of `cs`, or `|s|` when there is none. */
  function FirstOf(s: string, cs: set<char>, from: nat): (r: nat)
    requires from <= |s|
    ensures from <= r <= |s|
    ensures forall k :: from <= k < r ==> s[k] !in cs
    ensures r < |s| ==> s[r] in cs
    decreases |s| - from
  {
    if from == |s| then from
    else if s[from] in cs then from
    else FirstOf(s, cs, from + 1)
  }

  /** The scheme (lower-cased) and the rest, when `url` starts with a valid scheme and a colon. */
  function SplitScheme(url: string): (string, string) {
    var i := Find(url, ':', 0);
    if i > 0 && IsAsciiLetter(url[0]) && forall k :: 0 <= k < i ==> IsSchemeChar(url[k]) then
      (LowerAscii(url[..i]), url[i + 1..])
    else
      ("", url)
  }

  /** `urllib.parse._splitnetloc(url, 2)` on a URL that starts with `//`: the netloc and what follows it. */
  function SplitNetloc(rest: string): (r: (string, string))
    requires StartsWith(rest, "//")
    ensures Excludes(r.0, {'/', '?', '#'})
    ensures rest == "//" + r.0 + r.1
    ensures r.1 == "" || r.1[0] in {'/', '?', '#'}
  {
    var d := FirstOf(rest, {'/', '?', '#'}, 2);
    assert rest == rest[..2] + rest[2..d] + rest[d..];
    (rest[2..d], rest[d..])
  }

  /** `url.split('#', 1)` when `'#' in url`: the part before the first `#` and the fragment. */
  function SplitAt(s: string, mark: char): (r: (string, string))
    ensures mark !in r.0
    ensures |r.0| <= |s| && r.0 == s[..|r.0|]
    ensures mark in s ==> s == r.0 + [mark] + r.1
    ensures mark !in s ==> r == (s, "")
  {
    var i := Find(s, mark, 0);
    if i >= 0 then
      var pre, post := s[..i], s[i + 1..];
      assert s == pre + [mark] + post;
      assert forall k :: 0 <= k < |pre| ==> pre[k] == s[k];
      (pre, post)
    else
      (s, "")
  }

  /** `urllib.parse.urlsplit`: scheme, netloc, path, query and fragment. */
  function UrlSplit(url: string): (r: ParsedUrl)
    ensures r.params == ""
    ensures Excludes(r.netloc, {'/', '?', '#'})
    ensures '?' !in r.path && '#' !in r.path
  {
    var u := RemoveUnsafe(LStripControls(url));
    var schemeSplit := SplitScheme(u);
    var netlocSplit := if StartsWith(schemeSplit.1, "//") then SplitNetloc(schemeSplit.1) else ("", schemeSplit.1);
    var hashSplit := SplitAt(netlocSplit.1, '#');
    var querySplit := SplitAt(hashSplit.0, '?');
    assert forall k :: 0 <= k < |querySplit.0| ==> querySplit.0[k] == hashSplit.0[k];
    ParsedUrl(schemeSplit.0, netlocSplit.0, querySplit.0, "", querySplit.1, hashSplit.1)
  }

  /** `urllib.parse._splitparams`: cuts `;params` off the last path segment. */
  function SplitParams(path: string): (r: (string, string))
    requires ';' in path
    ensures forall c :: c in r.0 ==> c in path
  {
    if '/' in path then
      var i := Find(path, ';', RFind(path, '/'));
      if i < 0 then (path, "") else (path[..i], path[i + 1..])
    else
      var i := Find(path, ';', 0);
      (path[..i], path[i + 1..])
  }

  /** `urllib.parse.urlparse`: urlsplit, then `;params` for the schemes in USES_PARAMS. */
  function UrlParse(url: string): (r: ParsedUrl)
    ensures Excludes(r.netloc, {'/', '?', '#'})
    ensures '?' !in r.path && '#' !in r.path
  {
    var s := UrlSplit(url);
    if s.scheme in USES_PARAMS && ';' in s.path then
      var cut := SplitParams(s.path);
      s.(path := cut.0, params := cut.1)
    else
      s
  }

  // ---------------------------------------------------------------------------
  // Parsing a URL assembled from well-formed parts gives the parts back
  // ---------------------------------------------------------------------------

  predicate ValidScheme(s: string) {
    |s| > 0 && IsAsciiLetter(s[0]) && forall k :: 0 <= k < |s| ==> IsSchemeChar(s[k])
  }

  /** A path that parses back as itself: rooted (or empty), with no `;` after its last `/`. */
  predicate PlainPath(path: string) {
    && (path == "" || path[0] == '/')
    && '?' !in path && '#' !in path
    && NoUnsafe(path)
    && forall k :: RFind(path, '/') < k < |path| ==> path[k] != ';'
  }

  function Suffix(mark: char, part: Option<string>): string {
    if part.Some? then [mark] + part.value else ""
  }

  /** `scheme://netloc path [?query] [#fragment]`. */
  function Compose(scheme: string, netloc: string, path: string,
                   query: Option<string>, fragment: Option<string>): string
  {
    scheme + ":" + ("//" + netloc + (path + Suffix('?', query) + Suffix('#', fragment)))
  }

  predicate WellFormedParts(scheme: string, netloc: string, path: string,
                            query: Option<string>, fragment: Option<string>)
  {
    && ValidScheme(scheme)
    && Excludes(netloc, {'/', '?', '#'}) && NoUnsafe(netloc)
    && PlainPath(path)
    && (query.Some? ==> '#' !in query.value && NoUnsafe(query.value))
    && (fragment.Some? ==> NoUnsafe(fragment.value))
  }

  lemma ComposedIsSafe(scheme: string, netloc: string, path: string,
                       query: Option<string>, fragment: Option<string>)
    requires WellFormedParts(scheme, netloc, path, query, fragment)
    ensures NoUnsafe(Compose(scheme, netloc, path, query, fragment))
  {
    var u := Compose(scheme, netloc, path, query, fragment);
    var q := Suffix('?', query);
    var f := Suffix('#', fragment);
    forall k | 0 <= k < |u| ensures !IsUnsafe(u[k]) {
      var a := |scheme| + 3;
      var b := a + |netloc|;
      var c := b + |path|;
      var e := c + |q|;
      if k < |scheme| {
        assert u[k] == scheme[k];
      } else if k < a {
      } else if k < b {
        assert u[k] == netloc[k - a];
      } else if k < c {
        assert u[k] == path[k - b];
      } else if k < e {
        assert u[k] == q[k - c];
        if k > c { assert q[k - c] == query.value[k - c - 1]; }
      } else {
        assert u[k] == f[k - e];
        if k > e { assert f[k - e] == fragment.value[k - e - 1]; }
      }
    }
  }

  /** The split of `//netloc after` is `netloc` when `after` starts at a delimiter. */
  lemma SplitNetlocOf(netloc: string, after: string)
    requires Excludes(netloc, {'/', '?', '#'})
    requires after == "" || after[0] in {'/', '?', '#'}
    ensures StartsWith("//" + netloc + after, "//")
    ensures SplitNetloc("//" + netloc + after) == (netloc, after)
  {
    var rest := "//" + netloc + after;
    assert rest[..2] == "//";
    var d := FirstOf(rest, {'/', '?', '#'}, 2);
    assert forall k :: 2 <= k < 2 + |netloc| ==> rest[k] == netloc[k - 2];
    if 2 + |netloc| < |rest| {
      assert rest[2 + |netloc|] == after[0];
    }
    assert d == 2 + |netloc|;
    assert rest[2..d] == netloc;
    assert rest[d..] == after;
  }

  /** Splitting at the first `mark` of `pre mark post`, with no `mark` in `pre`, gives `pre` and `post`. */
  lemma SplitAtFirst(pre: string, mark: char, post: string)
    requires mark !in pre
    ensures SplitAt(pre + [mark] + post, mark) == (pre, post)
  {
    var s := pre + [mark] + post;
    assert s[|pre|] == mark;
    FindUnique(s, mark, 0, |pre|);
    assert s[..|pre|] == pre;
    assert s[|pre| + 1..] == post;
  }

  lemma SplitAtAbsent(s: string, mark: char)
    requires mark !in s
    ensures SplitAt(s, mark) == (s, "")
  {
    FindUnique(s, mark, 0, -1);
  }

  /** The lower-cased scheme, then the rest after the colon. */
  lemma SplitsAfterScheme(scheme: string, tail: string)
    requires ValidScheme(scheme)
    ensures SplitScheme(scheme + ":" + tail) == (LowerAscii(scheme), tail)
  {
    var u := scheme + ":" + tail;
    assert forall k :: 0 <= k < |scheme| ==> u[k] == scheme[k];
    FindUnique(u, ':', 0, |scheme|);
    assert u[..|scheme|] == scheme;
    assert u[|scheme| + 1..] == tail;
  }

  /** What follows the netloc starts with `/`, `?` or `#`, or is empty. */
  lemma AfterNetlocStartsAtDelimiter(path: string, query: Option<string>, fragment: Option<string>)
    requires path == "" || path[0] == '/'
    ensures var after := path + Suffix('?', query) + Suffix('#', fragment);
            after == "" || after[0] in {'/', '?', '#'}
  {
    var q := Suffix('?', query);
    var f := Suffix('#', fragment);
    var after := path + q + f;
    if |path| > 0 {
      assert after[0] == path[0];
    } else if query.Some? {
      assert after[0] == q[0];
    } else if fragment.Some? {
      assert after[0] == f[0];
    }
  }

  /** Splitting off an optional `mark part` suffix recovers the part. */
  lemma SplitSuffix(pre: string, mark: char, part: Option<string>)
    requires mark !in pre
    ensures SplitAt(pre + Suffix(mark, part), mark) == (pre, part.GetOr(""))
  {
    if part.Some? {
      assert pre + Suffix(mark, part) == pre + [mark] + part.value;
      SplitAtFirst(pre, mark, part.value);
    } else {
      assert pre + Suffix(mark, part) == pre;
      SplitAtAbsent(pre, mark);
    }
  }

  /** urlsplit's result, given the outcome of each of its steps. */
  lemma UrlSplitSteps(u: string, scheme: string, rest: string, netloc: string, after: string,
                      beforeHash: string, fragment: string, path: string, query: string)
    requires RemoveUnsafe(LStripControls(u)) == u
    requires SplitScheme(u) == (scheme, rest)
    requires StartsWith(rest, "//") && SplitNetloc(rest) == (netloc, after)
    requires SplitAt(after, '#') == (beforeHash, fragment)
    requires SplitAt(beforeHash, '?') == (path, query)
    ensures UrlSplit(u) == ParsedUrl(scheme, netloc, path, "", query, fragment)
  {
  }

  lemma ComposedIsStripped(scheme: string, netloc: string, path: string,
                           query: Option<string>, fragment: Option<string>)
    requires WellFormedParts(scheme, netloc, path, query, fragment)
    ensures var u := Compose(scheme, netloc, path, query, fragment);
            RemoveUnsafe(LStripControls(u)) == u
  {
    var u := Compose(scheme, netloc, path, query, fragment);
    ComposedIsSafe(scheme, netloc, path, query, fragment);
    assert LStripControls(u) == u;
    RemoveUnsafeKeepsSafe(u);
  }

  /** urlsplit of `scheme://netloc path ?query #fragment` recovers each part, the scheme lower-cased. */
  lemma SplitComposed(scheme: string, netloc: string, path: string,
                      query: Option<string>, fragment: Option<string>)
    requires WellFormedParts(scheme, netloc, path, query, fragment)
    ensures UrlSplit(Compose(scheme, netloc, path, query, fragment))
            == ParsedUrl(LowerAscii(scheme), netloc, path, "", query.GetOr(""), fragment.GetOr(""))
  {
    var u := Compose(scheme, netloc, path, query, fragment);
    var q := Suffix('?', query);
    var f := Suffix('#', fragment);
    var after := path + q + f;
    ComposedIsStripped(scheme, netloc, path, query, fragment);
    SplitsAfterScheme(scheme, "//" + netloc + after);
    AfterNetlocStartsAtDelimiter(path, query, fragment);
    SplitNetlocOf(netloc, after);
    assert '#' !in path + q;
    SplitSuffix(path + q, '#', fragment);
    SplitSuffix(path, '?', query);
    UrlSplitSteps(u, LowerAscii(scheme), "//" + netloc + after, netloc, after,
                  path + q, fragment.GetOr(""), path, query.GetOr(""));
  }

  /** A plain path has no parameters to cut off. */
  lemma PlainPathKeepsParams(path: string)
    requires PlainPath(path) && ';' in path
    ensures SplitParams(path) == (path, "")
  {
    var j := RFind(path, '/');
    assert path[0] == '/';
    FindUnique(path, ';', j, -1);
  }

  /** urlparse is urlsplit when the path has no `;`. */
  lemma ParseWithoutParams(url: string)
    requires ';' !in UrlSplit(url).path
    ensures UrlParse(url) == UrlSplit(url)
  {
  }

  /** urlparse is urlsplit when the `;` in the path starts no parameters. */
  lemma ParseWithEmptyParams(url: string)
    requires ';' in UrlSplit(url).path && SplitParams(UrlSplit(url).path) == (UrlSplit(url).path, "")
    ensures UrlParse(url) == UrlSplit(url)
  {
  }

  /** Parsing `scheme://netloc path ?query #fragment` recovers each part, the scheme lower-cased. */
  lemma ParseComposed(scheme: string, netloc: string, path: string,
                      query: Option<string>, fragment: Option<string>)
    requires WellFormedParts(scheme, netloc, path, query, fragment)
    ensures UrlParse(Compose(scheme, netloc, path, query, fragment))
            == ParsedUrl(LowerAscii(scheme), netloc, path, "", query.GetOr(""), fragment.GetOr(""))
  {
    var u := Compose(scheme, netloc, path, query, fragment);
    SplitComposed(scheme, netloc, path, query, fragment);
    if ';' in path {
      PlainPathKeepsParams(path);
      ParseWithEmptyParams(u);
    } else {
      ParseWithoutParams(u);
    }
  }
}
