/** The part of Go's `net/url` that joinURL relies on: `Parse` splits a
    base URL into scheme, authority, path, query and fragment (rejecting the
    inputs url.Parse rejects on its own terms: control characters, a colon
    where the scheme should start, a colon in a relative first segment),
    `Render` is `URL.String`, and `JoinUrl` is joinURL itself. Percent
    escaping, user info and host validation are not modelled. */
module Urls {
  import opened Common
  import Paths

  /** `url.URL`, without `User` and `RawPath`. */
  datatype Url = Url(
    scheme: string,
    opaquePart: string,
    host: string,
    omitHost: bool,
    path: string,
    forceQuery: bool,
    rawQuery: string,
    fragment: string)

  /** The ways `url.Parse` can refuse a base URL in this model. */
  datatype UrlError = ControlCharacter | MissingScheme | ColonInFirstSegment

  /** `strings.Cut`: the text before and after the first `sep`, and
      whether there was one. */
  datatype Cut = Cut(before: string, after: string, found: bool)

  predicate IsControl(c: char)
  {
    c < ' ' || c as int == 0x7F
  }

  predicate NoControl(s: string)
  {
    forall c :: c in s ==> !IsControl(c)
  }

  predicate IsLetter(c: char)
  {
    ('a' <= c <= 'z') || ('A' <= c <= 'Z')
  }

  /** Characters allowed in a scheme after its first letter. */
  predicate IsSchemeChar(c: char)
  {
    IsLetter(c) || ('0' <= c <= '9') || c == '+' || c == '-' || c == '.'
  }

  predicate ValidScheme(s: string)
  {
    |s| > 0 && IsLetter(s[0]) && forall i :: 0 <= i < |s| ==> IsSchemeChar(s[i])
  }

  /** `strings.ToLower` restricted to ASCII letters. */
  function Lower(s: string): (r: string)
    ensures |r| == |s|
    ensures forall i :: 0 <= i < |s| ==> r[i] == LowerChar(s[i])
  {
    seq(|s|, i requires 0 <= i < |s| => LowerChar(s[i]))
  }

  function Count(s: string, c: char): nat
  {
    if |s| == 0 then 0 else Count(s[..|s| - 1], c) + (if s[|s| - 1] == c then 1 else 0)
  }

  function CutAt(s: string, sep: char): (r: Cut)
    ensures r.found <==> sep in s
    ensures !r.found ==> r.before == s && r.after == ""
    ensures r.found ==> s == r.before + [sep] + r.after && sep !in r.before
  {
    if |s| == 0 then Cut(s, "", false)
    else if s[0] == sep then Cut("", s[1..], true)
    else
      var c := CutAt(s[1..], sep);
      assert s == [s[0]] + s[1..];
      Cut([s[0]] + c.before, c.after, c.found)
  }

  /** `getScheme`: scans letters (and, after the first, digits, '+', '-',
      '.') up to a ':'. Any other character, or reaching the end, means the
      URL has no scheme; a ':' in first position is an error. */
  function GetScheme(s: string, i: nat): Result<(string, string), UrlError>
    requires i <= |s|
    decreases |s| - i
  {
    if i == |s| then Success(("", s))
    else if IsLetter(s[i]) then GetScheme(s, i + 1)
    else if IsSchemeChar(s[i]) then
      if i == 0 then Success(("", s)) else GetScheme(s, i + 1)
    else if s[i] == ':' then
      if i == 0 then Failure(MissingScheme) else Success((s[..i], s[i + 1..]))
    else Success(("", s))
  }

  /** Splits off the query: a single trailing '?' forces an empty query,
      otherwise everything after the first '?' is the raw query. */
  function SplitQuery(rest: string): (string, bool, string)
  {
    if |rest| > 0 && rest[|rest| - 1] == '?' && Count(rest, '?') == 1 then (rest[..|rest| - 1], true, "")
    else var c := CutAt(rest, '?'); (c.before, false, c.after)
  }

  /** `url.Parse`: cut off the fragment, refuse control characters, take
      the scheme, split off the query, then read the hierarchical part. */
  function Parse(raw: string): (r: Result<Url, UrlError>)
    ensures r.Success? ==> r.value.fragment == CutAt(raw, '#').after
    ensures r.Success? ==> Lower(r.value.scheme) == r.value.scheme
    ensures !NoControl(CutAt(raw, '#').before) ==> r == Failure(ControlCharacter)
  {
    var u := CutAt(raw, '#');
    if !NoControl(u.before) then Failure(ControlCharacter)
    else
      var (scheme, rest) :- GetScheme(u.before, 0);
      var (rest', forceQuery, query) := SplitQuery(rest);
      LowerIdempotent(scheme);
      var v :- ParseHierarchy(Lower(scheme), rest');
      Success(v.(forceQuery := forceQuery, rawQuery := query, fragment := u.after))
  }

  /** The part of `url.Parse` after the scheme and query are known: a
      rootless remainder after a scheme is opaque; without a scheme its first
      segment may not hold a ':'; "//" introduces the authority, which runs
      to the next '/'. */
  function ParseHierarchy(scheme: string, rest: string): (r: Result<Url, UrlError>)
    ensures r.Success? ==> r.value.scheme == scheme
  {
    if !("/" <= rest) && scheme != "" then
      Success(Url(scheme, rest, "", false, "", false, "", ""))
    else if !("/" <= rest) && ':' in CutAt(rest, '/').before then
      Failure(ColonInFirstSegment)
    else if (scheme != "" || !("///" <= rest)) && "//" <= rest then
      var authority := CutAt(rest[2..], '/');
      var path := if authority.found then "/" + authority.after else "";
      Success(Url(scheme, "", authority.before, false, path, false, "", ""))
    else
      Success(Url(scheme, "", "", scheme != "" && "/" <= rest, rest, false, "", ""))
  }

  /** `URL.String`: the scheme and ':' first, then the authority or
      opaque part and the path, then '?' and the query, and '#' and the
      fragment last. */
  function Render(u: Url): (r: string)
    ensures u.scheme != "" ==> u.scheme + ":" <= r
    ensures u.fragment != "" ==> |r| > |u.fragment| && r[|r| - |u.fragment| - 1..] == "#" + u.fragment
    ensures u.fragment == "" && (u.forceQuery || u.rawQuery != "") ==>
      |r| > |u.rawQuery| && r[|r| - |u.rawQuery| - 1..] == "?" + u.rawQuery
  {
    var head := if u.scheme != "" then u.scheme + ":" else "";
    var body :=
      if u.opaquePart != "" then u.opaquePart
      else
        var auth :=
          if u.scheme != "" || u.host != "" then
            if u.omitHost && u.host == "" then ""
            else (if u.host != "" || u.path != "" then "//" else "") + u.host
          else "";
        var slash := if u.path != "" && u.path[0] != '/' && u.host != "" then "/" else "";
        var dot := if head + auth + slash == "" && ':' in CutAt(u.path, '/').before then "./" else "";
        auth + slash + dot + u.path;
    var query := if u.forceQuery || u.rawQuery != "" then "?" + u.rawQuery else "";
    var fragment := if u.fragment != "" then "#" + u.fragment else "";
    head + body + query + fragment
  }

  /** joinURL: parse the base, join every segment onto its path in order,
      and render the result. */
  function JoinUrl(base: string, segments: seq<string>): (r: Result<string, UrlError>)
    ensures r.Failure? <==> Parse(base).Failure?
    ensures r.Failure? ==> r.error == Parse(base).error
  {
    var u :- Parse(base);
    Success(Render(u.(path := Paths.JoinAll(u.path, segments))))
  }

  // ---------------------------------------------------------------------
  // Round trip of Render and Parse for absolute URLs

  /** The shape of a URL with a scheme and a host whose text parses back
      unambiguously: no separator of a later part inside an earlier one. */
  ghost predicate AbsoluteUrl(u: Url)
  {
    && ValidScheme(u.scheme) && Lower(u.scheme) == u.scheme
    && u.opaquePart == "" && !u.omitHost && u.host != ""
    && NoControl(u.host) && '/' !in u.host && '?' !in u.host && '#' !in u.host
    && PathText(u.path)
    && NoControl(u.rawQuery) && '#' !in u.rawQuery
    && (u.forceQuery ==> u.rawQuery == "")
  }

  /** A character that may stand in a URL path without ending it. */
  predicate PathChar(c: char)
  {
    !IsControl(c) && c != '?' && c != '#'
  }

  ghost predicate PathText(p: string)
  {
    Paths.Within(p, PathChar)
  }

  /** The path as a reader of the rendered URL sees it: `Render` puts a
      separator between the host and an unrooted path. */
  function RootedPath(p: string): string
  {
    if p != "" && p[0] != '/' then "/" + p else p
  }

  lemma LowerIdempotent(s: string)
    ensures Lower(Lower(s)) == Lower(s)
  {
  }

  lemma {:induction false} CountConcat(a: string, b: string, c: char)
    ensures Count(a + b, c) == Count(a, c) + Count(b, c)
    decreases |b|
  {
    if |b| > 0 {
      assert (a + b)[..|a + b| - 1] == a + b[..|b| - 1];
      assert (a + b)[|a + b| - 1] == b[|b| - 1];
      CountConcat(a, b[..|b| - 1], c);
    } else {
      assert a + b == a;
    }
  }

  lemma {:induction false} CountAbsent(s: string, c: char)
    requires c !in s
    ensures Count(s, c) == 0
    decreases |s|
  {
    if |s| > 0 {
      assert c !in s[..|s| - 1];
      CountAbsent(s[..|s| - 1], c);
    }
  }

  /** `strings.Cut` finds the first separator. */
  lemma {:induction false} CutFirst(a: string, sep: char, b: string)
    requires sep !in a
    ensures CutAt(a + [sep] + b, sep) == Cut(a, b, true)
    decreases |a|
  {
    var s := a + [sep] + b;
    if |a| == 0 {
      assert s == [sep] + b;
    } else {
      assert s[0] == a[0];
      assert s[1..] == a[1..] + [sep] + b;
      CutFirst(a[1..], sep, b);
      assert [a[0]] + a[1..] == a;
    }
  }

  /** A valid scheme followed by ':' is recognised as the scheme. */
  lemma {:induction false} GetSchemeOf(scheme: string, rest: string, i: nat)
    requires ValidScheme(scheme) && i <= |scheme|
    ensures GetScheme(scheme + ":" + rest, i) == Success((scheme, rest))
    decreases |scheme| - i
  {
    var s := scheme + ":" + rest;
    if i == |scheme| {
      assert s[i] == ':';
      assert s[..i] == scheme && s[i + 1..] == rest;
    } else {
      assert s[i] == scheme[i];
      GetSchemeOf(scheme, rest, i + 1);
    }
  }

  lemma ControlFreeConcat(a: string, b: string)
    requires NoControl(a) && NoControl(b)
    ensures NoControl(a + b)
  {
  }

  lemma ValidSchemeControlFree(s: string)
    requires ValidScheme(s)
    ensures NoControl(s) && '#' !in s && ':' !in s && '?' !in s
  {
    forall c | c in s ensures !IsControl(c) && c != '#' && c != ':' && c != '?' {
      var i :| 0 <= i < |s| && s[i] == c;
      assert IsSchemeChar(s[i]);
    }
  }

  /** The query text `Render` writes. */
  function QueryText(u: Url): string
  {
    if u.forceQuery || u.rawQuery != "" then "?" + u.rawQuery else ""
  }

  /** The authority and path `Render` writes for an absolute URL. */
  function AuthorityText(u: Url): string
  {
    "//" + u.host + RootedPath(u.path)
  }

  /** The text of an absolute URL before its fragment. */
  function Prefix(u: Url): string
  {
    u.scheme + ":" + (AuthorityText(u) + QueryText(u))
  }

  lemma RenderAbsolute(u: Url)
    requires AbsoluteUrl(u)
    ensures Render(u) == Prefix(u) + (if u.fragment != "" then "#" + u.fragment else "")
  {
    var slash := if u.path != "" && u.path[0] != '/' then "/" else "";
    assert RootedPath(u.path) == slash + u.path;
    var auth := "//" + u.host;
    Paths.ConcatAssoc(auth, slash, u.path);
    assert auth + slash + "" == auth + slash;
    Paths.ConcatAssoc(u.scheme + ":", AuthorityText(u), QueryText(u));
  }

  lemma PrefixPlain(u: Url)
    requires AbsoluteUrl(u)
    ensures NoControl(Prefix(u)) && '#' !in Prefix(u)
  {
    ValidSchemeControlFree(u.scheme);
    var rp := RootedPath(u.path);
    ControlFreeConcat("/", u.path);
    ControlFreeConcat("//", u.host);
    ControlFreeConcat("//" + u.host, rp);
    ControlFreeConcat("?", u.rawQuery);
    ControlFreeConcat(AuthorityText(u), QueryText(u));
    ControlFreeConcat(u.scheme, ":");
    ControlFreeConcat(u.scheme + ":", AuthorityText(u) + QueryText(u));
  }

  lemma SplitQueryNone(hp: string)
    requires '?' !in hp
    ensures SplitQuery(hp) == (hp, false, "")
  {
  }

  lemma SplitQueryForced(hp: string)
    requires '?' !in hp
    ensures SplitQuery(hp + "?") == (hp, true, "")
  {
    var s := hp + "?";
    CountAbsent(hp, '?');
    CountConcat(hp, "?", '?');
    assert Count("?", '?') == 1;
    assert s[..|s| - 1] == hp;
  }

  lemma SplitQueryRaw(hp: string, q: string)
    requires '?' !in hp && q != ""
    ensures SplitQuery(hp + "?" + q) == (hp, false, q)
  {
    var s := hp + "?" + q;
    CutFirst(hp, '?', q);
    assert hp + ['?'] + q == s;
    assert s[|s| - 1] == q[|q| - 1];
    if q[|q| - 1] == '?' {
      CountTwo(hp, q);
    }
  }

  /** A query ending in '?' after the first '?' makes at least two. */
  lemma CountTwo(hp: string, q: string)
    requires q != "" && q[|q| - 1] == '?'
    ensures Count(hp + "?" + q, '?') >= 2
  {
    CountConcat(hp, "?", '?');
    CountConcat(hp + "?", q, '?');
    assert q[|q| - 1] in q;
    CountPositive(q, '?');
    assert Count("?", '?') == 1 by {
      assert "?"[..0] == "";
    }
  }

  /** After the scheme, the query split recovers the query and leaves the
      authority and path. */
  lemma SplitQueryOf(u: Url, hp: string)
    requires AbsoluteUrl(u) && '?' !in hp
    ensures SplitQuery(hp + QueryText(u)) == (hp, u.forceQuery, u.rawQuery)
  {
    if u.rawQuery != "" {
      assert hp + QueryText(u) == hp + "?" + u.rawQuery;
      SplitQueryRaw(hp, u.rawQuery);
    } else if u.forceQuery {
      SplitQueryForced(hp);
    } else {
      assert hp + QueryText(u) == hp;
      SplitQueryNone(hp);
    }
  }

  /** An authority followed by a rooted (or empty) path is read back as
      that host and path. */
  lemma ParseHierarchyAbsolute(scheme: string, host: string, rp: string)
    requires scheme != "" && '/' !in host
    requires rp == "" || rp[0] == '/'
    ensures ParseHierarchy(scheme, "//" + host + rp) == Success(Url(scheme, "", host, false, rp, false, "", ""))
  {
    var rest := "//" + host + rp;
    assert "/" <= rest && "//" <= rest;
    assert rest[2..] == host + rp;
    if rp == "" {
      assert host + rp == host;
    } else {
      assert host + rp == host + ['/'] + rp[1..];
      CutFirst(host, '/', rp[1..]);
      assert "/" + rp[1..] == rp;
    }
  }

  /** `Parse` read stage by stage: the fragment cut, the scheme, the query
      split and the hierarchical part. */
  lemma ParseStages(raw: string, cut: Cut, scheme: string, rest: string, hier: string,
                    forceQuery: bool, query: string, v: Url)
    requires CutAt(raw, '#') == cut && NoControl(cut.before)
    requires GetScheme(cut.before, 0) == Success((scheme, rest))
    requires SplitQuery(rest) == (hier, forceQuery, query)
    requires ParseHierarchy(Lower(scheme), hier) == Success(v)
    ensures Parse(raw) == Success(v.(forceQuery := forceQuery, rawQuery := query, fragment := cut.after))
  {
  }

  /** Rendering an absolute URL and parsing the text gives the URL back,
      except that an unrooted path is read back with the separator `Render`
      put in front of it. */
  lemma ParseRender(u: Url)
    requires AbsoluteUrl(u)
    ensures Parse(Render(u)) == Success(u.(path := RootedPath(u.path)))
  {
    FragmentCut(u);
    ParseCutPrefix(u, Render(u));
  }

  /** Parsing any text whose fragment cut leaves an absolute URL's prefix
      and fragment; split out of `ParseRender` so that the facts about
      `Render` stay out of the parsing proof. */
  lemma ParseCutPrefix(u: Url, raw: string)
    requires AbsoluteUrl(u)
    requires CutAt(raw, '#') == Cut(Prefix(u), u.fragment, u.fragment != "")
    requires NoControl(Prefix(u))
    ensures Parse(raw) == Success(u.(path := RootedPath(u.path)))
  {
    var cut := Cut(Prefix(u), u.fragment, u.fragment != "");
    var rp := RootedPath(u.path);
    var hp := AuthorityText(u);
    assert '?' !in rp;
    GetSchemeOf(u.scheme, hp + QueryText(u), 0);
    SplitQueryOf(u, hp);
    ParseHierarchyAbsolute(u.scheme, u.host, rp);
    var v := Url(u.scheme, "", u.host, false, rp, false, "", "");
    ParseStages(raw, cut, u.scheme, hp + QueryText(u), hp, u.forceQuery, u.rawQuery, v);
  }

  /** The fragment cut of a rendered absolute URL recovers the fragment. */
  lemma FragmentCut(u: Url)
    requires AbsoluteUrl(u)
    ensures CutAt(Render(u), '#') == Cut(Prefix(u), u.fragment, u.fragment != "")
    ensures NoControl(Prefix(u))
  {
    RenderAbsolute(u);
    PrefixPlain(u);
    var pre := Prefix(u);
    if u.fragment != "" {
      Paths.ConcatAssoc(pre, "#", u.fragment);
      CutFirst(pre, '#', u.fragment);
    } else {
      assert Render(u) == pre;
    }
  }

  // ---------------------------------------------------------------------
  // What a successful parse of an absolute URL yields

  lemma {:induction false} GetSchemeShape(s: string, i: nat)
    requires i <= |s|
    requires forall j :: 0 <= j < i ==> IsSchemeChar(s[j])
    requires i > 0 ==> IsLetter(s[0])
    ensures GetScheme(s, i).Success? ==>
      var (scheme, rest) := GetScheme(s, i).value;
      (scheme == "" && rest == s) || (ValidScheme(scheme) && s == scheme + ":" + rest)
    decreases |s| - i
  {
    if i < |s| {
      if IsLetter(s[i]) || (IsSchemeChar(s[i]) && i > 0) {
        GetSchemeShape(s, i + 1);
      } else if s[i] == ':' && i > 0 {
        assert s == s[..i] + ":" + s[i + 1..];
      }
    }
  }

  lemma ValidSchemeLower(s: string)
    requires ValidScheme(s)
    ensures ValidScheme(Lower(s))
  {
    var l := Lower(s);
    forall i | 0 <= i < |l| ensures IsSchemeChar(l[i]) && (i == 0 ==> IsLetter(l[i])) {
      assert l[i] == LowerChar(s[i]);
    }
  }

  lemma {:induction false} CountPositive(s: string, c: char)
    requires c in s
    ensures Count(s, c) > 0
    decreases |s|
  {
    if s[|s| - 1] != c {
      var i :| 0 <= i < |s| && s[i] == c;
      assert s[..|s| - 1][i] == c;
      CountPositive(s[..|s| - 1], c);
    }
  }

  /** The query split leaves no '?' before the query, takes its parts from
      the text it split, and forces only an empty query. */
  lemma SplitQueryShape(rest: string)
    ensures var (hier, forceQuery, query) := SplitQuery(rest);
      && '?' !in hier
      && (forall c :: c in hier ==> c in rest)
      && (forall c :: c in query ==> c in rest)
      && (forceQuery ==> query == "")
  {
    var (hier, forceQuery, query) := SplitQuery(rest);
    if forceQuery {
      assert rest == hier + "?";
      CountConcat(hier, "?", '?');
      assert Count("?", '?') == 1;
      if '?' in hier {
        CountPositive(hier, '?');
      }
    }
  }

  lemma ParseHierarchyShape(scheme: string, hier: string)
    ensures var r := ParseHierarchy(scheme, hier);
      r.Success? && r.value.host != "" ==>
        && r.value.opaquePart == "" && !r.value.omitHost
        && '/' !in r.value.host
        && (forall c :: c in r.value.host ==> c in hier)
        && (forall c :: c in r.value.path ==> c in hier)
        && r.value.forceQuery == false && r.value.rawQuery == "" && r.value.fragment == ""
  {
    if (scheme != "" || !("///" <= hier)) && "//" <= hier && ("/" <= hier || scheme == "") {
      var rest := hier[2..];
      assert forall c :: c in rest ==> c in hier;
      var authority := CutAt(rest, '/');
      if authority.found {
        assert '/' in rest;
      }
    }
  }

  /** A base that parses with a scheme and a host is an absolute URL in the
      sense of `ParseRender`. */
  lemma ParsedAbsolute(base: string)
    requires Parse(base).Success?
    requires Parse(base).value.scheme != "" && Parse(base).value.host != ""
    ensures AbsoluteUrl(Parse(base).value)
  {
    var u := CutAt(base, '#');
    var s := u.before;
    GetSchemeShape(s, 0);
    var (scheme, rest) := GetScheme(s, 0).value;
    assert forall c :: c in rest ==> c in s;
    assert scheme != "" by {
      LowerEmpty(scheme);
    }
    ValidSchemeLower(scheme);
    SplitQueryShape(rest);
    var (hier, forceQuery, query) := SplitQuery(rest);
    ParseHierarchyShape(Lower(scheme), hier);
    var v := ParseHierarchy(Lower(scheme), hier).value;
    AbsoluteFromParts(s, rest, hier, forceQuery, query, v, Parse(base).value);
  }

  /** The pieces `Parse` assembles an absolute URL from, each drawn from
      the text before the fragment; split out of `ParsedAbsolute` so that
      `Parse` is not unfolded there. */
  lemma AbsoluteFromParts(s: string, rest: string, hier: string, forceQuery: bool, query: string, v: Url, w: Url)
    requires NoControl(s) && '#' !in s
    requires forall c :: c in rest ==> c in s
    requires '?' !in hier && (forall c :: c in hier ==> c in rest)
    requires (forall c :: c in query ==> c in rest) && (forceQuery ==> query == "")
    requires v.host != "" && v.opaquePart == "" && !v.omitHost && '/' !in v.host
    requires (forall c :: c in v.host ==> c in hier) && (forall c :: c in v.path ==> c in hier)
    requires w == v.(forceQuery := forceQuery, rawQuery := query, fragment := w.fragment)
    requires ValidScheme(w.scheme) && Lower(w.scheme) == w.scheme
    ensures AbsoluteUrl(w)
  {
  }

  lemma LowerEmpty(s: string)
    ensures Lower(s) == "" <==> s == ""
  {
  }

  /** The URL joinURL produces reads back as the base URL with only its
      path replaced by the joined path: scheme, host, query and fragment are
      kept. */
  lemma JoinUrlTarget(base: string, segments: seq<string>)
    requires Parse(base).Success?
    requires Parse(base).value.scheme != "" && Parse(base).value.host != ""
    requires forall i :: 0 <= i < |segments| ==> PathText(segments[i])
    ensures JoinUrl(base, segments).Success?
    ensures var u := Parse(base).value;
      Parse(JoinUrl(base, segments).value) == Success(u.(path := RootedPath(Paths.JoinAll(u.path, segments))))
  {
    var u := Parse(base).value;
    var joined := Paths.JoinAll(u.path, segments);
    JoinedAbsolute(base, segments);
    JoinUrlValue(base, segments);
    ParseRender(u.(path := joined));
  }

  lemma JoinedAbsolute(base: string, segments: seq<string>)
    requires Parse(base).Success?
    requires Parse(base).value.scheme != "" && Parse(base).value.host != ""
    requires forall i :: 0 <= i < |segments| ==> PathText(segments[i])
    ensures var u := Parse(base).value; AbsoluteUrl(u.(path := Paths.JoinAll(u.path, segments)))
  {
    var u := Parse(base).value;
    ParsedAbsolute(base);
    Paths.JoinAllChars(u.path, segments, PathChar);
    AbsoluteWithPath(u, Paths.JoinAll(u.path, segments));
  }

  lemma JoinUrlValue(base: string, segments: seq<string>)
    requires Parse(base).Success?
    ensures var u := Parse(base).value; JoinUrl(base, segments) == Success(Render(u.(path := Paths.JoinAll(u.path, segments))))
  {
  }

  /** Replacing the path of an absolute URL by another path text keeps it
      absolute. */
  lemma AbsoluteWithPath(u: Url, p: string)
    requires AbsoluteUrl(u) && PathText(p)
    ensures AbsoluteUrl(u.(path := p))
  {
  }
}
