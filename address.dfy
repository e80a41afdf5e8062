/**
 * Address normalisation, `normalizeAddr` in main.go: a loosely written
 * endpoint becomes an absolute URL with a scheme (https by default) and a
 * path that ends in exactly one '/'.
 *
 * Go's `url.Parse` is modelled by `Parse`, a simplified parser that
 * keeps scheme detection, opaque parts, the authority, and the rejection
 * of control characters, a leading ':', a ':' in a first path segment, a
 * bad port and an unclosed '['.
 * `(*url.URL).String` is modelled by `Render`, which writes the parts as
 * they are.  The two agree with Go's for text without '%', without
 * characters Go refuses in a host, and without characters `String`
 * escapes; percent-decoding, host validation and escaping are left out.
 */
module Address {
  import opened Wrappers
  import opened Text

  /**
   * The parts of a Go `url.URL` that parsing fills in and `String` writes
   * back.  `query` is `Some` exactly when the text held a '?' (Go's
   * `RawQuery` together with `ForceQuery`).
   */
  datatype Url = Url(
    scheme: string,
    opaqueText: string,
    user: Option<string>,
    host: string,
    path: string,
    query: Option<string>,
    fragment: string)

  predicate IsControl(c: char) { c as int < 0x20 || c as int == 0x7f }
  predicate IsLetter(c: char) { IsLowerLetter(c) || IsUpperLetter(c) }
  predicate IsDigit(c: char) { '0' <= c <= '9' }
  predicate IsSchemeChar(c: char) { IsLetter(c) || IsDigit(c) || c == '+' || c == '-' || c == '.' }

  /** `s` holds no control character and none of the delimiters in `stops`. */
  predicate Free(s: string, stops: set<char>)
  {
    forall i | 0 <= i < |s| :: !IsControl(s[i]) && s[i] !in stops
  }

  lemma FreeConcat(a: string, b: string, stops: set<char>)
    requires Free(a, stops) && Free(b, stops)
    ensures Free(a + b, stops)
  {
    assert forall i | 0 <= i < |a + b| :: (a + b)[i] == if i < |a| then a[i] else b[i - |a|];
  }

  lemma FreeSubset(s: string, small: set<char>, big: set<char>)
    requires Free(s, big) && small <= big
    ensures Free(s, small)
  {
  }

  /** What `getScheme` accepts as a scheme: a letter, then letters, digits, '+', '-' or '.'. */
  predicate ValidScheme(s: string)
  {
    |s| > 0 && IsLetter(s[0]) && forall i | 0 <= i < |s| :: IsSchemeChar(s[i])
  }

  /** A scheme as `url.Parse` stores it: valid and lower-cased. */
  predicate LowerScheme(s: string)
  {
    ValidScheme(s) && forall i | 0 <= i < |s| :: !IsUpperLetter(s[i])
  }

  /** Length of the longest prefix of `s` made of scheme characters. */
  function SchemeRun(s: string): (n: nat)
    ensures n <= |s|
    ensures forall k | 0 <= k < n :: IsSchemeChar(s[k])
    ensures n < |s| ==> !IsSchemeChar(s[n])
  {
    if s == [] || !IsSchemeChar(s[0]) then 0 else 1 + SchemeRun(s[1..])
  }

  /** `getScheme`: splits `raw` at the ':' that ends a valid scheme; a leading ':' is an error. */
  function GetScheme(raw: string): (r: Result<(string, string), string>)
    ensures r.Failure? <==> raw != [] && raw[0] == ':'
    ensures r.Success? && r.value.0 == "" ==> r.value.1 == raw
    ensures r.Success? && r.value.0 != "" ==> ValidScheme(r.value.0) && raw == r.value.0 + ":" + r.value.1
  {
    if raw == [] then Success(("", raw))
    else if raw[0] == ':' then Failure("missing protocol scheme")
    else if !IsLetter(raw[0]) then Success(("", raw))
    else
      var n := SchemeRun(raw);
      if n < |raw| && raw[n] == ':' then
        assert raw == raw[..n] + ":" + raw[n + 1..];
        Success((raw[..n], raw[n + 1..]))
      else Success(("", raw))
  }

  /** Text before the first ':' that ends a valid scheme is read back as that scheme. */
  lemma GetSchemeOf(scheme: string, rest: string)
    requires ValidScheme(scheme)
    ensures GetScheme(scheme + ":" + rest) == Success((scheme, rest))
  {
    var raw := scheme + ":" + rest;
    assert raw[|scheme|] == ':';
    assert forall k | 0 <= k < |scheme| :: raw[k] == scheme[k];
    assert raw[..|scheme|] == scheme;
    assert raw[|scheme| + 1..] == rest;
  }

  lemma LowerSchemeOfValid(s: string)
    requires ValidScheme(s)
    ensures LowerScheme(ToLower(s))
  {
  }

  lemma ToLowerOfLower(s: string)
    requires forall i | 0 <= i < |s| :: !IsUpperLetter(s[i])
    ensures ToLower(s) == s
  {
  }

  /** `validOptionalPort`: empty, or ':' followed by decimal digits only. */
  predicate ValidOptionalPort(p: string)
  {
    p == "" || (p[0] == ':' && forall k | 1 <= k < |p| :: IsDigit(p[k]))
  }

  /** `parseHost` without percent-decoding: whatever follows the last ':' (or the closing ']') must be a port. */
  function ParseHost(h: string): (r: Result<string, string>)
    ensures r.Success? ==> r.value == h
  {
    if "[" <= h then
      var i := FindLast(h, ']');
      if i < 0 then Failure("missing ']' in host")
      else if !ValidOptionalPort(h[i + 1..]) then Failure("invalid port \"" + h[i + 1..] + "\" after host")
      else Success(h)
    else
      var i := FindLast(h, ':');
      if i >= 0 && !ValidOptionalPort(h[i..]) then Failure("invalid port \"" + h[i..] + "\" after host")
      else Success(h)
  }

  /** `parseAuthority`: user information is whatever precedes the last '@'. */
  function ParseAuthority(authority: string): (r: Result<(Option<string>, string), string>)
    ensures r.Success? ==> '@' !in r.value.1
    ensures r.Success? && r.value.0.None? ==> r.value.1 == authority
    ensures r.Success? && r.value.0.Some? ==> authority == r.value.0.value + "@" + r.value.1
  {
    var i := FindLast(authority, '@');
    if i < 0 then
      assert authority[i + 1..] == authority;
      match ParseHost(authority)
      case Failure(e) => Failure(e)
      case Success(host) => Success((None, host))
    else
      var user := authority[..i];
      var hostPart := authority[i + 1..];
      assert authority == user + "@" + hostPart;
      match ParseHost(hostPart)
      case Failure(e) => Failure(e)
      case Success(host) => Success((Some(user), host))
  }

  /** What every result of `Parse` satisfies. */
  predicate Parsed(u: Url)
  {
    && (u.scheme == "" || LowerScheme(u.scheme))
    && Free(u.opaqueText, {'#', '?'})
    && Free(u.host, {'#', '?', '/', '@'})
    && Free(u.path, {'#', '?'})
    && (u.user.Some? ==> Free(u.user.value, {'#', '?', '/'}))
    && (u.query.Some? ==> Free(u.query.value, {'#'}))
    && (u.opaqueText != "" ==> u.scheme != "" && u.opaqueText[0] != '/' && u.host == "" && u.path == "" && u.user.None?)
  }

  predicate HasControl(s: string)
  {
    exists i | 0 <= i < |s| :: IsControl(s[i])
  }

  /**
   * A simplified `url.Parse`: the fragment is cut at the first '#', control
   * characters are rejected, the scheme is read and lower-cased, and the
   * rest is parsed by `ParseAfterScheme`.
   */
  function Parse(raw: string): (r: Result<Url, string>)
    ensures r.Success? ==> Parsed(r.value)
  {
    var k := Find(raw, '#');
    var front := raw[..k];
    var fragment := if k < |raw| then raw[k + 1..] else "";
    if HasControl(front) then
      Failure("net/url: invalid control character in URL")
    else
      match GetScheme(front)
      case Failure(e) => Failure(e)
      case Success((sch, afterScheme)) =>
        assert sch != "" ==> LowerScheme(ToLower(sch)) by {
          if sch != "" {
            LowerSchemeOfValid(sch);
          }
        }
        assert Free(afterScheme, {'#'}) by {
          assert forall i | 0 <= i < |afterScheme| :: afterScheme[i] == front[|front| - |afterScheme| + i];
        }
        ParseAfterScheme(ToLower(sch), afterScheme, fragment)
  }

  /**
   * The query is cut at the first '?'; a rootless rest after a scheme is
   * opaque; a relative path whose first segment holds ':' is rejected; "//"
   * introduces an authority.
   */
  function ParseAfterScheme(scheme: string, afterScheme: string, fragment: string): (r: Result<Url, string>)
    requires scheme == "" || LowerScheme(scheme)
    requires Free(afterScheme, {'#'})
    ensures r.Success? ==> Parsed(r.value)
  {
    var q := Find(afterScheme, '?');
    var rest := afterScheme[..q];
    var query := if q < |afterScheme| then Some(afterScheme[q + 1..]) else None;
    if !("/" <= rest) && scheme != "" then
      Success(Url(scheme, rest, None, "", "", query, fragment))
    else if !("/" <= rest) && ':' in rest[..Find(rest, '/')] then
      Failure("first path segment in URL cannot contain colon")
    else if (scheme != "" || !("///" <= rest)) && "//" <= rest then
      ParseWithAuthority(scheme, rest[2..], query, fragment)
    else
      Success(Url(scheme, "", None, "", rest, query, fragment))
  }

  /** After "//": the authority runs to the next '/', the path is what follows. */
  function ParseWithAuthority(scheme: string, tail: string, query: Option<string>, fragment: string): (r: Result<Url, string>)
    requires scheme == "" || LowerScheme(scheme)
    requires Free(tail, {'#', '?'})
    requires query.Some? ==> Free(query.value, {'#'})
    ensures r.Success? ==> Parsed(r.value)
  {
    var j := Find(tail, '/');
    var authority := tail[..j];
    match ParseAuthority(authority)
    case Failure(e) => Failure(e)
    case Success((user, host)) =>
      FreeSlice(tail, 0, j, {'#', '?'});
      FreeSlice(tail, j, |tail|, {'#', '?'});
      AuthorityPartsFree(authority, user, host);
      Success(Url(scheme, "", user, host, tail[j..], query, fragment))
  }

  /** The user and host that `ParseAuthority` splits off an authority without '/' hold no '/' either. */
  lemma AuthorityPartsFree(authority: string, user: Option<string>, host: string)
    requires Free(authority, {'#', '?'}) && '/' !in authority
    requires ParseAuthority(authority) == Success((user, host))
    ensures Free(host, {'#', '?', '/', '@'})
    ensures user.Some? ==> Free(user.value, {'#', '?', '/'})
  {
    if user.Some? {
      assert authority == user.value + "@" + host;
      assert forall i | 0 <= i < |user.value| :: user.value[i] == authority[i];
      assert forall i | 0 <= i < |host| :: host[i] == authority[|user.value| + 1 + i];
    }
  }

  /** `(*url.URL).String`: the parts written back in order, without percent-encoding. */
  function Render(u: Url): string
  {
    RenderHead(u.scheme) + RenderBody(u) + QueryText(u.query) + FragmentText(u.fragment)
  }

  function RenderHead(scheme: string): string
  {
    if scheme != "" then scheme + ":" else ""
  }

  /** The opaque part, or the authority and the path. */
  function RenderBody(u: Url): string
  {
    if u.opaqueText != "" then u.opaqueText else AuthorityText(u) + PathText(u)
  }

  /** "//", user information and host; nothing at all for a relative URL without host or user. */
  function AuthorityText(u: Url): string
  {
    if u.scheme != "" || u.host != "" || u.user.Some? then
      (if u.host != "" || u.path != "" || u.user.Some? then "//" else "") + UserPrefix(u.user) + u.host
    else ""
  }

  /**
   * The path, with a '/' in front when a host precedes a rootless path, and
   * "./" in front when the whole text would otherwise start with a segment
   * holding ':'.
   */
  function PathText(u: Url): string
  {
    var slash := if u.path != "" && u.path[0] != '/' && u.host != "" then "/" else "";
    var dot := if RenderHead(u.scheme) + AuthorityText(u) + slash == "" && ':' in u.path[..Find(u.path, '/')] then "./" else "";
    slash + dot + u.path
  }

  function UserPrefix(user: Option<string>): string
  {
    if user.Some? then user.value + "@" else ""
  }

  function QueryText(query: Option<string>): string
  {
    if query.Some? then "?" + query.value else ""
  }

  function FragmentText(fragment: string): string
  {
    if fragment != "" then "#" + fragment else ""
  }

  /**
   * The four fixes of `normalizeAddr` applied to the parsed URL, in the
   * source's order: default scheme, dotted scheme read as host, empty host
   * taken from the path, path ended by exactly one '/'.
   */
  function NormalizeUrl(u: Url): (v: Url)
    ensures v.scheme == if u.scheme == "" || '.' in u.scheme then "https" else u.scheme
    ensures '.' in u.scheme ==> v.opaqueText == "" && v.host == if u.opaqueText == "" then u.scheme else u.scheme + ":" + u.opaqueText
    ensures '.' !in u.scheme ==> v.opaqueText == u.opaqueText
    ensures '.' !in u.scheme && u.host != "" ==> v.host == u.host
    ensures '.' !in u.scheme && u.host == "" ==> v.host == u.path[..Find(u.path, '/')]
    ensures EndsInOne(v.path, '/')
    ensures TrimRight(v.path, '/') == TrimRight(PathAfterHost(u), '/')
    ensures v.user == u.user && v.query == u.query && v.fragment == u.fragment
  {
    var withScheme := if u.scheme == "" then u.(scheme := "https") else u;
    var withHost :=
      if '.' in withScheme.scheme then
        withScheme.(host := if withScheme.opaqueText != "" then withScheme.scheme + ":" + withScheme.opaqueText else withScheme.scheme,
                    opaqueText := "",
                    scheme := "https")
      else withScheme;
    NoDotInHttps();
    HostFromPathFind(withHost);
    CollapseSlashes(HostFromPath(withHost))
  }

  lemma NoDotInHttps()
    ensures '.' !in "https"
  {
  }

  /**
   * An empty host is the path's first segment.  When the path has a '/',
   * the host, a '/' and the new path spell the old path; when it has none,
   * the whole path is the host and the path becomes "/".
   */
  function HostFromPath(u: Url): (v: Url)
    ensures u.host != "" ==> v == u
    ensures u.host == "" ==> v == u.(host := v.host, path := v.path)
    ensures u.host == "" && '/' in u.path ==> '/' !in v.host && v.host + "/" + v.path == u.path
    ensures u.host == "" && '/' !in u.path ==> v.host == u.path && v.path == "/"
  {
    if u.host == "" then
      var k := Find(u.path, '/');
      if k == |u.path| then
        assert u.path[..k] == u.path;
        u.(host := u.path, path := "/")
      else
        assert u.path == u.path[..k] + "/" + u.path[k + 1..];
        u.(host := u.path[..k], path := u.path[k + 1..])
    else u
  }

  /** The host taken from the path ends at the path's first '/'. */
  lemma HostFromPathFind(u: Url)
    ensures u.host == "" ==> HostFromPath(u).host == u.path[..Find(u.path, '/')]
    ensures u.host == "" ==> HostFromPath(u).path == PathAfterHost(u.(scheme := ""))
  {
    if u.host == "" {
      var v := HostFromPath(u);
      if '/' in u.path {
        FindAt(v.host, '/', v.path);
        assert u.path[..|v.host|] == v.host;
        assert u.path[|v.host| + 1..] == v.path;
      } else {
        FindAbsent(u.path, '/');
        assert u.path[..|u.path|] == u.path;
      }
    }
  }

  /** Trailing slashes collapse to exactly one. */
  function CollapseSlashes(u: Url): (v: Url)
    ensures v == u.(path := v.path)
    ensures EndsInOne(v.path, '/')
    ensures TrimRight(v.path, '/') == TrimRight(u.path, '/')
  {
    TrimRightThenAppend(u.path, '/');
    u.(path := TrimRight(u.path, '/') + "/")
  }

  /** The path left once the host has been settled: the parsed path, or what follows its first segment when that segment became the host. */
  function PathAfterHost(u: Url): string
  {
    if '.' !in u.scheme && u.host == "" then
      var k := Find(u.path, '/');
      if k == |u.path| then "/" else u.path[k + 1..]
    else u.path
  }

  /** `normalizeAddr`: the empty string and unparsable text come back unchanged; anything else is parsed, fixed and written back. */
  function NormalizeAddr(s: string): (r: string)
    ensures s == "" ==> r == ""
    ensures Parse(s).Failure? ==> r == s
  {
    if s == "" then s
    else
      match Parse(s)
      case Failure(_) => s
      case Success(u) => Render(NormalizeUrl(u))
  }

  /** The shape `Render` writes as scheme "://" authority path, which `Parse` reads back. */
  predicate Absolute(v: Url)
  {
    && LowerScheme(v.scheme)
    && v.opaqueText == ""
    && v.host != "" && Free(v.host, {'#', '?', '/', '@'})
    && (v.user.Some? ==> Free(v.user.value, {'#', '?', '/'}))
    && Free(v.path, {'#', '?'})
    && (v.query.Some? ==> Free(v.query.value, {'#'}))
  }

  /** A path as it reads back after a host: `String` puts a '/' in front of a rootless one. */
  function Rooted(p: string): string
  {
    if p == "" || p[0] == '/' then p else "/" + p
  }




  /** What follows "//" when `Render` writes an absolute URL: user, host and rooted path. */
  function AuthorityTail(v: Url): string
  {
    UserPrefix(v.user) + v.host + Rooted(v.path)
  }

  /** What follows the scheme's ':' when `Render` writes an absolute URL. */
  function AfterScheme(v: Url): string
  {
    "//" + AuthorityTail(v) + QueryText(v.query)
  }

  lemma RenderAbsolute(v: Url)
    requires v.scheme != "" && v.opaqueText == "" && v.host != ""
    ensures Render(v) == v.scheme + ":" + AfterScheme(v) + FragmentText(v.fragment)
  {
    assert AuthorityText(v) == "//" + UserPrefix(v.user) + v.host;
    PathTextRooted(v);
    RegroupRender(v.scheme, UserPrefix(v.user), v.host, Rooted(v.path), QueryText(v.query), FragmentText(v.fragment));
  }

  /** After a scheme and a host, the path is written rooted and never gets "./". */
  lemma PathTextRooted(v: Url)
    requires v.scheme != "" && v.host != ""
    ensures PathText(v) == Rooted(v.path)
  {
    var slash := if v.path != "" && v.path[0] != '/' then "/" else "";
    assert |RenderHead(v.scheme) + AuthorityText(v) + slash| > 0;
  }

  lemma RegroupRender(s: string, a: string, h: string, r: string, q: string, f: string)
    ensures (s + ":") + (("//" + a + h) + r) + q + f == s + ":" + ("//" + (a + h + r) + q) + f
  {
  }

  lemma ParseAuthorityOf(user: Option<string>, host: string)
    requires '@' !in host
    ensures ParseHost(host).Failure? ==> ParseAuthority(UserPrefix(user) + host) == Failure(ParseHost(host).error)
    ensures ParseHost(host).Success? ==> ParseAuthority(UserPrefix(user) + host) == Success((user, host))
  {
    if user.Some? {
      FindLastAt(user.value, '@', host);
      var a := UserPrefix(user) + host;
      assert a == user.value + ['@'] + host;
      assert a[..|user.value|] == user.value;
      assert a[|user.value| + 1..] == host;
    } else {
      FindLastAbsent(host, '@');
      assert UserPrefix(user) + host == host;
    }
  }

  lemma FreeAuthority(user: Option<string>, host: string)
    requires Free(host, {'#', '?', '/', '@'})
    requires user.Some? ==> Free(user.value, {'#', '?', '/'})
    ensures Free(UserPrefix(user) + host, {'#', '?', '/'})
  {
    FreeSubset(host, {'#', '?', '/'}, {'#', '?', '/', '@'});
    if user.Some? {
      FreeConcat(user.value, "@", {'#', '?', '/'});
      FreeConcat(user.value + "@", host, {'#', '?', '/'});
    }
  }

  lemma ParseWithAuthorityOf(scheme: string, user: Option<string>, host: string, path: string, query: Option<string>, fragment: string)
    requires LowerScheme(scheme)
    requires host != "" && Free(host, {'#', '?', '/', '@'})
    requires user.Some? ==> Free(user.value, {'#', '?', '/'})
    requires Free(path, {'#', '?'}) && (path == "" || path[0] == '/')
    requires query.Some? ==> Free(query.value, {'#'})
    ensures Free(UserPrefix(user) + host + path, {'#', '?'})
    ensures ParseHost(host).Failure? ==> ParseWithAuthority(scheme, UserPrefix(user) + host + path, query, fragment) == Failure(ParseHost(host).error)
    ensures ParseHost(host).Success? ==> ParseWithAuthority(scheme, UserPrefix(user) + host + path, query, fragment) == Success(Url(scheme, "", user, host, path, query, fragment))
  {
    var a := UserPrefix(user) + host;
    FreeAuthority(user, host);
    FreeSubset(a, {'#', '?'}, {'#', '?', '/'});
    FreeConcat(a, path, {'#', '?'});
    var tail := a + path;
    assert '/' !in a;
    FindUpTo(a, '/', path);
    assert tail[..|a|] == a;
    assert tail[|a|..] == path;
    ParseAuthorityOf(user, host);
  }

  lemma FreeExcludes(s: string, stops: set<char>, c: char)
    requires Free(s, stops) && c in stops
    ensures c !in s
  {
  }

  /** The text after "//" of an absolute URL holds no '#' or '?'. */
  lemma FreeAuthorityTail(v: Url)
    requires Absolute(v)
    ensures Free(AuthorityTail(v), {'#', '?'})
  {
    var a := UserPrefix(v.user) + v.host;
    FreeAuthority(v.user, v.host);
    FreeSubset(a, {'#', '?'}, {'#', '?', '/'});
    FreeConcat("/", v.path, {'#', '?'});
    FreeConcat(a, Rooted(v.path), {'#', '?'});
  }

  /** "//", an authority and a path, then the query: `ParseAfterScheme` cuts the query and hands the rest to `ParseWithAuthority`. */
  lemma ParseAfterSchemeAuthority(scheme: string, tail: string, query: Option<string>, fragment: string)
    requires LowerScheme(scheme)
    requires Free(tail, {'#', '?'})
    requires query.Some? ==> Free(query.value, {'#'})
    ensures Free("//" + tail + QueryText(query), {'#'})
    ensures ParseAfterScheme(scheme, "//" + tail + QueryText(query), fragment) == ParseWithAuthority(scheme, tail, query, fragment)
  {
    var rest := "//" + tail;
    var after := rest + QueryText(query);
    FreeConcat("//", tail, {'#', '?'});
    FreeExcludes(rest, {'#', '?'}, '?');
    FindUpTo(rest, '?', QueryText(query));
    FreeSubset(rest, {'#'}, {'#', '?'});
    if query.Some? {
      FreeConcat("?", query.value, {'#'});
    }
    FreeConcat(rest, QueryText(query), {'#'});
    SplitQuery(rest, query);
    DropSlashes(tail);
  }

  lemma SplitQuery(rest: string, query: Option<string>)
    ensures (rest + QueryText(query))[..|rest|] == rest
    ensures query.Some? ==> (rest + QueryText(query))[|rest| + 1..] == query.value
  {
  }

  lemma DropSlashes(tail: string)
    ensures "//" <= "//" + tail && ("//" + tail)[2..] == tail
  {
  }

  /** Cutting the fragment off text whose front holds no '#'. */
  lemma CutFragment(front: string, fragment: string)
    requires Free(front, {'#'})
    ensures var raw := front + FragmentText(fragment);
      && Find(raw, '#') == |front|
      && raw[..|front|] == front
      && (if |front| < |raw| then raw[|front| + 1..] else "") == fragment
      && !HasControl(front)
  {
    var raw := front + FragmentText(fragment);
    FreeExcludes(front, {'#'}, '#');
    FindUpTo(front, '#', FragmentText(fragment));
    assert raw[..|front|] == front;
    if fragment != "" {
      assert raw[|front| + 1..] == fragment;
    }
  }

  /** Text starting with a valid scheme and ':' is handed to `ParseAfterScheme` with the scheme lower-cased and the fragment cut off. */
  lemma ParseWithScheme(scheme: string, after: string, fragment: string)
    requires ValidScheme(scheme) && Free(after, {'#'})
    ensures Parse(scheme + ":" + after + FragmentText(fragment)) == ParseAfterScheme(ToLower(scheme), after, fragment)
  {
    var front := scheme + ":" + after;
    assert Free(scheme, {'#'});
    FreeConcat(scheme, ":", {'#'});
    FreeConcat(scheme + ":", after, {'#'});
    CutFragment(front, fragment);
    GetSchemeOf(scheme, after);
  }

  lemma ParseRenderFront(v: Url)
    requires Absolute(v)
    ensures Parse(Render(v)) == ParseWithAuthority(v.scheme, AuthorityTail(v), v.query, v.fragment)
  {
    RenderAbsolute(v);
    FreeAuthorityTail(v);
    ParseAfterSchemeAuthority(v.scheme, AuthorityTail(v), v.query, v.fragment);
    ParseWithScheme(v.scheme, AfterScheme(v), v.fragment);
    ToLowerOfLower(v.scheme);
  }

  /**
   * Reading back what `Render` wrote: an absolute URL parses to itself, with
   * a rootless path gaining its leading '/', unless its host has a bad port.
   */
  lemma {:induction false} ParseRender(v: Url)
    requires Absolute(v)
    ensures ParseHost(v.host).Failure? ==> Parse(Render(v)) == Failure(ParseHost(v.host).error)
    ensures ParseHost(v.host).Success? ==> Parse(Render(v)) == Success(v.(path := Rooted(v.path)))
  {
    ParseRenderFront(v);
    FreeRooted(v.path);
    ParseWithAuthorityOf(v.scheme, v.user, v.host, Rooted(v.path), v.query, v.fragment);
  }

  lemma FreeRooted(p: string)
    requires Free(p, {'#', '?'})
    ensures Free(Rooted(p), {'#', '?'}) && (Rooted(p) == "" || Rooted(p)[0] == '/')
  {
    FreeConcat("/", p, {'#', '?'});
  }

  lemma FreeSlice(s: string, lo: nat, hi: nat, stops: set<char>)
    requires Free(s, stops) && lo <= hi <= |s|
    ensures Free(s[lo..hi], stops)
  {
    assert forall i | 0 <= i < hi - lo :: s[lo..hi][i] == s[lo + i];
  }

  lemma FreePrefix(s: string, t: string, stops: set<char>)
    requires Free(s, stops) && t <= s
    ensures Free(t, stops)
  {
    FreeSlice(s, 0, |t|, stops);
    assert s[..|t|] == t;
  }

  /** Rooting a path that ends in exactly one '/' keeps that ending, and rooting twice is rooting once. */
  lemma RootedEndsInOne(p: string)
    requires EndsInOne(p, '/')
    ensures EndsInOne(Rooted(p), '/')
    ensures Rooted(Rooted(p)) == Rooted(p)
  {
  }

  /** What every normalised URL satisfies. */
  predicate Normal(w: Url)
  {
    && LowerScheme(w.scheme) && '.' !in w.scheme
    && Free(w.host, {'#', '?'})
    && Free(w.path, {'#', '?'}) && EndsInOne(w.path, '/')
    && (w.user.Some? ==> Free(w.user.value, {'#', '?', '/'}))
    && (w.query.Some? ==> Free(w.query.value, {'#'}))
    && (w.opaqueText != "" ==> Free(w.opaqueText, {'#', '?'}) && w.opaqueText[0] != '/' && w.host == "" && w.user.None?)
  }

  lemma HttpsIsLower()
    ensures LowerScheme("https") && '.' !in "https"
  {
    assert forall i | 0 <= i < 5 :: IsLowerLetter("https"[i]);
  }

  lemma NormalizedHostFree(u: Url)
    requires Parsed(u)
    ensures Free(NormalizeUrl(u).host, {'#', '?'})
  {
    if '.' in u.scheme {
      assert Free(u.scheme, {'#', '?'});
      FreeConcat(u.scheme, ":", {'#', '?'});
      FreeConcat(u.scheme + ":", u.opaqueText, {'#', '?'});
    } else if u.host == "" {
      FreeSlice(u.path, 0, Find(u.path, '/'), {'#', '?'});
    }
  }

  lemma NormalizedPathFree(u: Url)
    requires Free(u.path, {'#', '?'})
    ensures Free(NormalizeUrl(u).path, {'#', '?'})
  {
    PathAfterHostFree(u);
    FreeStem(NormalizeUrl(u).path, PathAfterHost(u));
  }

  /** A path ending in one '/' whose stem is that of a free path is free too. */
  lemma FreeStem(p: string, rest: string)
    requires Free(rest, {'#', '?'})
    requires EndsInOne(p, '/') && TrimRight(p, '/') == TrimRight(rest, '/')
    ensures Free(p, {'#', '?'})
  {
    var t := TrimRight(rest, '/');
    FreePrefix(rest, t, {'#', '?'});
    EndsInOneFixed(p, '/');
    FreeConcat(t, "/", {'#', '?'});
  }

  lemma PathAfterHostFree(u: Url)
    requires Free(u.path, {'#', '?'})
    ensures Free(PathAfterHost(u), {'#', '?'})
  {
    var k := Find(u.path, '/');
    if '.' !in u.scheme && u.host == "" && k < |u.path| {
      FreeSlice(u.path, k + 1, |u.path|, {'#', '?'});
    }
  }

  lemma {:induction false} NormalizeUrlNormal(u: Url)
    requires Parsed(u)
    ensures Normal(NormalizeUrl(u))
  {
    HttpsIsLower();
    NormalizedHostFree(u);
    NormalizedPathFree(u);
  }

  /**
   * The text `Render` writes for an opaque URL reads back as that URL,
   * without the user, host and path that an opaque URL does not write.
   */
  lemma {:induction false} ParseRenderOpaque(v: Url)
    requires LowerScheme(v.scheme)
    requires v.opaqueText != "" && v.opaqueText[0] != '/' && Free(v.opaqueText, {'#', '?'})
    requires v.query.Some? ==> Free(v.query.value, {'#'})
    ensures Parse(Render(v)) == Success(v.(user := None, host := "", path := ""))
  {
    var after := v.opaqueText + QueryText(v.query);
    RenderOpaque(v);
    ParseAfterSchemeOpaque(v.scheme, v.opaqueText, v.query, v.fragment);
    ParseWithScheme(v.scheme, after, v.fragment);
    ToLowerOfLower(v.scheme);
  }

  lemma RenderOpaque(v: Url)
    requires v.scheme != "" && v.opaqueText != ""
    ensures Render(v) == v.scheme + ":" + (v.opaqueText + QueryText(v.query)) + FragmentText(v.fragment)
  {
    RegroupOpaque(v.scheme, v.opaqueText, QueryText(v.query), FragmentText(v.fragment));
  }

  /** After the scheme, a rootless part up to the first '?' is the opaque part and the rest is the query. */
  lemma ParseAfterSchemeOpaque(scheme: string, text: string, query: Option<string>, fragment: string)
    requires LowerScheme(scheme)
    requires text != "" && text[0] != '/' && Free(text, {'#', '?'})
    requires query.Some? ==> Free(query.value, {'#'})
    ensures Free(text + QueryText(query), {'#'})
    ensures ParseAfterScheme(scheme, text + QueryText(query), fragment) == Success(Url(scheme, text, None, "", "", query, fragment))
  {
    FreeExcludes(text, {'#', '?'}, '?');
    FindUpTo(text, '?', QueryText(query));
    FreeSubset(text, {'#'}, {'#', '?'});
    if query.Some? {
      FreeConcat("?", query.value, {'#'});
    }
    FreeConcat(text, QueryText(query), {'#'});
    SplitQuery(text, query);
  }

  lemma RegroupOpaque(s: string, o: string, q: string, f: string)
    ensures (s + ":") + o + q + f == s + ":" + (o + q) + f
  {
  }

  /**
   * A normalised URL comes back unchanged from a second normalisation,
   * provided it is opaque or its host holds neither '/' nor '@' (a host
   * that `Parse` would read back differently).
   */
  predicate Settled(w: Url)
  {
    w.opaqueText != "" || (w.host != "" && '/' !in w.host && '@' !in w.host)
  }

  /** An address whose normalised form is settled, or that normalisation leaves alone. */
  predicate Settles(s: string)
  {
    s != "" && Parse(s).Success? ==> Settled(NormalizeUrl(Parse(s).value))
  }

  lemma {:induction false} NormalizeAbsoluteAgain(w: Url)
    requires Normal(w) && w.opaqueText == "" && w.host != "" && '/' !in w.host && '@' !in w.host
    ensures NormalizeAddr(Render(w)) == Render(w)
  {
    assert Absolute(w);
    ParseRender(w);
    if ParseHost(w.host).Success? {
      var r := w.(path := Rooted(w.path));
      RootedEndsInOne(w.path);
      EndsInOneFixed(r.path, '/');
      var w2 := NormalizeUrl(r);
      assert w2 == r;
      assert Absolute(r);
      RenderAbsolute(w);
      RenderAbsolute(r);
    }
  }

  lemma {:induction false} NormalizeOpaqueAgain(u: Url)
    requires Parsed(u) && NormalizeUrl(u).opaqueText != ""
    ensures Render(NormalizeUrl(u)) != ""
    ensures Parse(Render(NormalizeUrl(u))) == Success(u)
  {
    var w := NormalizeUrl(u);
    NormalizeUrlNormal(u);
    ParseRenderOpaque(w);
    assert u.opaqueText != "";
  }

  /**
   * Normalising twice is normalising once, for every input whose
   * normalised form is `Settled`; unparsable text and the empty string are
   * left alone both times.
   */
  lemma {:induction false} NormalizeIdempotent(s: string)
    requires Settles(s)
    ensures NormalizeAddr(NormalizeAddr(s)) == NormalizeAddr(s)
  {
    if s != "" && Parse(s).Success? {
      var u := Parse(s).value;
      var w := NormalizeUrl(u);
      NormalizeUrlNormal(u);
      if w.opaqueText != "" {
        NormalizeOpaqueAgain(u);
      } else {
        NormalizeAbsoluteAgain(w);
      }
    }
  }

  /** A host without ':' or a leading '[' carries no port to reject. */
  lemma ParseHostPlain(h: string)
    requires ':' !in h && (h == "" || h[0] != '[')
    ensures ParseHost(h) == Success(h)
  {
    FindLastAbsent(h, ':');
  }

  /** A host followed by ':' and decimal digits has a valid port. */
  lemma ParseHostPort(name: string, port: string)
    requires ':' !in port && (name == "" || name[0] != '[')
    requires forall k | 0 <= k < |port| :: IsDigit(port[k])
    ensures ParseHost(name + ":" + port) == Success(name + ":" + port)
  {
    var h := name + ":" + port;
    FindLastAt(name, ':', port);
    assert h == name + [':'] + port;
    assert h[0] != '[';
    var p := h[|name|..];
    assert p == ":" + port;
    assert forall k | 1 <= k < |p| :: p[k] == port[k - 1];
    assert ValidOptionalPort(p);
  }

  lemma ToLowerKeepsDots(s: string)
    ensures ('.' in ToLower(s)) <==> ('.' in s)
  {
    assert forall i | 0 <= i < |s| :: (ToLower(s)[i] == '.') <==> (s[i] == '.');
  }

  /** A bare host name gains the https scheme and a closing '/'. */
  lemma {:induction false} NormalizeBareHost(h: string)
    requires h != "" && Free(h, {'#', '?', '/', ':'})
    ensures NormalizeAddr(h) == "https://" + h + "/"
  {
    ParseBareHost(h);
    FreeExcludes(h, {'#', '?', '/', ':'}, '/');
    NormalizeBare(h);
    RenderSchemeHostPath("https", h, "/");
    RegroupHttps(h, "/");
  }

  /** Text without '#', '?', '/' or ':' has no scheme and no authority: it is all path. */
  lemma ParseBareHost(h: string)
    requires Free(h, {'#', '?', '/', ':'})
    ensures Parse(h) == Success(Url("", "", None, "", h, None, ""))
  {
    FreeExcludes(h, {'#', '?', '/', ':'}, '#');
    FreeExcludes(h, {'#', '?', '/', ':'}, '?');
    FreeExcludes(h, {'#', '?', '/', ':'}, ':');
    FindAbsent(h, '#');
    assert h[..|h|] == h;
    assert !HasControl(h);
    GetSchemeNone(h);
    NoSchemeLower();
    ParseRelative(h);
  }

  lemma NoSchemeLower()
    ensures ToLower("") == ""
  {
  }

  /** Text without ':' has no scheme. */
  lemma GetSchemeNone(h: string)
    requires ':' !in h
    ensures GetScheme(h) == Success(("", h))
  {
    if h != [] && IsLetter(h[0]) {
      var n := SchemeRun(h);
      assert n < |h| ==> h[n] != ':';
    }
  }

  /** Without a scheme, '?', '/' or ':', the whole text is the path. */
  lemma ParseRelative(h: string)
    requires Free(h, {'#', '?', '/', ':'})
    ensures ParseAfterScheme("", h, "") == Success(Url("", "", None, "", h, None, ""))
  {
    FreeExcludes(h, {'#', '?', '/', ':'}, '?');
    FreeExcludes(h, {'#', '?', '/', ':'}, '/');
    FreeExcludes(h, {'#', '?', '/', ':'}, ':');
    FindAbsent(h, '?');
    FindAbsent(h, '/');
    assert h[..|h|] == h;
    assert !("/" <= h) by {
      assert h != [] ==> h[0] != '/';
    }
  }

  /** A lone path without '/' becomes the host, and the path becomes "/". */
  lemma NormalizeBare(h: string)
    requires '/' !in h
    ensures NormalizeUrl(Url("", "", None, "", h, None, "")) == Url("https", "", None, h, "/", None, "")
  {
    FindAbsent(h, '/');
    assert h[..|h|] == h;
    TrimRightUnique("/", '/', "");
  }

  lemma RegroupHttps(h: string, rest: string)
    ensures "https" + "://" + h + rest == "https://" + h + rest
  {
  }

  /** A valid scheme, ':' and a rootless rest parse as an opaque URL. */
  lemma ParseOpaque(scheme: string, rest: string)
    requires ValidScheme(scheme)
    requires rest != "" && rest[0] != '/' && Free(rest, {'#', '?'})
    ensures Parse(scheme + ":" + rest) == Success(Url(ToLower(scheme), rest, None, "", "", None, ""))
  {
    FreeSubset(rest, {'#'}, {'#', '?'});
    ParseWithScheme(scheme, rest, "");
    assert scheme + ":" + rest + FragmentText("") == scheme + ":" + rest;
    FreeExcludes(rest, {'#', '?'}, '?');
    FindAbsent(rest, '?');
    assert rest[..|rest|] == rest;
    LowerSchemeOfValid(scheme);
  }

  /**
   * A host name with a dot, followed by ':' and a port, reads as a scheme
   * with an opaque part; the fix puts it back together as the host.
   */
  lemma {:induction false} NormalizeDottedHostPort(h: string, port: string)
    requires ValidScheme(h) && '.' in h
    requires port != "" && port[0] != '/' && Free(port, {'#', '?'})
    ensures NormalizeAddr(h + ":" + port) == "https://" + ToLower(h) + ":" + port + "/"
  {
    var lower := ToLower(h);
    ParseOpaque(h, port);
    ToLowerKeepsDots(h);
    NormalizeDotted(lower, port);
    RenderSchemeHostPath("https", lower + ":" + port, "/");
    RegroupDotted(lower, port);
  }

  lemma RegroupDotted(lower: string, port: string)
    ensures "https" + "://" + (lower + ":" + port) + "/" == "https://" + lower + ":" + port + "/"
  {
  }

  lemma NormalizeDotted(scheme: string, port: string)
    requires '.' in scheme && port != ""
    ensures NormalizeUrl(Url(scheme, port, None, "", "", None, "")) == Url("https", "", None, scheme + ":" + port, "/", None, "")
  {
    TrimRightUnique("", '/', "");
  }

  /** A scheme without a dot followed by a rootless rest stays opaque: nothing is added. */
  lemma {:induction false} NormalizeKeepsOpaque(scheme: string, rest: string)
    requires ValidScheme(scheme) && '.' !in scheme
    requires rest != "" && rest[0] != '/' && Free(rest, {'#', '?'})
    ensures NormalizeAddr(scheme + ":" + rest) == ToLower(scheme) + ":" + rest
  {
    ParseOpaque(scheme, rest);
    ToLowerKeepsDots(scheme);
    LowerSchemeOfValid(scheme);
    NormalizeOpaque(ToLower(scheme), rest);
  }

  /** A dotless scheme with an opaque part: normalisation writes back the same two pieces. */
  lemma NormalizeOpaque(scheme: string, rest: string)
    requires scheme != "" && '.' !in scheme && rest != ""
    ensures Render(NormalizeUrl(Url(scheme, rest, None, "", "", None, ""))) == scheme + ":" + rest
  {
    var w := NormalizeUrl(Url(scheme, rest, None, "", "", None, ""));
    assert w.scheme == scheme && w.opaqueText == rest && w.query == None && w.fragment == "";
  }

  /**
   * Text that starts with neither a letter, ':' nor '/' has no scheme, and
   * a ':' in its first path segment makes `url.Parse` fail: the text comes
   * back unchanged.
   */
  lemma {:induction false} NormalizeKeepsColonPath(s: string)
    requires s != "" && !IsLetter(s[0]) && s[0] != ':' && s[0] != '/'
    requires Free(s, {'#', '?'}) && ':' in s[..Find(s, '/')]
    ensures Parse(s) == Failure("first path segment in URL cannot contain colon")
    ensures NormalizeAddr(s) == s
  {
    FreeExcludes(s, {'#', '?'}, '#');
    FreeExcludes(s, {'#', '?'}, '?');
    FindAbsent(s, '#');
    FindAbsent(s, '?');
    assert s[..|s|] == s;
    assert !HasControl(s);
    assert ToLower("") == "";
  }

  /** A lower-case scheme without a dot, "//", a host and a rooted path: only the trailing slashes change. */
  lemma {:induction false} NormalizeSchemeHostPath(scheme: string, host: string, path: string)
    requires LowerScheme(scheme) && '.' !in scheme
    requires host != "" && Free(host, {'#', '?', '/', '@'}) && ParseHost(host).Success?
    requires Free(path, {'#', '?'}) && (path == "" || path[0] == '/')
    ensures NormalizeAddr(scheme + "://" + host + path) == scheme + "://" + host + TrimRight(path, '/') + "/"
  {
    var v := Url(scheme, "", None, host, path, None, "");
    ParseSchemeHostPath(scheme, host, path);
    NormalizeWithHost(v);
    RenderSchemeHostPath(scheme, host, TrimRight(path, '/') + "/");
    RegroupPath(scheme + "://" + host, TrimRight(path, '/'));
  }

  /** With a dotless scheme and a host, normalisation only collapses the trailing slashes. */
  lemma NormalizeWithHost(v: Url)
    requires v.scheme != "" && '.' !in v.scheme && v.host != ""
    ensures NormalizeUrl(v) == v.(path := TrimRight(v.path, '/') + "/")
  {
  }

  lemma RegroupPath(front: string, path: string)
    ensures front + (path + "/") == front + path + "/"
  {
  }

  lemma ParseSchemeHostPath(scheme: string, host: string, path: string)
    requires LowerScheme(scheme)
    requires host != "" && Free(host, {'#', '?', '/', '@'}) && ParseHost(host).Success?
    requires Free(path, {'#', '?'}) && (path == "" || path[0] == '/')
    ensures Parse(scheme + "://" + host + path) == Success(Url(scheme, "", None, host, path, None, ""))
  {
    var v := Url(scheme, "", None, host, path, None, "");
    assert Absolute(v);
    ParseRender(v);
    RenderSchemeHostPath(scheme, host, path);
  }

  lemma RenderSchemeHostPath(scheme: string, host: string, path: string)
    requires scheme != "" && host != "" && (path == "" || path[0] == '/')
    ensures Render(Url(scheme, "", None, host, path, None, "")) == scheme + "://" + host + path
  {
  }

  // The cases of `TestNormalizeAddr` (main_test.go:11-59).  Each takes its
  // host as a parameter fixed by `requires`, which keeps the verifier from
  // unfolding `NormalizeAddr` on a whole literal.

  /** "scheme": a bare host gains https and a closing '/'. */
  lemma NormalizeAddrSchemeCase(host: string)
    requires host == "www.example.com"
    ensures NormalizeAddr(host) == "https://" + host + "/"
  {
    NormalizeBareHost(host);
  }

  /** "trailing-slash": the path gains a closing '/'. */
  lemma NormalizeAddrTrailingSlashCase(scheme: string, host: string, path: string)
    requires scheme == "https" && host == "www.example.com" && path == "/foo"
    ensures NormalizeAddr(scheme + "://" + host + path) == scheme + "://" + host + path + "/"
  {
    HttpsIsLower();
    ParseHostPlain(host);
    NormalizeSchemeHostPath(scheme, host, path);
    TrimRightUnique(path, '/', path);
  }

  /** "trailing-slash-many": a run of closing slashes becomes one. */
  lemma NormalizeAddrTrailingSlashManyCase(scheme: string, host: string, path: string, slashes: string)
    requires scheme == "https" && host == "www.example.com" && path == "/foo" && slashes == "///////"
    ensures NormalizeAddr(scheme + "://" + host + path + slashes) == scheme + "://" + host + path + "/"
  {
    HttpsIsLower();
    ExampleHost(host);
    NameHost(host);
    TrailingSlashesFacts(path, slashes);
    NormalizeClosingSlashes(scheme, host, path, slashes);
  }

  lemma TrailingSlashesFacts(path: string, slashes: string)
    requires path == "/foo" && slashes == "///////"
    ensures Free(path, {'#', '?'}) && path != "" && path[0] == '/' && path[|path| - 1] != '/'
    ensures forall k | 0 <= k < |slashes| :: slashes[k] == '/'
  {
  }

  /** A lower-case host name is free of the delimiters and carries no port. */
  lemma NameHost(host: string)
    requires LowerName(host)
    ensures host != "" && Free(host, {'#', '?', '/', '@'}) && ParseHost(host).Success?
  {
    LowerNameFacts(host);
    FreeSubset(host, {'#', '?', '/', '@'}, {'#', '?', '/', '@', ':'});
    FreeExcludes(host, {'#', '?', '/', '@', ':'}, ':');
    ParseHostPlain(host);
  }

  /** A run of '/' after a path that does not end in one collapses to a single '/'. */
  lemma NormalizeClosingSlashes(scheme: string, host: string, path: string, slashes: string)
    requires LowerScheme(scheme) && '.' !in scheme
    requires host != "" && Free(host, {'#', '?', '/', '@'}) && ParseHost(host).Success?
    requires Free(path, {'#', '?'}) && path != "" && path[0] == '/' && path[|path| - 1] != '/'
    requires forall k | 0 <= k < |slashes| :: slashes[k] == '/'
    ensures NormalizeAddr(scheme + "://" + host + path + slashes) == scheme + "://" + host + path + "/"
  {
    var p := path + slashes;
    assert Free(slashes, {'#', '?'});
    FreeConcat(path, slashes, {'#', '?'});
    TrimRightUnique(p, '/', path);
    NormalizeSchemeHostPath(scheme, host, p);
    RegroupTail(scheme + "://" + host, path, slashes);
  }

  lemma RegroupTail(front: string, path: string, slashes: string)
    ensures front + (path + slashes) == front + path + slashes
  {
  }

  /** "no-overwrite-scheme": a scheme that is given is kept. */
  lemma NormalizeAddrKeepsSchemeCase(scheme: string, host: string)
    requires scheme == "ftp" && host == "foo.com"
    ensures NormalizeAddr(scheme + "://" + host + "/") == scheme + "://" + host + "/"
  {
    FtpName(scheme, host);
    NameHost(host);
    NormalizeSchemeHostRoot(scheme, host);
  }

  lemma FtpName(scheme: string, host: string)
    requires scheme == "ftp" && host == "foo.com"
    ensures LowerScheme(scheme) && '.' !in scheme && LowerName(host)
  {
  }

  /** A scheme, "//", a host and the root path are already normal. */
  lemma NormalizeSchemeHostRoot(scheme: string, host: string)
    requires LowerScheme(scheme) && '.' !in scheme
    requires host != "" && Free(host, {'#', '?', '/', '@'}) && ParseHost(host).Success?
    ensures NormalizeAddr(scheme + "://" + host + "/") == scheme + "://" + host + "/"
  {
    NormalizeSchemeHostPath(scheme, host, "/");
    TrimRightUnique("/", '/', "");
    RegroupEmpty(scheme + "://" + host);
  }

  lemma RegroupEmpty(front: string)
    ensures front + "" + "/" == front + "/"
  {
  }

  /** "port": a dotted host and its port, read as scheme and opaque part, are put back together. */
  lemma NormalizeAddrPortCase(host: string, port: string)
    requires host == "www.example.com" && port == "8200"
    ensures NormalizeAddr(host + ":" + port) == "https://" + host + ":" + port + "/"
  {
    HostPortFacts(host, port);
    NormalizeDottedHostPort(host, port);
  }

  lemma HostPortFacts(host: string, port: string)
    requires host == "www.example.com" && port == "8200"
    ensures ValidScheme(host) && '.' in host && ToLower(host) == host
    ensures port != "" && port[0] != '/' && Free(port, {'#', '?'})
    ensures ':' !in port && host[0] != '[' && forall k | 0 <= k < |port| :: IsDigit(port[k])
    ensures Free(host + ":" + port, {'#', '?', '/', '@'})
  {
    ExampleHost(host);
    LowerNameFacts(host);
    ExamplePort(port);
    DigitsFacts(port);
    FreeSubset(port, {'#', '?'}, {'#', '?', '/', '@'});
    FreeHostPort(host, port);
  }

  lemma ExampleHost(host: string)
    requires host == "www.example.com"
    ensures LowerName(host) && '.' in host
  {
    assert host[3] == '.';
  }

  lemma ExamplePort(port: string)
    requires port == "8200"
    ensures port != "" && forall k | 0 <= k < |port| :: IsDigit(port[k])
  {
  }

  /** A character of a lower-case host name: letter, digit, '.' or '-'. */
  predicate IsNameChar(c: char) { IsLowerLetter(c) || IsDigit(c) || c == '.' || c == '-' }

  /** A lower-case host name that starts with a letter. */
  predicate LowerName(s: string)
  {
    |s| > 0 && IsLowerLetter(s[0]) && forall i | 0 <= i < |s| :: IsNameChar(s[i])
  }

  lemma LowerNameFacts(s: string)
    requires LowerName(s)
    ensures ValidScheme(s) && ToLower(s) == s && s[0] != '['
    ensures Free(s, {'#', '?', '/', '@', ':'})
  {
    ToLowerOfLower(s);
  }

  lemma DigitsFacts(p: string)
    requires p != "" && forall k | 0 <= k < |p| :: IsDigit(p[k])
    ensures p[0] != '/' && ':' !in p && Free(p, {'#', '?', '/', '@'})
  {
  }

  lemma FreeHostPort(host: string, port: string)
    requires Free(host, {'#', '?', '/', '@', ':'}) && Free(port, {'#', '?', '/', '@'})
    ensures Free(host + ":" + port, {'#', '?', '/', '@'})
  {
    var stops := {'#', '?', '/', '@'};
    FreeSubset(host, stops, {'#', '?', '/', '@', ':'});
    assert Free(":", stops);
    FreeConcat(host, ":", stops);
    FreeConcat(host + ":", port, stops);
  }

  /** A scheme, "//", a host name and a decimal port: only the closing '/' is added. */
  lemma {:induction false} NormalizeSchemeHostPort(scheme: string, host: string, port: string)
    requires LowerScheme(scheme) && '.' !in scheme
    requires host != "" && host[0] != '[' && Free(host + ":" + port, {'#', '?', '/', '@'})
    requires ':' !in port && forall k | 0 <= k < |port| :: IsDigit(port[k])
    ensures NormalizeAddr(scheme + "://" + host + ":" + port) == scheme + "://" + host + ":" + port + "/"
  {
    ParseHostPort(host, port);
    TrimRightUnique("", '/', "");
    NormalizeSchemeHostPath(scheme, host + ":" + port, "");
    RegroupHostPort(scheme, host, port);
  }

  lemma RegroupHostPort(scheme: string, host: string, port: string)
    ensures scheme + "://" + (host + ":" + port) + "" == scheme + "://" + host + ":" + port
    ensures scheme + "://" + (host + ":" + port) + "" + "/" == scheme + "://" + host + ":" + port + "/"
  {
  }

  /** "port-scheme": a port after an explicit scheme and "//" is part of the host. */
  lemma NormalizeAddrPortSchemeCase(scheme: string, host: string, port: string)
    requires scheme == "http" && host == "www.example.com" && port == "8200"
    ensures NormalizeAddr(scheme + "://" + host + ":" + port) == scheme + "://" + host + ":" + port + "/"
  {
    HostPortFacts(host, port);
    HttpFacts(scheme);
    NormalizeSchemeHostPort(scheme, host, port);
  }

  lemma HttpFacts(scheme: string)
    requires scheme == "http"
    ensures LowerScheme(scheme) && '.' !in scheme
  {
  }

  /** The default Vault address, an https URL of an IP address and port, only gains its closing '/'. */
  lemma NormalizeDefaultVaultAddr(scheme: string, ip: string, port: string)
    requires scheme == "https" && ip == "127.0.0.1" && port == "8200"
    ensures NormalizeAddr(scheme + "://" + ip + ":" + port) == scheme + "://" + ip + ":" + port + "/"
  {
    HttpsIsLower();
    NoDotInHttps();
    assert Free(ip, {'#', '?', '/', '@', ':'});
    ExamplePort(port);
    DigitsFacts(port);
    FreeHostPort(ip, port);
    NormalizeSchemeHostPort(scheme, ip, port);
  }

  /** An IP address and port: digits cannot start a scheme, the parse fails, and the text is kept. */
  lemma NormalizeAddrAddressPortCase(ip: string, port: string)
    requires ip == "127.0.0.1" && port == "8200"
    ensures NormalizeAddr(ip + ":" + port) == ip + ":" + port
  {
    var s := ip + ":" + port;
    FindAbsent(s, '/');
    assert s[..|s|] == s;
    NormalizeKeepsColonPath(s);
  }

  /** A dotless name and port: the name reads as a scheme with an opaque part, and nothing is added. */
  lemma NormalizeAddrNamePortCase(name: string, port: string)
    requires name == "localhost" && port == "8200"
    ensures NormalizeAddr(name + ":" + port) == name + ":" + port
  {
    NamePortFacts(name, port);
    NormalizeKeepsOpaque(name, port);
  }

  lemma NamePortFacts(name: string, port: string)
    requires name == "localhost" && port == "8200"
    ensures ValidScheme(name) && '.' !in name && ToLower(name) == name
    ensures port != "" && port[0] != '/' && Free(port, {'#', '?'})
  {
    LocalName(name);
    LowerNameFacts(name);
    ExamplePort(port);
    DigitsFacts(port);
    FreeSubset(port, {'#', '?'}, {'#', '?', '/', '@'});
  }

  lemma LocalName(name: string)
    requires name == "localhost"
    ensures LowerName(name) && '.' !in name
  {
  }

  // Normalisation is not idempotent on every input: text that starts with
  // "///" keeps an empty host, and the second pass reads one '/' of the path
  // as the end of that empty host.

  lemma ParseTripleSlash(x: string)
    requires Free(x, {'#', '?'})
    ensures Parse("///" + x) == Success(Url("", "", None, "", "///" + x, None, ""))
  {
    var front := "///" + x;
    FreeSubset(x, {'#'}, {'#', '?'});
    FreeConcat("///", x, {'#'});
    CutFragment(front, "");
    assert front + FragmentText("") == front;
    assert GetScheme(front) == Success(("", front));
    assert ToLower("") == "";
    FreeConcat("///", x, {'#', '?'});
    FreeExcludes(front, {'#', '?'}, '?');
    FindAbsent(front, '?');
    assert front[..|front|] == front;
  }

  lemma ParseFourSlashFront(x: string)
    requires Free(x, {'#', '?'})
    ensures Free("////" + x + "/", {'#'})
    ensures Parse("https:" + "////" + x + "/") == ParseAfterScheme("https", "////" + x + "/", "")
  {
    var after := "////" + x + "/";
    FreeConcat("////", x, {'#', '?'});
    FreeConcat("////" + x, "/", {'#', '?'});
    FreeSubset(after, {'#'}, {'#', '?'});
    HttpsIsLower();
    ParseWithScheme("https", after, "");
    ToLowerOfLower("https");
    RegroupFourSlash(x);
  }

  lemma RegroupFourSlash(x: string)
    ensures "https" + ":" + ("////" + x + "/") + FragmentText("") == "https:" + "////" + x + "/"
  {
  }

  lemma ParseFourSlashAuthority(after: string, tail: string)
    requires Free(after, {'#', '?'}) && |after| >= 2 && after[..2] == "//" && tail == after[2..]
    ensures Free(tail, {'#', '?'})
    ensures ParseAfterScheme("https", after, "") == ParseWithAuthority("https", tail, None, "")
  {
    HttpsIsLower();
    FreeSlice(after, 2, |after|, {'#', '?'});
    FreeExcludes(after, {'#', '?'}, '?');
    FindAbsent(after, '?');
    assert after[..|after|] == after;
    assert "//" <= after;
  }

  lemma ParseEmptyAuthority(tail: string)
    requires tail != "" && tail[0] == '/' && Free(tail, {'#', '?'})
    ensures ParseWithAuthority("https", tail, None, "") == Success(Url("https", "", None, "", tail, None, ""))
  {
    HttpsIsLower();
    FindUpTo("", '/', tail);
    assert "" + tail == tail;
    FindLastAbsent("", '@');
    FindLastAbsent("", ':');
    assert ParseAuthority("") == Success((None, ""));
  }

  /** The host step takes the empty first segment of a path starting with '/' and drops that '/'. */
  lemma NormalizeRootedNoHost(scheme: string, path: string, rest: string)
    requires '.' !in scheme
    requires path != "" && path[0] == '/' && rest == path[1..]
    ensures NormalizeUrl(Url(scheme, "", None, "", path, None, ""))
         == Url(if scheme == "" then "https" else scheme, "", None, "", TrimRight(rest, '/') + "/", None, "")
  {
    FindUpTo("", '/', path);
    assert "" + path == path;
  }

  lemma FourSlashPieces(x: string)
    requires x != "" && x[|x| - 1] != '/' && Free(x, {'#', '?'})
    ensures Free("////" + x + "/", {'#', '?'}) && ("////" + x + "/")[..2] == "//" && ("////" + x + "/")[2..] == "//" + x + "/"
    ensures Free("//" + x + "/", {'#', '?'}) && ("//" + x + "/")[1..] == "/" + x + "/"
    ensures TrimRight("/" + x + "/", '/') == "/" + x
  {
    FreeAround("////", x, "/");
    FreeAround("//", x, "/");
    SlashTrim(x);
    SlashSlices(x);
  }

  lemma SlashSlices(x: string)
    ensures ("////" + x + "/")[..2] == "//" && ("////" + x + "/")[2..] == "//" + x + "/"
    ensures ("//" + x + "/")[1..] == "/" + x + "/"
  {
  }

  lemma FreeAround(a: string, x: string, b: string)
    requires Free(a, {'#', '?'}) && Free(x, {'#', '?'}) && Free(b, {'#', '?'})
    ensures Free(a + x + b, {'#', '?'})
  {
    FreeConcat(a, x, {'#', '?'});
    FreeConcat(a + x, b, {'#', '?'});
  }

  lemma SlashTrim(x: string)
    requires x != "" && x[|x| - 1] != '/'
    ensures TrimRight("/" + x + "/", '/') == "/" + x
  {
    var r := "/" + x;
    assert r[|r| - 1] == x[|x| - 1];
    assert r + "/" == "/" + x + "/";
    TrimRightUnique(r + "/", '/', r);
  }

  lemma TripleSlashPieces(x: string)
    requires x != "" && x[|x| - 1] != '/'
    ensures ("///" + x)[1..] == "//" + x
    ensures TrimRight("//" + x, '/') == "//" + x
  {
    DropOneSlash(x);
    var r := "//" + x;
    assert r[|r| - 1] == x[|x| - 1];
    TrimRightUnique(r, '/', r);
  }

  lemma DropOneSlash(x: string)
    ensures ("///" + x)[1..] == "//" + x
  {
  }

  lemma NormalizeTripleSlash(x: string)
    requires x != "" && x[|x| - 1] != '/' && Free(x, {'#', '?'})
    ensures NormalizeAddr("///" + x) == "https:" + "////" + x + "/"
  {
    ParseTripleSlash(x);
    TripleSlashPieces(x);
    NormalizeRootedNoHost("", "///" + x, "//" + x);
    RenderEmptyHost("https", "//" + x + "/");
    RegroupTripleSlash(x);
  }

  lemma RegroupTripleSlash(x: string)
    ensures "https" + ":" + "//" + ("//" + x + "/") == "https:" + "////" + x + "/"
    ensures "https" + ":" + "//" + ("/" + x + "/") == "https:" + "///" + x + "/"
  {
  }

  lemma NormalizeFourSlash(x: string)
    requires x != "" && x[|x| - 1] != '/' && Free(x, {'#', '?'})
    ensures NormalizeAddr("https:" + "////" + x + "/") == "https:" + "///" + x + "/"
  {
    var raw := "https:" + "////" + x + "/";
    var tail := "//" + x + "/";
    FourSlashPieces(x);
    ParseFourSlashFront(x);
    ParseFourSlashAuthority("////" + x + "/", tail);
    ParseEmptyAuthority(tail);
    NormalizeParsedEmptyHost(raw, tail);
    RegroupTripleSlash(x);
  }

  /** Text that parses to an https URL with no host and a rooted path: its first segment (empty) becomes the host. */
  lemma NormalizeParsedEmptyHost(raw: string, path: string)
    requires raw != "" && path != "" && path[0] == '/'
    requires Parse(raw) == Success(Url("https", "", None, "", path, None, ""))
    ensures NormalizeAddr(raw) == "https" + ":" + "//" + (TrimRight(path[1..], '/') + "/")
  {
    NoDotInHttps();
    NormalizeRootedNoHost("https", path, path[1..]);
    RenderEmptyHost("https", TrimRight(path[1..], '/') + "/");
  }

  /**
   * Normalising "///" followed by a segment gives "https:////" and the
   * segment, and normalising that again drops one '/'.
   */
  lemma {:induction false} NormalizeTripleSlashNotIdempotent(x: string)
    requires x != "" && x[|x| - 1] != '/' && Free(x, {'#', '?'})
    ensures NormalizeAddr("///" + x) == "https:" + "////" + x + "/"
    ensures NormalizeAddr(NormalizeAddr("///" + x)) == "https:" + "///" + x + "/"
    ensures NormalizeAddr(NormalizeAddr("///" + x)) != NormalizeAddr("///" + x)
  {
    NormalizeTripleSlash(x);
    NormalizeFourSlash(x);
    assert |"https:" + "///" + x + "/"| != |"https:" + "////" + x + "/"|;
  }

  /** With a scheme and an empty host, `String` still writes "//" before a non-empty path. */
  lemma RenderEmptyHost(scheme: string, path: string)
    requires scheme != "" && path != ""
    ensures Render(Url(scheme, "", None, "", path, None, "")) == scheme + ":" + "//" + path
  {
  }
}
