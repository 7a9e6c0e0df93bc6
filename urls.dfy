/** The parts of `urllib.parse` the program relies on: `urlparse`
    (leading C0 controls stripped, tabs and line breaks removed, scheme,
    netloc, path with its parameters, query and fragment) and the look-up
    of one field in `parse_qs` of a query. Shared by the command line and
    the Bilibili provider. */
module Urls {
  import opened Wrappers
  import opened Text
  import opened Ranking

  /** The last `c` in `s`, or -1 (`s.rfind(c)`). */
  function LastIndexOf(s: string, c: char): (r: int)
    ensures -1 <= r < |s|
    ensures r >= 0 ==> s[r] == c
    ensures forall j | r < j < |s| :: s[j] != c
    decreases |s|
  {
    if s == [] then -1 else if s[|s| - 1] == c then |s| - 1 else LastIndexOf(s[..|s| - 1], c)
  }

  /** `s.split(c, 1)` when `c` occurs in `s`, else `s` and an empty rest. */
  function SplitAtFirst(s: string, c: char): (parts: (string, string))
    ensures c !in s ==> parts == (s, "")
    ensures c in s ==> s == parts.0 + [c] + parts.1 && c !in parts.0
  {
    var k := IndexOf(s, c);
    if k == |s| then (s, "") else (s[..k], s[k + 1..])
  }

  /** `_WHATWG_C0_CONTROL_OR_SPACE`: the characters up to U+0020. */
  predicate IsC0OrSpace(c: char) {
    c <= ' '
  }

  /** `_UNSAFE_URL_BYTES_TO_REMOVE`: tab, carriage return and line feed. */
  predicate IsUnsafe(c: char) {
    c == '\t' || c == '\r' || c == '\n'
  }

  function LStripC0(s: string): (r: string)
    ensures |r| <= |s| && r == s[|s| - |r|..]
    ensures r == [] || !IsC0OrSpace(r[0])
  {
    if s != [] && IsC0OrSpace(s[0]) then LStripC0(s[1..]) else s
  }

  /** The string with every tab, carriage return and line feed removed. */
  function RemoveUnsafe(s: string): (r: string)
    ensures |r| <= |s|
    decreases |s|
  {
    if s == [] then [] else (if IsUnsafe(s[0]) then [] else [s[0]]) + RemoveUnsafe(s[1..])
  }

  lemma {:induction false} RemoveUnsafeIdle(s: string)
    requires forall i | 0 <= i < |s| :: !IsUnsafe(s[i])
    ensures RemoveUnsafe(s) == s
    decreases |s|
  {
    if s != [] {
      RemoveUnsafeIdle(s[1..]);
    }
  }

  /** Nothing unsafe is left. */
  lemma {:induction false} RemoveUnsafeClean(s: string)
    ensures forall i | 0 <= i < |RemoveUnsafe(s)| :: !IsUnsafe(RemoveUnsafe(s)[i])
    decreases |s|
  {
    if s != [] {
      RemoveUnsafeClean(s[1..]);
    }
  }

  predicate IsAsciiLetter(c: char) {
    'a' <= c <= 'z' || 'A' <= c <= 'Z'
  }

  /** `scheme_chars` */
  predicate IsSchemeChar(c: char) {
    IsAsciiLetter(c) || IsDigit(c) || c == '+' || c == '-' || c == '.'
  }

  /** The scheme, lowered, and the rest of the URL: there is a scheme when
      the first colon is preceded by an ASCII letter and then scheme
      characters only. */
  function SplitScheme(url: string): (string, string) {
    var i := IndexOf(url, ':');
    if 0 < i < |url| && IsAsciiLetter(url[0]) && (forall j | 0 <= j < i :: IsSchemeChar(url[j])) then
      (Lower(url[..i]), url[i + 1..])
    else
      ("", url)
  }

  /** `_splitnetloc(url, 2)`: the netloc ends at the earliest `/`, `?` or
      `#` after the leading `//`, or at the end. */
  predicate IsNetlocEnd(c: char) {
    c == '/' || c == '?' || c == '#'
  }

  function NetlocEnd(url: string, i: nat): (d: nat)
    requires i <= |url|
    ensures i <= d <= |url| && (d == |url| || IsNetlocEnd(url[d]))
    ensures forall j | i <= j < d :: !IsNetlocEnd(url[j])
    decreases |url| - i
  {
    if i == |url| || IsNetlocEnd(url[i]) then i else NetlocEnd(url, i + 1)
  }

  /** The schemes whose paths may carry `;` parameters (`uses_params`). */
  const UsesParams: seq<string> := ["", "ftp", "hdl", "prospero", "http", "imap", "https", "shttp",
    "rtsp", "rtsps", "rtspu", "sip", "sips", "mms", "sftp", "tel"]

  /** `_splitparams(url)`, for a path holding a `;`: the parameters start
      at the first `;` after the last `/` (none if there is no such `;`),
      or at the first `;` when there is no `/`. */
  function SplitParams(url: string): (parts: (string, string))
    requires ';' in url
    ensures |parts.0| <= |url| && parts.0 == url[..|parts.0|]
  {
    var r := LastIndexOf(url, '/');
    var i := if r >= 0 then r + IndexOf(url[r..], ';') else IndexOf(url, ';');
    if i == |url| then (url, "") else (url[..i], url[i + 1..])
  }

  datatype ParsedUrl = ParsedUrl(scheme: string, netloc: string, path: string, params: string, query: string, fragment: string)

  /** `urlsplit`'s first steps: leading C0 controls and spaces stripped,
      then tabs and line breaks removed. */
  function Sanitize(url: string): string {
    RemoveUnsafe(LStripC0(url))
  }

  /** The netloc and what follows it, when the rest opens with `//`. */
  function SplitNetloc(rest: string): (parts: (string, string))
    ensures '/' !in parts.0 && '?' !in parts.0 && '#' !in parts.0
  {
    if StartsWith(rest, "//") then
      var d := NetlocEnd(rest, 2);
      (rest[2..d], rest[d..])
    else
      ("", rest)
  }

  /** An unmatched square bracket in the netloc, which `urlsplit` rejects. */
  predicate BadBrackets(netloc: string) {
    ('[' in netloc) != (']' in netloc)
  }

  /** Path, parameters, query and fragment of what follows the netloc. */
  function SplitTail(scheme: string, rest: string): (parts: (string, string, string, string))
    ensures '?' !in parts.0 && '#' !in parts.0 && '#' !in parts.2
  {
    var (rest2, fragment) := SplitAtFirst(rest, '#');
    var (path0, query) := SplitAtFirst(rest2, '?');
    assert '#' !in path0 && '#' !in query by {
      if '?' in rest2 {
        assert forall c | c in path0 || c in query :: c in rest2;
      }
    }
    var (path, params) := if scheme in UsesParams && ';' in path0 then SplitParams(path0) else (path0, "");
    assert forall c | c in path :: c in path0;
    (path, params, query, fragment)
  }

  /** `urlparse(url)`, or None where it raises `ValueError` (a netloc with
      an unmatched square bracket): the netloc stops before the first `/`,
      `?` or `#`, the path before the first `?` or `#`, and the query
      before the first `#`. */
  function ParseUrl(raw: string): (r: Option<ParsedUrl>)
    ensures r.Some? ==> !BadBrackets(r.value.netloc)
    ensures r.Some? ==> '/' !in r.value.netloc && '?' !in r.value.netloc && '#' !in r.value.netloc
    ensures r.Some? ==> '?' !in r.value.path && '#' !in r.value.path && '#' !in r.value.query
  {
    var (scheme, rest) := SplitScheme(Sanitize(raw));
    var (netloc, rest2) := SplitNetloc(rest);
    if BadBrackets(netloc) then None
    else
      var (path, params, query, fragment) := SplitTail(scheme, rest2);
      Some(ParsedUrl(scheme, netloc, path, params, query, fragment))
  }

  /** `(parse_qs(query).get(name) or [None])[0]` over the `&`-separated
      fields: the value of the first field named `name` whose value is not
      empty (`parse_qs` drops blank values), `+` read as a space. */
  function QueryValue(fields: seq<string>, name: string): (r: Option<string>)
    ensures r.Some? ==> r.value != []
  {
    if fields == [] then None
    else
      var f := fields[0];
      var k := IndexOf(f, '=');
      if k + 1 < |f| && ReplaceChar(f[..k], '+', ' ') == name then Some(ReplaceChar(f[k + 1..], '+', ' '))
      else QueryValue(fields[1..], name)
  }

  /** The characters of a YouTube or bilibili video id. */
  predicate IsIdChar(c: char) {
    IsAsciiLetter(c) || IsDigit(c) || c == '-' || c == '_'
  }

  predicate IsId(s: string) {
    s != [] && forall i | 0 <= i < |s| :: IsIdChar(s[i])
  }

  /** No tab, carriage return or line feed. */
  predicate Safe(s: string) {
    forall i | 0 <= i < |s| :: !IsUnsafe(s[i])
  }

  lemma SafeAppend(a: string, b: string)
    requires Safe(a) && Safe(b)
    ensures Safe(a + b)
  {
    forall i | 0 <= i < |a + b|
      ensures !IsUnsafe((a + b)[i])
    {
      if i >= |a| { assert (a + b)[i] == b[i - |a|]; }
    }
  }

  lemma SanitizeIdle(url: string)
    requires url != [] && !IsC0OrSpace(url[0]) && Safe(url)
    ensures RemoveUnsafe(LStripC0(url)) == url
  {
    RemoveUnsafeIdle(url);
  }

  /** A lower-case scheme is split off at its colon. */
  lemma SchemeOf(scheme: string, rest: string)
    requires scheme != [] && forall i | 0 <= i < |scheme| :: 'a' <= scheme[i] <= 'z'
    ensures SplitScheme(scheme + ":" + rest) == (scheme, rest)
  {
    var url := scheme + ":" + rest;
    assert url[|scheme|] == ':';
    assert forall j | 0 <= j < |scheme| :: url[j] == scheme[j];
    assert IndexOf(url, ':') == |scheme|;
    assert url[..|scheme|] == scheme && url[|scheme| + 1..] == rest;
    assert Lower(scheme) == scheme;
  }

  /** After `//`, the netloc runs up to the first `/`, `?` or `#`. */
  lemma NetlocOf(host: string, tail: string)
    requires forall i | 0 <= i < |host| :: !IsNetlocEnd(host[i])
    requires tail == [] || IsNetlocEnd(tail[0])
    ensures var u := "//" + host + tail;
      NetlocEnd(u, 2) == 2 + |host| && u[2..2 + |host|] == host && u[2 + |host|..] == tail
  {
    var u := "//" + host + tail;
    assert forall j | 2 <= j < 2 + |host| :: u[j] == host[j - 2];
    assert u[2..2 + |host|] == host && u[2 + |host|..] == tail;
  }

  predicate NoChar(s: string, c: char) {
    forall i | 0 <= i < |s| :: s[i] != c
  }

  predicate LowerScheme(scheme: string) {
    scheme != [] && forall i | 0 <= i < |scheme| :: 'a' <= scheme[i] <= 'z'
  }

  /** A host name: no character that ends a netloc, no square bracket. */
  predicate Host(host: string) {
    Safe(host) && forall i | 0 <= i < |host| :: !IsNetlocEnd(host[i]) && host[i] != '[' && host[i] != ']'
  }

  /** A path: empty or rooted, with no `?`, `#` or `;`. */
  predicate PlainPath(path: string) {
    Safe(path) && (path == [] || path[0] == '/') && NoChar(path, '?') && NoChar(path, '#') && NoChar(path, ';')
  }

  /** `scheme://host<tail>` has nothing for `urlsplit` to strip or remove. */
  lemma WebSafe(scheme: string, host: string, tail: string)
    requires LowerScheme(scheme) && Safe(host) && Safe(tail)
    ensures Sanitize(scheme + ":" + ("//" + host + tail)) == scheme + ":" + ("//" + host + tail)
  {
    var rest := "//" + host + tail;
    assert Safe(scheme);
    SafeAppend("//", host);
    SafeAppend("//" + host, tail);
    SafeAppend(scheme, ":");
    SafeAppend(scheme + ":", rest);
    assert (scheme + ":" + rest)[0] == scheme[0];
    SanitizeIdle(scheme + ":" + rest);
  }

  /** The netloc of `//host<tail>`. */
  lemma WebNetloc(host: string, tail: string)
    requires Host(host)
    requires tail == [] || IsNetlocEnd(tail[0])
    ensures SplitNetloc("//" + host + tail) == (host, tail)
    ensures !BadBrackets(host)
  {
    NetlocOf(host, tail);
    assert NoChar(host, '[') && NoChar(host, ']');
  }

  /** A plain path is the whole tail. */
  lemma TailOfPath(scheme: string, path: string)
    requires PlainPath(path)
    ensures SplitTail(scheme, path) == (path, "", "", "")
  {
    assert SplitAtFirst(path, '#') == (path, "");
    assert SplitAtFirst(path, '?') == (path, "");
  }

  /** `path?query` split at the `?`, with no fragment. */
  lemma TailOfQuery(scheme: string, path: string, query: string)
    requires PlainPath(path) && NoChar(query, '#')
    ensures SplitTail(scheme, path + "?" + query) == (path, "", query, "")
  {
    var tail := path + "?" + query;
    forall i | 0 <= i < |tail|
      ensures tail[i] != '#'
    {
      if i < |path| { assert tail[i] == path[i]; }
      else if i > |path| { assert tail[i] == query[i - |path| - 1]; }
    }
    assert SplitAtFirst(tail, '#') == (tail, "");
    assert tail[|path|] == '?';
    assert forall j | 0 <= j < |path| :: tail[j] == path[j];
    assert IndexOf(tail, '?') == |path|;
    assert tail[..|path|] == path && tail[|path| + 1..] == query;
  }

  /** `path?query` is safe and ends a netloc where it starts. */
  lemma QueryTail(path: string, query: string)
    requires PlainPath(path) && Safe(query)
    ensures Safe(path + "?" + query)
    ensures IsNetlocEnd((path + "?" + query)[0])
  {
    assert (path + "?" + query)[0] == (if path == [] then '?' else '/');
    assert Safe("?");
    SafeAppend(path, "?");
    SafeAppend(path + "?", query);
  }

  /** `urlparse` of `scheme://host<path>?<query>`. */
  lemma ParseWebUrl(scheme: string, host: string, path: string, query: string)
    requires LowerScheme(scheme) && Host(host) && PlainPath(path) && Safe(query) && NoChar(query, '#')
    ensures ParseUrl(scheme + ":" + ("//" + host + (path + "?" + query))) == Some(ParsedUrl(scheme, host, path, "", query, ""))
  {
    var tail := path + "?" + query;
    QueryTail(path, query);
    WebSafe(scheme, host, tail);
    SchemeOf(scheme, "//" + host + tail);
    WebNetloc(host, tail);
    TailOfQuery(scheme, path, query);
  }

  /** `urlparse` of `scheme://host<path>`. */
  lemma ParseWebPath(scheme: string, host: string, path: string)
    requires LowerScheme(scheme) && Host(host) && PlainPath(path)
    ensures ParseUrl(scheme + ":" + ("//" + host + path)) == Some(ParsedUrl(scheme, host, path, "", "", ""))
  {
    WebSafe(scheme, host, path);
    SchemeOf(scheme, "//" + host + path);
    WebNetloc(host, path);
    TailOfPath(scheme, path);
  }

  /** `parse_qs("<name>=<value>")[name][0]` is the value, for a name and a
      value made of id characters. */
  lemma QueryOneField(name: string, value: string)
    requires IsId(name) && IsId(value)
    ensures QueryValue(SplitOn(name + "=" + value, "&"), name) == Some(value)
  {
    var f := name + "=" + value;
    assert f[|name|] == '=';
    assert forall j | 0 <= j < |name| :: f[j] == name[j];
    assert IndexOf(f, '=') == |name|;
    assert f[..|name|] == name && f[|name| + 1..] == value;
    assert ReplaceChar(name, '+', ' ') == name;
    assert ReplaceChar(value, '+', ' ') == value;
    assert forall i | 0 <= i < |f| :: f[i] != '&' by {
      forall i | 0 <= i < |f| ensures f[i] != '&' {
        if i > |name| { assert f[i] == value[i - |name| - 1]; }
      }
    }
    SplitOnNone(f, '&');
  }

  /** `/<dir>/<id>` is a plain path. */
  lemma DirIdPath(dir: string, id: string)
    requires IsId(dir) && IsId(id)
    ensures PlainPath("/" + dir + "/" + id)
  {
    var p := "/" + dir + "/" + id;
    forall i | 0 <= i < |p|
      ensures p[i] == '/' || IsIdChar(p[i])
    {
      if 1 <= i <= |dir| { assert p[i] == dir[i - 1]; }
      else if i > |dir| + 1 { assert p[i] == id[i - |dir| - 2]; }
    }
  }

  /** A query made of id characters, `=` and `&` is safe and holds no `#`. */
  lemma FieldSafe(name: string, value: string)
    requires IsId(name) && IsId(value)
    ensures Safe(name + "=" + value) && NoChar(name + "=" + value, '#')
  {
    var f := name + "=" + value;
    forall i | 0 <= i < |f|
      ensures f[i] == '=' || IsIdChar(f[i])
    {
      if i < |name| { assert f[i] == name[i]; }
      else if i > |name| { assert f[i] == value[i - |name| - 1]; }
    }
  }
}
