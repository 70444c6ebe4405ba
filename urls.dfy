/**
 The two endpoint addresses, built by string templates from the configured
 host, port and token, and parsers that take them apart again. The parsers
 are not in the program; they are here to show that each address carries
 exactly the components it is built from, as read by these plain string
 splits. Nothing is percent-encoded, so a standard URL reader may read a
 token holding '#', '&' or '%' differently.
 */
module Urls {
  import opened Wrappers

  const SseScheme: string := "http://"
  const SsePath: string := "/v1/sse?token="
  const WsScheme: string := "ws://"
  const WsPath: string := "/v1/subscribe"

  /** The server-sent-events address; the token travels in the query string. */
  function SseUrl(host: string, port: string, token: string): (url: string)
    ensures |url| == |SseScheme| + |host| + 1 + |port| + |SsePath| + |token|
    ensures url[..|SseScheme|] == SseScheme
    ensures url[|url| - |token|..] == token
  {
    SseScheme + host + ":" + port + SsePath + token
  }

  /** The web-socket address; it is built from host and port alone. */
  function WsUrl(host: string, port: string): (url: string)
    ensures |url| == |WsScheme| + |host| + 1 + |port| + |WsPath|
    ensures url[..|WsScheme|] == WsScheme
    ensures url[|url| - |WsPath|..] == WsPath
  {
    WsScheme + host + ":" + port + WsPath
  }

  /** The templates grouped to the right, the shape the parser proofs use. */
  lemma SseUrlGrouped(host: string, port: string, token: string)
    ensures SseUrl(host, port, token) == SseScheme + (host + ([':'] + (port + (SsePath + token))))
  {
  }

  lemma WsUrlGrouped(host: string, port: string)
    ensures WsUrl(host, port) == WsScheme + (host + ([':'] + (port + WsPath)))
  {
  }

  /** Splits `s` before its first `c`, if it has one: the second part
      starts with that `c`. */
  function SplitAtFirst(s: string, c: char): (r: Option<(string, string)>)
    ensures r.Some? ==> s == r.value.0 + r.value.1 && c !in r.value.0
    ensures r.Some? ==> |r.value.1| > 0 && r.value.1[0] == c
    ensures r.None? <==> c !in s
  {
    if s == [] then None
    else if s[0] == c then Some(([], s))
    else match SplitAtFirst(s[1..], c)
      case None => None
      case Some((before, after)) => Some(([s[0]] + before, after))
  }

  /** The split is unique: any split of that shape is the one found. */
  lemma {:induction false} SplitAtFirstOf(pre: string, post: string, c: char)
    requires c !in pre && |post| > 0 && post[0] == c
    ensures SplitAtFirst(pre + post, c) == Some((pre, post))
  {
    if pre == [] {
      assert pre + post == post;
    } else {
      var s := pre + post;
      assert s[0] == pre[0] && pre[0] != c;
      assert s[1..] == pre[1..] + post;
      assert c !in pre[1..];
      SplitAtFirstOf(pre[1..], post, c);
      assert [pre[0]] + pre[1..] == pre;
    }
  }

  /** Splits `host:port/rest` at the first ':' and the first '/' after it;
      the third component keeps its leading '/'. */
  function SplitAuthority(s: string): Option<(string, string, string)> {
    match SplitAtFirst(s, ':')
    case None => None
    case Some((host, colonRest)) =>
      match SplitAtFirst(colonRest[1..], '/')
      case None => None
      case Some((port, rest)) => Some((host, port, rest))
  }

  /** What a successful split gives back. */
  lemma SplitAuthorityParts(s: string, host: string, port: string, rest: string)
    requires SplitAuthority(s) == Some((host, port, rest))
    ensures s == host + ([':'] + (port + rest))
    ensures ':' !in host && '/' !in port
    ensures |rest| > 0 && rest[0] == '/'
  {
    var colonRest := SplitAtFirst(s, ':').value.1;
    assert s == host + colonRest;
    assert colonRest == [colonRest[0]] + colonRest[1..];
    assert s == host + ([':'] + (port + rest));
  }

  lemma SplitAuthorityOf(host: string, port: string, rest: string)
    requires ':' !in host && '/' !in port
    requires |rest| > 0 && rest[0] == '/'
    ensures SplitAuthority(host + ([':'] + (port + rest))) == Some((host, port, rest))
  {
    var colonRest := [':'] + (port + rest);
    SplitAtFirstOf(host, colonRest, ':');
    assert colonRest[1..] == port + rest;
    SplitAtFirstOf(port, rest, '/');
  }

  /** The rest of `s` after the prefix `p`, if `s` starts with it. */
  function StripPrefix(s: string, p: string): (r: Option<string>)
    ensures r.Some? ==> s == p + r.value
    ensures r.None? ==> !(|p| <= |s| && s[..|p|] == p)
  {
    if |p| <= |s| && s[..|p|] == p then
      assert s == s[..|p|] + s[|p|..];
      Some(s[|p|..])
    else None
  }

  lemma StripPrefixOf(p: string, rest: string)
    ensures StripPrefix(p + rest, p) == Some(rest)
  {
    assert (p + rest)[..|p|] == p;
  }

  /** Recovers (host, port, token) from a server-sent-events address. */
  function ParseSseUrl(url: string): Option<(string, string, string)> {
    match StripPrefix(url, SseScheme)
    case None => None
    case Some(authority) =>
      match SplitAuthority(authority)
      case None => None
      case Some((host, port, rest)) =>
        match StripPrefix(rest, SsePath)
        case None => None
        case Some(token) => Some((host, port, token))
  }

  /** Recovers (host, port) from a web-socket address. */
  function ParseWsUrl(url: string): Option<(string, string)> {
    match StripPrefix(url, WsScheme)
    case None => None
    case Some(authority) =>
      match SplitAuthority(authority)
      case None => None
      case Some((host, port, rest)) =>
        if rest != WsPath then None else Some((host, port))
  }

  /** Parsing gives back what the address was built from, whenever the host
      has no ':' and the port no '/'. */
  lemma SseUrlRoundTrip(host: string, port: string, token: string)
    requires ':' !in host && '/' !in port
    ensures ParseSseUrl(SseUrl(host, port, token)) == Some((host, port, token))
  {
    var authority := host + ([':'] + (port + (SsePath + token)));
    SseUrlGrouped(host, port, token);
    StripPrefixOf(SseScheme, authority);
    SplitAuthorityOf(host, port, SsePath + token);
    StripPrefixOf(SsePath, token);
  }

  lemma ParseSseUrlParts(url: string, host: string, port: string, token: string)
    requires ParseSseUrl(url) == Some((host, port, token))
    ensures url == SseScheme + (host + ([':'] + (port + (SsePath + token))))
    ensures ':' !in host && '/' !in port
  {
    var authority := StripPrefix(url, SseScheme).value;
    assert url == SseScheme + authority;
    var rest := SplitAuthority(authority).value.2;
    SplitAuthorityParts(authority, host, port, rest);
    assert rest == SsePath + token;
  }

  /** Every address the parser accepts is one the template builds. */
  lemma ParseSseUrlSound(url: string, host: string, port: string, token: string)
    requires ParseSseUrl(url) == Some((host, port, token))
    ensures url == SseUrl(host, port, token)
    ensures ':' !in host && '/' !in port
  {
    ParseSseUrlParts(url, host, port, token);
    SseUrlGrouped(host, port, token);
  }

  lemma WsUrlRoundTrip(host: string, port: string)
    requires ':' !in host && '/' !in port
    ensures ParseWsUrl(WsUrl(host, port)) == Some((host, port))
  {
    var authority := host + ([':'] + (port + WsPath));
    WsUrlGrouped(host, port);
    StripPrefixOf(WsScheme, authority);
    SplitAuthorityOf(host, port, WsPath);
  }

  lemma ParseWsUrlParts(url: string, host: string, port: string)
    requires ParseWsUrl(url) == Some((host, port))
    ensures url == WsScheme + (host + ([':'] + (port + WsPath)))
    ensures ':' !in host && '/' !in port
  {
    var authority := StripPrefix(url, WsScheme).value;
    assert url == WsScheme + authority;
    SplitAuthorityParts(authority, host, port, WsPath);
  }

  lemma ParseWsUrlSound(url: string, host: string, port: string)
    requires ParseWsUrl(url) == Some((host, port))
    ensures url == WsUrl(host, port)
    ensures ':' !in host && '/' !in port
  {
    ParseWsUrlParts(url, host, port);
    WsUrlGrouped(host, port);
  }

  /** The stream address carries the token: for a fixed host and port, two
      tokens give equal stream addresses exactly when they are equal. (The
      web-socket address takes no token at all.) */
  lemma SseUrlDeterminesToken(host: string, port: string, token1: string, token2: string)
    ensures SseUrl(host, port, token1) == SseUrl(host, port, token2) <==> token1 == token2
  {
    var prefix := SseScheme + host + ":" + port + SsePath;
    if SseUrl(host, port, token1) == SseUrl(host, port, token2) {
      assert SseUrl(host, port, token1)[|prefix|..] == token1;
      assert SseUrl(host, port, token2)[|prefix|..] == token2;
    }
  }
}
