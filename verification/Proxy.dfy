/** Routing by path prefix, and the headers that reach an upstream. */
module Proxy {
  import opened Prelude

  datatype UpstreamTarget = AgentManagement | GraphNodeAdmin | GraphNodeStatus

  datatype Route = Route(target: UpstreamTarget, path: string)

  const ADMIN_PREFIX: string := "/_admin"
  const STATUS_PREFIX: string := "/_status"

  /** Strip a prefix that is a whole path segment; an empty remainder becomes `/`. */
  function StripPrefixSegment(path: string, prefix: string): (r: Option<string>)
  {
    if !(prefix <= path) then None
    else
      var rest := path[|prefix|..];
      if rest == "" then Some("/")
      else if rest[0] == '/' then Some(rest)
      else None
  }

  function RouteOf(path: string): (r: Route)
  {
    match StripPrefixSegment(path, ADMIN_PREFIX)
    case Some(rest) => Route(GraphNodeAdmin, rest)
    case None =>
      match StripPrefixSegment(path, STATUS_PREFIX)
      case Some(rest) => Route(GraphNodeStatus, rest)
      case None => Route(AgentManagement, path)
  }

  /** `path` is `prefix` itself or continues it at a segment boundary. */
  ghost predicate UnderSegment(path: string, prefix: string)
  {
    path == prefix || exists rest: string :: path == prefix + "/" + rest
  }

  lemma StripMeans(path: string, prefix: string)
    ensures StripPrefixSegment(path, prefix).Some? <==> UnderSegment(path, prefix)
    ensures StripPrefixSegment(path, prefix).Some? ==>
              prefix + StripPrefixSegment(path, prefix).value == if path == prefix then path + "/" else path
  {
    if prefix <= path {
      var rest := path[|prefix|..];
      assert path == prefix + rest;
      if rest != "" && rest[0] == '/' {
        assert rest == "/" + rest[1..];
        assert path == prefix + "/" + rest[1..];
      }
    }
    forall rest: string | path == prefix + "/" + rest
      ensures prefix <= path && path[|prefix|..] == "/" + rest
    {
      assert path == prefix + ("/" + rest);
    }
  }

  /** The two prefixes are never both a segment of the same path. */
  lemma PrefixesExclusive(path: string)
    ensures !(UnderSegment(path, "/_admin") && UnderSegment(path, "/_status"))
  {
    StripMeans(path, "/_admin");
    StripMeans(path, "/_status");
    assert "/_admin"[2] != "/_status"[2];
  }

  /** Each target is chosen exactly under its segment, which is cut off; a bare prefix leaves `/`. */
  lemma RouteMeans(path: string)
    ensures var r := RouteOf(path);
            && (r.target == GraphNodeAdmin <==> UnderSegment(path, "/_admin"))
            && (r.target == GraphNodeStatus <==> UnderSegment(path, "/_status"))
            && (r.target == AgentManagement ==> r.path == path)
            && (UnderSegment(path, "/_admin") ==>
                  |path| >= 7 && r.path == if path == "/_admin" then "/" else path[7..])
            && (UnderSegment(path, "/_status") ==>
                  |path| >= 8 && r.path == if path == "/_status" then "/" else path[8..])
  {
    StripMeans(path, "/_admin");
    StripMeans(path, "/_status");
    PrefixesExclusive(path);
  }

  /** Two paths share target and forwarded path only if they are equal up to a prefix against prefix and `/`. */
  lemma RouteInjective(a: string, b: string)
    requires RouteOf(a) == RouteOf(b)
    ensures a == b || {a, b} == {"/_admin", "/_admin/"} || {a, b} == {"/_status", "/_status/"}
  {
    RouteUndone(a);
    RouteUndone(b);
  }

  /** Prefix and forwarded path give the request path back, a bare prefix reading as prefix and `/`. */
  lemma RouteUndone(path: string)
    ensures match RouteOf(path).target
            case GraphNodeAdmin =>
              "/_admin" + RouteOf(path).path == if path == "/_admin" then "/_admin/" else path
            case GraphNodeStatus =>
              "/_status" + RouteOf(path).path == if path == "/_status" then "/_status/" else path
            case AgentManagement => RouteOf(path).path == path
  {
    StripMeans(path, "/_admin");
    StripMeans(path, "/_status");
  }

  /** A query right after the prefix is not a segment boundary. */
  lemma QueryAfterPrefixIsManagement()
    ensures RouteOf("/_admin?x") == Route(AgentManagement, "/_admin?x")
    ensures RouteOf("/_admin/?x") == Route(GraphNodeAdmin, "/?x")
  {
    assert "/_admin?x"[|ADMIN_PREFIX|..] == "?x";
    assert "/_admin/?x"[|ADMIN_PREFIX|..] == "/?x";
    assert "/_admin?x"[2] != STATUS_PREFIX[2];
  }

  // --- Headers --------------------------------------------------------------------------

  /** Header names are lower case, as the HTTP library normalises them. */
  datatype Header = Header(name: string, value: string)

  const HOP_BY_HOP: set<string> := {
    "connection", "keep-alive", "proxy-authenticate", "proxy-authorization",
    "te", "trailer", "transfer-encoding", "upgrade"
  }

  predicate Withheld(name: string)
  {
    name in HOP_BY_HOP || name == "host" || name == "authorization"
  }

  function ForwardHeaders(headers: seq<Header>): (r: seq<Header>)
  {
    if headers == [] then []
    else (if Withheld(headers[0].name) then [] else [headers[0]]) + ForwardHeaders(headers[1..])
  }

  /** Values of one header name, in order. */
  function ValuesOf(headers: seq<Header>, name: string): (r: seq<string>)
  {
    if headers == [] then []
    else (if headers[0].name == name then [headers[0].value] else []) + ValuesOf(headers[1..], name)
  }

  lemma {:induction false} ValuesMeans(headers: seq<Header>, h: Header, name: string)
    ensures ValuesOf([], name) == []
    ensures ValuesOf(headers + [h], name) == ValuesOf(headers, name) + if h.name == name then [h.value] else []
  {
    if headers == [] {
      assert headers + [h] == [h];
    } else {
      Uncons(headers, [h]);
      ValuesMeans(headers[1..], h, name);
    }
  }

  lemma {:induction false} ForwardedUnlessWithheld(headers: seq<Header>, name: string)
    ensures ValuesOf(ForwardHeaders(headers), name) == if Withheld(name) then [] else ValuesOf(headers, name)
  {
    if headers == [] {
    } else {
      ForwardedUnlessWithheld(headers[1..], name);
      var head, rest := headers[0], ForwardHeaders(headers[1..]);
      if Withheld(head.name) {
        assert ForwardHeaders(headers) == rest;
        assert [] + ValuesOf(headers[1..], name) == ValuesOf(headers[1..], name);
      } else {
        assert ([head] + rest)[1..] == rest;
      }
    }
  }

  /** The ten withheld names carry nothing upstream; every other name carries its values, in order. */
  lemma ForwardedValues(headers: seq<Header>, name: string)
    ensures ValuesOf(ForwardHeaders(headers), name)
         == if name in {"authorization", "host", "connection", "keep-alive", "proxy-authenticate",
                        "proxy-authorization", "te", "trailer", "transfer-encoding", "upgrade"}
            then [] else ValuesOf(headers, name)
  {
    ForwardedUnlessWithheld(headers, name);
  }

  /** A header is forwarded if and only if it was received and is not one of the withheld. */
  lemma {:induction false} ForwardedIff(headers: seq<Header>, h: Header)
    ensures h in ForwardHeaders(headers) <==>
            && h in headers
            && h.name !in {"authorization", "host", "connection", "keep-alive", "proxy-authenticate",
                           "proxy-authorization", "te", "trailer", "transfer-encoding", "upgrade"}
  {
    if headers == [] {
    } else {
      ForwardedIff(headers[1..], h);
      assert h in headers <==> h == headers[0] || h in headers[1..];
    }
  }

  method FilterForwardHeaders(headers: seq<Header>) returns (out: seq<Header>)
    ensures out == ForwardHeaders(headers)
  {
    out := [];
    for i := 0 to |headers|
      invariant out + ForwardHeaders(headers[i..]) == ForwardHeaders(headers)
    {
      assert headers[i..][0] == headers[i] && headers[i..][1..] == headers[i + 1..];
      ghost var later := ForwardHeaders(headers[i + 1..]);
      if Withheld(headers[i].name) {
        assert [] + later == later;
        continue;
      }
      Associate(out, [headers[i]], later);
      out := out + [headers[i]];
    }
  }

  // --- The bearer token in a request's headers --------------------------------------------

  const SCHEME: string := "Bearer "

  predicate Blank(c: char)
  {
    c == ' ' || c == '\t'
  }

  /** A header value read as text: visible ASCII, spaces and tabs only. */
  predicate Readable(value: string)
  {
    forall c :: c in value ==> ' ' <= c <= '~' || c == '\t'
  }

  function TrimStart(s: string): (r: string)
  {
    if s != "" && Blank(s[0]) then TrimStart(s[1..]) else s
  }

  function TrimEnd(s: string): (r: string)
  {
    if s != "" && Blank(s[|s| - 1]) then TrimEnd(s[..|s| - 1]) else s
  }

  /** The first `authorization` value, when it reads as text in the Bearer scheme. */
  function ExtractBearer(headers: seq<Header>): (r: Option<string>)
  {
    var values := ValuesOf(headers, "authorization");
    if values == [] || !Readable(values[0]) || !(SCHEME <= values[0]) then None
    else Some(TrimEnd(TrimStart(values[0][|SCHEME|..])))
  }

  ghost predicate AllBlank(s: string)
  {
    forall c :: c in s ==> Blank(c)
  }

  /** Neither end of a token is a blank. */
  ghost predicate Bare(token: string)
  {
    token != "" && !Blank(token[0]) && !Blank(token[|token| - 1])
  }

  lemma {:induction false} TrimStartPadded(pad: string, s: string)
    requires AllBlank(pad) && s != "" && !Blank(s[0])
    ensures TrimStart(pad + s) == s
  {
    if pad == "" {
      assert pad + s == s;
    } else {
      assert pad[0] in pad && (pad + s)[1..] == pad[1..] + s;
      TrimStartPadded(pad[1..], s);
    }
  }

  lemma {:induction false} TrimEndPadded(s: string, pad: string)
    requires AllBlank(pad) && s != "" && !Blank(s[|s| - 1])
    ensures TrimEnd(s + pad) == s
  {
    if pad == "" {
      assert s + pad == s;
    } else {
      var last := |pad| - 1;
      assert pad[last] in pad && (s + pad)[..|s + pad| - 1] == s + pad[..last];
      TrimEndPadded(s, pad[..last]);
    }
  }

  lemma {:induction false} TrimStartSplits(s: string) returns (pad: string)
    ensures AllBlank(pad) && s == pad + TrimStart(s)
    ensures TrimStart(s) != "" ==> !Blank(TrimStart(s)[0])
  {
    if s == "" || !Blank(s[0]) {
      pad := "";
    } else {
      var rest := TrimStartSplits(s[1..]);
      pad := [s[0]] + rest;
      assert s == [s[0]] + s[1..];
      Associate([s[0]], rest, TrimStart(s[1..]));
    }
  }

  lemma {:induction false} TrimEndSplits(s: string) returns (pad: string)
    ensures AllBlank(pad) && s == TrimEnd(s) + pad
    ensures TrimEnd(s) != "" ==> !Blank(TrimEnd(s)[|TrimEnd(s)| - 1])
  {
    if s == "" || !Blank(s[|s| - 1]) {
      pad := "";
    } else {
      var rest := TrimEndSplits(s[..|s| - 1]);
      pad := rest + [s[|s| - 1]];
      assert s == s[..|s| - 1] + [s[|s| - 1]];
    }
  }

  lemma {:induction false} TrimStartBlank(s: string)
    requires AllBlank(s)
    ensures TrimStart(s) == ""
  {
    if s == "" {
    } else {
      assert s[0] in s;
      TrimStartBlank(s[1..]);
    }
  }

  /** The value is visible ASCII, blanks and tabs: the scheme, blanks, the token, blanks. */
  ghost predicate Surrounded(value: string, before: string, token: string, after: string)
  {
    && (forall c :: c in value ==> ' ' <= c <= '~' || c == '\t')
    && (forall c :: c in before || c in after ==> c == ' ' || c == '\t')
    && (token == "" || (token[0] !in {' ', '\t'} && token[|token| - 1] !in {' ', '\t'}))
    && value == "Bearer " + before + token + after
  }

  /** The first `authorization` value presents the token. */
  ghost predicate Presents(headers: seq<Header>, token: string)
  {
    exists i, before, after ::
      && 0 <= i < |headers| && headers[i].name == "authorization"
      && (forall j :: 0 <= j < i ==> headers[j].name != "authorization")
      && Surrounded(headers[i].value, before, token, after)
  }

  /** The first value of a name stands in the first header of that name. */
  lemma {:induction false} FirstValue(headers: seq<Header>, name: string) returns (i: nat)
    requires ValuesOf(headers, name) != []
    ensures i < |headers| && headers[i] == Header(name, ValuesOf(headers, name)[0])
    ensures forall j :: 0 <= j < i ==> headers[j].name != name
  {
    if headers[0].name == name {
      i := 0;
    } else {
      var r := FirstValue(headers[1..], name);
      i := r + 1;
    }
  }

  lemma {:induction false} FoundFirst(headers: seq<Header>, name: string, i: nat)
    requires i < |headers| && headers[i].name == name && forall j :: 0 <= j < i ==> headers[j].name != name
    ensures ValuesOf(headers, name) != [] && ValuesOf(headers, name)[0] == headers[i].value
    decreases i
  {
    if i == 0 {
    } else {
      FoundFirst(headers[1..], name, i - 1);
    }
  }

  lemma TrimMeans(value: string, before: string, token: string, after: string)
    requires Surrounded(value, before, token, after)
    ensures SCHEME <= value && TrimEnd(TrimStart(value[|SCHEME|..])) == token
  {
    assert AllBlank(before) && AllBlank(after);
    assert value == SCHEME + (before + (token + after));
    assert value[|SCHEME|..] == before + (token + after);
    if token == "" {
      assert AllBlank(before + (token + after));
      TrimStartBlank(before + (token + after));
    } else {
      TrimStartPadded(before, token + after);
      TrimEndPadded(token, after);
    }
  }

  lemma PresentsWhatItExtracts(headers: seq<Header>)
    requires ExtractBearer(headers).Some?
    ensures Presents(headers, ExtractBearer(headers).value)
  {
    var i := FirstValue(headers, "authorization");
    var value := headers[i].value;
    var rest := value[|SCHEME|..];
    var before := TrimStartSplits(rest);
    var after := TrimEndSplits(TrimStart(rest));
    var token := TrimEnd(TrimStart(rest));
    assert value == SCHEME + (before + (token + after));
    Associate(SCHEME, before, token + after);
    Associate(SCHEME + before, token, after);
    assert token != "" ==> token[0] == TrimStart(rest)[0];
    assert Surrounded(value, before, token, after);
  }

  /**
   * A token is extracted exactly when it is what the first `authorization` value presents: blanks
   * around it do not count, and other schemes and unreadable values present nothing.
   */
  lemma BearerMeans(headers: seq<Header>, token: string)
    ensures ExtractBearer(headers) == Some(token) <==> Presents(headers, token)
    ensures ExtractBearer(headers).None? <==> forall t :: !Presents(headers, t)
  {
    if ExtractBearer(headers).Some? {
      PresentsWhatItExtracts(headers);
    }
    forall t | Presents(headers, t)
      ensures ExtractBearer(headers) == Some(t)
    {
      var i, before, after :|
        && 0 <= i < |headers| && headers[i].name == "authorization"
        && (forall j :: 0 <= j < i ==> headers[j].name != "authorization")
        && Surrounded(headers[i].value, before, t, after);
      FoundFirst(headers, "authorization", i);
      TrimMeans(headers[i].value, before, t, after);
    }
  }
}
