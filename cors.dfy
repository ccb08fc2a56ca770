// The CORS middleware (middlewares/cors_middleware.py), which follows the CORS protocol of
// section 3.2 of the WHATWG Fetch Standard: the response headers computed for an origin,
// the preflight answer, and how responses of the wrapped application are decorated.
// Header names and values are text (the latin-1 encoding is not modelled).
module Cors {
  import opened Wrappers
  import Text

  /** `allow_origins`: "*", another single string (matched with Python's substring `in`),
      or a list of origins. */
  datatype AllowOrigins = Wildcard | OriginText(text: string) | OriginList(origins: seq<string>)

  datatype Config = Config(
    allowOrigins: AllowOrigins, allowMethods: seq<string>, allowHeaders: seq<string>,
    allowCredentials: bool, exposeHeaders: seq<string>, maxAge: int)

  const DefaultMethods: seq<string> := ["GET", "POST", "PUT", "DELETE", "PATCH", "OPTIONS"]
  const DefaultHeaders: seq<string> := ["Authorization", "Content-Type", "Accept", "Origin", "User-Agent"]

  /** The constructor: an empty or missing list falls back to its default. */
  function MakeConfig(allowOrigins: AllowOrigins, allowMethods: seq<string>, allowHeaders: seq<string>,
                      allowCredentials: bool, exposeHeaders: seq<string>, maxAge: int): (c: Config)
    ensures c.allowMethods == (if allowMethods == [] then DefaultMethods else allowMethods)
    ensures c.allowHeaders == (if allowHeaders == [] then DefaultHeaders else allowHeaders)
    ensures c.allowOrigins == allowOrigins && c.allowCredentials == allowCredentials
    ensures c.exposeHeaders == exposeHeaders && c.maxAge == maxAge
  {
    Config(allowOrigins, if allowMethods == [] then DefaultMethods else allowMethods,
           if allowHeaders == [] then DefaultHeaders else allowHeaders, allowCredentials, exposeHeaders, maxAge)
  }

  /** The default configuration of the middleware. */
  const DefaultConfig := MakeConfig(Wildcard, [], [], true, [], 86400)

  /** The response headers the middleware sets. */
  datatype CorsName = AllowOrigin | Vary | AllowCredentials | AllowMethods | AllowHeaders | MaxAge | ExposeHeaders

  function NameText(n: CorsName): string
  {
    match n
    case AllowOrigin => "Access-Control-Allow-Origin"
    case Vary => "Vary"
    case AllowCredentials => "Access-Control-Allow-Credentials"
    case AllowMethods => "Access-Control-Allow-Methods"
    case AllowHeaders => "Access-Control-Allow-Headers"
    case MaxAge => "Access-Control-Max-Age"
    case ExposeHeaders => "Access-Control-Expose-Headers"
  }

  /** The CORS header dictionary, in insertion order. */
  type CorsDict = seq<(CorsName, string)>

  /** `headers.get(name)`. */
  function Lookup(h: CorsDict, name: CorsName): (r: Option<string>)
    ensures r.Some? <==> exists i :: 0 <= i < |h| && h[i].0 == name
  {
    if |h| == 0 then None
    else if h[0].0 == name then Some(h[0].1)
    else Lookup(h[1..], name)
  }

  /** `headers[name] = value`: an existing key keeps its place, a new one goes last. */
  function Put(h: CorsDict, name: CorsName, value: string): (r: CorsDict)
    ensures (forall i :: 0 <= i < |h| ==> h[i].0 != name) ==> r == h + [(name, value)]
    ensures |h| > 0 && h[0].0 == name ==> r == [(name, value)] + h[1..]
  {
    if |h| == 0 then [(name, value)]
    else if h[0].0 == name then [(name, value)] + h[1..]
    else [h[0]] + Put(h[1..], name, value)
  }

  /** `", ".join(items)`. */
  function JoinComma(items: seq<string>): string
  {
    if |items| == 0 then ""
    else if |items| == 1 then items[0]
    else items[0] + ", " + JoinComma(items[1..])
  }

  /** The origin is accepted by the configuration. */
  predicate Accepts(c: Config, origin: string)
  {
    match c.allowOrigins
    case Wildcard => true
    case OriginText(t) => Text.Contains(t, origin)
    case OriginList(os) => origin in os
  }

  /** No entry of the dictionary has the name. */
  predicate Absent(h: CorsDict, name: CorsName)
  {
    forall i :: 0 <= i < |h| ==> h[i].0 != name
  }

  lemma {:induction false} LookupAppend(a: CorsDict, b: CorsDict, name: CorsName)
    ensures Lookup(a + b, name) == if Lookup(a, name).Some? then Lookup(a, name) else Lookup(b, name)
    decreases |a|
  {
    if |a| > 0 {
      assert (a + b)[1..] == a[1..] + b;
      LookupAppend(a[1..], b, name);
    } else {
      assert a + b == b;
    }
  }

  /** Whether the allowed origin is echoed back (with `Vary: Origin`) rather than '*'. */
  predicate Echoes(c: Config)
  {
    !(c.allowOrigins.Wildcard? && !c.allowCredentials)
  }

  function OriginPart(c: Config, origin: string): CorsDict
  {
    [(AllowOrigin, if Echoes(c) then origin else "*")] + (if Echoes(c) then [(Vary, "Origin")] else [])
  }

  function CredentialsPart(c: Config): CorsDict
  {
    if c.allowCredentials then [(AllowCredentials, "true")] else []
  }

  function PreflightPart(c: Config, preflight: bool): CorsDict
  {
    if preflight then [(AllowMethods, JoinComma(c.allowMethods)), (AllowHeaders, JoinComma(c.allowHeaders)),
                       (MaxAge, Text.IntToString(c.maxAge))]
    else []
  }

  function ExposePart(c: Config): CorsDict
  {
    if c.exposeHeaders != [] then [(ExposeHeaders, JoinComma(c.exposeHeaders))] else []
  }

  /** The headers granted to a request from `origin`, in the order they are set. */
  function CorsHeaders(c: Config, origin: string, preflight: bool): CorsDict
  {
    if origin == "" || !Accepts(c, origin) then []
    else OriginPart(c, origin) + CredentialsPart(c) + PreflightPart(c, preflight) + ExposePart(c)
  }

  lemma AbsentAppend(a: CorsDict, b: CorsDict, name: CorsName)
    ensures Absent(a + b, name) <==> Absent(a, name) && Absent(b, name)
  {
    if Absent(a, name) && Absent(b, name) {
      forall i | 0 <= i < |a + b|
        ensures (a + b)[i].0 != name
      {
        if i >= |a| {
          assert (a + b)[i] == b[i - |a|];
        }
      }
    }
    if Absent(a + b, name) {
      forall i | 0 <= i < |a|
        ensures a[i].0 != name
      {
        assert (a + b)[i] == a[i];
      }
      forall i | 0 <= i < |b|
        ensures b[i].0 != name
      {
        assert (a + b)[|a| + i] == b[i];
      }
    }
  }

  /** The Allow-Origin and Vary entries: '*' first, then overwritten in place by the origin
      when credentials are allowed. */
  method SetOrigin(c: Config, origin: string) returns (h: CorsDict)
    requires origin != "" && Accepts(c, origin)
    ensures h == OriginPart(c, origin)
  {
    h := [];
    if c.allowOrigins.Wildcard? {
      h := Put(h, AllowOrigin, "*");
    } else {
      h := Put(h, AllowOrigin, origin);
      h := Put(h, Vary, "Origin");
    }
    if c.allowCredentials && Lookup(h, AllowOrigin) == Some("*") {
      h := Put(h, AllowOrigin, origin);
      h := Put(h, Vary, "Origin");
    }
  }

  /** The three preflight entries, added after the others. */
  method SetPreflight(h0: CorsDict, c: Config) returns (h: CorsDict)
    requires Absent(h0, AllowMethods) && Absent(h0, AllowHeaders) && Absent(h0, MaxAge)
    ensures h == h0 + PreflightPart(c, true)
  {
    h := Put(h0, AllowMethods, JoinComma(c.allowMethods));
    AbsentAppend(h0, [(AllowMethods, JoinComma(c.allowMethods))], AllowHeaders);
    h := Put(h, AllowHeaders, JoinComma(c.allowHeaders));
    AbsentAppend(h0 + [(AllowMethods, JoinComma(c.allowMethods))], [(AllowHeaders, JoinComma(c.allowHeaders))], MaxAge);
    AbsentAppend(h0, [(AllowMethods, JoinComma(c.allowMethods))], MaxAge);
    h := Put(h, MaxAge, Text.IntToString(c.maxAge));
  }

  /** `_get_cors_headers`, setting the dictionary entries one by one. */
  method GetCorsHeaders(c: Config, origin: string, preflight: bool) returns (h: CorsDict)
    ensures h == CorsHeaders(c, origin, preflight)
  {
    if origin == "" || !Accepts(c, origin) {
      return [];
    }
    h := SetOrigin(c, origin);
    ghost var o := h;
    if c.allowCredentials {
      h := Put(h, AllowCredentials, "true");
    }
    ghost var ocr := h;
    assert ocr == o + CredentialsPart(c);
    AbsentAppend(o, CredentialsPart(c), AllowMethods);
    AbsentAppend(o, CredentialsPart(c), AllowHeaders);
    AbsentAppend(o, CredentialsPart(c), MaxAge);
    AbsentAppend(o, CredentialsPart(c), ExposeHeaders);
    if preflight {
      h := SetPreflight(h, c);
    }
    assert h == ocr + PreflightPart(c, preflight);
    AbsentAppend(ocr, PreflightPart(c, preflight), ExposeHeaders);
    if c.exposeHeaders != [] {
      h := Put(h, ExposeHeaders, JoinComma(c.exposeHeaders));
    }
  }

  /** No origin, or one the configuration refuses, gets no CORS header at all. */
  lemma NoHeadersUnlessAccepted(c: Config, origin: string, preflight: bool)
    requires origin == "" || !Accepts(c, origin)
    ensures CorsHeaders(c, origin, preflight) == []
  {
  }

  /** The value each header name gets for an accepted origin. */
  function Granted(c: Config, origin: string, preflight: bool, n: CorsName): Option<string>
  {
    match n
    case AllowOrigin => Some(if Echoes(c) then origin else "*")
    case Vary => if Echoes(c) then Some("Origin") else None
    case AllowCredentials => if c.allowCredentials then Some("true") else None
    case AllowMethods => if preflight then Some(JoinComma(c.allowMethods)) else None
    case AllowHeaders => if preflight then Some(JoinComma(c.allowHeaders)) else None
    case MaxAge => if preflight then Some(Text.IntToString(c.maxAge)) else None
    case ExposeHeaders => if c.exposeHeaders != [] then Some(JoinComma(c.exposeHeaders)) else None
  }

  lemma PreflightLookup(c: Config, preflight: bool, n: CorsName)
    ensures Lookup(PreflightPart(c, preflight), n)
            == if n in {AllowMethods, AllowHeaders, MaxAge} then Granted(c, "", preflight, n) else None
  {
    var p := PreflightPart(c, preflight);
    if preflight {
      var m, hs, a := p[0].1, p[1].1, p[2].1;
      assert p == [(AllowMethods, m), (AllowHeaders, hs), (MaxAge, a)];
      assert p[1..] == [(AllowHeaders, hs), (MaxAge, a)];
      assert p[1..][1..] == [(MaxAge, a)];
      assert p[1..][1..][1..] == [];
      assert Lookup(p[1..][1..][1..], n) == None;
      assert Lookup(p[1..][1..], n) == if n == MaxAge then Some(a) else None;
      assert Lookup(p[1..], n) == if n == AllowHeaders then Some(hs) else Lookup(p[1..][1..], n);
    }
  }

  /** Each header of an accepted origin carries the value `Granted` gives it. */
  lemma CorsHeadersLookup(c: Config, origin: string, preflight: bool, n: CorsName)
    requires origin != "" && Accepts(c, origin)
    ensures Lookup(CorsHeaders(c, origin, preflight), n) == Granted(c, origin, preflight, n)
  {
    var o, cr, p, e := OriginPart(c, origin), CredentialsPart(c), PreflightPart(c, preflight), ExposePart(c);
    LookupAppend(o + cr + p, e, n);
    LookupAppend(o + cr, p, n);
    LookupAppend(o, cr, n);
    PreflightLookup(c, preflight, n);
  }

  /** What an accepted origin is granted: the echoed origin with `Vary: Origin` unless the
      configuration is a wildcard without credentials, so never '*' with credentials; the
      credentials header exactly when enabled; the preflight headers only on preflight;
      expose headers only when some are configured. */
  lemma AcceptedHeaders(c: Config, origin: string, preflight: bool)
    requires origin != "" && Accepts(c, origin)
    ensures var h := CorsHeaders(c, origin, preflight);
            && Lookup(h, AllowOrigin) == Some(if Echoes(c) then origin else "*")
            && (c.allowCredentials ==> Lookup(h, AllowOrigin) == Some(origin) && Lookup(h, Vary) == Some("Origin"))
            && (c.allowOrigins.OriginList? ==> Lookup(h, AllowOrigin) == Some(origin) && Lookup(h, Vary) == Some("Origin"))
            && Lookup(h, AllowCredentials) == (if c.allowCredentials then Some("true") else None)
            && (Lookup(h, AllowMethods).Some? <==> preflight)
            && (Lookup(h, AllowHeaders).Some? <==> preflight)
            && (Lookup(h, MaxAge).Some? <==> preflight)
            && (Lookup(h, ExposeHeaders).Some? <==> c.exposeHeaders != [])
  {
    forall n: CorsName
      ensures Lookup(CorsHeaders(c, origin, preflight), n) == Granted(c, origin, preflight, n)
    {
      CorsHeadersLookup(c, origin, preflight, n);
    }
  }

  // ---------------------------------------------------------------------------
  // __call__ and send_wrapper

  /** An ASGI message sent to the server. */
  datatype Message = Start(status: int, headers: seq<(string, string)>) | BodyPart(body: string) | OtherMessage(kind: string)

  /** An ASGI scope; `headers` are the request headers with lower-case names. */
  datatype Scope = Scope(kind: string, httpMethod: string, headers: seq<(string, string)>)

  /** `dict(headers).get(name, default)`: a later duplicate wins. */
  function LastValue(headers: seq<(string, string)>, name: string, default: string): (r: string)
    ensures (forall i :: 0 <= i < |headers| ==> headers[i].0 != name) ==> r == default
    ensures |headers| > 0 && headers[|headers| - 1].0 == name ==> r == headers[|headers| - 1].1
  {
    if |headers| == 0 then default
    else if headers[|headers| - 1].0 == name then headers[|headers| - 1].1
    else LastValue(headers[..|headers| - 1], name, default)
  }

  function OriginOf(s: Scope): string
  {
    LastValue(s.headers, "origin", "")
  }

  /** The CORS dictionary as response header pairs. */
  function Rendered(h: CorsDict): (r: seq<(string, string)>)
    ensures |r| == |h| && forall i :: 0 <= i < |h| ==> r[i] == (NameText(h[i].0), h[i].1)
  {
    seq(|h|, i requires 0 <= i < |h| => (NameText(h[i].0), h[i].1))
  }

  /** `send_wrapper`'s loop: the CORS headers appended, in order, to the response headers. */
  method AppendHeaders(headers: seq<(string, string)>, extra: seq<(string, string)>) returns (out: seq<(string, string)>)
    ensures out == headers + extra
  {
    out := headers;
    var i := 0;
    while i < |extra|
      invariant 0 <= i <= |extra|
      invariant out == headers + extra[..i]
    {
      out := out + [extra[i]];
      i := i + 1;
    }
  }

  /** `send_wrapper`: only the response start message gets the CORS headers. */
  function Wrap(c: Config, origin: string, preflight: bool, m: Message): (r: Message)
    ensures m.Start? ==> r == Start(m.status, m.headers + Rendered(CorsHeaders(c, origin, preflight)))
    ensures !m.Start? ==> r == m
  {
    if m.Start? then Start(m.status, m.headers + Rendered(CorsHeaders(c, origin, preflight))) else m
  }

  /** The outcome of one request: the messages sent out, and whether the wrapped application
      ran (it would have sent `innerSends`). */
  datatype Outcome = Outcome(sent: seq<Message>, innerCalled: bool)

  /** `__call__`. */
  function Handle(c: Config, s: Scope, innerSends: seq<Message>): (r: Outcome)
  {
    if s.kind != "http" then Outcome(innerSends, true)
    else
      var preflight := s.httpMethod == "OPTIONS";
      var origin := OriginOf(s);
      if preflight then
        Outcome([Wrap(c, origin, true, Start(200, [])), Wrap(c, origin, true, BodyPart(""))], false)
      else Outcome(seq(|innerSends|, i requires 0 <= i < |innerSends| => Wrap(c, origin, false, innerSends[i])), true)
  }

  /** A scope that is not HTTP goes to the wrapped application untouched. */
  lemma NonHttpPassesThrough(c: Config, s: Scope, innerSends: seq<Message>)
    requires s.kind != "http"
    ensures Handle(c, s, innerSends) == Outcome(innerSends, true)
  {
  }

  /** A preflight request is answered with status 200, the preflight CORS headers and an
      empty body, without calling the wrapped application. */
  lemma PreflightAnswered(c: Config, s: Scope, innerSends: seq<Message>)
    requires s.kind == "http" && s.httpMethod == "OPTIONS"
    ensures var r := Handle(c, s, innerSends);
            && !r.innerCalled
            && r.sent == [Start(200, Rendered(CorsHeaders(c, OriginOf(s), true))), BodyPart("")]
  {
    assert [] + Rendered(CorsHeaders(c, OriginOf(s), true)) == Rendered(CorsHeaders(c, OriginOf(s), true));
  }

  /** Any other HTTP request runs the wrapped application; its messages go out in order,
      with the CORS headers added to the response start only. */
  lemma RegularRequestDecorated(c: Config, s: Scope, innerSends: seq<Message>)
    requires s.kind == "http" && s.httpMethod != "OPTIONS"
    ensures var r := Handle(c, s, innerSends);
            && r.innerCalled && |r.sent| == |innerSends|
            && forall i :: 0 <= i < |innerSends| ==>
                 (innerSends[i].Start? ==> r.sent[i] == Start(innerSends[i].status, innerSends[i].headers + Rendered(CorsHeaders(c, OriginOf(s), false))))
                 && (!innerSends[i].Start? ==> r.sent[i] == innerSends[i])
  {
  }
}
