// The API activity middleware (middlewares/activity_middleware.py): redaction of secrets
// in request bodies, the security-endpoint and action-type rules, and what
// `_process_response` does to a response and which activity it records.
// Clock readings are integer milliseconds.
module ActivityMiddleware {
  import opened Wrappers
  import opened JsonValues
  import Text
  import ActivityLog

  /** Paths whose requests are passed through untouched. */
  const ExemptPaths: seq<string> := ["/api/auth/refresh/", "/api/health/", "/api/system/metrics/current/"]

  /** Words that mark a body key as secret. */
  const SensitiveParams: seq<string> :=
    ["password", "token", "key", "secret", "authorization", "current_password", "new_password", "credit_card", "otp"]

  const RedactedText := "[REDACTED]"

  /** A key is secret when its lower-case form contains one of the sensitive words. */
  predicate IsSensitiveKey(key: string)
  {
    exists i :: 0 <= i < |SensitiveParams| && Text.Contains(Text.Lower(key), SensitiveParams[i])
  }

  // ---------------------------------------------------------------------------
  // _sanitize_data

  /** The value stored for one key of a sanitised object. */
  function SanitizedValue(key: string, value: Json): Json
    decreases value, 1
  {
    if IsSensitiveKey(key) then JStr(RedactedText) else Sanitize(value)
  }

  /** `_sanitize_data`: a fresh copy with every secret value replaced, at any depth;
      objects keep their keys in order and lists their length. */
  function Sanitize(v: Json): (r: Json)
    ensures v.JObj? <==> r.JObj?
    ensures v.JList? <==> r.JList?
    ensures !v.JObj? && !v.JList? ==> r == v
    decreases v, 0
  {
    match v
    case JObj(fs) =>
      JObj(seq(|fs|, i requires 0 <= i < |fs| => (fs[i].0, SanitizedValue(fs[i].0, fs[i].1))))
    case JList(xs) => JList(seq(|xs|, i requires 0 <= i < |xs| => Sanitize(xs[i])))
    case _ => v
  }

  lemma SanitizeShape(v: Json)
    ensures v.JObj? ==> |Sanitize(v).fields| == |v.fields|
                        && forall i :: 0 <= i < |v.fields| ==> Sanitize(v).fields[i] == (v.fields[i].0, SanitizedValue(v.fields[i].0, v.fields[i].1))
    ensures v.JList? ==> |Sanitize(v).items| == |v.items|
                         && forall i :: 0 <= i < |v.items| ==> Sanitize(v).items[i] == Sanitize(v.items[i])
  {
  }

  /** No secret is left: every secret key, at any depth, holds the redaction marker. */
  predicate IsSanitized(v: Json)
    decreases v
  {
    match v
    case JObj(fs) =>
      forall i :: 0 <= i < |fs| ==> if IsSensitiveKey(fs[i].0) then fs[i].1 == JStr(RedactedText) else IsSanitized(fs[i].1)
    case JList(xs) => forall i :: 0 <= i < |xs| ==> IsSanitized(xs[i])
    case _ => true
  }

  /** Sanitising leaves no secret behind. */
  lemma {:induction false} SanitizeRedacts(v: Json)
    ensures IsSanitized(Sanitize(v))
    decreases v
  {
    SanitizeShape(v);
    match v
    case JObj(fs) =>
      var r := Sanitize(v).fields;
      forall i | 0 <= i < |r|
        ensures if IsSensitiveKey(r[i].0) then r[i].1 == JStr(RedactedText) else IsSanitized(r[i].1)
      {
        if !IsSensitiveKey(fs[i].0) {
          SanitizeRedacts(fs[i].1);
        }
      }
    case JList(xs) =>
      forall i | 0 <= i < |xs|
        ensures IsSanitized(Sanitize(v).items[i])
      {
        SanitizeRedacts(xs[i]);
      }
    case _ =>
  }

  /** Sanitising a value with no secret left changes nothing. */
  lemma {:induction false} SanitizedIsFixed(v: Json)
    requires IsSanitized(v)
    ensures Sanitize(v) == v
    decreases v
  {
    SanitizeShape(v);
    match v
    case JObj(fs) =>
      var r := Sanitize(v).fields;
      forall i | 0 <= i < |fs|
        ensures r[i] == fs[i]
      {
        if !IsSensitiveKey(fs[i].0) {
          SanitizedIsFixed(fs[i].1);
        }
      }
      assert r == fs;
    case JList(xs) =>
      var r := Sanitize(v).items;
      forall i | 0 <= i < |xs|
        ensures r[i] == xs[i]
      {
        SanitizedIsFixed(xs[i]);
      }
      assert r == xs;
    case _ =>
  }

  /** `_sanitize_data` is idempotent. */
  lemma SanitizeIdempotent(v: Json)
    ensures Sanitize(Sanitize(v)) == Sanitize(v)
  {
    SanitizeRedacts(v);
    SanitizedIsFixed(Sanitize(v));
  }

  // ---------------------------------------------------------------------------
  // _is_security_endpoint and _determine_action_type

  const SecurityPaths: seq<string> := ["/api/auth/login", "/api/auth/logout", "/api/users/", "/api/roles/"]

  /** The endpoints whose requests are always logged. */
  predicate IsSecurityEndpoint(path: string)
  {
    exists i :: 0 <= i < |SecurityPaths| && Text.StartsWith(path, SecurityPaths[i])
  }

  /** `_is_security_endpoint`: the loop over the prefixes, returning at the first match. */
  method CheckSecurityEndpoint(path: string) returns (b: bool)
    ensures b == IsSecurityEndpoint(path)
  {
    var i := 0;
    while i < |SecurityPaths|
      invariant 0 <= i <= |SecurityPaths|
      invariant forall j :: 0 <= j < i ==> !Text.StartsWith(path, SecurityPaths[j])
    {
      if Text.StartsWith(path, SecurityPaths[i]) {
        return true;
      }
      i := i + 1;
    }
    return false;
  }

  /** The action types the middleware records. */
  const ActionTypes: set<string> := {"login", "logout", "password_change", "role_change", "profile_update", "api_access"}

  /** The rungs of `_determine_action_type` test prefixes no path has two of, so their
      order matters only inside the `/api/users/` rungs. */
  lemma AuthPrefixesDisjoint(path: string)
    ensures !(Text.StartsWith(path, "/api/auth/login") && Text.StartsWith(path, "/api/auth/logout"))
    ensures !(Text.StartsWith(path, "/api/auth/login") && Text.StartsWith(path, "/api/auth/refresh"))
    ensures !(Text.StartsWith(path, "/api/auth/logout") && Text.StartsWith(path, "/api/auth/refresh"))
    ensures Text.StartsWith(path, "/api/users/") ==>
              && !Text.StartsWith(path, "/api/auth/login") && !Text.StartsWith(path, "/api/auth/logout")
              && !Text.StartsWith(path, "/api/auth/refresh")
  {
    if Text.StartsWith(path, "/api/auth/login") {
      assert path[13] == 'i';
    }
    if Text.StartsWith(path, "/api/auth/logout") {
      assert path[13] == 'o';
    }
    if Text.StartsWith(path, "/api/users/") {
      assert path[5] == 'u';
    }
    if Text.StartsWith(path, "/api/auth/refresh") {
      assert path[10] == 'r' && path[5] == 'a';
    }
  }

  /** `_determine_action_type`. */
  function DetermineActionType(path: string, httpMethod: string): (r: string)
    ensures r in ActionTypes
    ensures r != "api_access" ==> IsSecurityEndpoint(path)
    ensures Text.StartsWith(path, "/api/auth/login") ==> r == "login"
    ensures r == "login" <==> Text.StartsWith(path, "/api/auth/login")
    ensures r == "password_change" ==> Text.Contains(path, "change-password")
    ensures r == "role_change" ==> Text.Contains(path, "set_role") && !Text.Contains(path, "change-password")
    ensures r == "profile_update" ==> httpMethod in {"PUT", "PATCH"}
    ensures r == "logout" <==> Text.StartsWith(path, "/api/auth/logout")
    ensures r == "password_change" <==> Text.StartsWith(path, "/api/users/") && Text.Contains(path, "change-password")
    ensures r == "role_change" <==>
              Text.StartsWith(path, "/api/users/") && !Text.Contains(path, "change-password") && Text.Contains(path, "set_role")
    ensures r == "profile_update" <==>
              && Text.StartsWith(path, "/api/users/") && !Text.Contains(path, "change-password")
              && !Text.Contains(path, "set_role") && httpMethod in {"PUT", "PATCH"}
    ensures Text.StartsWith(path, "/api/auth/refresh") ==> r == "api_access"
  {
    AuthPrefixesDisjoint(path);
    if Text.StartsWith(path, "/api/auth/login") then
      assert Text.StartsWith(path, SecurityPaths[0]);
      "login"
    else if Text.StartsWith(path, "/api/auth/logout") then
      assert Text.StartsWith(path, SecurityPaths[1]);
      "logout"
    else if Text.StartsWith(path, "/api/auth/refresh") then "api_access"
    else if Text.StartsWith(path, "/api/users/") then
      assert Text.StartsWith(path, SecurityPaths[2]);
      if Text.Contains(path, "change-password") then "password_change"
      else if Text.Contains(path, "set_role") then "role_change"
      else if httpMethod == "PUT" || httpMethod == "PATCH" then "profile_update"
      else "api_access"
    else "api_access"
  }

  // ---------------------------------------------------------------------------
  // _process_response

  /** The request body as `_get_sanitized_request_data` sees it: none, JSON (`None` when it
      does not parse), a form, or any other content type. */
  datatype Body = NoBody | JsonBody(parsed: Option<Json>) | FormBody(fields: seq<(string, Json)>) | OtherBody

  datatype Request = Request(
    path: string, pathInfo: string, httpMethod: string, meta: map<string, string>,
    user: Option<nat>, startMs: Option<int>, query: seq<(string, Json)>, body: Body)

  /** A response: the status is fixed, the headers are set in place. */
  class Response {
    const status: int
    var headers: map<string, string>

    constructor (status: int, headers: map<string, string>)
      ensures this.status == status && this.headers == headers
    {
      this.status := status;
      this.headers := headers;
    }
  }

  /** Static and media files and the exempt paths. */
  predicate IsExempt(r: Request)
  {
    var p := Text.LStripWhile(r.pathInfo, c => c == '/');
    Text.StartsWith(p, "static/") || Text.StartsWith(p, "media/") || r.path in ExemptPaths
  }

  /** The client address: the first field of X-Forwarded-For, stripped, else REMOTE_ADDR. */
  function ClientIp(meta: map<string, string>): (r: Option<string>)
    ensures "HTTP_X_FORWARDED_FOR" in meta && meta["HTTP_X_FORWARDED_FOR"] != "" ==>
              r.Some? && ',' !in r.value && r.value == Text.Strip(Text.Split(meta["HTTP_X_FORWARDED_FOR"], ',')[0])
              && Text.StartsWith(meta["HTTP_X_FORWARDED_FOR"], Text.Split(meta["HTTP_X_FORWARDED_FOR"], ',')[0])
    ensures ("HTTP_X_FORWARDED_FOR" !in meta || meta["HTTP_X_FORWARDED_FOR"] == "") ==>
              r == (if "REMOTE_ADDR" in meta then Some(meta["REMOTE_ADDR"]) else None)
  {
    if "HTTP_X_FORWARDED_FOR" in meta && meta["HTTP_X_FORWARDED_FOR"] != "" then
      var xff := meta["HTTP_X_FORWARDED_FOR"];
      Text.SplitFieldsFree(xff, ',');
      Text.JoinSplit(xff, ',');
      FirstFieldIsPrefix(xff);
      var first := Text.Split(xff, ',')[0];
      var ip := Text.Strip(first);
      assert forall j :: 0 <= j < |first| ==> first[j] != ',';
      assert ',' !in ip;
      Some(ip)
    else if "REMOTE_ADDR" in meta then Some(meta["REMOTE_ADDR"])
    else None
  }

  lemma {:induction false} FirstFieldIsPrefix(s: string)
    ensures Text.StartsWith(s, Text.Split(s, ',')[0])
    decreases |s|
  {
    if |s| > 0 && s[0] != ',' {
      FirstFieldIsPrefix(s[1..]);
      assert s == [s[0]] + s[1..];
    }
  }

  /** `_get_sanitized_request_data`. */
  function SanitizedBody(b: Body): (r: Json)
    ensures b.JsonBody? && b.parsed.Some? ==> r == Sanitize(b.parsed.value)
    ensures b.FormBody? ==> r == Sanitize(JObj(b.fields))
  {
    match b
    case NoBody => JStr("{}")
    case JsonBody(p) => if p.Some? then Sanitize(p.value) else JStr("[Invalid JSON]")
    case FormBody(fs) => Sanitize(JObj(fs))
    case OtherBody => JStr("[Binary data]")
  }

  /** `f"{seconds:.2f}s"` from a duration in milliseconds, rounded to hundredths. */
  function SecondsText(ms: int): string
  {
    var h := if ms >= 0 then (ms + 5) / 10 else 0;
    var cents := h % 100;
    Text.IntToString(h / 100) + "." + [Text.DigitChar(cents / 10), Text.DigitChar(cents % 10)] + "s"
  }

  /** The `details` the middleware attaches to a recorded activity. */
  function Details(r: Request, status: int, nowMs: int): Json
  {
    JObj([("method", JStr(r.httpMethod)), ("path", JStr(r.path)), ("status_code", JInt(status)),
          ("response_time", if r.startMs.Some? then JStr(SecondsText(nowMs - r.startMs.value)) else JNull),
          ("query_params", JObj(r.query)), ("body", SanitizedBody(r.body))])
  }

  /** Only authenticated requests with a non-2xx status, or on a security endpoint. */
  predicate ShouldLog(r: Request, status: int)
  {
    r.user.Some? && (status < 200 || status >= 300 || IsSecurityEndpoint(r.path))
  }

  /** The activity `log_activity` would record for a response that is not exempt. */
  function Activity(r: Request, status: int, nowMs: int): (e: Option<ActivityLog.LogEntry>)
    ensures !ShouldLog(r, status) ==> e.None?
  {
    if !ShouldLog(r, status) then None
    else
      var agent := if "HTTP_USER_AGENT" in r.meta then r.meta["HTTP_USER_AGENT"] else "";
      ActivityLog.LogActivity(r.user, DetermineActionType(r.path, r.httpMethod), ClientIp(r.meta), Some(agent),
                              Details(r, status, nowMs), None, "info", None, None, None)
  }

  /** Since an action outside the security endpoints is 'api_access', which `log_activity`
      never records, the only activities recorded are on security endpoints, and a
      recorded body never holds a secret. */
  lemma RecordsOnlySecurityEndpoints(r: Request, status: int, nowMs: int)
    requires Activity(r, status, nowMs).Some?
    ensures IsSecurityEndpoint(r.path)
    ensures Activity(r, status, nowMs).value.action != "api_access"
    ensures r.body.JsonBody? && r.body.parsed.Some? ==> IsSanitized(SanitizedBody(r.body))
  {
    if r.body.JsonBody? && r.body.parsed.Some? {
      SanitizeRedacts(r.body.parsed.value);
    }
  }

  /** As written, the model it imports (`UserActivity`) does not exist in `api.models.activity`:
      the ImportError is caught and only a log line is written, so no activity is ever recorded. */
  function ActivityAsWritten(r: Request, status: int, nowMs: int): (e: Option<ActivityLog.LogEntry>)
    ensures e.None?
  {
    None
  }

  /** A failed login by an authenticated user is recorded by the intended code and lost as written. */
  lemma ActivityAsWrittenLosesLogins()
    ensures var r := Request("/api/auth/login/", "/api/auth/login/", "POST", map[], Some(1), None, [], NoBody);
            Activity(r, 401, 0).Some? && ActivityAsWritten(r, 401, 0).None?
  {
    var r := Request("/api/auth/login/", "/api/auth/login/", "POST", map[], Some(1), None, [], NoBody);
    assert Text.StartsWith(r.path, SecurityPaths[0]);
    assert DetermineActionType(r.path, r.httpMethod) == "login";
  }

  /** `_process_response`: exempt requests pass untouched; otherwise the response-time header
      is set when the start time is known, and the activity recorded, as written, is returned:
      none, since the import of `UserActivity` fails. */
  method ProcessResponse(r: Request, response: Response, nowMs: int) returns (entry: Option<ActivityLog.LogEntry>)
    modifies response
    ensures IsExempt(r) ==> response.headers == old(response.headers) && entry.None?
    ensures !IsExempt(r) ==>
              response.headers == (if r.startMs.Some?
                                   then old(response.headers)["X-Response-Time" := Text.IntToString(nowMs - r.startMs.value)]
                                   else old(response.headers))
    ensures !IsExempt(r) ==> entry == ActivityAsWritten(r, response.status, nowMs)
  {
    if IsExempt(r) {
      return None;
    }
    if r.startMs.Some? {
      response.headers := response.headers["X-Response-Time" := Text.IntToString(nowMs - r.startMs.value)];
    }
    entry := ActivityAsWritten(r, response.status, nowMs);
  }
}
