// The ASGI token middleware (middlewares/auth_middleware.py): the token taken from the
// Authorization header or the `token` query parameter, the user it authenticates, and the
// `scope['user']` the inner application sees. Headers and the query string are given
// already decoded from Latin-1; validating an access token is a parameter `validate`, the
// `user_id` claim of a valid token and `None` otherwise.
module AuthMiddleware {
  import opened Wrappers
  import opened Text
  import opened UserModel
  import SocketAuth

  type Users = map<nat, UserRec>

  /** `scope['user']`: the anonymous user or a stored user. */
  datatype Principal = Anonymous | Authenticated(id: nat)

  /** `dict(headers).get(name)`: with repeated names the last one wins. */
  function HeaderValue(headers: seq<(string, string)>, name: string): (r: Option<string>)
    ensures r.None? <==> forall i :: 0 <= i < |headers| ==> headers[i].0 != name
    ensures r.Some? ==> exists i :: 0 <= i < |headers| && headers[i] == (name, r.value)
                                    && forall j :: i < j < |headers| ==> headers[j].0 != name
  {
    if |headers| == 0 then None
    else if headers[|headers| - 1].0 == name then Some(headers[|headers| - 1].1)
    else HeaderValue(headers[..|headers| - 1], name)
  }

  /** `dict(pairs).get(key)`: with repeated keys the last one wins. */
  function LastValue(pairs: seq<(string, string)>, key: string): (r: Option<string>)
    ensures r.None? <==> forall p :: p in pairs ==> p.0 != key
    ensures r.Some? ==> (key, r.value) in pairs
  {
    if |pairs| == 0 then None
    else if pairs[|pairs| - 1].0 == key then Some(pairs[|pairs| - 1].1)
    else LastValue(pairs[..|pairs| - 1], key)
  }

  /** The `ValueError` text of `dict` for an element of the wrong length. */
  function LengthError(k: nat, n: nat): string
  {
    "dictionary update sequence element #" + NatToString(k) + " has length " + NatToString(n) + "; 2 is required"
  }

  predicate HasEquals(s: string)
  {
    exists i :: 0 <= i < |s| && s[i] == '='
  }

  /** The pairs `dict(param.split('=') for param in params if '=' in param)` receives, as
      written: a parameter with more than one '=' splits into more than two parts and
      `dict` raises. `k` numbers the generated elements. */
  function QueryPairsAsWritten(params: seq<string>, k: nat): (r: Result<seq<(string, string)>>)
    ensures r.Ok? ==> forall p :: p in r.value ==> exists i :: 0 <= i < |params| && Split(params[i], '=') == [p.0, p.1]
    ensures r.Err? ==> exists i :: 0 <= i < |params| && HasEquals(params[i]) && |Split(params[i], '=')| != 2
    decreases |params|
  {
    if |params| == 0 then Ok([])
    else if !HasEquals(params[0]) then QueryPairsAsWritten(params[1..], k)
    else
      var f := Split(params[0], '=');
      if |f| != 2 then
        Err(LengthError(k, |f|))
      else
        match QueryPairsAsWritten(params[1..], k + 1)
        case Err(e) => Err(e)
        case Ok(rest) => Ok([(f[0], f[1])] + rest)
  }

  /** `_get_token_from_scope` as written: a bearer header wins, else the `token` query
      parameter, else the empty string; a query parameter with two '=' raises. */
  function TokenFromScopeAsWritten(headers: seq<(string, string)>, query: string): (r: Result<string>)
    ensures var auth := HeaderValue(headers, "authorization").GetOr("");
            StartsWith(auth, SocketAuth.Bearer) ==> r == Ok(SocketAuth.BearerToken(auth).value)
    ensures r.Err? ==> exists i :: 0 <= i < |Split(query, '&')| && HasEquals(Split(query, '&')[i])
                                   && |Split(Split(query, '&')[i], '=')| != 2
    ensures var auth := HeaderValue(headers, "authorization").GetOr("");
            r.Ok? && !StartsWith(auth, SocketAuth.Bearer) && r.value != "" ==>
              exists i :: 0 <= i < |Split(query, '&')| && Split(Split(query, '&')[i], '=') == ["token", r.value]
  {
    var auth := HeaderValue(headers, "authorization").GetOr("");
    if StartsWith(auth, SocketAuth.Bearer) then Ok(SocketAuth.BearerToken(auth).value)
    else
      match QueryPairsAsWritten(Split(query, '&'), 0)
      case Err(e) => Err(e)
      case Ok(pairs) => Ok(LastValue(pairs, "token").GetOr(""))
  }

  /** Any request without a bearer header whose query string is one parameter with a second
      '=' (such as `next=a=b`) fails before authentication is tried, so the inner application
      is never reached. */
  lemma SecondEqualsRaises(name: string, a: string, b: string)
    requires forall i :: 0 <= i < |name| ==> name[i] != '=' && name[i] != '&'
    requires forall i :: 0 <= i < |a| ==> a[i] != '=' && a[i] != '&'
    requires forall i :: 0 <= i < |b| ==> b[i] != '=' && b[i] != '&'
    ensures TokenFromScopeAsWritten([], name + "=" + a + "=" + b) == Err(LengthError(0, 3))
  {
    var q := name + "=" + a + "=" + b;
    assert q == name + ['='] + (a + ['='] + b);
    SplitAfterField(name, '=', a + ['='] + b);
    SplitAfterField(a, '=', b);
    SplitNoSep(b, '=');
    assert Split(q, '=') == [name, a, b];
    assert HasEquals(q) by { assert q[|name|] == '='; }
    assert QueryPairsAsWritten([q], 0) == Err(LengthError(0, 3));
    assert Split(q, '&') == [q] by {
      forall i | 0 <= i < |q| ensures q[i] != '&' {
        if i < |name| { assert q[i] == name[i]; }
        else if i == |name| { assert q[i] == '='; }
        else if i < |name| + 1 + |a| { assert q[i] == a[i - |name| - 1]; }
        else if i == |name| + 1 + |a| { assert q[i] == '='; }
        else { assert q[i] == b[i - |name| - |a| - 2]; }
      }
      SplitNoSep(q, '&');
    }
    assert !StartsWith("", SocketAuth.Bearer);
  }

  /** The query pairs with each parameter split at its first '=' (`split('=', 1)`). */
  function QueryPairs(params: seq<string>): (r: seq<(string, string)>)
    ensures |r| <= |params|
  {
    if |params| == 0 then []
    else
      match SplitOnce(params[0], '=')
      case None => QueryPairs(params[1..])
      case Some(nv) => [nv] + QueryPairs(params[1..])
  }

  /** Where no parameter has a second '=', splitting at the first '=' gives what the source
      gives. */
  lemma {:induction false} QueryPairsAgree(params: seq<string>, k: nat)
    requires forall i :: 0 <= i < |params| ==> |Split(params[i], '=')| <= 2
    ensures QueryPairsAsWritten(params, k) == Ok(QueryPairs(params))
    decreases |params|
  {
    if |params| > 0 {
      QueryPairsAgree(params[1..], if HasEquals(params[0]) then k + 1 else k);
      var p := params[0];
      match SplitOnce(p, '=')
      case None =>
      case Some((a, b)) =>
        assert HasEquals(p) by { assert p[|a|] == '='; }
        SplitAfterField(a, '=', b);
        var fb := Split(b, '=');
        assert |fb| == 1;
        SplitFieldsFree(b, '=');
        JoinSplit(b, '=');
        assert fb[0] == b;
    }
  }

  /** `_get_token_from_scope` with the parameters split at their first '='. */
  function TokenFromScope(headers: seq<(string, string)>, query: string): (r: string)
    ensures var auth := HeaderValue(headers, "authorization").GetOr("");
            StartsWith(auth, SocketAuth.Bearer) ==> r == SocketAuth.BearerToken(auth).value
    ensures var auth := HeaderValue(headers, "authorization").GetOr("");
            !StartsWith(auth, SocketAuth.Bearer) && r != "" ==> ("token", r) in QueryPairs(Split(query, '&'))
  {
    var auth := HeaderValue(headers, "authorization").GetOr("");
    if StartsWith(auth, SocketAuth.Bearer) then SocketAuth.BearerToken(auth).value
    else LastValue(QueryPairs(Split(query, '&')), "token").GetOr("")
  }

  /** The corrected reading gives the source's token whenever the source does not raise. */
  lemma TokenFromScopeAgrees(headers: seq<(string, string)>, query: string)
    requires forall i :: 0 <= i < |Split(query, '&')| ==> |Split(Split(query, '&')[i], '=')| <= 2
    ensures TokenFromScopeAsWritten(headers, query) == Ok(TokenFromScope(headers, query))
  {
    QueryPairsAgree(Split(query, '&'), 0);
  }

  /** A repeated `token` parameter: the last one is used. */
  lemma LastTokenWins(a: string, b: string)
    requires forall i :: 0 <= i < |a| ==> a[i] != '&' && a[i] != '='
    requires forall i :: 0 <= i < |b| ==> b[i] != '&' && b[i] != '='
    ensures TokenFromScope([], "token=" + a + "&token=" + b) == b
  {
    var q := "token=" + a + "&token=" + b;
    assert q == ("token=" + a) + ['&'] + ("token=" + b);
    assert "token=" + a == "token" + ['='] + a;
    assert "token=" + b == "token" + ['='] + b;
    SplitAfterField("token=" + a, '&', "token=" + b);
    SplitNoSep("token=" + b, '&');
    SplitOnceAt("token", '=', a);
    SplitOnceAt("token", '=', b);
    var params := Split(q, '&');
    assert params == ["token=" + a, "token=" + b];
    assert params[1..] == ["token=" + b];
    assert QueryPairs(params) == [("token", a), ("token", b)];
  }

  /** `_authenticate_credentials`: the user a valid token names, when it exists and is
      active. */
  function AuthenticateCredentials(token: string, validate: string -> Option<int>, users: Users): (r: Option<nat>)
    ensures r.Some? <==> validate(token).Some? && validate(token).value >= 0
                         && validate(token).value in users && users[validate(token).value].isActive
    ensures r.Some? ==> validate(token) == Some(r.value)
  {
    match validate(token)
    case None => None
    case Some(id) => if id >= 0 && id in users && users[id].isActive then Some(id) else None
  }

  /** The user a token authenticates: anonymous for an empty token or one that does not
      name a stored active user. */
  function PrincipalFor(token: string, validate: string -> Option<int>, users: Users): (p: Principal)
    ensures p.Authenticated? ==> p.id in users && users[p.id].isActive && validate(token) == Some(p.id)
    ensures token == "" ==> p == Anonymous
  {
    if token == "" then Anonymous
    else
      match AuthenticateCredentials(token, validate, users)
      case None => Anonymous
      case Some(id) => Authenticated(id)
  }

  /** What `__call__` does with a scope, as written: the error raised by
      `_get_token_from_scope`, which is outside the `try` and so ends the call before the
      inner application runs, or the principal left in the scope. */
  function ScopeUser(headers: seq<(string, string)>, query: string, validate: string -> Option<int>, users: Users)
    : (r: Result<Principal>)
    ensures r.Err? <==> TokenFromScopeAsWritten(headers, query).Err?
    ensures r.Ok? && r.value.Authenticated? ==> r.value.id in users && users[r.value.id].isActive
    ensures r.Ok? && TokenFromScopeAsWritten(headers, query).value == "" ==> r.value == Anonymous
  {
    match TokenFromScopeAsWritten(headers, query)
    case Err(e) => Err(e)
    case Ok(token) => Ok(PrincipalFor(token, validate, users))
  }

  /** Where no query parameter holds a second '=', the call goes on with the principal of
      the corrected token reading. */
  lemma ScopeUserAgrees(headers: seq<(string, string)>, query: string, validate: string -> Option<int>, users: Users)
    requires forall i :: 0 <= i < |Split(query, '&')| ==> |Split(Split(query, '&')[i], '=')| <= 2
    ensures ScopeUser(headers, query, validate, users) == Ok(PrincipalFor(TokenFromScope(headers, query), validate, users))
  {
    TokenFromScopeAgrees(headers, query);
  }

  /** The ASGI scope the middleware writes to. */
  class Scope {
    var user: Principal
    const headers: seq<(string, string)>
    const queryString: string

    constructor (headers: seq<(string, string)>, queryString: string)
      ensures this.headers == headers && this.queryString == queryString && user == Anonymous
    {
      this.headers := headers;
      this.queryString := queryString;
      user := Anonymous;
    }

    /** `TokenAuthMiddleware.__call__` up to handing the scope on: anonymous by default,
        replaced by the user a token authenticates. `failure` is the error that ends the
        call instead, in which case the inner application is not called. */
    method Authenticate(validate: string -> Option<int>, users: Users) returns (failure: Option<string>)
      modifies this
      ensures var r := ScopeUser(headers, queryString, validate, users);
              && (failure.None? <==> r.Ok?)
              && (r.Ok? ==> user == r.value)
              && (r.Err? ==> user == Anonymous && failure == Some(r.error))
    {
      user := Anonymous;
      var token := TokenFromScopeAsWritten(headers, queryString);
      if token.Err? {
        return Some(token.error);
      }
      failure := None;
      if token.value != "" {
        var found := AuthenticateCredentials(token.value, validate, users);
        if found.Some? {
          user := Authenticated(found.value);
        }
      }
    }
  }

  /** An unknown or inactive user, or an invalid token, leaves the scope anonymous; a
      token naming a stored active user puts that user in the scope; a bearer header is
      preferred to the query string. */
  lemma AnonymousUnlessActive(headers: seq<(string, string)>, query: string, validate: string -> Option<int>,
                              users: Users)
    requires TokenFromScopeAsWritten(headers, query).Ok?
    ensures var token := TokenFromScopeAsWritten(headers, query).value;
            var id := validate(token);
            (id.None? || id.value < 0 || id.value !in users || !users[id.value].isActive)
            ==> ScopeUser(headers, query, validate, users) == Ok(Anonymous)
    ensures var token := TokenFromScopeAsWritten(headers, query).value;
            token != "" && validate(token).Some? && validate(token).value >= 0
            && validate(token).value in users && users[validate(token).value].isActive
            ==> ScopeUser(headers, query, validate, users) == Ok(Authenticated(validate(token).value))
  {
  }
}
