// Socket.IO authentication (sockets/auth.py): reading a bearer token, the user a token or a
// session stands for, and the two session maps that `connect`, `authenticate`,
// `register_user` and `disconnect` update: `user_sessions` (user id to session id) and
// `session_users` (session id to user id), with `connected_clients`. Decoding and verifying
// a JWT is a parameter `claim`: the user id claim of a valid token, `None` otherwise.
module SocketAuth {
  import opened Wrappers
  import opened Text
  import opened UserModel

  /** Stored users by id. */
  type Users = map<nat, UserRec>

  const Bearer := "Bearer "

  /** `token_str.split(' ')[1]` for a string starting with "Bearer ": the text after the
      prefix up to the next space. */
  function BearerToken(s: string): (r: Option<string>)
    ensures r.Some? <==> StartsWith(s, Bearer)
    ensures r.Some? ==> r.value == Split(s[|Bearer|..], ' ')[0]
  {
    if !StartsWith(s, Bearer) then None
    else
      assert s == "Bearer" + [' '] + s[|Bearer|..];
      SplitAfterField("Bearer", ' ', s[|Bearer|..]);
      Some(Split(s, ' ')[1])
  }

  /** A token without spaces is read back from its header. */
  lemma BearerRoundTrip(token: string)
    requires forall i :: 0 <= i < |token| ==> token[i] != ' '
    ensures BearerToken(Bearer + token) == Some(token)
  {
    assert (Bearer + token)[|Bearer|..] == token;
    SplitNoSep(token, ' ');
  }

  /** `get_user_from_token`: the active user whose id a valid bearer token claims. A zero id
      is falsy and refused. */
  function UserFromToken(tokenStr: string, claim: string -> Option<int>, users: Users): (r: Option<nat>)
    ensures r.Some? ==> BearerToken(tokenStr).Some? && claim(BearerToken(tokenStr).value) == Some(r.value)
                        && r.value in users && users[r.value].isActive
    ensures var t := BearerToken(tokenStr);
            var c := if t.Some? then claim(t.value) else None;
            (c.Some? && c.value > 0 && c.value in users && users[c.value].isActive) ==> r == Some(c.value)
  {
    match BearerToken(tokenStr)
    case None => None
    case Some(t) =>
      match claim(t)
      case None => None
      case Some(id) =>
        if id == 0 then None
        else if id > 0 && id in users && users[id].isActive then Some(id)
        else None
  }

  /** The `(name, value)` pairs `parse_qs` keeps from '&'-separated fields: a field needs an
      '=' and a non-empty value. Percent-decoding is not modelled. */
  function QueryPairs(fields: seq<string>): (r: seq<(string, string)>)
    ensures forall p :: p in r ==> p.1 != ""
  {
    if |fields| == 0 then []
    else
      var rest := QueryPairs(fields[1..]);
      match SplitOnce(fields[0], '=')
      case None => rest
      case Some((name, value)) => if value == "" then rest else [(name, value)] + rest
  }

  /** `params[key][0]`: the first value given for `key`. */
  function FirstValue(pairs: seq<(string, string)>, key: string): (r: Option<string>)
    ensures r.Some? ==> (key, r.value) in pairs
    ensures r.None? <==> forall p :: p in pairs ==> p.0 != key
  {
    if |pairs| == 0 then None
    else if pairs[0].0 == key then Some(pairs[0].1)
    else FirstValue(pairs[1..], key)
  }

  /** The `token` query parameter, when one is given with a value. */
  function QueryToken(query: string): (r: Option<string>)
    ensures r.Some? ==> r.value != ""
  {
    FirstValue(QueryPairs(Split(query, '&')), "token")
  }

  /** A query string holding just the token gives it back. */
  lemma QueryTokenRoundTrip(token: string)
    requires token != "" && forall i :: 0 <= i < |token| ==> token[i] != '&'
    ensures QueryToken("token=" + token) == Some(token)
  {
    var q := "token=" + token;
    assert q == "token" + ['='] + token;
    SplitNoSep(q, '&');
    SplitOnceAt("token", '=', token);
  }

  /** The token `connect` tries: the query parameter first, else the Authorization header. */
  function ConnectToken(query: string, authHeader: string): (r: Option<string>)
    ensures QueryToken(query).Some? ==> r == QueryToken(query)
    ensures QueryToken(query).None? ==> r == BearerToken(authHeader)
  {
    if QueryToken(query).Some? then QueryToken(query) else BearerToken(authHeader)
  }

  /** The user `connect` authenticates, if any. */
  function ConnectUser(query: string, authHeader: string, claim: string -> Option<int>, users: Users)
    : (r: Option<nat>)
    ensures r.Some? ==> r.value in users && users[r.value].isActive
    ensures r.Some? ==> ConnectToken(query, authHeader).Some? && ConnectToken(query, authHeader).value != ""
  {
    match ConnectToken(query, authHeader)
    case None => None
    case Some(t) => if t == "" then None else UserFromToken(Bearer + t, claim, users)
  }

  /** Every registered user's session maps back to that user: a notification sent to a
      user's session reaches that user. */
  predicate Backed(userSessions: map<string, string>, sessionUsers: map<string, string>)
  {
    forall u :: u in userSessions ==> userSessions[u] in sessionUsers && sessionUsers[userSessions[u]] == u
  }

  /** Registering a session as written: both entries are overwritten, and nothing else. */
  function BindAsWritten(userSessions: map<string, string>, sessionUsers: map<string, string>, user: string, sid: string)
    : (r: (map<string, string>, map<string, string>))
    ensures r.0 == userSessions[user := sid] && r.1 == sessionUsers[sid := user]
  {
    (userSessions[user := sid], sessionUsers[sid := user])
  }

  /** A session that authenticates as a second user leaves the first user's entry pointing
      at it, so the first user's notifications go to the second user's socket. */
  lemma ReauthenticationLeaksSession()
    ensures var us := map["1" := "s"];
            var su := map["s" := "1"];
            var (us', su') := BindAsWritten(us, su, "2", "s");
            Backed(us, su) && !Backed(us', su') && us'["1"] == "s" && su'["s"] == "2"
  {
    var (us', su') := BindAsWritten(map["1" := "s"], map["s" := "1"], "2", "s");
    assert us'["1"] == "s" && su'["s"] == "2";
  }

  /** Registering a session with the previous user's entry for it dropped. */
  function Bind(userSessions: map<string, string>, sessionUsers: map<string, string>, user: string, sid: string)
    : (r: (map<string, string>, map<string, string>))
    ensures user in r.0 && r.0[user] == sid && sid in r.1 && r.1[sid] == user
    ensures r.1 == sessionUsers[sid := user]
    ensures forall u :: u in r.0 && u != user ==> u in userSessions && r.0[u] == userSessions[u]
    ensures forall u :: u in userSessions && u != user && userSessions[u] != sid ==> u in r.0
  {
    var cleared := if sid in sessionUsers && sessionUsers[sid] != user && sessionUsers[sid] in userSessions
                      && userSessions[sessionUsers[sid]] == sid
                   then userSessions - {sessionUsers[sid]} else userSessions;
    (cleared[user := sid], sessionUsers[sid := user])
  }

  /** The corrected registration keeps every registered session backed, and it behaves as
      written whenever the session was not another user's. */
  lemma BindKeepsBacked(userSessions: map<string, string>, sessionUsers: map<string, string>, user: string, sid: string)
    requires Backed(userSessions, sessionUsers)
    ensures var (us', su') := Bind(userSessions, sessionUsers, user, sid); Backed(us', su')
    ensures sid !in sessionUsers || sessionUsers[sid] == user
            ==> Bind(userSessions, sessionUsers, user, sid) == BindAsWritten(userSessions, sessionUsers, user, sid)
  {
    var (us', su') := Bind(userSessions, sessionUsers, user, sid);
    forall u | u in us'
      ensures us'[u] in su' && su'[us'[u]] == u
    {
      if u != user {
        assert userSessions[u] != sid;
      }
    }
  }

  /** `disconnect`'s effect on the maps: the session goes from `connected_clients` and
      `session_users`, and its user's entry goes only if it still points at this session. */
  function Unbind(userSessions: map<string, string>, sessionUsers: map<string, string>, sid: string)
    : (r: (map<string, string>, map<string, string>))
    ensures sid !in r.1 && r.1 == sessionUsers - {sid}
    ensures sid in sessionUsers && sessionUsers[sid] in userSessions && userSessions[sessionUsers[sid]] == sid
            ==> r.0 == userSessions - {sessionUsers[sid]}
    ensures !(sid in sessionUsers && sessionUsers[sid] in userSessions && userSessions[sessionUsers[sid]] == sid)
            ==> r.0 == userSessions
  {
    if sid in sessionUsers then
      var u := sessionUsers[sid];
      if u in userSessions && userSessions[u] == sid then (userSessions - {u}, sessionUsers - {sid})
      else (userSessions, sessionUsers - {sid})
    else (userSessions, sessionUsers)
  }

  /** Disconnecting keeps every registered session backed, and no user is left pointing at
      the closed session. */
  lemma UnbindKeepsBacked(userSessions: map<string, string>, sessionUsers: map<string, string>, sid: string)
    requires Backed(userSessions, sessionUsers)
    ensures var (us', su') := Unbind(userSessions, sessionUsers, sid);
            Backed(us', su') && forall u :: u in us' ==> us'[u] != sid
  {
    var (us', su') := Unbind(userSessions, sessionUsers, sid);
    forall u | u in us'
      ensures us'[u] in su' && su'[us'[u]] == u && us'[u] != sid
    {
      assert u in userSessions && us'[u] == userSessions[u];
    }
  }

  /** `get_user_from_sid`: the session's user id, and the active user it names. An id that
      is not a number fails the query, which gives no user. */
  function UserFromSid(sessionUsers: map<string, string>, sid: string, users: Users): (r: (Option<string>, Option<nat>))
    ensures sid !in sessionUsers ==> r == (None, None)
    ensures sid in sessionUsers ==> r.0 == Some(sessionUsers[sid])
    ensures r.1.Some? <==> sid in sessionUsers && ParseInt(sessionUsers[sid]).Some?
                           && ParseInt(sessionUsers[sid]).value >= 0
                           && ParseInt(sessionUsers[sid]).value in users && users[ParseInt(sessionUsers[sid]).value].isActive
    ensures r.1.Some? ==> ParseInt(sessionUsers[sid]) == Some(r.1.value)
  {
    if sid !in sessionUsers then (None, None)
    else
      var id := ParseInt(sessionUsers[sid]);
      if id.Some? && id.value >= 0 && id.value in users && users[id.value].isActive
      then (Some(sessionUsers[sid]), Some(id.value as nat))
      else (Some(sessionUsers[sid]), None)
  }

  /** The reply of `authenticate`. */
  datatype AuthReply = AuthFailed(message: string) | AuthSucceeded(userId: string, email: string, unread: nat)

  /** The reply of `register_user`. */
  datatype RegisterReply = Registered | NotRegistered

  const NoToken := "No token provided"
  const InvalidToken := "Invalid token"

  /** The module-level session maps. `connected_clients` is kept as its set of keys. */
  class SessionRegistry {
    var connectedClients: set<string>
    var userSessions: map<string, string>
    var sessionUsers: map<string, string>

    constructor ()
      ensures connectedClients == {} && userSessions == map[] && sessionUsers == map[]
    {
      connectedClients := {};
      userSessions := map[];
      sessionUsers := map[];
    }

    /** Register `user` with `sid` in both maps, as the handlers do: two plain assignments. */
    method Register(user: string, sid: string)
      modifies this
      ensures (userSessions, sessionUsers) == BindAsWritten(old(userSessions), old(sessionUsers), user, sid)
      ensures connectedClients == old(connectedClients)
    {
      userSessions := userSessions[user := sid];
      sessionUsers := sessionUsers[sid := user];
    }

    /** `connect`: authenticate from the query string or the Authorization header, and
        register the session when a user is found. */
    method Connect(sid: string, query: string, authHeader: string, claim: string -> Option<int>, users: Users)
      modifies this
      ensures var u := ConnectUser(query, authHeader, claim, users);
              && (u.None? ==> userSessions == old(userSessions) && sessionUsers == old(sessionUsers))
              && (u.Some? ==> (userSessions, sessionUsers)
                                == BindAsWritten(old(userSessions), old(sessionUsers), NatToString(u.value), sid))
      ensures connectedClients == old(connectedClients)
    {
      var token := QueryToken(query);
      if token.None? || token.value == "" {
        if StartsWith(authHeader, Bearer) {
          token := BearerToken(authHeader);
        }
      }
      var user: Option<nat> := None;
      if token.Some? && token.value != "" {
        user := UserFromToken(Bearer + token.value, claim, users);
      }
      if user.Some? {
        Register(NatToString(user.value), sid);
      }
    }

    /** `disconnect`. */
    method Disconnect(sid: string)
      modifies this
      ensures connectedClients == old(connectedClients) - {sid}
      ensures (userSessions, sessionUsers) == Unbind(old(userSessions), old(sessionUsers), sid)
    {
      if sid in connectedClients {
        connectedClients := connectedClients - {sid};
      }
      if sid in sessionUsers {
        var userId := sessionUsers[sid];
        sessionUsers := sessionUsers - {sid};
        if userId in userSessions && userSessions[userId] == sid {
          userSessions := userSessions - {userId};
        }
      }
    }

    /** `authenticate`: `unread` is the user's unread notification count. */
    method Authenticate(sid: string, token: Option<string>, claim: string -> Option<int>, users: Users,
                        unread: nat) returns (reply: AuthReply)
      modifies this
      ensures token.None? || token == Some("") ==> reply == AuthFailed(NoToken)
      ensures reply.AuthSucceeded? <==> token.Some? && token.value != "" && UserFromToken(Bearer + token.value, claim, users).Some?
      ensures reply.AuthFailed? ==> userSessions == old(userSessions) && sessionUsers == old(sessionUsers)
      ensures reply.AuthSucceeded? ==>
                var id := UserFromToken(Bearer + token.value, claim, users).value;
                && reply == AuthSucceeded(NatToString(id), users[id].email, unread)
                && (userSessions, sessionUsers) == BindAsWritten(old(userSessions), old(sessionUsers), NatToString(id), sid)
      ensures connectedClients == old(connectedClients)
    {
      if token.None? || token.value == "" {
        return AuthFailed(NoToken);
      }
      var user := UserFromToken(Bearer + token.value, claim, users);
      if user.None? {
        return AuthFailed(InvalidToken);
      }
      var userId := NatToString(user.value);
      Register(userId, sid);
      reply := AuthSucceeded(userId, users[user.value].email, unread);
    }

    /** `register_user` (the legacy path): any non-empty user id is registered as given. */
    method RegisterUser(sid: string, userId: Option<string>) returns (reply: RegisterReply)
      modifies this
      ensures reply == Registered <==> userId.Some? && userId.value != ""
      ensures reply == NotRegistered ==> userSessions == old(userSessions) && sessionUsers == old(sessionUsers)
      ensures reply == Registered ==>
                (userSessions, sessionUsers) == BindAsWritten(old(userSessions), old(sessionUsers), userId.value, sid)
      ensures connectedClients == old(connectedClients)
    {
      if userId.Some? && userId.value != "" {
        Register(userId.value, sid);
        return Registered;
      }
      return NotRegistered;
    }
  }

  /** After a session authenticates, `get_user_from_sid` finds the same user again while it
      stays active, with the binding as written and with the corrected one. */
  lemma AuthenticatedSessionFindsUser(userSessions: map<string, string>, sessionUsers: map<string, string>,
                                      id: nat, sid: string, users: Users)
    requires id in users && users[id].isActive
    ensures var (_, su') := BindAsWritten(userSessions, sessionUsers, NatToString(id), sid);
            UserFromSid(su', sid, users) == (Some(NatToString(id)), Some(id))
    ensures var (_, su') := Bind(userSessions, sessionUsers, NatToString(id), sid);
            UserFromSid(su', sid, users) == (Some(NatToString(id)), Some(id))
  {
    ParseIntRoundTrip(id);
    assert IntToString(id) == NatToString(id);
  }
}
