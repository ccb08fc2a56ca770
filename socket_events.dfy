// The notification events of the socket server (sockets/events.py): `send_notification`,
// `get_notifications` and `mark_notification_read`, over the notification table and the
// session maps of `SocketAuth`. Event data is a JSON object as a map; stored users are a
// set of ids. The table is kept in insertion order, which is the order of the creation
// timestamps; an exception inside a handler is the reply `Failed` (its text is not
// modelled).
module SocketEvents {
  import opened Wrappers
  import opened Text
  import opened JsonValues

  /** A notification row. `user` is `None` for a system-wide notification. */
  datatype NotificationRow = NotificationRow(
    id: nat, user: Option<nat>, title: Json, message: Json, kind: string,
    isRead: bool, isSystem: bool, source: Json)

  /** `to_dict()` with the toast duration added. */
  datatype Payload = Payload(row: NotificationRow, duration: Json)

  datatype Reply =
    | Error(message: string)
    | Failed
    | Success(message: string)
    | Page(items: seq<NotificationRow>, count: nat)

  const Kinds: seq<string> := ["info", "success", "warning", "error"]
  const DefaultDuration := 5000
  const DefaultLimit := 10
  const MaxLimit := 100

  const MissingFields := "Missing required fields (user_id, title)"
  const Unauthenticated := "Unauthenticated user"
  const MissingId := "Missing notification_id"
  const NotificationNotFound := "Notification not found"
  const SentLive := "Notification sent"
  const MarkedRead := "Notification marked as read"
  const StoredOnly := "Notification stored in database (user not connected)"

  /** `data.get(key, default)`. */
  function Get(data: map<string, Json>, key: string, default: Json): Json
  {
    if key in data then data[key] else default
  }

  /** `str(value)` for the values an id can take. */
  function PyStr(v: Json): string
  {
    match v
    case JStr(s) => s
    case JInt(i) => IntToString(i)
    case JBool(b) => if b then "True" else "False"
    case _ => ""
  }

  /** The notification type stored: one of the four kinds, anything else becoming 'info'. */
  function Kind(v: Json): (k: string)
    ensures k in Kinds
    ensures v.JStr? && v.s in Kinds ==> k == v.s
    ensures !(v.JStr? && v.s in Kinds) ==> k == "info"
  {
    if v.JStr? && v.s in Kinds then v.s else "info"
  }

  /** What `send_notification` decides: the reply, the row it creates (if any) and the
      session it emits to (if any). */
  datatype SendOutcome = SendOutcome(reply: Reply, created: Option<NotificationRow>, emitTo: Option<(string, Payload)>)

  function SendNotification(data: map<string, Json>, users: set<nat>, userSessions: map<string, string>, newId: nat)
    : (r: SendOutcome)
    ensures !Truthy(Get(data, "user_id", JNull)) || !Truthy(Get(data, "title", JStr("")))
            ==> r == SendOutcome(Error(MissingFields), None, None)
    ensures r.created.Some? ==> var row := r.created.value;
              && row.kind in Kinds && row.user.Some? && row.user.value in users && !row.isRead && !row.isSystem
              && row.id == newId && row.title == Get(data, "title", JStr(""))
    ensures r.emitTo.Some? ==> r.created.Some? && r.emitTo.value.1 == Payload(r.created.value, Get(data, "duration", JInt(DefaultDuration)))
                               && Get(data, "user_id", JNull).JStr? && Get(data, "user_id", JNull).s in userSessions
                               && r.emitTo.value.0 == userSessions[Get(data, "user_id", JNull).s]
    ensures r.reply.Success? <==> r.created.Some?
    ensures var userId := Get(data, "user_id", JNull);
            r.created.Some? <==>
              && Truthy(userId) && Truthy(Get(data, "title", JStr("")))
              && PyInt(userId).Some? && PyInt(userId).value >= 0 && PyInt(userId).value in users
              && !Get(data, "source", JStr("user")).JNull?
    ensures r.created.Some? ==> && PyInt(Get(data, "user_id", JNull)).Some?
                                && r.created.value.user.value == PyInt(Get(data, "user_id", JNull)).value
                                && r.created.value.message == Get(data, "message", JStr(""))
                                && r.created.value.source == Get(data, "source", JStr("user"))
    ensures var userId := Get(data, "user_id", JNull);
            && Truthy(userId) && Truthy(Get(data, "title", JStr("")))
            && PyInt(userId).Some? && PyInt(userId).value >= 0 && PyInt(userId).value in users
            && Get(data, "source", JStr("user")).JNull?
            ==> r == SendOutcome(Failed, None, None)
  {
    var userId := Get(data, "user_id", JNull);
    var title := Get(data, "title", JStr(""));
    var message := Get(data, "message", JStr(""));
    var kind := Kind(Get(data, "type", JStr("info")));
    var duration := Get(data, "duration", JInt(DefaultDuration));
    var source := Get(data, "source", JStr("user"));
    if !Truthy(userId) || !Truthy(title) then SendOutcome(Error(MissingFields), None, None)
    else
      match PyInt(userId)
      case None => SendOutcome(Failed, None, None)
      case Some(id) =>
        if id < 0 || id !in users then SendOutcome(Error("User " + PyStr(userId) + " not found"), None, None)
        // `source` is a NOT NULL column: creating the row with a null source raises an
        // IntegrityError, which the handler answers as an error.
        else if source.JNull? then SendOutcome(Failed, None, None)
        else
          var row := NotificationRow(newId, Some(id), title, message, kind, false, false, source);
          if userId.JStr? && userId.s in userSessions
          then SendOutcome(Success(SentLive), Some(row), Some((userSessions[userId.s], Payload(row, duration))))
          else SendOutcome(Success(StoredOnly), Some(row), None)
  }

  /** A numeric `user_id` never reaches a live session: the session map is keyed by the
      string form of the id, so the notification is only stored. */
  lemma NumericUserIdOnlyStored(data: map<string, Json>, users: set<nat>, userSessions: map<string, string>, newId: nat)
    requires "user_id" in data && data["user_id"].JInt?
    ensures SendNotification(data, users, userSessions, newId).emitTo.None?
  {
  }

  /** The clamps of `get_notifications`: `limit` into [1, 100] and `offset` at least 0;
      if either does not convert to an integer both fall back to 10 and 0. */
  function Paging(limit: Json, offset: Json): (r: (nat, nat))
    ensures 1 <= r.0 <= MaxLimit
    ensures PyInt(limit).None? || PyInt(offset).None? ==> r == (DefaultLimit, 0)
    ensures PyInt(limit).Some? && PyInt(offset).Some? ==>
              var l := PyInt(limit).value;
              var o := PyInt(offset).value;
              && r.0 == (if l < 1 then 1 else if l > MaxLimit then MaxLimit else l)
              && r.1 == (if o < 0 then 0 else o)
  {
    match (PyInt(limit), PyInt(offset))
    case (Some(l), Some(o)) =>
      var lim := if l < 1 then 1 else if l > MaxLimit then MaxLimit else l;
      (lim, if o < 0 then 0 else o)
    case _ => (DefaultLimit, 0)
  }

  /** `filter(user=user)` before any ordering: the user's rows in table order, oldest first. */
  function OwnRows(rows: seq<NotificationRow>, user: nat): seq<NotificationRow>
  {
    if |rows| == 0 then []
    else (if rows[0].user == Some(user) then [rows[0]] else []) + OwnRows(rows[1..], user)
  }

  /** A sequence in reverse order. */
  function Reverse<T>(s: seq<T>): (r: seq<T>)
    ensures |r| == |s|
    ensures forall i :: 0 <= i < |s| ==> r[i] == s[|s| - 1 - i]
  {
    if |s| == 0 then [] else Reverse(s[1..]) + [s[0]]
  }

  /** A user's notifications, newest first (`order_by('-timestamp')`): every own row once,
      no other row. */
  function UserRows(rows: seq<NotificationRow>, user: nat): (r: seq<NotificationRow>)
    ensures forall n :: n in r ==> n in rows && n.user == Some(user)
    ensures forall n :: n in rows && n.user == Some(user) ==> n in r
    ensures forall n :: multiset(r)[n] == if n.user == Some(user) then multiset(rows)[n] else 0
    ensures |r| <= |rows|
  {
    if |rows| == 0 then []
    else
      var last := rows[|rows| - 1];
      var rest := UserRows(rows[..|rows| - 1], user);
      assert rows == rows[..|rows| - 1] + [last];
      assert multiset(rows) == multiset(rows[..|rows| - 1]) + multiset{last};
      assert forall n :: n in rows ==> n == last || n in rows[..|rows| - 1];
      if last.user == Some(user) then [last] + rest else rest
  }

  lemma {:induction false} OwnRowsSnoc(rows: seq<NotificationRow>, x: NotificationRow, user: nat)
    ensures OwnRows(rows + [x], user) == OwnRows(rows, user) + (if x.user == Some(user) then [x] else [])
    decreases |rows|
  {
    if |rows| == 0 {
      assert OwnRows([x], user) == (if x.user == Some(user) then [x] else []) + OwnRows([], user);
    } else {
      var head := if rows[0].user == Some(user) then [rows[0]] else [];
      var tail := if x.user == Some(user) then [x] else [];
      assert (rows + [x])[0] == rows[0];
      assert (rows + [x])[1..] == rows[1..] + [x];
      assert OwnRows(rows + [x], user) == head + OwnRows(rows[1..] + [x], user);
      OwnRowsSnoc(rows[1..], x, user);
      assert OwnRows(rows, user) == head + OwnRows(rows[1..], user);
      assert head + (OwnRows(rows[1..], user) + tail) == (head + OwnRows(rows[1..], user)) + tail;
    }
  }

  lemma ReverseAppend<T>(a: seq<T>, b: seq<T>)
    ensures Reverse(a + b) == Reverse(b) + Reverse(a)
  {
    assert forall i :: 0 <= i < |a + b| ==> Reverse(a + b)[i] == (Reverse(b) + Reverse(a))[i];
  }

  /** The page source is the user's rows in reverse table order, that is newest first:
      the k-th row listed is the k-th newest. */
  lemma {:induction false} UserRowsNewestFirst(rows: seq<NotificationRow>, user: nat)
    ensures UserRows(rows, user) == Reverse(OwnRows(rows, user))
    decreases |rows|
  {
    if |rows| > 0 {
      var init, last := rows[..|rows| - 1], rows[|rows| - 1];
      assert rows == init + [last];
      UserRowsNewestFirst(init, user);
      OwnRowsSnoc(init, last, user);
      var tail := if last.user == Some(user) then [last] else [];
      ReverseAppend(OwnRows(init, user), tail);
      assert Reverse(tail) == tail;
    }
  }

  /** Python slicing `s[a:b]` for non-negative bounds. */
  function Slice<T>(s: seq<T>, a: nat, b: nat): (r: seq<T>)
    ensures |r| <= (if b >= a then b - a else 0)
    ensures forall x :: x in r ==> x in s
  {
    var lo := if a > |s| then |s| else a;
    var hi := if b > |s| then |s| else if b < lo then lo else b;
    s[lo..hi]
  }

  /** Two adjacent pages together are the page spanning both: paging by `offset += limit`
      lists every notification once, in order. */
  lemma AdjacentPages<T>(s: seq<T>, a: nat, l: nat, m: nat)
    ensures Slice(s, a, a + l) + Slice(s, a + l, a + l + m) == Slice(s, a, a + l + m)
  {
    var lo := if a > |s| then |s| else a;
    var mid := if a + l > |s| then |s| else a + l;
    var hi := if a + l + m > |s| then |s| else a + l + m;
    assert s[lo..mid] + s[mid..hi] == s[lo..hi];
  }

  /** `get_notifications`: one page of the requester's own notifications, with their total. */
  function GetNotifications(sessionUsers: map<string, string>, sid: string, data: map<string, Json>,
                            users: set<nat>, rows: seq<NotificationRow>): (r: Reply)
    ensures sid !in sessionUsers ==> r == Error(Unauthenticated)
    ensures r.Page? ==> var (limit, offset) := Paging(Get(data, "limit", JInt(DefaultLimit)), Get(data, "offset", JInt(0)));
                        |r.items| <= limit
    ensures r.Page? && |r.items| > 0 ==>
              && ParseInt(sessionUsers[sid]).Some? && ParseInt(sessionUsers[sid]).value >= 0
              && (forall n :: n in r.items ==> n in rows && n.user == Some(ParseInt(sessionUsers[sid]).value))
              && r.count == |UserRows(rows, ParseInt(sessionUsers[sid]).value)|
    ensures sid in sessionUsers && ParseInt(sessionUsers[sid]).None? ==> r == Failed
    ensures sid in sessionUsers && ParseInt(sessionUsers[sid]).Some?
            && (ParseInt(sessionUsers[sid]).value < 0 || ParseInt(sessionUsers[sid]).value !in users)
            ==> r == Page([], 0)
    ensures sid in sessionUsers && ParseInt(sessionUsers[sid]).Some?
            && ParseInt(sessionUsers[sid]).value >= 0 && ParseInt(sessionUsers[sid]).value in users
            ==> var (limit, offset) := Paging(Get(data, "limit", JInt(DefaultLimit)), Get(data, "offset", JInt(0)));
                var mine := UserRows(rows, ParseInt(sessionUsers[sid]).value);
                r == Page(Slice(mine, offset, offset + limit), |mine|)
  {
    if sid !in sessionUsers then Error(Unauthenticated)
    else
      var (limit, offset) := Paging(Get(data, "limit", JInt(DefaultLimit)), Get(data, "offset", JInt(0)));
      match ParseInt(sessionUsers[sid])
      case None => Failed
      case Some(id) =>
        if id < 0 || id !in users then Page([], 0)
        else
          var mine := UserRows(rows, id);
          Page(Slice(mine, offset, offset + limit), |mine|)
  }

  /** The index of the first row with id `nid` that belongs to `user`. */
  function FindOwn(rows: seq<NotificationRow>, nid: int, user: int): (r: Option<nat>)
    ensures r.Some? ==> r.value < |rows| && rows[r.value].id == nid && rows[r.value].user == Some(user)
    ensures r.None? ==> forall i :: 0 <= i < |rows| ==> !(rows[i].id == nid && rows[i].user == Some(user))
  {
    if |rows| == 0 then None
    else if rows[0].id == nid && rows[0].user == Some(user) then Some(0)
    else match FindOwn(rows[1..], nid, user)
      case None => None
      case Some(i) => Some(i + 1)
  }

  /** The notification table. */
  class NotificationStore {
    var rows: seq<NotificationRow>

    constructor (initial: seq<NotificationRow>)
      ensures rows == initial
    {
      rows := initial;
    }

    /** `send_notification`: store the row it creates; the emission is returned. */
    method Send(data: map<string, Json>, users: set<nat>, userSessions: map<string, string>, newId: nat)
      returns (reply: Reply, emitTo: Option<(string, Payload)>)
      modifies this
      ensures var o := SendNotification(data, users, userSessions, newId);
              && reply == o.reply && emitTo == o.emitTo
              && rows == old(rows) + (if o.created.Some? then [o.created.value] else [])
    {
      var o := SendNotification(data, users, userSessions, newId);
      if o.created.Some? {
        rows := rows + [o.created.value];
      }
      reply, emitTo := o.reply, o.emitTo;
    }

    /** `mark_notification_read`: set `is_read` on the requester's own notification. */
    method MarkNotificationRead(sessionUsers: map<string, string>, sid: string, data: map<string, Json>)
      returns (reply: Reply)
      modifies this
      ensures sid !in sessionUsers ==> reply == Error(Unauthenticated)
      ensures sid in sessionUsers && !Truthy(Get(data, "notification_id", JNull)) ==> reply == Error(MissingId)
      ensures reply != Success(MarkedRead) ==> rows == old(rows)
      ensures reply == Success(MarkedRead) ==>
                sid in sessionUsers && ParseInt(sessionUsers[sid]).Some?
                && PyInt(Get(data, "notification_id", JNull)).Some?
                && var i := FindOwn(old(rows), PyInt(Get(data, "notification_id", JNull)).value, ParseInt(sessionUsers[sid]).value);
                   i.Some? && rows == old(rows)[i.value := old(rows)[i.value].(isRead := true)]
      ensures sid in sessionUsers && Truthy(Get(data, "notification_id", JNull))
              && ParseInt(sessionUsers[sid]).Some? && PyInt(Get(data, "notification_id", JNull)).Some?
              && FindOwn(old(rows), PyInt(Get(data, "notification_id", JNull)).value, ParseInt(sessionUsers[sid]).value).None?
              ==> reply == Error(NotificationNotFound)
    {
      if sid !in sessionUsers {
        return Error(Unauthenticated);
      }
      var userId := sessionUsers[sid];
      var notificationId := Get(data, "notification_id", JNull);
      if !Truthy(notificationId) {
        return Error(MissingId);
      }
      var nid := PyInt(notificationId);
      var uid := ParseInt(userId);
      if nid.None? || uid.None? {
        return Failed;
      }
      var found := FindOwn(rows, nid.value, uid.value);
      if found.None? {
        return Error(NotificationNotFound);
      }
      var row := rows[found.value];
      row := row.(isRead := true);
      rows := rows[found.value := row];
      reply := Success(MarkedRead);
    }
  }

  /** Marking never touches a notification of another user, nor any other field. */
  lemma MarkTouchesOnlyOwn(rows: seq<NotificationRow>, nid: int, user: int)
    ensures var i := FindOwn(rows, nid, user);
            i.Some? ==> var rows' := rows[i.value := rows[i.value].(isRead := true)];
              && |rows'| == |rows|
              && (forall j :: 0 <= j < |rows| && j != i.value ==> rows'[j] == rows[j])
              && rows'[i.value].user == Some(user) && rows'[i.value].isRead
              && rows'[i.value] == rows[i.value].(isRead := true)
  {
  }
}
