// Login lockout (models/auth_security.py): the lockout decision over the recent failed
// attempts, and the attempts table that `record_attempt` appends to and trims to its
// newest 1000 rows. Timestamps are integer seconds; the table is kept in insertion order,
// which is the order of its `auto_now_add` timestamps.
module AuthSecurity {
  import opened Wrappers

  datatype LoginAttempt = LoginAttempt(
    username: string, ip: Option<string>, userAgent: Option<string>, timestamp: int, wasSuccessful: bool)

  const DefaultMaxAttempts := 5
  /** Minutes. */
  const DefaultLockoutDuration := 15
  const KeptAttempts := 1000

  /** `if ip_address:` — an address counts only when it is given and not empty. */
  predicate IpGiven(ip: Option<string>)
  {
    ip.Some? && ip.value != ""
  }

  /** An attempt that counts towards the lockout: a failure for the username, strictly after
      the threshold, from the given address when one is given. */
  predicate Counted(a: LoginAttempt, username: string, ip: Option<string>, threshold: int)
  {
    a.username == username && !a.wasSuccessful && a.timestamp > threshold && (IpGiven(ip) ==> a.ip == ip)
  }

  function RecentFailures(rows: seq<LoginAttempt>, username: string, ip: Option<string>, threshold: int)
    : (r: seq<LoginAttempt>)
    ensures |r| <= |rows|
    ensures forall a :: a in r <==> a in rows && Counted(a, username, ip, threshold)
  {
    if |rows| == 0 then []
    else
      var rest := RecentFailures(rows[1..], username, ip, threshold);
      assert forall a :: a in rows <==> a == rows[0] || a in rows[1..];
      if Counted(rows[0], username, ip, threshold) then [rows[0]] + rest else rest
  }

  /** The earliest timestamp (`order_by('timestamp').first()`). */
  function Oldest(rows: seq<LoginAttempt>): (r: int)
    requires |rows| > 0
    ensures exists a :: a in rows && a.timestamp == r
    ensures forall a :: a in rows ==> r <= a.timestamp
  {
    if |rows| == 1 then rows[0].timestamp
    else
      var rest := Oldest(rows[1..]);
      assert forall a :: a in rows <==> a == rows[0] || a in rows[1..];
      if rows[0].timestamp <= rest then rows[0].timestamp else rest
  }

  /** The lockout answer: locked with its unlock time, or not locked. */
  datatype LockStatus = Locked(until: int) | Unlocked

  /** `LoginAttempt.is_account_locked`, with the settings as parameters (duration in
      minutes). `Err` where the source raises: no failure is counted but the threshold is
      zero or less, and `first()` returns `None`. */
  function IsAccountLocked(rows: seq<LoginAttempt>, username: string, ip: Option<string>, now: int,
                           maxAttempts: int, duration: int): Result<LockStatus>
  {
    var window := duration * 60;
    var recent := RecentFailures(rows, username, ip, now - window);
    if |recent| >= maxAttempts then
      if |recent| == 0 then Err("'NoneType' object has no attribute 'timestamp'")
      else
        var unlock := Oldest(recent) + window;
        if unlock > now then Ok(Locked(unlock)) else Ok(Unlocked)
    else Ok(Unlocked)
  }

  /** With a positive threshold: locked exactly when at least `maxAttempts` failures fall in
      the window, and then until the oldest of them plus the duration, which is after `now`.
      Successful attempts never count. */
  lemma LockoutRule(rows: seq<LoginAttempt>, username: string, ip: Option<string>, now: int,
                    maxAttempts: int, duration: int)
    requires maxAttempts >= 1
    ensures var recent := RecentFailures(rows, username, ip, now - duration * 60);
            var r := IsAccountLocked(rows, username, ip, now, maxAttempts, duration);
            && r.Ok?
            && (r.value.Locked? <==> |recent| >= maxAttempts)
            && (r.value.Locked? ==> r.value.until == Oldest(recent) + duration * 60 && r.value.until > now)
            && (forall a :: a in recent ==> !a.wasSuccessful && a.username == username)
  {
    var recent := RecentFailures(rows, username, ip, now - duration * 60);
    if |recent| >= maxAttempts {
      assert |recent| > 0;
      var o := Oldest(recent);
      var a :| a in recent && a.timestamp == o;
      assert Counted(a, username, ip, now - duration * 60);
    }
  }

  /** Adding a successful attempt never changes the lockout answer. */
  lemma SuccessDoesNotCount(rows: seq<LoginAttempt>, a: LoginAttempt, username: string, ip: Option<string>,
                            threshold: int)
    requires a.wasSuccessful
    ensures RecentFailures(rows + [a], username, ip, threshold) == RecentFailures(rows, username, ip, threshold)
    decreases |rows|
  {
    if |rows| == 0 {
      assert rows + [a] == [a];
      assert [a][1..] == [];
    } else {
      assert (rows + [a])[1..] == rows[1..] + [a];
      SuccessDoesNotCount(rows[1..], a, username, ip, threshold);
    }
  }

  /** The newest `n` rows of a table kept in insertion order. */
  function Newest<T>(rows: seq<T>, n: nat): (r: seq<T>)
    ensures |r| == if |rows| <= n then |rows| else n
    ensures r == rows[|rows| - |r|..]
  {
    if |rows| <= n then rows else rows[|rows| - n..]
  }

  /** The attempts table. */
  class AttemptLog {
    var rows: seq<LoginAttempt>

    constructor ()
      ensures rows == []
    {
      rows := [];
    }

    /** `LoginAttempt.record_attempt`: append the attempt stamped `now`, then delete every row
        but the newest 1000. */
    method RecordAttempt(username: string, ip: Option<string>, userAgent: Option<string>, wasSuccessful: bool,
                         now: int)
      modifies this
      ensures rows == Newest(old(rows) + [LoginAttempt(username, ip, userAgent, now, wasSuccessful)], KeptAttempts)
    {
      rows := rows + [LoginAttempt(username, ip, userAgent, now, wasSuccessful)];
      if |rows| > KeptAttempts {
        rows := rows[|rows| - KeptAttempts..];
      }
    }
  }

  /** After recording, the table holds at most 1000 rows, the new attempt is the newest one,
      and the rows kept are the newest of the old ones, in order. */
  lemma RecordedAttemptKept(rows: seq<LoginAttempt>, a: LoginAttempt)
    ensures var r := Newest(rows + [a], KeptAttempts);
            && 1 <= |r| <= KeptAttempts
            && r[|r| - 1] == a
            && r[..|r| - 1] == Newest(rows, KeptAttempts - 1)
  {
    var r := Newest(rows + [a], KeptAttempts);
    assert (rows + [a])[|rows + [a]| - |r|..][..|r| - 1] == rows[|rows| + 1 - |r|..];
  }
}
