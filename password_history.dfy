// Password history (models/password_history.py): whether a password is among a user's
// newest stored hashes, and the history table that `add_password_to_history` appends to
// and trims per user. The table is kept in insertion order, the order of `created_at`;
// the intended hash check `check_password_hash(password, stored)` is a parameter of the
// corrected `IsPasswordUsed`; the code as written raises instead (`PasswordUsed`).
module PasswordHistory {
  import opened Wrappers

  datatype HistoryEntry = HistoryEntry(user: nat, passwordHash: string, createdAt: int)

  const DefaultRecentCount := 5
  const DefaultHistoryLength := 10

  /** The user's entries, oldest first. */
  function EntriesOf(rows: seq<HistoryEntry>, user: nat): (r: seq<HistoryEntry>)
    ensures |r| <= |rows|
    ensures forall e :: e in r ==> e in rows && e.user == user
  {
    if |rows| == 0 then []
    else
      var init := EntriesOf(rows[..|rows| - 1], user);
      var last := rows[|rows| - 1];
      assert forall e :: e in rows[..|rows| - 1] ==> e in rows;
      if last.user == user then init + [last] else init
  }

  /** `filter(user=user).order_by('-created_at')[:count]`: the newest `count` entries,
      newest first. */
  function Recent(rows: seq<HistoryEntry>, user: nat, count: nat): (r: seq<HistoryEntry>)
    ensures |r| <= count
    ensures forall e :: e in r ==> e in rows && e.user == user
    decreases |rows|
  {
    if |rows| == 0 || count == 0 then []
    else
      var last := rows[|rows| - 1];
      assert forall e :: e in rows[..|rows| - 1] ==> e in rows;
      if last.user == user then [last] + Recent(rows[..|rows| - 1], user, count - 1)
      else Recent(rows[..|rows| - 1], user, count)
  }

  /** `PasswordHistory.is_password_used`: one of the newest `count` hashes matches. A
      negative count is refused by the query (negative slicing), shown as `Err`. */
  function IsPasswordUsed(rows: seq<HistoryEntry>, user: nat, password: string, count: int,
                          check: (string, string) -> bool): (r: Result<bool>)
    ensures count < 0 <==> r.Err?
    ensures r.Ok? ==> (r.value <==> exists e :: e in Recent(rows, user, count) && check(password, e.passwordHash))
  {
    if count < 0 then Err("Negative indexing is not supported.")
    else Ok(exists e :: e in Recent(rows, user, count) && check(password, e.passwordHash))
  }

  /** What Python reports when `User` is asked for `check_password_hash`, which it lacks. */
  const MissingCheckMessage := "'User' object has no attribute 'check_password_hash'"

  /** `is_password_used` as written: the comparison looks up `user.check_password_hash`, which the
      user model does not define, so the first recent entry raises; with no recent entry the
      answer is `False`. */
  function IsPasswordUsedAsWritten(rows: seq<HistoryEntry>, user: nat, count: int): (r: Result<bool>)
    ensures count < 0 ==> r == Err("Negative indexing is not supported.")
    ensures count >= 0 ==> (r.Err? <==> |Recent(rows, user, count)| > 0)
    ensures r.Err? && count >= 0 ==> r.error == MissingCheckMessage
    ensures r.Ok? ==> r.value == false
  {
    if count < 0 then Err("Negative indexing is not supported.")
    else if |Recent(rows, user, count)| > 0 then Err(MissingCheckMessage)
    else Ok(false)
  }

  /** `is_password_used` as written: fetch the newest entries, then search them in turn; the
      attribute lookup of the first turn raises. */
  method PasswordUsed(rows: seq<HistoryEntry>, user: nat, count: int) returns (r: Result<bool>)
    ensures r == IsPasswordUsedAsWritten(rows, user, count)
  {
    if count < 0 {
      return Err("Negative indexing is not supported.");
    }
    var recent := Recent(rows, user, count);
    for i := 0 to |recent|
      invariant i == 0
    {
      return Err(MissingCheckMessage);
    }
    return Ok(false);
  }

  /** A user with any stored entry and a positive count gets the missing-attribute error,
      where the intended comparison answers. */
  lemma {:induction false} StoredEntryRaises(rows: seq<HistoryEntry>, user: nat, password: string, count: int,
                                             check: (string, string) -> bool)
    requires count >= 1 && exists e :: e in rows && e.user == user
    ensures IsPasswordUsedAsWritten(rows, user, count) == Err(MissingCheckMessage)
    ensures IsPasswordUsed(rows, user, password, count, check).Ok?
  {
    RecentNonEmpty(rows, user, count);
  }

  lemma {:induction false} RecentNonEmpty(rows: seq<HistoryEntry>, user: nat, count: nat)
    requires count >= 1 && exists e :: e in rows && e.user == user
    ensures |Recent(rows, user, count)| > 0
    decreases |rows|
  {
    var last := rows[|rows| - 1];
    if last.user != user {
      var e :| e in rows && e.user == user;
      var k :| 0 <= k < |rows| && rows[k] == e;
      assert k < |rows| - 1;
      assert rows[..|rows| - 1][k] == e;
      RecentNonEmpty(rows[..|rows| - 1], user, count);
    }
  }

  /** Where the user has no recent entry, the code as written and the intended check agree. */
  lemma NoRecentAgrees(rows: seq<HistoryEntry>, user: nat, password: string, count: int,
                       check: (string, string) -> bool)
    requires count < 0 || |Recent(rows, user, count)| == 0
    ensures IsPasswordUsedAsWritten(rows, user, count) == IsPasswordUsed(rows, user, password, count, check)
  {
  }

  /** The user's entries kept after trimming to the newest `n`: every other user's entry
      stays; of the user's own, the newest `n` stay. */
  function TrimUser(rows: seq<HistoryEntry>, user: nat, n: nat): (r: seq<HistoryEntry>)
    ensures |r| <= |rows|
    decreases |rows|
  {
    if |rows| == 0 then []
    else
      var last := rows[|rows| - 1];
      var init := rows[..|rows| - 1];
      if last.user != user then TrimUser(init, user, n) + [last]
      else if n > 0 then TrimUser(init, user, n - 1) + [last]
      else TrimUser(init, user, 0)
  }

  /** The newest `n` of a sequence. */
  function Last<T>(s: seq<T>, n: nat): (r: seq<T>)
    ensures |r| == if |s| <= n then |s| else n
  {
    if |s| <= n then s else s[|s| - n..]
  }

  lemma EntriesOfSnoc(t: seq<HistoryEntry>, e: HistoryEntry, user: nat)
    ensures EntriesOf(t + [e], user) == EntriesOf(t, user) + (if e.user == user then [e] else [])
  {
    assert (t + [e])[..|t + [e]| - 1] == t;
  }

  lemma LastSnoc<T>(s: seq<T>, x: T, n: nat)
    requires n > 0
    ensures Last(s + [x], n) == Last(s, n - 1) + [x]
  {
    if |s| > n - 1 {
      assert (s + [x])[|s + [x]| - n..] == s[|s| - (n - 1)..] + [x];
    }
  }

  /** Trimming leaves exactly the user's newest `n` entries, in order. */
  lemma {:induction false} TrimUserOwn(rows: seq<HistoryEntry>, user: nat, n: nat)
    ensures EntriesOf(TrimUser(rows, user, n), user) == Last(EntriesOf(rows, user), n)
    decreases |rows|
  {
    if |rows| > 0 {
      var last := rows[|rows| - 1];
      TrimUserOwn(rows[..|rows| - 1], user, if last.user == user && n > 0 then n - 1 else n);
      TrimUserOwnStep(rows, user, n);
    }
  }

  lemma TrimUserOwnStep(rows: seq<HistoryEntry>, user: nat, n: nat)
    requires |rows| > 0
    requires var last := rows[|rows| - 1];
             var m := if last.user == user && n > 0 then n - 1 else n;
             EntriesOf(TrimUser(rows[..|rows| - 1], user, m), user) == Last(EntriesOf(rows[..|rows| - 1], user), m)
    ensures EntriesOf(TrimUser(rows, user, n), user) == Last(EntriesOf(rows, user), n)
  {
    var init, last := rows[..|rows| - 1], rows[|rows| - 1];
    assert EntriesOf(rows, user) == EntriesOf(init, user) + (if last.user == user then [last] else []);
    if last.user != user {
      var t := TrimUser(init, user, n);
      assert TrimUser(rows, user, n) == t + [last];
      EntriesOfSnoc(t, last, user);
    } else if n > 0 {
      var t := TrimUser(init, user, n - 1);
      assert TrimUser(rows, user, n) == t + [last];
      EntriesOfSnoc(t, last, user);
      LastSnoc(EntriesOf(init, user), last, n);
    }
  }

  /** Trimming one user's entries changes no other user's entries. */
  lemma {:induction false} TrimUserOthers(rows: seq<HistoryEntry>, user: nat, n: nat, other: nat)
    requires other != user
    ensures EntriesOf(TrimUser(rows, user, n), other) == EntriesOf(rows, other)
    decreases |rows|
  {
    if |rows| > 0 {
      var last := rows[|rows| - 1];
      TrimUserOthers(rows[..|rows| - 1], user, if last.user == user && n > 0 then n - 1 else n, other);
      TrimUserOthersStep(rows, user, n, other);
    }
  }

  lemma TrimUserOthersStep(rows: seq<HistoryEntry>, user: nat, n: nat, other: nat)
    requires other != user && |rows| > 0
    requires var last := rows[|rows| - 1];
             var m := if last.user == user && n > 0 then n - 1 else n;
             EntriesOf(TrimUser(rows[..|rows| - 1], user, m), other) == EntriesOf(rows[..|rows| - 1], other)
    ensures EntriesOf(TrimUser(rows, user, n), other) == EntriesOf(rows, other)
  {
    var init, last := rows[..|rows| - 1], rows[|rows| - 1];
    var m := if last.user == user && n > 0 then n - 1 else n;
    var t := TrimUser(init, user, m);
    if last.user != user || n > 0 {
      assert TrimUser(rows, user, n) == t + [last];
      EntriesOfSnoc(t, last, other);
    } else {
      assert TrimUser(rows, user, n) == t;
    }
  }

  /** The history table. */
  class HistoryTable {
    var rows: seq<HistoryEntry>

    constructor ()
      ensures rows == []
    {
      rows := [];
    }

    /** `PasswordHistory.add_password_to_history` with `PASSWORD_HISTORY_LENGTH` as
        `maxHistory`: append the hash, then, when the length is positive, delete the user's
        entries beyond the newest `maxHistory`. */
    method AddPasswordToHistory(user: nat, passwordHash: string, now: int, maxHistory: int)
      modifies this
      ensures var added := old(rows) + [HistoryEntry(user, passwordHash, now)];
              rows == if maxHistory > 0 then TrimUser(added, user, maxHistory) else added
    {
      rows := rows + [HistoryEntry(user, passwordHash, now)];
      if maxHistory > 0 {
        rows := TrimUser(rows, user, maxHistory);
      }
    }
  }

  /** After adding with a positive length the user keeps at most `maxHistory` entries, the
      new hash is the newest of them, and other users' histories are untouched; with a
      length of zero or less nothing is deleted. */
  lemma AddedHistory(rows: seq<HistoryEntry>, user: nat, passwordHash: string, now: int, maxHistory: int, other: nat)
    ensures var added := rows + [HistoryEntry(user, passwordHash, now)];
            var r := if maxHistory > 0 then TrimUser(added, user, maxHistory) else added;
            var mine := EntriesOf(r, user);
            && (maxHistory > 0 ==> 1 <= |mine| <= maxHistory && mine[|mine| - 1] == HistoryEntry(user, passwordHash, now))
            && (maxHistory <= 0 ==> mine == EntriesOf(rows, user) + [HistoryEntry(user, passwordHash, now)])
            && (other != user ==> EntriesOf(r, other) == EntriesOf(rows, other))
  {
    var e := HistoryEntry(user, passwordHash, now);
    var added := rows + [e];
    assert added[..|added| - 1] == rows;
    assert EntriesOf(added, user) == EntriesOf(rows, user) + [e];
    if maxHistory > 0 {
      TrimUserOwn(added, user, maxHistory);
      if other != user {
        TrimUserOthers(added, user, maxHistory, other);
      }
      var es := EntriesOf(added, user);
      assert es[|es| - 1] == e;
    }
  }

  /** A just-added hash is found by the next check of any positive count, whenever the
      check accepts the password for it. */
  lemma AddedHashIsRecent(rows: seq<HistoryEntry>, user: nat, password: string, passwordHash: string, now: int,
                          count: int, check: (string, string) -> bool)
    requires count >= 1 && check(password, passwordHash)
    ensures IsPasswordUsed(rows + [HistoryEntry(user, passwordHash, now)], user, password, count, check) == Ok(true)
  {
    var added := rows + [HistoryEntry(user, passwordHash, now)];
    assert added[|added| - 1] == HistoryEntry(user, passwordHash, now);
    assert HistoryEntry(user, passwordHash, now) in Recent(added, user, count);
  }
}
