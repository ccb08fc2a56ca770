// The application log (models/activity.py): how `log_activity` derives a category and
// which activities it declines to record, and the cutoff rule of `purge_old_logs`.
// Timestamps are integer seconds.
module ActivityLog {
  import opened Wrappers
  import opened JsonValues
  import Text

  /** The categories a log record can have. */
  const Categories: set<string> := {"auth", "user", "security", "system", "network", "api", "admin", "data"}

  /** One line of the category derivation: a prefix of the action, or the whole action. */
  datatype CategoryRule = Prefix(pre: string, category: string) | Exact(action: string, category: string)

  /** The derivation lines in order of precedence; an action no line matches is 'system'. */
  const CategoryRules: seq<CategoryRule> := [
    Prefix("auth_", "auth"), Prefix("user_", "user"), Prefix("security_", "security"),
    Prefix("system_", "system"), Prefix("network_", "network"), Exact("api_access", "api"),
    Prefix("admin_", "admin"), Prefix("data_", "data")]

  predicate RuleMatches(r: CategoryRule, action: string)
  {
    match r
    case Prefix(p, _) => Text.StartsWith(action, p)
    case Exact(a, _) => action == a
  }

  /** The category of the first matching line, else `fallback`. */
  function FirstMatch(rules: seq<CategoryRule>, action: string, fallback: string): string
  {
    if |rules| == 0 then fallback
    else if RuleMatches(rules[0], action) then rules[0].category
    else FirstMatch(rules[1..], action, fallback)
  }

  /** The category `log_activity` records: the one given, else derived from the action. */
  function DeriveCategory(action: string, category: Option<string>): (r: string)
    ensures category.Some? ==> r == category.value
    ensures category.None? ==> r in Categories
  {
    if category.Some? then category.value
    else if Text.StartsWith(action, "auth_") then "auth"
    else if Text.StartsWith(action, "user_") then "user"
    else if Text.StartsWith(action, "security_") then "security"
    else if Text.StartsWith(action, "system_") then "system"
    else if Text.StartsWith(action, "network_") then "network"
    else if action == "api_access" then "api"
    else if Text.StartsWith(action, "admin_") then "admin"
    else if Text.StartsWith(action, "data_") then "data"
    else "system"
  }

  lemma FirstMatchStep(rules: seq<CategoryRule>, k: nat, action: string, fallback: string)
    requires k < |rules|
    ensures FirstMatch(rules[k..], action, fallback)
            == if RuleMatches(rules[k], action) then rules[k].category else FirstMatch(rules[k + 1..], action, fallback)
  {
    assert rules[k..][0] == rules[k];
    assert rules[k..][1..] == rules[k + 1..];
  }

  /** The derivation is the first matching line of the table. */
  lemma DeriveCategoryFollowsTable(action: string)
    ensures DeriveCategory(action, None) == FirstMatch(CategoryRules, action, "system")
  {
    var rs := CategoryRules;
    var f := "system";
    assert rs[8..] == [];
    FirstMatchStep(rs, 7, action, f);
    FirstMatchStep(rs, 6, action, f);
    FirstMatchStep(rs, 5, action, f);
    FirstMatchStep(rs, 4, action, f);
    FirstMatchStep(rs, 3, action, f);
    FirstMatchStep(rs, 2, action, f);
    FirstMatchStep(rs, 1, action, f);
    FirstMatchStep(rs, 0, action, f);
    assert rs[0..] == rs;
  }

  /** The addresses whose API access is never recorded. */
  const LocalAddresses: seq<string> := ["127.0.0.1", "localhost", "::1"]

  /** The row `log_activity` creates. */
  datatype LogEntry = LogEntry(
    user: Option<nat>, category: string, action: string, ip: Option<string>, userAgent: Option<string>,
    details: Json, severity: string, objectType: Option<string>, objectId: Option<string>,
    objectName: Option<string>)

  /** `ApplicationLog.log_activity`: `None` where no record is created. A missing `details`
      is `JNull`. */
  function LogActivity(user: Option<nat>, action: string, ip: Option<string>, userAgent: Option<string>,
                       details: Json, category: Option<string>, severity: string,
                       objectType: Option<string>, objectId: Option<string>, objectName: Option<string>)
    : (r: Option<LogEntry>)
    ensures r.None? <==> action == "api_access"
                         || (DeriveCategory(action, category) == "api" && ip.Some? && ip.value in LocalAddresses)
    ensures r.Some? ==> r.value.category == DeriveCategory(action, category) && r.value.action == action
    ensures r.Some? ==> r.value.details == (if Truthy(details) then details else JObj([]))
    ensures r.Some? ==> r.value.user == user && r.value.ip == ip && r.value.userAgent == userAgent
                        && r.value.severity == severity && r.value.objectType == objectType
                        && r.value.objectId == objectId && r.value.objectName == objectName
  {
    var d := if Truthy(details) then details else JObj([]);
    var c := DeriveCategory(action, category);
    if c == "api" && ip.Some? && ip.value in LocalAddresses then None
    else if action == "api_access" then None
    else Some(LogEntry(user, c, action, ip, userAgent, d, severity, objectType, objectId, objectName))
  }

  /** With no explicit category, an activity that is recorded is never in category 'api'. */
  lemma RecordedNeverApi(user: Option<nat>, action: string, ip: Option<string>, userAgent: Option<string>,
                         details: Json, severity: string)
    requires LogActivity(user, action, ip, userAgent, details, None, severity, None, None, None).Some?
    ensures LogActivity(user, action, ip, userAgent, details, None, severity, None, None, None).value.category != "api"
  {
  }

  // ---------------------------------------------------------------------------
  // purge_old_logs

  /** The fields of a log row that purging looks at. */
  datatype LogRow = LogRow(timestamp: int, retentionDays: int)

  const DefaultRetentionDays := 90
  const SecondsPerDay := 86400

  /** A row with the largest timestamp (`order_by('-timestamp').first()`). */
  function Latest(logs: seq<LogRow>): (r: LogRow)
    requires |logs| > 0
    ensures r in logs && forall x :: x in logs ==> x.timestamp <= r.timestamp
  {
    if |logs| == 1 then logs[0]
    else
      var rest := Latest(logs[1..]);
      if logs[0].timestamp >= rest.timestamp then logs[0] else rest
  }

  function RetentionDays(logs: seq<LogRow>, given: Option<int>): (r: int)
    ensures given.Some? ==> r == given.value
    ensures given.None? && |logs| == 0 ==> r == DefaultRetentionDays
    ensures given.None? && |logs| > 0 ==> r == Latest(logs).retentionDays
  {
    if given.Some? then given.value
    else if |logs| == 0 then DefaultRetentionDays
    else Latest(logs).retentionDays
  }

  /** The rows at or after the cutoff, in their order. */
  function KeptRows(logs: seq<LogRow>, cutoff: int): (r: seq<LogRow>)
    ensures |r| <= |logs|
    ensures forall x :: x in r ==> x in logs && x.timestamp >= cutoff
    ensures forall x :: x in logs && x.timestamp >= cutoff ==> x in r
  {
    if |logs| == 0 then []
    else if logs[0].timestamp >= cutoff then [logs[0]] + KeptRows(logs[1..], cutoff)
    else KeptRows(logs[1..], cutoff)
  }

  /** The rows strictly before the cutoff: the ones deleted. */
  function OldRows(logs: seq<LogRow>, cutoff: int): (r: seq<LogRow>)
    ensures forall x :: x in r ==> x in logs && x.timestamp < cutoff
  {
    if |logs| == 0 then []
    else if logs[0].timestamp < cutoff then [logs[0]] + OldRows(logs[1..], cutoff)
    else OldRows(logs[1..], cutoff)
  }

  /** `purge_old_logs`: the rows left and the number deleted. */
  function PurgeOldLogs(logs: seq<LogRow>, given: Option<int>, now: int): (r: (seq<LogRow>, nat))
  {
    var cutoff := now - RetentionDays(logs, given) * SecondsPerDay;
    (KeptRows(logs, cutoff), |OldRows(logs, cutoff)|)
  }

  /** The kept and the deleted rows partition the table. */
  lemma {:induction false} RowsPartition(logs: seq<LogRow>, cutoff: int)
    ensures multiset(KeptRows(logs, cutoff)) + multiset(OldRows(logs, cutoff)) == multiset(logs)
  {
    if |logs| > 0 {
      RowsPartition(logs[1..], cutoff);
      assert logs == [logs[0]] + logs[1..];
    }
  }

  /** Purging deletes exactly the rows strictly older than the retention period before
      `now`, and the count it returns is the number of rows that went. */
  lemma PurgeDeletesOnlyOld(logs: seq<LogRow>, given: Option<int>, now: int)
    ensures var cutoff := now - RetentionDays(logs, given) * SecondsPerDay;
            var r := PurgeOldLogs(logs, given, now);
            && (forall x :: x in logs && x.timestamp >= cutoff ==> x in r.0)
            && (forall x :: x in r.0 ==> x.timestamp >= cutoff)
            && |r.0| + r.1 == |logs|
  {
    var cutoff := now - RetentionDays(logs, given) * SecondsPerDay;
    RowsPartition(logs, cutoff);
    assert |multiset(KeptRows(logs, cutoff))| + |multiset(OldRows(logs, cutoff))| == |multiset(logs)|;
  }
}
