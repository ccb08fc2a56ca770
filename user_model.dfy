// The user model and its manager (models/user.py): `create_user` with its username default,
// `create_superuser` with its flag defaults and checks, and `User.save` filling an empty
// username. Password hashing is left abstract: the stored password is the raw value given
// to `set_password` (`None` is an unusable password).
module UserModel {
  import opened Wrappers
  import opened JsonValues
  import opened Text
  import opened Roles

  /** A `User` row. */
  datatype UserRec = UserRec(
    username: string, email: string, role: Option<Role>,
    isStaff: bool, isSuperuser: bool, isActive: bool, password: Option<string>)

  const EmailRequiredMessage := "The Email must be set"
  const StaffRequiredMessage := "Superuser must have is_staff=True."
  const SuperuserRequiredMessage := "Superuser must have is_superuser=True."

  /** `email.split('@')[0]`. */
  function EmailPrefix(email: string): (r: string)
    ensures forall i :: 0 <= i < |r| ==> r[i] != '@'
  {
    SplitFieldsFree(email, '@');
    Split(email, '@')[0]
  }

  /** The prefix is the text before the first '@', or the whole address without one. */
  lemma {:induction false} EmailPrefixIsPrefix(email: string)
    ensures StartsWith(email, EmailPrefix(email))
    ensures |EmailPrefix(email)| < |email| ==> email[|EmailPrefix(email)|] == '@'
    decreases |email|
  {
    if |email| > 0 && email[0] != '@' {
      EmailPrefixIsPrefix(email[1..]);
      var rest := Split(email[1..], '@');
      assert Split(email, '@')[0] == [email[0]] + rest[0];
    }
  }

  /** `BaseUserManager.normalize_email`: the part after the last '@' is lower-cased. */
  function NormalizeEmail(email: string): (r: string)
    ensures |r| == |Strip(email)| || r == email
  {
    var s := Strip(email);
    var parts := Split(s, '@');
    if |parts| < 2 then email
    else
      var domain := parts[|parts| - 1];
      var name := Join(parts[..|parts| - 1], '@');
      JoinSplit(s, '@');
      JoinLast(parts, '@');
      name + "@" + Lower(domain)
  }

  /** A boolean column set from `extra_fields`, or its default when absent. */
  function Flag(extra: map<string, Json>, key: string, default: bool): bool
  {
    if key in extra then Truthy(extra[key]) else default
  }

  /** `UserManager.create_user`: a missing email raises; a missing username is the part of
      the email before the first '@'. */
  function CreateUser(email: string, password: Option<string>, username: Option<string>, role: Option<Role>,
                      extra: map<string, Json>): (r: Result<UserRec>)
    ensures email == "" <==> r == Err(EmailRequiredMessage)
    ensures r.Ok? ==> r.value.email == NormalizeEmail(email) && r.value.password == password && r.value.role == role
    ensures r.Ok? && username.Some? && username.value != "" ==> r.value.username == username.value
    ensures r.Ok? && (username.None? || username.value == "") && EmailPrefix(email) != ""
            ==> r.value.username == EmailPrefix(email)
    ensures r.Ok? ==> r.value.isStaff == Flag(extra, "is_staff", false)
                      && r.value.isSuperuser == Flag(extra, "is_superuser", false)
                      && r.value.isActive == Flag(extra, "is_active", true)
  {
    if email == "" then Err(EmailRequiredMessage)
    else
      var name := if username.Some? && username.value != "" then username.value else EmailPrefix(email);
      var u := UserRec(name, NormalizeEmail(email), role, Flag(extra, "is_staff", false),
                       Flag(extra, "is_superuser", false), Flag(extra, "is_active", true), password);
      Ok(Save(u))
  }

  /** `User.save`: an empty username is filled from the email before writing. */
  function Save(u: UserRec): (r: UserRec)
    ensures u.username == "" && u.email != "" ==> r == u.(username := EmailPrefix(u.email))
    ensures u.username != "" || u.email == "" ==> r == u
  {
    if u.username == "" && u.email != "" then u.(username := EmailPrefix(u.email)) else u
  }

  /** `dict.setdefault`. */
  function SetDefault(m: map<string, Json>, key: string, value: Json): (r: map<string, Json>)
    ensures key in r && (key in m ==> r == m) && (key !in m ==> r == m[key := value])
  {
    if key in m then m else m[key := value]
  }

  /** The three `setdefault` calls of `create_superuser`: each flag keeps an explicit value
      and is True otherwise; every other field is passed on unchanged. */
  function SuperuserExtra(extra: map<string, Json>): (e: map<string, Json>)
    ensures forall k :: k in extra ==> k in e && e[k] == extra[k]
    ensures forall k :: k in ["is_staff", "is_superuser", "is_active"]
                        ==> k in e && (k !in extra ==> e[k] == JBool(true))
  {
    SetDefault(SetDefault(SetDefault(extra, "is_staff", JBool(true)), "is_superuser", JBool(true)),
               "is_active", JBool(true))
  }

  /** `UserManager.create_superuser`: the three flags default to True, and an explicit
      `is_staff` or `is_superuser` that is not True is refused. */
  function CreateSuperuser(email: string, password: Option<string>, username: Option<string>, role: Option<Role>,
                           extra: map<string, Json>): (r: Result<UserRec>)
  {
    var e := SuperuserExtra(extra);
    assert "is_staff" in e && "is_superuser" in e by {
      assert "is_staff" in ["is_staff", "is_superuser", "is_active"];
      assert "is_superuser" in ["is_staff", "is_superuser", "is_active"];
    }
    if e["is_staff"] != JBool(true) then Err(StaffRequiredMessage)
    else if e["is_superuser"] != JBool(true) then Err(SuperuserRequiredMessage)
    else CreateUser(email, password, username, role, e)
  }

  /** A superuser created without explicit flags is staff, superuser and active; an
      explicit flag that is not True is refused before anything is created. */
  lemma SuperuserFlags(email: string, password: Option<string>, username: Option<string>, role: Option<Role>,
                       extra: map<string, Json>)
    ensures "is_staff" in extra && extra["is_staff"] != JBool(true)
            ==> CreateSuperuser(email, password, username, role, extra) == Err(StaffRequiredMessage)
    ensures ("is_staff" !in extra || extra["is_staff"] == JBool(true))
            && "is_superuser" in extra && extra["is_superuser"] != JBool(true)
            ==> CreateSuperuser(email, password, username, role, extra) == Err(SuperuserRequiredMessage)
    ensures var r := CreateSuperuser(email, password, username, role, extra);
            r.Ok? && "is_active" !in extra ==> r.value.isStaff && r.value.isSuperuser && r.value.isActive
    ensures email != "" && ("is_staff" !in extra || extra["is_staff"] == JBool(true))
            && ("is_superuser" !in extra || extra["is_superuser"] == JBool(true))
            ==> CreateSuperuser(email, password, username, role, extra).Ok?
  {
    var e := SuperuserExtra(extra);
    assert "is_staff" in ["is_staff", "is_superuser", "is_active"];
    assert "is_superuser" in ["is_staff", "is_superuser", "is_active"];
    assert "is_active" in ["is_staff", "is_superuser", "is_active"];
    assert e["is_staff"] == if "is_staff" in extra then extra["is_staff"] else JBool(true);
    assert e["is_superuser"] == if "is_superuser" in extra then extra["is_superuser"] else JBool(true);
    assert "is_active" !in extra ==> e["is_active"] == JBool(true);
  }

  /** Without a given username, the created user's username is a prefix of the email up to
      its first '@', holding no '@' itself. */
  lemma CreatedUsername(email: string, password: Option<string>, username: Option<string>, role: Option<Role>,
                        extra: map<string, Json>)
    requires CreateUser(email, password, username, role, extra).Ok?
    requires username.None? || username.value == ""
    ensures var u := CreateUser(email, password, username, role, extra).value;
            StartsWith(email, u.username) && forall i :: 0 <= i < |u.username| ==> u.username[i] != '@'
  {
    EmailPrefixIsPrefix(email);
  }
}
