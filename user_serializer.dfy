// The user serializer (serializers/user.py): the username rules of `validate_username`,
// the fields a user is rendered with (the password is write-only), and `create`, which takes
// the password out of the validated data and hands it to `create_user` separately.
module UserSerializer {
  import opened Wrappers
  import opened JsonValues
  import opened Roles
  import opened UserModel

  const UsernameRequired := "Username is required."
  const UsernameTooShort := "Username must be at least 3 characters long."
  const UsernameTaken := "This username is already in use."
  const MinUsernameLength := 3

  /** Stored users by id. */
  type Users = map<nat, UserRec>

  /** Some stored user other than `instance` (when given) has the username `value`. */
  predicate TakenBy(users: Users, value: string, instance: Option<nat>)
  {
    exists k :: k in users && (instance.None? || k != instance.value) && users[k].username == value
  }

  /** `validate_username` as written: the uniqueness query looks at every stored user,
      including the one being updated. */
  function ValidateUsernameAsWritten(value: string, users: Users): (r: Result<string>)
    ensures r.Ok? <==> |value| >= MinUsernameLength && !TakenBy(users, value, None)
  {
    if value == "" then Err(UsernameRequired)
    else if |value| < MinUsernameLength then Err(UsernameTooShort)
    else if TakenBy(users, value, None) then Err(UsernameTaken)
    else Ok(value)
  }

  /** An update that resubmits the user's own, unchanged username is refused as taken. */
  lemma UnchangedUsernameRefused(users: Users, id: nat)
    requires id in users && |users[id].username| >= MinUsernameLength
    ensures ValidateUsernameAsWritten(users[id].username, users) == Err(UsernameTaken)
  {
  }

  /** `validate_username` with the evident intent: on an update the instance's own row is
      excluded from the uniqueness query (`instance` is `None` on create). */
  function ValidateUsername(value: string, users: Users, instance: Option<nat>): (r: Result<string>)
    ensures value == "" ==> r == Err(UsernameRequired)
    ensures 0 < |value| < MinUsernameLength ==> r == Err(UsernameTooShort)
    ensures |value| >= MinUsernameLength && TakenBy(users, value, instance) ==> r == Err(UsernameTaken)
    ensures r.Ok? <==> |value| >= MinUsernameLength && !TakenBy(users, value, instance)
    ensures r.Ok? ==> r.value == value
  {
    if value == "" then Err(UsernameRequired)
    else if |value| < MinUsernameLength then Err(UsernameTooShort)
    else if TakenBy(users, value, instance) then Err(UsernameTaken)
    else Ok(value)
  }

  /** On create both readings agree; on update the corrected one accepts the user's own
      username when nobody else holds it. */
  lemma ValidateUsernameCorrected(value: string, users: Users, id: nat)
    ensures ValidateUsername(value, users, None) == ValidateUsernameAsWritten(value, users)
    ensures id in users && |users[id].username| >= MinUsernameLength
            && !TakenBy(users, users[id].username, Some(id))
            ==> ValidateUsername(users[id].username, users, Some(id)) == Ok(users[id].username)
  {
  }

  /** No two stored users share a username (the column is unique). */
  predicate UniqueUsernames(users: Users)
  {
    forall a, b :: a in users && b in users && users[a].username == users[b].username ==> a == b
  }

  /** A username accepted for user `id` keeps usernames unique once written. */
  lemma AcceptedUsernameStaysUnique(users: Users, id: nat, value: string)
    requires UniqueUsernames(users) && id in users
    requires ValidateUsername(value, users, Some(id)).Ok?
    ensures UniqueUsernames(users[id := users[id].(username := value)])
  {
  }

  /** The fields of `UserSerializer.Meta.fields`, in order. */
  const Fields: seq<string> := [
    "id", "username", "email", "password", "first_name", "last_name", "is_active", "date_joined",
    "last_login", "profile_image", "role", "role_details", "is_staff", "is_superuser"]

  /** Fields that are accepted on input but never rendered. */
  const WriteOnly: seq<string> := ["password"]

  /** The fields a rendered user has: the declared ones that are not write-only, in order;
      so a rendered user never shows the password and shows every other declared field. */
  function Rendered(fields: seq<string>): (r: seq<string>)
    ensures forall f :: f in r <==> f in fields && f !in WriteOnly
    ensures |r| <= |fields|
  {
    if |fields| == 0 then []
    else if fields[0] in WriteOnly then Rendered(fields[1..])
    else [fields[0]] + Rendered(fields[1..])
  }

  /** The validated data of a create request: the model fields, the password, and the
      remaining writable fields (`first_name`, `last_name`, `is_active`, ...). */
  datatype ValidatedData = ValidatedData(
    username: string, email: string, password: string, role: Option<Role>, others: map<string, Json>)

  /** `UserSerializer.create`: the password is popped from the data and passed to
      `create_user` on its own, so it is set through `set_password` and the rest of the
      data becomes the user's fields. */
  function Create(v: ValidatedData): (r: Result<UserRec>)
    ensures v.email == "" <==> r.Err?
    ensures r.Ok? ==> r.value.password == Some(v.password) && r.value.role == v.role
    ensures r.Ok? && v.username != "" ==> r.value.username == v.username
  {
    CreateUser(v.email, Some(v.password), Some(v.username), v.role, v.others)
  }
}
