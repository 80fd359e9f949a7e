/** The user schema: account status and role enums, defaults, and the unique indexes. */
module UserModel {
  import opened Common

  /** `status` is one of Pending, Active; a new account is Pending. */
  datatype AccountStatus = Pending | Active

  /** `role` is one of user, worker, admin; a record created without a role is a user. */
  datatype Role = UserRole | WorkerRole | AdminRole

  const DefaultStatus: AccountStatus := Pending
  const DefaultRole: Role := UserRole

  /** The string the schema stores for a role (and that a signed token carries). */
  function RoleName(r: Role): string {
    match r
    case UserRole => "user"
    case WorkerRole => "worker"
    case AdminRole => "admin"
  }

  /** Enum validation of a role string on save: `None` when the string is not one of the three. */
  function ParseRole(s: string): (r: Option<Role>)
    ensures r.Some? <==> s in {"user", "worker", "admin"}
  {
    if s == "user" then Some(UserRole)
    else if s == "worker" then Some(WorkerRole)
    else if s == "admin" then Some(AdminRole)
    else None
  }

  /** The role stored for a request body whose `role` is absent (`None`) or a string. */
  function RoleOnSave(requested: Option<string>): (r: Option<Role>)
    ensures requested.None? ==> r == Some(DefaultRole)
    ensures requested.Some? ==> r == ParseRole(requested.value)
  {
    match requested
    case None => Some(DefaultRole)
    case Some(s) => ParseRole(s)
  }

  /** A stored user. `password` holds the digest, `resetPasswordExpires` is an optional timestamp in ms. */
  datatype User = User(
    name: string,
    email: string,
    password: string,
    status: AccountStatus,
    confirmationCode: string,
    resetPasswordExpires: Option<int>,
    avatar: string,
    date: int,
    role: Role)

  /** The unique indexes on `email` and `confirmationCode`: no two stored users share either. */
  ghost predicate UniqueFields(users: map<Id, User>) {
    forall a, b :: a in users && b in users && a != b ==>
      users[a].email != users[b].email && users[a].confirmationCode != users[b].confirmationCode
  }

  /** Whether saving `u` under `id` keeps both unique indexes: no OTHER record holds its email or code. */
  predicate SaveAllowed(users: map<Id, User>, id: Id, u: User) {
    forall k :: k in users && k != id ==> users[k].email != u.email && users[k].confirmationCode != u.confirmationCode
  }

  /** `save()`: the store with `u` written under `id`, or `None` when a unique index rejects it. */
  function Save(users: map<Id, User>, id: Id, u: User): (r: Option<map<Id, User>>)
    ensures r.Some? <==> SaveAllowed(users, id, u)
    ensures r.Some? ==> r.value.Keys == users.Keys + {id} && r.value[id] == u
    ensures r.Some? ==> forall k :: k in users && k != id ==> r.value[k] == users[k]
  {
    if SaveAllowed(users, id, u) then Some(users[id := u]) else None
  }

  lemma ParseRoleNameRoundTrip(r: Role)
    ensures ParseRole(RoleName(r)) == Some(r)
  {
  }

  lemma {:induction false} RoleNameOfParse(s: string)
    requires ParseRole(s).Some?
    ensures RoleName(ParseRole(s).value) == s
  {
  }

  /** A successful save never breaks the unique indexes. */
  lemma {:induction false} SaveKeepsUnique(users: map<Id, User>, id: Id, u: User)
    requires UniqueFields(users)
    requires Save(users, id, u).Some?
    ensures UniqueFields(Save(users, id, u).value)
  {
    var s := Save(users, id, u).value;
    forall a, b | a in s && b in s && a != b
      ensures s[a].email != s[b].email && s[a].confirmationCode != s[b].confirmationCode
    {
      if a == id {
        assert b in users && s[b] == users[b];
      } else if b == id {
        assert a in users && s[a] == users[a];
      } else {
        assert s[a] == users[a] && s[b] == users[b];
      }
    }
  }
}
