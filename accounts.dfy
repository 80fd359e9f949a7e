/**
 * The account routes: registration, password change, password recovery and reset, as transitions
 * of the user store. Hashing, signing and the clock are parameters: `hash` is bcrypt under the
 * salt drawn for the call, `matches` is `bcrypt.compare`, `code` is the freshly signed code and
 * `now` is `Date.now()` in ms.
 */
module Accounts {
  import opened Common
  import opened UserModel

  // ---------------------------------------------------------------------------------------------
  // `toLowerCase()`, over ASCII letters

  function LowerChar(c: char): char {
    if 'A' <= c <= 'Z' then (c as int + ('a' as int - 'A' as int)) as char else c
  }

  predicate IsUpper(c: char) {
    'A' <= c <= 'Z'
  }

  predicate NoUpper(s: string) {
    forall i :: 0 <= i < |s| ==> !IsUpper(s[i])
  }

  function ToLower(s: string): (r: string)
    ensures |r| == |s|
    ensures forall i :: 0 <= i < |s| ==> r[i] == LowerChar(s[i])
  {
    if |s| == 0 then "" else [LowerChar(s[0])] + ToLower(s[1..])
  }

  /** A lower-cased string holds no upper-case letter. */
  lemma ToLowerNoUpper(s: string)
    ensures NoUpper(ToLower(s))
  {
  }

  /** A string without upper-case letters is its own lower-case form. */
  lemma {:induction false} ToLowerOfNoUpper(s: string)
    requires NoUpper(s)
    ensures ToLower(s) == s
  {
    var r := ToLower(s);
    assert forall i :: 0 <= i < |s| ==> r[i] == s[i];
  }

  /** Lower-casing twice is lower-casing once. */
  lemma {:induction false} ToLowerIdempotent(s: string)
    ensures ToLower(ToLower(s)) == ToLower(s)
  {
    ToLowerNoUpper(s);
    ToLowerOfNoUpper(ToLower(s));
  }

  // ---------------------------------------------------------------------------------------------
  // Queries and record updates

  /** `findOne({ email })` finds something. */
  predicate HasEmail(users: map<Id, User>, email: string) {
    exists id :: id in users && users[id].email == email
  }

  /** Every stored email is lower-case: registration is the only route that sets one. */
  ghost predicate EmailsLowerCase(users: map<Id, User>) {
    forall id :: id in users ==> NoUpper(users[id].email)
  }

  /** The filter of the reset lookup: the code matches and the expiry is strictly later than now. */
  predicate ResetMatches(u: User, code: string, now: int) {
    u.confirmationCode == code && u.resetPasswordExpires.Some? && u.resetPasswordExpires.value > now
  }

  predicate HasResetMatch(users: map<Id, User>, code: string, now: int) {
    exists id :: id in users && ResetMatches(users[id], code, now)
  }

  /** How long a recovery code stays usable, in ms. */
  const ResetWindowMs: int := 3600000

  /** The record registration builds: defaults for status and expiry, the digest in place of the password. */
  function NewAccount(name: string, email: string, digest: string, code: string,
                      avatar: string, role: Role, now: int): (r: User)
    ensures r.status == Pending
    ensures forall c, t :: !ResetMatches(r, c, t)
    ensures r.name == name && r.email == email && r.password == digest && r.confirmationCode == code
    ensures r.avatar == avatar && r.role == role && r.date == now
  {
    User(name, email, digest, DefaultStatus, code, None, avatar, now, role)
  }

  /** Recovery: a new code, usable until an hour from now; the account is otherwise untouched. */
  function Recovered(u: User, code: string, now: int): (r: User)
    ensures forall t :: ResetMatches(r, code, t) <==> t < now + ResetWindowMs
    ensures r.name == u.name && r.email == u.email && r.password == u.password && r.status == u.status
    ensures r.avatar == u.avatar && r.date == u.date && r.role == u.role
  {
    u.(confirmationCode := code, resetPasswordExpires := Some(now + ResetWindowMs))
  }

  /**
   * Reset: the new digest, and the expiry pulled back to now, so that no code opens a reset of
   * this account at this time or later; the account is otherwise untouched.
   */
  function PasswordReset(u: User, digest: string, now: int): (r: User)
    ensures r.password == digest
    ensures forall c, t :: t >= now ==> !ResetMatches(r, c, t)
    ensures r.name == u.name && r.email == u.email && r.status == u.status
    ensures r.confirmationCode == u.confirmationCode && r.avatar == u.avatar && r.date == u.date && r.role == u.role
  {
    u.(password := digest, resetPasswordExpires := Some(now))
  }

  /** A recovery code opens a reset exactly during the hour after it was issued. */
  lemma RecoveredResetWindow(u: User, code: string, issued: int, now: int)
    ensures ResetMatches(Recovered(u, code, issued), code, now) <==> now < issued + 3600000
  {
  }

  /**
   * After a successful reset, its code matches no user at that time or later: the user reset has
   * an expiry that is not strictly later, and no other user holds the same code.
   */
  lemma {:induction false} ResetCodeSpent(users: map<Id, User>, id: Id, code: string, digest: string,
                                          now: int, later: int)
    requires UniqueFields(users)
    requires id in users && ResetMatches(users[id], code, now)
    requires later >= now
    ensures !HasResetMatch(users[id := PasswordReset(users[id], digest, now)], code, later)
  {
    var after := users[id := PasswordReset(users[id], digest, now)];
    forall k | k in after
      ensures !ResetMatches(after[k], code, later)
    {
      if k != id {
        assert after[k] == users[k];
        assert users[k].confirmationCode != users[id].confirmationCode;
      }
    }
  }

  /** Recovery looks the email up as typed, so an email with an upper-case letter is never found. */
  lemma {:induction false} UpperCaseEmailUnknown(users: map<Id, User>, email: string)
    requires EmailsLowerCase(users)
    requires !NoUpper(email)
    ensures !HasEmail(users, email)
  {
    forall id | id in users
      ensures users[id].email != email
    {
      assert NoUpper(users[id].email);
    }
  }

  /** A record whose email and code stay the same can be saved back into a store with unique fields. */
  lemma {:induction false} SameKeysSaveAllowed(users: map<Id, User>, id: Id, u: User)
    requires UniqueFields(users)
    requires id in users
    requires u.email == users[id].email && u.confirmationCode == users[id].confirmationCode
    ensures SaveAllowed(users, id, u)
  {
    forall k | k in users && k != id
      ensures users[k].email != u.email && users[k].confirmationCode != u.confirmationCode
    {
      assert users[k].email != users[id].email;
    }
  }

  // ---------------------------------------------------------------------------------------------
  // The store and its routes

  class UserStore {
    var users: map<Id, User>

    /** The unique indexes hold, and every stored email is lower-case. */
    ghost predicate Valid()
      reads this
    {
      UniqueFields(users) && EmailsLowerCase(users)
    }

    constructor ()
      ensures users == map[] && Valid()
    {
      users := map[];
    }

    /**
     * POST / : register. The email is lower-cased before the duplicate lookup and before storage.
     * `newId` is the id the new document gets; an invalid `role` or a clash on a unique index
     * (the `_id`, or a `code` signed in the same second as an earlier one) fails the save with 500.
     */
    method Register(name: string, email: string, password: string, role: Option<string>,
                    isEmail: string -> bool, hash: string -> string, code: string,
                    newId: Id, avatar: string, now: int) returns (status: Status)
      modifies this
      ensures !(NotEmpty(name) && isEmail(email) && LongEnough(password)) ==>
                status == BadRequest400 && users == old(users)
      ensures NotEmpty(name) && isEmail(email) && LongEnough(password) && HasEmail(old(users), ToLower(email)) ==>
                status == BadRequest400 && users == old(users)
      ensures NotEmpty(name) && isEmail(email) && LongEnough(password) && !HasEmail(old(users), ToLower(email)) ==>
                if RoleOnSave(role).Some? && newId !in old(users) &&
                   SaveAllowed(old(users), newId, NewAccount(name, ToLower(email), hash(password), code, avatar, RoleOnSave(role).value, now))
                then
                  status == Ok200 &&
                  users == old(users)[newId := NewAccount(name, ToLower(email), hash(password), code, avatar, RoleOnSave(role).value, now)]
                else
                  status == ServerError500 && users == old(users)
      ensures old(Valid()) ==> Valid()
    {
      if !(NotEmpty(name) && isEmail(email) && LongEnough(password)) {
        return BadRequest400;
      }
      var lowered := ToLower(email);
      if exists id :: id in users && users[id].email == lowered {
        return BadRequest400;
      }
      var storedRole := RoleOnSave(role);
      if storedRole.None? || newId in users {
        return ServerError500;
      }
      var account := NewAccount(name, lowered, hash(password), code, avatar, storedRole.value, now);
      var saved := Save(users, newId, account);
      if saved.None? {
        return ServerError500;
      }
      ghost var before := users;
      users := saved.value;
      if old(Valid()) {
        SaveKeepsUnique(before, newId, account);
        ToLowerNoUpper(email);
      }
      return Ok200;
    }

    /**
     * POST /password, behind the gate for every role: `caller` is the token's user id. A missing
     * record makes reading its password throw (500). The reply carries a fresh token.
     */
    method ChangePassword(caller: Id, password: string, newPassword: string,
                          matches: (string, string) -> bool, hash: string -> string) returns (status: Status)
      modifies this
      ensures !(LongEnough(password) && LongEnough(newPassword)) ==> status == BadRequest400 && users == old(users)
      ensures LongEnough(password) && LongEnough(newPassword) ==>
                if caller !in old(users) then
                  status == ServerError500 && users == old(users)
                else if !matches(password, old(users)[caller].password) then
                  status == BadRequest400 && users == old(users)
                else if SaveAllowed(old(users), caller, old(users)[caller].(password := hash(newPassword))) then
                  status == Ok200 && users == old(users)[caller := old(users)[caller].(password := hash(newPassword))]
                else
                  status == ServerError500 && users == old(users)
      ensures (&& old(Valid()) && LongEnough(password) && LongEnough(newPassword)
               && caller in old(users) && matches(password, old(users)[caller].password)) ==> status == Ok200
      ensures old(Valid()) ==> Valid()
    {
      if !(LongEnough(password) && LongEnough(newPassword)) {
        return BadRequest400;
      }
      if caller !in users {
        return ServerError500;
      }
      var current := users[caller];
      if !matches(password, current.password) {
        return BadRequest400;
      }
      var updated := current.(password := hash(newPassword));
      if old(Valid()) {
        SameKeysSaveAllowed(users, caller, updated);
      }
      var saved := Save(users, caller, updated);
      if saved.None? {
        return ServerError500;
      }
      ghost var before := users;
      users := saved.value;
      if old(Valid()) {
        SaveKeepsUnique(before, caller, updated);
        assert users == before[caller := updated];
      }
      return Ok200;
    }

    /**
     * POST /recover: the email is looked up as typed (not lower-cased). The found user gets a new
     * code and an expiry of now plus one hour; a code clash fails the save with 500.
     */
    method Recover(email: string, isEmail: string -> bool, code: string, now: int) returns (status: Status)
      modifies this
      ensures !isEmail(email) ==> status == BadRequest400 && users == old(users)
      ensures isEmail(email) && !HasEmail(old(users), email) ==> status == BadRequest400 && users == old(users)
      ensures isEmail(email) && HasEmail(old(users), email) ==>
                exists id :: id in old(users) && old(users)[id].email == email &&
                  if SaveAllowed(old(users), id, Recovered(old(users)[id], code, now)) then
                    status == Ok200 && users == old(users)[id := Recovered(old(users)[id], code, now)]
                  else
                    status == ServerError500 && users == old(users)
      ensures old(Valid()) ==> Valid()
    {
      if !isEmail(email) {
        return BadRequest400;
      }
      if !(exists id :: id in users && users[id].email == email) {
        return BadRequest400;
      }
      var id :| id in users && users[id].email == email;
      var updated := Recovered(users[id], code, now);
      var saved := Save(users, id, updated);
      if saved.None? {
        return ServerError500;
      }
      ghost var before := users;
      users := saved.value;
      assert users == before[id := updated];
      if old(Valid()) {
        SaveKeepsUnique(before, id, updated);
      }
      return Ok200;
    }

    /**
     * POST /reset/:confirmationCode: the user whose code matches and whose expiry is later than
     * now gets the new digest, and its expiry becomes now. When no user matches, reading the
     * password of the missing record throws (500) before anything is saved.
     */
    method Reset(code: string, newPassword: string, hash: string -> string, now: int) returns (status: Status)
      modifies this
      ensures !LongEnough(newPassword) ==> status == BadRequest400 && users == old(users)
      ensures LongEnough(newPassword) && !HasResetMatch(old(users), code, now) ==>
                status == ServerError500 && users == old(users)
      ensures LongEnough(newPassword) && HasResetMatch(old(users), code, now) ==>
                exists id :: id in old(users) && ResetMatches(old(users)[id], code, now) &&
                  if SaveAllowed(old(users), id, PasswordReset(old(users)[id], hash(newPassword), now)) then
                    status == Ok200 && users == old(users)[id := PasswordReset(old(users)[id], hash(newPassword), now)]
                  else
                    status == ServerError500 && users == old(users)
      ensures old(Valid()) && LongEnough(newPassword) && HasResetMatch(old(users), code, now) ==> status == Ok200
      ensures old(Valid()) ==> Valid()
    {
      if !LongEnough(newPassword) {
        return BadRequest400;
      }
      if !(exists id :: id in users && ResetMatches(users[id], code, now)) {
        return ServerError500;
      }
      var id :| id in users && ResetMatches(users[id], code, now);
      var updated := PasswordReset(users[id], hash(newPassword), now);
      if old(Valid()) {
        SameKeysSaveAllowed(users, id, updated);
      }
      var saved := Save(users, id, updated);
      if saved.None? {
        return ServerError500;
      }
      ghost var before := users;
      users := saved.value;
      assert users == before[id := updated];
      if old(Valid()) {
        SaveKeepsUnique(before, id, updated);
      }
      return Ok200;
    }
  }
}
