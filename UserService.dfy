/** The identity service: registration, login and profile lookup over the
    users table. The password digest (SHA-256 in hex) is a parameter of the
    service, so nothing below depends on what it computes. */
module Identity {
  import opened BankTypes
  import opened Store

  class UserService {
    const db: Database
    /** The one-way password transformation. */
    const digest: string -> string

    constructor (db: Database, digest: string -> string)
      ensures this.db == db && this.digest == digest
    {
      this.db := db;
      this.digest := digest;
    }

    ghost predicate Valid()
      reads db
    {
      db.Valid()
    }

    /** The credential stored for a password: the service's digest of it. */
    function HashPassword(password: string): (r: string)
      ensures r == digest(password)
    {
      digest(password)
    }

    /** Login sees a password only through its digest: two passwords with the
        same digest are accepted or refused together, with the same summary. */
    lemma LoginDependsOnlyOnDigest(username: string, password: string, other: string)
      requires HashPassword(password) == HashPassword(other)
      ensures Authenticate(username, password) == Authenticate(username, other)
    {
    }

    /** Registers a new user unless the username is taken. The stored
        credential is the digest of the password, the new id is the next one,
        and afterwards that username and password log in to the new user. */
    method RegisterUser(profile: Profile, password: string) returns (r: Result<int>)
      requires Valid()
      modifies db`users, db`nextUserId
      ensures Valid()
      ensures profile.username in old(db.users) ==>
                r == Err(UsernameTaken) && db.users == old(db.users) && db.nextUserId == old(db.nextUserId)
      ensures profile.username !in old(db.users) ==>
                && r == Ok(old(db.nextUserId))
                && db.users == old(db.users)[profile.username := User(r.value, profile, HashPassword(password))]
                && db.nextUserId == old(db.nextUserId) + 1
      ensures r.Ok? ==> Authenticate(profile.username, password)
                          == Some(UserSummary(r.value, profile.firstName, profile.lastName, profile.username))
      ensures r.Ok? ==> GetUserInfo(r.value) == Some(User(r.value, profile, HashPassword(password)))
    {
      if profile.username in db.users {
        return Err(UsernameTaken);
      }
      var passwordHash := HashPassword(password);
      var id := db.nextUserId;
      db.users := db.users[profile.username := User(id, profile, passwordHash)];
      db.nextUserId := id + 1;
      r := Ok(id);
    }

    /** Logs in: a summary exactly when the username exists and the digest of
        the password matches the stored one. An unknown username and a wrong
        password give the same answer. */
    function Authenticate(username: string, password: string): (r: Option<UserSummary>)
      reads db
      ensures r.Some? <==> username in db.users && HashPassword(password) == db.users[username].passwordHash
      ensures r.Some? ==> var u := db.users[username];
                          r.value == UserSummary(u.id, u.profile.firstName, u.profile.lastName, u.profile.username)
    {
      if username !in db.users then None
      else
        var u := db.users[username];
        if HashPassword(password) == u.passwordHash then
          Some(UserSummary(u.id, u.profile.firstName, u.profile.lastName, u.profile.username))
        else
          None
    }

    /** The full stored record of the user with that id, if there is one. */
    function GetUserInfo(id: int): (r: Option<User>)
      requires Valid()
      reads db
      ensures r.Some? <==> exists name :: name in db.users && db.users[name].id == id
      ensures r.Some? ==> r.value.id == id && r.value in db.users.Values
    {
      UserWithId(db.users, db.nextUserId, id)
    }
  }
}
