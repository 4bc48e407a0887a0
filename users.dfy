/**
  The user store (server/lib/users.ts): a process-wide map from email to
  user. The password digest (SHA-256, hex) is a function the store is built
  with; new user ids are drawn by the caller.
*/
module Users {
  import opened Wrappers

  datatype User = User(id: string, email: string, pwHash: string)

  class UserStore {
    /** The password digest: `sha256(password)` in hex. */
    const hashPassword: string -> string
    var users: map<string, User>

    /** Every user is stored under its own email. */
    ghost predicate Valid()
      reads this
    {
      forall e :: e in users ==> users[e].email == e
    }

    constructor (hashPassword: string -> string)
      ensures Valid() && this.hashPassword == hashPassword && users == map[]
    {
      this.hashPassword := hashPassword;
      users := map[];
    }

    /**
      `createUser`: an email already present fails with "exists" and changes
      nothing; a new email is stored with the password's digest, other
      emails keep their users, and the new user then passes verifyUser.
    */
    method CreateUser(email: string, password: string, id: string) returns (r: Result<User, string>)
      requires Valid()
      modifies this
      ensures Valid()
      ensures email in old(users) ==> r == Err("exists") && users == old(users)
      ensures email !in old(users) ==>
                r == Ok(User(id, email, hashPassword(password)))
                && users == old(users)[email := r.value]
      ensures forall e :: e != email ==> (e in users <==> e in old(users))
      ensures forall e :: e != email && e in users ==> users[e] == old(users)[e]
      ensures r.Ok? ==> VerifyUser(email, password) == Some(r.value)
    {
      if email in users {
        return Err("exists");
      }
      var user := User(id, email, hashPassword(password));
      users := users[email := user];
      r := Ok(user);
    }

    /**
      `verifyUser`: null for an unknown email; otherwise the stored user
      exactly when the password's digest equals the stored one.
    */
    function VerifyUser(email: string, password: string): (r: Option<User>)
      reads this
      ensures email !in users ==> r == None
      ensures r.Some? <==> email in users && users[email].pwHash == hashPassword(password)
      ensures r.Some? ==> r.value == users[email]
    {
      if email !in users then None
      else
        var u := users[email];
        if u.pwHash == hashPassword(password) then Some(u) else None
    }

    /** `getUserByEmail`: the stored user, or null. */
    function GetUserByEmail(email: string): (r: Option<User>)
      reads this
      ensures r.Some? <==> email in users
      ensures r.Some? ==> r.value == users[email]
    {
      if email in users then Some(users[email]) else None
    }
  }
}
