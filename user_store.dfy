/** Users as the coordinator stores them, and the one derived query of the
    user repository (findByUsername). Usernames are unique, so the store is a
    map from username to user. */
module UserStore {
  import opened Common

  /** A stored user: the generated id, login name, password hash, whether
      the account is enabled, and its role. */
  datatype User = User(id: string, username: string, passwordHash: string, active: bool, role: string)

  /** Every user is stored under its own username. */
  ghost predicate Keyed(users: map<string, User>) {
    forall name :: name in users ==> users[name].username == name
  }

  /** findByUsername. */
  function FindByUsername(users: map<string, User>, username: string): (r: Option<User>)
    ensures r.Some? <==> username in users
    ensures r.Some? ==> r.value == users[username]
  {
    if username in users then Some(users[username]) else None
  }

  /** The mutable user repository. */
  class UserRepository {
    var users: map<string, User>

    ghost predicate Valid()
      reads this
    {
      Keyed(users)
    }

    constructor ()
      ensures Valid() && users == map[]
    {
      users := map[];
    }

    /** save of a user built without its generated key: an insert under its
        username, which keeps every user under its own name. */
    method Save(u: User)
      requires Valid()
      modifies this
      ensures Valid()
      ensures users == old(users)[u.username := u]
    {
      users := users[u.username := u];
    }
  }
}
