/** UserService.create: registers a user under a new username, storing the
    hash of the password. */
module UserRegistration {
  import opened Common
  import opened Passwords
  import opened UserStore

  const USERNAME_TAKEN := "Username is taken"

  /** The user table after a create, and the response. */
  datatype CreateRun = CreateRun(users: map<string, User>, reply: Reply<User>)

  /** create; id is the key the database generates for the new row. */
  function CreateSpec(users: map<string, User>, encoder: PasswordEncoder, username: string, password: string,
                      role: string, id: string): CreateRun {
    if FindByUsername(users, username).Some? then CreateRun(users, Rejected(BAD_REQUEST, USERNAME_TAKEN))
    else
      var user := User(id, username, encoder.encode(password), true, role);
      CreateRun(users[username := user], Success(user))
  }

  /** A taken username is refused with 400 and the table is unchanged; a free
      one adds exactly one enabled user with the given name and role and the
      encoded password, and leaves every existing user as it was. */
  lemma CreateAddsExactlyOneUser(users: map<string, User>, encoder: PasswordEncoder, username: string, password: string,
                                 role: string, id: string)
    requires Keyed(users)
    ensures var run := CreateSpec(users, encoder, username, password, role, id);
      var user := User(id, username, encoder.encode(password), true, role);
      && (run.reply.Success? <==> username !in users)
      && (run.reply.Rejected? ==> run == CreateRun(users, Rejected(BAD_REQUEST, USERNAME_TAKEN)))
      && (run.reply.Success? ==>
            && run.reply.body == user
            && run.users.Keys == users.Keys + {username}
            && run.users[username] == user
            && Keyed(run.users)
            && forall name :: name in users ==> run.users[name] == users[name])
  {
  }

  class UserService {
    const userRepository: UserRepository
    const encoder: PasswordEncoder

    constructor (userRepository: UserRepository, encoder: PasswordEncoder)
      ensures this.userRepository == userRepository && this.encoder == encoder
    {
      this.userRepository := userRepository;
      this.encoder := encoder;
    }

    method Create(username: string, password: string, role: string, id: string) returns (r: Reply<User>)
      requires userRepository.Valid()
      modifies userRepository
      ensures userRepository.Valid()
      ensures CreateRun(userRepository.users, r) == CreateSpec(old(userRepository.users), encoder, username, password, role, id)
    {
      if FindByUsername(userRepository.users, username).Some? {
        return Rejected(BAD_REQUEST, USERNAME_TAKEN);
      }
      var user := User(id, username, encoder.encode(password), true, role);
      userRepository.Save(user);
      r := Success(user);
    }
  }
}
