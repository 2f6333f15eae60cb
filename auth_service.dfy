/** The authentication service over a map-backed user repository. Password hashing, password
    checking and token issue and validation are function values the service holds. */
module AuthService {
  import opened Wrappers
  import opened DomainUser
  import AuthMiddleware

  /** The user repository: accounts by id. */
  class UserRepository {
    var users: map<string, UserView>

    /** Ids index the accounts, and no two accounts share an email or a username, as Register
        keeps them. */
    ghost predicate Valid()
      reads this
    {
      && (forall id :: id in users ==> users[id].id == id)
      && (forall a, b :: a in users && b in users && users[a].email == users[b].email ==> a == b)
      && (forall a, b :: a in users && b in users && users[a].username == users[b].username ==> a == b)
    }

    constructor ()
      ensures Valid() && users == map[]
    {
      users := map[];
    }

    predicate EmailTaken(email: string)
      reads this
    {
      exists id :: id in users && users[id].email == email
    }

    predicate UsernameTaken(username: string)
      reads this
    {
      exists id :: id in users && users[id].username == username
    }

    method ExistsByEmail(email: string) returns (b: bool)
      ensures b == EmailTaken(email)
    {
      b := exists id :: id in users && users[id].email == email;
    }

    method ExistsByUsername(username: string) returns (b: bool)
      ensures b == UsernameTaken(username)
    {
      b := exists id :: id in users && users[id].username == username;
    }

    /** GetByEmail: the one account with that email. */
    method GetByEmail(email: string) returns (r: Result<UserView>)
      requires Valid()
      ensures r.Err? <==> !EmailTaken(email)
      ensures r.Err? ==> r.code == NotFound
      ensures r.Ok? ==> r.value.id in users && users[r.value.id] == r.value && r.value.email == email
    {
      if !exists id :: id in users && users[id].email == email {
        return Err(NotFound);
      }
      var id :| id in users && users[id].email == email;
      r := Ok(users[id]);
    }

    method GetById(id: string) returns (r: Result<UserView>)
      ensures id in users ==> r == Ok(users[id])
      ensures id !in users ==> r == Err(NotFound)
    {
      if id !in users {
        return Err(NotFound);
      }
      r := Ok(users[id]);
    }

    /** Create inserts an account. A taken id, email or username violates a key of the users
        table; `fails` stands for any other failed statement. A failure changes nothing. */
    method Create(u: UserView, fails: bool) returns (r: Outcome)
      requires Valid()
      modifies this
      ensures Valid()
      ensures r.Fail? <==> fails || u.id in old(users) || old(EmailTaken(u.email)) || old(UsernameTaken(u.username))
      ensures r.Fail? ==> r.code == Unknown && users == old(users)
      ensures r.Pass? ==> users == old(users)[u.id := u]
    {
      if fails || u.id in users {
        return Fail(Unknown);
      }
      var taken := ExistsByEmail(u.email);
      if taken {
        return Fail(Unknown);
      }
      taken := ExistsByUsername(u.username);
      if taken {
        return Fail(Unknown);
      }
      users := users[u.id := u];
      r := Pass;
    }

    /** Update rewrites a stored account under the same email and username; `fails` stands for a
        failed statement, which changes nothing. */
    method Update(u: UserView, fails: bool)
      requires Valid() && u.id in users && u.email == users[u.id].email && u.username == users[u.id].username
      modifies this
      ensures Valid()
      ensures users == if fails then old(users) else old(users)[u.id := u]
    {
      if !fails {
        users := users[u.id := u];
      }
    }
  }

  /** The one account with a given email. */
  ghost function AccountByEmail(users: map<string, UserView>, email: string): UserView
    requires exists id :: id in users && users[id].email == email
  {
    var id :| id in users && users[id].email == email; users[id]
  }

  /** The account Register stores. */
  function RegisteredView(newId: string, email: string, username: string, passwordHash: string,
                          fullName: string, now: Time): (u: UserView)
    ensures u.id == newId && u.email == email && u.username == username && u.passwordHash == passwordHash
    ensures u.isActive && u.lastLoginAt.None? && u.createdAt == u.updatedAt == now
    ensures u.fullName == fullName
  {
    var u := NewUserView(newId, email, username, passwordHash, now);
    if fullName != "" then u.(fullName := fullName) else u
  }

  class Service {
    const repo: UserRepository
    /** bcrypt hashing; None is a hashing error. */
    const hashPassword: string -> Option<string>
    /** bcrypt comparison of a password with a hash. */
    const checkPassword: (string, string) -> bool
    /** JWT issue for (user id, username, email); None is a signing error. */
    const generateToken: (string, string, string) -> Option<string>
    /** JWT validation. */
    const validateToken: string -> Option<AuthMiddleware.Claims>

    constructor (repo: UserRepository, hashPassword: string -> Option<string>, checkPassword: (string, string) -> bool,
                 generateToken: (string, string, string) -> Option<string>,
                 validateToken: string -> Option<AuthMiddleware.Claims>)
      ensures this.repo == repo && this.hashPassword == hashPassword && this.checkPassword == checkPassword
      ensures this.generateToken == generateToken && this.validateToken == validateToken
    {
      this.repo := repo;
      this.hashPassword := hashPassword;
      this.checkPassword := checkPassword;
      this.generateToken := generateToken;
      this.validateToken := validateToken;
    }

    /** Register; `newId` and `now` stand for the fresh UUID and the clock, `insertFails` for a
        failed insert other than a taken key. */
    method Register(email: string, username: string, password: string, fullName: string, newId: string, now: Time,
                    insertFails: bool)
      returns (r: Result<User>)
      requires repo.Valid()
      modifies repo
      ensures repo.Valid()
      ensures email == "" ==> r == Err(InvalidArgument)
      ensures email != "" && username == "" ==> r == Err(InvalidArgument)
      ensures email != "" && username != "" && password == "" ==> r == Err(InvalidArgument)
      ensures email != "" && username != "" && password != "" && old(repo.EmailTaken(email)) ==> r == Err(AlreadyExists)
      ensures (email != "" && username != "" && password != "" && !old(repo.EmailTaken(email))
               && old(repo.UsernameTaken(username))) ==> r == Err(AlreadyExists)
      ensures (email != "" && username != "" && password != "" && !old(repo.EmailTaken(email))
               && !old(repo.UsernameTaken(username))) ==>
                (r.Ok? <==> hashPassword(password).Some? && newId !in old(repo.users) && !insertFails)
                && (r.Err? ==> r.code == Internal)
      ensures r.Err? ==> repo.users == old(repo.users)
      ensures r.Ok? ==> && fresh(r.value)
                        && r.value.View() == RegisteredView(newId, email, username, hashPassword(password).value, fullName, now)
                        && repo.users == old(repo.users)[newId := r.value.View()]
    {
      if email == "" {
        return Err(InvalidArgument);
      }
      if username == "" {
        return Err(InvalidArgument);
      }
      if password == "" {
        return Err(InvalidArgument);
      }
      var taken := repo.ExistsByEmail(email);
      if taken {
        return Err(AlreadyExists);
      }
      taken := repo.ExistsByUsername(username);
      if taken {
        return Err(AlreadyExists);
      }
      var passwordHash := hashPassword(password);
      if passwordHash.None? {
        return Err(Internal);
      }
      var user := new User(newId, email, username, passwordHash.value, now);
      if fullName != "" {
        user.SetFullName(fullName);
      }
      var created := repo.Create(user.View(), insertFails);
      if created.Fail? {
        return Err(Internal);
      }
      r := Ok(user);
    }

    /** Login; `now` stands for the clock and `updateFails` for a failed write of the login time,
        which the login ignores. An unknown email and a wrong password are both Unauthenticated; an
        inactive account is PermissionDenied, checked after the password. */
    method Login(email: string, password: string, now: Time, updateFails: bool) returns (r: Result<(User, string)>)
      requires repo.Valid()
      modifies repo
      ensures repo.Valid()
      ensures !old(repo.EmailTaken(email)) ==> r == Err(Unauthenticated)
      ensures old(repo.EmailTaken(email)) ==>
                var u := AccountByEmail(old(repo.users), email);
                var loggedIn := u.(lastLoginAt := Some(now), updatedAt := now);
                && (!checkPassword(password, u.passwordHash) ==> r == Err(Unauthenticated))
                && (checkPassword(password, u.passwordHash) && !u.isActive ==> r == Err(PermissionDenied))
                && (checkPassword(password, u.passwordHash) && u.isActive ==>
                      && repo.users == (if updateFails then old(repo.users) else old(repo.users)[u.id := loggedIn])
                      && (generateToken(u.id, u.username, u.email).None? ==> r == Err(Internal))
                      && (generateToken(u.id, u.username, u.email).Some? ==>
                            r.Ok? && fresh(r.value.0) && r.value.0.View() == loggedIn
                            && r.value.1 == generateToken(u.id, u.username, u.email).value))
      ensures r.Err? && r.code != Internal ==> repo.users == old(repo.users)
    {
      var found := repo.GetByEmail(email);
      if found.Err? {
        return Err(Unauthenticated);
      }
      var stored := found.value;
      if !checkPassword(password, stored.passwordHash) {
        return Err(Unauthenticated);
      }
      if !stored.isActive {
        return Err(PermissionDenied);
      }
      var user := new User.FromView(stored);
      user.UpdateLastLogin(now);
      repo.Update(user.View(), updateFails);
      var token := generateToken(user.View().id, user.View().username, user.View().email);
      if token.None? {
        return Err(Internal);
      }
      r := Ok((user, token.value));
    }

    /** The answer ValidateToken gives for `token` against the stored accounts: claims only for a
        token `validateToken` accepts whose user is stored and active. */
    function TokenCheck(token: string): (r: Result<AuthMiddleware.Claims>)
      reads repo
      ensures r.Ok? <==> && validateToken(token).Some? && validateToken(token).value.userId in repo.users
                         && repo.users[validateToken(token).value.userId].isActive
      ensures r.Ok? ==> r.value == validateToken(token).value
      ensures r.Err? ==> r.code == Unauthenticated || r.code == PermissionDenied
    {
      if validateToken(token).None? then Err(Unauthenticated)
      else if validateToken(token).value.userId !in repo.users then Err(Unauthenticated)
      else if !repo.users[validateToken(token).value.userId].isActive then Err(PermissionDenied)
      else Ok(validateToken(token).value)
    }

    /** ValidateToken: a token `validateToken` rejects, or whose user is gone, is Unauthenticated;
        an inactive user is PermissionDenied; otherwise the claims. */
    method ValidateToken(token: string) returns (r: Result<AuthMiddleware.Claims>)
      ensures r == TokenCheck(token)
      ensures validateToken(token).None? ==> r == Err(Unauthenticated)
      ensures validateToken(token).Some? ==>
                var c := validateToken(token).value;
                r == if c.userId !in repo.users then Err(Unauthenticated)
                     else if !repo.users[c.userId].isActive then Err(PermissionDenied)
                     else Ok(c)
    {
      var claims := validateToken(token);
      if claims.None? {
        return Err(Unauthenticated);
      }
      var user := repo.GetById(claims.value.userId);
      if user.Err? {
        return Err(Unauthenticated);
      }
      if !user.value.isActive {
        return Err(PermissionDenied);
      }
      r := Ok(claims.value);
    }

    /** GetUserByID */
    method GetUserById(userId: string) returns (r: Result<UserView>)
      ensures userId == "" ==> r == Err(InvalidArgument)
      ensures userId != "" && userId !in repo.users ==> r == Err(NotFound)
      ensures userId != "" && userId in repo.users ==> r == Ok(repo.users[userId])
    {
      if userId == "" {
        return Err(InvalidArgument);
      }
      var user := repo.GetById(userId);
      if user.Err? {
        return Err(NotFound);
      }
      r := Ok(user.value);
    }
  }
}
