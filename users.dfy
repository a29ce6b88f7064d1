/** The guard logic of `UserServiceImpl`: `register` over the user table and `login`.
    Password hashing and token signing are parameters: `encode` for
    `PasswordEncoder.encode`, `matches` for `PasswordEncoder.matches` and `generateToken`
    for `JwtUtil.generateToken`. */
module Users {
  import opened Wire

  /** A row of the user table. */
  datatype User = User(id: UserId, username: string, password: string, nickname: string,
                       email: Option<string>, avatar: Option<string>, status: int)

  datatype RegisterRequest = RegisterRequest(username: string, password: string, nickname: Option<string>, email: Option<string>)

  datatype LoginResponse = LoginResponse(token: string, userId: UserId, username: string, nickname: string, avatar: Option<string>)

  /** `existsByUsername(name) > 0`. */
  predicate UsernameTaken(users: seq<User>, name: string) {
    exists k | 0 <= k < |users| :: users[k].username == name
  }

  /** `existsByEmail(email) > 0`. */
  predicate EmailTaken(users: seq<User>, email: string) {
    exists k | 0 <= k < |users| :: users[k].email == Some(email)
  }

  /** The two guards of `register`, in order: a taken username, then a taken email, the
      latter only when an email is given. */
  function RegisterCheck(users: seq<User>, req: RegisterRequest): (r: Option<Error>)
    ensures r == Some(UsernameExist) <==> UsernameTaken(users, req.username)
    ensures r == Some(EmailExist) <==>
              !UsernameTaken(users, req.username) && req.email.Some? && EmailTaken(users, req.email.value)
    ensures r.None? <==>
              !UsernameTaken(users, req.username) && !(req.email.Some? && EmailTaken(users, req.email.value))
  {
    if UsernameTaken(users, req.username) then Some(UsernameExist)
    else if req.email.Some? && EmailTaken(users, req.email.value) then Some(EmailExist)
    else None
  }

  /** The row `register` inserts: the nickname falls back to the username, the account
      is enabled and has no avatar. */
  function NewUser(id: UserId, req: RegisterRequest, hash: string): (u: User)
    ensures u.username == req.username && u.password == hash && u.email == req.email
    ensures u.nickname == if req.nickname.Some? then req.nickname.value else req.username
    ensures u.status == ENABLE && u.avatar == None && u.id == id
  {
    User(id, req.username, hash, if req.nickname.Some? then req.nickname.value else req.username,
         req.email, None, ENABLE)
  }

  /** `findByUsername`: the first row with this username. */
  function FindByUsername(users: seq<User>, name: string): (r: Option<User>)
    ensures r.Some? <==> UsernameTaken(users, name)
    ensures r.Some? ==> r.value in users && r.value.username == name
  {
    if |users| == 0 then None
    else if users[0].username == name then Some(users[0])
    else
      var r := FindByUsername(users[1..], name);
      assert UsernameTaken(users[1..], name) ==> UsernameTaken(users, name) by {
        if UsernameTaken(users[1..], name) {
          var k :| 0 <= k < |users[1..]| && users[1..][k].username == name;
          assert users[k + 1].username == name;
        }
      }
      assert UsernameTaken(users, name) ==> UsernameTaken(users[1..], name) by {
        if UsernameTaken(users, name) {
          var k :| 0 <= k < |users| && users[k].username == name;
          assert users[1..][k - 1].username == name;
        }
      }
      r
  }

  /** `login`: an unknown username and a wrong password both fail with PASSWORD_ERROR; a
      disabled account fails with ACCOUNT_DISABLED before its password is looked at; a
      successful login returns the row's id, username, nickname and avatar with a token
      for its id and username. */
  function Login(users: seq<User>, username: string, password: string,
                 matches: (string, string) -> bool, generateToken: (UserId, string) -> string): (r: Result<LoginResponse, Error>)
    ensures r == Err(PasswordError) <==>
              !UsernameTaken(users, username)
              || (FindByUsername(users, username).value.status != DISABLE
                  && !matches(password, FindByUsername(users, username).value.password))
    ensures r == Err(AccountDisabled) <==>
              UsernameTaken(users, username) && FindByUsername(users, username).value.status == DISABLE
    ensures r.Ok? <==>
              UsernameTaken(users, username)
              && FindByUsername(users, username).value.status != DISABLE
              && matches(password, FindByUsername(users, username).value.password)
    ensures r.Ok? ==>
              var u := FindByUsername(users, username).value;
              u in users && u.username == username
              && r.value == LoginResponse(generateToken(u.id, u.username), u.id, u.username, u.nickname, u.avatar)
  {
    match FindByUsername(users, username)
    case None => Err(PasswordError)
    case Some(u) =>
      if u.status == DISABLE then Err(AccountDisabled)
      else if !matches(password, u.password) then Err(PasswordError)
      else Ok(LoginResponse(generateToken(u.id, u.username), u.id, u.username, u.nickname, u.avatar))
  }

  /** A row appended after every row with other usernames is the one found by name. */
  lemma {:induction false} FindAppended(users: seq<User>, u: User)
    requires !UsernameTaken(users, u.username)
    ensures FindByUsername(users + [u], u.username) == Some(u)
    decreases |users|
  {
    if |users| > 0 {
      assert users[0].username != u.username;
      assert (users + [u])[1..] == users[1..] + [u];
      assert forall k | 0 <= k < |users[1..]| :: users[1..][k] == users[k + 1];
      FindAppended(users[1..], u);
    }
  }

  /** After a successful `register`, logging in with the same password succeeds and
      answers with the new row's id, the username and the nickname it was given. */
  lemma RegisterThenLogin(users: seq<User>, req: RegisterRequest, encode: string -> string,
                          matches: (string, string) -> bool, generateToken: (UserId, string) -> string)
    requires RegisterCheck(users, req).None?
    requires matches(req.password, encode(req.password))
    ensures var u := NewUser(|users| + 1, req, encode(req.password));
            (Login(users + [u], req.username, req.password, matches, generateToken)
             == Ok(LoginResponse(generateToken(|users| + 1, req.username), |users| + 1, req.username, u.nickname, None)))
  {
    FindAppended(users, NewUser(|users| + 1, req, encode(req.password)));
  }

  /** The user table with the `register` insert. Ids are assigned in insertion order,
      starting at 1, and usernames are unique. */
  class UserTable {
    var rows: seq<User>

    ghost predicate Valid()
      reads this
    {
      (forall k | 0 <= k < |rows| :: rows[k].id == k + 1)
      && (forall i, j | 0 <= i < j < |rows| :: rows[i].username != rows[j].username)
    }

    constructor ()
      ensures Valid() && rows == []
    {
      rows := [];
    }

    /** `register`: a rejected request inserts nothing; an accepted one appends the new
        row with the next id. */
    method Register(req: RegisterRequest, encode: string -> string) returns (r: Option<Error>)
      requires Valid()
      modifies this
      ensures Valid()
      ensures r == RegisterCheck(old(rows), req)
      ensures r.Some? ==> rows == old(rows)
      ensures r.None? ==> rows == old(rows) + [NewUser(|old(rows)| + 1, req, encode(req.password))]
    {
      if UsernameTaken(rows, req.username) {
        return Some(UsernameExist);
      }
      if req.email.Some? && EmailTaken(rows, req.email.value) {
        return Some(EmailExist);
      }
      var user := NewUser(|rows| + 1, req, encode(req.password));
      rows := rows + [user];
      r := None;
    }
  }
}
