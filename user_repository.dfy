/**
 * Model/Repository/Repositories/UserRepositories/UserRepository.kt: login and
 * registration against the users table. The clock is the parameter `now`;
 * whether the first database call throws is the parameter `store`.
 */
module UserRepo {
  import opened Wrappers
  import opened AppErrors
  import opened Models
  import opened UserStore

  /** `toUser`: the row without its password. */
  function ToUser(e: UserEntity): (u: User)
    ensures u == User(e.id, e.email, e.createdAt, e.lastLogin)
  {
    User(e.id, e.email, e.createdAt, e.lastLogin)
  }

  /** The password never reaches the User: rows differing only in it give the same User. */
  lemma ToUserForgetsPassword(e: UserEntity, password: string)
    ensures ToUser(e.(password := password)) == ToUser(e)
  {
  }

  /** Rows that give the same User differ at most in their password. */
  lemma ToUserDeterminesRow(a: UserEntity, b: UserEntity)
    requires ToUser(a) == ToUser(b)
    ensures a == b.(password := a.password)
  {
  }

  /** Text of a Kotlin `"${e.message}"` template: a null message prints as "null". */
  function MessageText(message: Option<string>): (t: string)
    ensures message.Some? ==> t == message.value
    ensures message.None? ==> t == "null"
  {
    message.GetOr("null")
  }

  function LoginFailure(message: Option<string>): AppError {
    CustomError("DB_LOGIN_001", "Login failed. Please try again.", Some("Login exception: " + MessageText(message)))
  }

  function RegisterFailure(message: Option<string>): AppError {
    CustomError("DB_REG_001", "Registration failed. Please try again.", Some("Registration exception: " + MessageText(message)))
  }

  /**
   * The failure text tells messages apart, except that a missing message and
   * the message "null" print alike.
   */
  lemma MessageTextIdentifies(a: Option<string>, b: Option<string>)
    requires MessageText(a) == MessageText(b)
    ensures a == b || (a.None? && b == Some("null")) || (a == Some("null") && b.None?)
  {
  }

  /** The debug message of a store failure is the fixed prefix followed by the exception's message, or "null". */
  lemma FailureDebugMessages(message: Option<string>)
    ensures LoginFailure(message).UserMessage() == "Login failed. Please try again."
    ensures LoginFailure(message).DebugMessage() ==
      Some("Login exception: " + if message.Some? then message.value else "null")
    ensures RegisterFailure(message).UserMessage() == "Registration failed. Please try again."
    ensures RegisterFailure(message).DebugMessage() ==
      Some("Registration exception: " + if message.Some? then message.value else "null")
  {
  }

  /** The row `register` inserts: key 0 ("generate one"), no last login. */
  function NewUserRow(request: RegisterRequest, now: int): (e: UserEntity)
    ensures e.id == 0 && e.email == request.email && e.password == request.password
    ensures e.createdAt == now && e.lastLogin.None?
  {
    UserEntity(0, request.email, request.password, now, None)
  }

  /**
   * After a new email is stored under a fresh key, looking the email up finds
   * exactly that row: a registered user can then log in with the same password.
   */
  lemma RegisteredIsFound(rows: UserTable, e: UserEntity)
    requires UsersKeyed(rows) && e.id !in rows
    requires forall id :: id in rows ==> rows[id].email != e.email
    ensures UsersKeyed(rows[e.id := e])
    ensures GetUserByEmail(rows[e.id := e], e.email) == Some(e)
  {
    var r := GetUserByEmail(rows[e.id := e], e.email);
    assert r.Some? by {
      assert rows[e.id := e][e.id].email == e.email;
    }
  }

  /** Storing a new email under a fresh key keeps emails distinct. */
  lemma FreshEmailKeepsDistinct(rows: UserTable, e: UserEntity)
    requires EmailsDistinct(rows) && e.id !in rows
    requires forall id :: id in rows ==> rows[id].email != e.email
    ensures EmailsDistinct(rows[e.id := e])
  {
  }

  // ---------------------------------------------------------------------------
  // What `login` and `register` do to the table and what they return

  /** The result of `login` on a table. */
  function LoginOutcome(rows: UserTable, request: LoginRequest, now: int, store: StoreCall): AuthState
    requires UsersKeyed(rows)
  {
    if store.Throws? then Error(LoginFailure(store.message))
    else
      match GetUserByEmail(rows, request.email)
      case None => Error(UserNotFound)
      case Some(e) =>
        if request.password != e.password then Error(InvalidPassword)
        else Success(ToUser(e.(lastLogin := Some(now))))
  }

  /** The table after `login`: only a successful login writes, and only its row's last login. */
  function LoginTable(rows: UserTable, request: LoginRequest, now: int, store: StoreCall): UserTable
    requires UsersKeyed(rows)
  {
    if store.Throws? then rows
    else
      match GetUserByEmail(rows, request.email)
      case None => rows
      case Some(e) => if request.password != e.password then rows else rows[e.id := e.(lastLogin := Some(now))]
  }

  /** The error cases of `login`: a failing store, an unknown email, a wrong password. */
  lemma LoginErrors(rows: UserTable, request: LoginRequest, now: int, store: StoreCall)
    requires UsersKeyed(rows)
    ensures store.Throws? ==> LoginOutcome(rows, request, now, store).error.Code() == "DB_LOGIN_001"
    ensures store.Completes? && (forall id :: id in rows ==> rows[id].email != request.email) ==>
      LoginOutcome(rows, request, now, store) == Error(UserNotFound)
    ensures var found := GetUserByEmail(rows, request.email);
            store.Completes? && found.Some? && found.value.password != request.password ==>
              LoginOutcome(rows, request, now, store) == Error(InvalidPassword)
    ensures !LoginOutcome(rows, request, now, store).Success? ==> LoginTable(rows, request, now, store) == rows
  {
  }

  /**
   * `login` succeeds exactly when the store answers and the first row with
   * that email has that password. The user it returns is that row, password
   * dropped, last login `now`; the table differs only in that row's last login.
   */
  lemma LoginSuccess(rows: UserTable, request: LoginRequest, now: int, store: StoreCall)
    requires UsersKeyed(rows)
    ensures var found := GetUserByEmail(rows, request.email);
            LoginOutcome(rows, request, now, store).Success? <==>
              store.Completes? && found.Some? && found.value.password == request.password
    ensures var r := LoginOutcome(rows, request, now, store);
            var t := LoginTable(rows, request, now, store);
            r.Success? ==>
              && r.data.id in rows
              && r.data == User(r.data.id, request.email, rows[r.data.id].createdAt, Some(now))
              && rows[r.data.id].password == request.password
              && t.Keys == rows.Keys
              && t[r.data.id] == rows[r.data.id].(lastLogin := Some(now))
              && forall id :: id in rows && id != r.data.id ==> t[id] == rows[id]
  {
  }

  /** The result of `register` on a table whose AUTOINCREMENT counter is `lastId`. */
  function RegisterOutcome(rows: UserTable, lastId: int, request: RegisterRequest, now: int, store: StoreCall): AuthState
    requires UsersKeyed(rows)
  {
    if store.Throws? then Error(RegisterFailure(store.message))
    else if GetUserByEmail(rows, request.email).Some? then Error(EmailAlreadyRegistered)
    else Success(User(lastId + 1, request.email, now, None))
  }

  /** The table after `register`: a new email gets one new row under the next key. */
  function RegisterTable(rows: UserTable, lastId: int, request: RegisterRequest, now: int, store: StoreCall): UserTable
    requires UsersKeyed(rows)
  {
    if store.Throws? || GetUserByEmail(rows, request.email).Some? then rows
    else rows[lastId + 1 := UserEntity(lastId + 1, request.email, request.password, now, None)]
  }

  /**
   * `register` succeeds exactly when the store answers and the email is new;
   * it then adds exactly one row, holding that email and password, and
   * returns it without the password. Otherwise the table is unchanged.
   */
  lemma RegisterEffect(rows: UserTable, lastId: int, request: RegisterRequest, now: int, store: StoreCall)
    requires UsersKeyed(rows) && forall id :: id in rows ==> id <= lastId
    ensures var r := RegisterOutcome(rows, lastId, request, now, store);
            r.Success? <==> store.Completes? && forall id :: id in rows ==> rows[id].email != request.email
    ensures var r := RegisterOutcome(rows, lastId, request, now, store);
            var t := RegisterTable(rows, lastId, request, now, store);
            if r.Success? then
              && r.data.id !in rows
              && t.Keys == rows.Keys + {r.data.id}
              && t[r.data.id].email == request.email && t[r.data.id].password == request.password
              && r.data == ToUser(t[r.data.id])
              && forall id :: id in rows ==> t[id] == rows[id]
            else t == rows
    ensures store.Completes? && GetUserByEmail(rows, request.email).Some? ==>
      RegisterOutcome(rows, lastId, request, now, store) == Error(EmailAlreadyRegistered)
    ensures store.Throws? ==> RegisterOutcome(rows, lastId, request, now, store).error.Code() == "DB_REG_001"
  {
  }

  /** Registering twice with the same email: the second attempt is refused and stores nothing. */
  lemma RegisterTwiceRefused(rows: UserTable, lastId: int, request: RegisterRequest, now: int, later: int)
    requires UsersKeyed(rows) && forall id :: id in rows ==> id <= lastId
    requires RegisterOutcome(rows, lastId, request, now, Completes).Success?
    ensures var t := RegisterTable(rows, lastId, request, now, Completes);
            && UsersKeyed(t)
            && RegisterOutcome(t, lastId + 1, request, later, Completes) == Error(EmailAlreadyRegistered)
            && RegisterTable(t, lastId + 1, request, later, Completes) == t
  {
    var t := RegisterTable(rows, lastId, request, now, Completes);
    assert t[lastId + 1].email == request.email;
  }

  /** After registering, logging in with the same email and password succeeds. */
  lemma RegisterThenLogin(rows: UserTable, lastId: int, request: RegisterRequest, now: int, later: int)
    requires UsersKeyed(rows) && forall id :: id in rows ==> id <= lastId
    requires RegisterOutcome(rows, lastId, request, now, Completes).Success?
    ensures var t := RegisterTable(rows, lastId, request, now, Completes);
            && UsersKeyed(t)
            && LoginOutcome(t, LoginRequest(request.email, request.password), later, Completes)
               == Success(User(lastId + 1, request.email, now, Some(later)))
  {
    var e := UserEntity(lastId + 1, request.email, request.password, now, None);
    RegisteredIsFound(rows, e);
  }

  /** UserRepository over one users table. */
  class UserRepository {
    const dao: UserDao

    ghost predicate Valid()
      reads this, dao
    {
      dao.Valid()
    }

    constructor (dao: UserDao)
      requires dao.Valid()
      ensures this.dao == dao && Valid()
    {
      this.dao := dao;
    }

    /**
     * `login`: UserNotFound for an unknown email, InvalidPassword for a wrong
     * password; otherwise that row's last login becomes `now` and the updated
     * user is returned. A throwing lookup gives DB_LOGIN_001.
     */
    method Login(request: LoginRequest, now: int, store: StoreCall) returns (r: AuthState)
      requires Valid()
      modifies dao
      ensures Valid() && dao.lastId == old(dao.lastId)
      ensures r == LoginOutcome(old(dao.rows), request, now, store)
      ensures dao.rows == LoginTable(old(dao.rows), request, now, store)
      ensures EmailsDistinct(old(dao.rows)) ==> EmailsDistinct(dao.rows)
    {
      if store.Throws? {
        return Error(LoginFailure(store.message));
      }
      var userEntity := GetUserByEmail(dao.rows, request.email);
      if userEntity.None? {
        r := Error(UserNotFound);
      } else if request.password != userEntity.value.password {
        r := Error(InvalidPassword);
      } else {
        var updatedUser := userEntity.value.(lastLogin := Some(now));
        dao.UpdateUser(updatedUser);
        r := Success(ToUser(updatedUser));
      }
    }

    /**
     * `register`: EmailAlreadyRegistered when the email is stored; otherwise
     * insert a row created at `now`, read it back by its new key and return
     * it (UserCreationFailed if it cannot be read). A throwing lookup gives
     * DB_REG_001.
     */
    method Register(request: RegisterRequest, now: int, store: StoreCall) returns (r: AuthState)
      requires Valid()
      modifies dao
      ensures Valid()
      ensures r == RegisterOutcome(old(dao.rows), old(dao.lastId), request, now, store)
      ensures dao.rows == RegisterTable(old(dao.rows), old(dao.lastId), request, now, store)
      ensures dao.lastId == if r.Success? then old(dao.lastId) + 1 else old(dao.lastId)
      ensures EmailsDistinct(old(dao.rows)) ==> EmailsDistinct(dao.rows)
    {
      if store.Throws? {
        return Error(RegisterFailure(store.message));
      }
      if GetUserByEmail(dao.rows, request.email).Some? {
        return Error(EmailAlreadyRegistered);
      }
      var userEntity := NewUserRow(request, now);
      var userId := dao.InsertUser(userEntity);
      var createdUser := GetUserById(dao.rows, userId.value);
      if createdUser.None? {
        return Error(UserCreationFailed);
      }
      r := Success(ToUser(createdUser.value));
    }

    /** `logout`: the session is not stored, so nothing changes. */
    method Logout()
      requires Valid()
      ensures unchanged(dao)
    {
    }

    /** `isLoggedIn`: some user row exists. */
    method IsLoggedIn() returns (b: bool)
      requires Valid()
      ensures b <==> dao.rows != map[]
    {
      b := GetUserCount(dao.rows) > 0;
    }

    /** `getCurrentUser`: the first stored user, or null when there is none. */
    method GetCurrentUser() returns (u: Option<User>)
      requires Valid()
      ensures u.None? <==> dao.rows == map[]
      ensures u.Some? ==> u.value.id in dao.rows && u.value == ToUser(dao.rows[u.value.id])
      ensures u.Some? ==> forall id :: id in dao.rows ==> u.value.id <= id
    {
      var first := GetFirstUser(dao.rows);
      if first.None? {
        u := None;
      } else {
        u := Some(ToUser(first.value));
      }
    }
  }
}
