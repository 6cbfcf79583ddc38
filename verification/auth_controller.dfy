/** Registration, login and the profile endpoint. Password hashing (bcrypt)
    and token signing (JSON Web Tokens) are libraries this model does not
    contain: they are passed in as functions. A digest is a value of its own
    type, so the `users` table cannot hold a password in the clear. */
module AuthController {
  import opened Common

  const MissingRegisterMessage := "nombre, email y password son requeridos"
  const EmailTakenMessage := "El email ya está registrado"
  const MissingLoginMessage := "email y password son requeridos"
  const InvalidCredentialsMessage := "Credenciales inválidas"
  const UserNotFoundMessage := "Usuario no encontrado"

  /** What `bcrypt.hash` returns. */
  datatype Digest = Digest(bytes: seq<int>)

  datatype RegisterBody = RegisterBody(nombre: Field, email: Field, password: Field, cedula: Field, carrera: Field, role: Field)

  /** A row of `users`. */
  datatype UserRow = UserRow(
    id: nat,
    nombre: string,
    email: string,
    passwordHash: Digest,
    cedula: Option<string>,
    carrera: Option<string>,
    role: string,
    createdAt: int)

  /** The claims `signToken` signs: exactly these four. */
  datatype TokenPayload = TokenPayload(id: nat, email: string, role: string, nombre: string)

  /** The `user` object of a registration reply. */
  datatype NewUser = NewUser(id: nat, nombre: string, email: string, role: string)
  /** The `user` object of a login reply. */
  datatype LoginUser = LoginUser(id: nat, nombre: string, email: string, role: string, cedula: Option<string>, carrera: Option<string>)
  /** The `user` object of `GET /auth/me`. */
  datatype Profile = Profile(id: nat, nombre: string, email: string, role: string, cedula: Option<string>, carrera: Option<string>, createdAt: int)

  datatype AuthReply<+U> = AuthReply(user: U, token: string)

  /** The role a registration stores and returns. */
  function NormalizeRole(role: Field): (r: string)
    ensures r == "ADMIN" || r == "STUDENT"
    ensures r == "ADMIN" <==> role == Str("ADMIN")
  {
    if role == Str("ADMIN") then "ADMIN" else "STUDENT"
  }

  predicate EmailTaken(users: seq<UserRow>, email: string)
  {
    exists i :: 0 <= i < |users| && users[i].email == email
  }

  /** `SELECT * FROM users WHERE email = ?` followed by `rows[0]`. */
  function FirstByEmail(users: seq<UserRow>, email: string): (r: Option<UserRow>)
    ensures r.Some? ==> r.value in users && r.value.email == email
    ensures r.None? <==> !EmailTaken(users, email)
    decreases |users|
  {
    if users == [] then None
    else if users[0].email == email then Some(users[0])
    else
      assert forall i :: 1 <= i < |users| ==> users[i] == users[1..][i - 1];
      FirstByEmail(users[1..], email)
  }

  /** `SELECT … FROM users WHERE id = ?` followed by `rows[0]`. */
  function FirstById(users: seq<UserRow>, id: int): (r: Option<UserRow>)
    ensures r.None? <==> forall i :: 0 <= i < |users| ==> users[i].id != id
    ensures r.Some? ==> exists i :: 0 <= i < |users| && users[i] == r.value && r.value.id == id &&
                                    forall j :: 0 <= j < i ==> users[j].id != id
    decreases |users|
  {
    if users == [] then None
    else if users[0].id == id then Some(users[0])
    else
      var r := FirstById(users[1..], id);
      assert forall i :: 1 <= i < |users| ==> users[i] == users[1..][i - 1];
      if r.Some? then
        ghost var k :| 0 <= k < |users[1..]| && users[1..][k] == r.value && r.value.id == id &&
                       forall j :: 0 <= j < k ==> users[1..][j].id != id;
        assert users[k + 1] == r.value;
        r
      else r
  }

  /** `login`. `compare` is `bcrypt.compare` and `sign` signs a payload.
      Both credential failures give the same reply, so the reply does not
      tell an unknown e-mail from a wrong password. */
  function Login(users: seq<UserRow>, email: Field, password: Field,
                 compare: (string, Digest) -> bool, sign: TokenPayload -> string): (r: Response<AuthReply<LoginUser>>)
    ensures !Truthy(email) || !Truthy(password) ==> r == Err(400, MissingLoginMessage)
    ensures Truthy(email) && Truthy(password) && r.Err? ==> r == Err(401, InvalidCredentialsMessage)
    ensures r.Ok? <==>
      && Truthy(email) && Truthy(password)
      && FirstByEmail(users, email.s).Some?
      && compare(password.s, FirstByEmail(users, email.s).value.passwordHash)
    ensures r.Ok? ==>
      var u := FirstByEmail(users, email.s).value;
      && r.status == 200
      && r.value.user == LoginUser(u.id, u.nombre, u.email, u.role, u.cedula, u.carrera)
      && r.value.token == sign(TokenPayload(u.id, u.email, u.role, u.nombre))
  {
    if !Truthy(email) || !Truthy(password) then Err(400, MissingLoginMessage)
    else match FirstByEmail(users, email.s)
      case None => Err(401, InvalidCredentialsMessage)
      case Some(u) =>
        if !compare(password.s, u.passwordHash) then Err(401, InvalidCredentialsMessage)
        else Ok(200, AuthReply(LoginUser(u.id, u.nombre, u.email, u.role, u.cedula, u.carrera),
                               sign(TokenPayload(u.id, u.email, u.role, u.nombre))))
  }

  /** `me`: the profile of the token's user id, 404 when no row has it. */
  function Me(users: seq<UserRow>, userId: int): (r: Response<Profile>)
    ensures r.Err? <==> forall i :: 0 <= i < |users| ==> users[i].id != userId
    ensures r.Err? ==> r == Err(404, UserNotFoundMessage)
    ensures r.Ok? ==> r.status == 200 && r.value.id == userId
    ensures r.Ok? ==> exists i :: (
      && 0 <= i < |users| && users[i].id == userId
      && (forall j :: 0 <= j < i ==> users[j].id != userId)
      && r.value == Profile(users[i].id, users[i].nombre, users[i].email, users[i].role,
                            users[i].cedula, users[i].carrera, users[i].createdAt))
  {
    match FirstById(users, userId)
    case None => Err(404, UserNotFoundMessage)
    case Some(u) => Ok(200, Profile(u.id, u.nombre, u.email, u.role, u.cedula, u.carrera, u.createdAt))
  }

  /** The row a successful registration inserts. */
  function RegisteredRow(body: RegisterBody, id: nat, hash: string -> Digest, now: int): (u: UserRow)
    requires Truthy(body.nombre) && Truthy(body.email) && Truthy(body.password)
    ensures u.id == id && u.nombre == body.nombre.s && u.email == body.email.s
    ensures u.passwordHash == hash(body.password.s)
    ensures u.role == NormalizeRole(body.role)
    ensures u.cedula == OrNull(body.cedula) && u.carrera == OrNull(body.carrera)
  {
    UserRow(id, body.nombre.s, body.email.s, hash(body.password.s), OrNull(body.cedula), OrNull(body.carrera),
            NormalizeRole(body.role), now)
  }

  /** The `users` table. `nextId` is its AUTO_INCREMENT counter. */
  class UsersDb {
    var users: seq<UserRow>
    var nextId: nat

    /** Ids are distinct and below the counter; no two users share an e-mail. */
    ghost predicate Valid()
      reads this
    {
      && nextId >= 1
      && (forall i :: 0 <= i < |users| ==> 1 <= users[i].id < nextId)
      && (forall i, j :: 0 <= i < j < |users| ==> users[i].id != users[j].id && users[i].email != users[j].email)
    }

    constructor ()
      ensures Valid() && users == [] && nextId == 1
    {
      users, nextId := [], 1;
    }

    /** `register`. `hash` is `bcrypt.hash` with cost 10, `sign` signs a
        payload and `now` is the database clock. */
    method Register(body: RegisterBody, hash: string -> Digest, sign: TokenPayload -> string, now: int)
      returns (resp: Response<AuthReply<NewUser>>)
      requires Valid()
      modifies this
      ensures Valid()
      ensures !Truthy(body.nombre) || !Truthy(body.email) || !Truthy(body.password) ==>
        resp == Err(400, MissingRegisterMessage) && users == old(users) && nextId == old(nextId)
      ensures Truthy(body.nombre) && Truthy(body.email) && Truthy(body.password) && EmailTaken(old(users), body.email.s) ==>
        resp == Err(409, EmailTakenMessage) && users == old(users) && nextId == old(nextId)
      ensures Truthy(body.nombre) && Truthy(body.email) && Truthy(body.password) && !EmailTaken(old(users), body.email.s) ==>
        var u := RegisteredRow(body, old(nextId), hash, now);
        && users == old(users) + [u]
        && nextId == old(nextId) + 1
        && resp == Ok(201, AuthReply(NewUser(u.id, u.nombre, u.email, u.role), sign(TokenPayload(u.id, u.email, u.role, u.nombre))))
    {
      if !Truthy(body.nombre) || !Truthy(body.email) || !Truthy(body.password) {
        return Err(400, MissingRegisterMessage);
      }
      if EmailTaken(users, body.email.s) {
        return Err(409, EmailTakenMessage);
      }
      var u := RegisteredRow(body, nextId, hash, now);
      users, nextId := users + [u], nextId + 1;
      var newUser := NewUser(u.id, u.nombre, u.email, u.role);
      resp := Ok(201, AuthReply(newUser, sign(TokenPayload(newUser.id, newUser.email, newUser.role, newUser.nombre))));
    }
  }

  /** A user who has just registered can log in with the same e-mail and
      password, and receives a token for the registered row, provided
      `compare` accepts a password against its own hash. */
  lemma RegisterThenLogin(users: seq<UserRow>, body: RegisterBody, id: nat, now: int,
                          hash: string -> Digest, compare: (string, Digest) -> bool, sign: TokenPayload -> string)
    requires Truthy(body.nombre) && Truthy(body.email) && Truthy(body.password)
    requires !EmailTaken(users, body.email.s)
    requires compare(body.password.s, hash(body.password.s))
    ensures var u := RegisteredRow(body, id, hash, now);
      Login(users + [u], body.email, body.password, compare, sign) ==
        Ok(200, AuthReply(LoginUser(id, u.nombre, u.email, u.role, u.cedula, u.carrera),
                          sign(TokenPayload(id, u.email, u.role, u.nombre))))
  {
    var u := RegisteredRow(body, id, hash, now);
    FirstByEmailAppend(users, u);
  }

  lemma {:induction false} FirstByEmailAppend(users: seq<UserRow>, u: UserRow)
    requires !EmailTaken(users, u.email)
    ensures FirstByEmail(users + [u], u.email) == Some(u)
    decreases |users|
  {
    if users != [] {
      assert (users + [u])[1..] == users[1..] + [u];
      assert !EmailTaken(users[1..], u.email) by {
        forall i | 0 <= i < |users[1..]| ensures users[1..][i].email != u.email {
          assert users[1..][i] == users[i + 1];
        }
      }
      FirstByEmailAppend(users[1..], u);
    }
  }
}
