/**
 * Registration and login (src/controllers/authController.ts). Password hashing
 * (`bcrypt.hash`, `bcrypt.compare`) and token signing (`jwt.sign`) are
 * parameters of the model; the signing secret is `process.env.JWT_SECRET`.
 */
module AuthController {
  import opened Wrappers
  import opened Http
  import opened Store

  const MsgRegisterRequired := "Os campos nome, email e senha são obrigatórios."
  const MsgEmailInUse := "Este e-mail já está em uso."
  const MsgRegisterFailed := "Não foi possível registrar o usuário."
  const MsgLoginRequired := "E-mail e senha são obrigatórios."
  const MsgBadCredentials := "Credenciais inválidas."
  const MsgLoginFailed := "Não foi possível fazer o login."

  /** The bcrypt cost factor `register` hashes with. */
  const SaltRounds := 10
  /** The token lifetime both handlers sign with. */
  const ExpiresIn := "8h"

  /** The `register` answer: the new user without the hash, and a token. */
  datatype Registered = Registered(user: PublicUser, token: string)

  /** The user fields `login` answers with. */
  datatype UserSummary = UserSummary(id: int, nome: Option<string>, email: string)

  /** The `login` answer. */
  datatype LoggedIn = LoggedIn(user: UserSummary, token: string)

  /**
   * `register`. `hash(senha, rounds)` stands for `bcrypt.hash` and
   * `sign(id, secret, expiresIn)` for `jwt.sign({ id }, ...)`; `now` is the time
   * the store stamps on the new row. The secret is checked only after the
   * insert, so a missing secret answers 500 with the user already stored.
   */
  method Register(db: Database, nome: JsonField, email: JsonField, senha: JsonField,
                  secret: Option<string>, hash: (string, int) -> string,
                  sign: (int, string, string) -> string, now: int) returns (r: Reply<Registered>)
    requires db.Valid()
    modifies db`usuarios, db`nextUsuarioId
    ensures db.Valid()
    ensures !(FieldTruthy(nome) && FieldTruthy(email) && FieldTruthy(senha)) ==>
              r == Err(400, MsgRegisterRequired) && db.usuarios == old(db.usuarios)
    ensures FieldTruthy(nome) && FieldTruthy(email) && FieldTruthy(senha) ==>
              if EmailTaken(old(db.usuarios), email.text) then
                r == Err(409, MsgEmailInUse) && db.usuarios == old(db.usuarios)
              else
                var row := Usuario(old(db.nextUsuarioId), Some(nome.text), email.text,
                                   hash(senha.text, SaltRounds), now, now);
                row.id !in old(db.usuarios)
                && db.usuarios == old(db.usuarios)[row.id := row]
                && r == (if Truthy(secret) then Ok(201, Registered(Public(row), sign(row.id, secret.value, ExpiresIn)))
                         else Err(500, MsgRegisterFailed))
  {
    if !FieldTruthy(nome) || !FieldTruthy(email) || !FieldTruthy(senha) {
      return Err(400, MsgRegisterRequired);
    }
    var existing := db.FindUserByEmail(email.text);
    if existing.Some? {
      return Err(409, MsgEmailInUse);
    }
    var row := Usuario(db.nextUsuarioId, Some(nome.text), email.text, hash(senha.text, SaltRounds), now, now);
    db.usuarios := db.usuarios[row.id := row];
    db.nextUsuarioId := db.nextUsuarioId + 1;
    if !Truthy(secret) {
      // thrown after the insert and caught by the handler
      return Err(500, MsgRegisterFailed);
    }
    r := Ok(201, Registered(Public(row), sign(row.id, secret.value, ExpiresIn)));
  }

  /**
   * `login`. `compare(senha, hash)` stands for `bcrypt.compare`. An unknown
   * email and a wrong password give the same 401 answer; on success the token is
   * signed over the user's id and the answer holds only id, nome and email.
   */
  method Login(db: Database, email: JsonField, senha: JsonField, secret: Option<string>,
               compare: (string, string) -> bool, sign: (int, string, string) -> string)
    returns (r: Reply<LoggedIn>)
    requires db.Valid()
    ensures !(FieldTruthy(email) && FieldTruthy(senha)) ==> r == Err(400, MsgLoginRequired)
    ensures FieldTruthy(email) && FieldTruthy(senha) && !EmailTaken(db.usuarios, email.text) ==>
              r == Err(401, MsgBadCredentials)
    ensures FieldTruthy(email) && FieldTruthy(senha) ==>
              forall k :: k in db.usuarios && db.usuarios[k].email == email.text ==>
                var u := db.usuarios[k];
                r == if !compare(senha.text, u.senha) then Err(401, MsgBadCredentials)
                     else if !Truthy(secret) then Err(500, MsgLoginFailed)
                     else Ok(200, LoggedIn(UserSummary(u.id, u.nome, u.email), sign(u.id, secret.value, ExpiresIn)))
  {
    if !FieldTruthy(email) || !FieldTruthy(senha) {
      return Err(400, MsgLoginRequired);
    }
    var found := db.FindUserByEmail(email.text);
    if found.None? {
      return Err(401, MsgBadCredentials);
    }
    var u := found.value;
    if !compare(senha.text, u.senha) {
      return Err(401, MsgBadCredentials);
    }
    if !Truthy(secret) {
      return Err(500, MsgLoginFailed);
    }
    r := Ok(200, LoggedIn(UserSummary(u.id, u.nome, u.email), sign(u.id, secret.value, ExpiresIn)));
  }

  /**
   * Registering and then logging in with the same email and password reaches
   * the same user, provided `compare` accepts a password against its own hash.
   */
  method RegisterThenLogin(db: Database, nome: string, email: string, senha: string, secret: string,
                           hash: (string, int) -> string, compare: (string, string) -> bool,
                           sign: (int, string, string) -> string, now: int)
    returns (registered: Reply<Registered>, loggedIn: Reply<LoggedIn>)
    requires db.Valid()
    requires nome != [] && email != [] && senha != [] && secret != []
    requires !EmailTaken(db.usuarios, email)
    requires compare(senha, hash(senha, SaltRounds))
    modifies db`usuarios, db`nextUsuarioId
    ensures registered.Ok? && registered.status == 201
    ensures loggedIn.Ok? && loggedIn.status == 200
    ensures loggedIn.value.user == UserSummary(registered.value.user.id, Some(nome), email)
    ensures registered.value.user.email == email && registered.value.user.nome == Some(nome)
  {
    registered := Register(db, Str(nome), Str(email), Str(senha), Some(secret), hash, sign, now);
    ghost var id := registered.value.user.id;
    assert id in db.usuarios && db.usuarios[id].email == email;
    loggedIn := Login(db, Str(email), Str(senha), Some(secret), compare, sign);
  }
}
