/**
 * The `/login` handler of the authentication API (index.js:75-126) over an in-memory
 * copy of the `public.usuarios` table.
 *
 * The handler is a short-circuiting pipeline: both credentials present, user name
 * normalised to the lookup key, at most one row fetched, active gate, password
 * verification against the trimmed stored hash, role allow-list, and on success the
 * `ultimo_login` update of that row. `Decide` states the outcome of one call as a
 * function of the table and the inputs; `UserTable.Authenticate` performs the same
 * steps one after another and is proved to agree with it.
 */
module Login {

  import opened Wrappers
  import opened Text

  /** The value `NOW()` stands for; the clock is an input of the model. */
  type Timestamp = int

  /**
   * One row of `public.usuarios`. SQL NULL is `None`: a NULL `password_hash` or `rol`
   * is read as the empty string, and `activo` must be exactly `true`, so NULL matters there.
   */
  datatype UserRow = UserRow(
    id: int,
    usuario: string,
    passwordHash: Option<string>,
    rol: Option<string>,
    activo: Option<bool>,
    ultimoLogin: Option<Timestamp>)

  /** The response of the handler, one constructor per `res.status(...)` path. */
  datatype Outcome =
    | Missing          // 400 "Faltan credenciales"
    | BadCredentials   // 401 "Usuario o contraseña incorrectos"
    | Inactive         // 401 "Usuario inactivo"
    | RoleRejected     // 403 "Rol no autorizado"
    | Ok(usuario: string, rol: string)  // 200 { usuario, rol }
    | Internal         // 500 "Error interno del servidor"

  /** The HTTP status of each answer: the two 401s share one, every failure is 4xx or 5xx. */
  function Status(o: Outcome): (r: int)
    ensures r == 200 <==> o.Ok?
    ensures r == 401 <==> o.BadCredentials? || o.Inactive?
    ensures !o.Ok? ==> 400 <= r < 600
  {
    match o
    case Missing => 400
    case BadCredentials => 401
    case Inactive => 401
    case RoleRejected => 403
    case Ok(_, _) => 200
    case Internal => 500
  }

  /** The `message` field of an error body; a success body carries `usuario` and `rol` instead. */
  function Message(o: Outcome): (r: Option<string>)
    ensures r.None? <==> o.Ok?
  {
    match o
    case Missing => Some("Faltan credenciales")
    case BadCredentials => Some("Usuario o contraseña incorrectos")
    case Inactive => Some("Usuario inactivo")
    case RoleRejected => Some("Rol no autorizado")
    case Ok(_, _) => None
    case Internal => Some("Error interno del servidor")
  }

  /** Whether each of the two round trips to the store fails (the `catch` paths). */
  datatype StoreFaults = StoreFaults(selectFails: bool, updateFails: bool)

  const NoFaults: StoreFaults := StoreFaults(false, false)

  /** The roles allowed to log in (index.js:56), compared case-sensitively. */
  const ValidRoles: set<string> := {"Director", "CoordProyectos", "Financiera"}

  /** The key the table is searched with (index.js:84): the user name upper-cased, then trimmed. */
  function LookupKey(usuario: string): (r: string) {
    Trim(Upper(usuario))
  }

  /** The hash the password is checked against (index.js:105): the stored hash, NULL read as empty, trimmed. */
  function StoredHash(user: UserRow): (r: string) {
    Trim(user.passwordHash.GetOr(""))
  }

  /** The role the allow-list is consulted with (index.js:112): the stored role, NULL read as empty, trimmed. */
  function StoredRole(user: UserRow): (r: string) {
    Trim(user.rol.GetOr(""))
  }

  /**
   * The query of index.js:86-92: the index of one row whose `usuario` equals `key`
   * exactly. The query fixes no order; the model takes the first such row.
   */
  function FindFirst(rows: seq<UserRow>, key: string): (r: Option<nat>)
    ensures r.Some? ==> r.value < |rows| && rows[r.value].usuario == key
    ensures r.Some? ==> forall j :: 0 <= j < r.value ==> rows[j].usuario != key
    ensures r.None? ==> forall j :: 0 <= j < |rows| ==> rows[j].usuario != key
  {
    if rows == [] then None
    else if rows[0].usuario == key then Some(0)
    else match FindFirst(rows[1..], key)
      case None => None
      case Some(k) => Some(k + 1)
  }

  /** The row the handler fetches for these credentials, if it gets as far as the query. */
  function Matched(rows: seq<UserRow>, usuario: Option<string>): (r: Option<nat>)
    ensures r.Some? ==> r.value < |rows|
  {
    if Truthy(usuario) then FindFirst(rows, LookupKey(usuario.value)) else None
  }

  /**
   * The outcome of one call of the handler. `verifies(pw, hash)` is `bcrypt.compare`,
   * an opaque function of the plain password and the (trimmed) stored hash.
   */
  function Decide(rows: seq<UserRow>, usuario: Option<string>, password: Option<string>,
                  verifies: (string, string) -> bool, faults: StoreFaults): (r: Outcome)
    ensures r.Ok? ==> Matched(rows, usuario).Some?
  {
    if !Truthy(usuario) || !Truthy(password) then Missing
    else if faults.selectFails then Internal
    else match FindFirst(rows, LookupKey(usuario.value))
      case None => BadCredentials
      case Some(i) =>
        var user := rows[i];
        if user.activo != Some(true) then Inactive
        else if !verifies(password.value, StoredHash(user)) then BadCredentials
        else if StoredRole(user) !in ValidRoles then RoleRejected
        else if faults.updateFails then Internal
        else Ok(user.usuario, StoredRole(user))
  }

  /** The update of index.js:117-119: every row carrying `id` gets `now` as its last login. */
  function Stamp(rows: seq<UserRow>, id: int, now: Timestamp): (r: seq<UserRow>)
    ensures |r| == |rows|
    ensures forall j :: 0 <= j < |rows| && rows[j].id != id ==> r[j] == rows[j]
    ensures forall j :: 0 <= j < |rows| && rows[j].id == id ==> r[j] == rows[j].(ultimoLogin := Some(now))
  {
    seq(|rows|, j requires 0 <= j < |rows| =>
      if rows[j].id == id then rows[j].(ultimoLogin := Some(now)) else rows[j])
  }

  /** The table after one call of the handler: stamped on success, untouched otherwise. */
  function TableAfter(rows: seq<UserRow>, usuario: Option<string>, password: Option<string>,
                      verifies: (string, string) -> bool, faults: StoreFaults, now: Timestamp): (r: seq<UserRow>)
    ensures |r| == |rows|
    ensures forall j :: 0 <= j < |rows| ==> r[j] == rows[j].(ultimoLogin := r[j].ultimoLogin)
  {
    if Decide(rows, usuario, password, verifies, faults).Ok?
    then Stamp(rows, rows[Matched(rows, usuario).value].id, now)
    else rows
  }

  /** `id` is the table's key: no two rows share one. */
  predicate UniqueIds(rows: seq<UserRow>) {
    forall i, j :: 0 <= i < |rows| && 0 <= j < |rows| && rows[i].id == rows[j].id ==> i == j
  }

  /** What the query of index.js:86-92 hands back: an error, no row, or one row. */
  datatype Selection = SelectFailed | NoRow | Row(user: UserRow)

  /** The `usuarios` table as the handler sees it through the connection pool. */
  class UserTable {
    var rows: seq<UserRow>

    ghost predicate Valid()
      reads this
    {
      UniqueIds(rows)
    }

    /** `id` is the table's primary key, so a table with a repeated id does not exist. */
    constructor (initial: seq<UserRow>)
      requires UniqueIds(initial)
      ensures rows == initial
      ensures Valid()
    {
      rows := initial;
    }

    /** The `SELECT` of index.js:86-92; `fails` says whether the round trip errs. */
    method SelectByUsuario(key: string, fails: bool) returns (r: Selection)
      ensures r.SelectFailed? <==> fails
      ensures r.NoRow? <==> !fails && forall j :: 0 <= j < |rows| ==> rows[j].usuario != key
      ensures r.Row? ==> r.user.usuario == key
      ensures r.Row? ==> FindFirst(rows, key).Some? && r.user == rows[FindFirst(rows, key).value]
    {
      if fails {
        return SelectFailed;
      }
      var found := FindFirst(rows, key);
      if found.None? {
        return NoRow;
      }
      return Row(rows[found.value]);
    }

    /** The `UPDATE` of index.js:117-119; a failed statement changes nothing. */
    method TouchLastLogin(id: int, now: Timestamp, fails: bool) returns (written: bool)
      requires Valid()
      modifies this
      ensures written == !fails
      ensures rows == if fails then old(rows) else Stamp(old(rows), id, now)
      ensures Valid()
    {
      if fails {
        return false;
      }
      rows := Stamp(rows, id, now);
      return true;
    }

    /** The `/login` handler. */
    method Authenticate(usuario: Option<string>, password: Option<string>, now: Timestamp,
                        verifies: (string, string) -> bool, faults: StoreFaults)
      returns (outcome: Outcome)
      requires Valid()
      modifies this
      ensures outcome == Decide(old(rows), usuario, password, verifies, faults)
      ensures rows == TableAfter(old(rows), usuario, password, verifies, faults, now)
      ensures Valid()
      ensures !outcome.Ok? ==> rows == old(rows)
      ensures outcome.Ok? ==>
        && Matched(old(rows), usuario).Some?
        && var i := Matched(old(rows), usuario).value;
        && |rows| == |old(rows)|
        && rows[i] == old(rows)[i].(ultimoLogin := Some(now))
        && forall j :: 0 <= j < |rows| && j != i ==> rows[j] == old(rows)[j]
    {
      if !Truthy(usuario) || !Truthy(password) {
        return Missing;
      }
      var key := LookupKey(usuario.value);
      var selected := SelectByUsuario(key, faults.selectFails);
      if selected.SelectFailed? {
        return Internal;
      }
      if selected.NoRow? {
        return BadCredentials;
      }
      var user := selected.user;
      if user.activo != Some(true) {
        return Inactive;
      }
      var hash := StoredHash(user);
      var ok := verifies(password.value, hash);
      if !ok {
        return BadCredentials;
      }
      var rol := StoredRole(user);
      if rol !in ValidRoles {
        return RoleRejected;
      }
      var written := TouchLastLogin(user.id, now, faults.updateFails);
      if !written {
        return Internal;
      }
      return Ok(user.usuario, rol);
    }
  }
}
