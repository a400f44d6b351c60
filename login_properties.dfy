/**
 * Properties of the `/login` decision (`Login.Decide`) and of its effect on the table
 * (`Login.TableAfter`): the order of the checks, the lookup key, the indistinguishable
 * failure for an unknown user and a wrong password, and the frame of the update.
 */
module LoginProperties {

  import opened Wrappers
  import opened Text
  import opened Login

  // ---------------------------------------------------------------------
  // Step 1: credentials present
  // ---------------------------------------------------------------------

  /**
   * A missing or empty user name or password is answered with 400, whatever the table
   * holds, and nothing else is answered with 400; the table stays as it was.
   */
  lemma {:induction false} MissingCredentials(rows: seq<UserRow>, other: seq<UserRow>, usuario: Option<string>,
                           password: Option<string>, verifies: (string, string) -> bool,
                           faults: StoreFaults, now: Timestamp)
    ensures Decide(rows, usuario, password, verifies, faults) == Missing <==>
              !Truthy(usuario) || !Truthy(password)
    ensures !Truthy(usuario) || !Truthy(password) ==>
              && Decide(other, usuario, password, verifies, faults) == Missing
              && Status(Missing) == 400 && Message(Missing) == Some("Faltan credenciales")
              && TableAfter(rows, usuario, password, verifies, faults, now) == rows
  {
  }

  // ---------------------------------------------------------------------
  // Step 2: the lookup key
  // ---------------------------------------------------------------------

  lemma {:induction false} UpperOfSpace(a: string)
    requires AllSpace(a)
    ensures AllSpace(Upper(a))
  {
    UpperAt(a);
    forall i | 0 <= i < |a| ensures IsSpace(Upper(a)[i]) {
      UpperCharKeepsSpace(a[i]);
    }
  }

  /**
   * The key ignores the case of ASCII letters and whitespace around the input: an input
   * that upper-cases like `v`, padded with whitespace, has the key of `v`.
   */
  lemma {:induction false} LookupKeyInsensitive(a: string, u: string, b: string, v: string)
    requires AllSpace(a) && AllSpace(b) && Upper(u) == Upper(v)
    ensures LookupKey(a + u + b) == LookupKey(v)
  {
    UpperConcat(a + u, b);
    UpperConcat(a, u);
    UpperOfSpace(a);
    UpperOfSpace(b);
    TrimIgnoresPadding(Upper(a), Upper(u), Upper(b));
  }

  /** Normalising a key that is already normalised leaves it alone. */
  lemma {:induction false} LookupKeyIdempotent(u: string)
    ensures LookupKey(LookupKey(u)) == LookupKey(u)
  {
    UpperTrimCommute(Upper(u));
    UpperIdempotent(u);
    TrimIdempotent(Upper(u));
  }

  /** A trimmed key without ASCII lower-case letters is its own lookup key. */
  lemma {:induction false} CanonicalKey(k: string)
    requires Trimmed(k) && forall i :: 0 <= i < |k| ==> !('a' <= k[i] <= 'z')
    ensures LookupKey(k) == k
  {
    UpperOfNoLower(k);
    assert AllSpace([]);
    assert [] + k + [] == k;
    TrimPadded([], k, []);
  }

  lemma {:induction false} UpperDirector1()
    ensures Upper("director1") == "DIRECTOR1"
  {
  }

  /** `"director1"`, `"DIRECTOR1"` and `" director1 "` are all looked up as `"DIRECTOR1"`. */
  lemma {:induction false} LookupKeyExamples()
    ensures LookupKey("director1") == "DIRECTOR1"
    ensures LookupKey("DIRECTOR1") == "DIRECTOR1"
    ensures LookupKey(" director1 ") == "DIRECTOR1"
  {
    CanonicalKey("DIRECTOR1");
    UpperDirector1();
    UpperOfNoLower("DIRECTOR1");
    assert AllSpace(" ") && AllSpace([]);
    assert [] + "director1" + [] == "director1";
    LookupKeyInsensitive([], "director1", [], "DIRECTOR1");
    assert " " + "director1" + " " == " director1 ";
    LookupKeyInsensitive(" ", "director1", " ", "DIRECTOR1");
  }

  /** Two inputs with the same key are the same login: same outcome, same table afterwards. */
  lemma {:induction false} SameKeySameLogin(rows: seq<UserRow>, u1: string, u2: string, password: Option<string>,
                         verifies: (string, string) -> bool, faults: StoreFaults, now: Timestamp)
    requires u1 != "" && u2 != "" && LookupKey(u1) == LookupKey(u2)
    ensures Decide(rows, Some(u1), password, verifies, faults) == Decide(rows, Some(u2), password, verifies, faults)
    ensures TableAfter(rows, Some(u1), password, verifies, faults, now) ==
            TableAfter(rows, Some(u2), password, verifies, faults, now)
  {
  }

  /** When user names are distinct, the row fetched for a key is the one row that has it. */
  lemma {:induction false} FindFirstUnique(rows: seq<UserRow>, key: string, i: nat)
    requires i < |rows| && rows[i].usuario == key
    requires forall j, k :: 0 <= j < |rows| && 0 <= k < |rows| && rows[j].usuario == rows[k].usuario ==> j == k
    ensures FindFirst(rows, key) == Some(i)
  {
  }

  /** The lookup looks at the `usuario` column only. */
  lemma {:induction false} FindFirstByUsernames(rows: seq<UserRow>, others: seq<UserRow>, key: string)
    requires |rows| == |others|
    requires forall j :: 0 <= j < |rows| ==> rows[j].usuario == others[j].usuario
    ensures FindFirst(rows, key) == FindFirst(others, key)
  {
  }

  // ---------------------------------------------------------------------
  // Steps 3-4: which failure comes out
  // ---------------------------------------------------------------------

  /**
   * An unknown user name and a wrong password for an active user are answered alike,
   * with 401 and the same message, and neither touches the table.
   */
  lemma {:induction false} UnknownUserLooksLikeWrongPassword(
      rows: seq<UserRow>, unknown: string, known: string, p1: string, p2: string,
      verifies: (string, string) -> bool, faults: StoreFaults, now: Timestamp)
    requires unknown != "" && known != "" && p1 != "" && p2 != "" && !faults.selectFails
    requires FindFirst(rows, LookupKey(unknown)).None?
    requires FindFirst(rows, LookupKey(known)).Some?
    requires rows[FindFirst(rows, LookupKey(known)).value].activo == Some(true)
    requires !verifies(p2, StoredHash(rows[FindFirst(rows, LookupKey(known)).value]))
    ensures Decide(rows, Some(unknown), Some(p1), verifies, faults) == BadCredentials
    ensures Decide(rows, Some(known), Some(p2), verifies, faults) == BadCredentials
    ensures Status(BadCredentials) == 401
    ensures Message(BadCredentials) == Some("Usuario o contraseña incorrectos")
    ensures TableAfter(rows, Some(unknown), Some(p1), verifies, faults, now) == rows
    ensures TableAfter(rows, Some(known), Some(p2), verifies, faults, now) == rows
  {
  }

  /** 401 "Usuario o contraseña incorrectos" comes out exactly for an unknown user or a wrong password. */
  lemma {:induction false} BadCredentialsIff(rows: seq<UserRow>, usuario: Option<string>, password: Option<string>,
                          verifies: (string, string) -> bool, faults: StoreFaults)
    ensures Decide(rows, usuario, password, verifies, faults) == BadCredentials <==>
      && Truthy(usuario) && Truthy(password) && !faults.selectFails
      && (|| Matched(rows, usuario).None?
          || (&& rows[Matched(rows, usuario).value].activo == Some(true)
              && !verifies(password.value, StoredHash(rows[Matched(rows, usuario).value]))))
  {
  }

  /**
   * A fetched row whose `activo` is not exactly `true` gives 401 "Usuario inactivo" for
   * every password and every outcome of the hash check: the password is never looked at.
   */
  lemma {:induction false} InactiveBeforePassword(rows: seq<UserRow>, usuario: string, p1: string, p2: string,
                               v1: (string, string) -> bool, v2: (string, string) -> bool,
                               faults: StoreFaults)
    requires usuario != "" && p1 != "" && p2 != "" && !faults.selectFails
    requires FindFirst(rows, LookupKey(usuario)).Some?
    requires rows[FindFirst(rows, LookupKey(usuario)).value].activo != Some(true)
    ensures Decide(rows, Some(usuario), Some(p1), v1, faults) == Inactive
    ensures Decide(rows, Some(usuario), Some(p2), v2, faults) == Inactive
    ensures Status(Inactive) == 401 && Message(Inactive) == Some("Usuario inactivo")
  {
  }

  /** "Usuario inactivo" comes out exactly when the fetched row is not active. */
  lemma {:induction false} InactiveIff(rows: seq<UserRow>, usuario: Option<string>, password: Option<string>,
                    verifies: (string, string) -> bool, faults: StoreFaults)
    ensures Decide(rows, usuario, password, verifies, faults) == Inactive <==>
      && Truthy(usuario) && Truthy(password) && !faults.selectFails
      && Matched(rows, usuario).Some?
      && rows[Matched(rows, usuario).value].activo != Some(true)
  {
  }

  /** Two tables that differ only in whitespace around stored hashes. */
  predicate SameUpToHashPadding(rows: seq<UserRow>, others: seq<UserRow>) {
    && |rows| == |others|
    && forall j :: 0 <= j < |rows| ==>
         && others[j] == rows[j].(passwordHash := others[j].passwordHash)
         && StoredHash(others[j]) == StoredHash(rows[j])
  }

  /** Whitespace around a stored hash does not change any login. */
  lemma {:induction false} HashPaddingIrrelevant(rows: seq<UserRow>, others: seq<UserRow>, usuario: Option<string>,
                              password: Option<string>, verifies: (string, string) -> bool,
                              faults: StoreFaults)
    requires SameUpToHashPadding(rows, others)
    ensures Decide(rows, usuario, password, verifies, faults) == Decide(others, usuario, password, verifies, faults)
  {
    if Truthy(usuario) {
      FindFirstByUsernames(rows, others, LookupKey(usuario.value));
    }
  }

  /** Whitespace around a stored hash is not part of what the password is checked against. */
  lemma {:induction false} PaddedHashComparesTrimmed(user: UserRow, a: string, h: string, b: string)
    requires AllSpace(a) && AllSpace(b) && user.passwordHash == Some(a + h + b)
    ensures StoredHash(user) == StoredHash(user.(passwordHash := Some(h)))
  {
    TrimIgnoresPadding(a, h, b);
  }

  /** The table with every non-NULL stored hash wrapped in the whitespace `lead[j]` and `trail[j]`. */
  function PadHashes(rows: seq<UserRow>, lead: seq<string>, trail: seq<string>): (r: seq<UserRow>)
    requires |lead| == |rows| && |trail| == |rows|
    ensures |r| == |rows|
  {
    seq(|rows|, j requires 0 <= j < |rows| =>
      match rows[j].passwordHash
      case None => rows[j]
      case Some(h) => rows[j].(passwordHash := Some(lead[j] + h + trail[j])))
  }

  /** Padding any stored hashes with whitespace changes the answer to no request. */
  lemma {:induction false} PaddedHashesChangeNoLogin(rows: seq<UserRow>, lead: seq<string>, trail: seq<string>,
                                  usuario: Option<string>, password: Option<string>,
                                  verifies: (string, string) -> bool, faults: StoreFaults)
    requires |lead| == |rows| && |trail| == |rows|
    requires forall j :: 0 <= j < |rows| ==> AllSpace(lead[j]) && AllSpace(trail[j])
    ensures Decide(PadHashes(rows, lead, trail), usuario, password, verifies, faults)
         == Decide(rows, usuario, password, verifies, faults)
  {
    var padded := PadHashes(rows, lead, trail);
    forall j | 0 <= j < |rows|
      ensures padded[j] == rows[j].(passwordHash := padded[j].passwordHash)
      ensures StoredHash(padded[j]) == StoredHash(rows[j])
    {
      if rows[j].passwordHash.Some? {
        PaddedHashComparesTrimmed(padded[j], lead[j], rows[j].passwordHash.value, trail[j]);
      }
    }
    HashPaddingIrrelevant(rows, padded, usuario, password, verifies, faults);
  }

  // ---------------------------------------------------------------------
  // Step 5: the role allow-list
  // ---------------------------------------------------------------------

  /** An allowed role passes the gate with whitespace around it, and is returned without it. */
  lemma {:induction false} RolePaddingAccepted(user: UserRow, a: string, role: string, b: string)
    requires AllSpace(a) && AllSpace(b) && role in ValidRoles && user.rol == Some(a + role + b)
    ensures StoredRole(user) == role && StoredRole(user) in ValidRoles
  {
    assert role[0] != ' ' && Trimmed(role);
    TrimPadded(a, role, b);
  }

  /** The allow-list is compared with case, and a NULL or blank role is never allowed. */
  lemma {:induction false} RoleGateRejects(user: UserRow)
    requires user.rol == None || user.rol == Some("director") || (user.rol.Some? && AllSpace(user.rol.value))
    ensures StoredRole(user) !in ValidRoles
  {
    if user.rol == Some("director") {
      var d := "director";
      assert TrimStart(d) == d;
      assert TrimEnd(d) == d;
    } else if user.rol.Some? {
      var e: string := [];
      TrimStartOfSpaces(user.rol.value, e);
      assert user.rol.value + e == user.rol.value;
    }
  }

  /** 403 comes out exactly for a verified active user whose trimmed role is not allowed. */
  lemma {:induction false} RoleRejectedIff(rows: seq<UserRow>, usuario: Option<string>, password: Option<string>,
                        verifies: (string, string) -> bool, faults: StoreFaults)
    ensures Decide(rows, usuario, password, verifies, faults) == RoleRejected <==>
      && Truthy(usuario) && Truthy(password) && !faults.selectFails
      && Matched(rows, usuario).Some?
      && rows[Matched(rows, usuario).value].activo == Some(true)
      && verifies(password.value, StoredHash(rows[Matched(rows, usuario).value]))
      && StoredRole(rows[Matched(rows, usuario).value]) !in ValidRoles
    ensures Status(RoleRejected) == 403 && Message(RoleRejected) == Some("Rol no autorizado")
  {
  }

  // ---------------------------------------------------------------------
  // Step 6: success, the update, and store failures
  // ---------------------------------------------------------------------

  /**
   * Success comes out exactly when every gate passes and the update succeeds; it
   * carries the stored user name (which is the lookup key) and the trimmed role.
   */
  lemma {:induction false} SuccessIff(rows: seq<UserRow>, usuario: Option<string>, password: Option<string>,
                   verifies: (string, string) -> bool, faults: StoreFaults)
    ensures Decide(rows, usuario, password, verifies, faults).Ok? <==>
      && Truthy(usuario) && Truthy(password) && !faults.selectFails && !faults.updateFails
      && Matched(rows, usuario).Some?
      && rows[Matched(rows, usuario).value].activo == Some(true)
      && verifies(password.value, StoredHash(rows[Matched(rows, usuario).value]))
      && StoredRole(rows[Matched(rows, usuario).value]) in ValidRoles
    ensures Decide(rows, usuario, password, verifies, faults).Ok? ==>
      var user := rows[Matched(rows, usuario).value];
      && Decide(rows, usuario, password, verifies, faults) == Ok(user.usuario, StoredRole(user))
      && user.usuario == LookupKey(usuario.value)
      && StoredRole(user) in ValidRoles
      && Status(Decide(rows, usuario, password, verifies, faults)) == 200
  {
  }

  /**
   * A successful login changes one row, the fetched one, and in that row only
   * `ultimo_login`, which becomes `now`.
   */
  lemma {:induction false} SuccessTouchesOnlyMatchedRow(rows: seq<UserRow>, usuario: Option<string>, password: Option<string>,
                                     verifies: (string, string) -> bool, faults: StoreFaults, now: Timestamp)
    requires UniqueIds(rows)
    requires Decide(rows, usuario, password, verifies, faults).Ok?
    ensures var after := TableAfter(rows, usuario, password, verifies, faults, now);
      var i := Matched(rows, usuario).value;
      && |after| == |rows|
      && after[i] == rows[i].(ultimoLogin := Some(now))
      && forall j :: 0 <= j < |rows| && j != i ==> after[j] == rows[j]
  {
  }

  /** Every answer other than success leaves the table as it was. */
  lemma {:induction false} FailureLeavesTable(rows: seq<UserRow>, usuario: Option<string>, password: Option<string>,
                           verifies: (string, string) -> bool, faults: StoreFaults, now: Timestamp)
    requires !Decide(rows, usuario, password, verifies, faults).Ok?
    ensures TableAfter(rows, usuario, password, verifies, faults, now) == rows
  {
  }

  /**
   * 500 comes out exactly for present credentials when the query fails, or when every
   * gate passes and the update fails; so a failing lookup is never reported as 401.
   */
  lemma {:induction false} InternalIff(rows: seq<UserRow>, usuario: Option<string>, password: Option<string>,
                    verifies: (string, string) -> bool, faults: StoreFaults)
    ensures Decide(rows, usuario, password, verifies, faults) == Internal <==>
      && Truthy(usuario) && Truthy(password)
      && (|| faults.selectFails
          || (&& faults.updateFails
              && Decide(rows, usuario, password, verifies, faults.(updateFails := false)).Ok?))
    ensures Status(Internal) == 500 && Message(Internal) == Some("Error interno del servidor")
  {
  }

  /**
   * A login's own effect never changes the next answer to the same request: the update
   * touches only `ultimo_login`, which no check reads. In particular a failed request
   * repeated gives the same failure.
   */
  lemma {:induction false} RepeatSameOutcome(rows: seq<UserRow>, usuario: Option<string>, password: Option<string>,
                          verifies: (string, string) -> bool, faults: StoreFaults, now: Timestamp)
    ensures var after := TableAfter(rows, usuario, password, verifies, faults, now);
      Decide(after, usuario, password, verifies, faults) == Decide(rows, usuario, password, verifies, faults)
  {
    var after := TableAfter(rows, usuario, password, verifies, faults, now);
    if Decide(rows, usuario, password, verifies, faults).Ok? {
      var i := Matched(rows, usuario).value;
      var key := LookupKey(usuario.value);
      FindFirstByUsernames(rows, after, key);
      assert after[i] == rows[i].(ultimoLogin := Some(now));
    }
  }

  // ---------------------------------------------------------------------
  // The end-to-end scenario for account JUANP
  // ---------------------------------------------------------------------

  const Juan: UserRow := UserRow(1, "JUANP", Some("$2b$10$juanp"), Some("Director"), Some(true), None)

  lemma {:induction false} UpperJuanp()
    ensures Upper("juanp") == "JUANP"
  {
  }

  lemma {:induction false} UpperGhost()
    ensures Upper("ghost") == "GHOST"
  {
  }

  lemma {:induction false} JuanKeys()
    ensures LookupKey("juanp") == "JUANP" && LookupKey("ghost") == "GHOST"
  {
    UpperJuanp();
    UpperGhost();
    assert Trimmed("JUANP") && Trimmed("GHOST");
    assert AllSpace([]);
    assert [] + "JUANP" + [] == "JUANP" && [] + "GHOST" + [] == "GHOST";
    TrimPadded([], "JUANP", []);
    TrimPadded([], "GHOST", []);
  }

  lemma {:induction false} JuanStored()
    ensures StoredHash(Juan) == "$2b$10$juanp" && StoredRole(Juan) == "Director"
  {
    assert Trimmed("$2b$10$juanp") && Trimmed("Director");
    assert AllSpace([]);
    assert [] + "$2b$10$juanp" + [] == "$2b$10$juanp" && [] + "Director" + [] == "Director";
    TrimPadded([], "$2b$10$juanp", []);
    TrimPadded([], "Director", []);
  }

  lemma {:induction false} JuanLogsIn(verifies: (string, string) -> bool)
    requires verifies("secret123", "$2b$10$juanp")
    ensures Decide([Juan], Some("juanp"), Some("secret123"), verifies, NoFaults) == Ok("JUANP", "Director")
  {
    JuanKeys();
    JuanStored();
    assert FindFirst([Juan], "JUANP") == Some(0);
  }

  lemma {:induction false} JuanRefusals(verifies: (string, string) -> bool)
    requires !verifies("wrong", "$2b$10$juanp")
    ensures Decide([Juan], Some("juanp"), Some("wrong"), verifies, NoFaults) == BadCredentials
    ensures Decide([Juan], Some("ghost"), Some("x"), verifies, NoFaults) == BadCredentials
  {
    JuanKeys();
    JuanStored();
    assert FindFirst([Juan], "JUANP") == Some(0);
    assert FindFirst([Juan], "GHOST") == None;
  }

  /**
   * Account JUANP, role Director, active: `("juanp", "secret123")` logs in as JUANP,
   * while a wrong password and an unknown user get the same refusal.
   */
  lemma {:induction false} JuanScenario(verifies: (string, string) -> bool)
    requires verifies("secret123", "$2b$10$juanp") && !verifies("wrong", "$2b$10$juanp")
    ensures Decide([Juan], Some("juanp"), Some("secret123"), verifies, NoFaults) == Ok("JUANP", "Director")
    ensures Decide([Juan], Some("juanp"), Some("wrong"), verifies, NoFaults) == BadCredentials
    ensures Decide([Juan], Some("ghost"), Some("x"), verifies, NoFaults) == BadCredentials
  {
    JuanLogsIn(verifies);
    JuanRefusals(verifies);
  }
}
