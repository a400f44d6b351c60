# fnc-auth-api: the login decision and the CORS origin policy

This project models in Dafny the two pieces of logic in the `fnc-auth-api` service. It proves properties of both.

- **`POST /login`** authenticates a user against the `public.usuarios` table. It checks four things in a fixed order: both credentials are present, a row exists for the upper-cased and trimmed user name, the row is active, and the password verifies against the trimmed stored hash. Then it checks the trimmed role against an allow-list `ROLES_VALIDOS` of `Director`, `CoordProyectos` and `Financiera`. Only on success does it write `ultimo_login` for that row's `id`. Each failure ends the request with its own status and message.
- **The CORS origin callback** lets through a request that has no `Origin`. Otherwise it normalises the origin: it trims it and removes one trailing `/`. It then looks the result up in a fixed set: four development origins plus the configured front-end origin.

Files:

- `wrappers.dfy` (`Wrappers`): `Option`. It stands for JavaScript `undefined`/`null` and SQL NULL.
- `text.dfy` (`Text`): `toUpperCase` on ASCII letters and `trim` over the ECMAScript whitespace set, with their laws.
- `cors.dfy` (`Cors`): `normalizeOrigin`, `allowedOrigins` and the `origin` callback.
- `login.dfy` (`Login`): the row and outcome datatypes, plus `Decide` and `TableAfter`. `Decide` is the outcome of one request as a function of the table and the inputs. `TableAfter` is the table after that request. The class `UserTable` holds the rows. Its `Authenticate` method runs the handler's steps one after another. It is proved to agree with `Decide` and `TableAfter`.
- `login_properties.dfy` (`LoginProperties`): the lemmas about `Decide` and `TableAfter`.

Modelling choices:

- `bcrypt.compare` is a parameter `verifies: (string, string) -> bool`, applied to the plain password and the trimmed hash. Nothing is assumed about it.
- Store failures are the two flags of `StoreFaults`. `selectFails` makes the query throw. `updateFails` makes the `UPDATE` throw, and a failed statement changes nothing.
- `NOW()` is the parameter `now`.
- `usuario` and `password` are `Option<string>`. JavaScript truthiness of such a value means present and non-empty (`Text.Truthy`).
- `activo`, `password_hash` and `rol` may be NULL. `activo` must be exactly `Some(true)`. The other two are read through `GetOr("")`: the handler falls back to the empty string for a NULL value.
- The query has `LIMIT 1` and no `ORDER BY`. The model fetches the first matching row in table order.
- The `UPDATE` matches on `id`, so it stamps every row with that id. With unique ids (`Login.UniqueIds`) that is exactly the fetched row.

The `ultimo_login` write is not best-effort. One could argue that an audit write's failure should not turn a valid login into an error. But the code awaits the `UPDATE` inside the same `try` as the checks, so a failure there answers 500. The model follows the code: `Decide` gives `Internal`, and `LoginProperties.InternalIff` states it.

## Model

| member | source | states |
|---|---|---|
| `Text.Truthy` | index.js:80 | JavaScript truthiness of a string-or-absent value: present and non-empty. No contract of its own; it is the condition in the contracts of `Cors.NormalizeOrigin`, `Cors.Check` and `LoginProperties.MissingCredentials` (also index.js:13, 22, 27) |
| `Text.IsSpace` | index.js:84 | The whitespace `trim` removes: the ECMAScript WhiteSpace and LineTerminator code points. No contract; `Text.UpperCharKeepsSpace` and the trim lemmas state how it is used |
| `Text.UpperChar` | index.js:84 | Upper-casing of one character. No contract; its law is `Text.UpperCharSpec` |
| `Text.Upper` | index.js:84 | Character-wise upper-casing of a string. No contract; its laws are `Text.UpperAt` (length and characters), `Text.UpperConcat` and `Text.UpperIdempotent` |
| `Text.TrimStart` | index.js:84 | Removal of leading whitespace. No contract; its law is `Text.TrimStartShape` |
| `Text.TrimEnd` | index.js:84 | Removal of trailing whitespace. No contract; its law is `Text.TrimEndShape` |
| `Text.Trim` | index.js:105 | `trim`, as used at index.js:13, 84, 105 and 112. No contract; its laws are `Text.TrimSplit`, `Text.TrimShape`, `Text.TrimPadded`, `Text.TrimIgnoresPadding` and `Text.TrimIdempotent` |
| `Text.UpperCharSpec` | index.js:84 | Upper-casing maps exactly `a`-`z` to `A`-`Z` (code point minus 32), leaves every other character alone, and is idempotent per character |
| `Text.UpperCharKeepsSpace` | index.js:84 | Upper-casing maps whitespace to whitespace and non-whitespace to non-whitespace |
| `Text.UpperIdempotent` | index.js:84 | Upper-casing an upper-cased string changes nothing |
| `Text.TrimStartShape` | index.js:84 | Leading-trim returns a suffix of its input, removes only whitespace, and leaves a string that does not start with whitespace |
| `Text.TrimEndShape` | index.js:84 | Trailing-trim returns a prefix of its input, removes only whitespace, and leaves a string that does not end with whitespace |
| `Text.TrimSplit` | index.js:105 | Every string is its trimmed form with all-whitespace padding on both sides, and the trimmed form has no whitespace at either end |
| `Text.TrimShape` | index.js:13 | `trim` never lengthens a string and its result has no whitespace at either end |
| `Text.TrimPadded` | index.js:105 | Trimming whitespace-padded text whose ends are not whitespace gives back exactly that text |
| `Text.TrimIgnoresPadding` | index.js:84 | Adding whitespace around any string does not change its trimmed form |
| `Text.TrimIdempotent` | index.js:84 | Trimming twice is trimming once |
| `Text.UpperTrimCommute` | index.js:84 | Under the ASCII case mapping, upper-casing then trimming equals trimming then upper-casing |
| `Cors.StripTrailingSlash` | index.js:13 | The end-anchored slash removal drops one final `/` if there is one and otherwise returns its input |
| `Cors.NormalizeOrigin` | index.js:13 | A falsy origin normalises to null. Any other origin normalises to its trimmed form, minus one `/` exactly when the trimmed form ends in `/` |
| `Cors.AllowedOrigins` | index.js:15-23 | The set always holds the four development origins and never holds `""`. The only other member it can have is the normalised front-end origin, which it holds whenever that is non-empty |
| `Cors.Check` | index.js:26-31 | The callback only blocks a request that has an origin, and its error message is `CORS bloqueado para: ` followed by the raw origin |
| `Cors.PolicyAllowsIff` | index.js:15-31 | A request is allowed iff it has no origin, or its normalised origin is a development origin, or equals the non-empty normalised front-end origin |
| `Cors.PaddedOriginAllowed` | index.js:13-29 | An allowed origin that is trimmed and does not end in `/` still passes with whitespace around it and with or without one trailing `/` |
| `Cors.DevelopmentOriginsAllowed` | index.js:18-21 | Each of the four development origins passes under every front-end configuration, padded with whitespace and with or without one trailing `/` |
| `Cors.OtherPortBlocked` | index.js:18-29 | The development set is exact: `http://localhost:5174` is blocked when no front-end origin is configured |
| `Cors.DoubleSlashBlocked` | index.js:13-29 | Only one slash is removed: `http://localhost:5173//` is blocked |
| `Cors.FrontendOriginAllowed` | index.js:13-29 | The configured front-end origin is allowed, whether it is configured or sent with a trailing `/` |
| `Login.Status` | index.js:81-124 | The status of each answer: 200 exactly for success, 401 exactly for the two 401 answers (wrong credentials and inactive user), and a 4xx or 5xx status for every failure. The status of each outcome is also stated in the `LoginProperties` lemmas |
| `Login.Message` | index.js:81-124 | Every failure carries a message and success carries none. The message of each outcome is stated in the `LoginProperties` lemmas |
| `Login.LookupKey` | index.js:84 | The key the table is searched with. No contract; its laws are `LoginProperties.LookupKeyInsensitive`, `LoginProperties.LookupKeyIdempotent`, `LoginProperties.CanonicalKey` and `LoginProperties.LookupKeyExamples` |
| `Login.StoredHash` | index.js:105 | The hash the password is verified against. No contract; its laws are `LoginProperties.PaddedHashComparesTrimmed`, `LoginProperties.HashPaddingIrrelevant` and `LoginProperties.PaddedHashesChangeNoLogin` |
| `Login.StoredRole` | index.js:112 | The role the allow-list is consulted with. No contract; its laws are `LoginProperties.RolePaddingAccepted` and `LoginProperties.RoleGateRejects` |
| `Login.FindFirst` | index.js:86-92 | The lookup returns a row whose `usuario` equals the key exactly, with no earlier such row. It returns none only when no row has that `usuario` |
| `Login.Matched` | index.js:84-92 | The row fetched for a request is a row of the table |
| `Login.Decide` | index.js:75-126 | The outcome of one request. Its own contract says only that a success has a fetched row; the outcome of each path is stated by the `LoginProperties` lemmas |
| `Login.Stamp` | index.js:117-119 | The `UPDATE` sets `ultimo_login` to `now` in every row with the given id and leaves every other row as it was |
| `Login.TableAfter` | index.js:117-121 | A request never adds or removes rows, and changes nothing in any row except `ultimo_login` |
| `Login.UserTable.constructor` | index.js:48-51 | The table the handler reaches through the pool starts as the given rows, which carry unique ids as the primary key requires, and so satisfies the class invariant `Valid()` |
| `Login.UserTable.SelectByUsuario` | index.js:86-96 | The query fails exactly when the store fails. It finds no row exactly when no `usuario` equals the key. The row it returns is the first one whose `usuario` is the key |
| `Login.UserTable.TouchLastLogin` | index.js:117-119 | The update reports success exactly when the store does not fail, and then the table is `Stamp` of the old table; otherwise the table is unchanged |
| `Login.UserTable.Authenticate` | index.js:75-126 | The handler's outcome is `Decide` of the old table, and the new table is `TableAfter` of the old table. Unique ids stay unique. A failure leaves the table unchanged. On success, only the fetched row changes, and in it only `ultimo_login`, which becomes `now` |
| `LoginProperties.MissingCredentials` | index.js:80-82 | 400 `Faltan credenciales` comes out exactly when either credential is absent or empty. The outcome is then the same for every table, and the table is unchanged |
| `LoginProperties.LookupKeyInsensitive` | index.js:84 | The lookup key ignores the case of ASCII letters and any whitespace around the input |
| `LoginProperties.LookupKeyIdempotent` | index.js:84 | Normalising an already-normalised key gives the same key |
| `LoginProperties.CanonicalKey` | index.js:84 | A trimmed name with no ASCII lower-case letters is its own lookup key |
| `LoginProperties.LookupKeyExamples` | index.js:84 | `director1`, `DIRECTOR1` and ` director1 ` all have the key `DIRECTOR1` |
| `LoginProperties.SameKeySameLogin` | index.js:84-92 | Two user names with the same key give the same outcome and the same table afterwards |
| `LoginProperties.FindFirstUnique` | index.js:86-92 | When user names are distinct, the fetched row is the one row carrying the key |
| `LoginProperties.FindFirstByUsernames` | index.js:86-92 | The lookup depends on the `usuario` column only |
| `LoginProperties.UnknownUserLooksLikeWrongPassword` | index.js:94-110 | An unknown user and a wrong password for an active user both give 401 `Usuario o contraseña incorrectos`, and neither changes the table |
| `LoginProperties.BadCredentialsIff` | index.js:94-110 | That 401 comes out exactly when the lookup succeeds but finds no row, or finds an active row whose hash does not verify the password |
| `LoginProperties.InactiveBeforePassword` | index.js:101-106 | A fetched row whose `activo` is not exactly true gives 401 `Usuario inactivo` for every password and every verifier |
| `LoginProperties.InactiveIff` | index.js:101-103 | `Usuario inactivo` comes out exactly when the fetched row is not active |
| `LoginProperties.HashPaddingIrrelevant` | index.js:105-106 | Tables that differ only by whitespace around stored hashes give the same outcome for every request |
| `LoginProperties.PaddedHashComparesTrimmed` | index.js:105 | A hash stored with any whitespace before and after it is compared exactly as the unpadded hash would be |
| `LoginProperties.PaddedHashesChangeNoLogin` | index.js:105-106 | Padding any of the table's stored hashes with whitespace changes the outcome of no request |
| `LoginProperties.RolePaddingAccepted` | index.js:112-113 | A role of `ROLES_VALIDOS` stored with whitespace around it passes the gate and is returned without the whitespace |
| `LoginProperties.RoleGateRejects` | index.js:56 | The allow-list is case-sensitive (`director` is refused), and a NULL or blank role is never allowed |
| `LoginProperties.RoleRejectedIff` | index.js:112-115 | 403 `Rol no autorizado` comes out exactly for an active row whose hash verifies and whose trimmed role is not an allowed role |
| `LoginProperties.SuccessIff` | index.js:112-121 | Success comes out exactly when every gate passes and neither store call fails. The response carries the stored user name, which equals the lookup key, and the trimmed role, which is allowed. The status is 200 |
| `LoginProperties.SuccessTouchesOnlyMatchedRow` | index.js:117-121 | With unique ids, success changes only the fetched row, and in it only `ultimo_login`, which becomes `now` |
| `LoginProperties.FailureLeavesTable` | index.js:80-115 | Every outcome other than success leaves the table unchanged |
| `LoginProperties.InternalIff` | index.js:117-125 | 500 comes out exactly for present credentials when the query fails, or when the login would succeed but the update fails |
| `LoginProperties.RepeatSameOutcome` | index.js:84-121 | Repeating a request against the table it left behind gives the same outcome, so failures are repeatable |
| `LoginProperties.JuanScenario` | index.js:75-121 | For the JUANP account: `("juanp", "secret123")` logs in as `JUANP`/`Director`, and both `("juanp", "wrong")` and `("ghost", "x")` give the wrong-credentials 401 |

## Left out

- Express setup, middleware registration, `app.options`, `app.listen` and the `PORT` parsing (index.js:1-8, 37-38, 131-135) are HTTP plumbing.
- The `cors` package options `methods`, `allowedHeaders` and `optionsSuccessStatus` (index.js:32-34) are configuration of a library that is not part of this model.
- `dotenv`, `process.env` and the `pg` pool with its SSL settings (index.js:5, 43-51) are environment and network I/O. `FRONTEND_ORIGIN` is the parameter of `Cors.AllowedOrigins`.
- The `/health` endpoint (index.js:61-69) is a database ping.
- The `bcrypt.compare` internals are a foreign cryptographic call. The model takes the verifier as a parameter and assumes nothing about it.
- The SQL text and `NOW()` are not modelled. The table is an in-memory sequence and the timestamp is an input.
- The store's failure modes are reduced to one flag per round trip.
- `console.log`/`console.error` and async/await scheduling are left out. So are concurrent requests: each request runs alone against the table.
- Request bodies that are not strings are left out. `req.body || {}` and `String(...)` on numbers, booleans or objects are not modelled, because credentials are `Option<string>`.
- Text.UpperChar: only ASCII `a`-`z` is mapped. Full Unicode `toUpperCase` is left out; it can change length, as with `ß` to `SS`.
- Text.IsSpace: the whitespace set is the fixed ECMAScript WhiteSpace and LineTerminator list written out in the predicate. It does not follow later Unicode versions.
- Login.FindFirst: `LIMIT 1` without `ORDER BY` may return any matching row. The model fixes that choice to the first matching row in table order.
- Login.UserRow: `usuario` is a non-null string. A NULL `usuario` never equals `$1`, so such a row behaves like a row whose name matches no key. Text equality is taken to be exact, as under a deterministic collation.
