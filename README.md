# MiTiendita: session gate and request handlers, modelled in Dafny

MiTiendita is a small Django back office for a shop. Its staff log in against the
`Usuarios` table. A decorator, `login_requerido`, keeps every other page behind the
session. The gated pages show a dashboard of counts, list and search products, and add
a product with an optional photo. This project models the decision logic of those
handlers. The database, the password hasher, the filesystem and the template renderer
are abstract inputs and outputs:

- `http.dfy` (module `Http`) holds the shared vocabulary. A session is a
  `map<string, Value>`. A message is its level and text. A response is a redirect to a
  named route or the render of a template with its context. A statement sent to the
  database is its SQL text and its bind parameters. A column value is NULL, an
  integer, a DECIMAL (unscaled digits and scale) or text. `Request` is a class: its method
  (the verb string, compared with `"POST"` as the views do),
  form data and uploads are fixed, while its session and message store are fields that
  the views update in place.
- `usuarios.dfy` (module `Usuarios`) models `login_sql_view` and `logout_view`.
  - The user table is a sequence of rows, and `fetchone()` is the first row whose
    `Nombre` equals the bound name.
  - `check_password` is an opaque predicate `verify(plain, hash)` passed in by the caller.
  - `LoginStep` and `LogoutSession` are the specification functions. The imperative
    methods `LoginSqlView` and `LogoutView` are proved against them.
- `tienda.dfy` (module `Tienda`) models:
  - the gate, as a higher-order function over handlers (a handler maps the state it
    finds to what it leaves behind);
  - `dashboard_view`;
  - `dictfetchall`, including `dict(zip(...))` with truncation to the shorter sequence
    and "the last duplicate column wins";
  - the search branch of `productos_view`;
  - `productos_agregar_view` and its photo block.
  Each query outcome (rows, a count, success or an exception text) and the outcome of
  writing the photo are parameters.

Every view that reaches the database also returns `issued`, the statements it sent in
order. This is how the model states which SQL text was used and which values were bound.

Behaviour of the code worth knowing, which the model keeps as written:

- A failed product query adds no message. The code only prints the exception
  (`tienda/views.py:101-103`).
- Logout does not always clear all three keys. The first missing key ends the
  deletions, so a session holding `user_id` and `user_rol` but not `user_nombre` keeps
  its role (`Usuarios.LogoutCanLeaveRole`). Login always sets all three keys together,
  and logout on such a session removes all three (`Usuarios.LogoutOnCoherent`). The
  partial clear therefore cannot arise from these two views alone.
- The photo path is built from the client-supplied file name without any sanitising.
  The model keeps it verbatim: `StaticPrefix + name`.

## Model

| member | source | states |
|---|---|---|
| `Usuarios.FetchOne` | MiTiendita/usuarios/views.py:14-18 | The lookup finds nothing exactly when no row's `Nombre` equals the bound name. A missing (NULL) name matches no row. Otherwise it returns the first matching row in table order. |
| `Usuarios.LoginSqlView` | MiTiendita/usuarios/views.py:7-45 | The new session, the new message store, the statements sent and the response are exactly what `LoginStep` prescribes for the old state. The session keys are assigned in place, one at a time. |
| `Usuarios.LoginGetIsInert` | MiTiendita/usuarios/views.py:8-45 | A non-POST request renders `login.html`. It changes neither the session nor the messages and sends nothing to the database. |
| `Usuarios.LoginSucceedsIff` | MiTiendita/usuarios/views.py:20-39 | A POST redirects to `dashboard` if and only if the lookup found a row and `verify` accepts the posted password against that row's hash (column 3). |
| `Usuarios.LoginSuccessState` | MiTiendita/usuarios/views.py:31-36 | On success the session gains `user_id`, `user_nombre` and `user_rol` from row columns 0, 1 and 2. Every other key keeps its value. Exactly one welcome message is added. |
| `Usuarios.LoginFailuresAlike` | MiTiendita/usuarios/views.py:40-45 | An unknown user and a known user with a wrong password produce identical replies. The message is the same error "Usuario o contraseña inválidos.", the session is unchanged, the statement sent is the same and the response is the render of `login.html`. |
| `Usuarios.LookupIgnoresPassword` | MiTiendita/usuarios/views.py:12-18 | The only statement sent binds exactly one parameter, the posted user name. Changing the posted password changes nothing that reaches the database. |
| `Http.Request.AddMessage` | MiTiendita/usuarios/views.py:36 | `messages.success/error/info(request, text)` appends exactly one message with that level and text to the end of the store. The session is unchanged. |
| `Usuarios.DeleteInOrder` | MiTiendita/usuarios/views.py:51-58 | A run of `del` statements in one `try/except KeyError` only removes keys. Every surviving key keeps its value, and a key outside the run is never removed. |
| `Usuarios.LogoutView` | MiTiendita/usuarios/views.py:47-62 | Whatever the prior session, it never fails. It always adds the info message "Has cerrado sesión exitosamente." and redirects to `login`. The new session is the ordered deletion `LogoutSession` of the old one. |
| `Http.Request.DeleteSessionKey` | MiTiendita/usuarios/views.py:53-56 | `del session[key]` reports a missing key (the `KeyError`) and then leaves the session as it was. Otherwise it removes exactly that key. |
| `Usuarios.DeleteInOrderRemovesPrefix` | MiTiendita/usuarios/views.py:51-58 | Deleting distinct keys in order until the first missing one removes exactly the leading run of present keys. All other entries are kept. |
| `Usuarios.LogoutCases` | MiTiendita/usuarios/views.py:53-58 | Logout stops at the first missing key of `user_id`, `user_nombre`, `user_rol`, having deleted the keys before it. The lemma gives one case for each possible stopping point. |
| `Usuarios.LogoutRemovesAllThree` | MiTiendita/usuarios/views.py:53-55 | With all three keys present, logout removes exactly those three and leaves every other key unchanged. |
| `Usuarios.LogoutStopsAtMissingName` | MiTiendita/usuarios/views.py:53-58 | When `user_nombre` is absent, only `user_id` is removed. `user_rol` survives. |
| `Usuarios.LogoutWithoutUserId` | MiTiendita/usuarios/views.py:53-58 | When `user_id` is absent, logout leaves the session unchanged. |
| `Usuarios.LogoutClearsUserId` | MiTiendita/usuarios/views.py:53 | After logout, `user_id` is absent whatever the session held before. |
| `Usuarios.LogoutIdempotent` | MiTiendita/usuarios/views.py:51-58 | A second logout leaves the session exactly as the first one left it. |
| `Usuarios.LogoutCanLeaveRole` | MiTiendita/usuarios/views.py:53-58 | Concrete witness: the session `{user_id, user_rol}` becomes `{user_rol}` after logout, so a key can be left behind. |
| `Usuarios.LoginKeepsCoherent` | MiTiendita/usuarios/views.py:31-34 | Login sets all three session keys or none of them. A session where they are all present or all absent stays that way. |
| `Usuarios.LogoutOnCoherent` | MiTiendita/usuarios/views.py:53-58 | On a session whose three keys are all present or all absent, logout removes all three and leaves the session in that same all-or-none form. |
| `Tienda.LoginRequerido` | MiTiendita/tienda/views.py:11-19 | The wrapper answers a session without `user_id` with the unchanged state, no statement and a redirect to `login`. On a session with `user_id` it returns exactly what the wrapped view returns. |
| `Tienda.GateBlocks` | MiTiendita/tienda/views.py:14-15 | Without `user_id`, the wrapper redirects to `login` and the wrapped view never runs. The state is unchanged and no statement is sent. |
| `Tienda.GatePasses` | MiTiendita/tienda/views.py:18 | With `user_id` present, the wrapper returns exactly what the wrapped view returns. |
| `Tienda.GateBlocksAfterLogout` | MiTiendita/tienda/views.py:11-18 | After logout, whatever the session held, every gated view is blocked with a redirect to `login`. |
| `Tienda.GatePassesAfterLogin` | MiTiendita/tienda/views.py:11-18 | After a successful login, every gated view runs unchanged. |
| `Tienda.DashboardView` | MiTiendita/tienda/views.py:23-61 | The counts run in the order clientes, productos, proveedores, and the first failure stops the sequence. If all three succeed, the totals are the three counts in that order. If any fails, all three totals are 0, including counts already fetched. No message is added. The context carries the session's name and role. |
| `Tienda.DictOf` | MiTiendita/tienda/views.py:72 | The keys of the built dictionary are exactly the column names. |
| `Tienda.DictOfLastWins` | MiTiendita/tienda/views.py:72 | The value under a name is the one paired with that name's last occurrence. |
| `Tienda.ZipDict` | MiTiendita/tienda/views.py:72 | `dict(zip(columns, row))` pairs only up to the shorter of the two. Its keys are those column names, and each name maps to the value at its last occurrence. |
| `Tienda.Dictfetchall` | MiTiendita/tienda/views.py:68-74 | There is one dictionary per row, in row order. Row `i`'s dictionary maps column name `j` to `rows[i][j]` (the last occurrence wins for duplicate names). |
| `Tienda.DictfetchallByName` | MiTiendita/tienda/views.py:68-74 | With distinct column names and full-width rows, each dictionary has exactly the column names as keys and maps name `j` to value `j`. |
| `Tienda.ProductosView` | MiTiendita/tienda/views.py:77-113 | A missing `q` reads as `''`. An empty `q` sends the unfiltered query with no parameters. A non-empty `q` sends the filtered query with the single parameter `'%' + q + '%'`, so the SQL text is one of two constants. A failed query gives an empty list. The context always echoes `search_query`. |
| `Tienda.SavePhoto` | MiTiendita/tienda/views.py:127-151 | The path is non-empty if and only if a file was posted and written, and then it is `"/static/" + name`. Only a failed write of a posted file adds an error message. |
| `Tienda.ProductosAgregarView` | MiTiendita/tienda/views.py:115-176 | A POST sends one INSERT, even after a failed photo write. Its parameters are the five posted fields, unchanged and in order, followed by the photo path. A successful insert adds a success message and redirects to `productos_lista`. A failed insert adds an error message and re-renders the form, which is also the response to any non-POST request. The session is unchanged. |

## Left out

- `Usuarios.FetchOne`: the lookup compares names with exact, case-sensitive equality and returns the first match in the order of the row sequence. The source's database (SQL Server) ignores trailing blanks in `=`, and under a case-insensitive collation it also ignores case, so a login the program accepts with "admin " or "ADMIN" is rejected by the model. Without `ORDER BY` the row order is undefined there. Collation and padding rules belong to the database and are not modelled.
- The SQL engine: `LIKE` matching, `COUNT(*)`, uniqueness and foreign keys. Each query's outcome is a parameter. The only exception is the user lookup, which is modelled as an equality match over a sequence of rows.
- Database errors in `login_sql_view`. They are not caught there and propagate to Django, so the model assumes the user lookup always answers.
- `check_password` and password hashing. The caller supplies them as the opaque predicate `verify`.
- Writing the uploaded file: the chunk loop, `os.path.join` and `settings.BASE_DIR`. Only the write's success, or its exception text, is modelled.
- Templates, `render`, `redirect` and the messages framework. They are modelled only as the response and message datatypes.
- Whitespace in the SQL text. The multi-line SQL strings of `productos_view` and `productos_agregar_view` are written on one line, with their layout whitespace collapsed.
- Concurrent requests and last-write-wins on product rows, because the code does nothing about them.
- The `print` calls that log exceptions, because they are console output.
- `Tienda.LoginRequerido` is modelled on handlers as functions of the state, not as a wrapper around the imperative view methods, because a method cannot be passed as a value.
- Product edit and delete and the customer views. These handlers and routes are not part of this model: the routing table has only the dashboard, product list and product add routes.
