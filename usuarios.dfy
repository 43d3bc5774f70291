/** The `usuarios` app: logging in against the `Usuarios` table and logging out.
    The password hasher is the opaque predicate `verify(plain, hash)`. */
module Usuarios {
  import opened Http

  /** A row of `dbo.[Usuarios]` in the order the lookup selects its columns:
      IdUsuario, Nombre, Rol and Contraseña (the stored hash). */
  datatype UserRow = UserRow(idUsuario: Value, nombre: string, rol: Value, contrasena: string)

  const LookupSql := "SELECT IdUsuario, Nombre, Rol, Contraseña FROM dbo.[Usuarios] WHERE Nombre = %s"
  const LoginTemplate := "login.html"
  const InvalidCredentials := "Usuario o contraseña inválidos."
  const LogoutNotice := "Has cerrado sesión exitosamente."

  function Welcome(nombre: string): string
  {
    "Bienvenido " + nombre + " 👋"
  }

  /** The lookup statement: the posted user name is its only bind parameter. */
  function LookupQuery(post: map<string, string>): Query
  {
    Query(LookupSql, [DictGet(post, "username")])
  }

  /** `fetchone()` after the lookup: the first row, in table order, whose Nombre equals
      the bound parameter. A NULL parameter equals no row. */
  function FetchOne(users: seq<UserRow>, name: Param): (r: Option<UserRow>)
    ensures r.None? <==> forall i :: 0 <= i < |users| ==> name != Some(users[i].nombre)
    ensures r.Some? ==> name == Some(r.value.nombre)
    ensures r.Some? ==> exists i :: 0 <= i < |users| && users[i] == r.value &&
                          forall j :: 0 <= j < i ==> name != Some(users[j].nombre)
  {
    if users == [] then None
    else if name == Some(users[0].nombre) then Some(users[0])
    else
      var r := FetchOne(users[1..], name);
      assert forall i :: 0 < i < |users| ==> users[i] == users[1..][i - 1];
      r
  }

  /** The failure path of a POST: one error message, the login page again. */
  function Rejected(st: State, q: Query): Reply
  {
    Reply(State(st.session, st.messages + [Message(Error, InvalidCredentials)]), [q],
          Render(LoginTemplate, NoContext))
  }

  /** What `login_sql_view` does: the specification `LoginSqlView` is proved against. */
  function LoginStep(st: State, verb: Method, post: map<string, string>,
                     users: seq<UserRow>, verify: (Param, string) -> bool): Reply
  {
    if verb != Post then Reply(st, [], Render(LoginTemplate, NoContext))
    else
      var q := LookupQuery(post);
      match FetchOne(users, DictGet(post, "username"))
      case None => Rejected(st, q)
      case Some(u) =>
        if verify(DictGet(post, "password"), u.contrasena) then
          Reply(State(st.session[UserIdKey := u.idUsuario][UserNombreKey := Text(u.nombre)][UserRolKey := u.rol],
                      st.messages + [Message(Success, Welcome(u.nombre))]),
                [q], Redirect(Dashboard))
        else Rejected(st, q)
  }

  /** `login_sql_view`: on a POST, looks the user up by name only, checks the password
      with `verify`, and on success stores the row's id, name and role in the session. */
  method LoginSqlView(req: Request, users: seq<UserRow>, verify: (Param, string) -> bool)
    returns (resp: Response, issued: seq<Query>)
    modifies req
    ensures Reply(req.Snapshot(), issued, resp) ==
            LoginStep(old(req.Snapshot()), req.verb, req.post, users, verify)
  {
    issued := [];
    if req.verb == Post {
      var nombre := DictGet(req.post, "username");
      var password := DictGet(req.post, "password");
      issued := [Query(LookupSql, [nombre])];
      var user := FetchOne(users, nombre);
      if user.Some? {
        var u := user.value;
        if verify(password, u.contrasena) {
          req.session := req.session[UserIdKey := u.idUsuario];
          req.session := req.session[UserNombreKey := Text(u.nombre)];
          req.session := req.session[UserRolKey := u.rol];
          req.AddMessage(Success, Welcome(u.nombre));
          return Redirect(Dashboard), issued;
        } else {
          req.AddMessage(Error, InvalidCredentials);
        }
      } else {
        req.AddMessage(Error, InvalidCredentials);
      }
    }
    resp := Render(LoginTemplate, NoContext);
  }

  /** Only a POST touches the session, the messages or the database. */
  lemma LoginGetIsInert(st: State, verb: Method, post: map<string, string>,
                        users: seq<UserRow>, verify: (Param, string) -> bool)
    requires verb != Post
    ensures LoginStep(st, verb, post, users, verify) == Reply(st, [], Render(LoginTemplate, NoContext))
  {
  }

  /** Login succeeds exactly when the lookup finds a row and `verify` accepts the
      posted password against that row's hash. */
  lemma LoginSucceedsIff(st: State, post: map<string, string>,
                         users: seq<UserRow>, verify: (Param, string) -> bool)
    ensures var found := FetchOne(users, DictGet(post, "username"));
      LoginStep(st, Post, post, users, verify).response == Redirect(Dashboard) <==>
        found.Some? && verify(DictGet(post, "password"), found.value.contrasena)
  {
  }

  /** On success the session holds the row's columns 0, 1 and 2 under `user_id`,
      `user_nombre` and `user_rol`, every other key is as it was, and one welcome
      message is added. */
  lemma LoginSuccessState(st: State, post: map<string, string>, u: UserRow,
                          users: seq<UserRow>, verify: (Param, string) -> bool)
    requires FetchOne(users, DictGet(post, "username")) == Some(u)
    requires verify(DictGet(post, "password"), u.contrasena)
    ensures var s := LoginStep(st, Post, post, users, verify).state.session;
      && s.Keys == st.session.Keys + {UserIdKey, UserNombreKey, UserRolKey}
      && s[UserIdKey] == u.idUsuario
      && s[UserNombreKey] == Text(u.nombre)
      && s[UserRolKey] == u.rol
      && (forall k :: k in st.session && k != UserIdKey && k != UserNombreKey && k != UserRolKey ==>
            k in s && s[k] == st.session[k])
    ensures LoginStep(st, Post, post, users, verify).state.messages ==
            st.messages + [Message(Success, Welcome(u.nombre))]
  {
  }

  /** An unknown user and a wrong password are indistinguishable: same message, same
      page, same session, same statement sent. */
  lemma LoginFailuresAlike(st: State, post: map<string, string>,
                           unknown: seq<UserRow>, known: seq<UserRow>, u: UserRow,
                           verify: (Param, string) -> bool)
    requires FetchOne(unknown, DictGet(post, "username")).None?
    requires FetchOne(known, DictGet(post, "username")) == Some(u)
    requires !verify(DictGet(post, "password"), u.contrasena)
    ensures LoginStep(st, Post, post, unknown, verify) == LoginStep(st, Post, post, known, verify)
    ensures LoginStep(st, Post, post, known, verify) ==
            Reply(State(st.session, st.messages + [Message(Error, InvalidCredentials)]),
                  [LookupQuery(post)], Render(LoginTemplate, NoContext))
  {
  }

  /** The password never reaches the database: the lookup binds the user name alone,
      and changing the posted password changes nothing that is sent. */
  lemma LookupIgnoresPassword(st: State, verb: Method, post: map<string, string>, password: string,
                              users: seq<UserRow>, verify: (Param, string) -> bool)
    ensures LoginStep(st, verb, post, users, verify).issued ==
            LoginStep(st, verb, post["password" := password], users, verify).issued
    ensures verb == Post ==>
            LoginStep(st, verb, post, users, verify).issued == [Query(LookupSql, [DictGet(post, "username")])]
  {
    assert DictGet(post["password" := password], "username") == DictGet(post, "username");
  }

  // ---------------------------------------------------------------------------
  // Logout

  /** The keys `logout_view` deletes, in the order it deletes them. */
  const LogoutKeys := [UserIdKey, UserNombreKey, UserRolKey]

  /** A run of `del session[k]` statements inside one `try ... except KeyError`:
      keys are deleted in order, and the first missing key ends the run. */
  function DeleteInOrder(s: Session, keys: seq<string>): (d: Session)
    ensures d.Keys <= s.Keys
    ensures forall k :: k in d ==> d[k] == s[k]
    ensures forall k :: k in s && k !in keys ==> k in d
    decreases |keys|
  {
    if keys == [] || keys[0] !in s then s else DeleteInOrder(s - {keys[0]}, keys[1..])
  }

  /** The number of leading keys that are present in `s`. */
  function PresentPrefix(s: Session, keys: seq<string>): (n: nat)
    ensures n <= |keys|
    ensures forall i :: 0 <= i < n ==> keys[i] in s
    ensures n < |keys| ==> keys[n] !in s
  {
    if keys == [] || keys[0] !in s then 0 else 1 + PresentPrefix(s, keys[1..])
  }

  function LogoutSession(s: Session): Session
  {
    DeleteInOrder(s, LogoutKeys)
  }

  /** `logout_view`: deletes the login keys in order, swallowing the `KeyError` of the
      first missing one, then always adds the notice and redirects to the login page. */
  method LogoutView(req: Request) returns (resp: Response)
    modifies req
    ensures req.session == LogoutSession(old(req.session))
    ensures req.messages == old(req.messages) + [Message(Info, LogoutNotice)]
    ensures resp == Redirect(Login)
  {
    var found := req.DeleteSessionKey(UserIdKey);
    if found {
      found := req.DeleteSessionKey(UserNombreKey);
      if found {
        found := req.DeleteSessionKey(UserRolKey);
      }
    }
    LogoutCases(old(req.session));
    req.AddMessage(Info, LogoutNotice);
    resp := Redirect(Login);
  }

  ghost predicate Distinct(keys: seq<string>)
  {
    forall i, j :: 0 <= i < j < |keys| ==> keys[i] != keys[j]
  }

  lemma {:induction false} PresentPrefixWithout(s: Session, k: string, keys: seq<string>)
    requires k !in keys
    ensures PresentPrefix(s - {k}, keys) == PresentPrefix(s, keys)
    decreases |keys|
  {
    if keys != [] && keys[0] in s {
      PresentPrefixWithout(s, k, keys[1..]);
    }
  }

  /** Deleting distinct keys in order removes exactly the leading run of present keys
      and leaves every other entry as it was. */
  lemma {:induction false} DeleteInOrderRemovesPrefix(s: Session, keys: seq<string>)
    requires Distinct(keys)
    ensures DeleteInOrder(s, keys) == s - Elems(keys[..PresentPrefix(s, keys)])
    decreases |keys|
  {
    var n := PresentPrefix(s, keys);
    if keys == [] || keys[0] !in s {
      assert Elems(keys[..n]) == {};
    } else {
      var rest := keys[1..];
      assert Distinct(rest);
      assert keys[0] !in rest;
      PresentPrefixWithout(s, keys[0], rest);
      DeleteInOrderRemovesPrefix(s - {keys[0]}, rest);
      ElemsOfPrefix(keys, n);
      assert (s - {keys[0]}) - Elems(rest[..n - 1]) == s - Elems(keys[..n]);
    }
  }

  lemma ElemsOfPrefix(keys: seq<string>, n: nat)
    requires 0 < n <= |keys|
    ensures Elems(keys[..n]) == {keys[0]} + Elems(keys[1..][..n - 1])
  {
    assert keys[..n] == [keys[0]] + keys[1..][..n - 1];
  }

  /** Logout case by case: it stops at the first of `user_id`, `user_nombre`, `user_rol`
      that is missing, having deleted the ones before it. */
  lemma LogoutCases(s: Session)
    ensures UserIdKey !in s ==> LogoutSession(s) == s
    ensures UserIdKey in s && UserNombreKey !in s ==> LogoutSession(s) == s - {UserIdKey}
    ensures UserIdKey in s && UserNombreKey in s && UserRolKey !in s ==>
              LogoutSession(s) == s - {UserIdKey, UserNombreKey}
    ensures UserIdKey in s && UserNombreKey in s && UserRolKey in s ==>
              LogoutSession(s) == s - {UserIdKey, UserNombreKey, UserRolKey}
  {
    assert Distinct(LogoutKeys);
    DeleteInOrderRemovesPrefix(s, LogoutKeys);
    var n := PresentPrefix(s, LogoutKeys);
    assert n == 0 ==> Elems(LogoutKeys[..n]) == {};
    assert n == 1 ==> Elems(LogoutKeys[..n]) == {UserIdKey};
    assert n == 2 ==> Elems(LogoutKeys[..n]) == {UserIdKey, UserNombreKey};
    if n == 3 {
      assert LogoutKeys[..n] == LogoutKeys;
      assert Elems(LogoutKeys) == {LogoutKeys[0], LogoutKeys[1], LogoutKeys[2]};
    }
  }

  /** With all three keys present, logout removes exactly those three. */
  lemma LogoutRemovesAllThree(s: Session)
    requires UserIdKey in s && UserNombreKey in s && UserRolKey in s
    ensures LogoutSession(s) == s - {UserIdKey, UserNombreKey, UserRolKey}
  {
    LogoutCases(s);
  }

  /** A missing `user_nombre` ends the deletions early: `user_id` goes, and `user_rol`
      (like every other key) stays. */
  lemma LogoutStopsAtMissingName(s: Session)
    requires UserIdKey in s && UserNombreKey !in s
    ensures LogoutSession(s) == s - {UserIdKey}
  {
    LogoutCases(s);
  }

  /** Logout on a session without `user_id` changes nothing. */
  lemma LogoutWithoutUserId(s: Session)
    requires UserIdKey !in s
    ensures LogoutSession(s) == s
  {
    LogoutCases(s);
  }

  /** Whatever the session held, `user_id` is gone after logout. */
  lemma LogoutClearsUserId(s: Session)
    ensures UserIdKey !in LogoutSession(s)
  {
    LogoutCases(s);
  }

  /** A second logout leaves the session as the first one left it. */
  lemma LogoutIdempotent(s: Session)
    ensures LogoutSession(LogoutSession(s)) == LogoutSession(s)
  {
    LogoutClearsUserId(s);
    LogoutCases(LogoutSession(s));
  }

  /** Logout does not always clear the login keys: a session holding `user_id` and
      `user_rol` but not `user_nombre` keeps its role. */
  lemma LogoutCanLeaveRole()
    ensures var s := map[UserIdKey := Int(1), UserRolKey := Text("admin")];
      UserRolKey in LogoutSession(s) && LogoutSession(s) == map[UserRolKey := Text("admin")]
  {
    var s := map[UserIdKey := Int(1), UserRolKey := Text("admin")];
    LogoutStopsAtMissingName(s);
    assert s - {UserIdKey} == map[UserRolKey := Text("admin")];
  }

  /** The login keys are all present or all absent. */
  ghost predicate Coherent(s: Session)
  {
    (UserIdKey in s <==> UserNombreKey in s) && (UserNombreKey in s <==> UserRolKey in s)
  }

  /** Login keeps a coherent session coherent: it sets all three keys or none. */
  lemma LoginKeepsCoherent(st: State, verb: Method, post: map<string, string>,
                           users: seq<UserRow>, verify: (Param, string) -> bool)
    requires Coherent(st.session)
    ensures Coherent(LoginStep(st, verb, post, users, verify).state.session)
  {
  }

  /** On a coherent session logout removes all three keys (removing what is absent
      changes nothing), so the result is coherent again and no key is left behind. */
  lemma LogoutOnCoherent(s: Session)
    requires Coherent(s)
    ensures LogoutSession(s) == s - {UserIdKey, UserNombreKey, UserRolKey}
    ensures Coherent(LogoutSession(s))
  {
    if UserIdKey in s {
      LogoutRemovesAllThree(s);
    } else {
      assert s - {UserIdKey, UserNombreKey, UserRolKey} == s;
    }
  }
}
