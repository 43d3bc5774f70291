/** The `tienda` app: the login gate and the dashboard, product list and product add
    views. Every query outcome and the outcome of writing the uploaded photo are
    parameters: the database engine and the filesystem are not modelled. */
module Tienda {
  import opened Http
  import Usuarios

  // ---------------------------------------------------------------------------
  // The login gate

  /** A view, with its request arguments already bound: from the state it finds to
      what it leaves behind. */
  type Handler = State -> Reply

  /** `login_requerido`: the wrapper redirects to the login page when the session has
      no `user_id`, and otherwise is the wrapped view. */
  function LoginRequerido(view: Handler): (wrapper: Handler)
    ensures forall st: State :: UserIdKey !in st.session ==> wrapper(st) == Reply(st, [], Redirect(Login))
    ensures forall st: State :: UserIdKey in st.session ==> wrapper(st) == view(st)
  {
    (st: State) => if UserIdKey !in st.session then Reply(st, [], Redirect(Login)) else view(st)
  }

  /** Without `user_id` the wrapped view never runs: nothing changes, nothing is sent
      to the database, and the answer is the redirect to the login page. */
  lemma GateBlocks(view: Handler, st: State)
    requires UserIdKey !in st.session
    ensures LoginRequerido(view)(st) == Reply(st, [], Redirect(Login))
  {
  }

  /** With `user_id` the wrapper answers exactly what the view answers. */
  lemma GatePasses(view: Handler, st: State)
    requires UserIdKey in st.session
    ensures LoginRequerido(view)(st) == view(st)
  {
  }

  /** After a logout, whatever the session held before, every gated view is blocked. */
  lemma GateBlocksAfterLogout(view: Handler, s: Session, messages: seq<Message>)
    ensures var st := State(Usuarios.LogoutSession(s), messages);
      LoginRequerido(view)(st) == Reply(st, [], Redirect(Login))
  {
    Usuarios.LogoutClearsUserId(s);
  }

  /** After a successful login every gated view runs. */
  lemma GatePassesAfterLogin(view: Handler, st: State, post: map<string, string>,
                             users: seq<Usuarios.UserRow>, verify: (Param, string) -> bool)
    requires Usuarios.LoginStep(st, Post, post, users, verify).response == Redirect(Dashboard)
    ensures var after := Usuarios.LoginStep(st, Post, post, users, verify).state;
      LoginRequerido(view)(after) == view(after)
  {
    Usuarios.LoginSucceedsIff(st, post, users, verify);
    var u := Usuarios.FetchOne(users, DictGet(post, "username")).value;
    Usuarios.LoginSuccessState(st, post, u, users, verify);
  }

  // ---------------------------------------------------------------------------
  // Dashboard

  /** The outcome of one `SELECT COUNT(*)` statement. */
  datatype Fetch = Fetched(n: int) | Failed(error: string)

  const DashboardTemplate := "tienda/dashboard.html"

  /** The three counting statements, in the order the dashboard sends them. */
  const CountQueries := [Query("SELECT COUNT(*) FROM Clientes", []),
                         Query("SELECT COUNT(*) FROM Productos", []),
                         Query("SELECT COUNT(*) FROM Proveedores", [])]

  /** `dashboard_view`: counts clients, products and suppliers in turn; the first
      failure ends the `try`, and the `except` sets all three totals to 0, counts
      already fetched included. No message is added. */
  method DashboardView(req: Request, clientes: Fetch, productos: Fetch, proveedores: Fetch)
    returns (resp: Response, issued: seq<Query>)
    ensures |issued| == (if clientes.Failed? then 1 else if productos.Failed? then 2 else 3)
    ensures issued == CountQueries[..|issued|]
    ensures resp.Render? && resp.template == DashboardTemplate && resp.context.DashboardContext?
    ensures resp.context.nombreUsuario == DictGet(req.session, UserNombreKey)
    ensures resp.context.rolUsuario == DictGet(req.session, UserRolKey)
    ensures clientes.Fetched? && productos.Fetched? && proveedores.Fetched? ==>
      && resp.context.totalClientes == clientes.n
      && resp.context.totalProductos == productos.n
      && resp.context.totalProveedores == proveedores.n
    ensures clientes.Failed? || productos.Failed? || proveedores.Failed? ==>
      resp.context.totalClientes == 0 && resp.context.totalProductos == 0 && resp.context.totalProveedores == 0
  {
    var numClientes, numProductos, numProveedores := 0, 0, 0;
    var failed := false;
    issued := [CountQueries[0]];
    if clientes.Fetched? {
      numClientes := clientes.n;
      issued := issued + [CountQueries[1]];
      if productos.Fetched? {
        numProductos := productos.n;
        issued := issued + [CountQueries[2]];
        if proveedores.Fetched? {
          numProveedores := proveedores.n;
        } else {
          failed := true;
        }
      } else {
        failed := true;
      }
    } else {
      failed := true;
    }
    if failed {
      numClientes := 0;
      numProductos := 0;
      numProveedores := 0;
    }
    resp := Render(DashboardTemplate,
                   DashboardContext(DictGet(req.session, UserNombreKey), DictGet(req.session, UserRolKey),
                                    numClientes, numProductos, numProveedores));
  }

  // ---------------------------------------------------------------------------
  // Result rows as dictionaries

  function Min(a: nat, b: nat): nat
  {
    if a < b then a else b
  }

  /** Column `j` is the last among the first `n` columns to carry its name. */
  ghost predicate LastWithName(columns: seq<string>, j: nat, n: nat)
    requires j < n <= |columns|
  {
    forall k :: j < k < n ==> columns[k] != columns[j]
  }

  lemma ElemsSnoc(names: seq<string>)
    requires names != []
    ensures Elems(names) == Elems(names[..|names| - 1]) + {names[|names| - 1]}
  {
    var n := |names| - 1;
    assert forall j :: 0 <= j < n ==> names[..n][j] == names[j];
  }

  /** The dictionary built by inserting the pairs `names[j] := vals[j]` in order. */
  function DictOf(names: seq<string>, vals: seq<Value>): (d: map<string, Value>)
    requires |names| == |vals|
    ensures d.Keys == Elems(names)
    decreases |names|
  {
    if names == [] then map[]
    else
      var n := |names| - 1;
      ElemsSnoc(names);
      DictOf(names[..n], vals[..n])[names[n] := vals[n]]
  }

  /** A later insertion overwrites an earlier one: the value under a name is the one
      paired with its last occurrence. */
  lemma {:induction false} DictOfLastWins(names: seq<string>, vals: seq<Value>, j: nat)
    requires |names| == |vals| && j < |names|
    requires LastWithName(names, j, |names|)
    ensures names[j] in DictOf(names, vals) && DictOf(names, vals)[names[j]] == vals[j]
    decreases |names|
  {
    var n := |names| - 1;
    if j < n {
      assert names[j] != names[n];
      assert names[..n][j] == names[j] && vals[..n][j] == vals[j];
      assert LastWithName(names[..n], j, n);
      DictOfLastWins(names[..n], vals[..n], j);
    }
  }

  /** `dict(zip(columns, row))`: the pairing stops at the shorter of the two, and a
      repeated column name keeps the value of its last occurrence. */
  function ZipDict(columns: seq<string>, row: seq<Value>): (d: map<string, Value>)
    ensures d.Keys == Elems(columns[..Min(|columns|, |row|)])
    ensures forall j :: 0 <= j < Min(|columns|, |row|) && LastWithName(columns, j, Min(|columns|, |row|)) ==>
              columns[j] in d && d[columns[j]] == row[j]
  {
    var n := Min(|columns|, |row|);
    var d := DictOf(columns[..n], row[..n]);
    assert forall j :: 0 <= j < n && LastWithName(columns, j, n) ==> columns[j] in d && d[columns[j]] == row[j] by {
      forall j | 0 <= j < n && LastWithName(columns, j, n)
        ensures columns[j] in d && d[columns[j]] == row[j]
      {
        assert columns[..n][j] == columns[j] && row[..n][j] == row[j];
        assert LastWithName(columns[..n], j, n);
        DictOfLastWins(columns[..n], row[..n], j);
      }
    }
    d
  }

  /** `dictfetchall`: one dictionary per result row, in row order, each built from the
      column names of the cursor's description. */
  function Dictfetchall(columns: seq<string>, rows: seq<seq<Value>>): (ds: seq<map<string, Value>>)
    ensures |ds| == |rows|
    ensures forall i :: 0 <= i < |rows| ==> ds[i].Keys == Elems(columns[..Min(|columns|, |rows[i]|)])
    ensures forall i, j :: 0 <= i < |rows| && 0 <= j < Min(|columns|, |rows[i]|) &&
                           LastWithName(columns, j, Min(|columns|, |rows[i]|)) ==>
              columns[j] in ds[i] && ds[i][columns[j]] == rows[i][j]
  {
    seq(|rows|, i requires 0 <= i < |rows| => ZipDict(columns, rows[i]))
  }

  /** When the column names are distinct and each row has one value per column, row
      `i` becomes the dictionary mapping column name `j` to value `j`, and nothing else. */
  lemma DictfetchallByName(columns: seq<string>, rows: seq<seq<Value>>, i: nat, j: nat)
    requires forall a, b :: 0 <= a < b < |columns| ==> columns[a] != columns[b]
    requires forall r :: 0 <= r < |rows| ==> |rows[r]| == |columns|
    requires i < |rows| && j < |columns|
    ensures Dictfetchall(columns, rows)[i].Keys == Elems(columns)
    ensures Dictfetchall(columns, rows)[i][columns[j]] == rows[i][j]
  {
    assert columns[..|columns|] == columns;
    assert LastWithName(columns, j, |columns|);
  }

  // ---------------------------------------------------------------------------
  // Product list and search

  /** What the product query came back with: the column names of the cursor's
      description and the fetched rows, or the text of the exception raised. */
  datatype QueryOutcome = Answered(columns: seq<string>, rows: seq<seq<Value>>) | QueryFailed(error: string)

  const ProductosTemplate := "tienda/productos.html"
  const AllProductosSql := "SELECT Id_Producto, Nombre, PrecioVenta, Cantidad, StockMinimo FROM Productos"
  const FilteredProductosSql := "SELECT Id_Producto, Nombre, PrecioVenta, Cantidad, StockMinimo FROM Productos WHERE Nombre LIKE %s"

  /** `productos_view`: a missing `q` reads as the empty string; an empty search sends
      the unfiltered query with no parameter, any other search sends the filtered
      query with the single parameter `%q%`, so the search text never becomes SQL.
      A failed query lists nothing and adds no message; the search text is echoed. */
  method ProductosView(req: Request, outcome: QueryOutcome) returns (resp: Response, issued: seq<Query>)
    ensures var q := GetOr(req.query, "q", "");
      && (q == "" ==> issued == [Query(AllProductosSql, [])])
      && (q != "" ==> issued == [Query(FilteredProductosSql, [Some("%" + q + "%")])])
    ensures resp.Render? && resp.template == ProductosTemplate && resp.context.ProductosContext?
    ensures resp.context.searchQuery == GetOr(req.query, "q", "")
    ensures resp.context.nombreUsuario == DictGet(req.session, UserNombreKey)
    ensures resp.context.rolUsuario == DictGet(req.session, UserRolKey)
    ensures outcome.QueryFailed? ==> resp.context.productos == []
    ensures outcome.Answered? ==> resp.context.productos == Dictfetchall(outcome.columns, outcome.rows)
  {
    var searchQuery := GetOr(req.query, "q", "");
    if searchQuery != "" {
      issued := [Query(FilteredProductosSql, [Some("%" + searchQuery + "%")])];
    } else {
      issued := [Query(AllProductosSql, [])];
    }
    var productos: seq<map<string, Value>>;
    match outcome {
      case Answered(columns, rows) =>
        productos := Dictfetchall(columns, rows);
      case QueryFailed(_) =>
        productos := [];
    }
    resp := Render(ProductosTemplate,
                   ProductosContext(DictGet(req.session, UserNombreKey), DictGet(req.session, UserRolKey),
                                    productos, searchQuery));
  }

  // ---------------------------------------------------------------------------
  // Adding a product

  /** The outcome of writing the uploaded photo to disk. */
  datatype WriteOutcome = Written | WriteFailed(error: string)

  /** The outcome of executing a statement that returns no rows. */
  datatype ExecOutcome = Executed | ExecFailed(error: string)

  const FotoField := "foto_del_producto"
  const StaticPrefix := "/static/"
  const AgregarTemplate := "tienda/productos_agregar.html"
  const InsertSql := "INSERT INTO Productos (Id_Producto, Nombre, PrecioVenta, Cantidad, StockMinimo, rutaFoto) VALUES (%s, %s, %s, %s, %s, %s)"

  /** The form fields bound, in this order, before the photo path. */
  const ProductoFields := ["Id_Producto", "Nombre", "PrecioVenta", "Cantidad", "StockMinimo"]

  /** The photo block of `productos_agregar_view`: the stored path is empty unless a
      file was posted and written, and then it is `/static/` followed by the file's
      own name; a failed write adds an error message and nothing else. */
  method SavePhoto(req: Request, write: WriteOutcome) returns (ruta: string)
    modifies req
    ensures ruta != "" <==> FotoField in req.files && write.Written?
    ensures FotoField in req.files && write.Written? ==> ruta == StaticPrefix + req.files[FotoField].name
    ensures req.session == old(req.session)
    ensures FotoField in req.files && write.WriteFailed? ==>
              req.messages == old(req.messages) + [Message(Error, "Error al guardar la imagen: " + write.error)]
    ensures !(FotoField in req.files && write.WriteFailed?) ==> req.messages == old(req.messages)
  {
    ruta := "";
    if FotoField in req.files {
      var archivo := req.files[FotoField];
      match write {
        case Written =>
          ruta := StaticPrefix + archivo.name;
        case WriteFailed(e) =>
          req.AddMessage(Error, "Error al guardar la imagen: " + e);
      }
    }
  }

  /** `productos_agregar_view`. On a POST: the photo block, then one INSERT whose
      parameters are the five posted fields, unchanged and in order, followed by the
      photo path; it is sent even when the photo write failed. A successful insert adds
      a success message and redirects to the product list; a failed one adds an error
      message and renders the form again, as any other method does. */
  method ProductosAgregarView(req: Request, write: WriteOutcome, insert: ExecOutcome)
    returns (resp: Response, issued: seq<Query>)
    modifies req
    ensures req.session == old(req.session)
    ensures req.verb != Post ==> issued == [] && req.messages == old(req.messages)
    ensures req.verb == Post ==>
      && |issued| == 1 && issued[0].sql == InsertSql && |issued[0].params| == 6
      && (forall i :: 0 <= i < 5 ==> issued[0].params[i] == DictGet(req.post, ProductoFields[i]))
      && issued[0].params[5].Some?
      && (issued[0].params[5].value != "" <==> FotoField in req.files && write.Written?)
      && (FotoField in req.files && write.Written? ==>
            issued[0].params[5].value == StaticPrefix + req.files[FotoField].name)
    ensures req.verb == Post ==>
      var photoMessages := if FotoField in req.files && write.WriteFailed?
                           then [Message(Error, "Error al guardar la imagen: " + write.error)] else [];
      var insertMessage := match insert
                           case Executed => Message(Success, "¡Producto '" + Show(DictGet(req.post, "Nombre")) + "' agregado con éxito!")
                           case ExecFailed(e) => Message(Error, "Error al agregar el producto: " + e);
      req.messages == old(req.messages) + photoMessages + [insertMessage]
    ensures req.verb == Post && insert.Executed? ==> resp == Redirect(ProductosLista)
    ensures !(req.verb == Post && insert.Executed?) ==>
      resp == Render(AgregarTemplate, UserContext(DictGet(req.session, UserNombreKey),
                                                  DictGet(req.session, UserRolKey)))
  {
    issued := [];
    if req.verb == Post {
      var prodId := DictGet(req.post, "Id_Producto");
      var prodNombre := DictGet(req.post, "Nombre");
      var prodPrecio := DictGet(req.post, "PrecioVenta");
      var prodCantidad := DictGet(req.post, "Cantidad");
      var prodStock := DictGet(req.post, "StockMinimo");
      var ruta := SavePhoto(req, write);
      var params := [prodId, prodNombre, prodPrecio, prodCantidad, prodStock, Some(ruta)];
      issued := [Query(InsertSql, params)];
      match insert {
        case Executed =>
          req.AddMessage(Success, "¡Producto '" + Show(prodNombre) + "' agregado con éxito!");
          return Redirect(ProductosLista), issued;
        case ExecFailed(e) =>
          req.AddMessage(Error, "Error al agregar el producto: " + e);
      }
    }
    resp := Render(AgregarTemplate, UserContext(DictGet(req.session, UserNombreKey),
                                                DictGet(req.session, UserRolKey)));
  }
}
