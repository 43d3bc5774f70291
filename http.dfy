/** The request/response vocabulary shared by both Django apps: session values,
    flash messages, redirect targets, rendered pages and the SQL statements a view
    hands to the database. Templates, the `messages` framework and the database
    engine are not modelled: a page is its template name and context, a message is
    its level and text, a statement is its SQL text and bind parameters. */
module Http {

  datatype Option<+T> = None | Some(value: T)

  /** A value held in the session or read from a result column. A DECIMAL such as
      `PrecioVenta` is its unscaled digits and its scale: `Decimal(550, 2)` is 5.50. */
  datatype Value = Null | Int(i: int) | Decimal(unscaled: int, scale: nat) | Text(s: string)

  /** `request.session`: a key to value dictionary. */
  type Session = map<string, Value>

  const UserIdKey := "user_id"
  const UserNombreKey := "user_nombre"
  const UserRolKey := "user_rol"

  /** `request.method`, the upper-case HTTP verb such as "GET" or "POST". */
  type Method = string

  const Post: Method := "POST"

  datatype Level = Success | Error | Info

  datatype Message = Message(level: Level, text: string)

  /** URL names used as redirect targets. */
  datatype Route = Login | Dashboard | ProductosLista

  /** A bind parameter: `Some(text)`, or `None` for Python's `None` (SQL NULL). */
  type Param = Option<string>

  /** A statement sent to the database: SQL text plus bind parameters. */
  datatype Query = Query(sql: string, params: seq<Param>)

  /** A file posted in `request.FILES`; only its client-supplied name matters here. */
  datatype Upload = Upload(name: string)

  /** The context handed to each template. */
  datatype Context =
    | NoContext
    | UserContext(nombreUsuario: Option<Value>, rolUsuario: Option<Value>)
    | DashboardContext(nombreUsuario: Option<Value>, rolUsuario: Option<Value>,
                       totalClientes: int, totalProductos: int, totalProveedores: int)
    | ProductosContext(nombreUsuario: Option<Value>, rolUsuario: Option<Value>,
                       productos: seq<map<string, Value>>, searchQuery: string)

  datatype Response = Redirect(to: Route) | Render(template: string, context: Context)

  /** The part of a request a view may change: its session and its pending messages. */
  datatype State = State(session: Session, messages: seq<Message>)

  /** What a view leaves behind: the new state, the statements it sent, its response. */
  datatype Reply = Reply(state: State, issued: seq<Query>, response: Response)

  /** `dict.get(key)` on a form or on the session: `None` when the key is absent. */
  function DictGet<V>(d: map<string, V>, key: string): (v: Option<V>)
    ensures v.Some? <==> key in d
    ensures v.Some? ==> v.value == d[key]
  {
    if key in d then Some(d[key]) else None
  }

  /** `dict.get(key, default)`. */
  function GetOr(form: map<string, string>, key: string, default: string): (v: string)
    ensures key in form ==> v == form[key]
    ensures key !in form ==> v == default
  {
    if key in form then form[key] else default
  }

  /** The set of names in a sequence. */
  function Elems(names: seq<string>): (e: set<string>)
    ensures forall i :: 0 <= i < |names| ==> names[i] in e
    ensures forall x :: x in e ==> exists i :: 0 <= i < |names| && names[i] == x
  {
    set i | 0 <= i < |names| :: names[i]
  }

  /** How an f-string renders a form value: Python prints a missing one as "None". */
  function Show(v: Option<string>): string
  {
    match v
    case Some(s) => s
    case None => "None"
  }

  /** A Django `HttpRequest`: the method, form data and uploads are fixed, while the
      session and the message store are updated in place by the views. */
  class Request {
    const verb: Method
    const post: map<string, string>
    const query: map<string, string>
    const files: map<string, Upload>
    var session: Session
    var messages: seq<Message>

    constructor (verb: Method, post: map<string, string>, query: map<string, string>,
                 files: map<string, Upload>, session: Session)
      ensures this.verb == verb && this.post == post && this.query == query
      ensures this.files == files && this.session == session && this.messages == []
    {
      this.verb := verb;
      this.post := post;
      this.query := query;
      this.files := files;
      this.session := session;
      this.messages := [];
    }

    function Snapshot(): State
      reads this
    {
      State(session, messages)
    }

    /** `messages.<level>(request, text)`: appends one message to the store. */
    method AddMessage(level: Level, text: string)
      modifies this
      ensures messages == old(messages) + [Message(level, text)]
      ensures session == old(session)
    {
      messages := messages + [Message(level, text)];
    }

    /** `del request.session[key]`: `found` is false where Python raises `KeyError`,
        and then the session is left as it was. */
    method DeleteSessionKey(key: string) returns (found: bool)
      modifies this
      ensures found <==> key in old(session)
      ensures session == old(session) - {key}
      ensures messages == old(messages)
    {
      found := key in session;
      if found {
        session := session - {key};
      }
    }
  }
}
