/**
  The `SurrealORM` object: its options, its `database` field and the client
  handle, which is present or absent. `connect` replaces the handle with a new
  client and drops it on any failure, `disconnect` drops it after closing it,
  and `isConnected` drops it when a ping fails.
 */
module Connection {
  import opened Wrappers
  import opened Values
  import opened Errors
  import opened Client
  import RawQuery
  import Decorators
  import Entities
  import Writes

  /** The constructor's options; `username` and `password` may be omitted. */
  datatype Options = Options(url: string, namespace: string, database: string,
                             username: Option<string>, password: Option<string>)

  /**
    One ORM object. `minted` counts the clients created so far, so that each
    `new Surreal()` gets a handle that no earlier client had.
   */
  datatype Orm = Orm(options: Options, database: string, client: Option<Handle>, minted: nat)

  /** A call on the ORM object: its state afterwards, the client calls issued, and the outcome. */
  datatype Step<T> = Step(orm: Orm, calls: seq<Call>, result: Result<T, Error>)

  /** What the new client answers to `connect(url)`, `signin(...)` and `use(...)`, in that order. */
  datatype ConnectReplies = ConnectReplies(open: Reply, signin: Reply, use: Reply)

  /** The object's own invariant: `database` mirrors the options and the handle is one already minted. */
  ghost predicate Valid(orm: Orm) {
    && orm.database == orm.options.database
    && (orm.client.Some? ==> orm.client.value.serial < orm.minted)
  }

  /** `new SurrealORM(options)`: a fresh client that has not connected yet. */
  function New(options: Options): (r: Orm)
    ensures r.options == options && r.database == options.database
    ensures r.client.Some? && !r.client.value.live
    ensures Valid(r)
  {
    Orm(options, options.database, Some(Handle(0, false)), 1)
  }

  /** `value || "root"`: an omitted or empty credential falls back to `root`. */
  function OrRoot(value: Option<string>): (r: string)
    ensures value.Some? && value.value != "" ==> r == value.value
    ensures value.None? || value.value == "" ==> r == "root"
  {
    if value.Some? && value.value != "" then value.value else "root"
  }

  /**
    The `signin` argument for a connection mode: `root` sends the user alone,
    `namespace` adds the namespace, `database` adds namespace and database;
    any other mode has none.
   */
  function SigninFor(mode: string, options: Options): (r: Option<Credentials>)
    ensures r.Some? <==> mode in {"root", "namespace", "database"}
    ensures r.Some? ==> r.value.username == OrRoot(options.username) && r.value.password == OrRoot(options.password)
    ensures r.Some? ==> (r.value.namespace.Some? <==> mode != "root")
    ensures r.Some? ==> (r.value.database.Some? <==> mode == "database")
    ensures r.Some? && r.value.namespace.Some? ==> r.value.namespace.value == options.namespace
    ensures r.Some? && r.value.database.Some? ==> r.value.database.value == options.database
  {
    var user := OrRoot(options.username);
    var password := OrRoot(options.password);
    if mode == "namespace" then Some(Credentials(user, password, Some(options.namespace), None))
    else if mode == "database" then Some(Credentials(user, password, Some(options.namespace), Some(options.database)))
    else if mode == "root" then Some(Credentials(user, password, None, None))
    else None
  }

  /** The caught failure: the client is dropped and the cause is reported. */
  function ConnectFailure(orm: Orm, calls: seq<Call>, message: string): Step<()> {
    Step(orm.(client := None), calls, Err(ConnectFailed(message)))
  }

  /**
    `connect(type = "root")`. A new client is created and opened on the URL,
    signs in with the mode's credentials and selects namespace and database.
    The first of these that fails, or an unknown mode, leaves no client.
   */
  function Connect(orm: Orm, mode: Option<string>, replies: ConnectReplies): (r: Step<()>)
    ensures r.orm.options == orm.options && r.orm.database == orm.database
    ensures Valid(orm) ==> Valid(r.orm)
    ensures r.orm.minted == orm.minted + 1
    ensures r.calls != [] && r.calls[0] == Open(orm.options.url)
    // success needs a known mode and every step answered
    ensures r.result.Ok? <==>
              SigninFor(mode.GetOr("root"), orm.options).Some?
              && replies.open.Returned? && replies.signin.Returned? && replies.use.Returned?
    ensures r.result.Ok? ==>
              && r.orm.client == Some(Handle(orm.minted, true))
              && r.calls == [Open(orm.options.url),
                             Signin(SigninFor(mode.GetOr("root"), orm.options).value),
                             Use(orm.options.namespace, orm.options.database)]
    ensures r.result.Err? ==> r.orm.client.None? && r.result.error.ConnectFailed?
    ensures replies.open.Threw? ==> r == ConnectFailure(orm.(minted := orm.minted + 1), [Open(orm.options.url)], replies.open.message)
    ensures replies.open.Returned? && SigninFor(mode.GetOr("root"), orm.options).None? ==>
              r == ConnectFailure(orm.(minted := orm.minted + 1), [Open(orm.options.url)], "Invalid connection type")
    ensures replies.open.Returned? && SigninFor(mode.GetOr("root"), orm.options).Some? && replies.signin.Threw? ==>
              r == ConnectFailure(orm.(minted := orm.minted + 1),
                                  [Open(orm.options.url), Signin(SigninFor(mode.GetOr("root"), orm.options).value)],
                                  replies.signin.message)
    ensures replies.open.Returned? && SigninFor(mode.GetOr("root"), orm.options).Some? && replies.signin.Returned?
            && replies.use.Threw? ==>
              r == ConnectFailure(orm.(minted := orm.minted + 1),
                                  [Open(orm.options.url), Signin(SigninFor(mode.GetOr("root"), orm.options).value),
                                   Use(orm.options.namespace, orm.options.database)],
                                  replies.use.message)
  {
    var handle := Handle(orm.minted, false);
    var o := orm.(client := Some(handle), minted := orm.minted + 1);
    var open := Open(orm.options.url);
    match replies.open
    case Threw(m) => ConnectFailure(o, [open], m)
    case Returned(_) =>
      match SigninFor(mode.GetOr("root"), orm.options)
      case None => ConnectFailure(o, [open], "Invalid connection type")
      case Some(credentials) =>
        var signin := Signin(credentials);
        match replies.signin
        case Threw(m) => ConnectFailure(o, [open, signin], m)
        case Returned(_) =>
          var use := Use(orm.options.namespace, orm.options.database);
          match replies.use
          case Threw(m) => ConnectFailure(o, [open, signin, use], m)
          case Returned(_) => Step(o.(client := Some(handle.(live := true))), [open, signin, use], Ok(()))
  }

  /**
    The cause a failed connect reports: the message of the first step that
    threw, or "Invalid connection type" for an unknown mode, behind the fixed
    "Failed to connect to SurrealDB: " prefix.
   */
  function FailureCause(mode: string, options: Options, replies: ConnectReplies): string {
    if replies.open.Threw? then replies.open.message
    else if SigninFor(mode, options).None? then "Invalid connection type"
    else if replies.signin.Threw? then replies.signin.message
    else if replies.use.Threw? then replies.use.message
    else ""
  }

  /** A failed connect rejects with "Failed to connect to SurrealDB: " followed by the first failure's message. */
  lemma ConnectFailureMessage(orm: Orm, mode: Option<string>, replies: ConnectReplies)
    requires Connect(orm, mode, replies).result.Err?
    ensures Message(Connect(orm, mode, replies).result.error)
         == "Failed to connect to SurrealDB: " + FailureCause(mode.GetOr("root"), orm.options, replies)
  {
  }

  /** A successful connect leaves a client no earlier state of the object ever held. */
  lemma ConnectGivesFreshClient(orm: Orm, mode: Option<string>, replies: ConnectReplies)
    requires Valid(orm)
    ensures var r := Connect(orm, mode, replies);
            r.result.Ok? ==>
              && r.orm.client.Some? && r.orm.client != orm.client
              && r.orm.client.value.serial == orm.minted
              && (orm.client.Some? ==> orm.client.value.serial < r.orm.client.value.serial)
  {
  }

  /**
    `disconnect()`: with a client present it is closed and then dropped; a
    close that throws leaves the client in place. Without a client nothing
    happens.
   */
  function Disconnect(orm: Orm, close: Reply): (r: Step<()>)
    ensures Valid(orm) ==> Valid(r.orm)
    ensures orm.client.None? ==> r == Step(orm, [], Ok(()))
    ensures orm.client.Some? ==> r.calls == [Close]
    ensures r.result.Ok? <==> orm.client.None? || close.Returned?
    ensures r.result.Ok? ==> r.orm == orm.(client := None)
    ensures r.result.Err? ==> r.orm == orm && r.result.error == ClientError(close.message)
  {
    if orm.client.None? then Step(orm, [], Ok(()))
    else
      match close
      case Threw(m) => Step(orm, [Close], Err(ClientError(m)))
      case Returned(_) => Step(orm.(client := None), [Close], Ok(()))
  }

  /** A second `disconnect` after a successful one issues no call and changes nothing. */
  lemma DisconnectIdempotent(orm: Orm, first: Reply, second: Reply)
    requires Disconnect(orm, first).result.Ok?
    ensures var o := Disconnect(orm, first).orm;
            Disconnect(o, second) == Step(o, [], Ok(()))
  {
    assert Disconnect(orm, first).orm.client.None?;
  }

  /**
    `isConnected()`: no client answers `false` without a call; otherwise the
    client is pinged, and a ping that throws drops the client and answers
    `false`. It never rejects.
   */
  function IsConnected(orm: Orm, ping: Reply): (r: Step<bool>)
    ensures Valid(orm) ==> Valid(r.orm)
    ensures r.result.Ok?
    ensures orm.client.None? ==> r == Step(orm, [], Ok(false))
    ensures orm.client.Some? ==> r.calls == [Ping]
    ensures r.result.value <==> orm.client.Some? && ping.Returned?
    ensures r.result.value ==> r.orm == orm
    ensures !r.result.value ==> r.orm == orm.(client := None)
  {
    if orm.client.None? then Step(orm, [], Ok(false))
    else
      match ping
      case Threw(_) => Step(orm.(client := None), [Ping], Ok(false))
      case Returned(_) => Step(orm, [Ping], Ok(true))
  }

  /** After a connect that failed, `isConnected` answers `false` without touching any client. */
  lemma FailedConnectThenNotConnected(orm: Orm, mode: Option<string>, replies: ConnectReplies, ping: Reply)
    requires Connect(orm, mode, replies).result.Err?
    ensures var o := Connect(orm, mode, replies).orm;
            IsConnected(o, ping) == Step(o, [], Ok(false))
  {
  }

  /** After `disconnect`, `isConnected` answers `false` without a call. */
  lemma DisconnectThenNotConnected(orm: Orm, close: Reply, ping: Reply)
    requires Disconnect(orm, close).result.Ok?
    ensures var o := Disconnect(orm, close).orm;
            IsConnected(o, ping) == Step(o, [], Ok(false))
  {
  }

  /**
    The object's own `raw(query, params)`: the client's response comes back
    as it is, with no envelope unwrapping.
   */
  function Raw(orm: Orm, query: string, params: Option<Object>, reply: Reply): (r: Step<Value>)
    ensures r.orm == orm
    ensures orm.client.None? ==> r.calls == [] && r.result == Err(NotConnected)
    ensures orm.client.Some? ==> r.calls == [Query(query, params)]
    ensures orm.client.Some? && reply.Threw? ==> r.result == Err(ClientError(reply.message))
    ensures orm.client.Some? && reply.Returned? ==> r.result == Ok(reply.value)
  {
    if orm.client.None? then Step(orm, [], Err(NotConnected))
    else
      match reply
      case Threw(m) => Step(orm, [Query(query, params)], Err(ClientError(m)))
      case Returned(v) => Step(orm, [Query(query, params)], Ok(v))
  }

  /**
    The two `raw`s issue the same call but answer differently: for the
    statement-array response the object's `raw` keeps the list of statements,
    while the query method's `raw` hands back the first statement's rows.
   */
  lemma RawVariantsDiffer(orm: Orm, query: string, params: Option<Object>, rows: seq<Value>, more: seq<Value>)
    requires orm.client.Some?
    ensures var reply := Returned(Arr([Arr(rows)] + more));
            && Raw(orm, query, params, reply).calls == RawQuery.Raw(orm.client, query, params, reply).calls
            && Raw(orm, query, params, reply).result == Ok(Arr([Arr(rows)] + more))
            && RawQuery.Raw(orm.client, query, params, reply).result == Ok(Arr(rows))
  {
    RawQuery.UnwrapStatementRows(rows, more);
  }

  /**
    A newly constructed object already holds a client, so the operations'
    "not connected" guard passes before any `connect`, and the client's own
    refusal is what the caller sees.
   */
  lemma NewObjectPassesGuard(options: Options, reg: Decorators.Registry, e: Entities.Instance, message: string)
    requires Entities.TableNameOf(reg, e.cls).Ok?
    ensures var r := Writes.Create(New(options).client, reg, e, Threw(message));
            r.calls != [] && r.error == Some(ClientError(message))
  {
  }
}
