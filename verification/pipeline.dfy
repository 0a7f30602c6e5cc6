/** One request through `ServeMux.ServeHTTP` (runtime/mux.go), as a pure function of the
    registry, the request, the graphql-go collaborators and the map iteration order.
    Each stage returns the events it caused; `ServeHTTP` strings them together. */
module Pipeline {
  import opened MuxTypes
  import opened Strings
  import opened MapOrder
  import opened FieldMerge
  import opened SchemaAssembly

  // ---------------------------------------------------------------- middlewares

  datatype MiddlewareStage =
    | Passed(ctx: Context, events: seq<Event>)
    | Rejected(failure: Failure, events: seq<Event>)

  /** Runs `mws[i..]` in order, threading the context; the first error stops the chain. */
  function RunMiddlewares(mws: seq<MiddlewareFunc>, r: HttpRequest, i: nat, ctx: Context): (o: MiddlewareStage)
    requires i <= |mws|
    ensures forall e :: e in o.events ==> e.MiddlewareCall? && i <= e.index < |mws|
    decreases |mws| - i
  {
    if i == |mws| then
      Passed(ctx, [])
    else
      match mws[i](ctx, r)
      case Err(f) => Rejected(f, [MiddlewareCall(i)])
      case Ok(next) =>
        var rest := RunMiddlewares(mws, r, i + 1, next);
        rest.(events := [MiddlewareCall(i)] + rest.events)
  }

  // ---------------------------------------------------------------- connections

  datatype ConnectStage =
    | Connected(queries: Fields, mutations: Fields, events: seq<Event>, deferred: seq<nat>)
    | ConnectFailed(message: string, events: seq<Event>, deferred: seq<nat>)

  /** Opens a connection for each of `hs[i..]` in order, schedules its closer and merges
      its fields into `queries` and `mutations`; the first failure stops the loop.
      `deferred` lists the indices whose closers were scheduled, oldest first. */
  function ConnectHandlers(hs: seq<Handler>, ctx: Context, i: nat, queries: Fields, mutations: Fields)
    : (o: ConnectStage)
    requires i <= |hs|
    ensures forall e :: e in o.events ==> e.ConnectAttempt? && i <= e.handler < |hs|
    decreases |hs| - i
  {
    if i == |hs| then
      Connected(queries, mutations, [], [])
    else
      match hs[i].createConnection(ctx)
      case Err(e) => ConnectFailed(e, [ConnectAttempt(i)], [])
      case Ok(c) =>
        var rest := ConnectHandlers(hs, ctx, i + 1,
                                    Overwrite(queries, hs[i].getQueries(Some(c))),
                                    Overwrite(mutations, hs[i].getMutations(Some(c))));
        rest.(events := [ConnectAttempt(i)] + rest.events, deferred := [i] + rest.deferred)
  }

  /** Deferred calls run last-in first-out when ServeHTTP returns. */
  function RunDeferred(deferred: seq<nat>): (closes: seq<Event>)
    ensures |closes| == |deferred|
    ensures forall e :: e in closes ==> e.Close?
    decreases |deferred|
  {
    if deferred == [] then []
    else [Close(deferred[|deferred| - 1])] + RunDeferred(deferred[..|deferred| - 1])
  }

  // ---------------------------------------------------------------- directives

  /** `methodNames`: the query field names followed by the mutation field names, each
      map in its iteration order; a name in both maps is listed twice. */
  function MethodNames(queries: Fields, mutations: Fields, order: Enumerator): (names: seq<string>)
    requires IsEnumerator(order)
    ensures multiset(names) == multiset(queries.Keys) + multiset(mutations.Keys)
  {
    EnumerationKeys(order(queries.Keys), queries.Keys);
    EnumerationKeys(order(mutations.Keys), mutations.Keys);
    order(queries.Keys) + order(mutations.Keys)
  }

  datatype DispatchStage =
    | DirectivesPassed(events: seq<Event>)
    | DirectiveFailed(failure: Failure, events: seq<Event>)

  /** Calls the directives of method `m` in the order `names`; the first error stops. */
  function RunDirectives(ds: map<string, GraphQLMiddlewareFunc>, names: seq<string>, m: string,
                         ctx: Context, r: HttpRequest): (o: DispatchStage)
    requires forall d :: d in names ==> d in ds
    ensures forall e :: e in o.events ==> e.DirectiveCall? && e.methodName == m && e.directive in names
    decreases |names|
  {
    if names == [] then
      DirectivesPassed([])
    else
      var call := DirectiveCall(m, names[0]);
      match ds[names[0]](ctx, r, m)
      case Some(f) => DirectiveFailed(f, [call])
      case None =>
        var rest := RunDirectives(ds, names[1..], m, ctx, r);
        rest.(events := [call] + rest.events)
  }

  /** For each listed method whose name occurs in the query text and that has directives,
      runs all of them; the first error stops the whole dispatch. */
  function Dispatch(dirs: DirectiveMap, methods: seq<string>, query: string, ctx: Context,
                    r: HttpRequest, order: Enumerator): (o: DispatchStage)
    requires IsEnumerator(order)
    ensures forall e :: e in o.events ==> e.DirectiveCall? && e.methodName in methods
    decreases |methods|
  {
    if methods == [] then
      DirectivesPassed([])
    else
      var m := methods[0];
      var here :=
        if Contains(query, m) && m in dirs
        then RunDirectives(dirs[m], order(dirs[m].Keys), m, ctx, r)
        else DirectivesPassed([]);
      match here
      case DirectiveFailed(f, ev) => DirectiveFailed(f, ev)
      case DirectivesPassed(ev) =>
        var rest := Dispatch(dirs, methods[1..], query, ctx, r, order);
        rest.(events := ev + rest.events)
  }

  // ---------------------------------------------------------------- the request

  /** The error observer runs iff the engine reported errors: the configured
      `ErrorHandler` when there is one, the default one otherwise. */
  function Observe(s: ServeMux, result: ExecResult): (ev: seq<Event>)
    ensures forall e :: e in ev ==> e.ObserveErrors?
    ensures forall b :: ObserveErrors(b) in ev <==> |result.errors| > 0 && b == s.hasErrorHandler
  {
    if |result.errors| > 0 then [ObserveErrors(s.hasErrorHandler)] else []
  }

  /** No close and no respond events among `ev`. */
  predicate BeforeResponse(ev: seq<Event>) {
    forall e :: e in ev ==> !e.Close? && !e.Respond?
  }

  /** Events only the stages after the connection loop cause. */
  predicate AfterConnections(e: Event) {
    e.BuildSchema? || e.ParseRequest? || e.DirectiveCall? || e.Execute? || e.ObserveErrors?
  }

  /** `o` extends `ev` with events of the stages after the connection loop only. */
  predicate ExtendsLater(o: Outcome, ev: seq<Event>) {
    |ev| <= |o.events| && o.events[..|ev|] == ev
    && forall k :: |ev| <= k < |o.events| ==> AfterConnections(o.events[k])
  }

  /** Where a request stands when `respondResult` is called: the events so far, the
      closers deferred so far (oldest first) and the result to be written. */
  datatype Outcome = Outcome(events: seq<Event>, deferred: seq<nat>, result: ExecResult)

  function ConnectErrorMessage(e: string): string { "Failed to create grpc connection: " + e }
  function SchemaErrorMessage(e: string): string { "Failed to build schema: " + e }
  function ParseErrorMessage(e: string): string { "Failed to parse request: " + e }

  /** ServeHTTP up to the call of `respondResult`. */
  function Serve(s: ServeMux, r: HttpRequest, gql: Graphql, order: Enumerator): (o: Outcome)
    requires IsEnumerator(order)
    ensures BeforeResponse(o.events)
    ensures ExecuteReached(o) || (o.result.data.None? && |o.result.errors| == 1)
  {
    match RunMiddlewares(s.middlewares, r, 0, r.context)
    case Rejected(f, ev) => Outcome(ev, [], Fail(Classify(f, MiddlewareErrorCode)))
    case Passed(ctx, ev) => ServeConnections(s, r, gql, order, ctx, ev)
  }

  predicate ExecuteReached(o: Outcome) {
    Execute in o.events
  }

  /** After the middlewares: open a connection per handler and merge their fields. */
  function ServeConnections(s: ServeMux, r: HttpRequest, gql: Graphql, order: Enumerator,
                            ctx: Context, ev: seq<Event>): (o: Outcome)
    requires IsEnumerator(order) && BeforeResponse(ev)
    ensures BeforeResponse(o.events)
    ensures o.deferred == ConnectHandlers(s.handlers, ctx, 0, map[], map[]).deferred
    ensures ExecuteReached(o) || (o.result.data.None? && |o.result.errors| == 1)
  {
    match ConnectHandlers(s.handlers, ctx, 0, map[], map[])
    case ConnectFailed(e, ev1, deferred) =>
      Outcome(ev + ev1, deferred, Fail(GraphqlError(ConnectErrorMessage(e), GrpcConnectErrorCode)))
    case Connected(queries, mutations, ev1, deferred) =>
      ServeSchema(s, r, gql, order, ctx, queries, mutations, ev + ev1, deferred)
  }

  /** After every handler connected: build the schema from the merged maps. */
  function ServeSchema(s: ServeMux, r: HttpRequest, gql: Graphql, order: Enumerator, ctx: Context,
                       queries: Fields, mutations: Fields, ev: seq<Event>, deferred: seq<nat>): (o: Outcome)
    requires IsEnumerator(order) && BeforeResponse(ev)
    ensures BeforeResponse(o.events)
    ensures o.deferred == deferred
    ensures ExtendsLater(o, ev) && |ev| < |o.events| && o.events[|ev|] == BuildSchema(BuildSchemaConfig(queries, mutations))
    ensures ExecuteReached(o) || (o.result.data.None? && |o.result.errors| == 1)
  {
    var config := BuildSchemaConfig(queries, mutations);
    var ev1 := ev + [BuildSchema(config)];
    var o := match gql.newSchema(config)
      case Err(e) => Outcome(ev1, deferred, Fail(GraphqlError(SchemaErrorMessage(e), SchemaGenerationErrorCode)))
      case Ok(schema) => ServeParse(s, r, gql, order, ctx, queries, mutations, schema, ev1, deferred);
    ExtendsLaterSnoc(o, ev, BuildSchema(config));
    o
  }

  /** An outcome that extends `ev + [x]` with later events extends `ev`, with `x` next. */
  lemma ExtendsLaterSnoc(o: Outcome, ev: seq<Event>, x: Event)
    requires AfterConnections(x)
    requires |ev| + 1 <= |o.events| && o.events[..|ev| + 1] == ev + [x]
    requires forall k :: |ev| + 1 <= k < |o.events| ==> AfterConnections(o.events[k])
    ensures ExtendsLater(o, ev) && |ev| < |o.events| && o.events[|ev|] == x
  {
    assert o.events[..|ev|] == o.events[..|ev| + 1][..|ev|];
    assert o.events[|ev|] == o.events[..|ev| + 1][|ev|];
  }

  /** After the schema was built: parse the request body. */
  function ServeParse(s: ServeMux, r: HttpRequest, gql: Graphql, order: Enumerator, ctx: Context,
                      queries: Fields, mutations: Fields, schema: Schema,
                      ev: seq<Event>, deferred: seq<nat>): (o: Outcome)
    requires IsEnumerator(order) && BeforeResponse(ev)
    ensures BeforeResponse(o.events)
    ensures o.deferred == deferred
    ensures ExtendsLater(o, ev)
    ensures ExecuteReached(o) || (o.result.data.None? && |o.result.errors| == 1)
  {
    var ev1 := ev + [ParseRequest];
    match gql.parseRequest(r)
    case Err(e) => Outcome(ev1, deferred, Fail(GraphqlError(ParseErrorMessage(e), RequestParseErrorCode)))
    case Ok(req) => ServeDirectives(s, r, gql, order, ctx, queries, mutations, schema, req, ev1, deferred)
  }

  /** After parsing: run the due directives, then execute and observe errors. */
  function ServeDirectives(s: ServeMux, r: HttpRequest, gql: Graphql, order: Enumerator, ctx: Context,
                           queries: Fields, mutations: Fields, schema: Schema, req: GraphqlRequest,
                           ev: seq<Event>, deferred: seq<nat>): (o: Outcome)
    requires IsEnumerator(order) && BeforeResponse(ev)
    ensures BeforeResponse(o.events)
    ensures o.deferred == deferred
    ensures ExtendsLater(o, ev)
    ensures ExecuteReached(o) || (o.result.data.None? && |o.result.errors| == 1)
  {
    var names := MethodNames(queries, mutations, order);
    match Dispatch(s.graphQLMiddlewares, names, req.query, ctx, r, order)
    case DirectiveFailed(f, ev1) =>
      Outcome(ev + ev1, deferred, Fail(Classify(f, DirectiveMiddlewareErrorCode)))
    case DirectivesPassed(ev1) =>
      var result := gql.execute(schema, req, ctx);
      Outcome(ev + ev1 + [Execute] + Observe(s, result), deferred, result)
  }

  /** `respondResult` writes status 200 and the body; then the deferred closers run. */
  function Finish(o: Outcome): (resp: Response)
    ensures resp.status == StatusOK && resp.result == o.result
    ensures |resp.trace| == |o.events| + 1 + |o.deferred|
    ensures resp.trace[..|o.events|] == o.events && resp.trace[|o.events|] == Respond(StatusOK)
  {
    Response(StatusOK, o.result, o.events + [Respond(StatusOK)] + RunDeferred(o.deferred))
  }

  /** The whole of `ServeHTTP` for one request. */
  function ServeHTTP(s: ServeMux, r: HttpRequest, gql: Graphql, order: Enumerator): (resp: Response)
    requires IsEnumerator(order)
    ensures resp.status == StatusOK
    ensures Execute in resp.trace || (resp.result.data.None? && |resp.result.errors| == 1)
  {
    Finish(Serve(s, r, gql, order))
  }
}
