/** What one call of ServeHTTP (runtime/mux.go lines 107-254) promises, stage by stage:
    which single error a failing stage reports, which later stages never run, which
    closers run, and what reaches the engine when nothing fails. */
module ServeProperties {
  import opened MuxTypes
  import opened MapOrder
  import opened FieldMerge
  import opened SchemaAssembly
  import opened Registry
  import opened Pipeline
  import opened MiddlewareChain
  import opened ConnectionLifecycle
  import opened DirectiveDispatch

  /** Every middleware accepts the request, handing on `ctx`. */
  ghost predicate ChainPasses(s: ServeMux, r: HttpRequest, ctx: Context) {
    ContextAfter(s.middlewares, r, r.context, |s.middlewares|) == Some(ctx)
  }

  /** Every registered handler opens a connection under `ctx`. */
  ghost predicate AllConnect(s: ServeMux, ctx: Context) {
    ConnectsUpTo(s.handlers, ctx, |s.handlers|)
  }

  /** The merged field map of the given kind a request under `ctx` builds. */
  function RequestFields(s: ServeMux, ctx: Context, kind: FieldKind): Fields {
    MergedUpTo(s.handlers, ctx, kind, |s.handlers|)
  }

  /** The schema configuration a request under `ctx` hands to `graphql.NewSchema`. */
  function RequestConfig(s: ServeMux, ctx: Context): SchemaConfig {
    BuildSchemaConfig(RequestFields(s, ctx, QueryFields), RequestFields(s, ctx, MutationFields))
  }

  // ---------------------------------------------------------------- every request

  /** The response is written once, with status 200; every deferred closer runs once per
      time it was deferred, and all of them after the response. */
  lemma FinishRespondsOnce(o: Outcome)
    requires BeforeResponse(o.events)
    ensures var t := Finish(o).trace;
            && multiset(t)[Respond(200)] == 1
            && (forall st :: st != 200 ==> Respond(st) !in t)
            && (forall j :: multiset(t)[Close(j)] == multiset(o.deferred)[j])
            && (forall i, k :: 0 <= i < k < |t| && t[i].Close? ==> !t[k].Respond?)
  {
    FinishRespondCounted(o);
    FinishClosesCounted(o);
    FinishClosesAfter(o);
  }

  /** Finishing writes status 200 once and no other status. */
  lemma FinishRespondCounted(o: Outcome)
    requires BeforeResponse(o.events)
    ensures multiset(Finish(o).trace)[Respond(200)] == 1
    ensures forall st :: st != 200 ==> Respond(st) !in Finish(o).trace
  {
    var closes := RunDeferred(o.deferred);
    assert Finish(o).trace == o.events + [Respond(StatusOK)] + closes;
    assert Respond(200) !in o.events && Respond(200) !in closes;
  }

  /** Finishing runs no closer before the response. */
  lemma FinishClosesAfter(o: Outcome)
    requires BeforeResponse(o.events)
    ensures var t := Finish(o).trace;
            forall i, k :: 0 <= i < k < |t| && t[i].Close? ==> !t[k].Respond?
  {
    var t := Finish(o).trace;
    var closes := RunDeferred(o.deferred);
    assert t == o.events + [Respond(StatusOK)] + closes;
    forall i, k | 0 <= i < k < |t|
      ensures t[i].Close? ==> !t[k].Respond?
    {
      if i < |o.events| {
        assert t[i] == o.events[i] && o.events[i] in o.events;
      } else if i > |o.events| {
        assert t[k] == closes[k - |o.events| - 1] && closes[k - |o.events| - 1] in closes;
      }
    }
  }

  /** Finishing runs each deferred closer once per time it was deferred. */
  lemma FinishClosesCounted(o: Outcome)
    requires BeforeResponse(o.events)
    ensures forall j :: multiset(Finish(o).trace)[Close(j)] == multiset(o.deferred)[j]
  {
    var closes := RunDeferred(o.deferred);
    forall j ensures multiset(Finish(o).trace)[Close(j)] == multiset(o.deferred)[j] {
      assert Close(j) !in o.events;
      CountAbsent(o.events, [Respond(StatusOK)] + closes, [], Close(j));
      assert Finish(o).trace == o.events + ([Respond(StatusOK)] + closes) + [];
      DeferredRunOnce(o.deferred, j);
    }
  }

  /** Status 200 is written exactly once, and every closer runs after it. */
  lemma RespondsOnce(s: ServeMux, r: HttpRequest, gql: Graphql, order: Enumerator)
    requires IsEnumerator(order)
    ensures var resp := ServeHTTP(s, r, gql, order);
            && resp.status == 200
            && multiset(resp.trace)[Respond(200)] == 1
            && (forall st :: st != 200 ==> Respond(st) !in resp.trace)
            && (forall i, k :: 0 <= i < k < |resp.trace| && resp.trace[i].Close? ==> !resp.trace[k].Respond?)
  {
    FinishRespondsOnce(Serve(s, r, gql, order));
  }

  /** An event other than a close or a response is in the trace iff a stage caused it. */
  lemma InEvents(o: Outcome, e: Event)
    requires !e.Close? && !e.Respond?
    ensures e in Finish(o).trace <==> e in o.events
  {
    var closes := RunDeferred(o.deferred);
    assert Finish(o).trace == o.events + [Respond(StatusOK)] + closes;
    assert e !in closes;
  }

  /** With `ev` free of closes, the closes counted are those of the deferred list. */
  lemma ClosesCounted(ev: seq<Event>, n: nat, j: nat)
    requires BeforeResponse(ev)
    ensures multiset(ev + [Respond(StatusOK)] + RunDeferred(Indices(n)))[Close(j)] == if j < n then 1 else 0
  {
    assert Close(j) !in ev;
    ClosersOnce(n, j);
  }

  // ---------------------------------------------------------------- stage outcomes

  /** The first middleware to fail ends the request with one error: a `*MiddlewareError`
      keeps its code and message, any other error gets MIDDLEWARE_ERROR and its text.
      No later middleware runs and no handler is ever asked for a connection. */
  lemma MiddlewareShortCircuit(s: ServeMux, r: HttpRequest, gql: Graphql, order: Enumerator,
                               k: nat, c: Context, f: Failure)
    requires IsEnumerator(order)
    requires k < |s.middlewares| && ContextAfter(s.middlewares, r, r.context, k) == Some(c)
    requires s.middlewares[k](c, r) == Err(f)
    ensures var resp := ServeHTTP(s, r, gql, order);
            && resp.result.data.None?
            && resp.result.errors == [if f.MiddlewareError? then GraphqlError(f.message, f.code)
                                      else GraphqlError(f.text, "MIDDLEWARE_ERROR")]
            && resp.trace == MiddlewareCalls(0, k + 1) + [Respond(200)]
  {
    RejectedAt(s.middlewares, r, r.context, k, c, f);
  }

  /** Handler `i` failing to connect ends the request with one GRPC_CONNECT_ERROR carrying
      its message. Handlers after `i` are never contacted, no schema is built, the request
      is never parsed, and the closers of handlers `0..i-1`, and only those, run once each. */
  lemma ConnectFailure(s: ServeMux, r: HttpRequest, gql: Graphql, order: Enumerator,
                       ctx: Context, i: nat, e: string)
    requires IsEnumerator(order) && ChainPasses(s, r, ctx)
    requires i < |s.handlers| && ConnectsUpTo(s.handlers, ctx, i)
    requires s.handlers[i].createConnection(ctx) == Err(e)
    ensures var resp := ServeHTTP(s, r, gql, order);
            && resp.result == ExecResult(None, [GraphqlError("Failed to create grpc connection: " + e,
                                                             "GRPC_CONNECT_ERROR")])
            && resp.trace == MiddlewareCalls(0, |s.middlewares|) + Attempts(0, i + 1)
                             + [Respond(200)] + RunDeferred(Indices(i))
            && (forall j: nat :: multiset(resp.trace)[Close(j)] == if j < i then 1 else 0)
  {
    PassedAll(s.middlewares, r, r.context, ctx);
    FailsAt(s.handlers, ctx, i, e);
    var ev := MiddlewareCalls(0, |s.middlewares|) + Attempts(0, i + 1);
    assert Serve(s, r, gql, order) == ServeConnections(s, r, gql, order, ctx, MiddlewareCalls(0, |s.middlewares|));
    forall j: nat ensures multiset(ServeHTTP(s, r, gql, order).trace)[Close(j)] == if j < i then 1 else 0 {
      ClosesCounted(ev, i, j);
    }
  }

  // ---------------------------------------------------------------- connected requests

  /** The events of the middleware chain and of the connection loop, for a request whose
      `m` middlewares all passed and whose `n` handlers all connected. */
  function Opening(m: nat, n: nat): (ev: seq<Event>)
    ensures |ev| == m + n && BeforeResponse(ev)
  {
    MiddlewareCalls(0, m) + Attempts(0, n)
  }

  /** Once every middleware passed and every handler connected, the request goes on to
      build the schema from the merged maps, with each closer deferred once. */
  lemma ReachesSchema(s: ServeMux, r: HttpRequest, gql: Graphql, order: Enumerator, ctx: Context)
    requires IsEnumerator(order) && ChainPasses(s, r, ctx) && AllConnect(s, ctx)
    ensures Serve(s, r, gql, order)
            == ServeSchema(s, r, gql, order, ctx, RequestFields(s, ctx, QueryFields),
                           RequestFields(s, ctx, MutationFields),
                           Opening(|s.middlewares|, |s.handlers|), Indices(|s.handlers|))
  {
    PassedAll(s.middlewares, r, r.context, ctx);
    ConnectsAll(s.handlers, ctx);
    assert Serve(s, r, gql, order) == ServeConnections(s, r, gql, order, ctx, MiddlewareCalls(0, |s.middlewares|));
  }

  /** The outcome of a request whose `m` middlewares passed and `n` handlers connected:
      the opening events, the schema build, then events of the later stages only; one
      closer deferred per handler. */
  ghost predicate ConnectedOutcome(o: Outcome, m: nat, n: nat, config: SchemaConfig) {
    && BeforeResponse(o.events) && o.deferred == Indices(n)
    && ExtendsLater(o, Opening(m, n))
    && m + n < |o.events| && o.events[m + n] == BuildSchema(config)
  }

  /** The schema stage, entered after the opening events, yields such an outcome. */
  lemma SchemaStageOutcome(s: ServeMux, r: HttpRequest, gql: Graphql, order: Enumerator, ctx: Context,
                           queries: Fields, mutations: Fields, m: nat, n: nat)
    requires IsEnumerator(order)
    ensures ConnectedOutcome(ServeSchema(s, r, gql, order, ctx, queries, mutations, Opening(m, n), Indices(n)),
                             m, n, BuildSchemaConfig(queries, mutations))
  {
  }

  /** In such an outcome each handler's closer runs exactly once. */
  lemma ConnectedCloses(o: Outcome, m: nat, n: nat, config: SchemaConfig, j: nat)
    requires ConnectedOutcome(o, m, n, config)
    ensures multiset(Finish(o).trace)[Close(j)] == if j < n then 1 else 0
  {
    ClosesCounted(o.events, n, j);
  }

  /** In such an outcome the handlers attempted are exactly those registered. */
  lemma ConnectedAttempted(o: Outcome, m: nat, n: nat, config: SchemaConfig, j: nat)
    requires ConnectedOutcome(o, m, n, config)
    ensures ConnectAttempt(j) in Finish(o).trace <==> j < n
  {
    var pre := MiddlewareCalls(0, m) + Attempts(0, n);
    var t := Finish(o).trace;
    var closes := RunDeferred(Indices(n));
    assert t == o.events + [Respond(StatusOK)] + closes;
    assert |pre| == m + n && pre == Opening(m, n);
    if j < n {
      assert t[m + j] == o.events[..m + n][m + j] == pre[m + j] == ConnectAttempt(j);
    } else {
      forall k | 0 <= k < |t| ensures t[k] != ConnectAttempt(j) {
        if k < m {
          assert t[k] == o.events[..m + n][k] == pre[k] == MiddlewareCall(k);
        } else if k < m + n {
          assert t[k] == o.events[..m + n][k] == pre[k] == ConnectAttempt(k - m);
        } else if k < |o.events| {
          assert AfterConnections(o.events[k]);
        } else if k > |o.events| {
          assert t[k] == closes[k - |o.events| - 1] && closes[k - |o.events| - 1] in closes;
        }
      }
    }
  }

  /** Such an outcome starts with the middleware calls, the attempts and the schema build. */
  lemma ConnectedStart(o: Outcome, m: nat, n: nat, config: SchemaConfig)
    requires ConnectedOutcome(o, m, n, config)
    ensures var t := Finish(o).trace;
            && m + n < |t|
            && t[..m + n + 1] == MiddlewareCalls(0, m) + Attempts(0, n) + [BuildSchema(config)]
  {
    var pre := Opening(m, n);
    assert Finish(o).trace[..m + n + 1] == o.events[..m + n + 1] == o.events[..m + n] + [o.events[m + n]];
  }

  /** When every handler connects, the closer of each handler runs exactly once,
      whatever happens after the connection loop. */
  lemma ConnectedClosesOnce(s: ServeMux, r: HttpRequest, gql: Graphql, order: Enumerator, ctx: Context, j: nat)
    requires IsEnumerator(order) && ChainPasses(s, r, ctx) && AllConnect(s, ctx)
    ensures multiset(ServeHTTP(s, r, gql, order).trace)[Close(j)] == if j < |s.handlers| then 1 else 0
  {
    ReachesSchema(s, r, gql, order, ctx);
    SchemaStageOutcome(s, r, gql, order, ctx, RequestFields(s, ctx, QueryFields),
                       RequestFields(s, ctx, MutationFields), |s.middlewares|, |s.handlers|);
    ConnectedCloses(Serve(s, r, gql, order), |s.middlewares|, |s.handlers|, RequestConfig(s, ctx), j);
  }

  /** When every handler connects, each registered handler was asked for a connection,
      and no other. */
  lemma ConnectedAttempts(s: ServeMux, r: HttpRequest, gql: Graphql, order: Enumerator, ctx: Context, j: nat)
    requires IsEnumerator(order) && ChainPasses(s, r, ctx) && AllConnect(s, ctx)
    ensures ConnectAttempt(j) in ServeHTTP(s, r, gql, order).trace <==> j < |s.handlers|
  {
    ReachesSchema(s, r, gql, order, ctx);
    SchemaStageOutcome(s, r, gql, order, ctx, RequestFields(s, ctx, QueryFields),
                       RequestFields(s, ctx, MutationFields), |s.middlewares|, |s.handlers|);
    ConnectedAttempted(Serve(s, r, gql, order), |s.middlewares|, |s.handlers|, RequestConfig(s, ctx), j);
  }

  /** When every handler connects, the request calls the middlewares in order, attempts
      the handlers in registration order, then builds the schema from the merged maps. */
  lemma ConnectedPrefix(s: ServeMux, r: HttpRequest, gql: Graphql, order: Enumerator, ctx: Context)
    requires IsEnumerator(order) && ChainPasses(s, r, ctx) && AllConnect(s, ctx)
    ensures var t := ServeHTTP(s, r, gql, order).trace;
            && |s.middlewares| + |s.handlers| < |t|
            && t[..|s.middlewares| + |s.handlers| + 1]
               == MiddlewareCalls(0, |s.middlewares|) + Attempts(0, |s.handlers|) + [BuildSchema(RequestConfig(s, ctx))]
  {
    ReachesSchema(s, r, gql, order, ctx);
    SchemaStageOutcome(s, r, gql, order, ctx, RequestFields(s, ctx, QueryFields),
                       RequestFields(s, ctx, MutationFields), |s.middlewares|, |s.handlers|);
    ConnectedStart(Serve(s, r, gql, order), |s.middlewares|, |s.handlers|, RequestConfig(s, ctx));
  }

  /** The schema stage when the engine rejects the configuration. */
  lemma SchemaRejected(s: ServeMux, r: HttpRequest, gql: Graphql, order: Enumerator, ctx: Context,
                       queries: Fields, mutations: Fields, ev: seq<Event>, ds: seq<nat>, e: string)
    requires IsEnumerator(order) && BeforeResponse(ev)
    requires gql.newSchema(BuildSchemaConfig(queries, mutations)) == Err(e)
    ensures Finish(ServeSchema(s, r, gql, order, ctx, queries, mutations, ev, ds))
            == Response(StatusOK, Fail(GraphqlError(SchemaErrorMessage(e), SchemaGenerationErrorCode)),
                        ev + [BuildSchema(BuildSchemaConfig(queries, mutations)), Respond(StatusOK)]
                        + RunDeferred(ds))
  {
    var c := BuildSchemaConfig(queries, mutations);
    assert ev + [BuildSchema(c)] + [Respond(StatusOK)] == ev + [BuildSchema(c), Respond(StatusOK)];
  }

  /** A schema the engine rejects ends the request with one SCHEMA_GENERATION_ERROR,
      before the request is parsed or any directive runs. */
  lemma SchemaFailure(s: ServeMux, r: HttpRequest, gql: Graphql, order: Enumerator, ctx: Context, e: string)
    requires IsEnumerator(order) && ChainPasses(s, r, ctx) && AllConnect(s, ctx)
    requires gql.newSchema(RequestConfig(s, ctx)) == Err(e)
    ensures var resp := ServeHTTP(s, r, gql, order);
            && resp.result == ExecResult(None, [GraphqlError("Failed to build schema: " + e,
                                                             "SCHEMA_GENERATION_ERROR")])
            && resp.trace == MiddlewareCalls(0, |s.middlewares|) + Attempts(0, |s.handlers|)
                             + [BuildSchema(RequestConfig(s, ctx)), Respond(200)]
                             + RunDeferred(Indices(|s.handlers|))
  {
    ReachesSchema(s, r, gql, order, ctx);
    SchemaRejected(s, r, gql, order, ctx, RequestFields(s, ctx, QueryFields), RequestFields(s, ctx, MutationFields),
                   Opening(|s.middlewares|, |s.handlers|), Indices(|s.handlers|), e);
  }

  /** The parse stage when the body does not parse. */
  lemma ParseRejected(s: ServeMux, r: HttpRequest, gql: Graphql, order: Enumerator, ctx: Context,
                      queries: Fields, mutations: Fields, ev: seq<Event>, ds: seq<nat>, schema: Schema, e: string)
    requires IsEnumerator(order) && BeforeResponse(ev)
    requires gql.newSchema(BuildSchemaConfig(queries, mutations)) == Ok(schema) && gql.parseRequest(r) == Err(e)
    ensures Finish(ServeSchema(s, r, gql, order, ctx, queries, mutations, ev, ds))
            == Response(StatusOK, Fail(GraphqlError(ParseErrorMessage(e), RequestParseErrorCode)),
                        ev + [BuildSchema(BuildSchemaConfig(queries, mutations)), ParseRequest, Respond(StatusOK)]
                        + RunDeferred(ds))
  {
    var c := BuildSchemaConfig(queries, mutations);
    assert ev + [BuildSchema(c)] + [ParseRequest] + [Respond(StatusOK)]
           == ev + [BuildSchema(c), ParseRequest, Respond(StatusOK)];
  }

  /** A body that does not parse ends the request with one REQUEST_PARSE_ERROR, after the
      schema was built and before any directive runs. */
  lemma ParseFailure(s: ServeMux, r: HttpRequest, gql: Graphql, order: Enumerator, ctx: Context,
                     schema: Schema, e: string)
    requires IsEnumerator(order) && ChainPasses(s, r, ctx) && AllConnect(s, ctx)
    requires gql.newSchema(RequestConfig(s, ctx)) == Ok(schema) && gql.parseRequest(r) == Err(e)
    ensures var resp := ServeHTTP(s, r, gql, order);
            && resp.result == ExecResult(None, [GraphqlError("Failed to parse request: " + e,
                                                             "REQUEST_PARSE_ERROR")])
            && resp.trace == MiddlewareCalls(0, |s.middlewares|) + Attempts(0, |s.handlers|)
                             + [BuildSchema(RequestConfig(s, ctx)), ParseRequest, Respond(200)]
                             + RunDeferred(Indices(|s.handlers|))
  {
    ReachesSchema(s, r, gql, order, ctx);
    ParseRejected(s, r, gql, order, ctx, RequestFields(s, ctx, QueryFields), RequestFields(s, ctx, MutationFields),
                  Opening(|s.middlewares|, |s.handlers|), Indices(|s.handlers|), schema, e);
  }

  /** The request is parsed only after every middleware passed, every handler connected
      and the schema was built; so a malformed body never masks an earlier failure. */
  lemma ParseComesLate(s: ServeMux, r: HttpRequest, gql: Graphql, order: Enumerator)
    requires IsEnumerator(order)
    ensures ParseRequest in ServeHTTP(s, r, gql, order).trace ==>
              exists ctx :: ChainPasses(s, r, ctx) && AllConnect(s, ctx)
                            && gql.newSchema(RequestConfig(s, ctx)).Ok?
  {
    var o := Serve(s, r, gql, order);
    InEvents(o, ParseRequest);
    PassedIff(s.middlewares, r, r.context);
    var mw := RunMiddlewares(s.middlewares, r, 0, r.context);
    if mw.Passed? {
      var ctx := mw.ctx;
      ConnectedIff(s.handlers, ctx);
      var conn := ConnectHandlers(s.handlers, ctx, 0, map[], map[]);
      assert o == ServeConnections(s, r, gql, order, ctx, mw.events);
      if conn.Connected? {
        ConnectsAll(s.handlers, ctx);
        var pre := mw.events + conn.events;
        assert o == ServeSchema(s, r, gql, order, ctx, conn.queries, conn.mutations, pre, conn.deferred);
        if gql.newSchema(RequestConfig(s, ctx)).Err? {
          assert o.events == pre + [BuildSchema(RequestConfig(s, ctx))];
          assert ParseRequest !in pre;
        }
      } else {
        assert ParseRequest !in o.events;
      }
    } else {
      assert ParseRequest !in o.events;
    }
  }

  // ---------------------------------------------------------------- directives and execution

  /** The events a request causes before its directive stage. */
  predicate BeforeDirectives(e: Event) {
    e.MiddlewareCall? || e.ConnectAttempt? || e.BuildSchema? || e.ParseRequest?
  }

  /** The events of a request that got past parsing, before its directive stage. */
  function Prelude(m: nat, n: nat, config: SchemaConfig): (ev: seq<Event>)
    ensures forall e :: e in ev ==> BeforeDirectives(e)
    ensures BeforeResponse(ev)
  {
    Opening(m, n) + [BuildSchema(config), ParseRequest]
  }

  /** A request that gets past parsing reaches the directive stage with the merged maps. */
  lemma ReachesDirectives(s: ServeMux, r: HttpRequest, gql: Graphql, order: Enumerator, ctx: Context,
                          schema: Schema, req: GraphqlRequest)
    requires IsEnumerator(order) && ChainPasses(s, r, ctx) && AllConnect(s, ctx)
    requires gql.newSchema(RequestConfig(s, ctx)) == Ok(schema) && gql.parseRequest(r) == Ok(req)
    ensures Serve(s, r, gql, order)
            == ServeDirectives(s, r, gql, order, ctx, RequestFields(s, ctx, QueryFields),
                               RequestFields(s, ctx, MutationFields), schema, req,
                               Prelude(|s.middlewares|, |s.handlers|, RequestConfig(s, ctx)),
                               Indices(|s.handlers|))
  {
    ReachesSchema(s, r, gql, order, ctx);
    var ev := Opening(|s.middlewares|, |s.handlers|);
    assert ev + [BuildSchema(RequestConfig(s, ctx))] + [ParseRequest]
           == Prelude(|s.middlewares|, |s.handlers|, RequestConfig(s, ctx));
  }

  /** A request stopped by a directive never executes its query. */
  lemma DirectiveFailedTrace(pre: seq<Event>, dev: seq<Event>, ds: seq<nat>, result: ExecResult)
    requires forall e :: e in pre ==> BeforeDirectives(e)
    requires forall e :: e in dev ==> e.DirectiveCall?
    ensures Execute !in Finish(Outcome(pre + dev, ds, result)).trace
  {
    var closes := RunDeferred(ds);
    assert Finish(Outcome(pre + dev, ds, result)).trace == pre + dev + [Respond(StatusOK)] + closes;
    assert Execute !in pre && Execute !in dev && Execute !in closes;
  }

  /** The events after the directive stage of a request that passed it. */
  predicate AfterDirectives(e: Event) {
    e.ObserveErrors? || e.Respond? || e.Close?
  }

  /** A request that passed its directives executes its query once. */
  lemma ExecutesOnce(pre: seq<Event>, dev: seq<Event>, rest: seq<Event>)
    requires forall e :: e in pre ==> BeforeDirectives(e)
    requires forall e :: e in dev ==> e.DirectiveCall?
    requires forall e :: e in rest ==> AfterDirectives(e)
    ensures multiset(pre + dev + [Execute] + rest)[Execute] == 1
  {
    assert Execute !in pre + dev;
    CountAbsent(pre + dev, [Execute], rest, Execute);
  }

  /** Only the directive stage calls directives. */
  lemma DirectiveCallsKept(pre: seq<Event>, dev: seq<Event>, rest: seq<Event>, m: string, d: string)
    requires forall e :: e in pre ==> BeforeDirectives(e)
    requires forall e :: e in rest ==> AfterDirectives(e)
    ensures multiset(pre + dev + [Execute] + rest)[DirectiveCall(m, d)] == multiset(dev)[DirectiveCall(m, d)]
  {
    var x := DirectiveCall(m, d);
    assert x !in pre;
    assert x !in [Execute] + rest;
    assert pre + dev + [Execute] + rest == pre + dev + ([Execute] + rest);
    CountAbsent(pre, dev, [Execute] + rest, x);
  }

  /** The error observer runs iff the engine reported errors, and it is the configured
      one exactly when an `ErrorHandler` was set. */
  lemma ObservedIff(pre: seq<Event>, dev: seq<Event>, s: ServeMux, result: ExecResult, closes: seq<Event>, b: bool)
    requires forall e :: e in pre ==> BeforeDirectives(e)
    requires forall e :: e in dev ==> e.DirectiveCall?
    requires forall e :: e in closes ==> e.Close?
    ensures ObserveErrors(b) in pre + dev + [Execute] + Observe(s, result) + [Respond(StatusOK)] + closes
            <==> |result.errors| > 0 && b == s.hasErrorHandler
  {
    assert ObserveErrors(b) !in pre && ObserveErrors(b) !in dev && ObserveErrors(b) !in closes;
  }

  /** Events absent from `a` and `c` are counted in `a + b + c` as in `b`. */
  lemma CountAbsent(a: seq<Event>, b: seq<Event>, c: seq<Event>, x: Event)
    requires x !in a && x !in c
    ensures multiset(a + b + c)[x] == multiset(b)[x]
  {
    assert multiset(a + b + c) == multiset(a) + multiset(b) + multiset(c);
  }

  /** The directive stage when the dispatch fails: the first failure is the outcome. */
  lemma FailedShape(s: ServeMux, r: HttpRequest, gql: Graphql, order: Enumerator, ctx: Context,
                    queries: Fields, mutations: Fields, schema: Schema, req: GraphqlRequest,
                    pre: seq<Event>, ds: seq<nat>)
    requires IsEnumerator(order) && BeforeResponse(pre)
    requires Dispatch(s.graphQLMiddlewares, MethodNames(queries, mutations, order), req.query, ctx, r, order).DirectiveFailed?
    ensures var dispatch := Dispatch(s.graphQLMiddlewares, MethodNames(queries, mutations, order), req.query, ctx, r, order);
            ServeDirectives(s, r, gql, order, ctx, queries, mutations, schema, req, pre, ds)
            == Outcome(pre + dispatch.events, ds, Fail(Classify(dispatch.failure, DirectiveMiddlewareErrorCode)))
  {
  }

  /** The directive stage when a due directive fails. */
  lemma DirectiveStageFailure(s: ServeMux, r: HttpRequest, gql: Graphql, order: Enumerator, ctx: Context,
                              queries: Fields, mutations: Fields, schema: Schema, req: GraphqlRequest,
                              pre: seq<Event>, ds: seq<nat>, m0: string, d0: string)
    requires IsEnumerator(order)
    requires BeforeResponse(pre) && forall e :: e in pre ==> BeforeDirectives(e)
    requires m0 in queries || m0 in mutations
    requires Applies(s.graphQLMiddlewares, req.query, m0, d0)
    requires s.graphQLMiddlewares[m0][d0](ctx, r, m0).Some?
    ensures var resp := Finish(ServeDirectives(s, r, gql, order, ctx, queries, mutations, schema, req, pre, ds));
            && Execute !in resp.trace
            && resp.result.data.None?
            && exists m, d, f ::
                 && (m in queries || m in mutations)
                 && Applies(s.graphQLMiddlewares, req.query, m, d)
                 && s.graphQLMiddlewares[m][d](ctx, r, m) == Some(f)
                 && resp.result.errors == [if f.MiddlewareError? then GraphqlError(f.message, f.code)
                                           else GraphqlError(f.text, "DIRECTIVE_MIDDLEWARE_ERROR")]
  {
    var dirs := s.graphQLMiddlewares;
    DispatchFails(dirs, queries, mutations, req.query, ctx, r, order, m0, d0);
    var dispatch := Dispatch(dirs, MethodNames(queries, mutations, order), req.query, ctx, r, order);
    var f := dispatch.failure;
    var m, d :| (m in queries || m in mutations) && Applies(dirs, req.query, m, d) && dirs[m][d](ctx, r, m) == Some(f);
    FailedShape(s, r, gql, order, ctx, queries, mutations, schema, req, pre, ds);
    DirectiveRejected(pre, dispatch.events, ds, f);
  }

  /** A failing due directive makes the dispatch fail, with the error of some due directive. */
  lemma DispatchFails(dirs: DirectiveMap, queries: Fields, mutations: Fields, query: string,
                      ctx: Context, r: HttpRequest, order: Enumerator, m0: string, d0: string)
    requires IsEnumerator(order)
    requires (m0 in queries || m0 in mutations) && Applies(dirs, query, m0, d0)
    requires dirs[m0][d0](ctx, r, m0).Some?
    ensures var dispatch := Dispatch(dirs, MethodNames(queries, mutations, order), query, ctx, r, order);
            && dispatch.DirectiveFailed?
            && exists m, d :: (m in queries || m in mutations) && Applies(dirs, query, m, d)
                              && dirs[m][d](ctx, r, m) == Some(dispatch.failure)
  {
    MethodDirectivesPassIff(dirs, queries, mutations, query, ctx, r, order);
    MethodDirectivesFailure(dirs, queries, mutations, query, ctx, r, order);
  }

  /** A request stopped by directive failure `f` reports it alone and never executes. */
  lemma DirectiveRejected(pre: seq<Event>, dev: seq<Event>, ds: seq<nat>, f: Failure)
    requires forall e :: e in pre ==> BeforeDirectives(e)
    requires forall e :: e in dev ==> e.DirectiveCall?
    ensures var resp := Finish(Outcome(pre + dev, ds, Fail(Classify(f, DirectiveMiddlewareErrorCode))));
            && Execute !in resp.trace
            && resp.result.data.None?
            && resp.result.errors == [if f.MiddlewareError? then GraphqlError(f.message, f.code)
                                      else GraphqlError(f.text, "DIRECTIVE_MIDDLEWARE_ERROR")]
  {
    DirectiveFailedTrace(pre, dev, ds, Fail(Classify(f, DirectiveMiddlewareErrorCode)));
  }

  /** A due directive that fails ends the request with one error — its own code and
      message for a `*MiddlewareError`, DIRECTIVE_MIDDLEWARE_ERROR and its text otherwise —
      and the query is never executed. */
  lemma DirectiveFailure(s: ServeMux, r: HttpRequest, gql: Graphql, order: Enumerator, ctx: Context,
                         schema: Schema, req: GraphqlRequest, m0: string, d0: string)
    requires IsEnumerator(order) && ChainPasses(s, r, ctx) && AllConnect(s, ctx)
    requires gql.newSchema(RequestConfig(s, ctx)) == Ok(schema) && gql.parseRequest(r) == Ok(req)
    requires m0 in RequestFields(s, ctx, QueryFields) || m0 in RequestFields(s, ctx, MutationFields)
    requires Applies(s.graphQLMiddlewares, req.query, m0, d0)
    requires s.graphQLMiddlewares[m0][d0](ctx, r, m0).Some?
    ensures var resp := ServeHTTP(s, r, gql, order);
            && Execute !in resp.trace
            && resp.result.data.None?
            && exists m, d, f ::
                 && (m in RequestFields(s, ctx, QueryFields) || m in RequestFields(s, ctx, MutationFields))
                 && Applies(s.graphQLMiddlewares, req.query, m, d)
                 && s.graphQLMiddlewares[m][d](ctx, r, m) == Some(f)
                 && resp.result.errors == [if f.MiddlewareError? then GraphqlError(f.message, f.code)
                                           else GraphqlError(f.text, "DIRECTIVE_MIDDLEWARE_ERROR")]
  {
    ReachesDirectives(s, r, gql, order, ctx, schema, req);
    DirectiveStageFailure(s, r, gql, order, ctx, RequestFields(s, ctx, QueryFields),
                          RequestFields(s, ctx, MutationFields), schema, req,
                          Prelude(|s.middlewares|, |s.handlers|, RequestConfig(s, ctx)), Indices(|s.handlers|), m0, d0);
  }

  /** The directive calls of trace `t` stop at error `f`: some call returned it, every
      directive called before it returned no error, and no directive is called after it. */
  ghost predicate DirectivesStopAt(dirs: DirectiveMap, t: seq<Event>, ctx: Context, r: HttpRequest, f: Failure) {
    exists i ::
      && 0 <= i < |t|
      && CallFails(dirs, t[i], ctx, r, f)
      && (forall k :: 0 <= k < i && t[k].DirectiveCall? ==> CallPasses(dirs, t[k], ctx, r))
      && (forall k :: i < k < |t| ==> !t[k].DirectiveCall?)
  }

  /** Dispatch calls that stop at `f`, placed after the events before the directive stage,
      are the directive calls of the finished trace, and they stop at `f` there too. */
  lemma StopsInTrace(pre: seq<Event>, dev: seq<Event>, ds: seq<nat>, result: ExecResult,
                     dirs: DirectiveMap, ctx: Context, r: HttpRequest, f: Failure)
    requires forall e :: e in pre ==> BeforeDirectives(e)
    requires StopsAt(dirs, dev, ctx, r, f)
    ensures DirectivesStopAt(dirs, Finish(Outcome(pre + dev, ds, result)).trace, ctx, r, f)
  {
    var closes := RunDeferred(ds);
    var t := Finish(Outcome(pre + dev, ds, result)).trace;
    assert t == pre + dev + [Respond(StatusOK)] + closes;
    var i := |pre| + |dev| - 1;
    assert t[i] == dev[|dev| - 1];
    forall k | 0 <= k < i ensures t[k].DirectiveCall? ==> CallPasses(dirs, t[k], ctx, r) {
      if k < |pre| {
        assert t[k] == pre[k] && pre[k] in pre;
      } else {
        assert t[k] == dev[k - |pre|];
      }
    }
    forall k | i < k < |t| ensures !t[k].DirectiveCall? {
      if k > i + 1 {
        assert t[k] == closes[k - i - 2] && closes[k - i - 2] in closes;
      }
    }
  }

  /** Every directive call of a finished trace is one of the directive stage's calls. */
  lemma CallsInTrace(pre: seq<Event>, dev: seq<Event>, ds: seq<nat>, result: ExecResult)
    requires forall e :: e in pre ==> BeforeDirectives(e)
    ensures forall e :: e in Finish(Outcome(pre + dev, ds, result)).trace && e.DirectiveCall? ==> e in dev
  {
    var closes := RunDeferred(ds);
    assert Finish(Outcome(pre + dev, ds, result)).trace == pre + dev + [Respond(StatusOK)] + closes;
  }

  /** The directive stage when a due directive fails: the error reported is the one the
      directive calls stop at, and every directive called was due. */
  lemma DirectiveStageStops(s: ServeMux, r: HttpRequest, gql: Graphql, order: Enumerator, ctx: Context,
                            queries: Fields, mutations: Fields, schema: Schema, req: GraphqlRequest,
                            pre: seq<Event>, ds: seq<nat>, m0: string, d0: string)
    requires IsEnumerator(order)
    requires BeforeResponse(pre) && forall e :: e in pre ==> BeforeDirectives(e)
    requires m0 in queries || m0 in mutations
    requires Applies(s.graphQLMiddlewares, req.query, m0, d0)
    requires s.graphQLMiddlewares[m0][d0](ctx, r, m0).Some?
    ensures var resp := Finish(ServeDirectives(s, r, gql, order, ctx, queries, mutations, schema, req, pre, ds));
            && (exists f :: resp.result.errors == [Classify(f, DirectiveMiddlewareErrorCode)]
                            && DirectivesStopAt(s.graphQLMiddlewares, resp.trace, ctx, r, f))
            && forall e :: e in resp.trace && e.DirectiveCall? ==>
                 (e.methodName in queries || e.methodName in mutations)
                 && Applies(s.graphQLMiddlewares, req.query, e.methodName, e.directive)
  {
    var dirs := s.graphQLMiddlewares;
    DispatchFails(dirs, queries, mutations, req.query, ctx, r, order, m0, d0);
    var dispatch := Dispatch(dirs, MethodNames(queries, mutations, order), req.query, ctx, r, order);
    var f := dispatch.failure;
    FailedShape(s, r, gql, order, ctx, queries, mutations, schema, req, pre, ds);
    DispatchStops(dirs, MethodNames(queries, mutations, order), req.query, ctx, r, order);
    MethodDirectivesDue(dirs, queries, mutations, req.query, ctx, r, order);
    StopsInTrace(pre, dispatch.events, ds, Fail(Classify(f, DirectiveMiddlewareErrorCode)), dirs, ctx, r, f);
    CallsInTrace(pre, dispatch.events, ds, Fail(Classify(f, DirectiveMiddlewareErrorCode)));
  }

  /** When a due directive fails, dispatch stops at the first failing directive: the
      request's one error is that directive's, every directive called before it returned
      no error, no directive is called after it, and every directive called was due for
      a merged query or mutation field. */
  lemma DirectiveFailureStops(s: ServeMux, r: HttpRequest, gql: Graphql, order: Enumerator, ctx: Context,
                              schema: Schema, req: GraphqlRequest, m0: string, d0: string)
    requires IsEnumerator(order) && ChainPasses(s, r, ctx) && AllConnect(s, ctx)
    requires gql.newSchema(RequestConfig(s, ctx)) == Ok(schema) && gql.parseRequest(r) == Ok(req)
    requires m0 in RequestFields(s, ctx, QueryFields) || m0 in RequestFields(s, ctx, MutationFields)
    requires Applies(s.graphQLMiddlewares, req.query, m0, d0)
    requires s.graphQLMiddlewares[m0][d0](ctx, r, m0).Some?
    ensures var resp := ServeHTTP(s, r, gql, order);
            && (exists f :: resp.result.errors == [Classify(f, DirectiveMiddlewareErrorCode)]
                            && DirectivesStopAt(s.graphQLMiddlewares, resp.trace, ctx, r, f))
            && forall e :: e in resp.trace && e.DirectiveCall? ==>
                 (e.methodName in RequestFields(s, ctx, QueryFields) || e.methodName in RequestFields(s, ctx, MutationFields))
                 && Applies(s.graphQLMiddlewares, req.query, e.methodName, e.directive)
  {
    ReachesDirectives(s, r, gql, order, ctx, schema, req);
    DirectiveStageStops(s, r, gql, order, ctx, RequestFields(s, ctx, QueryFields),
                        RequestFields(s, ctx, MutationFields), schema, req,
                        Prelude(|s.middlewares|, |s.handlers|, RequestConfig(s, ctx)), Indices(|s.handlers|), m0, d0);
  }

  /** The directive stage when no due directive fails: the prelude, the directive calls,
      one execution, the observer when there are errors, the response and the closers. */
  lemma PassedShape(s: ServeMux, r: HttpRequest, gql: Graphql, order: Enumerator, ctx: Context,
                    queries: Fields, mutations: Fields, schema: Schema, req: GraphqlRequest,
                    pre: seq<Event>, ds: seq<nat>)
    requires IsEnumerator(order) && BeforeResponse(pre)
    requires forall m, d :: (m in queries || m in mutations) && Applies(s.graphQLMiddlewares, req.query, m, d)
                            ==> s.graphQLMiddlewares[m][d](ctx, r, m).None?
    ensures var dispatch := Dispatch(s.graphQLMiddlewares, MethodNames(queries, mutations, order), req.query, ctx, r, order);
            var result := gql.execute(schema, req, ctx);
            && dispatch.DirectivesPassed?
            && Finish(ServeDirectives(s, r, gql, order, ctx, queries, mutations, schema, req, pre, ds))
               == Response(StatusOK, result, pre + dispatch.events + [Execute]
                                             + (Observe(s, result) + [Respond(StatusOK)] + RunDeferred(ds)))
  {
    PassedOutcome(s, r, gql, order, ctx, queries, mutations, schema, req, pre, ds);
    var result := gql.execute(schema, req, ctx);
    var dispatch := Dispatch(s.graphQLMiddlewares, MethodNames(queries, mutations, order), req.query, ctx, r, order);
    FinishRegrouped(pre + dispatch.events + [Execute], Observe(s, result), ds, result);
  }

  /** The outcome of the directive stage when no due directive fails. */
  lemma PassedOutcome(s: ServeMux, r: HttpRequest, gql: Graphql, order: Enumerator, ctx: Context,
                      queries: Fields, mutations: Fields, schema: Schema, req: GraphqlRequest,
                      pre: seq<Event>, ds: seq<nat>)
    requires IsEnumerator(order) && BeforeResponse(pre)
    requires forall m, d :: (m in queries || m in mutations) && Applies(s.graphQLMiddlewares, req.query, m, d)
                            ==> s.graphQLMiddlewares[m][d](ctx, r, m).None?
    ensures var dispatch := Dispatch(s.graphQLMiddlewares, MethodNames(queries, mutations, order), req.query, ctx, r, order);
            var result := gql.execute(schema, req, ctx);
            && dispatch.DirectivesPassed?
            && ServeDirectives(s, r, gql, order, ctx, queries, mutations, schema, req, pre, ds)
               == Outcome(pre + dispatch.events + [Execute] + Observe(s, result), ds, result)
  {
    MethodDirectivesPassIff(s.graphQLMiddlewares, queries, mutations, req.query, ctx, r, order);
  }

  /** The trace of a finished outcome, with the stage's own tail grouped with the response. */
  lemma FinishRegrouped(x: seq<Event>, tail: seq<Event>, ds: seq<nat>, result: ExecResult)
    ensures Finish(Outcome(x + tail, ds, result))
            == Response(StatusOK, result, x + (tail + [Respond(StatusOK)] + RunDeferred(ds)))
  {
    assert x + tail + [Respond(StatusOK)] + RunDeferred(ds) == x + (tail + [Respond(StatusOK)] + RunDeferred(ds));
  }

  /** The events after the directive stage of a passed request. */
  lemma RestAfterDirectives(s: ServeMux, result: ExecResult, ds: seq<nat>)
    ensures forall e :: e in Observe(s, result) + [Respond(StatusOK)] + RunDeferred(ds) ==> AfterDirectives(e)
  {
    var closes := RunDeferred(ds);
    forall e | e in Observe(s, result) + [Respond(StatusOK)] + closes ensures AfterDirectives(e) {
      if e in closes {
        assert e.Close?;
      }
    }
  }

  /** When no due directive fails, the query is executed once and its result is the response. */
  lemma DirectiveStageExecutes(s: ServeMux, r: HttpRequest, gql: Graphql, order: Enumerator, ctx: Context,
                               queries: Fields, mutations: Fields, schema: Schema, req: GraphqlRequest,
                               nm: nat, nh: nat, config: SchemaConfig, ds: seq<nat>)
    requires IsEnumerator(order)
    requires forall m, d :: (m in queries || m in mutations) && Applies(s.graphQLMiddlewares, req.query, m, d)
                            ==> s.graphQLMiddlewares[m][d](ctx, r, m).None?
    ensures var resp := Finish(ServeDirectives(s, r, gql, order, ctx, queries, mutations, schema, req,
                                               Prelude(nm, nh, config), ds));
            && resp.result == gql.execute(schema, req, ctx)
            && multiset(resp.trace)[Execute] == 1
  {
    var pre := Prelude(nm, nh, config);
    PassedShape(s, r, gql, order, ctx, queries, mutations, schema, req, pre, ds);
    var dispatch := Dispatch(s.graphQLMiddlewares, MethodNames(queries, mutations, order), req.query, ctx, r, order);
    RestAfterDirectives(s, gql.execute(schema, req, ctx), ds);
    ExecutesOnce(pre, dispatch.events, Observe(s, gql.execute(schema, req, ctx)) + [Respond(StatusOK)] + RunDeferred(ds));
  }

  /** When no due directive fails, each due directive ran once per map that defines its
      method, and no other directive ran. */
  lemma DirectiveStageCalls(s: ServeMux, r: HttpRequest, gql: Graphql, order: Enumerator, ctx: Context,
                            queries: Fields, mutations: Fields, schema: Schema, req: GraphqlRequest,
                            nm: nat, nh: nat, config: SchemaConfig, ds: seq<nat>, m: string, d: string)
    requires IsEnumerator(order)
    requires forall m, d :: (m in queries || m in mutations) && Applies(s.graphQLMiddlewares, req.query, m, d)
                            ==> s.graphQLMiddlewares[m][d](ctx, r, m).None?
    ensures var resp := Finish(ServeDirectives(s, r, gql, order, ctx, queries, mutations, schema, req,
                                               Prelude(nm, nh, config), ds));
            multiset(resp.trace)[DirectiveCall(m, d)]
            == if Applies(s.graphQLMiddlewares, req.query, m, d)
               then (if m in queries then 1 else 0) + (if m in mutations then 1 else 0)
               else 0
  {
    var pre := Prelude(nm, nh, config);
    PassedShape(s, r, gql, order, ctx, queries, mutations, schema, req, pre, ds);
    var dispatch := Dispatch(s.graphQLMiddlewares, MethodNames(queries, mutations, order), req.query, ctx, r, order);
    RestAfterDirectives(s, gql.execute(schema, req, ctx), ds);
    DirectiveCallsKept(pre, dispatch.events, Observe(s, gql.execute(schema, req, ctx)) + [Respond(StatusOK)] + RunDeferred(ds), m, d);
    MethodDirectivesCalls(s.graphQLMiddlewares, queries, mutations, req.query, ctx, r, order, m, d);
  }

  /** When no due directive fails, the error observer ran iff the engine reported errors. */
  lemma DirectiveStageObserves(s: ServeMux, r: HttpRequest, gql: Graphql, order: Enumerator, ctx: Context,
                               queries: Fields, mutations: Fields, schema: Schema, req: GraphqlRequest,
                               nm: nat, nh: nat, config: SchemaConfig, ds: seq<nat>, b: bool)
    requires IsEnumerator(order)
    requires forall m, d :: (m in queries || m in mutations) && Applies(s.graphQLMiddlewares, req.query, m, d)
                            ==> s.graphQLMiddlewares[m][d](ctx, r, m).None?
    ensures var resp := Finish(ServeDirectives(s, r, gql, order, ctx, queries, mutations, schema, req,
                                               Prelude(nm, nh, config), ds));
            ObserveErrors(b) in resp.trace <==> |resp.result.errors| > 0 && b == s.hasErrorHandler
  {
    var pre := Prelude(nm, nh, config);
    PassedShape(s, r, gql, order, ctx, queries, mutations, schema, req, pre, ds);
    var dispatch := Dispatch(s.graphQLMiddlewares, MethodNames(queries, mutations, order), req.query, ctx, r, order);
    var result := gql.execute(schema, req, ctx);
    var closes := RunDeferred(ds);
    assert pre + dispatch.events + [Execute] + (Observe(s, result) + [Respond(StatusOK)] + closes)
           == pre + dispatch.events + [Execute] + Observe(s, result) + [Respond(StatusOK)] + closes;
    ObservedIff(pre, dispatch.events, s, result, closes, b);
  }

  /** Every due directive of the request, over the merged maps, passes. */
  ghost predicate DirectivesPass(s: ServeMux, r: HttpRequest, ctx: Context, req: GraphqlRequest) {
    forall m, d ::
      (m in RequestFields(s, ctx, QueryFields) || m in RequestFields(s, ctx, MutationFields))
      && Applies(s.graphQLMiddlewares, req.query, m, d)
      ==> s.graphQLMiddlewares[m][d](ctx, r, m).None?
  }

  /** When no due directive fails, the query is executed once with the threaded context
      and its result is the response. */
  lemma Executed(s: ServeMux, r: HttpRequest, gql: Graphql, order: Enumerator, ctx: Context,
                 schema: Schema, req: GraphqlRequest)
    requires IsEnumerator(order) && ChainPasses(s, r, ctx) && AllConnect(s, ctx)
    requires gql.newSchema(RequestConfig(s, ctx)) == Ok(schema) && gql.parseRequest(r) == Ok(req)
    requires DirectivesPass(s, r, ctx, req)
    ensures var resp := ServeHTTP(s, r, gql, order);
            && resp.result == gql.execute(schema, req, ctx)
            && multiset(resp.trace)[Execute] == 1
  {
    ReachesDirectives(s, r, gql, order, ctx, schema, req);
    DirectiveStageExecutes(s, r, gql, order, ctx, RequestFields(s, ctx, QueryFields),
                           RequestFields(s, ctx, MutationFields), schema, req,
                           |s.middlewares|, |s.handlers|, RequestConfig(s, ctx), Indices(|s.handlers|));
  }

  /** When no due directive fails, each due directive ran once per map that defines its
      method (twice for a name that is both a query and a mutation), and no other
      directive ran. */
  lemma DirectiveCalls(s: ServeMux, r: HttpRequest, gql: Graphql, order: Enumerator, ctx: Context,
                       schema: Schema, req: GraphqlRequest, m: string, d: string)
    requires IsEnumerator(order) && ChainPasses(s, r, ctx) && AllConnect(s, ctx)
    requires gql.newSchema(RequestConfig(s, ctx)) == Ok(schema) && gql.parseRequest(r) == Ok(req)
    requires DirectivesPass(s, r, ctx, req)
    ensures multiset(ServeHTTP(s, r, gql, order).trace)[DirectiveCall(m, d)]
            == if Applies(s.graphQLMiddlewares, req.query, m, d)
               then (if m in RequestFields(s, ctx, QueryFields) then 1 else 0)
                    + (if m in RequestFields(s, ctx, MutationFields) then 1 else 0)
               else 0
  {
    ReachesDirectives(s, r, gql, order, ctx, schema, req);
    DirectiveStageCalls(s, r, gql, order, ctx, RequestFields(s, ctx, QueryFields),
                        RequestFields(s, ctx, MutationFields), schema, req,
                        |s.middlewares|, |s.handlers|, RequestConfig(s, ctx), Indices(|s.handlers|), m, d);
  }

  /** When no due directive fails, the error observer runs iff the engine reported errors,
      and it is the configured one exactly when an error handler was set. */
  lemma ErrorsObserved(s: ServeMux, r: HttpRequest, gql: Graphql, order: Enumerator, ctx: Context,
                       schema: Schema, req: GraphqlRequest, b: bool)
    requires IsEnumerator(order) && ChainPasses(s, r, ctx) && AllConnect(s, ctx)
    requires gql.newSchema(RequestConfig(s, ctx)) == Ok(schema) && gql.parseRequest(r) == Ok(req)
    requires DirectivesPass(s, r, ctx, req)
    ensures var resp := ServeHTTP(s, r, gql, order);
            ObserveErrors(b) in resp.trace <==> |resp.result.errors| > 0 && b == s.hasErrorHandler
  {
    ReachesDirectives(s, r, gql, order, ctx, schema, req);
    DirectiveStageObserves(s, r, gql, order, ctx, RequestFields(s, ctx, QueryFields),
                           RequestFields(s, ctx, MutationFields), schema, req,
                           |s.middlewares|, |s.handlers|, RequestConfig(s, ctx), Indices(|s.handlers|), b);
  }

  // ---------------------------------------------------------------- the merged schema

  /** At request time a field name is in the merged map iff some handler defines it on its
      connection, and it carries the definition of the last handler that does. */
  lemma RequestFieldsLastWriteWins(s: ServeMux, ctx: Context, kind: FieldKind, k: string, i: nat)
    requires i < |s.handlers| && k in ConnFields(s.handlers[i], ctx, kind)
    requires forall j :: i < j < |s.handlers| ==> k !in ConnFields(s.handlers[j], ctx, kind)
    ensures k in RequestFields(s, ctx, kind)
    ensures RequestFields(s, ctx, kind)[k] == ConnFields(s.handlers[i], ctx, kind)[k]
  {
    var fs := FieldMaps(s.handlers, ctx, kind, |s.handlers|);
    LastWriteWins(fs, k, i);
  }

  /** The Query root is present at request time iff some handler contributes a query
      field, and likewise the Mutation root. */
  lemma RequestRoots(s: ServeMux, ctx: Context)
    ensures RequestConfig(s, ctx).query.Some?
            <==> exists j :: 0 <= j < |s.handlers| && |ConnFields(s.handlers[j], ctx, QueryFields)| > 0
    ensures RequestConfig(s, ctx).mutation.Some?
            <==> exists j :: 0 <= j < |s.handlers| && |ConnFields(s.handlers[j], ctx, MutationFields)| > 0
  {
    RootPresentIff(s, ctx, QueryFields);
    RootPresentIff(s, ctx, MutationFields);
  }

  lemma RootPresentIff(s: ServeMux, ctx: Context, kind: FieldKind)
    ensures |RequestFields(s, ctx, kind)| > 0
            <==> exists j :: 0 <= j < |s.handlers| && |ConnFields(s.handlers[j], ctx, kind)| > 0
  {
    var fs := FieldMaps(s.handlers, ctx, kind, |s.handlers|);
    var merged := RequestFields(s, ctx, kind);
    if |merged| > 0 {
      var k :| k in merged;
      MergedKeys(fs, k);
      var j :| 0 <= j < |fs| && k in fs[j];
      assert |ConnFields(s.handlers[j], ctx, kind)| > 0;
    }
    if j :| 0 <= j < |s.handlers| && |ConnFields(s.handlers[j], ctx, kind)| > 0 {
      var k :| k in ConnFields(s.handlers[j], ctx, kind);
      assert k in fs[j];
      MergedKeys(fs, k);
    }
  }

  // ---------------------------------------------------------------- registration and requests

  /** A handler registered alone, whose fields do not depend on the connection, fails
      validation exactly when every request that reaches schema building fails with
      SCHEMA_GENERATION_ERROR: registration catches at startup what requests would hit. */
  lemma ValidationPredictsRequests(s: ServeMux, h: Handler, gql: Graphql, ctx: Context)
    requires s.handlers == [h]
    requires h.createConnection(ctx).Ok?
    requires h.getQueries(Some(h.createConnection(ctx).value)) == h.getQueries(None)
    requires h.getMutations(Some(h.createConnection(ctx).value)) == h.getMutations(None)
    requires |h.getQueries(None)| > 0 || |h.getMutations(None)| > 0
    ensures ValidateHandler(h, gql).err.Some? <==> gql.newSchema(RequestConfig(s, ctx)).Err?
  {
    var fq := FieldMaps(s.handlers, ctx, QueryFields, 1);
    var fm := FieldMaps(s.handlers, ctx, MutationFields, 1);
    assert fq == [map[]][..0] + [h.getQueries(None)];
    assert fm == [map[]][..0] + [h.getMutations(None)];
    assert MergeAll(fq) == h.getQueries(None);
    assert MergeAll(fm) == h.getMutations(None);
  }
}
