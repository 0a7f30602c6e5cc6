# grpc-graphql-gateway runtime: a Dafny model of `ServeMux`

This project models the request pipeline of the gateway runtime (`runtime/mux.go`).
A `ServeMux` holds four things:

- global middlewares;
- per-method directive middlewares;
- registered gRPC-backed GraphQL handlers;
- an optional error handler.

Each HTTP request goes through these stages, in this order:

1. It threads its context through the middlewares.
2. It opens one connection per handler, merging each handler's query and mutation fields.
3. It builds a schema from the merged maps.
4. It parses the body.
5. It runs the directives of every method whose name occurs in the query text.
6. It executes the query and reports engine errors to the error observer.

The first failing stage answers with a single error envelope. Every answer has status 200. The closers deferred by the connection loop run after the answer is written.

The model is pure and functional:

- Registration operations return the updated registry (`Registry`).
- A request is a function from the registry, the request and the graphql-go collaborators to a `Response`: status, result and a trace of observable events (`Pipeline.ServeHTTP`).
- Go's `defer` is a stack of closer indices that is unwound after the `Respond` event.
- Go's unspecified map iteration order is an `Enumerator` parameter. It lists every key exactly once in some order. Every property is proved for all such orders.

Modules follow the stages: `MiddlewareChain`, `ConnectionLifecycle` with `FieldMerge`, `SchemaAssembly`, and `DirectiveDispatch` with `Strings`. Each one relates the pipeline to an independent reference. `ServeProperties` states what one whole request promises.

### Consequences of the code's order of stages

- **Parsing comes late.** The body is parsed only after every middleware passed, every handler connected and the schema was built (`runtime/mux.go:188`). A malformed body is therefore reported only when no earlier stage failed: a request whose body does not parse and whose handler cannot connect gets GRPC_CONNECT_ERROR. `ServeProperties.ParseComesLate` and `ServeProperties.ParseFailure` state this order.
- **Closers run after the response.** The connection loop defers each closer (`runtime/mux.go:149`), so the closers run when `ServeHTTP` returns, after `respondResult` wrote the response. `ServeProperties.RespondsOnce` states that every `Close` event comes after the one `Respond` event.
- **Names in both maps.** `methodNames` lists a name twice when it is both a query and a mutation (`runtime/mux.go:203-209`), so the directives of that name run twice (`ServeProperties.DirectiveCalls`).

## Model

| member | source | states |
|---|---|---|
| Registry.NewServeMux | runtime/mux.go:40-46 | a new mux holds exactly the given middlewares in order, no handlers, no directives and no error handler |
| Registry.ValidateHandler | runtime/mux.go:58-86 | no schema is attempted iff the handler lists no fields with a nil connection; otherwise the attempted configuration has roots for exactly the non-empty maps; an error is returned iff the schema engine rejects that configuration, with the "Schema validation error: " prefix |
| Registry.AddHandler | runtime/mux.go:49-55 | the handler is appended iff validation returns no error; on error the handler list is unchanged and validation's error is returned; middlewares, directives and the error handler never change |
| Registry.Use | runtime/mux.go:89-92 | the new middlewares follow the existing ones, both in their original order; nothing else changes |
| Registry.UseTwice | runtime/mux.go:89-92 | two `Use` calls register the same chain as one call with both lists concatenated |
| Registry.UseDirective | runtime/mux.go:95-104 | afterwards (method, directive) maps to the new function; every other (method, directive) pair keeps its old lookup; the methods with directives gain exactly `method`; nothing else changes |
| Strings.Contains | runtime/mux.go:212 | the query text contains a name iff the name occurs at some position of it |
| Strings.EmptyIsContained | runtime/mux.go:212 | every query text contains the empty name |
| MapOrder.EnumerationCount | runtime/mux.go:203-209 | an iteration order of a map holds each key exactly once and nothing else |
| FieldMerge.Overwrite | runtime/mux.go:151-156 | after copying one handler's map, the keys are the union; copied keys carry the handler's definition; all other keys keep theirs |
| FieldMerge.CopyFields | runtime/mux.go:151-153 | the key-by-key copy loop yields the overwrite merge whatever order the keys are visited in |
| FieldMerge.MergedKeys | runtime/mux.go:132-157 | a name is in the merged map iff some handler's map defines it |
| FieldMerge.LastWriteWins | runtime/mux.go:132-157 | a merged name carries the definition of the last handler that defines it |
| SchemaAssembly.BuildSchemaConfigInjective | runtime/mux.go:159-171 | the schema configuration determines both field maps it was built from: no field is lost or altered |
| MiddlewareChain.ChainPrefix | runtime/mux.go:109-111 | once the first i middlewares accepted, the chain continues from i with the threaded context, after calling middlewares 0..i-1 in order |
| MiddlewareChain.RejectedAt | runtime/mux.go:109-129 | the first middleware to fail stops the chain with its error, having called exactly the middlewares up to and including it |
| MiddlewareChain.PassedAll | runtime/mux.go:109-130 | when every middleware accepts, the chain passes on the threaded context after calling each middleware once, in order |
| MiddlewareChain.PassedIff | runtime/mux.go:108-130 | the chain passes iff threading every middleware yields a context, and it passes on exactly that context |
| ConnectionLifecycle.LoopPrefix | runtime/mux.go:134-157 | after handlers 0..i-1 connected, the loop continues from i with their fields merged, having attempted each of them and deferred each closer |
| ConnectionLifecycle.FailsAt | runtime/mux.go:134-148 | the first handler that cannot connect ends the loop with its message; handlers 0..i were attempted and only the closers of 0..i-1 were deferred |
| ConnectionLifecycle.ConnectsAll | runtime/mux.go:132-157 | when every handler connects, the loop yields the left-to-right overwrite merge of their fields, attempting each handler once in order and deferring each closer once |
| ConnectionLifecycle.ConnectedIff | runtime/mux.go:134-157 | the loop completes iff every handler connects |
| ConnectionLifecycle.DeferredRunOnce | runtime/mux.go:149 | each deferred closer runs once per time it was deferred |
| ConnectionLifecycle.DeferredLifo | runtime/mux.go:149 | deferred closers run last-in first-out: the k-th closer to run is the k-th from the end of the deferral order |
| ConnectionLifecycle.ClosersReversed | runtime/mux.go:134-149 | when handlers 0..n-1 deferred their closers, the closers run in reverse registration order, from handler n-1 down to handler 0 |
| ConnectionLifecycle.ClosersOnce | runtime/mux.go:149 | when handlers 0..n-1 deferred their closers, each of them runs exactly once and no other closer runs |
| DirectiveDispatch.MethodNamesCount | runtime/mux.go:203-209 | the method list holds a name once per map (query, mutation) that defines it |
| DirectiveDispatch.RunDirectivesPassIff | runtime/mux.go:216-235 | one method's directives all pass iff none of them returns an error |
| DirectiveDispatch.RunDirectivesCalls | runtime/mux.go:216-235 | when they pass, each directive of the method was called once per listing |
| DirectiveDispatch.RunDirectivesFailure | runtime/mux.go:216-234 | a failure is the error returned by one of the method's directives |
| DirectiveDispatch.DispatchPassIff | runtime/mux.go:211-237 | the dispatch passes iff no directive of a listed method whose name occurs in the query returns an error |
| DirectiveDispatch.DispatchCallsApply | runtime/mux.go:211-216 | every directive called belongs to a listed method whose name occurs in the query text |
| DirectiveDispatch.DispatchCalls | runtime/mux.go:211-237 | when the dispatch passes, each due directive ran once per listing of its method, and no other directive ran |
| DirectiveDispatch.DispatchFailure | runtime/mux.go:211-234 | a failed dispatch reports the error of a due directive of a listed method |
| DirectiveDispatch.MethodDirectivesPassIff | runtime/mux.go:203-237 | over the merged maps, the dispatch passes iff no due directive of a query or mutation name returns an error |
| DirectiveDispatch.MethodDirectivesCalls | runtime/mux.go:203-237 | over the merged maps, a due directive ran once for each map defining its method, so twice for a name in both |
| DirectiveDispatch.MethodDirectivesFailure | runtime/mux.go:203-234 | over the merged maps, a failure is the error of a due directive of a query or mutation name |
| DirectiveDispatch.RunStops | runtime/mux.go:216-234 | when one of a method's directives fails, the loop stops there: the failing directive is the last one called, its error is the outcome, and every directive called before it returned no error |
| DirectiveDispatch.DispatchStops | runtime/mux.go:211-237 | a failed dispatch stops at the first directive that returns an error: it is the last call made, its error is the outcome, and every directive called before it, of this or an earlier method, returned no error |
| DirectiveDispatch.MethodDirectivesDue | runtime/mux.go:203-216 | over the merged maps, every directive called belongs to a query or mutation field whose name occurs in the query text |
| MuxTypes.Classify | runtime/mux.go:113-124 | an error that is a `*MiddlewareError` keeps its own code and message; any other error gets the stage's fallback code with its text as the message |
| SchemaAssembly.BuildSchemaConfig | runtime/mux.go:159-171 | the configuration has a Query root iff the merged query map is non-empty, and a Mutation root iff the mutation map is non-empty; each root is named "Query" or "Mutation" and carries its whole map |
| Pipeline.RunMiddlewares | runtime/mux.go:109-130 | running the chain from middleware i records only calls to middlewares i..n-1 |
| Pipeline.ConnectHandlers | runtime/mux.go:134-157 | running the connection loop from handler i records only connection attempts of handlers i..n-1 |
| Pipeline.RunDeferred | runtime/mux.go:149 | unwinding the deferred closers yields exactly as many events as there were deferrals, all of them `Close` events |
| Pipeline.MethodNames | runtime/mux.go:203-209 | the method list, counted with multiplicity, is the query names plus the mutation names |
| Pipeline.RunDirectives | runtime/mux.go:215-235 | running one method's directives records only calls of that method's listed directives |
| Pipeline.Dispatch | runtime/mux.go:211-237 | the dispatch records only directive calls of listed methods |
| Pipeline.Observe | runtime/mux.go:246-252 | an observer event is recorded iff the engine reported errors, and it names the configured handler exactly when one is set |
| Pipeline.Serve | runtime/mux.go:107-252 | before the response nothing is closed or written; either the query was executed or the result has no data and exactly one error |
| Pipeline.ServeConnections | runtime/mux.go:132-252 | after the middlewares, nothing is closed or written before the response; the closers deferred are those of the connection loop; the query is executed or there is exactly one error |
| Pipeline.ServeSchema | runtime/mux.go:159-252 | the stage's first event builds the schema from the merged maps' configuration; earlier events are kept and later ones belong to later stages only; the deferred closers are unchanged |
| Pipeline.ServeParse | runtime/mux.go:188-252 | earlier events are kept and the stage adds only events of the stages after the connection loop; the deferred closers are unchanged; the query is executed or there is exactly one error |
| Pipeline.ServeDirectives | runtime/mux.go:203-252 | earlier events are kept and the stage adds only events of the stages after the connection loop; the deferred closers are unchanged; the query is executed or there is exactly one error |
| Pipeline.Finish | runtime/mux.go:253-263 | the response has status 200 and the stage's result; its trace is the stage's events, then one `Respond(200)`, then one event per deferred closer |
| Pipeline.ServeHTTP | runtime/mux.go:107-263 | every request is answered with status 200; either the query was executed, or the result has no data and exactly one error |
| ServeProperties.FinishRespondsOnce | runtime/mux.go:253-263 | whatever a stage produced, finishing it writes status 200 exactly once and never another status; each deferred closer runs exactly as many times as it was deferred, and no closer runs before the response |
| ServeProperties.RespondsOnce | runtime/mux.go:256-263 | status 200 is written exactly once, no other status is ever written, and every closer runs after the response |
| ServeProperties.MiddlewareShortCircuit | runtime/mux.go:109-129 | the first failing middleware gives one error: a `*MiddlewareError` keeps its code and message, any other error gets MIDDLEWARE_ERROR and its text; no later middleware runs and no handler is contacted |
| ServeProperties.ConnectFailure | runtime/mux.go:134-149 | when every middleware passes, the first handler that cannot connect gives one GRPC_CONNECT_ERROR with its message; later handlers are never contacted, no schema is built, and the closers of the earlier handlers, and only those, run once each |
| ServeProperties.ConnectedClosesOnce | runtime/mux.go:134-157 | when every middleware passes and every handler connects, each handler's closer runs exactly once, whatever the later stages do |
| ServeProperties.ConnectedAttempts | runtime/mux.go:134-135 | when every middleware passes and every handler connects, exactly the registered handlers were asked for a connection |
| ServeProperties.ConnectedPrefix | runtime/mux.go:107-173 | when every middleware passes and every handler connects, the request calls the middlewares in order, then attempts the handlers in registration order, then builds the schema from the merged maps |
| ServeProperties.SchemaFailure | runtime/mux.go:159-186 | when every middleware passes and every handler connects, a schema the engine rejects gives one SCHEMA_GENERATION_ERROR with the engine's message, before the body is parsed or any directive runs |
| ServeProperties.ParseFailure | runtime/mux.go:188-201 | when every middleware passes, every handler connects and the schema builds, a body that does not parse gives one REQUEST_PARSE_ERROR with the parser's message, after the schema was built and before any directive runs |
| ServeProperties.ParseComesLate | runtime/mux.go:107-188 | the body is parsed only if every middleware passed, every handler connected and the engine accepted the schema |
| ServeProperties.DirectiveFailure | runtime/mux.go:203-234 | for a request whose middlewares all pass, whose handlers all connect, whose schema builds and whose body parses, when a due directive fails, the query is never executed, and the one error is that of some due directive: its code and message for a `*MiddlewareError`, DIRECTIVE_MIDDLEWARE_ERROR and its text otherwise |
| ServeProperties.DirectiveFailureStops | runtime/mux.go:203-234 | for a request whose middlewares all pass, whose handlers all connect, whose schema builds and whose body parses, when a due directive fails, the one error is the error of a directive call in the trace; every directive called before it returned no error, no directive is called after it, and every directive called was due for a merged query or mutation field |
| ServeProperties.Executed | runtime/mux.go:239-244 | for a request whose middlewares all pass, whose handlers all connect, whose schema builds and whose body parses, when no due directive fails, the query is executed exactly once with the threaded context, and its result is the response |
| ServeProperties.DirectiveCalls | runtime/mux.go:203-237 | for a request whose middlewares all pass, whose handlers all connect, whose schema builds and whose body parses, when no due directive fails, each due directive ran once per merged map defining its method, and no other directive ran |
| ServeProperties.ErrorsObserved | runtime/mux.go:246-252 | for a request whose middlewares all pass, whose handlers all connect, whose schema builds and whose body parses, when no due directive fails, the error observer runs iff the engine reported errors, and it is the configured error handler exactly when one is set |
| ServeProperties.RequestFieldsLastWriteWins | runtime/mux.go:132-157 | at request time a name merged from the handlers' connections carries the last defining handler's field |
| ServeProperties.RequestRoots | runtime/mux.go:159-171 | the Query root is present iff some handler contributes a query field, and the Mutation root iff some handler contributes a mutation field |
| ServeProperties.ValidationPredictsRequests | runtime/mux.go:58-86 | for a lone handler with at least one field, whose fields do not depend on the connection, registration fails iff every request reaching schema building would fail with SCHEMA_GENERATION_ERROR |

## Left out

- HTTP output of `respondResult` (headers, JSON encoding, body write, `runtime/mux.go:257-262`): the model keeps the status and the result value only.
- The `http.ResponseWriter` that middlewares receive: a middleware in the model cannot write to the response itself.
- graphql-go internals: `graphql.NewSchema`, `parseRequest` and `graphql.Do` are function parameters (`Graphql`), and a field definition is an opaque identity. `parseRequest` is not part of this model; only its success or error is.
- gRPC dialing: a connection is an opaque value, and a closer's effect is only its `Close` event.
- Context cancellation and deadlines: a context is an opaque value threaded through the stages.
- Error observer side effects: the model records which observer ran (`ErrorHandler` or the default one), not what it does.
- Directives and middlewares are deterministic functions of their arguments. A Go function that behaves differently on a second call with the same arguments is not modelled.
- Map iteration order is fixed per key set. For a name in both maps, Go may iterate its directive map in two different orders. The stated properties (counts and the failing directive) do not depend on this order.
- Concurrent registration and serving, and aliasing of the `*ServeMux` pointer: registration returns a new registry value.
- `strings.Contains` compares bytes of UTF-8 text, while the model compares characters. The two agree on ASCII names and queries.
- ServeProperties.ValidationPredictsRequests: a lone handler that lists no field when asked with a nil connection passes validation without a schema being attempted (`runtime/mux.go:63-65`), while a request then builds a schema with no root, which the engine may reject. The lemma does not cover this case, because the engine's verdict on a configuration without roots is a parameter of the model.
- Panics from nil handlers, middlewares or maps are not modelled.
- `protoc-gen-graphql/generator/go_template.go` and the example servers are code generation and bootstrapping, not part of the runtime pipeline.
