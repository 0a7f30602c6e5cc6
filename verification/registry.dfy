/** Setup-time registration on a `ServeMux` (runtime/mux.go: NewServeMux, AddHandler,
    validateHandler, Use, UseDirective). Each operation returns the updated registry. */
module Registry {
  import opened MuxTypes
  import opened SchemaAssembly

  /** A fresh registry: the given middlewares in order, no handlers, no directives,
      no error observer. */
  function NewServeMux(ms: seq<MiddlewareFunc>): (s: ServeMux)
    ensures s.middlewares == ms
    ensures |s.handlers| == 0 && |s.graphQLMiddlewares| == 0
    ensures !s.hasErrorHandler
  {
    ServeMux(ms, map[], [], false)
  }

  /** What `validateHandler` did: the configuration it passed to `graphql.NewSchema`
      (`None` when it returned early without building one) and the error it returned. */
  datatype Validation = Validation(schemaAttempt: Option<SchemaConfig>, err: Option<string>)

  /** Lists the handler's fields with a nil connection; when there are none it accepts
      without building a schema, otherwise it builds one and reports its error. */
  function ValidateHandler(h: Handler, gql: Graphql): (v: Validation)
    ensures v.schemaAttempt.None? <==> |h.getQueries(None)| == 0 && |h.getMutations(None)| == 0
    ensures v.schemaAttempt.Some? ==>
              v.schemaAttempt.value == BuildSchemaConfig(h.getQueries(None), h.getMutations(None))
    ensures v.err.Some? <==> v.schemaAttempt.Some? && gql.newSchema(v.schemaAttempt.value).Err?
    ensures v.err.Some? ==>
              v.err.value == "Schema validation error: " + gql.newSchema(v.schemaAttempt.value).error
  {
    var queries := h.getQueries(None);
    var mutations := h.getMutations(None);
    if |queries| == 0 && |mutations| == 0 then
      Validation(None, None)
    else
      var config := BuildSchemaConfig(queries, mutations);
      match gql.newSchema(config)
      case Err(e) => Validation(Some(config), Some("Schema validation error: " + e))
      case Ok(_) => Validation(Some(config), None)
  }

  /** Appends the handler iff validation accepts it; otherwise returns validation's
      error and the registry unchanged. Nothing but the handler list ever changes. */
  function AddHandler(s: ServeMux, h: Handler, gql: Graphql): (r: (ServeMux, Option<string>))
    ensures r.1 == ValidateHandler(h, gql).err
    ensures r.1.None? ==> r.0.handlers == s.handlers + [h]
    ensures r.1.Some? ==> r.0.handlers == s.handlers
    ensures r.0.middlewares == s.middlewares && r.0.graphQLMiddlewares == s.graphQLMiddlewares
    ensures r.0.hasErrorHandler == s.hasErrorHandler
  {
    var v := ValidateHandler(h, gql);
    if v.err.Some? then (s, v.err) else (s.(handlers := s.handlers + [h]), None)
  }

  /** Appends middlewares after the existing ones, keeping both orders. */
  function Use(s: ServeMux, ms: seq<MiddlewareFunc>): (r: ServeMux)
    ensures |r.middlewares| == |s.middlewares| + |ms|
    ensures forall i :: 0 <= i < |s.middlewares| ==> r.middlewares[i] == s.middlewares[i]
    ensures forall i :: 0 <= i < |ms| ==> r.middlewares[|s.middlewares| + i] == ms[i]
    ensures r.handlers == s.handlers && r.graphQLMiddlewares == s.graphQLMiddlewares
    ensures r.hasErrorHandler == s.hasErrorHandler
  {
    s.(middlewares := s.middlewares + ms)
  }

  /** Two `Use` calls register the same chain as one call with both lists. */
  lemma UseTwice(s: ServeMux, ms1: seq<MiddlewareFunc>, ms2: seq<MiddlewareFunc>)
    ensures Use(Use(s, ms1), ms2) == Use(s, ms1 + ms2)
  {
  }

  /** The directive registered for (method, directive), if any. */
  function LookupDirective(dirs: DirectiveMap, m: string, d: string): Option<GraphQLMiddlewareFunc> {
    if m in dirs && d in dirs[m] then Some(dirs[m][d]) else None
  }

  /** Sets `graphQLMiddlewares[method][directive]`, creating the inner map on first use;
      every other (method, directive) entry and the rest of the registry stay as they were. */
  function UseDirective(s: ServeMux, m: string, d: string, f: GraphQLMiddlewareFunc): (r: ServeMux)
    ensures LookupDirective(r.graphQLMiddlewares, m, d) == Some(f)
    ensures forall m', d' :: (m', d') != (m, d) ==>
              LookupDirective(r.graphQLMiddlewares, m', d') == LookupDirective(s.graphQLMiddlewares, m', d')
    ensures r.graphQLMiddlewares.Keys == s.graphQLMiddlewares.Keys + {m}
    ensures r.middlewares == s.middlewares && r.handlers == s.handlers
    ensures r.hasErrorHandler == s.hasErrorHandler
  {
    var directives := if m in s.graphQLMiddlewares then s.graphQLMiddlewares[m] else map[];
    s.(graphQLMiddlewares := s.graphQLMiddlewares[m := directives[d := f]])
  }
}
