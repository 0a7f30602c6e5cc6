/** The values the gateway runtime (runtime/mux.go) works with: the registry a
    `ServeMux` holds, the capabilities of a registered `GraphqlHandler`, the
    graphql-go collaborators it calls, and what one request produces. */
module MuxTypes {

  datatype Option<+T> = None | Some(value: T)

  datatype Result<+T, +E> = Ok(value: T) | Err(error: E)

  /** The request context threaded through the middlewares into directives and execution. */
  datatype Context = Context(values: map<string, string>)

  /** The inbound HTTP request as the pipeline sees it: the context it carries and its raw body. */
  datatype HttpRequest = HttpRequest(context: Context, body: string)

  /** An open gRPC client connection, known only by its identity. */
  datatype Conn = Conn(id: nat)

  /** A graphql field definition (type, arguments, resolver), known only by its identity. */
  datatype Field = Field(id: nat)

  /** graphql.Fields: field name to definition. */
  type Fields = map<string, Field>

  /** An error returned by a middleware or a directive: a `*MiddlewareError`, whose
      code and message are reported as they are, or any other Go error, known by
      the text of its `Error()`. */
  datatype Failure =
    | MiddlewareError(code: string, message: string)
    | OtherError(text: string)

  /** One entry of a response's `errors` list; its extensions hold the single key "code". */
  datatype GraphqlError = GraphqlError(message: string, code: string)

  datatype FieldKind = QueryFields | MutationFields

  /** A registered `GraphqlHandler`. A connection argument of `None` stands for Go's `nil`,
      which is what registration-time validation passes. */
  datatype Handler = Handler(
    createConnection: Context -> Result<Conn, string>,
    getQueries: Option<Conn> -> Fields,
    getMutations: Option<Conn> -> Fields)
  {
    function FieldsOf(kind: FieldKind, c: Option<Conn>): Fields {
      match kind
      case QueryFields => getQueries(c)
      case MutationFields => getMutations(c)
    }
  }

  /** `MiddlewareFunc`: receives the current context and the request, returns the next
      context or an error. (The response writer it also receives is not modelled.) */
  type MiddlewareFunc = (Context, HttpRequest) -> Result<Context, Failure>

  /** `GraphQLMiddlewareFunc`: receives the context, the request and the method name;
      `Some` is a returned error, `None` is Go's `nil`. */
  type GraphQLMiddlewareFunc = (Context, HttpRequest, string) -> Option<Failure>

  /** method name -> directive name -> directive function */
  type DirectiveMap = map<string, map<string, GraphQLMiddlewareFunc>>

  /** The registry of a `ServeMux`. `hasErrorHandler` records whether the exported
      `ErrorHandler` field was set; the observer's own effects are not modelled. */
  datatype ServeMux = ServeMux(
    middlewares: seq<MiddlewareFunc>,
    graphQLMiddlewares: DirectiveMap,
    handlers: seq<Handler>,
    hasErrorHandler: bool)

  datatype ObjectConfig = ObjectConfig(name: string, fields: Fields)

  /** graphql.SchemaConfig with its two optional root objects. */
  datatype SchemaConfig = SchemaConfig(query: Option<ObjectConfig>, mutation: Option<ObjectConfig>)

  /** A built schema, known only by its identity. */
  datatype Schema = Schema(id: nat)

  /** What `parseRequest` decodes from the body: the query text and its variables. */
  datatype GraphqlRequest = GraphqlRequest(query: string, variables: map<string, string>)

  /** graphql.Result: optional data and the list of errors. */
  datatype ExecResult = ExecResult(data: Option<string>, errors: seq<GraphqlError>)

  /** The collaborators the runtime calls but does not define: `graphql.NewSchema`,
      `parseRequest` and `graphql.Do`. */
  datatype Graphql = Graphql(
    newSchema: SchemaConfig -> Result<Schema, string>,
    parseRequest: HttpRequest -> Result<GraphqlRequest, string>,
    execute: (Schema, GraphqlRequest, Context) -> ExecResult)

  /** The observable steps of one request, in the order they happen. */
  datatype Event =
    | MiddlewareCall(index: nat)
    | ConnectAttempt(handler: nat)
    | Close(handler: nat)
    | BuildSchema(config: SchemaConfig)
    | ParseRequest
    | DirectiveCall(methodName: string, directive: string)
    | Execute
    | ObserveErrors(custom: bool)
    | Respond(status: int)

  /** What one call of `ServeHTTP` produces: the status written, the body (as the
      result that gets serialised) and the trace of events. */
  datatype Response = Response(status: int, result: ExecResult, trace: seq<Event>)

  const StatusOK: int := 200

  const MiddlewareErrorCode: string := "MIDDLEWARE_ERROR"
  const GrpcConnectErrorCode: string := "GRPC_CONNECT_ERROR"
  const SchemaGenerationErrorCode: string := "SCHEMA_GENERATION_ERROR"
  const RequestParseErrorCode: string := "REQUEST_PARSE_ERROR"
  const DirectiveMiddlewareErrorCode: string := "DIRECTIVE_MIDDLEWARE_ERROR"

  /** A result holding a single pipeline error and no data. */
  function Fail(e: GraphqlError): ExecResult {
    ExecResult(None, [e])
  }

  /** The error envelope for a middleware or directive error: a `*MiddlewareError`
      keeps its code and message, any other error gets `untypedCode` and its text. */
  function Classify(f: Failure, untypedCode: string): (g: GraphqlError)
    ensures g.code == if f.MiddlewareError? then f.code else untypedCode
    ensures g.message == if f.MiddlewareError? then f.message else f.text
  {
    match f
    case MiddlewareError(code, message) => GraphqlError(message, code)
    case OtherError(text) => GraphqlError(text, untypedCode)
  }
}
