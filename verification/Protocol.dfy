/** Sync protocol messages and function results.  The uint32 and uint64 counters of the
    protocol are natural numbers here. */
module Protocol {
  import opened Prelude
  import opened Values

  type QueryID = nat
  type RequestID = nat
  type Timestamp = nat

  datatype SubscriberID = SubscriberID(queryID: QueryID, index: nat)

  datatype StateVersion = StateVersion(querySet: nat, identity: nat, ts: Timestamp)

  const ZERO_VERSION := StateVersion(0, 0, 0)

  datatype TokenType = Unset | NoAuth | User | Admin

  datatype Identity = Identity(tokenIdentifier: string, issuer: string, subject: string)

  datatype AuthToken = AuthToken(tokenType: TokenType, value: string, actingAs: Option<Identity>)

  datatype QuerySetModification =
    | Add(queryID: QueryID, path: string, args: seq<Value>)
    | Remove(queryID: QueryID)

  datatype ClientMessage =
    | ModifyQuerySet(baseVersion: nat, newVersion: nat, modifications: seq<QuerySetModification>)
    | Authenticate(authBase: nat, token: AuthToken)
    | MutationRequest(requestID: RequestID, path: string, args: seq<Value>)
    | ActionRequest(requestID: RequestID, path: string, args: seq<Value>)

  /** Unsupported is a modification of a type the client does not know. */
  datatype StateModification =
    | QueryUpdated(queryID: QueryID, value: Value)
    | QueryFailed(queryID: QueryID, message: string, data: Option<Value>)
    | QueryRemoved(queryID: QueryID)
    | Unsupported

  datatype Response = Response(success: bool, value: Value, message: string, data: Option<Value>)

  datatype ServerMessage =
    | Transition(start: StateVersion, end: StateVersion, modifications: seq<StateModification>)
    | MutationResponse(requestID: RequestID, response: Response, ts: Option<Timestamp>)
    | ActionResponse(requestID: RequestID, response: Response)
    | AuthError
    | FatalError
    | Ping
    | TransitionChunk

  // ---- function results ----

  datatype ConvexError = ConvexError(message: string, data: Value)

  datatype FunctionResult = FunctionResult(value: Value, errorMessage: string, convexError: Option<ConvexError>)

  function ValueResult(v: Value): FunctionResult { FunctionResult(v, "", None) }
  function ErrorMessageResult(m: string): FunctionResult { FunctionResult(Null, m, None) }
  function ConvexErrorResult(e: ConvexError): FunctionResult { FunctionResult(Null, "", Some(e)) }

  function ResultValue(r: FunctionResult): Option<Value> {
    if r.errorMessage == "" && r.convexError.None? then Some(r.value) else None
  }

  function ErrorResult(message: string, data: Option<Value>): FunctionResult {
    match data
    case Some(d) => ConvexErrorResult(ConvexError(message, d))
    case None => ErrorMessageResult(message)
  }

  function ResponseResult(r: Response): FunctionResult {
    if r.success then ValueResult(r.value) else ErrorResult(r.message, r.data)
  }
}
