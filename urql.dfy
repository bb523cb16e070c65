/**
 * The GraphQL client's boot file: the three callbacks of the auth exchange
 * (`getAuth`, `willAuthError`, `addAuthToOperation`), all reading the auth
 * store, and the exchange pipeline the client is created with. Amplify's
 * session and the clock are inputs.
 */
module UrqlBoot {
  import opened Wrappers
  import opened Js
  import opened AuthStore

  // ---------------------------------------------------------------------------
  // addAuthToOperation

  /** `operation.context.fetchOptions`: a function to call, or a value (undefined when absent). */
  datatype FetchOptions = FetchFunction(result: JsValue) | FetchValue(value: JsValue)

  /**
   * An operation: its kind, the rest of its context, its fetch options, and
   * everything else about it (key, query, variables), which nothing here reads.
   */
  datatype Operation = Operation(kind: string, context: seq<Entry>, fetchOptions: FetchOptions, rest: JsValue)

  /** The options object `fetchOptions` evaluates to: the function's result, else `fetchOptions || {}`. */
  function BaseOptions(f: FetchOptions): (base: JsValue)
    ensures f.FetchValue? ==> Truthy(base)
  {
    match f
    case FetchFunction(result) => result
    case FetchValue(v) => if Truthy(v) then v else Obj([])
  }

  /** `authState.token`. */
  function Token(authState: JsValue): JsValue
  {
    Member(authState, "token")
  }

  /**
   * `addAuthToOperation`: without a token the operation is passed on as it
   * is; with one, a copy whose fetch options carry `Authorization: token`
   * among the headers they already had. Reading `headers` of a null or
   * undefined result of a `fetchOptions` function throws.
   */
  function AddAuthToOperation(authState: JsValue, operation: Operation): (r: Attempt<Operation>)
    ensures !Truthy(authState) || !Truthy(Token(authState)) ==> r == Returned(operation)
    ensures r.Threw? <==> Truthy(authState) && Truthy(Token(authState)) && Nullish(BaseOptions(operation.fetchOptions))
  {
    if !Truthy(authState) || !Truthy(Token(authState)) then Returned(operation)
    else
      var base := BaseOptions(operation.fetchOptions);
      if Nullish(base) then Threw(ReadOfNullish(base, "headers"))
      else
        var headers := Put(SpreadEntries(Member(base, "headers")), "Authorization", Token(authState));
        var options := Put(SpreadEntries(base), "headers", Obj(headers));
        Returned(Operation(operation.kind, operation.context, FetchValue(Obj(options)), operation.rest))
  }

  /** The headers an operation is fetched with. */
  function HeadersOf(operation: Operation): JsValue
  {
    Member(BaseOptions(operation.fetchOptions), "headers")
  }

  /**
   * With a token, the operation keeps its kind, context and everything else;
   * its headers carry the token as `Authorization`, and every other header
   * and fetch option it had is kept with its value.
   */
  lemma AuthorizationAttached(authState: JsValue, operation: Operation, header: string, option: string)
    requires AddAuthToOperation(authState, operation).Returned?
    requires Truthy(authState) && Truthy(Token(authState))
    requires header != "Authorization" && option != "headers"
    ensures var o := AddAuthToOperation(authState, operation).value;
            var base := BaseOptions(operation.fetchOptions);
            o.kind == operation.kind && o.context == operation.context && o.rest == operation.rest &&
            HeadersOf(o).Obj? &&
            Lookup(HeadersOf(o).fields, "Authorization") == Token(authState) &&
            Lookup(HeadersOf(o).fields, header) == Lookup(SpreadEntries(Member(base, "headers")), header) &&
            (base.Obj? ==> Member(BaseOptions(o.fetchOptions), option) == Member(base, option)) &&
            (Member(base, "headers").Obj? ==> Lookup(HeadersOf(o).fields, header) == Member(Member(base, "headers"), header))
  {
    var base := BaseOptions(operation.fetchOptions);
    var headers := Put(SpreadEntries(Member(base, "headers")), "Authorization", Token(authState));
    PutOther(SpreadEntries(Member(base, "headers")), "Authorization", Token(authState), header);
    PutOther(SpreadEntries(base), "headers", Obj(headers), option);
  }

  /** Adding the token to an operation that already carries it changes nothing. */
  lemma AddAuthIdempotent(authState: JsValue, operation: Operation)
    requires AddAuthToOperation(authState, operation).Returned?
    ensures var once := AddAuthToOperation(authState, operation).value;
            AddAuthToOperation(authState, once) == Returned(once)
  {
    if Truthy(authState) && Truthy(Token(authState)) {
      var token := Token(authState);
      var base := BaseOptions(operation.fetchOptions);
      var headers := Put(SpreadEntries(Member(base, "headers")), "Authorization", token);
      var options := Put(SpreadEntries(base), "headers", Obj(headers));
      PutTwice(SpreadEntries(Member(base, "headers")), "Authorization", token);
      PutTwice(SpreadEntries(base), "headers", Obj(headers));
      assert Member(Obj(options), "headers") == Obj(headers);
    }
  }

  // ---------------------------------------------------------------------------
  // getAuth

  /**
   * `getAuth`: nothing for a signed-out store; otherwise the session's id
   * token as `{token}`, or null when it is empty. `session` is the id token
   * Amplify's `currentSession()` yields, or its rejection.
   */
  function GetAuth(isAuthenticated: bool, session: Attempt<JsValue>): (r: Attempt<JsValue>)
    ensures !isAuthenticated ==> r == Returned(Undefined)
    ensures isAuthenticated && session.Threw? ==> r == session
    ensures r.Returned? && Truthy(r.value) ==>
              isAuthenticated && session.Returned? && Truthy(session.value) &&
              r.value == Obj([Entry("token", session.value)])
  {
    if !isAuthenticated then Returned(Undefined)
    else if session.Threw? then Threw(session.message)
    else if Truthy(session.value) then Returned(Obj([Entry("token", session.value)]))
    else Returned(Null)
  }

  /**
   * The state `getAuth` yields drives `addAuthToOperation`: an operation is
   * sent with the session's token exactly when the store is authenticated
   * and the token is non-empty, and is otherwise passed on unchanged.
   */
  lemma AuthStateRoundTrip(isAuthenticated: bool, session: Attempt<JsValue>, operation: Operation)
    requires GetAuth(isAuthenticated, session).Returned?
    requires !Nullish(BaseOptions(operation.fetchOptions))
    ensures var authState := GetAuth(isAuthenticated, session).value;
            var r := AddAuthToOperation(authState, operation);
            r.Returned? &&
            (isAuthenticated && Truthy(session.value) ==>
               HeadersOf(r.value).Obj? && Lookup(HeadersOf(r.value).fields, "Authorization") == session.value) &&
            (!isAuthenticated || !Truthy(session.value) ==> r.value == operation)
  {
    var authState := GetAuth(isAuthenticated, session).value;
    if isAuthenticated && Truthy(session.value) {
      assert Token(authState) == session.value;
    }
  }

  // ---------------------------------------------------------------------------
  // willAuthError

  /**
   * The number a value compares as with `<`, or None for NaN. Strings and
   * arrays are taken to be NaN (see README).
   */
  function NumberOf(v: JsValue): (n: Option<int>)
    ensures v.Num? ==> n == Some(v.n)
  {
    match v
    case Null => Some(0)
    case Bool(b) => Some(if b then 1 else 0)
    case Num(n) => Some(n)
    case _ => None
  }

  /**
   * `auth.exp < Date.now() / 1000 - 30`, with the clock in milliseconds; a
   * NaN comparison is false. Multiplying through by 1000 keeps it exact.
   */
  predicate Expired(exp: JsValue, nowMs: int)
  {
    NumberOf(exp).Some? && NumberOf(exp).value * 1000 < nowMs - 30000
  }

  /** `willAuthError`: re-authenticate without a state, with an expired token, or when signed out. */
  predicate WillAuthError(store: Store, authState: JsValue, nowMs: int)
    reads store
  {
    !Truthy(authState) || Expired(store.Exp(), nowMs) || !store.isAuthenticated
  }

  /**
   * No re-authentication is asked for exactly when there is a state, the
   * store is authenticated, and the token's `exp` (a number of seconds, or a
   * missing one, which never counts as expired) is at least thirty seconds
   * before now or later.
   */
  lemma WillAuthErrorExactly(store: Store, authState: JsValue, nowMs: int)
    ensures !WillAuthError(store, authState, nowMs) <==>
            Truthy(authState) && store.isAuthenticated &&
            (store.Exp().Num? ==> store.Exp().n * 1000 >= nowMs - 30000) &&
            (store.Exp() == Null ==> nowMs <= 30000) &&
            (store.Exp().Bool? ==> (if store.Exp().b then 1000 else 0) >= nowMs - 30000)
  {
  }

  /** A token once expired stays expired as the clock moves on. */
  lemma {:induction false} ExpiryIsPermanent(store: Store, authState: JsValue, nowMs: int, laterMs: int)
    requires nowMs <= laterMs && WillAuthError(store, authState, nowMs)
    ensures WillAuthError(store, authState, laterMs)
  {
    if Expired(store.Exp(), nowMs) {
      assert NumberOf(store.Exp()).value * 1000 < laterMs - 30000;
    }
  }

  /** A signed-out store always asks for re-authentication, whatever the state and the clock. */
  lemma SignedOutAlwaysErrors(store: Store, authState: JsValue, nowMs: int)
    requires !store.isAuthenticated
    ensures WillAuthError(store, authState, nowMs)
  {
  }

  // ---------------------------------------------------------------------------
  // The client

  /** The exchanges of the pipeline; the last three are `defaultExchanges`. */
  datatype Exchange = AuthExchange | ErrorExchange | DevtoolsExchange | DedupExchange | CacheExchange | FetchExchange

  const DefaultExchanges: seq<Exchange> := [DedupExchange, CacheExchange, FetchExchange]

  datatype ClientOptions = ClientOptions(url: string, requestPolicy: string, exchanges: seq<Exchange>)

  /**
   * The client options the boot file builds: the auth exchange first (every
   * operation goes through it before it is fetched), the devtools exchange
   * only in development, and the default exchanges last, ending with fetch.
   */
  method MakeClientOptions(url: string, dev: bool) returns (options: ClientOptions)
    ensures options.url == url && options.requestPolicy == "cache-and-network"
    ensures |options.exchanges| == (if dev then 6 else 5)
    ensures options.exchanges[0] == AuthExchange && options.exchanges[1] == ErrorExchange
    ensures options.exchanges[|options.exchanges| - 3..] == DefaultExchanges
    ensures DevtoolsExchange in options.exchanges <==> dev
    ensures forall i, j :: 0 <= i < j < |options.exchanges| ==> options.exchanges[i] != options.exchanges[j]
  {
    var exchanges := [AuthExchange, ErrorExchange];
    if dev {
      exchanges := exchanges + [DevtoolsExchange];
    }
    exchanges := exchanges + DefaultExchanges;
    options := ClientOptions(url, "cache-and-network", exchanges);
  }
}
