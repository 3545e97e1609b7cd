/**
 * The client's API core (raven_client/src/util/api): the response
 * envelope, the provider's request normalisation and three-phase context,
 * and the phase gating of `BaseApi` and of the hooks. The HTTP transport
 * and the context's reload are parameters.
 */
module Api {

  import opened Wrappers
  import opened JsonValues

  datatype ApiResponse = ApiSuccess(data: Json) | ApiError(statusCode: int, statusText: string, data: Json)

  /** `data(response, onFailure)`; an omitted (undefined) default becomes null. */
  function Data(r: ApiResponse, onFailure: Json): (v: Json)
    ensures r.ApiSuccess? ==> v == r.data
    ensures r.ApiError? && !onFailure.JUndefined? ==> v == onFailure
    ensures r.ApiError? && onFailure.JUndefined? ==> v == JNull
  {
    if r.ApiSuccess? then r.data
    else if onFailure.JUndefined? then JNull
    else onFailure
  }

  /** The failure returned while the API is not ready. */
  const NotActive: ApiResponse := ApiError(0, "API not active.", JNull)

  datatype Method = Get | Delete | Post | Put | Patch

  /** `ApiRequestOptions`; `method` may be left undefined, and `body` absent is undefined. */
  datatype RequestOptions = RequestOptions(verb: Option<Method>, body: Json, params: Option<map<string, Json>>)

  datatype Request = Request(endpoint: string, options: Option<RequestOptions>)

  // ---- ApiProvider ----

  /** The config handed to axios. */
  datatype AxiosConfig = AxiosConfig(url: string, verb: Method, params: Option<map<string, Json>>, data: Json)

  function ConfigOf(req: Request): (c: AxiosConfig)
    ensures c.url == req.endpoint
    ensures c.verb == Get <==> req.options.None? || req.options.value.verb in {None, Some(Get)}
    ensures c.data != JUndefined ==> c.verb in {Post, Put, Patch}
    ensures req.options.Some? && req.options.value.verb in {Some(Post), Some(Put), Some(Patch)} ==> c.data == req.options.value.body
  {
    match req.options
    case None => AxiosConfig(req.endpoint, Get, None, JUndefined)
    case Some(o) =>
      var m := o.verb.GetOr(Get);
      AxiosConfig(req.endpoint, m, o.params, if m == Patch || m == Post || m == Put then o.body else JUndefined)
  }

  /** What `instance.request` resolves or rejects with. */
  datatype AxiosOutcome =
    | Responded(data: Json)
    | HttpError(status: int, statusText: string, body: Json)
    | NoResponse(message: string, request: Json)
    | OtherFailure(message: string, cause: Json)

  /** The provider's `request`: every rejection becomes an `ApiError`; nothing is thrown. */
  function Normalize(o: AxiosOutcome): (r: ApiResponse)
    ensures r.ApiSuccess? <==> o.Responded?
    ensures o.Responded? ==> r.data == o.data
    ensures o.HttpError? ==> r == ApiError(o.status, o.statusText, o.body)
    ensures o.NoResponse? ==> r == ApiError(0, o.message, o.request)
    ensures o.OtherFailure? ==> r == ApiError(0, o.message, o.cause)
  {
    match o
    case Responded(d) => ApiSuccess(d)
    case HttpError(s, t, b) => ApiError(s, t, b)
    case NoResponse(m, q) => ApiError(0, m, q)
    case OtherFailure(m, c) => ApiError(0, m, c)
  }

  function ProviderRequest(transport: AxiosConfig -> AxiosOutcome, req: Request): ApiResponse
  {
    Normalize(transport(ConfigOf(req)))
  }

  /** The three phases a consumer sees. */
  datatype ApiContext = Loading | Ready(auth: Json) | Failed(reason: string)

  datatype Phase = LoadingPhase | ReadyPhase | ErrorPhase

  /** The uninitialised context: an error phase whose reload resolves to null. */
  const DefaultContext: ApiContext := Failed("Context not initialized.")

  /** The provider's state: the held `AuthState` (null when none) and the error text. */
  datatype ProviderState = ProviderState(authState: Json, error: Option<string>)

  const Initial: ProviderState := ProviderState(JNull, None)

  /** The context value: ready while an auth state is held, else error while the error text is non-empty, else loading. */
  function ContextOf(ps: ProviderState): (c: ApiContext)
    ensures c.Ready? <==> Truthy(ps.authState)
    ensures c.Ready? ==> c.auth == ps.authState
    ensures c.Failed? <==> !Truthy(ps.authState) && ps.error.Some? && ps.error.value != ""
    ensures c.Failed? ==> c.reason == ps.error.value
  {
    if Truthy(ps.authState) then Ready(ps.authState)
    else if ps.error.Some? && ps.error.value != "" then Failed(ps.error.value)
    else Loading
  }

  /** `reload`: the response to `GET /` replaces the state; the auth state or null is returned. */
  function Reload(ps: ProviderState, resp: ApiResponse): (r: (ProviderState, Json))
    ensures resp.ApiSuccess? ==> r.0 == ProviderState(resp.data, None)
    ensures resp.ApiError? ==> r.0 == ProviderState(JNull, Some(resp.statusText))
    ensures r.1 == Data(resp, JUndefined)
  {
    if resp.ApiSuccess? then (ProviderState(resp.data, None), resp.data)
    else (ProviderState(JNull, Some(resp.statusText)), JNull)
  }

  /** Before any reload completes the context is loading. */
  lemma InitiallyLoading()
    ensures ContextOf(Initial) == Loading
  {
  }

  /** After a reload: ready with the new auth state, or error with the status text, or loading. */
  lemma ContextAfterReload(ps: ProviderState, resp: ApiResponse)
    ensures var c := ContextOf(Reload(ps, resp).0);
      && (resp.ApiSuccess? && Truthy(resp.data) ==> c == Ready(resp.data))
      && (resp.ApiSuccess? && !Truthy(resp.data) ==> c == Loading)
      && (resp.ApiError? && resp.statusText != "" ==> c == Failed(resp.statusText))
      && (resp.ApiError? && resp.statusText == "" ==> c == Loading)
  {
  }

  /** A failure without status text leaves the context loading, whatever came before. */
  lemma EmptyStatusTextLoads(ps: ProviderState, code: int, body: Json)
    ensures ContextOf(Reload(ps, ApiError(code, "", body)).0) == Loading
  {
  }

  /** Reloading is determined by the response alone: earlier state leaves no trace. */
  lemma ReloadForgets(a: ProviderState, b: ProviderState, resp: ApiResponse)
    ensures Reload(a, resp) == Reload(b, resp)
  {
  }

  // ---- BaseApi ----

  function PhaseOf(c: ApiContext): Phase
  {
    match c
    case Loading => LoadingPhase
    case Ready(_) => ReadyPhase
    case Failed(_) => ErrorPhase
  }

  /** A call's result with the requests it sent and the context reloads it made, in order. */
  datatype Call<T> = Call(result: T, sent: seq<Request>, reloads: nat)

  /** `BaseApi.request`: delegates only when ready; otherwise the not-active error, sending nothing. */
  function BaseRequest(c: ApiContext, transport: Request -> ApiResponse, req: Request): (r: Call<ApiResponse>)
    ensures r.sent == (if c.Ready? then [req] else [])
    ensures c.Ready? ==> r.result == transport(req)
    ensures !c.Ready? ==> r.result == NotActive
    ensures r.reloads == 0
  {
    if c.Ready? then Call(transport(req), [req], 0) else Call(NotActive, [], 0)
  }

  /** `BaseApi.reload`: null while loading, else whatever the context's reload yields. */
  function BaseReload(c: ApiContext, contextReload: Json): (r: Call<Json>)
    ensures r.sent == []
    ensures r.reloads == (if c.Loading? then 0 else 1)
    ensures c.Loading? ==> r.result == JNull
    ensures !c.Loading? ==> r.result == contextReload
  {
    if c.Loading? then Call(JNull, [], 0) else Call(contextReload, [], 1)
  }

  /** `BaseApi.auth`: the auth state exactly when ready. */
  function BaseAuth(c: ApiContext): (a: Json)
    ensures c.Ready? ==> a == c.auth
    ensures !c.Ready? ==> a == JNull
  {
    if c.Ready? then c.auth else JNull
  }

  // ---- hooks ----

  /** Which function a hook hands out. */
  datatype Handed = ContextFunction | Dummy

  /** `useApiRequest`: the context's request when ready, else a dummy. */
  function UseApiRequest(c: ApiContext): (h: Handed)
    ensures h == ContextFunction <==> c.Ready?
  {
    if c.Ready? then ContextFunction else Dummy
  }

  /** `useApiReload`: a dummy only while loading. */
  function UseApiReload(c: ApiContext): (h: Handed)
    ensures h == Dummy <==> c.Loading?
  {
    if c.Loading? then Dummy else ContextFunction
  }

  function UseApiState(c: ApiContext): Phase
  {
    PhaseOf(c)
  }

  /** `useAuthState`. */
  function UseAuthState(c: ApiContext): (a: Option<Json>)
    ensures a.Some? <==> c.Ready?
    ensures a.Some? ==> a.value == c.auth
  {
    if c.Ready? then Some(c.auth) else None
  }

  /** Calling a handed request function. */
  function InvokeRequest(h: Handed, transport: Request -> ApiResponse, req: Request): Call<ApiResponse>
  {
    if h == ContextFunction then Call(transport(req), [req], 0) else Call(NotActive, [], 0)
  }

  /** Calling a handed reload function. */
  function InvokeReload(h: Handed, contextReload: Json): Call<Json>
  {
    if h == ContextFunction then Call(contextReload, [], 1) else Call(JNull, [], 0)
  }

  /** The hooks gate exactly as `BaseApi` does: same results, same calls made. */
  lemma HooksAgreeWithBaseApi(c: ApiContext, transport: Request -> ApiResponse, req: Request, contextReload: Json)
    ensures InvokeRequest(UseApiRequest(c), transport, req) == BaseRequest(c, transport, req)
    ensures InvokeReload(UseApiReload(c), contextReload) == BaseReload(c, contextReload)
    ensures UseAuthState(c).GetOr(JNull) == BaseAuth(c)
    ensures UseApiState(c) == PhaseOf(c)
  {
  }

  /**
   * The provider's context and a consumer's gating together: a request
   * goes out only after a reload has stored a truthy auth state.
   */
  lemma RequestNeedsAuthState(ps: ProviderState, transport: Request -> ApiResponse, req: Request)
    ensures |BaseRequest(ContextOf(ps), transport, req).sent| > 0 <==> Truthy(ps.authState)
  {
  }

  /** The default context refuses requests but delegates reloads (its reload yields null). */
  lemma DefaultContextGating(transport: Request -> ApiResponse, req: Request)
    ensures BaseRequest(DefaultContext, transport, req) == Call(NotActive, [], 0)
    ensures BaseReload(DefaultContext, JNull) == Call(JNull, [], 1)
    ensures PhaseOf(DefaultContext) == ErrorPhase
  {
  }
}
