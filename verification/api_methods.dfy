/**
 * The capability mixins of the client API (raven_client/src/util/api/methods):
 * each method builds one request, sends it through `BaseApi.request`, and
 * falls back to a fixed default when it fails. Login and account creation
 * reload the context after a truthy result.
 */
module ApiMethods {

  import opened Wrappers
  import opened JsonValues
  import opened Api

  function Plain(endpoint: string): Request
  {
    Request(endpoint, None)
  }

  function PostWith(endpoint: string, body: Json): Request
  {
    Request(endpoint, Some(RequestOptions(Some(Post), body, None)))
  }

  function PostEmpty(endpoint: string): Request
  {
    Request(endpoint, Some(RequestOptions(Some(Post), JUndefined, None)))
  }

  /** `data(await this.request(req), onFailure)`. */
  function Fetch(c: ApiContext, transport: Request -> ApiResponse, req: Request, onFailure: Json): (r: Call<Json>)
    ensures r.sent == (if c.Ready? then [req] else [])
    ensures r.reloads == 0
    ensures c.Ready? && transport(req).ApiSuccess? ==> r.result == transport(req).data
    ensures !(c.Ready? && transport(req).ApiSuccess?) ==> r.result == (if onFailure.JUndefined? then JNull else onFailure)
  {
    var q := BaseRequest(c, transport, req);
    Call(Data(q.result, onFailure), q.sent, 0)
  }

  /** The response is sent and succeeded. */
  predicate Succeeds(c: ApiContext, transport: Request -> ApiResponse, req: Request)
  {
    c.Ready? && transport(req).ApiSuccess?
  }

  // ---- auth.ts ----

  function Credentials(username: string, password: string): Json
  {
    JObj(map["username" := JStr(username), "password" := JStr(password)])
  }

  /** Shared shape of `login` and `create_user`: post the credentials, reload after a truthy result. */
  function SignIn(c: ApiContext, transport: Request -> ApiResponse, contextReload: Json, req: Request): (r: Call<Json>)
    ensures r.sent == (if c.Ready? then [req] else [])
    ensures r.result == (if Succeeds(c, transport, req) then transport(req).data else JNull)
    ensures r.reloads == (if Truthy(r.result) then 1 else 0)
  {
    var f := Fetch(c, transport, req, JUndefined);
    if Truthy(f.result) then
      var rl := BaseReload(c, contextReload);
      Call(f.result, f.sent, rl.reloads)
    else f
  }

  function Login(c: ApiContext, transport: Request -> ApiResponse, contextReload: Json, username: string, password: string): (r: Call<Json>)
    ensures var req := PostWith("/auth/login", Credentials(username, password));
      && r.sent == (if c.Ready? then [req] else [])
      && r.result == (if Succeeds(c, transport, req) then transport(req).data else JNull)
      && r.reloads == (if Truthy(r.result) then 1 else 0)
  {
    SignIn(c, transport, contextReload, PostWith("/auth/login", Credentials(username, password)))
  }

  function CreateUser(c: ApiContext, transport: Request -> ApiResponse, contextReload: Json, username: string, password: string): (r: Call<Json>)
    ensures var req := PostWith("/auth/create", Credentials(username, password));
      && r.sent == (if c.Ready? then [req] else [])
      && r.result == (if Succeeds(c, transport, req) then transport(req).data else JNull)
      && r.reloads == (if Truthy(r.result) then 1 else 0)
  {
    SignIn(c, transport, contextReload, PostWith("/auth/create", Credentials(username, password)))
  }

  /** A failed login yields null and reloads nothing. */
  lemma FailedLoginNoReload(c: ApiContext, transport: Request -> ApiResponse, contextReload: Json, username: string, password: string)
    requires !Succeeds(c, transport, PostWith("/auth/login", Credentials(username, password)))
    ensures Login(c, transport, contextReload, username, password).result == JNull
    ensures Login(c, transport, contextReload, username, password).reloads == 0
  {
  }

  /** `logout`: posts without a body, never reloads, returns nothing. */
  function Logout(c: ApiContext, transport: Request -> ApiResponse): (r: Call<()>)
    ensures r.sent == (if c.Ready? then [PostEmpty("/auth/logout")] else [])
    ensures r.reloads == 0
  {
    var q := BaseRequest(c, transport, PostEmpty("/auth/logout"));
    Call((), q.sent, 0)
  }

  // ---- scope.ts ----

  function OwnScopes(c: ApiContext, transport: Request -> ApiResponse): (r: Call<Json>)
    ensures r.sent == (if c.Ready? then [Plain("/auth/scopes")] else [])
    ensures Succeeds(c, transport, Plain("/auth/scopes")) ==> r.result == transport(Plain("/auth/scopes")).data
    ensures r.reloads == 0
    ensures !Succeeds(c, transport, Plain("/auth/scopes")) ==> r.result == JObj(map[])
  {
    Fetch(c, transport, Plain("/auth/scopes"), JObj(map[]))
  }

  function AllScopes(c: ApiContext, transport: Request -> ApiResponse): (r: Call<Json>)
    ensures r.sent == (if c.Ready? then [Plain("/auth/scopes/all")] else [])
    ensures Succeeds(c, transport, Plain("/auth/scopes/all")) ==> r.result == transport(Plain("/auth/scopes/all")).data
    ensures r.reloads == 0
    ensures !Succeeds(c, transport, Plain("/auth/scopes/all")) ==> r.result == JObj(map[])
  {
    Fetch(c, transport, Plain("/auth/scopes/all"), JObj(map[]))
  }

  function PathScopes(c: ApiContext, transport: Request -> ApiResponse, path: string): (r: Call<Json>)
    ensures r.sent == (if c.Ready? then [Plain("/auth/scopes/tree/" + path)] else [])
    ensures Succeeds(c, transport, Plain("/auth/scopes/tree/" + path)) ==> r.result == transport(Plain("/auth/scopes/tree/" + path)).data
    ensures r.reloads == 0
    ensures !Succeeds(c, transport, Plain("/auth/scopes/tree/" + path)) ==> r.result == JNull
  {
    Fetch(c, transport, Plain("/auth/scopes/tree/" + path), JNull)
  }

  function HasAnyScopes(c: ApiContext, transport: Request -> ApiResponse, scopes: seq<string>): (r: Call<Json>)
    ensures var req := PostWith("/auth/scopes/validate", JObj(map["scopes" := StrArr(scopes)]));
      && r.sent == (if c.Ready? then [req] else [])
      && (Succeeds(c, transport, req) ==> r.result == transport(req).data)
      && r.reloads == 0
      && (!Succeeds(c, transport, req) ==> r.result == JBool(false))
  {
    Fetch(c, transport, PostWith("/auth/scopes/validate", JObj(map["scopes" := StrArr(scopes)])), JBool(false))
  }

  function HasAllScopes(c: ApiContext, transport: Request -> ApiResponse, scopes: seq<string>): (r: Call<Json>)
    ensures var req := PostWith("/auth/scopes/validate", JObj(map["scopes" := StrArr(scopes), "all" := JBool(true)]));
      && r.sent == (if c.Ready? then [req] else [])
      && (Succeeds(c, transport, req) ==> r.result == transport(req).data)
      && r.reloads == 0
      && (!Succeeds(c, transport, req) ==> r.result == JBool(false))
  {
    Fetch(c, transport, PostWith("/auth/scopes/validate", JObj(map["scopes" := StrArr(scopes), "all" := JBool(true)])), JBool(false))
  }

  /** The two scope checks differ only in the `all` flag of the body. */
  lemma ScopeChecksDiffer(scopes: seq<string>)
    ensures var any := PostWith("/auth/scopes/validate", JObj(map["scopes" := StrArr(scopes)]));
      var all := PostWith("/auth/scopes/validate", JObj(map["scopes" := StrArr(scopes), "all" := JBool(true)]));
      any.endpoint == all.endpoint && "all" !in any.options.value.body.fields && all.options.value.body.fields["all"] == JBool(true)
  {
  }

  // ---- resource.ts ----

  function ListResources(c: ApiContext, transport: Request -> ApiResponse): (r: Call<Json>)
    ensures r.sent == (if c.Ready? then [Plain("/resources")] else [])
    ensures Succeeds(c, transport, Plain("/resources")) ==> r.result == transport(Plain("/resources")).data
    ensures r.reloads == 0
    ensures !Succeeds(c, transport, Plain("/resources")) ==> r.result == JArr([])
  {
    Fetch(c, transport, Plain("/resources"), JArr([]))
  }

  function GetExecutorsForResource(c: ApiContext, transport: Request -> ApiResponse, resources: seq<Json>): (r: Call<Json>)
    ensures r.sent == (if c.Ready? then [PostWith("/resources/executors", JArr(resources))] else [])
    ensures Succeeds(c, transport, PostWith("/resources/executors", JArr(resources))) ==> r.result == transport(PostWith("/resources/executors", JArr(resources))).data
    ensures r.reloads == 0
    ensures !Succeeds(c, transport, PostWith("/resources/executors", JArr(resources))) ==> r.result == JArr([])
  {
    Fetch(c, transport, PostWith("/resources/executors", JArr(resources)), JArr([]))
  }

  function GetResourcesByTarget(c: ApiContext, transport: Request -> ApiResponse, targets: seq<Json>): (r: Call<Json>)
    ensures r.sent == (if c.Ready? then [PostWith("/resources/filtered", JArr(targets))] else [])
    ensures Succeeds(c, transport, PostWith("/resources/filtered", JArr(targets))) ==> r.result == transport(PostWith("/resources/filtered", JArr(targets))).data
    ensures r.reloads == 0
    ensures !Succeeds(c, transport, PostWith("/resources/filtered", JArr(targets))) ==> r.result == JArr([])
  {
    Fetch(c, transport, PostWith("/resources/filtered", JArr(targets)), JArr([]))
  }

  function ExecuteBody(executor: Json, args: map<string, Json>, target: Json): Json
  {
    JObj(map["target" := target, "executor" := executor, "args" := JObj(args)])
  }

  /** `execute_on_resource`: returns nothing whatever the outcome. */
  function ExecuteOnResource(c: ApiContext, transport: Request -> ApiResponse, executor: Json, args: map<string, Json>, target: Json): (r: Call<()>)
    ensures r.sent == (if c.Ready? then [PostWith("/resources/execute", ExecuteBody(executor, args, target))] else [])
    ensures r.reloads == 0
  {
    var q := BaseRequest(c, transport, PostWith("/resources/execute", ExecuteBody(executor, args, target)));
    Call((), q.sent, 0)
  }

  // ---- plugin.ts ----

  function ListPlugins(c: ApiContext, transport: Request -> ApiResponse): (r: Call<Json>)
    ensures r.sent == (if c.Ready? then [Plain("/plugins")] else [])
    ensures Succeeds(c, transport, Plain("/plugins")) ==> r.result == transport(Plain("/plugins")).data
    ensures r.reloads == 0
    ensures !Succeeds(c, transport, Plain("/plugins")) ==> r.result == JObj(map[])
  {
    Fetch(c, transport, Plain("/plugins"), JObj(map[]))
  }

  function GetPlugin(c: ApiContext, transport: Request -> ApiResponse, name: string): (r: Call<Json>)
    ensures r.sent == (if c.Ready? then [Plain("/plugins/" + name)] else [])
    ensures Succeeds(c, transport, Plain("/plugins/" + name)) ==> r.result == transport(Plain("/plugins/" + name)).data
    ensures r.reloads == 0
    ensures !Succeeds(c, transport, Plain("/plugins/" + name)) ==> r.result == JNull
  {
    Fetch(c, transport, Plain("/plugins/" + name), JNull)
  }

  // ---- pipeline_io.ts ----

  function AllIO(c: ApiContext, transport: Request -> ApiResponse): (r: Call<Json>)
    ensures r.sent == (if c.Ready? then [Plain("/pipelines/io")] else [])
    ensures Succeeds(c, transport, Plain("/pipelines/io")) ==> r.result == transport(Plain("/pipelines/io")).data
    ensures r.reloads == 0
    ensures !Succeeds(c, transport, Plain("/pipelines/io")) ==> r.result == JArr([])
  {
    Fetch(c, transport, Plain("/pipelines/io"), JArr([]))
  }

  function TriggerIO(c: ApiContext, transport: Request -> ApiResponse): (r: Call<Json>)
    ensures r.sent == (if c.Ready? then [Plain("/pipelines/io/triggers")] else [])
    ensures Succeeds(c, transport, Plain("/pipelines/io/triggers")) ==> r.result == transport(Plain("/pipelines/io/triggers")).data
    ensures r.reloads == 0
    ensures !Succeeds(c, transport, Plain("/pipelines/io/triggers")) ==> r.result == JArr([])
  {
    Fetch(c, transport, Plain("/pipelines/io/triggers"), JArr([]))
  }

  function DataIO(c: ApiContext, transport: Request -> ApiResponse): (r: Call<Json>)
    ensures r.sent == (if c.Ready? then [Plain("/pipelines/io/data")] else [])
    ensures Succeeds(c, transport, Plain("/pipelines/io/data")) ==> r.result == transport(Plain("/pipelines/io/data")).data
    ensures r.reloads == 0
    ensures !Succeeds(c, transport, Plain("/pipelines/io/data")) ==> r.result == JArr([])
  {
    Fetch(c, transport, Plain("/pipelines/io/data"), JArr([]))
  }

  function GetIO(c: ApiContext, transport: Request -> ApiResponse, id: string): (r: Call<Json>)
    ensures r.sent == (if c.Ready? then [Plain("/pipelines/io/" + id)] else [])
    ensures Succeeds(c, transport, Plain("/pipelines/io/" + id)) ==> r.result == transport(Plain("/pipelines/io/" + id)).data
    ensures r.reloads == 0
    ensures !Succeeds(c, transport, Plain("/pipelines/io/" + id)) ==> r.result == JNull
  {
    Fetch(c, transport, Plain("/pipelines/io/" + id), JNull)
  }

  function CreateTriggerIO(c: ApiContext, transport: Request -> ApiResponse, model: Json): (r: Call<Json>)
    ensures r.sent == (if c.Ready? then [PostWith("/pipelines/io/triggers", model)] else [])
    ensures Succeeds(c, transport, PostWith("/pipelines/io/triggers", model)) ==> r.result == transport(PostWith("/pipelines/io/triggers", model)).data
    ensures r.reloads == 0
    ensures !Succeeds(c, transport, PostWith("/pipelines/io/triggers", model)) ==> r.result == JNull
  {
    Fetch(c, transport, PostWith("/pipelines/io/triggers", model), JNull)
  }

  function CreateDataIO(c: ApiContext, transport: Request -> ApiResponse, model: Json): (r: Call<Json>)
    ensures r.sent == (if c.Ready? then [PostWith("/pipelines/io/data", model)] else [])
    ensures Succeeds(c, transport, PostWith("/pipelines/io/data", model)) ==> r.result == transport(PostWith("/pipelines/io/data", model)).data
    ensures r.reloads == 0
    ensures !Succeeds(c, transport, PostWith("/pipelines/io/data", model)) ==> r.result == JNull
  {
    Fetch(c, transport, PostWith("/pipelines/io/data", model), JNull)
  }

  function EditIO(c: ApiContext, transport: Request -> ApiResponse, id: string, model: Json): (r: Call<Json>)
    ensures r.sent == (if c.Ready? then [PostWith("/pipelines/io/" + id + "/edit", model)] else [])
    ensures Succeeds(c, transport, PostWith("/pipelines/io/" + id + "/edit", model)) ==> r.result == transport(PostWith("/pipelines/io/" + id + "/edit", model)).data
    ensures r.reloads == 0
    ensures !Succeeds(c, transport, PostWith("/pipelines/io/" + id + "/edit", model)) ==> r.result == JNull
  {
    Fetch(c, transport, PostWith("/pipelines/io/" + id + "/edit", model), JNull)
  }

  /** `delete_io`: a DELETE request, nothing returned. */
  function DeleteIO(c: ApiContext, transport: Request -> ApiResponse, id: string): (r: Call<()>)
    ensures r.sent == (if c.Ready? then [Request("/pipelines/io/" + id, Some(RequestOptions(Some(Delete), JUndefined, None)))] else [])
    ensures r.reloads == 0
  {
    var q := BaseRequest(c, transport, Request("/pipelines/io/" + id, Some(RequestOptions(Some(Delete), JUndefined, None))));
    Call((), q.sent, 0)
  }

  function DuplicateIO(c: ApiContext, transport: Request -> ApiResponse, id: string): (r: Call<Json>)
    ensures r.sent == (if c.Ready? then [PostEmpty("/pipelines/io/" + id + "/copy")] else [])
    ensures Succeeds(c, transport, PostEmpty("/pipelines/io/" + id + "/copy")) ==> r.result == transport(PostEmpty("/pipelines/io/" + id + "/copy")).data
    ensures r.reloads == 0
    ensures !Succeeds(c, transport, PostEmpty("/pipelines/io/" + id + "/copy")) ==> r.result == JNull
  {
    Fetch(c, transport, PostEmpty("/pipelines/io/" + id + "/copy"), JNull)
  }

  /** Creating a trigger I/O posts to the same endpoint that lists triggers. */
  lemma CreateTriggerSharesListEndpoint(model: Json)
    ensures PostWith("/pipelines/io/triggers", model).endpoint == Plain("/pipelines/io/triggers").endpoint
    ensures ConfigOf(PostWith("/pipelines/io/triggers", model)).verb == Post
    ensures ConfigOf(Plain("/pipelines/io/triggers")).verb == Get
  {
  }

  /** A post without a body reaches axios with no data; a DELETE never carries one. */
  lemma BodylessRequests(id: string)
    ensures ConfigOf(PostEmpty("/pipelines/io/" + id + "/copy")).data == JUndefined
    ensures ConfigOf(Request("/pipelines/io/" + id, Some(RequestOptions(Some(Delete), JStr("x"), None)))).data == JUndefined
  {
  }
}
