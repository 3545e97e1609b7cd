# Raven in Dafny

A model of the core of Raven, a plugin host split into a Python server
(`raven_api`) and a TypeScript web client (`raven_client`). The model
covers both halves.

On the server it covers:

- the dotted-path wildcard matcher that routes events to subscriptions;
- execution-target matching of resources;
- the pipeline-field validators and the value fallback;
- the permission-scope tree;
- the lifecycle and event registries;
- the events controller's command parsing, subscription edits and forwarding rule;
- export-path resolution;
- the custom-resource projections.

On the client it covers:

- the API envelope, context phases and request gating;
- every capability-mixin method as "build this request, default on failure";
- the event-subscription manager as a state machine, kept in step with the server's subscription list;
- the resource cache and lookup;
- the resource list, modal and icon picker rules;
- the executor form;
- the pipeline I/O create, edit and field editors;
- the I/O tab's saved/current values;
- the login and sign-up form.

Values are modelled in two families:

- Python values: `PyValues.PyValue`, with Python's `==`, truthiness and `type()`.
- JavaScript values: `JsonValues.Json`, with undefined/null, truthiness, `??` and `?.`.

Python dicts and JavaScript objects whose key order is never observed are
maps. The subscription table, whose order is observed, is a sequence of
pairs. Transport, sockets, timers and fresh-id generation become
parameters: a `transport` function, an outbox of control messages, a
reconnect flag returned by the close handler, and an id string passed in.

## Model

| member | source | states |
|---|---|---|
| Glob.GlobMatch | test.py:19-40 | the two nested loops return exactly the reference selection: the input entries the pattern accepts, in input order |
| Glob.SelectedMembers | test.py:21-40 | an entry is in the result iff it is in the input and the pattern accepts it |
| Glob.SelectedAppend | test.py:22-38 | matching distributes over concatenation, so input order is kept and nothing is added |
| Glob.SelectedShorter | test.py:21-40 | the result is never longer than the input |
| Glob.SelectedAll | test.py:21-40 | when every entry is accepted the result is the whole input |
| Glob.StarSelectsAll | test.py:27-31 | the pattern `*` returns every entry |
| Glob.SelfMatch | test.py:24-35 | an entry equal to the pattern is always accepted |
| Glob.NoStarIsPrefix | test.py:25-35 | for a pattern without `*` segments, an entry is accepted iff its segments are a prefix of the pattern's segments |
| Glob.LongerEntry | test.py:26-29 | an accepted entry with more segments than the pattern implies the pattern's last segment is `*` |
| Glob.StarSegmentAcceptsAny | test.py:31 | a `*` pattern segment accepts any segment at its position |
| Text.Split | test.py:20 | `str.split` on one character: at least one part, no part contains the separator, no separator gives the whole string |
| Text.JoinSplit | test.py:20 | joining the parts of a split gives back the string |
| Text.SplitJoin | test.py:20 | splitting a join of separator-free parts gives back the parts |
| Text.SplitOnce | raven_api/common/models/scope.py:20-22 | `str.split(sep, 1)`: the head holds no separator; a tail exists iff the separator occurs, and head, separator and tail rebuild the string |
| Text.StripShape | raven_api/common/plugin/models/manifest.py:22 | `str.strip(c)` leaves no `c` at either end, and gives empty iff the string is all `c` |
| ExecutorTargets.MatchFragmentIff | raven_api/common/plugin/models/executor.py:6-27 | a fragment matches iff every key is in the test dict with the same `type()`, an `==`-equal value, and (for dicts) a recursively matching value |
| ExecutorTargets.EqualItemsAreMembers | raven_api/common/plugin/models/executor.py:19-22 | element-wise equal lists make each element a member, so the list branch never rejects what the final `!=` accepts |
| ExecutorTargets.EmptyFragmentMatches | raven_api/common/plugin/models/executor.py:7-27 | the empty fragment matches any dict |
| ExecutorTargets.FragmentMatchesItself | raven_api/common/plugin/models/executor.py:7-27 | every dict matches itself |
| ExecutorTargets.NestedTypesMustAgree | raven_api/common/plugin/models/executor.py:12-16 | nested values must agree in `type()`: `{"a": {"b": 1}}` does not match `{"a": {"b": 1.0}}` although the dicts are equal |
| ExecutorTargets.StringPropertyTypeNeverMatches | raven_api/common/plugin/models/executor.py:12-37 | a property-type criterion given as a plain string never matches, because the dumped type is an enum member |
| ExecutorTargets.MatchesIff | raven_api/common/plugin/models/executor.py:36-81 | a target matches iff each truthy criterion (category, tags, id, fragment) accepts the resource |
| ExecutorTargets.EmptyTargetMatchesAll | raven_api/common/plugin/models/executor.py:36-81 | a target whose criteria are all None or empty matches every resource |
| ExecutorTargets.NoCategory | raven_api/common/plugin/models/executor.py:38-41 | a category criterion on a resource without category matches iff `match_none` is set |
| ExecutorTargets.EmptyTagGroupAcceptsAll | raven_api/common/plugin/models/executor.py:57-66 | an empty tag group in a tags list is vacuously present, so the tags criterion passes |
| ExecutorTargets.StringArgumentMode | raven_api/common/plugin/models/executor.py:106-115 | the mode is password iff `password`; multiline iff not password and multiline; suggesting iff neither and suggestions non-empty; normal otherwise |
| PipelineFields.Value | raven_api/common/models/pipelines.py:17-22 | the value is `val` unless it is None, then `default_value` |
| PipelineFields.ValidateString | raven_api/common/models/pipelines.py:40-43 | a string passes iff no max length or within it; None passes without a max length and raises TypeError with one; anything else fails |
| PipelineFields.OptionValues | raven_api/common/models/pipelines.py:83 | the option values, one per option: the string itself or the dict's `value`; a dict without `value` raises KeyError |
| PipelineFields.SetValue | raven_api/common/models/pipelines.py:27-32 | setting raises iff validation raises, and changes nothing but `val`; colour fields use the intended colour check |
| PipelineFields.SetValueAsWritten | raven_api/common/models/pipelines.py:27-32 | the setter with the written colour check: raises iff that check raises, and changes nothing but `val` |
| PipelineFields.SetterAsWrittenDiffersOnColours | raven_api/common/models/pipelines.py:27-32 | the written setter raises TypeError for a colour field and any value but None, and otherwise agrees with the intended setter |
| PipelineFields.SetColorAsWrittenRaises | raven_api/common/models/pipelines.py:107-113 | a colour field set to `#00ff00` raises as written and stores the colour as intended |
| PipelineFields.ReadAfterSet | raven_api/common/models/pipelines.py:17-32 | after setting (colour fields under the intended check), the value reads back as the input when it validates and is not None, else as the default |
| PipelineFields.SetNoneShowsDefault | raven_api/common/models/pipelines.py:17-32 | setting None makes the value read as the default |
| PipelineFields.NumberValidIff | raven_api/common/models/pipelines.py:53-67 | a number passes iff its type is exactly int or float, it is integral unless decimals are allowed, non-negative unless negatives are allowed, and within the optional inclusive bounds |
| PipelineFields.NumberRejectsBoolAndNone | raven_api/common/models/pipelines.py:54 | bools and None are rejected whatever the settings, while the ints 0 and 1 pass |
| PipelineFields.NumberDecimals | raven_api/common/models/pipelines.py:55-56 | without decimals 2.5 fails and 2.0 passes |
| PipelineFields.SelectValidIff | raven_api/common/models/pipelines.py:79-87 | a list passes iff multiple is set and every element is a string (or `StrEnum` member) naming an option value; a scalar passes iff it is such a string |
| PipelineFields.InOptionValues | raven_api/common/models/pipelines.py:84-87 | `x in [str options]` holds exactly for text equal to one of the option values; numbers, None and containers never match |
| PipelineFields.SelectMatchesDictValue | raven_api/common/models/pipelines.py:83 | a `{label, value}` option is matched by its value, not its label |
| PipelineFields.SelectListNeedsMultiple | raven_api/common/models/pipelines.py:80-81 | a list never passes when multiple is off |
| PipelineFields.ListValidIff | raven_api/common/models/pipelines.py:95-100 | None passes; a list passes iff no max length or within it; anything else fails |
| PipelineFields.ValidateColorAsWritten | raven_api/common/models/pipelines.py:107-113 | as written, validation succeeds only for None and raises TypeError for every other value |
| PipelineFields.ColorAsWrittenRaisesOnValidColor | raven_api/common/models/pipelines.py:107-113 | `#00ff00` is a valid colour for the intended check, yet the written check raises TypeError on it |
| PipelineFields.ValidateColor | raven_api/common/models/pipelines.py:107-113 | the intended check: passes iff None or `#` followed by 6 (8 with alpha) lower-case hex digits |
| PipelineFields.ParseHex2 | raven_api/common/models/pipelines.py:127 | `int(p, 16)` on two characters: two hex digits give their value; a sign and one digit give -15..15; two non-digits raise ValueError |
| PipelineFields.Slice | raven_api/common/models/pipelines.py:123-125 | Python slicing: at most `b - a` characters, exactly `s[a:b]` when in range |
| PipelineFields.Channels | raven_api/common/models/pipelines.py:123-127 | the parsed channels, one per two-character slice, in order |
| PipelineFields.Rgb | raven_api/common/models/pipelines.py:117-131 | three channels (four with alpha); all zero for a None value |
| PipelineFields.ChannelRoundTrip | raven_api/common/models/pipelines.py:127 | two lower-case hex digits parse to 0..255 and print back to themselves |
| PipelineFields.ColorChannels | raven_api/common/models/pipelines.py:123-127 | a valid colour text parses into three channels in 0..255 that print back to the text |
| PipelineFields.RgbOfValidColor | raven_api/common/models/pipelines.py:117-131 | a field holding a valid non-alpha colour has an rgb of three channels in 0..255 that reproduce its value |
| PipelineFields.ChannelQuirks | raven_api/common/models/pipelines.py:127 | `int(p, 16)` accepts a sign or a leading space in a slice and raises on `0x`; a one-character slice becomes 0 |
| ScopeTree.Path | raven_api/common/models/scope.py:41-47 | the path is `parent.id` when the parent is truthy, else the id |
| ScopeTree.Get | raven_api/common/models/scope.py:16-24 | indexing either succeeds or raises KeyError |
| ScopeTree.GetIsWalk | raven_api/common/models/scope.py:16-22 | indexing by a dotted key descends one child per dot-segment |
| ScopeTree.GetEmptyKey | raven_api/common/models/scope.py:17-24 | indexing by None or `""` returns the scope itself |
| ScopeTree.GetChild | raven_api/common/models/scope.py:18-22 | a dot-free key returns that child, or raises KeyError naming it |
| ScopeTree.GetStep | raven_api/common/models/scope.py:18-20 | indexing by `head.rest` is indexing the child `head` by `rest`, or KeyError(head) when it is missing |
| ScopeTree.AddAt | raven_api/common/models/scope.py:26-35 | insertion keeps the id and every existing child key, or raises KeyError |
| ScopeTree.AddAtRoot | raven_api/common/models/scope.py:26-30 | after `add_scope("", x)`, `children[x.id]` is `x` with parent `""`, its path is `x.id`, and the other children are unchanged |
| ScopeTree.AddStep | raven_api/common/models/scope.py:31-33 | inserting at `head.rest` is inserting at `rest` in the child `head` |
| ScopeTree.AddThenGet | raven_api/common/models/scope.py:16-35 | inserting below a path that resolves succeeds, and the scope is then found at `path.id` (or `id` at the root) |
| ScopeTree.AddThenGetNested | raven_api/common/models/scope.py:31-33 | the dotted case of the above |
| ScopeTree.AddScopeThenGet | raven_api/common/models/scope.py:26-47 | after `add_scope(p, x)` at a resolvable `p`, indexing `p.id` gives `x` with parent `p`, and its path is `p.id` |
| ScopeTree.AddMissingParent | raven_api/common/models/scope.py:34-35 | `add_scope` at a missing top-level key raises KeyError naming it |
| ScopeTree.Build | raven_api/common/models/scope.py:49-64 | `from_spec` returns a `root` scope without parent or display name whose child keys are the spec's keys |
| ScopeTree.BuildMirrors | raven_api/common/models/scope.py:49-64 | at every level the keys mirror the spec; each node's id is its key, its display name is the spec's, and its path is the dotted key path |
| ScopeTree.FromSpecMirrors | raven_api/common/models/scope.py:49-64 | the same from the top, with no path prefix |
| ScopeTree.WalkMirror | raven_api/common/models/scope.py:16-64 | walking keys present in the spec reaches the node whose id is the last key and whose path is the dotted keys |
| ScopeTree.ResolveInSpec | raven_api/common/models/scope.py:16-64 | every dotted key path of the spec resolves in `from_spec(spec)` to a node with that path |
| ScopeTree.DefaultScopesResolve | raven_api/common/models/scope.py:67-155 | every entry of `DEFAULT_SCOPES` resolves in `from_spec(CORE_SCOPE)` to a scope with that path |
| Lifecycle.Register | raven_api/common/plugin/models/lifecycle.py:8-12 | registration raises ValueError iff the pair is already present; otherwise exactly that pair is added |
| Lifecycle.Get | raven_api/common/plugin/models/lifecycle.py:14-15 | a value is returned iff the pair is registered, else None |
| Lifecycle.GetAfterRegister | raven_api/common/plugin/models/lifecycle.py:8-15 | after registering a fresh pair, `get` returns the registered value |
| Lifecycle.DuplicateKeepsValue | raven_api/common/plugin/models/lifecycle.py:9-10 | registering an existing pair raises ValueError and so leaves the stored value in place |
| Lifecycle.RegisterIsolated | raven_api/common/plugin/models/lifecycle.py:12 | a registration leaves every other pair, including the same key under another plugin, unchanged |
| Lifecycle.EmptyHasNothing | raven_api/common/plugin/models/lifecycle.py:5-15 | a fresh context returns None for every pair |
| EventRegistry.Register | raven_api/common/plugin/models/event.py:19-24 | the decorator returns the class unchanged and maps the path to it, leaving every other path's mapping as it was |
| EventRegistry.RegisterOverwrites | raven_api/common/plugin/models/event.py:21 | registering a path twice keeps only the later class |
| EventRegistry.Decode | raven_api/common/plugin/models/event.py:50-57 | None without a `path` key or for an unregistered path; an unhashable path raises TypeError; otherwise the constructor's result, with a failed construction giving None |
| EventRegistry.DecodeStringPathNeverRaises | raven_api/common/plugin/models/event.py:50-57 | a string path never raises, and an event is returned only for a registered path |
| EventRegistry.Emit | raven_api/common/plugin/models/event.py:26-48 | the emitter builds nothing for an unregistered path; when the data repeats an emitter keyword the failure is swallowed; otherwise it constructs from the data plus id, source, path, time and scope |
| EventRegistry.EmitUnregistered | raven_api/common/plugin/models/event.py:33-46 | emitting on an unregistered path emits nothing and does not raise |
| EventsController.StringItems | raven_api/controllers/events.py:43 | the `paths` field validates iff it is a list or tuple of strings, giving those strings in order |
| EventsController.ParseCommand | raven_api/controllers/events.py:36-46 | None for a non-dict or a dict without `command`; a parsed command carries the validated paths and names the command given |
| EventsController.UnknownCommand | raven_api/controllers/events.py:38-45 | an unknown command name parses to None |
| EventsController.ParseAdd | raven_api/controllers/events.py:36-45 | a well-formed `subscriptions.add` message parses to an add command with its paths |
| EventsController.AddSubscriptionPaths | raven_api/controllers/events.py:58-62 | the loop appends each path not yet present: the old list is a prefix, membership is old or added, and no duplicates are created |
| EventsController.AddMembers | raven_api/controllers/events.py:58-61 | after an add, a path is present iff it was present or added |
| EventsController.AddPresent | raven_api/controllers/events.py:59-61 | adding paths already present leaves the list unchanged |
| EventsController.AddNoDuplicates | raven_api/controllers/events.py:59-61 | an add keeps a duplicate-free list duplicate-free |
| EventsController.AddIdempotent | raven_api/controllers/events.py:59-61 | adding the same paths twice is adding them once |
| EventsController.RemovePaths | raven_api/controllers/events.py:63-66 | a remove keeps exactly the entries not listed |
| EventsController.RemoveAfterAdd | raven_api/controllers/events.py:58-66 | removing paths just added gives what removing them alone gives |
| EventsController.RemoveAppend | raven_api/controllers/events.py:64-66 | removal distributes over concatenation, so the kept entries stay in order |
| EventsController.RemoveMore | raven_api/controllers/events.py:64-66 | removing a set and then a superset is removing the superset |
| EventsController.EventData | raven_api/controllers/events.py:88-100 | the forwarded data never holds id, source, scope, path, emitted or is_global |
| EventsController.EventDataIsOwnFields | raven_api/controllers/events.py:88-100 | the forwarded data is exactly the event's other fields |
| EventsController.Deliver | raven_api/controllers/events.py:79-113 | an event is sent only when some subscription matches |
| EventsController.DeliverIff | raven_api/controllers/events.py:79-113 | it is sent iff some subscription matches and it is global or the logged-in user holds its scopes; the sent event has type = path, global channel iff global scope, the matching subscriptions and the filtered data |
| Manifest.Descend | raven_api/common/plugin/models/manifest.py:23-33 | walking the segments fails only with an unknown-submodule or non-module error naming one of the segments |
| Manifest.Resolve | raven_api/common/plugin/models/manifest.py:20-38 | resolution either returns a member or raises ImportError |
| Manifest.ResolveWithoutPath | raven_api/common/plugin/models/manifest.py:22-38 | with no import path, or one of dots only, the member is looked up on the base module; a missing member raises the unknown-member error |
| Manifest.SegmentsOfStripped | raven_api/common/plugin/models/manifest.py:22-23 | the segments walked are the dot-split of the path with outer dots stripped, at least one |
| Manifest.ResolveStep | raven_api/common/plugin/models/manifest.py:24-33 | a missing segment raises unknown-submodule, a non-module segment raises non-module, and a module segment continues the walk inside it |
| Manifest.DescendAppend | raven_api/common/plugin/models/manifest.py:23-33 | the segments are walked in order: walking `a + b` is walking `a` and then `b` |
| Manifest.ResolveFound | raven_api/common/plugin/models/manifest.py:22-35 | when the walk reaches a module holding the member, that member is returned |
| Manifest.OuterDotsIgnored | raven_api/common/plugin/models/manifest.py:22-23 | stripping removes surrounding dots and leaves a dot-free-edged path as is |
| Manifest.ResolveOuterDots | raven_api/common/plugin/models/manifest.py:22-23 | surrounding the import path with dots changes neither the segments nor the outcome |
| CustomResources.AsExecutor | raven_api/common/models/custom_resource.py:19-28 | plugin and export are `INTERNAL`; id, name, description and arguments are copied; the only target selects the executor's id |
| CustomResources.AsResource | raven_api/common/models/custom_resource.py:44-56 | id, plugin `INTERNAL`, state key and properties as given; the metadata's display name is the name, with icon, category and tags copied |
| CustomResources.GetExecutors | raven_api/common/models/custom_resource.py:58-59 | one executor per entry, in dict order, each its `as_executor` |
| CustomResources.ExecutorTargetSelectsById | raven_api/common/models/custom_resource.py:26 | the executor's target matches a resource iff its id is the executor id (an empty id selects everything) |
| CustomResources.OwnExecutorTargetsOwnResource | raven_api/common/models/custom_resource.py:26-59 | an executor whose id is the resource id targets the custom resource itself |
| Api.Data | raven_client/src/util/api/types.ts:18-27 | a success yields its payload whatever the fallback; a failure yields the fallback, or null when none is given |
| Api.ConfigOf | raven_client/src/util/api/ApiProvider.tsx:29-40 | the url is the endpoint; the method is get unless one is given; a body is forwarded only for patch, post and put |
| Api.Normalize | raven_client/src/util/api/ApiProvider.tsx:28-70 | `request` never throws: a response is a success with its data; an HTTP error keeps its status, text and body; no response gives status 0 with the request; any other failure gives status 0 with the cause |
| Api.ContextOf | raven_client/src/util/api/ApiProvider.tsx:93-99 | the context is ready iff an auth state is held (and carries it); error iff not and the error text is non-empty (and carries it); loading otherwise |
| Api.Reload | raven_client/src/util/api/ApiProvider.tsx:75-85 | a successful reload stores the auth state and clears the error; a failed one clears the auth state and stores the status text; it returns `data(state)` |
| Api.InitiallyLoading | raven_client/src/util/api/ApiProvider.tsx:11-99 | before any reload completes the context is loading |
| Api.ContextAfterReload | raven_client/src/util/api/ApiProvider.tsx:75-99 | after a reload the context is ready with a truthy payload, error with a non-empty status text, and loading otherwise |
| Api.EmptyStatusTextLoads | raven_client/src/util/api/ApiProvider.tsx:82-98 | a failed reload with empty status text leaves the context loading, since `""` is falsy |
| Api.ReloadForgets | raven_client/src/util/api/ApiProvider.tsx:75-85 | the state after a reload depends only on its response |
| Api.BaseRequest | raven_client/src/util/api/methods/base.ts:10-24 | a request is delegated (and sent) iff the context is ready; otherwise the not-active error is returned and nothing is sent |
| Api.BaseReload | raven_client/src/util/api/methods/base.ts:26-32 | reload returns null without reloading iff loading; in ready and error it delegates |
| Api.BaseAuth | raven_client/src/util/api/methods/base.ts:38-44 | `auth` is the context's auth state when ready, else null |
| Api.UseApiRequest | raven_client/src/util/api/index.ts:35-51 | the hook hands out the context's request iff ready, else the not-active dummy |
| Api.UseApiReload | raven_client/src/util/api/index.ts:53-57 | the hook hands out the null dummy iff loading, else the context's reload |
| Api.UseAuthState | raven_client/src/util/api/index.ts:59-62 | the auth state is present iff ready, and then is the context's |
| Api.HooksAgreeWithBaseApi | raven_client/src/util/api/index.ts:31-62 | the hooks behave exactly as `BaseApi`'s request, reload, auth and state |
| Api.RequestNeedsAuthState | raven_client/src/util/api/ApiProvider.tsx:93-99 | a request reaches the transport iff the provider holds a truthy auth state |
| Api.DefaultContextGating | raven_client/src/util/api/types.ts:64-68 | the default context is in the error phase: requests send nothing and return not-active, and reload resolves to null |
| ApiMethods.Fetch | raven_client/src/util/api/methods/base.ts:10-24 | the shared shape of a mixin method: the request is sent iff ready, nothing reloads, and the result is the payload on success, else the method's fallback (null when it gives none) |
| ApiMethods.SignIn | raven_client/src/util/api/methods/auth.ts:11-20 | posting credentials sends iff ready; the result is the payload or null; the context reloads exactly once iff the result is truthy |
| ApiMethods.Login | raven_client/src/util/api/methods/auth.ts:7-21 | `login` posts `{username, password}` to `/auth/login`, returns the user or null, and reloads exactly once iff a user came back |
| ApiMethods.CreateUser | raven_client/src/util/api/methods/auth.ts:23-37 | `create_user` does the same against `/auth/create` |
| ApiMethods.FailedLoginNoReload | raven_client/src/util/api/methods/auth.ts:11-20 | a failed login returns null and does not reload |
| ApiMethods.Logout | raven_client/src/util/api/methods/auth.ts:39-43 | `logout` posts to `/auth/logout` with no body and never reloads |
| ApiMethods.OwnScopes | raven_client/src/util/api/methods/scope.ts:7-10 | GET `/auth/scopes`, `{}` on failure |
| ApiMethods.AllScopes | raven_client/src/util/api/methods/scope.ts:12-15 | GET `/auth/scopes/all`, `{}` on failure |
| ApiMethods.PathScopes | raven_client/src/util/api/methods/scope.ts:17-22 | GET `/auth/scopes/tree/<path>`, null on failure |
| ApiMethods.HasAnyScopes | raven_client/src/util/api/methods/scope.ts:24-32 | posts `{scopes}` to `/auth/scopes/validate`, false on failure |
| ApiMethods.HasAllScopes | raven_client/src/util/api/methods/scope.ts:34-42 | posts `{scopes, all: true}` to the same endpoint, false on failure |
| ApiMethods.ScopeChecksDiffer | raven_client/src/util/api/methods/scope.ts:24-42 | the two checks share the endpoint and differ only in the `all` flag, absent for "any" |
| ApiMethods.ListResources | raven_client/src/util/api/methods/resource.ts:8-10 | GET `/resources`, `[]` on failure |
| ApiMethods.GetExecutorsForResource | raven_client/src/util/api/methods/resource.ts:12-22 | posts the resource list to `/resources/executors`, `[]` on failure |
| ApiMethods.GetResourcesByTarget | raven_client/src/util/api/methods/resource.ts:24-34 | posts the targets to `/resources/filtered`, `[]` on failure |
| ApiMethods.ExecuteOnResource | raven_client/src/util/api/methods/resource.ts:36-45 | posts `{target, executor, args}` to `/resources/execute` and returns nothing whatever the outcome |
| ApiMethods.ListPlugins | raven_client/src/util/api/methods/plugin.ts:7-16 | GET `/plugins` with no options; the payload on success, `{}` on failure |
| ApiMethods.GetPlugin | raven_client/src/util/api/methods/plugin.ts:18-23 | GET `/plugins/<name>`; the payload on success, null on failure |
| ApiMethods.AllIO | raven_client/src/util/api/methods/pipeline_io.ts:23-25 | GET `/pipelines/io`, `[]` on failure |
| ApiMethods.TriggerIO | raven_client/src/util/api/methods/pipeline_io.ts:27-34 | GET `/pipelines/io/triggers`, `[]` on failure |
| ApiMethods.DataIO | raven_client/src/util/api/methods/pipeline_io.ts:36-41 | GET `/pipelines/io/data`, `[]` on failure |
| ApiMethods.GetIO | raven_client/src/util/api/methods/pipeline_io.ts:43-48 | GET `/pipelines/io/<id>`, null on failure |
| ApiMethods.CreateTriggerIO | raven_client/src/util/api/methods/pipeline_io.ts:50-60 | posts the model to `/pipelines/io/triggers`, null on failure |
| ApiMethods.CreateDataIO | raven_client/src/util/api/methods/pipeline_io.ts:62-72 | posts the model to `/pipelines/io/data`, null on failure |
| ApiMethods.EditIO | raven_client/src/util/api/methods/pipeline_io.ts:74-85 | posts the model to `/pipelines/io/<id>/edit`, null on failure |
| ApiMethods.DeleteIO | raven_client/src/util/api/methods/pipeline_io.ts:87-91 | sends DELETE to `/pipelines/io/<id>` and returns nothing |
| ApiMethods.DuplicateIO | raven_client/src/util/api/methods/pipeline_io.ts:93-100 | posts with no body to `/pipelines/io/<id>/copy`, null on failure |
| ApiMethods.CreateTriggerSharesListEndpoint | raven_client/src/util/api/methods/pipeline_io.ts:27-60 | creating a trigger posts to the endpoint the trigger list reads with GET |
| ApiMethods.BodylessRequests | raven_client/src/util/api/ApiProvider.tsx:33-39 | the copy post carries no body, and a DELETE never forwards one |
| EventManager.Names | raven_client/src/util/events/EventsProvider.tsx:7-52 | the channel names, one per table entry, in table (insertion) order, which is `Object.keys` order for names that are not integer-like |
| EventManager.Regs | raven_client/src/util/events/EventsProvider.tsx:7-9 | a channel's registrations are its entry's list, or none for an absent channel |
| EventManager.Put | raven_client/src/util/events/EventsProvider.tsx:79-83 | writing a channel's list changes only that channel; a new channel is appended to the key order |
| EventManager.Drop | raven_client/src/util/events/EventsProvider.tsx:103 | `omit` removes exactly that channel and keeps the others' lists and distinct names |
| EventManager.Subscribe | raven_client/src/util/events/EventsProvider.tsx:75-93 | the registration is appended to the channel (created at the end if absent), other channels are untouched, the fresh id is returned, and `subscriptions.add [channel]` is sent on every call iff the socket is open |
| EventManager.SubscribeKeepsWellFormed | raven_client/src/util/events/EventsProvider.tsx:75-93 | subscribing keeps channel names distinct and every list non-empty |
| EventManager.Without | raven_client/src/util/events/EventsProvider.tsx:99-101 | the filter keeps exactly the registrations with another id |
| EventManager.WithoutAll | raven_client/src/util/events/EventsProvider.tsx:97-101 | filtering by a set of ids keeps exactly the registrations whose id is not in it |
| EventManager.WithoutThenAll | raven_client/src/util/events/EventsProvider.tsx:97-101 | filtering one id and then a set is filtering their union |
| EventManager.WithoutAllAppend | raven_client/src/util/events/EventsProvider.tsx:99-101 | the filter distributes over concatenation, so the kept registrations stay in order |
| EventManager.UnsubscribeOne | raven_client/src/util/events/EventsProvider.tsx:98-106 | one entry removes only its id from its channel; the channel is dropped and reported iff it becomes empty; an unknown channel is ignored |
| EventManager.IdsFor | raven_client/src/util/events/EventsProvider.tsx:95-97 | the ids listed for a channel are exactly those of the entries naming it |
| EventManager.UnsubscribeKeeps | raven_client/src/util/events/EventsProvider.tsx:97-107 | after a call, each channel keeps exactly its registrations whose ids the call did not list for it, in order |
| EventManager.UnsubscribeEmptied | raven_client/src/util/events/EventsProvider.tsx:96-107 | the reported channels are exactly those that were present and are now gone, each once; no channel is added |
| EventManager.UnsubscribeKeepsWellFormed | raven_client/src/util/events/EventsProvider.tsx:97-107 | unsubscribing keeps channel names distinct and every list non-empty |
| EventManager.Unsubscribe | raven_client/src/util/events/EventsProvider.tsx:95-117 | one call sends at most one `subscriptions.remove`, listing the emptied channels, and only when open and non-empty |
| EventManager.Callbacks | raven_client/src/util/events/EventsProvider.tsx:32 | a channel's callbacks in registration order |
| EventManager.HandleEvent | raven_client/src/util/events/EventsProvider.tsx:27-36 | without subscribers nothing is called; a callback is called iff it is registered on a listed channel present in the table |
| EventManager.CallsMembers | raven_client/src/util/events/EventsProvider.tsx:30-34 | the calls for a subscriber list are exactly the callbacks of its present channels |
| EventManager.CallsAppend | raven_client/src/util/events/EventsProvider.tsx:30-34 | subscriber channels are handled in list order |
| EventManager.OneChannelInOrder | raven_client/src/util/events/EventsProvider.tsx:31-33 | an event for one present channel calls its callbacks in registration order |
| EventManager.Connect | raven_client/src/util/events/EventsProvider.tsx:38-64 | connecting closes an open socket, sets active and starts a socket that is not yet open; subscriptions and outbox are kept |
| EventManager.OnOpen | raven_client/src/util/events/EventsProvider.tsx:46-55 | on open, `subscriptions.add` is sent with every current channel |
| EventManager.OnClose | raven_client/src/util/events/EventsProvider.tsx:56-63 | on close a reconnect is scheduled iff active |
| EventManager.Disconnect | raven_client/src/util/events/EventsProvider.tsx:66-73 | disconnecting clears active and the socket, keeping subscriptions |
| EventManager.DisconnectStopsReconnects | raven_client/src/util/events/EventsProvider.tsx:59-67 | after a disconnect no close schedules a reconnect |
| EventManager.ReconnectWhileOpenSchedulesAnother | raven_client/src/util/events/EventsProvider.tsx:39-63 | reconnecting while open closes the old socket while active, so its close handler schedules one more connect |
| EventManager.ClosedSendsNothing | raven_client/src/util/events/EventsProvider.tsx:84-109 | while the socket is not open, subscribe and unsubscribe send nothing |
| EventManager.ShouldConnect | raven_client/src/util/events/EventsProvider.tsx:130-136 | the provider connects iff the API is ready and the auth state has a session |
| EventManager.ApplyProviderRule | raven_client/src/util/events/EventsProvider.tsx:130-136 | after the provider's effect the manager is active iff it should connect; subscriptions are kept |
| EventManager.OpenSyncs | raven_client/src/util/events/EventsProvider.tsx:46-55 | right after opening, the server's subscription list (applied per the events controller) holds exactly the client's channels |
| EventManager.SubscribeStaysInSync | raven_client/src/util/events/EventsProvider.tsx:84-91 | while open, a subscribe and the server's handling of its message keep both sides on the same channel set |
| EventManager.UnsubscribeStaysInSync | raven_client/src/util/events/EventsProvider.tsx:109-116 | while open, an unsubscribe and the server's handling of its message keep both sides on the same channel set |
| ClientResources.PropertyIconInjective | raven_client/src/components/resource/PropertyIcon.tsx:5-28 | every property type has an icon, the icon names that type back, so distinct types get distinct icons |
| ClientResources.IconTypeRoundTrip | raven_client/src/components/resource/PropertyIcon.tsx:5-28 | an icon name that stands for a type is exactly that type's icon |
| ClientResources.Loaded | raven_client/src/util/resources/ResourceProvider.tsx:16-24 | the cache holds the fetched list when the API is ready with a signed-in user, and is empty otherwise |
| ClientResources.OnUpdate | raven_client/src/util/resources/ResourceProvider.tsx:26-44 | a `resource.update` event replaces, in place, exactly the cached entries with that id and plugin, and only when the event names a plugin and the fetch returned a resource |
| ClientResources.UpdateIdempotent | raven_client/src/util/resources/ResourceProvider.tsx:33-38 | applying the same update twice is applying it once |
| ClientResources.UpdateNeedsPluginAndResult | raven_client/src/util/resources/ResourceProvider.tsx:28-32 | with no plugin or no fetched resource the cache is unchanged |
| ClientResources.ProviderValue | raven_client/src/util/resources/ResourceProvider.tsx:60-72 | the provided list is the cache iff the user holds a resources scope, else empty |
| ClientResources.UseResource | raven_client/src/util/resources/index.ts:10-16 | the lookup is null iff no resource has the id, else the first one that does |
| ClientResources.LookupAfterUpdate | raven_client/src/util/resources/ResourceProvider.tsx:26-44 | after an update for the first resource with that id, looking the id up gives the fetched resource |
| ClientResources.FirstMatch | raven_client/src/util/resources/index.ts:13 | `find` returns the first resource with the id |
| ExecutorItem.InitialValues | raven_client/src/components/executor/ExecutorItem.tsx:475-480 | the form starts with one undefined value per argument key and no other key |
| ExecutorItem.ShownArguments | raven_client/src/components/executor/ExecutorItem.tsx:524-526 | an argument is shown iff advanced mode is on or it is not marked advanced |
| ExecutorItem.AdvancedShowsAll | raven_client/src/components/executor/ExecutorItem.tsx:525 | in advanced mode every argument is shown, in order |
| ExecutorItem.DurationChange | raven_client/src/components/executor/ExecutorItem.tsx:396-461 | a duration input sets its own unit to the number typed (0 when not a number) and keeps the object's other keys |
| ExecutorItem.DurationChangeOnlyOwnUnit | raven_client/src/components/executor/ExecutorItem.tsx:396-461 | after a change, the shown value of the changed unit is the input and every other unit shows what it showed before |
| ExecutorItem.Run | raven_client/src/components/executor/ExecutorItem.tsx:549-556 | running posts the executor, current values and resource to `/resources/execute` when ready, then resets the form to its initial values |
| ExecutorItem.PickerResults | raven_client/src/components/executor/ExecutorItem.tsx:66-75 | the resource picker lists the fetched resources when ready, none otherwise |
| ExecutorItem.PickerOptions | raven_client/src/components/executor/ExecutorItem.tsx:77-80 | one option per resource, valued by its id and labelled by its display name or else its id |
| ResourceView.CategoryList | raven_client/src/views/resources/ResourceView.tsx:204-212 | a string is listed iff it is non-empty and some resource has it as category |
| ResourceView.TagList | raven_client/src/views/resources/ResourceView.tsx:214-224 | a tag is listed iff some resource carries it |
| ResourceView.Categories | raven_client/src/views/resources/ResourceView.tsx:204-212 | the category chips: exactly the non-empty categories in use, each once |
| ResourceView.Tags | raven_client/src/views/resources/ResourceView.tsx:214-224 | the tag chips: exactly the tags in use, each once |
| ResourceView.FilterValue | raven_client/src/views/resources/ResourceView.tsx:325-337 | `split(":", 2)[1]` exists iff the chip holds a colon, and holds no colon itself |
| ResourceView.FilterValueTruncates | raven_client/src/views/resources/ResourceView.tsx:325-337 | the value is only the part between the first and second colon |
| ResourceView.FilterValueWhole | raven_client/src/views/resources/ResourceView.tsx:325-337 | with a single colon the value is everything after it |
| ResourceView.Visible | raven_client/src/views/resources/ResourceView.tsx:301-340 | a resource is listed iff `plugins[v.plugin] !== undefined` (its plugin is in the map, or is a name inherited from `Object.prototype` such as `constructor`), it passes the two-way case-insensitive search, and (on desktop with chips set) some chip matches it |
| ResourceView.UnloadedPluginHidden | raven_client/src/views/resources/ResourceView.tsx:302 | resources of a plugin that is neither in the plugin map nor an inherited `Object.prototype` name are never listed |
| ResourceView.InheritedPluginNameListed | raven_client/src/views/resources/ResourceView.tsx:302 | a resource whose plugin is named like an `Object.prototype` member is listed with no plugin loaded, when it passes the search and the chips |
| ResourceView.NoSearchNoFilter | raven_client/src/views/resources/ResourceView.tsx:230-320 | with an empty search and no active chip (or on mobile) the list is every resource whose plugin passes the plugin-map lookup, in order |
| ResourceView.KeepSame | raven_client/src/views/resources/ResourceView.tsx:301-340 | filters with equal predicates list the same resources |
| ResourceView.TagFilterTruncated | raven_client/src/views/resources/ResourceView.tsx:323-329 | a `tag:` chip with a further colon matches iff the resource carries the part before that colon |
| ResourceView.LoadedPlugins | raven_client/src/views/resources/ResourceView.tsx:184-190 | the plugin map is the listed one for a signed-in user who may view resources, else empty |
| ResourceView.Redirects | raven_client/src/views/resources/ResourceView.tsx:198-202 | the page navigates home once the API is ready and the user may not view resources |
| ResourceView.RedirectedPageListsNothing | raven_client/src/views/resources/ResourceView.tsx:184-202 | a page that navigates away has loaded no plugins, and a ready page that stays, with a signed-in user, has loaded the listed ones |
| ResourceModal.ShowProps | raven_client/src/components/resource/ResourceModal.tsx:60-70 | a property is shown iff it is not hidden (unless hidden ones are shown), not null (unless empty ones are shown), and its label matches the search both ways |
| ResourceModal.SearchHidesUnlabelled | raven_client/src/components/resource/ResourceModal.tsx:64-69 | with a search typed, a property without a label is never shown |
| ResourceModal.InitialTogglesShowUnhidden | raven_client/src/components/resource/ResourceModal.tsx:56-70 | with the initial toggles and no search, exactly the non-hidden properties are shown |
| ResourceModal.ShowExecs | raven_client/src/components/resource/ResourceModal.tsx:92-99 | without a search every executor is listed; with one, exactly those whose name matches it either way |
| ResourceModal.ExecuteScopes | raven_client/src/components/resource/ResourceModal.tsx:75-82 | an open modal asks for the global and the plugin's execute scope; a closed one asks for none |
| ResourceModal.Executors | raven_client/src/components/resource/ResourceModal.tsx:84-90 | the executors are fetched only when ready and allowed, else the list is empty |
| ResourceModal.ExecuteTabEnabledIff | raven_client/src/components/resource/ResourceModal.tsx:84-144 | the execute tab is enabled iff the API is ready, the user may execute and some executor was fetched |
| IconSelector.Norm | raven_client/src/components/IconSelector.tsx:45 | every `-` in an icon name becomes a space and nothing else changes |
| IconSelector.Filtered | raven_client/src/components/IconSelector.tsx:40-52 | without a search every icon is listed; with one, exactly those whose spaced name matches it either way |
| IconSelector.PageCount | raven_client/src/components/IconSelector.tsx:24-127 | the page count is the least number of 128-icon pages that holds every icon |
| IconSelector.SliceJs | raven_client/src/components/IconSelector.tsx:98-99 | `slice` clamps its end to the length and is empty past the end |
| IconSelector.Page | raven_client/src/components/IconSelector.tsx:98-99 | page p holds at most 128 icons: those from index (p-1)*128 up to p*128, or none past the end |
| IconSelector.FirstPagesPrefix | raven_client/src/components/IconSelector.tsx:98-99 | the first k pages joined are the prefix of length min(k*128, n) |
| IconSelector.PagesCover | raven_client/src/components/IconSelector.tsx:98-127 | the pages up to the page count, joined, are every icon in order |
| IconSelector.PastLastPageEmpty | raven_client/src/components/IconSelector.tsx:98-127 | a page past the count is empty |
| IconSelector.ItemOnOnePage | raven_client/src/components/IconSelector.tsx:98-127 | each icon lies on exactly one page, and that page is within the count |
| IconSelector.Click | raven_client/src/components/IconSelector.tsx:108-112 | clicking an icon selects it iff it was not the selected one, else clears the selection |
| IconSelector.ClickTwice | raven_client/src/components/IconSelector.tsx:108-112 | from no selection or that icon selected, clicking it twice returns to where it started |
| IOForms.FormJson | raven_client/src/views/pipelines/io/CreateIOModal.tsx:339-438 | the spread form values are exactly name, icon and description |
| IOForms.SetState | raven_client/src/views/pipelines/io/CreateIOModal.tsx:346 | `useSetState` merges: the keys of both, the partial's value winning, every other value kept |
| IOForms.Cleared | raven_client/src/views/pipelines/io/CreateIOModal.tsx:352-357 | the reset keeps every extras key and sets each to undefined |
| IOForms.Omit | raven_client/src/views/pipelines/io/EditIOModal.tsx:79-81 | `omit` keeps exactly the keys not listed, with their values |
| CreateIOModal.NewField | raven_client/src/views/pipelines/io/CreateIOModal.tsx:64-85 | a new field has key `field-` plus six characters of a fresh id, label "New Field" and a default value from the template or null, each overridden by the template's own keys, which are all kept |
| CreateIOModal.AddItem | raven_client/src/views/pipelines/io/CreateIOModal.tsx:64-85 | adding appends exactly the new field to the field list and leaves every other extras key alone |
| CreateIOModal.TemplateShape | raven_client/src/views/pipelines/io/CreateIOModal.tsx:96-197 | each menu template names its own type and sets no label; every one but select presets a default value |
| CreateIOModal.TemplateFields | raven_client/src/views/pipelines/io/CreateIOModal.tsx:96-197 | each of the seven menu entries adds a field of its type, labelled "New Field", with the template's default value |
| CreateIOModal.RemoveField | raven_client/src/views/pipelines/io/CreateIOModal.tsx:227-232 | removing keeps exactly the fields with another key, leaving other extras keys alone |
| CreateIOModal.DropAppended | raven_client/src/views/pipelines/io/CreateIOModal.tsx:229-231 | filtering out a key that only the last field has gives back the list before it |
| CreateIOModal.RemoveAfterAdd | raven_client/src/views/pipelines/io/CreateIOModal.tsx:227-232 | removing a freshly added field whose key is new restores the field list |
| CreateIOModal.UpdateField | raven_client/src/views/pipelines/io/CreateIOModal.tsx:244-254 | an editor update merges its partial into one field and leaves the other fields unchanged |
| CreateIOModal.UpdateWithOwnValues | raven_client/src/views/pipelines/io/CreateIOModal.tsx:244-254 | an update with the field's own values changes nothing |
| CreateIOModal.SetLabel | raven_client/src/views/pipelines/io/CreateIOModal.tsx:311-318 | typing a label stores it, and an empty one stores null; other extras keys are kept |
| CreateIOModal.LabelRoundTrip | raven_client/src/views/pipelines/io/CreateIOModal.tsx:311-318 | the input shows back exactly the text typed, the empty string included |
| CreateIOModal.Payload | raven_client/src/views/pipelines/io/CreateIOModal.tsx:436-464 | the payload holds the type, the form values and, by mode, the fields or the label and not the other |
| CreateIOModal.Create | raven_client/src/views/pipelines/io/CreateIOModal.tsx:433-481 | with no mode nothing is sent; data and trigger call their own create method with the payload; the modal closes iff the result is truthy |
| CreateIOModal.FailedCreateStaysOpen | raven_client/src/views/pipelines/io/CreateIOModal.tsx:441-456 | a create whose request is not sent or fails leaves the modal open, for either mode |
| CreateIOModal.OnNullMode | raven_client/src/views/pipelines/io/CreateIOModal.tsx:339-359 | closing resets the form to its initial values and every extras key to undefined |
| CreateIOModal.ResetDisablesCreate | raven_client/src/views/pipelines/io/CreateIOModal.tsx:349-431 | after the reset the name is empty, so the create button is disabled in either mode |
| CreateIOModal.CreateDisabled | raven_client/src/views/pipelines/io/CreateIOModal.tsx:427-431 | the create button is disabled iff the name is empty, or a data entry has no fields |
| CreateIOModal.AddFieldEnablesCreate | raven_client/src/views/pipelines/io/CreateIOModal.tsx:427-431 | with a name, adding a field makes a data entry creatable whatever the extras held, and a trigger entry is creatable already |
| EditIOModal.OnModeNull | raven_client/src/views/pipelines/io/EditIOModal.tsx:53-64 | closing clears the tracked id, resets the form and sets every extras key to undefined |
| EditIOModal.TrackId | raven_client/src/views/pipelines/io/EditIOModal.tsx:66-70 | an open entry's id becomes the tracked id; nothing else changes |
| EditIOModal.FormFrom | raven_client/src/views/pipelines/io/EditIOModal.tsx:74-78 | the form takes the entry's name, icon and description, a null description becoming "" |
| EditIOModal.Seed | raven_client/src/views/pipelines/io/EditIOModal.tsx:72-83 | with a truthy `current` and an entry, the form comes from the entry and every entry key but id, value, name, icon and description is merged into the extras; otherwise nothing changes |
| EditIOModal.Payload | raven_client/src/views/pipelines/io/EditIOModal.tsx:163-167 | the request body holds the type, the form and the extras, the extras winning over the form and the form over the type |
| EditIOModal.Submit | raven_client/src/views/pipelines/io/EditIOModal.tsx:158-185 | with a falsy `current` (none, or `""`) or no entry nothing is sent; otherwise the tracked id's edit is posted, and the modal closes iff the result is truthy |
| EditIOModal.Tracked | raven_client/src/views/pipelines/io/EditIOModal.tsx:73 | `current` is truthy: an id is held and it is not the empty string |
| EditIOModal.SubmitDisabled | raven_client/src/views/pipelines/io/EditIOModal.tsx:152-157 | the submit button is disabled iff the name is empty, or a data entry has no fields, or `current` is falsy |
| EditIOModal.EnabledSubmitSends | raven_client/src/views/pipelines/io/EditIOModal.tsx:152-167 | when ready, an enabled submit button posts exactly the edit of the tracked id with the merged body |
| EditIOModal.OpenEmptyIdSendsNothing | raven_client/src/views/pipelines/io/EditIOModal.tsx:66-161 | an entry whose id is `""` is tracked but falsy: opening it leaves the form reset, submit is disabled, and a click sends nothing |
| EditIOModal.OpenThenSubmitSendsEntry | raven_client/src/views/pipelines/io/EditIOModal.tsx:53-167 | opening an entry with a non-empty id on a closed modal and submitting unchanged sends the entry back (its value and id aside, its icon included) to its own id, with a null description sent as "" |
| EditIOModal.FailedEditStaysOpen | raven_client/src/views/pipelines/io/EditIOModal.tsx:168-183 | an edit whose request fails leaves the modal open |
| IOFields.NormChar | raven_client/src/views/pipelines/io/fields/util.tsx:31-34 | each typed character is lower-cased, turned into `-` when it is whitespace or `_`, and dropped unless it is then a lower-case letter, digit or `-` |
| IOFields.NormKey | raven_client/src/views/pipelines/io/fields/util.tsx:29-35 | the normalised key is no longer than the text and holds only lower-case letters, digits and `-` |
| IOFields.NormKeyFixed | raven_client/src/views/pipelines/io/fields/util.tsx:29-35 | text already made of key characters is kept as it is |
| IOFields.NormKeyIdempotent | raven_client/src/views/pipelines/io/fields/util.tsx:29-35 | normalising twice is normalising once |
| IOFields.NormKeyDropsOnly | raven_client/src/views/pipelines/io/fields/util.tsx:29-35 | normalisation removes exactly the characters it cannot map, one for one |
| IOFields.Keys | raven_client/src/views/pipelines/io/fields/util.tsx:45 | the sibling keys, one per field, in order |
| IOFields.CommitKey | raven_client/src/views/pipelines/io/fields/util.tsx:47 | committing sets the field's key and keeps its other entries |
| IOFields.CommitThenDisabled | raven_client/src/views/pipelines/io/fields/util.tsx:43-47 | once committed, the commit button is disabled for that key |
| IOFields.CommitKeepsKeysDistinct | raven_client/src/views/pipelines/io/fields/util.tsx:43-47 | a commit the button allows keeps the field keys pairwise distinct |
| IOFields.SetFieldLabel | raven_client/src/views/pipelines/io/fields/util.tsx:54-55 | the label input shows back exactly the text typed, and the field's other entries are kept |
| IOFields.Values | raven_client/src/views/pipelines/io/fields/selectField.tsx:113-223 | an option's value is the string itself or its `value` |
| IOFields.AddOption | raven_client/src/views/pipelines/io/fields/selectField.tsx:226-237 | adding appends one option with that value, labelled by the label typed or else by the value |
| IOFields.RemoveOption | raven_client/src/views/pipelines/io/fields/selectField.tsx:136-147 | removing keeps exactly the options with another value |
| IOFields.AddKeepsDistinct | raven_client/src/views/pipelines/io/fields/selectField.tsx:218-237 | an add the button allows keeps option values distinct |
| IOFields.RemoveAfterAdd | raven_client/src/views/pipelines/io/fields/selectField.tsx:136-237 | removing an option just added restores the options |
| IOFields.MultiDisplay | raven_client/src/views/pipelines/io/fields/selectField.tsx:56-61 | a multi-select shows a falsy default as none, a string as one value, and a list as itself |
| IOFields.SingleDisplay | raven_client/src/views/pipelines/io/fields/selectField.tsx:74-79 | a single select shows a falsy default as null, a string as itself, and a list as its first item or null |
| IOFields.SingleOfMulti | raven_client/src/views/pipelines/io/fields/selectField.tsx:56-79 | switching a default from multiple to single display shows the same value as the single display of the original |
| IOFields.ToggleMultiple | raven_client/src/views/pipelines/io/fields/selectField.tsx:89-94 | the switch negates the truthiness of `multiple` and keeps the field's other entries |
| IOFields.ToggleTwice | raven_client/src/views/pipelines/io/fields/selectField.tsx:89-94 | toggling a boolean `multiple` twice restores the field |
| PipelineIOTab.SavedValues | raven_client/src/views/pipelines/io/PipelineIOTab.tsx:91-98 | the saved map has exactly the fields' keys, each holding the value of the last field with that key |
| PipelineIOTab.ChangeValue | raven_client/src/views/pipelines/io/PipelineIOTab.tsx:125-127 | an input sets its own key and keeps every other value |
| PipelineIOTab.ChangeKeepsKeys | raven_client/src/views/pipelines/io/PipelineIOTab.tsx:117-127 | inputs only write keys of the entry's fields |
| PipelineIOTab.Dirty | raven_client/src/views/pipelines/io/PipelineIOTab.tsx:143-161 | cancel and save are enabled iff the current values are not deep-equal to the saved ones |
| PipelineIOTab.ChangeDirtiesIff | raven_client/src/views/pipelines/io/PipelineIOTab.tsx:117-161 | from a clean tab, changing one saved field enables cancel and save iff the new value differs from the saved one |
| PipelineIOTab.CancelAsWritten | raven_client/src/views/pipelines/io/PipelineIOTab.tsx:144-154 | the cancel button merges the saved values into the current ones, so keys outside the saved map survive |
| PipelineIOTab.SyncAsWritten | raven_client/src/views/pipelines/io/PipelineIOTab.tsx:100-104 | the sync on an entry change merges the same way, keeping stale keys |
| PipelineIOTab.CancelAsWrittenCleanIff | raven_client/src/views/pipelines/io/PipelineIOTab.tsx:143-154 | as written, cancel leaves the tab clean iff every current key is still a saved key |
| PipelineIOTab.StaleFieldStaysDirty | raven_client/src/views/pipelines/io/PipelineIOTab.tsx:85-154 | a value typed for a field later removed from the entry survives the sync, and cancel then leaves save and cancel enabled |
| PipelineIOTab.Cancel | raven_client/src/views/pipelines/io/PipelineIOTab.tsx:144-154 | the corrected cancel leaves the tab clean |
| PipelineIOTab.Sync | raven_client/src/views/pipelines/io/PipelineIOTab.tsx:100-104 | the corrected sync leaves the tab clean |
| PipelineIOTab.CancelRestores | raven_client/src/views/pipelines/io/PipelineIOTab.tsx:100-154 | after the corrected cancel the tab is clean, after the corrected sync inputs stay within the entry's keys, and with no stale key the corrected cancel equals the written one |
| PipelineIOTab.FieldMode | raven_client/src/views/pipelines/io/PipelineIOTab.tsx:117-133 | fields render as inputs iff the user holds `pipelines.io.activate`, else as outputs |
| PipelineIOTab.MenuShown | raven_client/src/views/pipelines/io/PipelineIOTab.tsx:204 | the edit, copy and delete menu appears iff the user holds `pipelines.io.manage` |
| PipelineIOTab.MenuIndependentOfInputs | raven_client/src/views/pipelines/io/PipelineIOTab.tsx:117-204 | the menu and the inputs hang on different scopes: activate alone gives inputs without the menu, manage alone the menu over outputs |
| PipelineIOTab.TriggerButtonText | raven_client/src/views/pipelines/io/PipelineIOTab.tsx:66 | a trigger button shows its label, or its name when the label is null or absent |
| PipelineIOTab.GetEntries | raven_client/src/views/pipelines/io/PipelineIOTab.tsx:307-311 | entries are fetched only when ready with a signed-in user; otherwise they are kept and nothing is sent |
| PipelineIOTab.RefetchSendsOnlyWhenSignedIn | raven_client/src/views/pipelines/io/PipelineIOTab.tsx:307-315 | an edit or activate event sends one `/pipelines/io` request when signed in and none otherwise |
| PipelineIOTab.RefetchOn | raven_client/src/views/pipelines/io/PipelineIOTab.tsx:314-315 | the list is refetched on `pipeline.io.edit` and `pipeline.io.activate` events |
| PipelineIOTab.RefetchSubscriptions | raven_client/src/views/pipelines/io/PipelineIOTab.tsx:314-315 | with the two registrations in the event manager, an event for one channel calls the refetch callback once iff it is a refetch event, and nothing otherwise |
| AuthView.LoginValidIff | raven_client/src/views/auth/AuthView.tsx:37-62 | in login mode the form is valid iff username and password are non-empty; the confirmation is never checked |
| AuthView.CreateValidIff | raven_client/src/views/auth/AuthView.tsx:37-62 | in create mode the form is valid iff both fields are non-empty and the confirmation equals the password, and each field's error is absent exactly under its own condition |
| AuthView.EmptyIsRequired | raven_client/src/views/auth/AuthView.tsx:37-62 | an empty field reports "required" rather than a mismatch |
| AuthView.Submit | raven_client/src/views/auth/AuthView.tsx:79-119 | an invalid form sends nothing; create mode creates the user, login mode logs in; the page goes to `/` iff the form is valid and the result truthy |
| AuthView.NavigatesIffReloads | raven_client/src/views/auth/AuthView.tsx:79-119 | a valid submission navigates home iff the API context was reloaded with the new session |
| AuthView.MismatchSendsNothing | raven_client/src/views/auth/AuthView.tsx:43-79 | in create mode a confirmation that differs from the password sends nothing |

## Left out

- Transport, sockets and timers: axios, `window.location`, WebSocket objects and `setTimeout` are absent. Requests go through a `transport` function, the socket is an `open` flag with an outbox, and the 1000 ms reconnect delay becomes the flag `OnClose` returns: true means one `connect()` is scheduled.
- Server I/O and concurrency: plugin loading (`plugin.py`), the socket and channel loops of the events controller, sessions, database documents and password hashing are not part of this model.
- Calls that leave the shown code: `get_resource` and `activate_io` are not defined in the client's mixins. The cache update takes the fetched resource as a parameter, and the save and trigger buttons of the I/O tab are not modelled.
- Scope checks: `useScoped` and `useScopeMatch` are not part of this model. Their answers are boolean or `string -> bool` parameters.
- Fresh ids: `crypto.randomUUID` and lodash `uniqueId` are not modelled. `Subscribe` takes the fresh id as a parameter, and so does a new I/O field.
- Floating point: Python floats and JavaScript numbers are reals, so there is no NaN, no infinity and no rounding.
- Floating point and colours: `ColorField`'s alpha rounding and its `hls`/`hsv` conversions are not modelled.
- Dates: `DateTimeField.validate` and the date conversions of the datetime editors and ExecutorItem are not modelled.
- Pydantic: coercion and validation on model construction are not modelled. Event construction is a parameter that succeeds or fails.
- PipelineFields.ParseHex2: models `int(p, 16)` on two characters over ASCII only: hex digits, a sign, and whitespace from tab to carriage return, U+001C to U+001F and space. Non-ASCII digits and non-ASCII whitespace, which Python also accepts, make the model raise.
- Text.Lower: ASCII case folding only. Unicode `toLowerCase` and `lower()` are not modelled.
- IOFields.NormChar: lower-cases ASCII only. A non-ASCII letter whose lower case is ASCII (U+0130, U+212A) is dropped instead of kept.
- ScopeTree.AddScope: the model returns a new tree. The source mutates `scope.parent` before a KeyError can be raised, and that partial mutation is not modelled.
- EventRegistry: `events` returns a copy of the registry. With immutable maps the copy is the map itself.
- EventRegistry: `is_global` is modelled only as the predicate the events controller uses.
- EventManager: the table is assumed to be an ordinary object. `__proto__` keys, callbacks that change the table during dispatch, and a `subscribers` value that is not an array are not modelled.
- CreateIOModal.UpdateField: requires an index inside the field list. The editors only pass indexes of rendered fields, and JavaScript's hole-filling write past the end is not modelled.
- JavaScript object key order inside spreads and payloads is not modelled. Payloads are maps; only the subscription table keeps its order.
- Plugin-map lookups: the resource list models the `Object.prototype` names a plain object inherits (ResourceView.tsx:302). What the card of such a resource then receives as its plugin (a built-in function, line 344) is rendering and is not modelled.
- ResourceView.Categories: states membership and no duplicates, but not first-occurrence order.
- ResourceView.Tags: states membership and no duplicates, but not the first-occurrence order of the chips.
- ClientResources.OnUpdate: takes the event's `plugin` as a parameter. The server's `FrontendEvent` (raven_api/controllers/events.py:27-33) carries no `plugin` field, so on the wire it is undefined and, by UpdateNeedsPluginAndResult, the cache never changes. Which field was meant (a `plugin` key, or the slug before the colon in `source`) cannot be read off the code, so no corrected member is given.
- EventManager.Names: lists names in table (insertion) order. `Object.keys` lists integer-like keys such as "10" first, in ascending numeric order; the model does not.
- PipelineFields.SetValue: colour fields are checked with the intended `ValidateColor`. The setter as written raises TypeError for every colour value but None; `SetValueAsWritten` models that setter.
- PipelineFields.ReadAfterSet: for colour fields, holds for the intended setter only. As written, setting a colour field raises unless the value is None.
- EditIOModal.Open: has no contract of its own. OpenThenSubmitSendsEntry states what opening and then submitting sends.
- EditIOModal.OpenThenSubmitSendsEntry: covers entries with a non-empty id; OpenEmptyIdSendsNothing covers the empty one. It assumes the extras hold none of the form's keys. Only the seeding and the label and field editors write the extras, and none of them writes those keys.
- Widgets and presentation: field renderers, notifications, routing, layout and localisation are not modelled.

## Findings

| source | as written | input that shows it | evidently intended | confidence | as-written member | corrected member |
|---|---|---|---|---|---|---|
| raven_api/common/models/pipelines.py:107-113 | `ColorField.validate` calls `re.fullmatch` with the pattern alone, so any value other than None raises TypeError | a colour field set to `"#00ff00"` | match the value against the pattern, so that `#` and 6 hex digits (8 with alpha) pass | not executed | PipelineFields.ValidateColorAsWritten, shown by PipelineFields.ColorAsWrittenRaisesOnValidColor and PipelineFields.SetColorAsWrittenRaises | PipelineFields.ValidateColor |
| raven_client/src/views/pipelines/io/PipelineIOTab.tsx:85-154 | cancel and the sync on an entry change merge the saved values into the current ones with `useSetState`, so a value typed for a field that the entry later loses is never cleared, and the tab stays dirty after cancel | fields `a` and `b`; type a value for `b`; the entry is edited to hold only `a`; press cancel | replace the current values with the saved ones, so cancel always restores a clean tab | not executed | PipelineIOTab.CancelAsWritten, shown by PipelineIOTab.StaleFieldStaysDirty | PipelineIOTab.Cancel, proved by PipelineIOTab.CancelRestores |
