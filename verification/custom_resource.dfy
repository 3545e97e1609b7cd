/**
 * User-defined resources (raven_api/common/models/custom_resource.py):
 * their conversion into the plugin-facing `Resource` and `Executor`
 * records, under the reserved plugin name `"INTERNAL"`.
 */
module CustomResources {

  import opened Wrappers
  import opened ServerResource
  import opened ExecutorTargets

  const Internal: string := "INTERNAL"

  /** An executor argument, reduced to the fields the model reads. */
  datatype ExecArgument = ExecArgument(argType: string, name: string, advanced: bool, required: bool)

  datatype Executor = Executor(
    id: string,
    plugin: string,
    exportName: string,
    name: string,
    description: Option<string>,
    targets: seq<ExecutionTarget>,
    arguments: map<string, ExecArgument>)

  datatype CustomResourceExecutor = CustomResourceExecutor(
    id: string, name: string, description: Option<string>, arguments: map<string, ExecArgument>)

  /** `executors` is a dict; its entries are kept in insertion order. */
  datatype CustomResource = CustomResource(
    resourceId: string,
    name: string,
    icon: Option<string>,
    category: Option<string>,
    tags: seq<string>,
    defaultKey: string,
    properties: map<string, Property>,
    executors: seq<(string, CustomResourceExecutor)>)

  /** `as_executor`: an internal executor targeting its own id. */
  function AsExecutor(x: CustomResourceExecutor): (e: Executor)
    ensures e.plugin == Internal && e.exportName == Internal
    ensures e.id == x.id && e.name == x.name && e.description == x.description && e.arguments == x.arguments
    ensures |e.targets| == 1 && e.targets[0] == ExecutionTarget(None, None, Some(One(x.id)), None)
  {
    Executor(x.id, Internal, Internal, x.name, x.description, [ExecutionTarget(None, None, Some(One(x.id)), None)], x.arguments)
  }

  /** `as_resource`: an internal resource carrying the custom resource's name and metadata. */
  function AsResource(c: CustomResource): (r: Resource)
    ensures r.id == c.resourceId && r.plugin == Internal && r.stateKey == c.defaultKey
    ensures r.properties == c.properties
    ensures r.metadata == Metadata(Some(c.name), c.icon, c.category, c.tags)
  {
    Resource(c.resourceId, Internal, Metadata(Some(c.name), c.icon, c.category, c.tags), c.properties, c.defaultKey)
  }

  /** `get_executors`: one executor per entry, in dict order. */
  function GetExecutors(c: CustomResource): (es: seq<Executor>)
    ensures |es| == |c.executors|
    ensures forall i | 0 <= i < |es| :: es[i] == AsExecutor(c.executors[i].1)
  {
    seq(|c.executors|, i requires 0 <= i < |c.executors| => AsExecutor(c.executors[i].1))
  }

  /**
   * The target of an internal executor selects resources by id: with a
   * non-empty executor id, exactly the resources with that id (whether or
   * not `match_none` is set); with an empty id, every resource.
   */
  lemma ExecutorTargetSelectsById(x: CustomResourceExecutor, r: Resource, matchNone: bool)
    ensures var t := AsExecutor(x).targets[0];
      Matches(t, r, matchNone) <==> (x.id == "" || r.id == x.id)
  {
    MatchesIff(AsExecutor(x).targets[0], r, matchNone);
  }

  /** An executor whose id is the resource id applies to the custom resource itself. */
  lemma OwnExecutorTargetsOwnResource(c: CustomResource, i: nat, matchNone: bool)
    requires i < |c.executors| && c.executors[i].1.id == c.resourceId
    ensures Matches(GetExecutors(c)[i].targets[0], AsResource(c), matchNone)
  {
    ExecutorTargetSelectsById(c.executors[i].1, AsResource(c), matchNone);
  }
}
