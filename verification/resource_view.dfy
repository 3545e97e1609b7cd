/**
 * The resource list page (ResourceView.tsx): the category and tag choices,
 * the search and filter predicate, and which plugins are loaded.
 */
module ResourceView {

  import opened Wrappers
  import opened JsonValues
  import Api
  import Text
  import Seqs
  import EventsController
  import opened ClientResources

  /** `v.metadata.display_name ?? v.id`. */
  function DisplayName(r: Resource): string
  {
    r.metadata.displayName.GetOr(r.id)
  }

  // ---- category and tag choices (204-224) ----

  /** The truthy categories, resource by resource. */
  function CategoryList(resources: seq<Resource>): (r: seq<string>)
    ensures forall c :: c in r <==> c != "" && exists i | 0 <= i < |resources| :: resources[i].metadata.category == Some(c)
  {
    if |resources| == 0 then []
    else
      var cat := resources[0].metadata.category;
      var rest := CategoryList(resources[1..]);
      assert forall i | 0 < i < |resources| :: resources[1..][i - 1] == resources[i];
      (if cat.Some? && cat.value != "" then [cat.value] else []) + rest
  }

  /** Every tag of every resource, in order. */
  function TagList(resources: seq<Resource>): (r: seq<string>)
    ensures forall t :: t in r <==> exists i | 0 <= i < |resources| :: t in resources[i].metadata.tags
  {
    if |resources| == 0 then []
    else
      var rest := TagList(resources[1..]);
      assert forall i | 0 < i < |resources| :: resources[1..][i - 1] == resources[i];
      resources[0].metadata.tags + rest
  }

  /** The distinct non-empty categories, each kept at its first appearance. */
  function Categories(resources: seq<Resource>): (r: seq<string>)
    ensures forall c :: c in r <==> c != "" && exists i | 0 <= i < |resources| :: resources[i].metadata.category == Some(c)
    ensures EventsController.NoDuplicates(r)
  {
    EventsController.AddMembers([], CategoryList(resources));
    EventsController.AddNoDuplicates([], CategoryList(resources));
    EventsController.AddPaths([], CategoryList(resources))
  }

  /** The distinct tags across all resources, each kept at its first appearance. */
  function Tags(resources: seq<Resource>): (r: seq<string>)
    ensures forall t :: t in r <==> exists i | 0 <= i < |resources| :: t in resources[i].metadata.tags
    ensures EventsController.NoDuplicates(r)
  {
    EventsController.AddMembers([], TagList(resources));
    EventsController.AddNoDuplicates([], TagList(resources));
    EventsController.AddPaths([], TagList(resources))
  }

  // ---- search and filters (301-339) ----

  predicate SearchPasses(r: Resource, search: string)
  {
    |search| == 0 || Text.SearchMatch(DisplayName(r), search)
  }

  /** `f.split(":", 2)[1]`: the text between the first and second colon, if there is a colon. */
  function FilterValue(f: string): (r: Option<string>)
    ensures r.Some? <==> ':' in f
    ensures r.Some? ==> ':' !in r.value
  {
    if ':' in f then Some(Text.Split(f, ':')[1]) else None
  }

  /** A filter value stops at the next colon. */
  lemma FilterValueTruncates(prefix: string, v: string, rest: string)
    requires ':' !in prefix && ':' !in v
    ensures FilterValue(prefix + ":" + v + ":" + rest) == Some(v)
  {
    var tail := v + [':'] + rest;
    var f := prefix + [':'] + tail;
    assert prefix + ":" + v + ":" + rest == f;
    Text.SplitOnceAt(prefix, ':', tail);
    Text.SplitFirst(f, ':');
    Text.SplitOnceAt(v, ':', rest);
    Text.SplitFirst(tail, ':');
  }

  /** Without a second colon the value is the rest of the chip. */
  lemma FilterValueWhole(prefix: string, v: string)
    requires ':' !in prefix && ':' !in v
    ensures FilterValue(prefix + ":" + v) == Some(v)
  {
    var f := prefix + [':'] + v;
    assert prefix + ":" + v == f;
    Text.SplitOnceAt(prefix, ':', v);
    Text.SplitFirst(f, ':');
  }

  /** One filter chip: `tag:` checks membership, `category:` equality, anything else the plugin. */
  predicate FilterMatches(r: Resource, f: string)
  {
    if "tag:" <= f then FilterValue(f).Some? && FilterValue(f).value in r.metadata.tags
    else if "category:" <= f then FilterValue(f).Some? && r.metadata.category == FilterValue(f)
    else FilterValue(f) == Some(r.plugin)
  }

  /** No filters, or on mobile, everything passes; otherwise some filter must match. */
  predicate FilterPasses(r: Resource, filters: seq<string>, mobile: bool)
  {
    mobile || |filters| == 0 || exists f | f in filters :: FilterMatches(r, f)
  }

  /** The names every plain object inherits from `Object.prototype`. */
  const ObjectPrototypeNames: set<string> := {
    "constructor", "hasOwnProperty", "isPrototypeOf", "propertyIsEnumerable",
    "toLocaleString", "toString", "valueOf", "__proto__",
    "__defineGetter__", "__defineSetter__", "__lookupGetter__", "__lookupSetter__"
  }

  /**
   * `plugins[name] !== undefined` on the plain object the plugin list is
   * parsed into: an own key of the map, or a name inherited from
   * `Object.prototype`.
   */
  predicate PluginDefined(plugins: set<string>, name: string)
  {
    name in plugins || name in ObjectPrototypeNames
  }

  /** The resources listed, in order. */
  function Visible(resources: seq<Resource>, plugins: set<string>, search: string, filters: seq<string>, mobile: bool): (r: seq<Resource>)
    ensures forall x :: x in r <==>
      x in resources && PluginDefined(plugins, x.plugin) && SearchPasses(x, search) && FilterPasses(x, filters, mobile)
  {
    Seqs.Keep(resources, (x: Resource) => PluginDefined(plugins, x.plugin) && SearchPasses(x, search) && FilterPasses(x, filters, mobile))
  }

  /** A resource of a plugin that is neither in the map nor an inherited name is never listed. */
  lemma UnloadedPluginHidden(resources: seq<Resource>, plugins: set<string>, search: string, filters: seq<string>, mobile: bool, x: Resource)
    requires x.plugin !in plugins && x.plugin !in ObjectPrototypeNames
    ensures x !in Visible(resources, plugins, search, filters, mobile)
  {
  }

  /**
   * A resource whose plugin is named like an `Object.prototype` member is
   * listed even when no plugin is loaded, as long as it passes the search
   * and the chips.
   */
  lemma InheritedPluginNameListed(resources: seq<Resource>, search: string, filters: seq<string>, mobile: bool, x: Resource)
    requires x in resources && x.plugin in ObjectPrototypeNames
    requires SearchPasses(x, search) && FilterPasses(x, filters, mobile)
    ensures x in Visible(resources, {}, search, filters, mobile)
  {
  }

  /** With an empty search and no active filter, the list is every resource of a loaded plugin. */
  lemma NoSearchNoFilter(resources: seq<Resource>, plugins: set<string>, filters: seq<string>, mobile: bool)
    requires mobile || |filters| == 0
    ensures Visible(resources, plugins, "", filters, mobile) == Seqs.Keep(resources, (x: Resource) => PluginDefined(plugins, x.plugin))
  {
    var p := (x: Resource) => PluginDefined(plugins, x.plugin) && SearchPasses(x, "") && FilterPasses(x, filters, mobile);
    var q := (x: Resource) => PluginDefined(plugins, x.plugin);
    assert forall x :: p(x) == q(x);
    KeepSame(resources, p, q);
  }

  lemma {:induction false} KeepSame(s: seq<Resource>, p: Resource -> bool, q: Resource -> bool)
    requires forall x :: p(x) == q(x)
    ensures Seqs.Keep(s, p) == Seqs.Keep(s, q)
    decreases |s|
  {
    if |s| > 0 {
      KeepSame(s[1..], p, q);
    }
  }

  /** A `tag:` chip holding a further colon compares only the part before it. */
  lemma TagFilterTruncated(r: Resource, v: string, rest: string)
    requires ':' !in v
    ensures FilterMatches(r, "tag:" + v + ":" + rest) <==> v in r.metadata.tags
  {
    assert "tag:" + v + ":" + rest == "tag" + ":" + v + ":" + rest;
    FilterValueTruncates("tag", v, rest);
  }

  // ---- plugin loading and redirect (184-202) ----

  /** `api.auth?.user?.id` is truthy. */
  predicate HasUserId(auth: Json)
  {
    Truthy(Member(Member(auth, "user"), "id"))
  }

  function UserAuth(c: Api.ApiContext): Json
  {
    if c.Ready? then c.auth else JUndefined
  }

  /** The plugin map: the listed plugins only for a user who may view, else empty. */
  function LoadedPlugins(c: Api.ApiContext, canView: bool, listed: map<string, Json>): (r: map<string, Json>)
    ensures HasUserId(UserAuth(c)) && canView ==> r == listed
    ensures !(HasUserId(UserAuth(c)) && canView) ==> r == map[]
  {
    if HasUserId(UserAuth(c)) && canView then listed else map[]
  }

  /** The page navigates home once ready without the view scope. */
  predicate Redirects(c: Api.ApiContext, canView: bool)
  {
    !canView && c.Ready?
  }

  /**
   * A page that redirects has loaded no plugins; a ready page that stays,
   * with a signed-in user, has loaded the listed ones.
   */
  lemma RedirectedPageListsNothing(c: Api.ApiContext, canView: bool, listed: map<string, Json>)
    ensures Redirects(c, canView) ==> LoadedPlugins(c, canView, listed) == map[]
    ensures c.Ready? && !Redirects(c, canView) && HasUserId(c.auth) ==> LoadedPlugins(c, canView, listed) == listed
  {
  }
}
