/**
 * The client's resource records (types/backend/resource.ts), the icon chosen
 * for each property type (PropertyIcon.tsx), and the resource snapshot cache
 * kept by ResourceProvider.tsx and read through resources/index.ts.
 */
module ClientResources {

  import opened Wrappers
  import opened JsonValues
  import Api

  /** The client's property types; unlike the server's, they include BOOLEAN. */
  datatype PropType =
    | ObjectType | TextType | NumberType | BooleanType | DateType
    | TimeType | DateTimeType | ColorType | OptionType | ListType

  datatype Property = Property(
    labelText: Option<string>,
    propType: PropType,
    value: Json,
    icon: Option<string>,
    suffix: Option<string>,
    prefix: Option<string>,
    hidden: Option<string>)

  datatype Metadata = Metadata(displayName: Option<string>, icon: Option<string>, category: Option<string>, tags: seq<string>)

  /** A resource; `properties` keeps the JSON object's key order. */
  datatype Resource = Resource(id: string, plugin: string, metadata: Metadata, properties: seq<(string, Property)>, stateKey: string)

  // ---- getPropertyIcon (PropertyIcon.tsx 5-28) ----

  function PropertyIcon(t: PropType): (r: string)
  {
    match t
    case ObjectType => "braces"
    case TextType => "letter-case"
    case NumberType => "number"
    case BooleanType => "switch"
    case DateType => "calendar"
    case TimeType => "clock"
    case DateTimeType => "calendar-time"
    case ColorType => "color-picker"
    case OptionType => "select"
    case ListType => "list"
  }

  /** The reverse lookup: which property type an icon name stands for. */
  function IconType(name: string): (r: Option<PropType>)
  {
    if name == "braces" then Some(ObjectType)
    else if name == "letter-case" then Some(TextType)
    else if name == "number" then Some(NumberType)
    else if name == "switch" then Some(BooleanType)
    else if name == "calendar" then Some(DateType)
    else if name == "clock" then Some(TimeType)
    else if name == "calendar-time" then Some(DateTimeType)
    else if name == "color-picker" then Some(ColorType)
    else if name == "select" then Some(OptionType)
    else if name == "list" then Some(ListType)
    else None
  }

  /** Every type has an icon, the icon names its type back, and so distinct types get distinct icons. */
  lemma PropertyIconInjective(t: PropType, u: PropType)
    ensures IconType(PropertyIcon(t)) == Some(t)
    ensures PropertyIcon(t) == PropertyIcon(u) ==> t == u
  {
    assert IconType(PropertyIcon(u)) == Some(u);
  }

  /** The other direction of the round trip: a recognised icon name is the icon of its type. */
  lemma IconTypeRoundTrip(name: string)
    ensures IconType(name).Some? ==> PropertyIcon(IconType(name).value) == name
  {
  }

  // ---- the cache (ResourceProvider.tsx 16-44) ----

  /** `api.auth?.user` is truthy. */
  predicate HasUser(auth: Json)
  {
    Truthy(Member(auth, "user"))
  }

  /** The load effect: the fetched list when ready with a user, otherwise empty. */
  function Loaded(c: Api.ApiContext, fetched: seq<Resource>): (r: seq<Resource>)
    ensures c.Ready? && HasUser(c.auth) ==> r == fetched
    ensures !(c.Ready? && HasUser(c.auth)) ==> r == []
  {
    match c
    case Ready(auth) => if HasUser(auth) then fetched else []
    case _ => []
  }

  /** Whether an entry is the one a `resource.update` event names. */
  predicate Names(item: Resource, plugin: string, entityId: string)
  {
    item.id == entityId && item.plugin == plugin
  }

  /**
   * `onUpdate`: with a truthy event plugin and a truthy fetched result, every
   * entry with that plugin and id is replaced in place by the result.
   */
  function OnUpdate(cache: seq<Resource>, plugin: Option<string>, entityId: string, result: Option<Resource>): (r: seq<Resource>)
    ensures |r| == |cache|
    ensures forall i | 0 <= i < |cache| ::
      r[i] == if plugin.Some? && plugin.value != "" && result.Some? && Names(cache[i], plugin.value, entityId)
              then result.value else cache[i]
  {
    if |cache| == 0 then []
    else
      var head := if plugin.Some? && plugin.value != "" && result.Some? && Names(cache[0], plugin.value, entityId)
                  then result.value else cache[0];
      [head] + OnUpdate(cache[1..], plugin, entityId, result)
  }

  /** Applying the same update twice is applying it once. */
  lemma UpdateIdempotent(cache: seq<Resource>, plugin: Option<string>, entityId: string, result: Option<Resource>)
    ensures OnUpdate(OnUpdate(cache, plugin, entityId, result), plugin, entityId, result) == OnUpdate(cache, plugin, entityId, result)
  {
  }

  /** Without a plugin or without a result the cache is untouched. */
  lemma UpdateNeedsPluginAndResult(cache: seq<Resource>, plugin: Option<string>, entityId: string, result: Option<Resource>)
    requires plugin.None? || plugin.value == "" || result.None?
    ensures OnUpdate(cache, plugin, entityId, result) == cache
  {
  }

  /** `ResourceProvider`: the cache only under the resource scopes, otherwise an empty list. */
  function ProviderValue(scoped: bool, cache: seq<Resource>): (r: seq<Resource>)
    ensures scoped ==> r == cache
    ensures !scoped ==> r == []
  {
    if scoped then cache else []
  }

  // ---- lookups (resources/index.ts 6-15) ----

  /** `useResource(id)`: the first resource with that id, or null. */
  function UseResource(resources: seq<Resource>, id: string): (r: Option<Resource>)
    ensures r.None? <==> forall k | 0 <= k < |resources| :: resources[k].id != id
    ensures r.Some? ==> exists i | 0 <= i < |resources| ::
      resources[i] == r.value && r.value.id == id && forall j | 0 <= j < i :: resources[j].id != id
  {
    if |resources| == 0 then None
    else if resources[0].id == id then Some(resources[0])
    else
      var rest := UseResource(resources[1..], id);
      assert forall k | 0 < k < |resources| :: resources[1..][k - 1] == resources[k];
      if rest.Some? then
        var i :| 0 <= i < |resources[1..]| && resources[1..][i] == rest.value && rest.value.id == id
          && forall j | 0 <= j < i :: resources[1..][j].id != id;
        assert resources[i + 1] == rest.value;
        rest
      else rest
  }

  /**
   * After an update whose result keeps the plugin and id, looking the id up
   * finds the result whenever the first entry with that id is from that plugin.
   */
  lemma LookupAfterUpdate(cache: seq<Resource>, plugin: string, entityId: string, result: Resource)
    requires plugin != "" && Names(result, plugin, entityId)
    requires UseResource(cache, entityId).Some? && UseResource(cache, entityId).value.plugin == plugin
    ensures UseResource(OnUpdate(cache, Some(plugin), entityId, Some(result)), entityId) == Some(result)
  {
    var updated := OnUpdate(cache, Some(plugin), entityId, Some(result));
    var i :| 0 <= i < |cache| && cache[i] == UseResource(cache, entityId).value
      && forall j | 0 <= j < i :: cache[j].id != entityId;
    assert updated[i] == result;
    forall j | 0 <= j < i
      ensures updated[j].id != entityId
    {
      assert updated[j] == cache[j];
    }
    FirstMatch(updated, entityId, i);
  }

  /** The lookup returns the entry at the first index with the id. */
  lemma {:induction false} FirstMatch(resources: seq<Resource>, id: string, i: nat)
    requires i < |resources| && resources[i].id == id
    requires forall j | 0 <= j < i :: resources[j].id != id
    ensures UseResource(resources, id) == Some(resources[i])
    decreases i
  {
    if i > 0 {
      FirstMatch(resources[1..], id, i - 1);
    }
  }
}
