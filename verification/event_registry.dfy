/**
 * The event registry (raven_api/common/plugin/models/event.py): event
 * classes registered by path, decoding of incoming event dicts, and the
 * emitter. Event construction (pydantic validation) is a parameter: it
 * yields the event or fails.
 */
module EventRegistry {

  import opened Wrappers
  import opened PyValues

  /** `scope: list[str] | Literal["global"]`. */
  datatype EventScope = Global | Scopes(names: seq<string>)

  /** A `BaseEvent`; `fields` holds the subclass's own fields (such as `entity_id`). */
  datatype Event = Event(
    id: Option<string>,
    path: string,
    source: Option<string>,
    scope: EventScope,
    emitted: Option<int>,
    fields: map<string, PyValue>)

  /** `is_global`: the scope equals `"global"` (a list never does). */
  predicate IsGlobal(e: Event)
  {
    e.scope == Global
  }

  /** Registered classes are named by the strings in the registry's values. */
  datatype Registry = Registry(events: map<string, string>)

  /** The registry holding `ResourceUpdateEvent` under `"resource.update"`. */
  const Events: Registry := Registry(map["resource.update" := "ResourceUpdateEvent"])

  /** `register(path)(cls)`: the decorator returns `cls`; the mapping for `path` is overwritten. */
  function Register(reg: Registry, path: string, cls: string): (r: (Registry, string))
    ensures r.1 == cls
    ensures r.0.events.Keys == reg.events.Keys + {path}
    ensures r.0.events[path] == cls
    ensures forall p | p in reg.events && p != path :: r.0.events[p] == reg.events[p]
  {
    (Registry(reg.events[path := cls]), cls)
  }

  /** A later registration for the same path wins. */
  lemma RegisterOverwrites(reg: Registry, path: string, a: string, b: string)
    ensures Register(Register(reg, path, a).0, path, b).0 == Register(reg, path, b).0
  {
  }

  /** Whether a dict key lookup of `v` among string keys raises a TypeError (unhashable). */
  predicate LookupRaises(v: PyValue)
  {
    !Hashable(v)
  }

  /** The class registered for a looked-up value: only text equals (and hashes like) a string key. */
  function Lookup(reg: Registry, v: PyValue): Option<string>
  {
    if IsText(v) && TextOf(v) in reg.events then Some(reg.events[TextOf(v)]) else None
  }

  /**
   * `EVENTS(data)`: None without a `"path"` key or with an unregistered
   * path; the constructed event, or None when construction fails. An
   * unhashable path raises before the `try`.
   */
  function Decode(reg: Registry, data: map<string, PyValue>, construct: (string, map<string, PyValue>) -> Option<Event>): (r: Result<Option<Event>, PyError>)
    ensures "path" !in data ==> r == Ok(None)
    ensures "path" in data && LookupRaises(data["path"]) ==> r == Err(TypeError)
    ensures "path" in data && !LookupRaises(data["path"]) && Lookup(reg, data["path"]).None? ==> r == Ok(None)
    ensures r.Ok? && r.value.Some? ==>
      ("path" in data && Lookup(reg, data["path"]).Some? && r.value == construct(Lookup(reg, data["path"]).value, data))
  {
    if "path" !in data then Ok(None)
    else if LookupRaises(data["path"]) then Err(TypeError)
    else match Lookup(reg, data["path"])
      case None => Ok(None)
      case Some(cls) => Ok(construct(cls, data))
  }

  /** Decoding never raises for a dict whose path is a string. */
  lemma DecodeStringPathNeverRaises(reg: Registry, data: map<string, PyValue>, construct: (string, map<string, PyValue>) -> Option<Event>)
    requires "path" in data && data["path"].PyStr?
    ensures Decode(reg, data, construct).Ok?
    ensures Decode(reg, data, construct).value.Some? ==> data["path"].s in reg.events
  {
  }

  /** The keyword arguments the emitter passes itself; `**data` repeating one of them is a TypeError. */
  const EmitterKeys: set<string> := {"id", "source", "path", "emitted", "scope"}

  /**
   * `emit(path, data, scopes)` of an emitter made with `source`: for a
   * registered path, the event built from a fresh id, the current time
   * and `data` is handed to the app; otherwise nothing is. Every exception
   * is caught, so the result only says whether an event went out.
   */
  function Emit(reg: Registry, source: string, path: string, data: map<string, PyValue>, scopes: EventScope,
                freshId: string, now: int, construct: (string, map<string, PyValue>) -> Option<Event>): (r: Option<Event>)
    ensures path !in reg.events ==> r.None?
    ensures data.Keys !! EmitterKeys && path in reg.events ==>
      r == construct(reg.events[path], data + map["id" := PyStr(freshId), "source" := PyStr(source), "path" := PyStr(path),
        "emitted" := PyInt(now), "scope" := ScopeValue(scopes)])
    ensures !(data.Keys !! EmitterKeys) ==> r.None?
  {
    if path !in reg.events then None
    else if !(data.Keys !! EmitterKeys) then None
    else construct(reg.events[path], data + map["id" := PyStr(freshId), "source" := PyStr(source), "path" := PyStr(path),
      "emitted" := PyInt(now), "scope" := ScopeValue(scopes)])
  }

  function ScopeValue(s: EventScope): PyValue
  {
    match s
    case Global => PyStr("global")
    case Scopes(names) => PyList(seq(|names|, i requires 0 <= i < |names| => PyStr(names[i])))
  }

  /** An unregistered path emits nothing, whatever the data. */
  lemma EmitUnregistered(reg: Registry, source: string, path: string, data: map<string, PyValue>, scopes: EventScope,
                         freshId: string, now: int, construct: (string, map<string, PyValue>) -> Option<Event>)
    requires path !in reg.events
    ensures Emit(reg, source, path, data, scopes, freshId, now, construct).None?
  {
  }
}
