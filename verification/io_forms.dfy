/**
 * Form state shared by the pipeline I/O create and edit modals: the base
 * form, the `useSetState` extras object (whose setter merges), and its
 * `fields` list.
 */
module IOForms {

  import opened Wrappers
  import opened JsonValues

  type Obj = map<string, Json>

  /** The `useForm` values every I/O modal starts from. */
  datatype FormBase = FormBase(name: string, icon: Option<string>, description: string)

  const InitialForm: FormBase := FormBase("", None, "")

  function OptJson(s: Option<string>): Json
  {
    if s.Some? then JStr(s.value) else JNull
  }

  /** `...formBase.values` as an object. */
  function FormJson(f: FormBase): (r: Obj)
    ensures r.Keys == {"name", "icon", "description"}
    ensures r["name"] == JStr(f.name) && r["description"] == JStr(f.description)
  {
    map["name" := JStr(f.name), "icon" := OptJson(f.icon), "description" := JStr(f.description)]
  }

  /** `useSetState`'s setter: the partial is merged over the current state. */
  function SetState(current: Obj, partial: Obj): (r: Obj)
    ensures r.Keys == current.Keys + partial.Keys
    ensures forall k | k in partial :: r[k] == partial[k]
    ensures forall k | k in current && k !in partial :: r[k] == current[k]
  {
    current + partial
  }

  /** The reset on a null mode: every existing key set to undefined. */
  function Cleared(extra: Obj): (r: Obj)
    ensures r.Keys == extra.Keys
    ensures forall k | k in r :: r[k] == JUndefined
  {
    SetState(extra, map k | k in extra :: JUndefined)
  }

  /** `extra.fields ?? []`; anything other than an array counts as no fields. */
  function FieldsOf(extra: Obj): seq<Json>
  {
    if "fields" in extra && extra["fields"].JArr? then extra["fields"].items else []
  }

  /** The own fields of `{...v}` for an object `v`; nothing for anything else. */
  function SpreadFields(v: Json): Obj
  {
    if v.JObj? then v.fields else map[]
  }

  /** `omit(obj, ...keys)`. */
  function Omit(obj: Obj, keys: set<string>): (r: Obj)
    ensures forall k :: k in r <==> k in obj && k !in keys
    ensures forall k | k in r :: r[k] == obj[k]
  {
    map k | k in obj && k !in keys :: obj[k]
  }
}
