/**
 * The server's resource record (raven_api/common/plugin/models/resource.py)
 * and its `model_dump()`, the dict that fragment targets are matched against.
 */
module ServerResource {

  import opened Wrappers
  import opened PyValues

  /** `ResourcePropertyType`, a `StrEnum` (the server has no BOOLEAN member). */
  datatype PropertyType = ObjectProp | TextProp | NumberProp | DateProp | TimeProp | DateTimeProp | ColorProp | OptionProp | ListProp

  function PropertyTypeValue(t: PropertyType): string
  {
    match t
    case ObjectProp => "object"
    case TextProp => "text"
    case NumberProp => "number"
    case DateProp => "date"
    case TimeProp => "time"
    case DateTimeProp => "datetime"
    case ColorProp => "color"
    case OptionProp => "option"
    case ListProp => "list"
  }

  datatype Property = Property(
    labelText: Option<string>,
    propType: PropertyType,
    value: PyValue,
    icon: Option<string>,
    suffix: Option<string>,
    prefix: Option<string>)

  datatype Metadata = Metadata(
    displayName: Option<string>,
    icon: Option<string>,
    category: Option<string>,
    tags: seq<string>)

  datatype Resource = Resource(
    id: string,
    plugin: string,
    metadata: Metadata,
    properties: map<string, Property>,
    stateKey: string)

  function OptStr(o: Option<string>): PyValue
  {
    if o.Some? then PyStr(o.value) else PyNone
  }

  function StrList(xs: seq<string>): (r: PyValue)
    ensures r.PyList? && |r.items| == |xs|
    ensures forall i | 0 <= i < |xs| :: r.items[i] == PyStr(xs[i])
  {
    PyList(seq(|xs|, i requires 0 <= i < |xs| => PyStr(xs[i])))
  }

  function DumpProperty(p: Property): map<string, PyValue>
  {
    map[
      "label" := OptStr(p.labelText),
      "type" := PyEnum("ResourcePropertyType", PropertyTypeValue(p.propType)),
      "value" := p.value,
      "icon" := OptStr(p.icon),
      "suffix" := OptStr(p.suffix),
      "prefix" := OptStr(p.prefix)]
  }

  /** `target.model_dump()`: enum members stay enum members, as in pydantic's Python mode. */
  function Dump(r: Resource): map<string, PyValue>
  {
    map[
      "id" := PyStr(r.id),
      "plugin" := PyStr(r.plugin),
      "metadata" := PyDict(map[
        "display_name" := OptStr(r.metadata.displayName),
        "icon" := OptStr(r.metadata.icon),
        "category" := OptStr(r.metadata.category),
        "tags" := StrList(r.metadata.tags)]),
      "properties" := PyDict(map k | k in r.properties :: PyDict(DumpProperty(r.properties[k]))),
      "state_key" := PyStr(r.stateKey)]
  }
}
