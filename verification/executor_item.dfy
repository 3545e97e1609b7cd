/**
 * The executor card of the resource modal (ExecutorItem.tsx): the argument
 * form's initial values, which arguments show, the duration inputs, the
 * run button and the resource picker's options.
 */
module ExecutorItem {

  import opened Wrappers
  import opened JsonValues
  import Api
  import ApiMethods
  import Seqs
  import ClientResources

  /** One executor argument, as far as the card reads it. */
  datatype Argument = Argument(argType: string, name: string, advanced: Option<bool>)

  /** The client's executor record; `arguments` keeps the object's key order. */
  datatype Executor = Executor(id: string, plugin: string, exportName: string, name: string,
                               description: Option<string>, arguments: Option<seq<(string, Argument)>>)

  function Arguments(e: Executor): seq<(string, Argument)>
  {
    e.arguments.GetOr([])
  }

  /** The form's initial values: every argument key, each undefined (475-480). */
  function InitialValues(e: Executor): (r: map<string, Json>)
    ensures forall k :: k in r <==> exists i | 0 <= i < |Arguments(e)| :: Arguments(e)[i].0 == k
    ensures forall k | k in r :: r[k] == JUndefined
  {
    InitialFrom(Arguments(e))
  }

  function InitialFrom(args: seq<(string, Argument)>): (r: map<string, Json>)
    ensures forall k :: k in r <==> exists i | 0 <= i < |args| :: args[i].0 == k
    ensures forall k | k in r :: r[k] == JUndefined
  {
    if |args| == 0 then map[]
    else
      var rest := InitialFrom(args[..|args| - 1]);
      assert forall i | 0 <= i < |args| - 1 :: args[..|args| - 1][i] == args[i];
      rest[args[|args| - 1].0 := JUndefined]
  }

  /** `advanced || !value.advanced`. */
  predicate Shown(a: Argument, advanced: bool)
  {
    advanced || a.advanced != Some(true)
  }

  /** The arguments rendered, in key order (524-526). */
  function ShownArguments(e: Executor, advanced: bool): (r: seq<(string, Argument)>)
    ensures forall x :: x in r <==> x in Arguments(e) && (advanced || x.1.advanced != Some(true))
  {
    Seqs.Keep(Arguments(e), (x: (string, Argument)) => Shown(x.1, advanced))
  }

  /** With the advanced switch on, every argument shows. */
  lemma AdvancedShowsAll(e: Executor)
    ensures ShownArguments(e, true) == Arguments(e)
  {
    Seqs.KeepEvery(Arguments(e), (x: (string, Argument)) => Shown(x.1, true));
  }

  // ---- duration inputs (396-461) ----

  datatype Unit = Days | Hours | Minutes | Seconds

  function UnitKey(u: Unit): string
  {
    match u
    case Days => "days"
    case Hours => "hours"
    case Minutes => "minutes"
    case Seconds => "seconds"
  }

  /** The own fields of `(value as object) ?? {}` when spread. */
  function SpreadFields(value: Json): map<string, Json>
  {
    if value.JObj? then value.fields else map[]
  }

  /** One sub-input's change: the unit gets the number typed, or 0 when it is not a number. */
  function DurationChange(value: Json, u: Unit, input: Json): (r: Json)
    ensures r.JObj? && UnitKey(u) in r.fields
    ensures r.fields[UnitKey(u)] == if input.JNum? then input else JNum(0.0)
    ensures forall k | k != UnitKey(u) :: (k in r.fields <==> k in SpreadFields(value))
    ensures forall k | k != UnitKey(u) && k in SpreadFields(value) :: r.fields[k] == SpreadFields(value)[k]
  {
    JObj(SpreadFields(value)[UnitKey(u) := if input.JNum? then input else JNum(0.0)])
  }

  /** What a sub-input displays: `value?.unit ?? 0`. */
  function DurationShown(value: Json, u: Unit): Json
  {
    Coalesce(Member(value, UnitKey(u)), JNum(0.0))
  }

  /** A sub-input shows what it stored and leaves the other units' display alone. */
  lemma DurationChangeOnlyOwnUnit(value: Json, u: Unit, input: Json, other: Unit)
    ensures DurationShown(DurationChange(value, u, input), u) == if input.JNum? then input else JNum(0.0)
    ensures other != u && value.JObj? ==> DurationShown(DurationChange(value, u, input), other) == DurationShown(value, other)
  {
  }

  // ---- run (547-556) ----

  /** Run: execute with the current values, then the form is back at its initial values. */
  function Run(c: Api.ApiContext, transport: Api.Request -> Api.ApiResponse, e: Executor, executorJson: Json,
               values: map<string, Json>, resourceJson: Json): (r: (Api.Call<()>, map<string, Json>))
    ensures r.0.sent == (if c.Ready? then [ApiMethods.PostWith("/resources/execute", ApiMethods.ExecuteBody(executorJson, values, resourceJson))] else [])
    ensures r.1 == InitialValues(e)
  {
    (ApiMethods.ExecuteOnResource(c, transport, executorJson, values, resourceJson), InitialValues(e))
  }

  // ---- the resource picker (67-80) ----

  /** The fetched resources kept only while ready. */
  function PickerResults(c: Api.ApiContext, fetched: seq<ClientResources.Resource>): (r: seq<ClientResources.Resource>)
    ensures c.Ready? ==> r == fetched
    ensures !c.Ready? ==> r == []
  {
    if c.Ready? then fetched else []
  }

  datatype PickerOption = PickerOption(labelText: string, value: string)

  /** `{label: display_name ?? id, value: id}` per result, in order. */
  function PickerOptions(results: seq<ClientResources.Resource>): (r: seq<PickerOption>)
    ensures |r| == |results|
    ensures forall i | 0 <= i < |results| ::
      r[i].value == results[i].id && r[i].labelText == results[i].metadata.displayName.GetOr(results[i].id)
  {
    seq(|results|, i requires 0 <= i < |results| =>
      PickerOption(results[i].metadata.displayName.GetOr(results[i].id), results[i].id))
  }
}
