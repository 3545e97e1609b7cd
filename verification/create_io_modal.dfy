/**
 * Creating a pipeline I/O entry (CreateIOModal.tsx): the data-field list
 * editing of the extras, the trigger label, the create button's rule and
 * the payload sent.
 */
module CreateIOModal {

  import opened Wrappers
  import opened JsonValues
  import Api
  import ApiMethods
  import Seqs
  import opened IOForms

  datatype Mode = DataMode | TriggerMode

  // ---- addItem (64-85) ----

  /**
   * The new field: a `field-` key from the fresh id's first six characters,
   * the label "New Field" and the item's default or null, all overridden by
   * the item's own keys.
   */
  function NewField(item: Obj, freshId: string): (r: Json)
    ensures r.JObj?
    ensures forall k | k in item :: k in r.fields && r.fields[k] == item[k]
    ensures r.fields.Keys == {"key", "label", "default_value"} + item.Keys
    ensures "key" !in item ==> r.fields["key"] == JStr("field-" + (if |freshId| <= 6 then freshId else freshId[..6]))
    ensures "label" !in item ==> r.fields["label"] == JStr("New Field")
    ensures "default_value" !in item ==> r.fields["default_value"] == JNull
  {
    var id6 := if |freshId| <= 6 then freshId else freshId[..6];
    var base := map["key" := JStr("field-" + id6), "label" := JStr("New Field"),
                    "default_value" := Coalesce(Member(JObj(item), "default_value"), JNull)];
    JObj(base + item)
  }

  /** `addItem`: exactly one field appended; the extras' other keys are untouched. */
  function AddItem(extra: Obj, item: Obj, freshId: string): (r: Obj)
    ensures |FieldsOf(r)| == |FieldsOf(extra)| + 1
    ensures FieldsOf(r)[..|FieldsOf(extra)|] == FieldsOf(extra)
    ensures FieldsOf(r)[|FieldsOf(extra)|] == NewField(item, freshId)
    ensures forall k | k != "fields" :: (k in r <==> k in extra) && (k in r ==> r[k] == extra[k])
  {
    SetState(extra, map["fields" := JArr(FieldsOf(extra) + [NewField(item, freshId)])])
  }

  /** The menu's seven field templates (96-197). */
  function Template(kind: string): (r: Obj)
  {
    if kind == "string" then map["type" := JStr("string"), "multiline" := JBool(false), "max_length" := JNull, "default_value" := JStr("")]
    else if kind == "number" then map["type" := JStr("number"), "decimals" := JBool(true), "negatives" := JBool(true),
                                      "min" := JNull, "max" := JNull, "default_value" := JNum(0.0)]
    else if kind == "switch" then map["type" := JStr("switch"), "default_value" := JBool(false)]
    else if kind == "select" then map["type" := JStr("select"), "options" := JArr([]), "multiple" := JBool(false)]
    else if kind == "list" then map["type" := JStr("list"), "default_value" := JArr([]), "max_length" := JNull, "suggestions" := JArr([])]
    else if kind == "color" then map["type" := JStr("color"), "default_value" := JNull, "alpha" := JBool(false)]
    else map["type" := JStr("datetime"), "default_value" := JNull, "mode" := JStr("datetime")]
  }

  /** The template's preset default, absent only for select. */
  function TemplateDefault(kind: string): Json
  {
    if kind == "string" then JStr("") else if kind == "number" then JNum(0.0)
    else if kind == "switch" then JBool(false) else if kind == "list" then JArr([]) else JNull
  }

  /** Each template names its type, sets no label, and presets a default unless it is select. */
  lemma TemplateShape(kind: string)
    requires kind in ["string", "number", "switch", "select", "list", "color", "datetime"]
    ensures "type" in Template(kind) && Template(kind)["type"] == JStr(kind)
    ensures "label" !in Template(kind)
    ensures kind != "select" ==> "default_value" in Template(kind) && Template(kind)["default_value"] == TemplateDefault(kind)
    ensures kind == "select" ==> "default_value" !in Template(kind)
  {
    if kind == "string" {
    } else if kind == "number" {
    } else if kind == "switch" {
    } else if kind == "select" {
    } else if kind == "list" {
    } else if kind == "color" {
    } else {
      assert kind == "datetime";
    }
  }

  /** Every template yields a field of its kind; only the select template leaves its default to `addItem`. */
  lemma TemplateFields(kind: string, freshId: string)
    requires kind in ["string", "number", "switch", "select", "list", "color", "datetime"]
    ensures NewField(Template(kind), freshId).fields["type"] == JStr(kind)
    ensures NewField(Template(kind), freshId).fields["label"] == JStr("New Field")
    ensures NewField(Template(kind), freshId).fields["default_value"] ==
      if kind == "string" then JStr("") else if kind == "number" then JNum(0.0)
      else if kind == "switch" then JBool(false) else if kind == "list" then JArr([]) else JNull
  {
    TemplateShape(kind);
  }

  // ---- removing and editing a field (227-254) ----

  /** Removing a field: every field with that key goes, the others keep their order. */
  function RemoveField(extra: Obj, key: Json): (r: Obj)
    ensures forall f {:trigger f in FieldsOf(r)} :: f in FieldsOf(r) <==> f in FieldsOf(extra) && Member(f, "key") != key
    ensures forall k | k != "fields" :: (k in r <==> k in extra) && (k in r ==> r[k] == extra[k])
  {
    RemoveFieldKeeps(extra, key);
    SetState(extra, map["fields" := JArr(Seqs.Keep(FieldsOf(extra), OtherKey(key)))])
  }

  /** The fields after removal are the filter of `v.key !== key` over the fields before. */
  lemma RemoveFieldKeeps(extra: Obj, key: Json)
    ensures FieldsOf(SetState(extra, map["fields" := JArr(Seqs.Keep(FieldsOf(extra), OtherKey(key)))])) ==
      Seqs.Keep(FieldsOf(extra), OtherKey(key))
  {
  }

  /** The filter of `v.key !== field.key`. */
  function OtherKey(key: Json): Json -> bool
  {
    (f: Json) => Member(f, "key") != key
  }

  /** Dropping the key of the one appended field leaves the list before it. */
  lemma DropAppended(fields: seq<Json>, added: Json, key: Json)
    requires Member(added, "key") == key
    requires forall f | f in fields :: Member(f, "key") != key
    ensures Seqs.Keep(fields + [added], OtherKey(key)) == fields
  {
    var p := OtherKey(key);
    Seqs.KeepAppend(fields, [added], p);
    Seqs.KeepEvery(fields, p);
    assert Seqs.Keep([added], p) == [];
  }

  /** Removing the key of a field appended to the list drops just that field. */
  lemma RemoveAppended(extra: Obj, grown: Obj, added: Json)
    requires FieldsOf(grown) == FieldsOf(extra) + [added]
    requires forall f | f in FieldsOf(extra) :: Member(f, "key") != Member(added, "key")
    ensures FieldsOf(RemoveField(grown, Member(added, "key"))) == FieldsOf(extra)
  {
    var key := Member(added, "key");
    DropAppended(FieldsOf(extra), added, key);
    RemoveFieldKeeps(grown, key);
    assert RemoveField(grown, key) == SetState(grown, map["fields" := JArr(Seqs.Keep(FieldsOf(grown), OtherKey(key)))]);
  }

  /** Removing a field just added under a fresh key gives back the earlier list. */
  lemma RemoveAfterAdd(extra: Obj, item: Obj, freshId: string)
    requires forall f | f in FieldsOf(extra) :: Member(f, "key") != Member(NewField(item, freshId), "key")
    ensures FieldsOf(RemoveField(AddItem(extra, item, freshId), Member(NewField(item, freshId), "key"))) == FieldsOf(extra)
  {
    var added := NewField(item, freshId);
    var grown := AddItem(extra, item, freshId);
    assert FieldsOf(grown) == FieldsOf(extra) + [added];
    RemoveAppended(extra, grown, added);
  }

  /** An editor's change: the partial merged into field `index`; length and other fields unchanged. */
  function UpdateField(extra: Obj, index: nat, partial: Obj): (r: Obj)
    requires index < |FieldsOf(extra)|
    ensures |FieldsOf(r)| == |FieldsOf(extra)|
    ensures forall i | 0 <= i < |FieldsOf(extra)| && i != index :: FieldsOf(r)[i] == FieldsOf(extra)[i]
    ensures FieldsOf(r)[index] == JObj(SetState(SpreadFields(FieldsOf(extra)[index]), partial))
  {
    var fields := FieldsOf(extra);
    SetState(extra, map["fields" := JArr(fields[index := JObj(SetState(SpreadFields(fields[index]), partial))])])
  }

  /** An edit that restates a field's own values leaves the list as it was. */
  lemma UpdateWithOwnValues(extra: Obj, index: nat)
    requires index < |FieldsOf(extra)| && FieldsOf(extra)[index].JObj?
    ensures FieldsOf(UpdateField(extra, index, FieldsOf(extra)[index].fields)) == FieldsOf(extra)
  {
    var f := FieldsOf(extra)[index].fields;
    assert SetState(f, f) == f;
  }

  // ---- trigger label (301-322) ----

  /** Typing the trigger label: empty text stores null. */
  function SetLabel(extra: Obj, text: string): (r: Obj)
    ensures "label" in r && r["label"] == if |text| > 0 then JStr(text) else JNull
    ensures forall k | k != "label" :: (k in r <==> k in extra) && (k in r ==> r[k] == extra[k])
  {
    SetState(extra, map["label" := if |text| > 0 then JStr(text) else JNull])
  }

  /** What the label input shows: `value.label ?? ""`. */
  function ShownLabel(extra: Obj): Json
  {
    Coalesce(Member(JObj(extra), "label"), JStr(""))
  }

  /** The input always shows back exactly what was typed. */
  lemma LabelRoundTrip(extra: Obj, text: string)
    ensures ShownLabel(SetLabel(extra, text)) == JStr(text)
  {
  }

  // ---- the create button (427-481) ----

  /** The create button is disabled iff the name is empty, or a data entry has no fields. */
  predicate CreateDisabled(form: FormBase, mode: Mode, extra: Obj)
  {
    |form.name| == 0 || (mode == DataMode && |FieldsOf(extra)| == 0)
  }

  /**
   * A named data entry becomes creatable once a field is added, whatever
   * the extras held; a trigger entry needs only its name.
   */
  lemma AddFieldEnablesCreate(form: FormBase, extra: Obj, item: Obj, freshId: string)
    requires |form.name| > 0
    ensures !CreateDisabled(form, DataMode, AddItem(extra, item, freshId))
    ensures !CreateDisabled(form, TriggerMode, extra)
  {
  }

  function Payload(mode: Mode, form: FormBase, extra: Obj): (r: Obj)
    ensures r.Keys == {"type"} + FormJson(form).Keys + (if mode == DataMode then {"fields"} else {"label"})
    ensures r["type"] == JStr(if mode == DataMode then "data" else "trigger")
    ensures forall k | k in FormJson(form) :: r[k] == FormJson(form)[k]
    ensures mode == DataMode ==> r["fields"] == Member(JObj(extra), "fields") && "label" !in r
    ensures mode == TriggerMode ==> r["label"] == Member(JObj(extra), "label") && "fields" !in r
  {
    match mode
    case DataMode => map["type" := JStr("data")] + FormJson(form) + map["fields" := Member(JObj(extra), "fields")]
    case TriggerMode => map["type" := JStr("trigger")] + FormJson(form) + map["label" := Member(JObj(extra), "label")]
  }

  /** Create: the matching creation request; the modal closes iff the result is truthy. */
  function Create(c: Api.ApiContext, transport: Api.Request -> Api.ApiResponse, mode: Option<Mode>, form: FormBase, extra: Obj): (r: (Api.Call<Json>, bool))
    ensures mode.None? ==> r.0.sent == []
    ensures mode == Some(DataMode) ==> r.0 == ApiMethods.CreateDataIO(c, transport, JObj(Payload(DataMode, form, extra)))
    ensures mode == Some(TriggerMode) ==> r.0 == ApiMethods.CreateTriggerIO(c, transport, JObj(Payload(TriggerMode, form, extra)))
    ensures r.1 <==> Truthy(r.0.result)
  {
    match mode
    case None => (Api.Call(JUndefined, [], 0), false)
    case Some(DataMode) =>
      var call := ApiMethods.CreateDataIO(c, transport, JObj(Payload(DataMode, form, extra)));
      (call, Truthy(call.result))
    case Some(TriggerMode) =>
      var call := ApiMethods.CreateTriggerIO(c, transport, JObj(Payload(TriggerMode, form, extra)));
      (call, Truthy(call.result))
  }

  /** A create request that is not sent, or fails, never closes the modal. */
  lemma FailedCreateStaysOpen(c: Api.ApiContext, transport: Api.Request -> Api.ApiResponse, mode: Mode, form: FormBase, extra: Obj)
    requires !ApiMethods.Succeeds(c, transport, ApiMethods.PostWith(
      if mode == DataMode then "/pipelines/io/data" else "/pipelines/io/triggers", JObj(Payload(mode, form, extra))))
    ensures !Create(c, transport, Some(mode), form, extra).1
  {
  }

  // ---- null mode (349-359) ----

  /** Closing resets the form and sets every extras key to undefined. */
  function OnNullMode(extra: Obj): (r: (FormBase, Obj))
    ensures r.0 == InitialForm
    ensures r.1.Keys == extra.Keys && forall k | k in r.1 :: r.1[k] == JUndefined
  {
    (InitialForm, Cleared(extra))
  }

  /** After the reset the name is empty, so create is disabled. */
  lemma ResetDisablesCreate(extra: Obj, form: FormBase)
    ensures CreateDisabled(OnNullMode(extra).0, DataMode, OnNullMode(extra).1)
    ensures CreateDisabled(OnNullMode(extra).0, TriggerMode, OnNullMode(extra).1)
  {
  }
}
