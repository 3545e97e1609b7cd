/**
 * Editing a pipeline I/O entry (EditIOModal.tsx): the three effects that
 * track, seed and reset the modal's state, the submit button's rule and
 * the edit request sent.
 */
module EditIOModal {

  import opened Wrappers
  import opened JsonValues
  import Api
  import ApiMethods
  import opened IOForms

  /** The modal's state: the id being edited, the base form and the extras. */
  datatype EditState = EditState(current: Option<string>, form: FormBase, extra: Obj)

  /** A `PipelineIO` as the backend types promise it: string id, name and type; icon and description a string or null. */
  predicate IsEntry(e: Obj)
  {
    && "id" in e && e["id"].JStr?
    && "name" in e && e["name"].JStr?
    && "type" in e && e["type"].JStr?
    && (e.Keys * {"icon", "description"} == {"icon", "description"})
    && (e["icon"].JStr? || e["icon"].JNull?)
    && (e["description"].JStr? || e["description"].JNull?)
  }

  function OptString(v: Json): Option<string>
  {
    if v.JStr? then Some(v.s) else None
  }

  /** `current` is truthy: an id is tracked and it is not the empty string. */
  predicate Tracked(s: EditState)
  {
    s.current.Some? && s.current.value != ""
  }

  /** The keys the seeding leaves out of the extras. */
  const BaseKeys: set<string> := {"id", "value", "name", "icon", "description"}

  // ---- the mode-null effect (53-64) ----

  /** When nothing is being edited: no current id, the form reset, every extra undefined. */
  function OnModeNull(s: EditState): (r: EditState)
    ensures r.current.None? && r.form == InitialForm
    ensures r.extra.Keys == s.extra.Keys && forall k | k in r.extra :: r.extra[k] == JUndefined
  {
    EditState(None, InitialForm, Cleared(s.extra))
  }

  // ---- tracking the edited id (66-70) ----

  function TrackId(s: EditState, editing: Option<Obj>): (r: EditState)
    requires editing.Some? ==> IsEntry(editing.value)
    ensures editing.Some? ==> r.current == Some(editing.value["id"].s)
    ensures editing.None? ==> r.current == s.current
    ensures r.form == s.form && r.extra == s.extra
  {
    if editing.Some? && s.current != Some(editing.value["id"].s) then s.(current := Some(editing.value["id"].s)) else s
  }

  // ---- seeding from the entry (72-83) ----

  /** The form's values taken from the entry; a null description shows as empty. */
  function FormFrom(e: Obj): (r: FormBase)
    requires IsEntry(e)
    ensures r.name == e["name"].s
    ensures r.description == if e["description"].JStr? then e["description"].s else ""
  {
    FormBase(e["name"].s, OptString(e["icon"]), Coalesce(e["description"], JStr("")).s)
  }

  /** With a truthy current id and an entry, the form is set from it and its other keys are merged into the extras. */
  function Seed(s: EditState, editing: Option<Obj>): (r: EditState)
    requires editing.Some? ==> IsEntry(editing.value)
    ensures r.current == s.current
    ensures !Tracked(s) || editing.None? ==> r == s
    ensures Tracked(s) && editing.Some? ==>
      && r.form == FormFrom(editing.value)
      && r.extra.Keys == s.extra.Keys + (editing.value.Keys - BaseKeys)
      && (forall k | k in editing.value && k !in BaseKeys :: r.extra[k] == editing.value[k])
      && (forall k | k in s.extra && k !in editing.value - BaseKeys :: r.extra[k] == s.extra[k])
  {
    if Tracked(s) && editing.Some? then
      EditState(s.current, FormFrom(editing.value), SetState(s.extra, Omit(editing.value, BaseKeys)))
    else s
  }

  /** Opening an entry: the id is tracked, then (if it changed) the state is seeded. */
  function Open(s: EditState, e: Obj): (r: EditState)
    requires IsEntry(e)
  {
    var t := TrackId(s, Some(e));
    if t.current != s.current then Seed(t, Some(e)) else t
  }

  // ---- submit (152-185) ----

  /** Submit is disabled iff the name is empty, or a data entry has no fields, or `current` is falsy. */
  predicate SubmitDisabled(s: EditState, mode: string)
  {
    |s.form.name| == 0 || (mode == "data" && |FieldsOf(s.extra)| == 0) || !Tracked(s)
  }

  /** `{type: editing.type, ...form, ...extra}`: the extras win over the form, the form over the type. */
  function Payload(e: Obj, s: EditState): (r: Obj)
    requires IsEntry(e)
    ensures r.Keys == {"type"} + FormJson(s.form).Keys + s.extra.Keys
    ensures forall k | k in s.extra :: r[k] == s.extra[k]
    ensures forall k | k in FormJson(s.form) && k !in s.extra :: r[k] == FormJson(s.form)[k]
    ensures "type" !in s.extra ==> r["type"] == e["type"]
  {
    map["type" := e["type"]] + FormJson(s.form) + s.extra
  }

  /** Submit: the edit request for the tracked id; the modal closes iff the result is truthy. */
  function Submit(c: Api.ApiContext, transport: Api.Request -> Api.ApiResponse, s: EditState, editing: Option<Obj>): (r: (Api.Call<Json>, bool))
    requires editing.Some? ==> IsEntry(editing.value)
    ensures !Tracked(s) || editing.None? ==> r.0.sent == [] && !r.1
    ensures Tracked(s) && editing.Some? ==>
      r.0 == ApiMethods.EditIO(c, transport, s.current.value, JObj(Payload(editing.value, s)))
    ensures r.1 <==> Truthy(r.0.result) && Tracked(s) && editing.Some?
  {
    if !Tracked(s) || editing.None? then (Api.Call(JUndefined, [], 0), false)
    else
      var call := ApiMethods.EditIO(c, transport, s.current.value, JObj(Payload(editing.value, s)));
      (call, Truthy(call.result))
  }

  /**
   * Opening an entry on a reset modal and submitting unchanged sends the
   * entry itself (less its id and value) to that entry's edit endpoint:
   * every entry key, the icon included, keeps its value, a null
   * description becomes "", and leftover extras are undefined.
   * The extras never hold the form's own keys: the seeding omits them and
   * the extra editors only write `label` and `fields`.
   */
  lemma {:induction false} OpenThenSubmitSendsEntry(s: EditState, e: Obj)
    requires IsEntry(e) && e["id"].s != ""
    requires "name" !in s.extra && "icon" !in s.extra && "description" !in s.extra
    ensures var o := Open(OnModeNull(s), e);
      && o.current == Some(e["id"].s)
      && var p := Payload(e, o);
      && (forall k | k in e && k !in {"id", "value", "description"} :: k in p && p[k] == e[k])
      && p["description"] == Coalesce(e["description"], JStr(""))
      && (forall k | k in p && k !in e && k != "description" :: p[k] == JUndefined)
  {
    OpenAfterReset(s, e);
    SeededPayload(e, Cleared(s.extra));
  }

  /** On a reset modal, opening an entry with a non-empty id tracks it and seeds the form and extras from it. */
  lemma OpenAfterReset(s: EditState, e: Obj)
    requires IsEntry(e) && e["id"].s != ""
    ensures Open(OnModeNull(s), e) == EditState(Some(e["id"].s), FormFrom(e), SetState(Cleared(s.extra), Omit(e, BaseKeys)))
  {
    var z := OnModeNull(s);
    assert TrackId(z, Some(e)).current == Some(e["id"].s);
  }

  /** The payload of a freshly seeded state, when the earlier extras were all undefined and held no form key. */
  lemma SeededPayload(e: Obj, extra0: Obj)
    requires IsEntry(e)
    requires "name" !in extra0 && "icon" !in extra0 && "description" !in extra0
    requires forall k | k in extra0 :: extra0[k] == JUndefined
    ensures var p := Payload(e, EditState(Some(e["id"].s), FormFrom(e), SetState(extra0, Omit(e, BaseKeys))));
      && (forall k | k in e && k !in {"id", "value", "description"} :: k in p && p[k] == e[k])
      && p["description"] == Coalesce(e["description"], JStr(""))
      && (forall k | k in p && k !in e && k != "description" :: p[k] == JUndefined)
  {
    var o := EditState(Some(e["id"].s), FormFrom(e), SetState(extra0, Omit(e, BaseKeys)));
    var p := Payload(e, o);
    forall k | k in e && k !in {"id", "value", "description"}
      ensures k in p && p[k] == e[k]
    {
      if k !in BaseKeys {
        assert o.extra[k] == e[k];
      } else {
        assert k == "name" || k == "icon";
        assert p[k] == FormJson(o.form)[k];
      }
    }
    assert "description" !in o.extra;
    assert p["description"] == FormJson(o.form)["description"];
    forall k | k in p && k !in e && k != "description"
      ensures p[k] == JUndefined
    {
      assert k != "type" && k != "name" && k != "icon";
      assert k in extra0 && k in o.extra && o.extra[k] == extra0[k];
    }
  }

  /**
   * An entry whose id is the empty string is tracked but falsy: opening it
   * leaves the form reset, and submit is disabled and sends nothing.
   */
  lemma OpenEmptyIdSendsNothing(c: Api.ApiContext, transport: Api.Request -> Api.ApiResponse, s: EditState, e: Obj, mode: string)
    requires IsEntry(e) && e["id"].s == ""
    ensures var o := Open(OnModeNull(s), e);
      && o.current == Some("")
      && o.form == InitialForm
      && SubmitDisabled(o, mode)
      && Submit(c, transport, o, Some(e)).0.sent == []
  {
  }

  /** A disabled submit is never needed to send: an enabled one always posts the edit when ready. */
  lemma EnabledSubmitSends(c: Api.ApiContext, transport: Api.Request -> Api.ApiResponse, s: EditState, e: Obj, mode: string)
    requires IsEntry(e) && !SubmitDisabled(s, mode) && c.Ready?
    ensures Submit(c, transport, s, Some(e)).0.sent ==
      [ApiMethods.PostWith("/pipelines/io/" + s.current.value + "/edit", JObj(Payload(e, s)))]
  {
  }

  /** A failed edit request leaves the modal open. */
  lemma FailedEditStaysOpen(c: Api.ApiContext, transport: Api.Request -> Api.ApiResponse, s: EditState, e: Obj)
    requires IsEntry(e) && s.current.Some?
    requires !ApiMethods.Succeeds(c, transport, ApiMethods.PostWith("/pipelines/io/" + s.current.value + "/edit", JObj(Payload(e, s))))
    ensures !Submit(c, transport, s, Some(e)).1
  {
  }
}
