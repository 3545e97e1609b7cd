/**
 * The pipeline I/O tab (PipelineIOTab.tsx): a data entry's saved and
 * current value maps with their cancel and sync rules, the scope-driven
 * rendering, and when the entry list is fetched.
 */
module PipelineIOTab {

  import opened Wrappers
  import opened JsonValues
  import Api
  import ApiMethods
  import ResourceView
  import EventManager
  import opened IOForms

  /** The part of a data field the tab reads. */
  datatype FieldValue = FieldValue(key: string, value: Json)

  // ---- saved values (85-98) ----

  /** The fields folded left to right into a key-to-value map. */
  function SavedValues(fields: seq<FieldValue>): (r: Obj)
    ensures forall k :: k in r <==> exists i | 0 <= i < |fields| :: fields[i].key == k
    ensures forall i | 0 <= i < |fields| && (forall j | i < j < |fields| :: fields[j].key != fields[i].key) ::
      r[fields[i].key] == fields[i].value
  {
    if |fields| == 0 then map[]
    else
      var init := fields[..|fields| - 1];
      var last := fields[|fields| - 1];
      assert fields == init + [last];
      SavedStep(init, last, SavedValues(init));
      SavedValues(init)[last.key := last.value]
  }

  /** One step of the fold: writing the last field's key keeps the earlier keys and makes the last field win. */
  lemma SavedStep(init: seq<FieldValue>, last: FieldValue, prev: Obj)
    requires forall k :: k in prev <==> exists i | 0 <= i < |init| :: init[i].key == k
    requires forall i | 0 <= i < |init| && (forall j | i < j < |init| :: init[j].key != init[i].key) ::
      prev[init[i].key] == init[i].value
    ensures var fields := init + [last];
      var r := prev[last.key := last.value];
      && (forall k :: k in r <==> exists i | 0 <= i < |fields| :: fields[i].key == k)
      && (forall i | 0 <= i < |fields| && (forall j | i < j < |fields| :: fields[j].key != fields[i].key) ::
            r[fields[i].key] == fields[i].value)
  {
    var fields := init + [last];
    var r := prev[last.key := last.value];
    forall k
      ensures k in r <==> exists i | 0 <= i < |fields| :: fields[i].key == k
    {
      if k == last.key {
        assert fields[|init|].key == k;
      } else if k in prev {
        var i :| 0 <= i < |init| && init[i].key == k;
        assert fields[i].key == k;
      } else {
        forall i | 0 <= i < |fields|
          ensures fields[i].key != k
        {
          if i < |init| { assert fields[i] == init[i]; }
        }
      }
    }
    forall i | 0 <= i < |fields| && (forall j | i < j < |fields| :: fields[j].key != fields[i].key)
      ensures r[fields[i].key] == fields[i].value
    {
      if i < |init| {
        assert fields[|init|] == last;
        assert fields[i] == init[i];
        forall j | i < j < |init|
          ensures init[j].key != init[i].key
        {
          assert fields[j] == init[j];
        }
      }
    }
  }

  /** Both buttons are disabled iff the current values deep-equal the saved ones. */
  predicate Dirty(saved: Obj, current: Obj)
  {
    saved != current
  }

  /** An input's change merges its one key. */
  function ChangeValue(current: Obj, key: string, v: Json): (r: Obj)
    ensures r.Keys == current.Keys + {key} && r[key] == v
    ensures forall k | k in current && k != key :: r[k] == current[k]
  {
    SetState(current, map[key := v])
  }

  /**
   * From a clean tab, changing one saved field's input makes both buttons
   * enabled iff the new value differs from the saved one.
   */
  lemma ChangeDirtiesIff(saved: Obj, current: Obj, key: string, v: Json)
    requires !Dirty(saved, current) && key in saved
    ensures Dirty(saved, ChangeValue(current, key, v)) <==> v != saved[key]
  {
    if v == saved[key] {
      assert ChangeValue(current, key, v) == saved;
    } else {
      assert ChangeValue(current, key, v)[key] != saved[key];
    }
  }

  /** Inputs only write keys of the entry's fields. */
  lemma ChangeKeepsKeys(current: Obj, fields: seq<FieldValue>, i: nat, v: Json)
    requires i < |fields| && current.Keys <= SavedValues(fields).Keys
    ensures ChangeValue(current, fields[i].key, v).Keys <= SavedValues(fields).Keys
  {
  }

  // ---- cancel and the entry sync (100-104, 144-154) ----

  /** Cancel as written: the saved map is merged over the current one, so keys outside it survive. */
  function CancelAsWritten(current: Obj, fields: seq<FieldValue>): (r: Obj)
    ensures r.Keys == current.Keys + SavedValues(fields).Keys
    ensures forall k | k in SavedValues(fields) :: r[k] == SavedValues(fields)[k]
  {
    SetState(current, SavedValues(fields))
  }

  /** The entry-sync effect as written: a merge too, unless the maps are already equal. */
  function SyncAsWritten(current: Obj, fields: seq<FieldValue>): (r: Obj)
    ensures r.Keys == current.Keys + SavedValues(fields).Keys
  {
    if current == SavedValues(fields) then current else SetState(current, SavedValues(fields))
  }

  /** The written cancel leaves the tab clean iff the current keys are all saved keys. */
  lemma CancelAsWrittenCleanIff(current: Obj, fields: seq<FieldValue>)
    ensures !Dirty(SavedValues(fields), CancelAsWritten(current, fields)) <==> current.Keys <= SavedValues(fields).Keys
  {
    var saved := SavedValues(fields);
    if current.Keys <= saved.Keys {
      assert CancelAsWritten(current, fields) == saved;
    }
  }

  /**
   * A field dropped from the entry after its value was typed: the sync keeps
   * the stale value and cancel cannot clear it, so the tab stays dirty.
   */
  lemma StaleFieldStaysDirty()
    ensures var before := [FieldValue("a", JNum(1.0)), FieldValue("b", JNum(2.0))];
      var after := [FieldValue("a", JNum(1.0))];
      var typed := ChangeValue(SavedValues(before), "b", JNum(3.0));
      var synced := SyncAsWritten(typed, after);
      && "b" in synced
      && Dirty(SavedValues(after), CancelAsWritten(synced, after))
  {
    var after := [FieldValue("a", JNum(1.0))];
    assert SavedValues(after).Keys == {"a"};
  }

  /** Cancel as intended: the current values are replaced by the saved map. */
  function Cancel(fields: seq<FieldValue>): (r: Obj)
    ensures !Dirty(SavedValues(fields), r)
  {
    SavedValues(fields)
  }

  /** The entry sync as intended: the saved map replaces the current values. */
  function Sync(current: Obj, fields: seq<FieldValue>): (r: Obj)
    ensures !Dirty(SavedValues(fields), r)
  {
    SavedValues(fields)
  }

  /**
   * Whatever was typed and however the entry's fields changed, a sync
   * followed by any input on the new fields and a cancel leaves the tab clean;
   * and the intended cancel agrees with the written one whenever the current
   * keys are saved keys.
   */
  lemma CancelRestores(current: Obj, fields: seq<FieldValue>, i: nat, v: Json)
    requires i < |fields|
    ensures !Dirty(SavedValues(fields), Cancel(fields))
    ensures ChangeValue(Sync(current, fields), fields[i].key, v).Keys <= SavedValues(fields).Keys
    ensures current.Keys <= SavedValues(fields).Keys ==> CancelAsWritten(current, fields) == Cancel(fields)
  {
    ChangeKeepsKeys(Sync(current, fields), fields, i, v);
    CancelAsWrittenCleanIff(current, fields);
  }

  // ---- rendering by scope (117-133, 204) ----

  datatype FieldView = InputView | OutputView

  /** Fields are inputs iff the activate scope holds; cancel and save appear with them. */
  function FieldMode(scopes: string -> bool): (r: FieldView)
    ensures r == InputView <==> scopes("pipelines.io.activate")
  {
    if scopes("pipelines.io.activate") then InputView else OutputView
  }

  /** The edit, copy and delete menu appears iff the manage scope holds. */
  predicate MenuShown(scopes: string -> bool)
  {
    scopes("pipelines.io.manage")
  }

  /**
   * The menu and the inputs hang on different scopes: holding only the
   * activate scope gives inputs without the menu, holding only the manage
   * scope gives the menu over read-only fields.
   */
  lemma MenuIndependentOfInputs()
    ensures var activate := (n: string) => n == "pipelines.io.activate";
      FieldMode(activate) == InputView && !MenuShown(activate)
    ensures var manage := (n: string) => n == "pipelines.io.manage";
      FieldMode(manage) == OutputView && MenuShown(manage)
  {
  }

  /** A trigger's button text: its label, else its name. */
  function TriggerButtonText(entry: Obj): (r: Json)
    ensures Member(JObj(entry), "label").JUndefined? || Member(JObj(entry), "label").JNull? ==> r == Member(JObj(entry), "name")
    ensures !(Member(JObj(entry), "label").JUndefined? || Member(JObj(entry), "label").JNull?) ==> r == entry["label"]
  {
    Coalesce(Member(JObj(entry), "label"), Member(JObj(entry), "name"))
  }

  // ---- fetching entries (307-315) ----

  predicate ShouldFetch(c: Api.ApiContext)
  {
    c.Ready? && ResourceView.HasUserId(ResourceView.UserAuth(c))
  }

  /** `getEntries`: the listed entries when ready with a user id; otherwise nothing is sent and the list is kept. */
  function GetEntries(c: Api.ApiContext, transport: Api.Request -> Api.ApiResponse, entries: Json): (r: (Json, seq<Api.Request>))
    ensures ShouldFetch(c) ==> r == (ApiMethods.AllIO(c, transport).result, ApiMethods.AllIO(c, transport).sent)
    ensures !ShouldFetch(c) ==> r == (entries, [])
  {
    if ShouldFetch(c) then
      var call := ApiMethods.AllIO(c, transport);
      (call.result, call.sent)
    else (entries, [])
  }

  /** The events that refetch the list. */
  predicate RefetchOn(eventPath: string)
  {
    eventPath == "pipeline.io.edit" || eventPath == "pipeline.io.activate"
  }

  /**
   * The tab's two `useEvent` registrations of one refetch callback: an
   * event whose subscriber list names one channel calls the callback once
   * iff that channel is one of the refetch events, and calls nothing else.
   */
  lemma RefetchSubscriptions(m: EventManager.Manager, cb: nat, id1: string, id2: string, p: string)
    requires m.table == []
    ensures var m1 := EventManager.Subscribe(m, "pipeline.io.edit", cb, id1).0;
      var m2 := EventManager.Subscribe(m1, "pipeline.io.activate", cb, id2).0;
      EventManager.HandleEvent(m2, Some([p])) == if RefetchOn(p) then [cb] else []
  {
    var m1 := EventManager.Subscribe(m, "pipeline.io.edit", cb, id1).0;
    var m2 := EventManager.Subscribe(m1, "pipeline.io.activate", cb, id2).0;
    assert EventManager.Names(m2.table) == ["pipeline.io.edit", "pipeline.io.activate"];
    assert EventManager.Calls(m2.table, [p]) ==
      (if p in EventManager.Names(m2.table) then EventManager.Callbacks(EventManager.Regs(m2.table, p)) else [])
      + EventManager.Calls(m2.table, []);
    if p == "pipeline.io.edit" {
      assert EventManager.Regs(m2.table, p) == [EventManager.Registration(id1, cb)];
    } else if p == "pipeline.io.activate" {
      assert EventManager.Regs(m2.table, p) == [EventManager.Registration(id2, cb)];
    }
  }

  /** A refetch sends exactly one listing request iff the tab should fetch. */
  lemma RefetchSendsOnlyWhenSignedIn(c: Api.ApiContext, transport: Api.Request -> Api.ApiResponse, entries: Json)
    ensures GetEntries(c, transport, entries).1 == if ShouldFetch(c) then [ApiMethods.Plain("/pipelines/io")] else []
    ensures !ShouldFetch(c) ==> GetEntries(c, transport, entries).0 == entries
  {
  }
}
