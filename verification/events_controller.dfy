/**
 * The events controller (raven_api/controllers/events.py): parsing of
 * subscription commands sent over the socket, the edits they make to the
 * session's subscription list, and the decision to forward a published
 * event to the socket. The user's scope check is a parameter.
 */
module EventsController {

  import opened Wrappers
  import opened PyValues
  import opened Glob
  import opened EventRegistry

  datatype Command = AddSubscriptions(paths: seq<string>) | RemoveSubscriptions(paths: seq<string>)

  const AddName: string := "subscriptions.add"
  const RemoveName: string := "subscriptions.remove"

  /** `paths: list[str]`: a list or tuple of strings, else a validation failure. */
  function StringItems(v: PyValue): (r: Option<seq<string>>)
    ensures r.Some? <==> (v.PyList? || v.PyTuple?) && forall i | 0 <= i < |v.items| :: IsText(v.items[i])
    ensures r.Some? ==> |r.value| == |v.items| && forall i | 0 <= i < |v.items| :: r.value[i] == TextOf(v.items[i])
  {
    if (v.PyList? || v.PyTuple?) && forall i | 0 <= i < |v.items| :: IsText(v.items[i]) then
      Some(seq(|v.items|, i requires 0 <= i < |v.items| => TextOf(v.items[i])))
    else None
  }

  /**
   * `command(obj)`: a dict with a `"command"` naming one of the two
   * commands and a valid `"paths"`; every failure inside is None.
   */
  function ParseCommand(obj: PyValue): (r: Option<Command>)
    ensures !obj.PyDict? || "command" !in obj.entries ==> r.None?
    ensures r.Some? ==> "paths" in obj.entries && StringItems(obj.entries["paths"]) == Some(r.value.paths)
    ensures r.Some? && r.value.AddSubscriptions? ==> PyEq(obj.entries["command"], PyStr(AddName))
    ensures r.Some? && r.value.RemoveSubscriptions? ==> PyEq(obj.entries["command"], PyStr(RemoveName))
  {
    if !obj.PyDict? || "command" !in obj.entries then None
    else
      var c := obj.entries["command"];
      if !IsText(c) || !(TextOf(c) == AddName || TextOf(c) == RemoveName) then None
      else if "paths" !in obj.entries then None
      else match StringItems(obj.entries["paths"])
        case None => None
        case Some(paths) => Some(if TextOf(c) == AddName then AddSubscriptions(paths) else RemoveSubscriptions(paths))
  }

  /** An unknown command name is ignored. */
  lemma UnknownCommand(entries: map<string, PyValue>, name: string)
    requires "command" in entries && entries["command"] == PyStr(name)
    requires name != AddName && name != RemoveName
    ensures ParseCommand(PyDict(entries)).None?
  {
  }

  /** A well-formed add command parses to its paths. */
  lemma ParseAdd(paths: seq<string>)
    ensures var obj := PyDict(map["command" := PyStr(AddName),
      "paths" := PyList(seq(|paths|, i requires 0 <= i < |paths| => PyStr(paths[i])))]);
      ParseCommand(obj) == Some(AddSubscriptions(paths))
  {
    var items := seq(|paths|, i requires 0 <= i < |paths| => PyStr(paths[i]));
    assert StringItems(PyList(items)).value == paths;
  }

  predicate NoDuplicates(s: seq<string>)
  {
    forall i, j | 0 <= i < j < |s| :: s[i] != s[j]
  }

  /** The add loop: each path not yet present is appended, in order. */
  function AddPaths(subs: seq<string>, paths: seq<string>): seq<string>
    decreases |paths|
  {
    if |paths| == 0 then subs
    else AddPaths(if paths[0] in subs then subs else subs + [paths[0]], paths[1..])
  }

  /** `subscriptions.add`, as the source's loop over the paths. */
  method AddSubscriptionPaths(subs: seq<string>, paths: seq<string>) returns (r: seq<string>)
    ensures r == AddPaths(subs, paths)
    ensures |r| >= |subs| && r[..|subs|] == subs
    ensures forall x :: x in r <==> x in subs || x in paths
    ensures NoDuplicates(subs) ==> NoDuplicates(r)
  {
    r := subs;
    var k := 0;
    while k < |paths|
      invariant 0 <= k <= |paths|
      invariant AddPaths(r, paths[k..]) == AddPaths(subs, paths)
      invariant |r| >= |subs| && r[..|subs|] == subs
      invariant forall x :: x in r <==> x in subs || x in paths[..k]
      invariant NoDuplicates(subs) ==> NoDuplicates(r)
    {
      assert paths[k..][1..] == paths[k + 1..];
      assert paths[..k + 1] == paths[..k] + [paths[k]];
      if paths[k] !in r {
        r := r + [paths[k]];
      }
      k := k + 1;
    }
    assert paths[..k] == paths;
  }

  /** Adding paths that are all present already changes nothing. */
  lemma {:induction false} AddPresent(subs: seq<string>, paths: seq<string>)
    requires forall i | 0 <= i < |paths| :: paths[i] in subs
    ensures AddPaths(subs, paths) == subs
    decreases |paths|
  {
    if |paths| > 0 {
      AddPresent(subs, paths[1..]);
    }
  }

  /** Adding keeps every element it finds. */
  lemma {:induction false} AddMembers(subs: seq<string>, paths: seq<string>)
    ensures forall x :: x in AddPaths(subs, paths) <==> x in subs || x in paths
    decreases |paths|
  {
    if |paths| > 0 {
      var next := if paths[0] in subs then subs else subs + [paths[0]];
      AddMembers(next, paths[1..]);
      assert paths == [paths[0]] + paths[1..];
    }
  }

  /** Adding never creates a duplicate. */
  lemma {:induction false} AddNoDuplicates(subs: seq<string>, paths: seq<string>)
    requires NoDuplicates(subs)
    ensures NoDuplicates(AddPaths(subs, paths))
    decreases |paths|
  {
    if |paths| > 0 {
      AddNoDuplicates(if paths[0] in subs then subs else subs + [paths[0]], paths[1..]);
    }
  }

  /** Re-adding the same paths leaves the list unchanged. */
  lemma AddIdempotent(subs: seq<string>, paths: seq<string>)
    ensures AddPaths(AddPaths(subs, paths), paths) == AddPaths(subs, paths)
  {
    AddMembers(subs, paths);
    AddPresent(AddPaths(subs, paths), paths);
  }

  /** `subscriptions.remove`: the entries not listed, in their order. */
  function RemovePaths(subs: seq<string>, paths: seq<string>): (r: seq<string>)
    ensures forall x {:trigger x in r} :: x in r <==> x in subs && x !in paths
    ensures |r| <= |subs|
  {
    if |subs| == 0 then []
    else (if subs[0] in paths then [] else [subs[0]]) + RemovePaths(subs[1..], paths)
  }

  /** Removing what was just added gives what removing alone gives. */
  lemma {:induction false} RemoveAfterAdd(subs: seq<string>, paths: seq<string>)
    ensures RemovePaths(AddPaths(subs, paths), paths) == RemovePaths(subs, paths)
    decreases |paths|
  {
    if |paths| > 0 {
      var next := if paths[0] in subs then subs else subs + [paths[0]];
      var rest := paths[1..];
      assert forall x :: x in rest ==> x in paths;
      RemoveAfterAdd(next, rest);
      RemoveMore(AddPaths(next, rest), rest, paths);
      RemoveMore(next, rest, paths);
      if paths[0] !in subs {
        RemoveAppend(subs, [paths[0]], paths);
        assert RemovePaths([paths[0]], paths) == [];
      }
    }
  }

  lemma {:induction false} RemoveAppend(a: seq<string>, b: seq<string>, paths: seq<string>)
    ensures RemovePaths(a + b, paths) == RemovePaths(a, paths) + RemovePaths(b, paths)
    decreases |a|
  {
    if |a| > 0 {
      var h := if a[0] in paths then [] else [a[0]];
      assert (a + b)[0] == a[0] && (a + b)[1..] == a[1..] + b;
      assert RemovePaths(a + b, paths) == h + RemovePaths(a[1..] + b, paths);
      RemoveAppend(a[1..], b, paths);
      assert RemovePaths(a, paths) == h + RemovePaths(a[1..], paths);
    } else {
      assert a + b == b;
    }
  }

  /** Removing a larger set after a smaller one is removing the larger one. */
  lemma {:induction false} RemoveMore(s: seq<string>, small: seq<string>, big: seq<string>)
    requires forall x :: x in small ==> x in big
    ensures RemovePaths(RemovePaths(s, small), big) == RemovePaths(s, big)
    decreases |s|
  {
    if |s| > 0 {
      RemoveMore(s[1..], small, big);
      RemoveAppend(if s[0] in small then [] else [s[0]], RemovePaths(s[1..], small), big);
    }
  }

  /** The message sent to the browser. */
  datatype Channel = GlobalChannel | SessionChannel

  datatype FrontendEvent = FrontendEvent(
    id: string,
    source: string,
    eventType: string,
    channel: Channel,
    data: map<string, PyValue>,
    subscribers: seq<string>)

  /** Keys left out of the forwarded `data`. */
  const Excluded: set<string> := {"id", "source", "scope", "path", "emitted", "is_global"}

  function OptValue(o: Option<string>): PyValue
  {
    if o.Some? then PyStr(o.value) else PyNone
  }

  /** `event.model_dump(mode="json")`: the subclass fields and the base fields. */
  function DumpEvent(e: Event): map<string, PyValue>
  {
    e.fields + map[
      "id" := OptValue(e.id),
      "path" := PyStr(e.path),
      "source" := OptValue(e.source),
      "scope" := ScopeValue(e.scope),
      "emitted" := if e.emitted.Some? then PyInt(e.emitted.value) else PyNone]
  }

  /** The forwarded `data`: the dump without the excluded keys. */
  function EventData(e: Event): (r: map<string, PyValue>)
    ensures r.Keys !! Excluded
  {
    map k | k in DumpEvent(e) && k !in Excluded :: DumpEvent(e)[k]
  }

  /** The forwarded data is exactly the event's own fields, less any excluded names. */
  lemma EventDataIsOwnFields(e: Event)
    ensures EventData(e) == map k | k in e.fields && k !in Excluded :: e.fields[k]
  {
  }

  /**
   * One published event, for a session with `subs` subscriptions: the
   * message sent to the socket, if any. Building the message fails when
   * the event lacks an id or source.
   */
  function Deliver(e: Event, subs: seq<string>, userId: Option<string>, hasScope: seq<string> -> bool): (r: Result<Option<FrontendEvent>, PyError>)
    ensures r.Ok? && r.value.Some? ==> |Selected(e.path, subs)| > 0
  {
    var matches := Selected(e.path, subs);
    if |matches| == 0 then Ok(None)
    else if e.id.None? || e.source.None? then Err(ValidationError)
    else
      var fe := FrontendEvent(e.id.value, e.source.value, e.path,
        if IsGlobal(e) then GlobalChannel else SessionChannel, EventData(e), matches);
      if IsGlobal(e) then Ok(Some(fe))
      else if userId.Some? && userId.value != "" && hasScope(e.scope.names) then Ok(Some(fe))
      else Ok(None)
  }

  /**
   * A complete event is forwarded iff some subscription matches and it is
   * global, or the session has a user holding its scopes; the message
   * carries the event's path as its type and the matching subscriptions.
   */
  lemma DeliverIff(e: Event, subs: seq<string>, userId: Option<string>, hasScope: seq<string> -> bool)
    requires e.id.Some? && e.source.Some?
    ensures Deliver(e, subs, userId, hasScope).Ok?
    ensures Deliver(e, subs, userId, hasScope).value.Some? <==>
      && (exists x :: x in subs && EntryMatches(e.path, x))
      && (IsGlobal(e) || (userId.Some? && userId.value != "" && hasScope(e.scope.names)))
    ensures var r := Deliver(e, subs, userId, hasScope).value;
      r.Some? ==>
        && r.value.eventType == e.path
        && (r.value.channel == GlobalChannel <==> IsGlobal(e))
        && (forall x :: x in r.value.subscribers <==> x in subs && EntryMatches(e.path, x))
        && r.value.data.Keys !! Excluded
  {
    var matches := Selected(e.path, subs);
    forall x ensures x in matches <==> x in subs && EntryMatches(e.path, x) {
      SelectedMembers(e.path, subs, x);
    }
    if |matches| > 0 {
      assert matches[0] in matches;
    }
  }
}
