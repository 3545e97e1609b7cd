/**
 * Executor targeting (raven_api/common/plugin/models/executor.py):
 * `match_fragment`, `ExecutionTarget.matches` and `StringArgument.mode`.
 */
module ExecutorTargets {

  import opened Wrappers
  import opened PyValues
  import opened ServerResource

  /**
   * `match_fragment(fragment, test)`. Per key: present, same `type()`,
   * dicts matched recursively, every list/tuple element a member, and
   * finally `==`. A failing key makes the loop break with `False`, so the
   * order the keys are visited in does not change the answer.
   */
  predicate MatchFragment(fragment: map<string, PyValue>, test: map<string, PyValue>)
    decreases PyDict(fragment)
  {
    forall k | k in fragment :: KeyMatches(fragment, test, k)
  }

  predicate KeyMatches(fragment: map<string, PyValue>, test: map<string, PyValue>, k: string)
    requires k in fragment
    decreases PyDict(fragment), 0
  {
    var v := fragment[k];
    && k in test
    && TypeOf(v) == TypeOf(test[k])
    && (v.PyDict? ==> MatchFragment(v.entries, test[k].entries))
    && ((v.PyList? || v.PyTuple?) ==> forall i | 0 <= i < |v.items| :: PyIn(v.items[i], test[k].items))
    && PyEq(v, test[k])
  }

  /** Equal sequences have every element of the first as a member of the second. */
  lemma EqualItemsAreMembers(xs: seq<PyValue>, ys: seq<PyValue>)
    requires |xs| == |ys| && forall i | 0 <= i < |xs| :: PyEq(xs[i], ys[i])
    ensures forall i | 0 <= i < |xs| :: PyIn(xs[i], ys)
  {
    forall i | 0 <= i < |xs| ensures PyIn(xs[i], ys) {
      assert PyEq(xs[i], ys[i]);
    }
  }

  /**
   * The list/tuple branch never loosens or tightens the final `==` test;
   * only the nested-dict branch adds something: matching holds iff every
   * fragment key is present with the same type and an equal value, and
   * nested dicts match recursively.
   */
  lemma MatchFragmentIff(fragment: map<string, PyValue>, test: map<string, PyValue>)
    ensures MatchFragment(fragment, test) <==>
      forall k | k in fragment ::
        && k in test
        && TypeOf(fragment[k]) == TypeOf(test[k])
        && PyEq(fragment[k], test[k])
        && (fragment[k].PyDict? ==> MatchFragment(fragment[k].entries, test[k].entries))
  {
    forall k | k in fragment && k in test && TypeOf(fragment[k]) == TypeOf(test[k]) && PyEq(fragment[k], test[k])
      && (fragment[k].PyList? || fragment[k].PyTuple?)
      ensures forall i | 0 <= i < |fragment[k].items| :: PyIn(fragment[k].items[i], test[k].items)
    {
      EqualItemsAreMembers(fragment[k].items, test[k].items);
    }
  }

  /** An empty fragment matches any dict. */
  lemma EmptyFragmentMatches(test: map<string, PyValue>)
    ensures MatchFragment(map[], test)
  {
  }

  /** Every dict matches itself. */
  lemma {:induction false} FragmentMatchesItself(d: map<string, PyValue>)
    ensures MatchFragment(d, d)
    decreases PyDict(d)
  {
    forall k | k in d
      ensures KeyMatches(d, d, k)
    {
      var v := d[k];
      PyEqReflexive(v);
      if v.PyDict? {
        FragmentMatchesItself(v.entries);
      }
      if v.PyList? || v.PyTuple? {
        forall i | 0 <= i < |v.items| ensures PyIn(v.items[i], v.items) {
          PyEqReflexive(v.items[i]);
        }
      }
    }
  }

  /**
   * Nested values must agree in `type()` even where `==` would not care:
   * `{"a": {"b": 1}}` does not match `{"a": {"b": 1.0}}`, although the two
   * dicts are equal.
   */
  lemma NestedTypesMustAgree()
    ensures var f := map["a" := PyDict(map["b" := PyInt(1)])];
      var t := map["a" := PyDict(map["b" := PyFloat(1.0)])];
      PyEq(PyDict(f), PyDict(t)) && !MatchFragment(f, t)
  {
    var fb, tb := map["b" := PyInt(1)], map["b" := PyFloat(1.0)];
    NestedEqualNotMatching(fb, tb, "b", "a");
  }

  /** An int and a float that compare equal, nested one dict deep: equal dicts, yet no match. */
  lemma NestedEqualNotMatching(fb: map<string, PyValue>, tb: map<string, PyValue>, b: string, a: string)
    requires fb == map[b := PyInt(1)] && tb == map[b := PyFloat(1.0)]
    ensures PyEq(PyDict(map[a := PyDict(fb)]), PyDict(map[a := PyDict(tb)]))
    ensures !MatchFragment(map[a := PyDict(fb)], map[a := PyDict(tb)])
  {
    NestedEqual(fb, tb, b, a);
    var f, t := map[a := PyDict(fb)], map[a := PyDict(tb)];
    assert !KeyMatches(fb, tb, b);
    assert !KeyMatches(f, t, a);
  }

  lemma NestedEqual(fb: map<string, PyValue>, tb: map<string, PyValue>, b: string, a: string)
    requires fb == map[b := PyInt(1)] && tb == map[b := PyFloat(1.0)]
    ensures PyEq(PyDict(map[a := PyDict(fb)]), PyDict(map[a := PyDict(tb)]))
  {
    assert PyEq(fb[b], tb[b]);
    assert PyEq(PyDict(fb), PyDict(tb));
  }

  /**
   * A property-type criterion written as a plain string never matches,
   * because the dumped type is a `ResourcePropertyType` member.
   */
  lemma StringPropertyTypeNeverMatches(r: Resource, key: string, t: string)
    requires key in r.properties
    ensures !MatchFragment(map["properties" := PyDict(map[key := PyDict(map["type" := PyStr(t)])])], Dump(r))
  {
    var f := map["properties" := PyDict(map[key := PyDict(map["type" := PyStr(t)])])];
    var d := Dump(r);
    var props := d["properties"].entries;
    assert key in props;
    var inner := map[key := PyDict(map["type" := PyStr(t)])];
    assert props[key] == PyDict(DumpProperty(r.properties[key]));
    assert !KeyMatches(map["type" := PyStr(t)], props[key].entries, "type");
    assert !KeyMatches(inner, props, key);
    assert !KeyMatches(f, d, "properties");
  }

  /** `str | list[str]` criteria. */
  datatype StrOrList = One(s: string) | Many(xs: seq<string>)

  /** One element of a `tags` list: a tag, or a list of tags that must all be present. */
  datatype TagItem = Tag(tag: string) | AllOf(tags: seq<string>)

  datatype TagsCriterion = TagString(s: string) | TagItems(items: seq<TagItem>)

  datatype ExecutionTarget = ExecutionTarget(
    categories: Option<StrOrList>,
    tags: Option<TagsCriterion>,
    id: Option<StrOrList>,
    fragment: Option<map<string, PyValue>>)

  predicate StrOrListTruthy(c: Option<StrOrList>)
  {
    c.Some? && (if c.value.One? then c.value.s != "" else |c.value.xs| > 0)
  }

  predicate TagsTruthy(c: Option<TagsCriterion>)
  {
    c.Some? && (if c.value.TagString? then c.value.s != "" else |c.value.items| > 0)
  }

  predicate FragmentTruthy(f: Option<map<string, PyValue>>)
  {
    f.Some? && |f.value| > 0
  }

  predicate TagItemPresent(item: TagItem, tags: seq<string>)
  {
    match item
    case Tag(t) => t in tags
    case AllOf(ts) => forall j | 0 <= j < |ts| :: ts[j] in tags
  }

  /** `ExecutionTarget.matches(target, match_none)`, with the source's early returns. */
  function Matches(t: ExecutionTarget, r: Resource, matchNone: bool): bool
  {
    if StrOrListTruthy(t.categories) && r.metadata.category.None? && !matchNone then false
    else if StrOrListTruthy(t.categories) && r.metadata.category.Some? && t.categories.value.One?
      && t.categories.value.s != r.metadata.category.value then false
    else if StrOrListTruthy(t.categories) && r.metadata.category.Some? && t.categories.value.Many?
      && !(exists i | 0 <= i < |t.categories.value.xs| :: t.categories.value.xs[i] == r.metadata.category.value) then false
    else if TagsTruthy(t.tags) && t.tags.value.TagString? && t.tags.value.s !in r.metadata.tags then false
    else if TagsTruthy(t.tags) && t.tags.value.TagItems?
      && !(exists i | 0 <= i < |t.tags.value.items| :: TagItemPresent(t.tags.value.items[i], r.metadata.tags)) then false
    else if StrOrListTruthy(t.id) && t.id.value.One? && t.id.value.s != r.id then false
    else if StrOrListTruthy(t.id) && t.id.value.Many? && r.id !in t.id.value.xs then false
    else if FragmentTruthy(t.fragment) && !MatchFragment(t.fragment.value, Dump(r)) then false
    else true
  }

  /** The category criterion on its own. */
  predicate CategoryAccepts(c: StrOrList, category: Option<string>, matchNone: bool)
  {
    match category
    case None => matchNone
    case Some(cat) => if c.One? then c.s == cat else cat in c.xs
  }

  /** The tags criterion on its own. */
  predicate TagsAccept(c: TagsCriterion, tags: seq<string>)
  {
    match c
    case TagString(s) => s in tags
    case TagItems(items) => exists i | 0 <= i < |items| :: TagItemPresent(items[i], tags)
  }

  /** The id criterion on its own. */
  predicate IdAccepts(c: StrOrList, id: string)
  {
    if c.One? then c.s == id else id in c.xs
  }

  /** A resource matches iff every set (truthy) criterion accepts it. */
  lemma MatchesIff(t: ExecutionTarget, r: Resource, matchNone: bool)
    ensures Matches(t, r, matchNone) <==>
      && (StrOrListTruthy(t.categories) ==> CategoryAccepts(t.categories.value, r.metadata.category, matchNone))
      && (TagsTruthy(t.tags) ==> TagsAccept(t.tags.value, r.metadata.tags))
      && (StrOrListTruthy(t.id) ==> IdAccepts(t.id.value, r.id))
      && (FragmentTruthy(t.fragment) ==> MatchFragment(t.fragment.value, Dump(r)))
  {
  }

  /** A target with no criteria matches every resource. */
  lemma EmptyTargetMatchesAll(r: Resource, matchNone: bool)
    ensures Matches(ExecutionTarget(None, None, None, None), r, matchNone)
    ensures Matches(ExecutionTarget(Some(One("")), Some(TagItems([])), Some(Many([])), Some(map[])), r, matchNone)
  {
  }

  /** A category criterion rejects a resource without category unless `match_none` is set. */
  lemma NoCategory(c: StrOrList, r: Resource, matchNone: bool)
    requires StrOrListTruthy(Some(c)) && r.metadata.category.None?
    ensures Matches(ExecutionTarget(Some(c), None, None, None), r, matchNone) == matchNone
  {
  }

  /** An empty inner list inside a `tags` list is satisfied by any resource. */
  lemma EmptyTagGroupAcceptsAll(r: Resource, rest: seq<TagItem>)
    ensures Matches(ExecutionTarget(None, Some(TagItems([AllOf([])] + rest)), None, None), r, false)
  {
    assert TagItemPresent(([AllOf([])] + rest)[0], r.metadata.tags);
  }

  /** `StringArgument.mode`. */
  datatype StringMode = Normal | Suggesting | Multiline | Password

  function StringArgumentMode(password: bool, multiline: bool, suggestions: Option<seq<string>>): (m: StringMode)
    ensures m == Password <==> password
    ensures m == Multiline <==> !password && multiline
    ensures m == Suggesting <==> !password && !multiline && suggestions.Some? && |suggestions.value| > 0
    ensures m == Normal <==> !password && !multiline && (suggestions.None? || |suggestions.value| == 0)
  {
    if password then Password
    else if multiline then Multiline
    else if suggestions.Some? && |suggestions.value| > 0 then Suggesting
    else Normal
  }
}
