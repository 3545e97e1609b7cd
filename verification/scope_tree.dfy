/**
 * The permission-scope tree (raven_api/common/models/scope.py): dotted
 * lookup, insertion under a dotted path, the computed `path`, and the tree
 * built from a nested spec such as `CORE_SCOPE`.
 */
module ScopeTree {

  import opened Wrappers
  import opened PyValues
  import opened Text

  datatype Scope = Scope(id: string, parent: Option<string>, displayName: Option<string>, children: map<string, Scope>)

  /** Python truthiness of an optional string. */
  predicate Truthy(o: Option<string>)
  {
    o.Some? && o.value != ""
  }

  /** `".".join([prefix, k]) if prefix else k`, the dotted name of `k` below `prefix`. */
  function Dotted(prefix: Option<string>, k: string): (r: string)
    ensures Truthy(prefix) ==> r == prefix.value + "." + k
    ensures !Truthy(prefix) ==> r == k
  {
    if Truthy(prefix) then prefix.value + "." + k else k
  }

  /** The `path` property: the parent path and the id joined by a dot, or the bare id at the top. */
  function Path(s: Scope): (r: string)
    ensures Truthy(s.parent) ==> r == s.parent.value + "." + s.id
    ensures !Truthy(s.parent) ==> r == s.id
  {
    Dotted(s.parent, s.id)
  }

  /**
   * `scope[key]`: an empty or None key is the scope itself; otherwise the
   * first dot-segment names a child and the rest is looked up in it.
   */
  function Get(s: Scope, key: Option<string>): (r: Result<Scope, PyError>)
    ensures r.Err? ==> r.error.KeyError?
    decreases if key.Some? then |key.value| else 0
  {
    if !Truthy(key) then Ok(s)
    else
      var (head, rest) := SplitOnce(key.value, '.');
      if head !in s.children then Err(KeyError(head))
      else Get(s.children[head], rest)
  }

  /**
   * The reference walk: one child per dot-segment, except that a final
   * empty segment (a trailing dot, or the empty key) stays put.
   */
  function Walk(s: Scope, segs: seq<string>): Result<Scope, PyError>
    decreases |segs|
  {
    if |segs| == 0 || (|segs| == 1 && segs[0] == "") then Ok(s)
    else if segs[0] !in s.children then Err(KeyError(segs[0]))
    else Walk(s.children[segs[0]], segs[1..])
  }

  /** Lookup descends the key's dot-segments in order. */
  lemma {:induction false} GetIsWalk(s: Scope, key: string)
    ensures Get(s, Some(key)) == Walk(s, Split(key, '.'))
    decreases |key|
  {
    if '.' in key {
      var (head, rest) := SplitOnce(key, '.');
      SplitFirst(key, '.');
      if head in s.children {
        if rest.value == "" {
          assert Split(rest.value, '.') == [""];
        } else {
          GetIsWalk(s.children[head], rest.value);
        }
      }
    }
  }

  /** `s[None]` and `s[""]` are `s`. */
  lemma GetEmptyKey(s: Scope)
    ensures Get(s, None) == Ok(s) && Get(s, Some("")) == Ok(s)
  {
  }

  /** A dot-free key names a direct child, and is a KeyError when there is none. */
  lemma GetChild(s: Scope, k: string)
    requires k != "" && '.' !in k
    ensures k in s.children ==> Get(s, Some(k)) == Ok(s.children[k])
    ensures k !in s.children ==> Get(s, Some(k)) == Err(KeyError(k))
  {
  }

  /** The recursive part of `add_scope`: the insertion, with the parent already set. */
  function AddAt(s: Scope, path: string, x: Scope): (r: Result<Scope, PyError>)
    ensures r.Ok? ==> r.value.id == s.id && r.value.children.Keys >= s.children.Keys
    ensures r.Err? ==> r.error.KeyError?
    decreases |path|
  {
    if path == "" then Ok(s.(children := s.children[x.id := x]))
    else
      var (key, rem) := SplitOnce(path, '.');
      if rem.Some? then
        if key !in s.children then Err(KeyError(key))
        else match AddAt(s.children[key], rem.value, x)
          case Err(e) => Err(e)
          case Ok(c) => Ok(s.(children := s.children[key := c]))
      else
        if path !in s.children then Err(KeyError(path))
        else match AddAt(s.children[path], "", x)
          case Err(e) => Err(e)
          case Ok(c) => Ok(s.(children := s.children[path := c]))
  }

  /** `s.add_scope(path, x)`: `x.parent` becomes `path`, then `x` is inserted below it. */
  function AddScope(s: Scope, path: string, x: Scope): Result<Scope, PyError>
  {
    AddAt(s, path, x.(parent := Some(path)))
  }

  /** Adding at the root puts `x` among the children, with `path == id`; other children stay. */
  lemma AddAtRoot(s: Scope, x: Scope)
    ensures AddScope(s, "", x).Ok?
    ensures var r := AddScope(s, "", x).value;
      && x.id in r.children
      && r.children[x.id] == x.(parent := Some(""))
      && Path(r.children[x.id]) == x.id
      && forall k | k in s.children && k != x.id :: k in r.children && r.children[k] == s.children[k]
  {
  }

  /** The dotted name under which an insertion at `path` can be looked up. */
  function Target(path: string, id: string): string
  {
    if path == "" then id else path + "." + id
  }

  /** Looking up `head.rest` is looking up `rest` in the child `head`. */
  lemma GetStep(s: Scope, head: string, rest: string)
    requires '.' !in head
    ensures head in s.children ==> Get(s, Some(head + "." + rest)) == Get(s.children[head], Some(rest))
    ensures head !in s.children ==> Get(s, Some(head + "." + rest)) == Err(KeyError(head))
  {
    SplitOnceAt(head, '.', rest);
  }

  /**
   * Insertion finds its place when the lookup of `path` does, and
   * afterwards the scope is found at `path + "." + id`.
   */
  lemma {:induction false} AddThenGet(s: Scope, path: string, x: Scope)
    requires x.id != "" && '.' !in x.id
    requires path == "" || path[|path| - 1] != '.'
    requires Get(s, Some(path)).Ok?
    ensures AddAt(s, path, x).Ok?
    ensures Get(AddAt(s, path, x).value, Some(Target(path, x.id))) == Ok(x)
    decreases |path|
  {
    if path == "" {
      GetChild(AddAt(s, path, x).value, x.id);
    } else if '.' in path {
      AddThenGetNested(s, path, x);
    } else {
      var c := s.children[path];
      var c' := c.(children := c.children[x.id := x]);
      assert AddAt(s, path, x) == Ok(s.(children := s.children[path := c']));
      GetStep(AddAt(s, path, x).value, path, x.id);
      GetChild(c', x.id);
    }
  }

  /** Inserting at `head.rest` is inserting at `rest` in the child `head`. */
  lemma AddStep(s: Scope, head: string, rest: string, x: Scope)
    requires '.' !in head && head in s.children
    requires AddAt(s.children[head], rest, x).Ok?
    ensures AddAt(s, head + "." + rest, x) == Ok(s.(children := s.children[head := AddAt(s.children[head], rest, x).value]))
  {
    SplitOnceAt(head, '.', rest);
  }

  /** The dotted case of `AddThenGet`: descend into the first segment. */
  lemma {:induction false} AddThenGetNested(s: Scope, path: string, x: Scope)
    requires x.id != "" && '.' !in x.id
    requires '.' in path && path[|path| - 1] != '.'
    requires Get(s, Some(path)).Ok?
    ensures AddAt(s, path, x).Ok?
    ensures Get(AddAt(s, path, x).value, Some(path + "." + x.id)) == Ok(x)
    decreases |path|, 0
  {
    var (key, rem) := SplitOnce(path, '.');
    var t := rem.value;
    DottedParts(path, x.id);
    GetStep(s, key, t);
    var child := s.children[key];
    AddThenGet(child, t, x);
    var c := AddAt(child, t, x).value;
    var s' := s.(children := s.children[key := c]);
    AddStep(s, key, t, x);
    assert path + "." + x.id == key + "." + (t + "." + x.id);
    GetStep(s', key, t + "." + x.id);
  }

  /** A dotted path without a trailing dot splits into a head and a non-empty rest, and appending an id extends the rest. */
  lemma DottedParts(path: string, id: string)
    requires '.' in path && path[|path| - 1] != '.'
    ensures var (key, rem) := SplitOnce(path, '.');
      && rem.Some? && path == key + "." + rem.value
      && rem.value != "" && rem.value[|rem.value| - 1] != '.'
      && path + "." + id == key + "." + (rem.value + "." + id)
  {
    var (key, rem) := SplitOnce(path, '.');
    var t := rem.value;
    assert path == key + "." + t;
    assert t != "" && t[|t| - 1] == path[|path| - 1];
    assert path + "." + id == key + "." + (t + "." + id);
  }

  /** `add_scope(p, x)` at an existing path: the scope is reachable as `p.id` and its `path` says so. */
  lemma AddScopeThenGet(s: Scope, path: string, x: Scope)
    requires x.id != "" && '.' !in x.id
    requires path == "" || path[|path| - 1] != '.'
    requires Get(s, Some(path)).Ok?
    ensures AddScope(s, path, x).Ok?
    ensures var x' := x.(parent := Some(path));
      && Get(AddScope(s, path, x).value, Some(Target(path, x.id))) == Ok(x')
      && Path(x') == Target(path, x.id)
  {
    AddThenGet(s, path, x.(parent := Some(path)));
  }

  /** A missing first segment makes `add_scope` raise a KeyError naming it. */
  lemma AddMissingParent(s: Scope, key: string, x: Scope)
    requires key != "" && '.' !in key && key !in s.children
    ensures AddScope(s, key, x) == Err(KeyError(key))
  {
  }

  /** A `MinimalScope` spec node; an absent `"children"` is the empty dict. */
  datatype SpecNode = SpecNode(displayName: Option<string>, children: map<string, SpecNode>)

  /** `Scope.from_spec(node.children, path)`: a `"root"` scope whose children mirror the spec. */
  function Build(node: SpecNode, path: Option<string>): (r: Scope)
    ensures r.id == "root" && r.parent.None? && r.displayName.None?
    ensures r.children.Keys == node.children.Keys
    decreases node
  {
    Scope("root", None, None,
      map k | k in node.children ::
        Build(node.children[k], Some(Dotted(path, k))).(id := k, parent := path, displayName := node.children[k].displayName))
  }

  function FromSpec(spec: map<string, SpecNode>, path: Option<string>): Scope
  {
    Build(SpecNode(None, spec), path)
  }

  /**
   * `s` mirrors the spec below `prefix`: the same keys at every level, each
   * node's id its key, its display name from the spec, and its `path` the
   * dotted key path from the top.
   */
  predicate Mirrors(s: Scope, node: SpecNode, prefix: Option<string>)
    decreases node
  {
    && s.children.Keys == node.children.Keys
    && forall k | k in node.children ::
      && s.children[k].id == k
      && s.children[k].displayName == node.children[k].displayName
      && Path(s.children[k]) == Dotted(prefix, k)
      && Mirrors(s.children[k], node.children[k], Some(Dotted(prefix, k)))
  }

  lemma {:induction false} BuildMirrors(node: SpecNode, prefix: Option<string>)
    ensures Mirrors(Build(node, prefix), node, prefix)
    decreases node
  {
    var s := Build(node, prefix);
    forall k | k in node.children
      ensures Mirrors(s.children[k], node.children[k], Some(Dotted(prefix, k)))
    {
      BuildMirrors(node.children[k], Some(Dotted(prefix, k)));
      var c := Build(node.children[k], Some(Dotted(prefix, k)));
      assert s.children[k] == c.(id := k, parent := prefix, displayName := node.children[k].displayName);
    }
  }

  /** `from_spec` at the top: every node's `path` is its dotted key path. */
  lemma FromSpecMirrors(spec: map<string, SpecNode>)
    ensures Mirrors(FromSpec(spec, None), SpecNode(None, spec), None)
  {
    BuildMirrors(SpecNode(None, spec), None);
  }

  /** The keys walk down the spec tree from `node`. */
  predicate InSpec(node: SpecNode, keys: seq<string>)
    decreases |keys|
  {
    |keys| == 0 || (keys[0] in node.children && InSpec(node.children[keys[0]], keys[1..]))
  }

  /** Following keys that are in the spec reaches a node with the last key as id and the dotted path. */
  lemma {:induction false} WalkMirror(s: Scope, node: SpecNode, prefix: Option<string>, keys: seq<string>)
    requires Mirrors(s, node, prefix) && |keys| > 0 && InSpec(node, keys)
    requires forall i | 0 <= i < |keys| :: keys[i] != "" && '.' !in keys[i]
    ensures Walk(s, keys).Ok?
    ensures Walk(s, keys).value.id == keys[|keys| - 1]
    ensures Path(Walk(s, keys).value) == Dotted(prefix, Join(keys, '.'))
    decreases |keys|
  {
    var k := keys[0];
    if |keys| > 1 {
      WalkMirror(s.children[k], node.children[k], Some(Dotted(prefix, k)), keys[1..]);
      assert Join(keys, '.') == k + "." + Join(keys[1..], '.');
      JoinNonEmpty(keys[1..]);
    }
  }

  lemma {:induction false} JoinNonEmpty(keys: seq<string>)
    requires |keys| > 0 && keys[0] != ""
    ensures Join(keys, '.') != ""
  {
    if |keys| > 1 {
      assert Join(keys, '.') == keys[0] + ['.'] + Join(keys[1..], '.');
    }
  }

  /** A dotted name whose segments lie in the spec resolves in `from_spec(spec)` to the right node. */
  lemma ResolveInSpec(spec: map<string, SpecNode>, keys: seq<string>)
    requires |keys| > 0 && InSpec(SpecNode(None, spec), keys)
    requires forall i | 0 <= i < |keys| :: keys[i] != "" && '.' !in keys[i]
    ensures var r := Get(FromSpec(spec, None), Some(Join(keys, '.')));
      r.Ok? && r.value.id == keys[|keys| - 1] && Path(r.value) == Join(keys, '.')
  {
    FromSpecMirrors(spec);
    SplitJoin(keys, '.');
    GetIsWalk(FromSpec(spec, None), Join(keys, '.'));
    WalkMirror(FromSpec(spec, None), SpecNode(None, spec), None, keys);
  }

  function Leaf(name: string): SpecNode
  {
    SpecNode(Some(name), map[])
  }

  /** The built-in scope spec. */
  const CoreScope: map<string, SpecNode> := map[
    "admin" := SpecNode(Some("Administration"), map[
      "users" := SpecNode(Some("User Management"), map[
        "view" := SpecNode(Some("View"), map["basic" := Leaf("Basic"), "groups" := Leaf("Groups"), "scopes" := Leaf("Scopes")]),
        "manage" := SpecNode(Some("Manage"), map[
          "create" := Leaf("Create"),
          "delete" := Leaf("Delete"),
          "edit" := SpecNode(Some("Edit"), map["basic" := Leaf("Basic"), "groups" := Leaf("Groups"), "scopes" := Leaf("Scopes")])])]),
      "groups" := SpecNode(Some("Group Management"), map[
        "view" := SpecNode(Some("View"), map["basic" := Leaf("Basic"), "scopes" := Leaf("Scopes")]),
        "manage" := SpecNode(Some("Manage"), map[
          "create" := Leaf("Create"),
          "delete" := Leaf("Delete"),
          "edit" := SpecNode(Some("Edit"), map["basic" := Leaf("Basic"), "scopes" := Leaf("Scopes")])])])]),
    "resources" := SpecNode(Some("Resources"), map[
      "all" := SpecNode(Some("All Resources"), map["view" := Leaf("View"), "execute" := Leaf("Execute")]),
      "plugin" := Leaf("Plugin-Specific")]),
    "pipelines" := SpecNode(Some("Pipelines"), map["view" := Leaf("View"), "manage" := Leaf("Manage")])]

  /** The scopes every new user receives, as segment lists. */
  const DefaultScopes: seq<seq<string>> := [
    ["admin", "users", "view", "basic"],
    ["admin", "users", "view", "groups"],
    ["admin", "groups", "view", "basic"],
    ["resources", "all", "view"],
    ["pipelines", "view"]]

  /** Every default scope resolves in the tree built from the core spec. */
  lemma DefaultScopesResolve()
    ensures forall i | 0 <= i < |DefaultScopes| ::
      var r := Get(FromSpec(CoreScope, None), Some(Join(DefaultScopes[i], '.')));
      r.Ok? && Path(r.value) == Join(DefaultScopes[i], '.')
  {
    forall i | 0 <= i < |DefaultScopes|
      ensures var r := Get(FromSpec(CoreScope, None), Some(Join(DefaultScopes[i], '.')));
        r.Ok? && Path(r.value) == Join(DefaultScopes[i], '.')
    {
      var keys := DefaultScopes[i];
      DefaultScopesInSpec();
      DefaultSegmentsPlain();
      assert forall j | 0 <= j < |keys| :: keys[j] != "" && '.' !in keys[j];
      ResolveInSpec(CoreScope, keys);
    }
  }

  /** Each default scope names a path of the core spec. */
  lemma DefaultScopesInSpec()
    ensures forall i | 0 <= i < |DefaultScopes| :: InSpec(SpecNode(None, CoreScope), DefaultScopes[i])
  {
    UserScopesInSpec();
    OtherScopesInSpec();
  }

  lemma UserScopesInSpec()
    ensures InSpec(SpecNode(None, CoreScope), ["admin", "users", "view", "basic"])
    ensures InSpec(SpecNode(None, CoreScope), ["admin", "users", "view", "groups"])
  {
    var users := CoreScope["admin"].children["users"];
    assert InSpec(users.children["view"], ["basic"]);
    assert InSpec(users.children["view"], ["groups"]);
  }

  lemma OtherScopesInSpec()
    ensures InSpec(SpecNode(None, CoreScope), ["admin", "groups", "view", "basic"])
    ensures InSpec(SpecNode(None, CoreScope), ["resources", "all", "view"])
    ensures InSpec(SpecNode(None, CoreScope), ["pipelines", "view"])
  {
    assert InSpec(CoreScope["admin"].children["groups"].children["view"], ["basic"]);
  }

  /** The default scopes' segments are non-empty and hold no dot. */
  lemma DefaultSegmentsPlain()
    ensures forall i, j | 0 <= i < |DefaultScopes| && 0 <= j < |DefaultScopes[i]| ::
      DefaultScopes[i][j] != "" && '.' !in DefaultScopes[i][j]
  {
  }
}
