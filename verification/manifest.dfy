/**
 * Plugin export resolution (raven_api/common/plugin/models/manifest.py):
 * `BaseExport.resolve` walks a dotted import path through a module tree
 * and returns the named member. Modules are modelled as attribute maps.
 */
module Manifest {

  import opened Wrappers
  import opened PyValues
  import opened Text

  /** An attribute value: a module with its attributes, or any other object. */
  datatype PyObj = Module(members: map<string, PyObj>) | Other(tag: string)

  datatype BaseExport = BaseExport(exportType: string, importPath: Option<string>, member: string)

  function UnknownSubmodule(item: string): PyError
  {
    ImportError("Plugin export references unknown submodule: " + item)
  }

  function NonModuleMember(item: string): PyError
  {
    ImportError("Plugin export contains non-module member: " + item)
  }

  function UnknownMember(importPath: Option<string>, member: string): PyError
  {
    ImportError("Plugin has unknown exported member: "
      + (if importPath.Some? && importPath.value != "" then importPath.value else ".") + ":" + member)
  }

  /** The loop over the path segments: each must be an attribute that is a module. */
  function Descend(current: map<string, PyObj>, segs: seq<string>): (r: Result<map<string, PyObj>, PyError>)
    ensures r.Err? ==> exists i | 0 <= i < |segs| :: r.error == UnknownSubmodule(segs[i]) || r.error == NonModuleMember(segs[i])
    decreases |segs|
  {
    if |segs| == 0 then Ok(current)
    else if segs[0] !in current then Err(UnknownSubmodule(segs[0]))
    else if !current[segs[0]].Module? then Err(NonModuleMember(segs[0]))
    else
      var r := Descend(current[segs[0]].members, segs[1..]);
      assert r.Err? ==> exists i | 1 <= i < |segs| :: r.error == UnknownSubmodule(segs[i]) || r.error == NonModuleMember(segs[i]);
      r
  }

  /** The path segments walked: none for a None, empty or all-dots path. */
  function Segments(importPath: Option<string>): seq<string>
  {
    if importPath.Some? && importPath.value != "" && |Strip(importPath.value, '.')| > 0 then Split(Strip(importPath.value, '.'), '.')
    else []
  }

  /** `export.resolve(base)`. */
  function Resolve(e: BaseExport, base: map<string, PyObj>): (r: Result<PyObj, PyError>)
    ensures r.Err? ==> r.error.ImportError?
  {
    match Descend(base, Segments(e.importPath))
    case Err(err) => Err(err)
    case Ok(m) => if e.member in m then Ok(m[e.member]) else Err(UnknownMember(e.importPath, e.member))
  }

  /** Without a path (None, empty or only dots) the member is looked up on the base module. */
  lemma ResolveWithoutPath(e: BaseExport, base: map<string, PyObj>)
    requires e.importPath.None? || Strip(e.importPath.value, '.') == ""
    ensures e.member in base ==> Resolve(e, base) == Ok(base[e.member])
    ensures e.member !in base ==> Resolve(e, base) == Err(UnknownMember(e.importPath, e.member))
  {
  }

  /** Outer dots are ignored: the walked segments are those of the stripped path. */
  lemma SegmentsOfStripped(p: string)
    requires Strip(p, '.') != ""
    ensures Segments(Some(p)) == Split(Strip(p, '.'), '.')
    ensures |Segments(Some(p))| >= 1
  {
  }

  /** Resolving `a.rest` is resolving `rest` inside the submodule `a`; a missing or non-module `a` fails on `a`. */
  lemma ResolveStep(base: map<string, PyObj>, a: string, rest: seq<string>, member: string)
    ensures var r := Descend(base, [a] + rest);
      && (a !in base ==> r == Err(UnknownSubmodule(a)))
      && (a in base && !base[a].Module? ==> r == Err(NonModuleMember(a)))
      && (a in base && base[a].Module? ==> r == Descend(base[a].members, rest))
  {
    assert ([a] + rest)[1..] == rest;
  }

  /** Walking a concatenation of paths is walking one after the other. */
  lemma {:induction false} DescendAppend(m: map<string, PyObj>, a: seq<string>, b: seq<string>)
    ensures Descend(m, a + b) == match Descend(m, a) case Err(e) => Err(e) case Ok(m') => Descend(m', b)
    decreases |a|
  {
    if |a| == 0 {
      assert a + b == b;
    } else {
      assert (a + b)[0] == a[0] && (a + b)[1..] == a[1..] + b;
      if a[0] in m && m[a[0]].Module? {
        DescendAppend(m[a[0]].members, a[1..], b);
      }
    }
  }

  /** A path leading through modules to a present member returns that member. */
  lemma ResolveFound(e: BaseExport, base: map<string, PyObj>, sub: map<string, PyObj>)
    requires e.importPath.Some? && Strip(e.importPath.value, '.') != ""
    requires Descend(base, Split(Strip(e.importPath.value, '.'), '.')) == Ok(sub)
    requires e.member in sub
    ensures Resolve(e, base) == Ok(sub[e.member])
  {
  }

  /** Dots around a path are stripped before it is split. */
  lemma OuterDotsIgnored(p: string)
    requires p != "" && p[0] != '.' && p[|p| - 1] != '.'
    ensures Strip("." + p + ".", '.') == p
    ensures Strip(p, '.') == p
  {
    var q := p + ".";
    assert ("." + p + ".")[1..] == q;
    assert StripLeft(q, '.') == q;
    assert q[..|q| - 1] == p;
    assert StripLeft(p, '.') == p;
  }

  /** `.a.b.` resolves as `a.b` does; only the text of an unknown-member error still shows the dots. */
  lemma ResolveOuterDots(e: BaseExport, base: map<string, PyObj>, p: string)
    requires p != "" && p[0] != '.' && p[|p| - 1] != '.'
    requires e.importPath == Some("." + p + ".")
    ensures Resolve(e, base).Ok? <==> Resolve(e.(importPath := Some(p)), base).Ok?
    ensures Resolve(e, base).Ok? ==> Resolve(e, base) == Resolve(e.(importPath := Some(p)), base)
    ensures Segments(e.importPath) == Segments(Some(p))
  {
    SegmentsOuterDots(p);
    var segs := Segments(Some(p));
    var e' := e.(importPath := Some(p));
    assert Resolve(e, base).Ok? <==> Descend(base, segs).Ok? && e.member in Descend(base, segs).value;
    assert Resolve(e', base).Ok? <==> Descend(base, segs).Ok? && e.member in Descend(base, segs).value;
  }

  /** The segments of `.p.` are those of `p`. */
  lemma SegmentsOuterDots(p: string)
    requires p != "" && p[0] != '.' && p[|p| - 1] != '.'
    ensures Segments(Some("." + p + ".")) == Segments(Some(p)) == Split(p, '.')
  {
    OuterDotsIgnored(p);
    SegmentsOfStripped("." + p + ".");
    SegmentsOfStripped(p);
  }
}
