/**
 * String helpers with the meaning the source's string operations have:
 * Python's `str.split(".")`, `str.strip(".")`, JavaScript's
 * `includes` and an ASCII `toLowerCase`.
 */
module Text {

  import opened Wrappers

  /** Index of the first occurrence of `c` in `s`. */
  function IndexOf(s: string, c: char): (i: nat)
    requires c in s
    ensures i < |s| && s[i] == c && c !in s[..i]
  {
    if s[0] == c then 0 else 1 + IndexOf(s[1..], c)
  }

  /** Python's `s.split(sep)` for a one-character separator. */
  function Split(s: string, sep: char): (parts: seq<string>)
    ensures |parts| >= 1
    ensures forall i | 0 <= i < |parts| :: sep !in parts[i]
    ensures sep !in s ==> parts == [s]
    decreases |s|
  {
    if sep !in s then [s]
    else
      var i := IndexOf(s, sep);
      [s[..i]] + Split(s[i + 1..], sep)
  }

  /** Python's `sep.join(parts)`. */
  function Join(parts: seq<string>, sep: char): string
  {
    if |parts| == 0 then ""
    else if |parts| == 1 then parts[0]
    else parts[0] + [sep] + Join(parts[1..], sep)
  }

  /** Joining the pieces of a split restores the original string. */
  lemma {:induction false} JoinSplit(s: string, sep: char)
    ensures Join(Split(s, sep), sep) == s
    decreases |s|
  {
    if sep in s {
      var i := IndexOf(s, sep);
      JoinSplit(s[i + 1..], sep);
      assert s == s[..i] + [sep] + s[i + 1..];
    }
  }

  /** Splitting a join of separator-free pieces gives the pieces back. */
  lemma {:induction false} SplitJoin(parts: seq<string>, sep: char)
    requires |parts| >= 1
    requires forall i | 0 <= i < |parts| :: sep !in parts[i]
    ensures Split(Join(parts, sep), sep) == parts
    decreases |parts|
  {
    if |parts| > 1 {
      var rest := Join(parts[1..], sep);
      var s := parts[0] + [sep] + rest;
      assert s[|parts[0]|] == sep;
      assert IndexOf(s, sep) == |parts[0]| by {
        PrefixIndex(parts[0], sep, [sep] + rest);
      }
      assert s[..|parts[0]|] == parts[0];
      assert s[|parts[0]| + 1..] == rest;
      SplitJoin(parts[1..], sep);
    }
  }

  lemma {:induction false} PrefixIndex(a: string, c: char, b: string)
    requires c !in a && |b| > 0 && b[0] == c
    ensures c in a + b && IndexOf(a + b, c) == |a|
    decreases |a|
  {
    assert (a + b)[|a|] == c;
    if |a| > 0 {
      assert (a + b)[1..] == a[1..] + b;
      PrefixIndex(a[1..], c, b);
    }
  }

  /** Python's `s.split(sep, maxsplit=1)`: the head and, when `sep` occurs, the rest. */
  function SplitOnce(s: string, sep: char): (r: (string, Option<string>))
    ensures sep !in r.0
    ensures r.1.None? <==> sep !in s
    ensures r.1.Some? ==> s == r.0 + [sep] + r.1.value
    ensures r.1.None? ==> r.0 == s
  {
    if sep !in s then (s, None)
    else
      var i := IndexOf(s, sep);
      assert s == s[..i] + [sep] + s[i + 1..];
      (s[..i], Some(s[i + 1..]))
  }

  /** Splitting `a + sep + b` once, with `sep` not in `a`, gives `a` and `b`. */
  lemma SplitOnceAt(a: string, sep: char, b: string)
    requires sep !in a
    ensures SplitOnce(a + [sep] + b, sep) == (a, Some(b))
  {
    var s := a + [sep] + b;
    PrefixIndex(a, sep, [sep] + b);
    assert s == a + ([sep] + b);
    assert s[..|a|] == a && s[|a| + 1..] == b;
  }

  /** `Split` takes off the same head as `SplitOnce`. */
  lemma SplitFirst(s: string, sep: char)
    requires sep in s
    ensures Split(s, sep) == [SplitOnce(s, sep).0] + Split(SplitOnce(s, sep).1.value, sep)
  {
  }

  /** Python's `s.lstrip(c)`. */
  function StripLeft(s: string, c: char): (r: string)
    ensures |r| <= |s| && r == s[|s| - |r|..]
    ensures forall k | 0 <= k < |s| - |r| :: s[k] == c
    ensures |r| > 0 ==> r[0] != c
  {
    if |s| > 0 && s[0] == c then StripLeft(s[1..], c) else s
  }

  /** Python's `s.rstrip(c)`. */
  function StripRight(s: string, c: char): (r: string)
    ensures |r| <= |s| && r == s[..|r|]
    ensures forall k | |r| <= k < |s| :: s[k] == c
    ensures |r| > 0 ==> r[|r| - 1] != c
  {
    if |s| > 0 && s[|s| - 1] == c then StripRight(s[..|s| - 1], c) else s
  }

  /** Python's `s.strip(c)`: `c` removed from both ends. */
  function Strip(s: string, c: char): (r: string)
  {
    StripRight(StripLeft(s, c), c)
  }

  /** Stripping keeps a middle slice of `s` whose ends are not `c`. */
  lemma StripShape(s: string, c: char)
    ensures var r := Strip(s, c);
      |r| > 0 ==> r[0] != c && r[|r| - 1] != c
    ensures Strip(s, c) == "" <==> forall k | 0 <= k < |s| :: s[k] == c
  {
    var l := StripLeft(s, c);
    var r := StripRight(l, c);
    if |r| > 0 {
      assert r[0] == l[0];
    }
  }

  /** JavaScript's `hay.includes(needle)`. */
  predicate Contains(hay: string, needle: string)
  {
    exists i | 0 <= i <= |hay| :: OccursAt(hay, needle, i)
  }

  /** `needle` occurs in `hay` starting at index `i`. */
  predicate OccursAt(hay: string, needle: string, i: nat)
  {
    i + |needle| <= |hay| && hay[i..i + |needle|] == needle
  }

  /** ASCII lower case of one character. */
  function LowerChar(c: char): (d: char)
    ensures 'A' <= c <= 'Z' ==> 'a' <= d <= 'z'
    ensures !('A' <= c <= 'Z') ==> d == c
  {
    if 'A' <= c <= 'Z' then (c as int + 32) as char else c
  }

  /** `s.toLowerCase()`, restricted to ASCII letters. */
  function Lower(s: string): (r: string)
    ensures |r| == |s|
    ensures forall i | 0 <= i < |s| :: r[i] == LowerChar(s[i])
  {
    seq(|s|, i requires 0 <= i < |s| => LowerChar(s[i]))
  }

  /**
   * The search rule shared by the resource list, the property list, the
   * executor list and the icon picker: either string contains the other,
   * ignoring case.
   */
  predicate SearchMatch(name: string, search: string)
  {
    Contains(Lower(name), Lower(search)) || Contains(Lower(search), Lower(name))
  }
}
