/**
 * The dotted-path wildcard matcher `glob_match` (test.py). The events
 * controller uses it to pick, among a session's subscription paths, the
 * ones an event path selects: `glob_match(event.path, subscriptions)`.
 */
module Glob {

  import opened Text

  /** Position `i` of the entry's segments is accepted by the pattern segments `cp`. */
  predicate SegmentOk(cp: seq<string>, parts: seq<string>, i: nat)
    requires |cp| >= 1 && i < |parts|
  {
    if i < |cp| then cp[i] == parts[i] || cp[i] == "*"
    else cp[|cp| - 1] == "*"
  }

  /** Every segment of the entry is accepted. */
  predicate SegmentsMatch(cp: seq<string>, parts: seq<string>)
    requires |cp| >= 1
  {
    forall i | 0 <= i < |parts| :: SegmentOk(cp, parts, i)
  }

  /** The entry `entry` is selected by the pattern `check`. */
  predicate EntryMatches(check: string, entry: string)
  {
    SegmentsMatch(Split(check, '.'), Split(entry, '.'))
  }

  /** Reference definition: the entries of `ms` selected by `check`, in order. */
  function Selected(check: string, ms: seq<string>): seq<string>
  {
    if |ms| == 0 then []
    else Selected(check, ms[..|ms| - 1]) + (if EntryMatches(check, ms[|ms| - 1]) then [ms[|ms| - 1]] else [])
  }

  /** `glob_match(check, matches)`, written as the source's two nested loops. */
  method GlobMatch(check: string, matches: seq<string>) returns (results: seq<string>)
    ensures results == Selected(check, matches)
  {
    var checkParts := Split(check, '.');
    results := [];
    var k := 0;
    while k < |matches|
      invariant 0 <= k <= |matches|
      invariant results == Selected(check, matches[..k])
    {
      var parts := Split(matches[k], '.');
      var isCandidate := true;
      var i := 0;
      while i < |parts|
        invariant 0 <= i <= |parts|
        invariant isCandidate
        invariant forall j | 0 <= j < i :: SegmentOk(checkParts, parts, j)
      {
        if i >= |checkParts| {
          if checkParts[|checkParts| - 1] != "*" {
            isCandidate := false;
            break;
          }
        } else {
          if checkParts[i] == parts[i] || checkParts[i] == "*" {
          } else {
            isCandidate := false;
            break;
          }
        }
        i := i + 1;
      }
      assert isCandidate <==> SegmentsMatch(checkParts, parts) by {
        if !isCandidate {
          assert !SegmentOk(checkParts, parts, i);
        }
      }
      if isCandidate {
        results := results + [matches[k]];
      }
      assert matches[..k + 1][..k] == matches[..k];
      k := k + 1;
    }
    assert matches[..k] == matches;
  }

  /** Membership: an entry is in the result iff it is in the input and is selected. */
  lemma {:induction false} SelectedMembers(check: string, ms: seq<string>, x: string)
    ensures x in Selected(check, ms) <==> x in ms && EntryMatches(check, x)
    decreases |ms|
  {
    if |ms| > 0 {
      SelectedMembers(check, ms[..|ms| - 1], x);
      assert ms == ms[..|ms| - 1] + [ms[|ms| - 1]];
    }
  }

  /** Selection distributes over concatenation, so the input order is kept and nothing is added. */
  lemma {:induction false} SelectedAppend(check: string, a: seq<string>, b: seq<string>)
    ensures Selected(check, a + b) == Selected(check, a) + Selected(check, b)
    decreases |b|
  {
    if |b| == 0 {
      assert a + b == a;
    } else {
      var b' := b[..|b| - 1];
      assert (a + b)[..|a + b| - 1] == a + b';
      SelectedAppend(check, a, b');
    }
  }

  /** The result is never longer than the input. */
  lemma {:induction false} SelectedShorter(check: string, ms: seq<string>)
    ensures |Selected(check, ms)| <= |ms|
    decreases |ms|
  {
    if |ms| > 0 {
      SelectedShorter(check, ms[..|ms| - 1]);
    }
  }

  /** When every entry is selected the result is the whole input. */
  lemma {:induction false} SelectedAll(check: string, ms: seq<string>)
    requires forall i | 0 <= i < |ms| :: EntryMatches(check, ms[i])
    ensures Selected(check, ms) == ms
    decreases |ms|
  {
    if |ms| > 0 {
      SelectedAll(check, ms[..|ms| - 1]);
      assert ms[..|ms| - 1] + [ms[|ms| - 1]] == ms;
    }
  }

  /** The pattern `"*"` selects every entry. */
  lemma StarSelectsAll(ms: seq<string>)
    ensures Selected("*", ms) == ms
  {
    assert Split("*", '.') == ["*"];
    SelectedAll("*", ms);
  }

  /** An entry equal to the pattern is always selected. */
  lemma SelfMatch(check: string)
    ensures EntryMatches(check, check)
  {
  }

  /**
   * Without a `*` segment, an entry is selected iff its segments are a
   * prefix of the pattern's segments, so `"a"` is selected by `"a.b"`.
   */
  lemma NoStarIsPrefix(check: string, entry: string)
    requires forall i | 0 <= i < |Split(check, '.')| :: Split(check, '.')[i] != "*"
    ensures EntryMatches(check, entry) <==>
      |Split(entry, '.')| <= |Split(check, '.')| && Split(entry, '.') == Split(check, '.')[..|Split(entry, '.')|]
  {
    var cp, parts := Split(check, '.'), Split(entry, '.');
    if EntryMatches(check, entry) {
      assert |cp| < |parts| ==> !SegmentOk(cp, parts, |cp|);
      forall i | 0 <= i < |parts|
        ensures parts[i] == cp[i]
      {
        assert SegmentOk(cp, parts, i);
      }
      assert parts == cp[..|parts|];
    }
  }

  /** An entry with more segments than the pattern is selected only when the pattern ends in `*`. */
  lemma LongerEntry(check: string, entry: string)
    requires |Split(entry, '.')| > |Split(check, '.')|
    requires EntryMatches(check, entry)
    ensures Split(check, '.')[|Split(check, '.')| - 1] == "*"
  {
    assert SegmentOk(Split(check, '.'), Split(entry, '.'), |Split(check, '.')|);
  }

  /** A `*` segment accepts any single segment at its position. */
  lemma StarSegmentAcceptsAny(cp: seq<string>, parts: seq<string>, i: nat, seg: string)
    requires |cp| >= 1 && i < |parts| && i < |cp| && cp[i] == "*"
    requires SegmentsMatch(cp, parts)
    ensures SegmentsMatch(cp, parts[i := seg])
  {
    var parts' := parts[i := seg];
    forall j | 0 <= j < |parts'|
      ensures SegmentOk(cp, parts', j)
    {
      assert SegmentOk(cp, parts, j);
    }
  }
}
