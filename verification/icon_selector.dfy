/**
 * The icon picker (IconSelector.tsx): the search over icon names, the
 * 128-icon pages and the toggle on click.
 */
module IconSelector {

  import opened Wrappers
  import Text
  import Seqs

  const PageSize: nat := 128

  /** `v.replace(/-/g, " ")`. */
  function Norm(name: string): (r: string)
    ensures |r| == |name| && '-' !in r
    ensures forall i | 0 <= i < |name| :: r[i] == if name[i] == '-' then ' ' else name[i]
  {
    seq(|name|, i requires 0 <= i < |name| => if name[i] == '-' then ' ' else name[i])
  }

  /** The icons offered for a search (40-52). */
  function Filtered(icons: seq<string>, search: string): (r: seq<string>)
    ensures |search| == 0 ==> r == icons
    ensures |search| > 0 ==> forall x :: x in r <==> x in icons && Text.SearchMatch(Norm(x), search)
  {
    if |search| == 0 then icons
    else Seqs.Keep(icons, (v: string) => Text.SearchMatch(Norm(v), search))
  }

  /** `Math.ceil(n / 128)`. */
  function PageCount(n: nat): (r: nat)
    ensures (r - 1) * PageSize < n <= r * PageSize || (n == 0 && r == 0)
  {
    (n + PageSize - 1) / PageSize
  }

  /** `Array.prototype.slice` with non-negative bounds: both are clamped to the length. */
  function SliceJs<T>(s: seq<T>, start: nat, end: nat): (r: seq<T>)
    ensures start >= |s| || end <= start ==> r == []
    ensures start < end && start < |s| ==> r == s[start..if end < |s| then end else |s|]
  {
    var hi := if end < |s| then end else |s|;
    if start < hi then s[start..hi] else []
  }

  /** Page `page` (counted from 1) of the filtered icons (98-99). */
  function Page<T>(items: seq<T>, page: nat): (r: seq<T>)
    requires page >= 1
    ensures |r| <= PageSize
    ensures (page - 1) * PageSize < |items| ==>
      r == items[(page - 1) * PageSize..if page * PageSize < |items| then page * PageSize else |items|]
    ensures (page - 1) * PageSize >= |items| ==> r == []
  {
    SliceJs(items, (page - 1) * PageSize, page * PageSize)
  }

  /** Pages 1..k laid end to end. */
  function FirstPages<T>(items: seq<T>, k: nat): seq<T>
  {
    if k == 0 then [] else FirstPages(items, k - 1) + Page(items, k)
  }

  /** The first `k` pages are the first `k * 128` items. */
  lemma {:induction false} FirstPagesPrefix<T>(items: seq<T>, k: nat)
    ensures FirstPages(items, k) == items[..if k * PageSize < |items| then k * PageSize else |items|]
  {
    if k > 0 {
      FirstPagesPrefix(items, k - 1);
      var lo := if (k - 1) * PageSize < |items| then (k - 1) * PageSize else |items|;
      var hi := if k * PageSize < |items| then k * PageSize else |items|;
      assert items[..hi] == items[..lo] + items[lo..hi];
    }
  }

  /** The pages up to the page count cover the filtered list exactly, each item once and in order. */
  lemma PagesCover<T>(items: seq<T>)
    ensures FirstPages(items, PageCount(|items|)) == items
  {
    FirstPagesPrefix(items, PageCount(|items|));
  }

  /** Every page after the last is empty. */
  lemma PastLastPageEmpty<T>(items: seq<T>, page: nat)
    requires page > PageCount(|items|)
    ensures Page(items, page) == []
  {
  }

  /** Item `i` appears on exactly one page, page `i / 128 + 1`. */
  lemma ItemOnOnePage<T>(items: seq<T>, i: nat, page: nat)
    requires i < |items| && page >= 1
    ensures (page - 1) * PageSize <= i < page * PageSize <==> page == i / PageSize + 1
    ensures 1 <= i / PageSize + 1 <= PageCount(|items|)
  {
  }

  /** A click on an icon: the selected one clears the value, another one selects it (108-112). */
  function Click(value: Option<string>, key: string): (r: Option<string>)
    ensures r == Some(key) <==> value != Some(key)
    ensures r.Some? ==> r.value == key
  {
    if value == Some(key) then None else Some(key)
  }

  /** Clicking the same icon twice from no selection, or from that selection, returns to the start. */
  lemma ClickTwice(value: Option<string>, key: string)
    requires value.None? || value == Some(key)
    ensures Click(Click(value, key), key) == value
  {
  }
}
