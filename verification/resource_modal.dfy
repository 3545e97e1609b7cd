/**
 * The resource detail modal (ResourceModal.tsx): which properties and
 * executors are listed, the scopes asked for execution, and the execute tab.
 */
module ResourceModal {

  import opened Wrappers
  import opened JsonValues
  import Api
  import Text
  import Seqs
  import opened ClientResources
  import ExecutorItem

  /** A nullable string in a condition: null and "" are falsy. */
  predicate Present(s: Option<string>)
  {
    s.Some? && s.value != ""
  }

  /** The three conditions on one property (60-70). */
  predicate ShowProperty(p: Property, showHidden: bool, showEmpty: bool, search: string)
  {
    && (showHidden || !Present(p.hidden))
    && (showEmpty || !p.value.JNull?)
    && (|search| == 0 || (Present(p.labelText) && Text.SearchMatch(p.labelText.value, search)))
  }

  function ShowProps(r: Resource, showHidden: bool, showEmpty: bool, search: string): (res: seq<(string, Property)>)
    ensures forall e :: e in res <==> e in r.properties && ShowProperty(e.1, showHidden, showEmpty, search)
  {
    Seqs.Keep(r.properties, (e: (string, Property)) => ShowProperty(e.1, showHidden, showEmpty, search))
  }

  /** With a search typed, a property without a label is never listed. */
  lemma SearchHidesUnlabelled(r: Resource, showHidden: bool, showEmpty: bool, search: string, e: (string, Property))
    requires |search| > 0 && !Present(e.1.labelText)
    ensures e !in ShowProps(r, showHidden, showEmpty, search)
  {
  }

  /** With the initial toggles (hidden off, empty on) and no search, exactly the non-hidden properties show. */
  lemma InitialTogglesShowUnhidden(r: Resource, e: (string, Property))
    ensures e in ShowProps(r, false, true, "") <==> e in r.properties && !Present(e.1.hidden)
  {
  }

  /** Executors listed: all without a search, else those whose name and the search contain one another (92-99). */
  function ShowExecs(executors: seq<ExecutorItem.Executor>, search: string): (r: seq<ExecutorItem.Executor>)
    ensures |search| == 0 ==> r == executors
    ensures |search| > 0 ==> forall x :: x in r <==> x in executors && Text.SearchMatch(x.name, search)
  {
    if |search| > 0 then Seqs.Keep(executors, (x: ExecutorItem.Executor) => Text.SearchMatch(x.name, search))
    else executors
  }

  /** The scopes execution needs; none while the modal is closed (75-82). */
  function ExecuteScopes(open: bool, slug: string): (r: seq<string>)
    ensures !open ==> r == []
    ensures open ==> |r| == 2 && r[0] == "resources.all.execute" && r[1] == "resources.plugin." + slug + ".execute"
  {
    if open then ["resources.all.execute", "resources.plugin." + slug + ".execute"] else []
  }

  /** The executors held: fetched only when ready and allowed, otherwise cleared (84-90). */
  function Executors(c: Api.ApiContext, canExecute: bool, fetched: seq<ExecutorItem.Executor>): (r: seq<ExecutorItem.Executor>)
    ensures c.Ready? && canExecute ==> r == fetched
    ensures !(c.Ready? && canExecute) ==> r == []
  {
    if c.Ready? && canExecute then fetched else []
  }

  /** The execute tab is disabled iff execution is not allowed or nothing is there to run (144). */
  predicate ExecuteTabDisabled(canExecute: bool, executors: seq<ExecutorItem.Executor>)
  {
    !canExecute || |executors| == 0
  }

  /** The tab is enabled exactly when there is an executor to run: executors are only ever held while allowed. */
  lemma ExecuteTabEnabledIff(c: Api.ApiContext, canExecute: bool, fetched: seq<ExecutorItem.Executor>)
    ensures !ExecuteTabDisabled(canExecute, Executors(c, canExecute, fetched)) <==> c.Ready? && canExecute && |fetched| > 0
  {
  }
}
