/**
 * The plugin lifecycle context (raven_api/common/plugin/models/lifecycle.py):
 * values registered once per `(plugin, key)` pair.
 */
module Lifecycle {

  import opened Wrappers
  import opened PyValues

  datatype LifecycleContext<V> = LifecycleContext(context: map<(string, string), V>)

  function Empty<V>(): LifecycleContext<V>
  {
    LifecycleContext(map[])
  }

  /** `register(plugin, key, value)`: a pair already present raises a ValueError. */
  function Register<V>(c: LifecycleContext<V>, plugin: string, key: string, value: V): (r: Result<LifecycleContext<V>, PyError>)
    ensures r.Err? <==> (plugin, key) in c.context
    ensures r.Err? ==> r.error == ValueError
    ensures r.Ok? ==> r.value.context.Keys == c.context.Keys + {(plugin, key)}
  {
    if (plugin, key) in c.context then Err(ValueError)
    else Ok(LifecycleContext(c.context[(plugin, key) := value]))
  }

  /** `get(plugin, key)`: the registered value, or None. */
  function Get<V>(c: LifecycleContext<V>, plugin: string, key: string): (r: Option<V>)
    ensures r.Some? <==> (plugin, key) in c.context
  {
    if (plugin, key) in c.context then Some(c.context[(plugin, key)]) else None
  }

  /** A fresh pair reads back the registered value. */
  lemma GetAfterRegister<V>(c: LifecycleContext<V>, plugin: string, key: string, value: V)
    requires Get(c, plugin, key).None?
    ensures Register(c, plugin, key, value).Ok?
    ensures Get(Register(c, plugin, key, value).value, plugin, key) == Some(value)
  {
  }

  /** A duplicate registration fails, and the value already stored is still the one read. */
  lemma DuplicateKeepsValue<V>(c: LifecycleContext<V>, plugin: string, key: string, value: V)
    requires Get(c, plugin, key).Some?
    ensures Register(c, plugin, key, value) == Err(ValueError)
  {
  }

  /**
   * A registration touches only its own pair: every other pair, including
   * the same key under another plugin, reads as before.
   */
  lemma RegisterIsolated<V>(c: LifecycleContext<V>, plugin: string, key: string, value: V, p: string, k: string)
    requires Register(c, plugin, key, value).Ok?
    requires (p, k) != (plugin, key)
    ensures Get(Register(c, plugin, key, value).value, p, k) == Get(c, p, k)
  {
  }

  /** Nothing is registered at first. */
  lemma EmptyHasNothing<V>(plugin: string, key: string)
    ensures Get(Empty<V>(), plugin, key).None?
  {
  }
}
