/**
 * The browser-side event subscription manager (EventsProvider.tsx): a table
 * from channel names to ordered registrations, the socket's `open` state,
 * the reconnect `active` flag and the control messages sent to the server.
 * The socket itself is the `open` flag plus the outbox; callbacks are
 * handler tokens, and dispatch returns the tokens called, in order.
 */
module EventManager {

  import opened Wrappers
  import opened JsonValues
  import Api
  import EventsController

  datatype Registration = Registration(id: string, callback: nat)

  /** One key of the subscriptions object with its registrations. */
  datatype Channel = Channel(name: string, regs: seq<Registration>)

  /** A JSON control message written to the socket. */
  datatype Control = AddControl(paths: seq<string>) | RemoveControl(paths: seq<string>)

  datatype Manager = Manager(table: seq<Channel>, open: bool, active: bool, outbox: seq<Control>)

  /** The constructor: no subscriptions, no socket, inactive. */
  const Fresh: Manager := Manager([], false, false, [])

  predicate Distinct(s: seq<string>)
  {
    forall i, j | 0 <= i < j < |s| :: s[i] != s[j]
  }

  /** `Object.keys(this.subscriptions)`, in insertion order. */
  function Names(t: seq<Channel>): (r: seq<string>)
    ensures |r| == |t|
    ensures forall i | 0 <= i < |t| :: r[i] == t[i].name
  {
    if |t| == 0 then [] else [t[0].name] + Names(t[1..])
  }

  /** The registrations under a key; an absent key has none. */
  function Regs(t: seq<Channel>, name: string): (r: seq<Registration>)
    ensures name !in Names(t) ==> r == []
    ensures forall i | 0 <= i < |t| && t[i].name == name && (forall j | 0 <= j < i :: t[j].name != name) :: r == t[i].regs
  {
    if |t| == 0 then []
    else if t[0].name == name then t[0].regs
    else Regs(t[1..], name)
  }

  /** A table the manager can reach: distinct keys, none with an empty list. */
  predicate WellFormed(t: seq<Channel>)
  {
    Distinct(Names(t)) && forall n | n in Names(t) :: |Regs(t, n)| > 0
  }

  /** `this.subscriptions[name] = regs`: replaces an existing key in place, else appends it. */
  function Put(t: seq<Channel>, name: string, regs: seq<Registration>): (r: seq<Channel>)
    ensures Regs(r, name) == regs
    ensures forall o | o != name :: Regs(r, o) == Regs(t, o)
    ensures Names(r) == if name in Names(t) then Names(t) else Names(t) + [name]
  {
    if |t| == 0 then [Channel(name, regs)]
    else if t[0].name == name then [Channel(name, regs)] + t[1..]
    else
      var rest := Put(t[1..], name, regs);
      PutStep(t, name, regs, rest);
      [t[0]] + rest
  }

  /** Putting behind a first channel of another name: the first channel stays in front. */
  lemma PutStep(t: seq<Channel>, name: string, regs: seq<Registration>, rest: seq<Channel>)
    requires |t| > 0 && t[0].name != name
    requires Regs(rest, name) == regs
    requires forall o | o != name :: Regs(rest, o) == Regs(t[1..], o)
    requires Names(rest) == if name in Names(t[1..]) then Names(t[1..]) else Names(t[1..]) + [name]
    ensures Regs([t[0]] + rest, name) == regs
    ensures forall o | o != name :: Regs([t[0]] + rest, o) == Regs(t, o)
    ensures Names([t[0]] + rest) == if name in Names(t) then Names(t) else Names(t) + [name]
  {
    var r := [t[0]] + rest;
    assert r[1..] == rest;
    forall o | o != name
      ensures Regs(r, o) == Regs(t, o)
    {
      if t[0].name != o {
        assert Regs(r, o) == Regs(rest, o);
      }
    }
    ConsNames(t[0], rest);
    ConsNames(t[0], t[1..]);
    assert [t[0]] + t[1..] == t;
    if name !in Names(t[1..]) {
      assert [t[0].name] + (Names(t[1..]) + [name]) == ([t[0].name] + Names(t[1..])) + [name];
    }
  }

  /** The names of a channel list with one more channel in front. */
  lemma ConsNames(c: Channel, t: seq<Channel>)
    ensures Names([c] + t) == [c.name] + Names(t)
  {
    assert ([c] + t)[1..] == t;
  }

  /** `omit(this.subscriptions, name)`: the other keys keep their order. */
  function Drop(t: seq<Channel>, name: string): (r: seq<Channel>)
    ensures Regs(r, name) == []
    ensures forall o | o != name :: Regs(r, o) == Regs(t, o)
    ensures forall o :: o in Names(r) <==> o in Names(t) && o != name
    ensures Distinct(Names(t)) ==> Distinct(Names(r))
  {
    if |t| == 0 then []
    else
      var rest := Drop(t[1..], name);
      ConsNames(t[0], t[1..]);
      assert [t[0]] + t[1..] == t;
      assert Distinct(Names(t)) ==> Distinct(Names(t[1..]));
      if t[0].name == name then rest
      else
        DropStep(t, name, rest);
        [t[0]] + rest
  }

  /** Dropping behind a first channel of another name: the first channel stays in front. */
  lemma DropStep(t: seq<Channel>, name: string, rest: seq<Channel>)
    requires |t| > 0 && t[0].name != name
    requires Regs(rest, name) == []
    requires forall o | o != name :: Regs(rest, o) == Regs(t[1..], o)
    requires forall o :: o in Names(rest) <==> o in Names(t[1..]) && o != name
    requires Distinct(Names(t[1..])) ==> Distinct(Names(rest))
    ensures Regs([t[0]] + rest, name) == []
    ensures forall o | o != name :: Regs([t[0]] + rest, o) == Regs(t, o)
    ensures forall o :: o in Names([t[0]] + rest) <==> o in Names(t) && o != name
    ensures Distinct(Names(t)) ==> Distinct(Names([t[0]] + rest))
  {
    var r := [t[0]] + rest;
    assert r[1..] == rest;
    assert Regs(r, name) == Regs(rest, name);
    forall o | o != name
      ensures Regs(r, o) == Regs(t, o)
    {
      if t[0].name != o {
        assert Regs(r, o) == Regs(rest, o);
      }
    }
    ConsNames(t[0], rest);
    ConsNames(t[0], t[1..]);
    assert [t[0]] + t[1..] == t;
    forall o
      ensures o in Names(r) <==> o in Names(t) && o != name
    {
      assert o in Names(r) <==> o == t[0].name || o in Names(rest);
      assert o in Names(t) <==> o == t[0].name || o in Names(t[1..]);
    }
    if Distinct(Names(t)) {
      DistinctUncons(t[0].name, Names(t[1..]));
      DistinctCons(t[0].name, Names(rest));
    }
  }

  lemma DistinctUncons(x: string, s: seq<string>)
    requires Distinct([x] + s)
    ensures x !in s && Distinct(s)
  {
    forall j | 0 <= j < |s|
      ensures s[j] != x
    {
      assert ([x] + s)[0] == x && ([x] + s)[j + 1] == s[j];
    }
    forall i, j | 0 <= i < j < |s|
      ensures s[i] != s[j]
    {
      assert ([x] + s)[i + 1] == s[i] && ([x] + s)[j + 1] == s[j];
    }
  }

  lemma DistinctCons(x: string, s: seq<string>)
    requires x !in s && Distinct(s)
    ensures Distinct([x] + s)
  {
    forall i, j | 0 <= i < j < |[x] + s|
      ensures ([x] + s)[i] != ([x] + s)[j]
    {
      if i > 0 {
        assert ([x] + s)[i] == s[i - 1];
      }
      assert ([x] + s)[j] == s[j - 1];
    }
  }

  // ---- subscribe (EventsProvider.tsx 75-93) ----

  /**
   * `subscribe(channel, callback)` with `id` the fresh id: the registration
   * goes to the end of its channel's list, and the socket is told about the
   * channel on every call while it is open.
   */
  function Subscribe(m: Manager, channel: string, callback: nat, id: string): (r: (Manager, string))
    ensures r.1 == id
    ensures Regs(r.0.table, channel) == Regs(m.table, channel) + [Registration(id, callback)]
    ensures forall o | o != channel :: Regs(r.0.table, o) == Regs(m.table, o)
    ensures Names(r.0.table) == if channel in Names(m.table) then Names(m.table) else Names(m.table) + [channel]
    ensures r.0.outbox == m.outbox + (if m.open then [AddControl([channel])] else [])
    ensures r.0.open == m.open && r.0.active == m.active
  {
    var t := Put(m.table, channel, Regs(m.table, channel) + [Registration(id, callback)]);
    (m.(table := t, outbox := m.outbox + (if m.open then [AddControl([channel])] else [])), id)
  }

  lemma SubscribeKeepsWellFormed(m: Manager, channel: string, callback: nat, id: string)
    requires WellFormed(m.table)
    ensures WellFormed(Subscribe(m, channel, callback, id).0.table)
  {
    var t := Subscribe(m, channel, callback, id).0.table;
    if channel !in Names(m.table) {
      DistinctSnoc(Names(m.table), channel);
    }
    assert Distinct(Names(t));
    forall n | n in Names(t)
      ensures |Regs(t, n)| > 0
    {
      if n != channel {
        assert Regs(t, n) == Regs(m.table, n);
        assert n in Names(m.table);
      } else {
        assert Regs(t, n) == Regs(m.table, n) + [Registration(id, callback)];
      }
    }
  }

  lemma DistinctSnoc(s: seq<string>, x: string)
    requires x !in s && Distinct(s)
    ensures Distinct(s + [x])
  {
    forall i, j | 0 <= i < j < |s + [x]|
      ensures (s + [x])[i] != (s + [x])[j]
    {
      assert (s + [x])[i] == s[i];
      if j < |s| {
        assert (s + [x])[j] == s[j];
      }
    }
  }

  // ---- unsubscribe (EventsProvider.tsx 95-117) ----

  /** Registrations of `regs` whose id is not `id`, in order. */
  function Without(regs: seq<Registration>, id: string): (r: seq<Registration>)
    ensures forall x :: x in r <==> x in regs && x.id != id
    ensures |r| <= |regs|
  {
    if |regs| == 0 then []
    else (if regs[0].id == id then [] else [regs[0]]) + Without(regs[1..], id)
  }

  /** The reference: registrations whose id is in none of `ids`. */
  function WithoutAll(regs: seq<Registration>, ids: set<string>): (r: seq<Registration>)
    ensures forall x :: x in r <==> x in regs && x.id !in ids
  {
    if |regs| == 0 then []
    else (if regs[0].id in ids then [] else [regs[0]]) + WithoutAll(regs[1..], ids)
  }

  lemma {:induction false} WithoutThenAll(regs: seq<Registration>, id: string, ids: set<string>)
    ensures WithoutAll(Without(regs, id), ids) == WithoutAll(regs, ids + {id})
    decreases |regs|
  {
    if |regs| > 0 {
      WithoutThenAll(regs[1..], id, ids);
      var head := if regs[0].id == id then [] else [regs[0]];
      WithoutAllAppend(head, Without(regs[1..], id), ids);
    }
  }

  lemma {:induction false} WithoutAllAppend(a: seq<Registration>, b: seq<Registration>, ids: set<string>)
    ensures WithoutAll(a + b, ids) == WithoutAll(a, ids) + WithoutAll(b, ids)
    decreases |a|
  {
    if |a| > 0 {
      assert (a + b)[1..] == a[1..] + b;
      WithoutAllAppend(a[1..], b, ids);
    } else {
      assert a + b == b;
    }
  }

  /** One `{channel, id}` pair; the flag says whether it emptied (and so removed) the channel. */
  function UnsubscribeOne(t: seq<Channel>, channel: string, id: string): (r: (seq<Channel>, bool))
    ensures Regs(r.0, channel) == Without(Regs(t, channel), id)
    ensures forall o | o != channel :: Regs(r.0, o) == Regs(t, o)
    ensures r.1 <==> channel in Names(t) && Without(Regs(t, channel), id) == []
    ensures forall o :: o in Names(r.0) <==> o in Names(t) && !(r.1 && o == channel)
    ensures WellFormed(t) ==> WellFormed(r.0)
  {
    if channel !in Names(t) then (t, false)
    else
      var kept := Without(Regs(t, channel), id);
      if |kept| == 0 then
        var d := Drop(t, channel);
        assert WellFormed(t) ==> WellFormed(d) by {
          if WellFormed(t) {
            forall n | n in Names(d)
              ensures |Regs(d, n)| > 0
            {
              assert n in Names(t);
            }
          }
        }
        (d, true)
      else
        var p := Put(t, channel, kept);
        assert WellFormed(t) ==> WellFormed(p) by {
          if WellFormed(t) {
            forall n | n in Names(p)
              ensures |Regs(p, n)| > 0
            {
              assert n in Names(t);
            }
          }
        }
        (p, false)
  }

  /** The pairs in order, collecting the channels they emptied. */
  function UnsubscribeAll(t: seq<Channel>, subs: seq<(string, string)>): (r: (seq<Channel>, seq<string>))
    decreases |subs|
  {
    if |subs| == 0 then (t, [])
    else
      var step := UnsubscribeOne(t, subs[0].0, subs[0].1);
      var rest := UnsubscribeAll(step.0, subs[1..]);
      (rest.0, (if step.1 then [subs[0].0] else []) + rest.1)
  }

  /** The ids the call names for one channel. */
  function IdsFor(subs: seq<(string, string)>, channel: string): (r: set<string>)
    ensures forall id :: id in r <==> exists i | 0 <= i < |subs| :: subs[i] == (channel, id)
  {
    set i | 0 <= i < |subs| && subs[i].0 == channel :: subs[i].1
  }

  /**
   * After `unsubscribe`, every channel keeps exactly its registrations whose
   * id was not named for it, in their order.
   */
  lemma {:induction false} UnsubscribeKeeps(t: seq<Channel>, subs: seq<(string, string)>, channel: string)
    ensures Regs(UnsubscribeAll(t, subs).0, channel) == WithoutAll(Regs(t, channel), IdsFor(subs, channel))
    decreases |subs|
  {
    if |subs| == 0 {
      assert IdsFor(subs, channel) == {};
      WithoutAllNone(Regs(t, channel));
    } else {
      var step := UnsubscribeOne(t, subs[0].0, subs[0].1);
      var regs, later := Regs(t, channel), IdsFor(subs[1..], channel);
      UnsubscribeKeeps(step.0, subs[1..], channel);
      IdsForCons(subs, channel);
      if subs[0].0 == channel {
        calc {
          Regs(UnsubscribeAll(t, subs).0, channel);
          Regs(UnsubscribeAll(step.0, subs[1..]).0, channel);
          WithoutAll(Regs(step.0, channel), later);
          WithoutAll(Without(regs, subs[0].1), later);
          { WithoutThenAll(regs, subs[0].1, later); }
          WithoutAll(regs, later + {subs[0].1});
        }
      } else {
        assert IdsFor(subs, channel) == later;
        assert Regs(step.0, channel) == regs;
        assert UnsubscribeAll(t, subs).0 == UnsubscribeAll(step.0, subs[1..]).0;
      }
    }
  }

  lemma IdsForCons(subs: seq<(string, string)>, channel: string)
    requires |subs| > 0
    ensures IdsFor(subs, channel) == IdsFor(subs[1..], channel) + (if subs[0].0 == channel then {subs[0].1} else {})
  {
    forall id
      ensures id in IdsFor(subs, channel) <==> id in IdsFor(subs[1..], channel) || (subs[0].0 == channel && id == subs[0].1)
    {
      if id in IdsFor(subs, channel) {
        var i :| 0 <= i < |subs| && subs[i] == (channel, id);
        if i > 0 {
          assert subs[1..][i - 1] == (channel, id);
        }
      }
      if id in IdsFor(subs[1..], channel) {
        var i :| 0 <= i < |subs[1..]| && subs[1..][i] == (channel, id);
        assert subs[i + 1] == (channel, id);
      }
      if subs[0].0 == channel && id == subs[0].1 {
        assert subs[0] == (channel, id);
      }
    }
  }

  lemma {:induction false} WithoutAllNone(regs: seq<Registration>)
    ensures WithoutAll(regs, {}) == regs
    decreases |regs|
  {
    if |regs| > 0 {
      WithoutAllNone(regs[1..]);
    }
  }

  /**
   * The emptied channels are exactly the keys the call removed, each listed
   * once; the keys only shrink.
   */
  lemma {:induction false} UnsubscribeEmptied(t: seq<Channel>, subs: seq<(string, string)>)
    ensures var r := UnsubscribeAll(t, subs);
      && (forall c :: c in r.1 <==> c in Names(t) && c !in Names(r.0))
      && (forall c :: c in Names(r.0) ==> c in Names(t))
      && Distinct(r.1)
    decreases |subs|
  {
    if |subs| > 0 {
      var step := UnsubscribeOne(t, subs[0].0, subs[0].1);
      UnsubscribeEmptied(step.0, subs[1..]);
    }
  }

  lemma {:induction false} UnsubscribeKeepsWellFormed(t: seq<Channel>, subs: seq<(string, string)>)
    requires WellFormed(t)
    ensures WellFormed(UnsubscribeAll(t, subs).0)
    decreases |subs|
  {
    if |subs| > 0 {
      UnsubscribeKeepsWellFormed(UnsubscribeOne(t, subs[0].0, subs[0].1).0, subs[1..]);
    }
  }

  /** `unsubscribe(...subs)`: at most one remove message, listing the emptied channels. */
  function Unsubscribe(m: Manager, subs: seq<(string, string)>): (r: Manager)
    ensures r.table == UnsubscribeAll(m.table, subs).0
    ensures r.outbox == m.outbox + (if m.open && |UnsubscribeAll(m.table, subs).1| > 0
                                    then [RemoveControl(UnsubscribeAll(m.table, subs).1)] else [])
    ensures r.open == m.open && r.active == m.active
  {
    var u := UnsubscribeAll(m.table, subs);
    m.(table := u.0, outbox := m.outbox + (if m.open && |u.1| > 0 then [RemoveControl(u.1)] else []))
  }

  // ---- handleEvent (EventsProvider.tsx 27-36) ----

  function Callbacks(regs: seq<Registration>): (r: seq<nat>)
    ensures |r| == |regs|
    ensures forall k | 0 <= k < |regs| :: r[k] == regs[k].callback
  {
    if |regs| == 0 then [] else [regs[0].callback] + Callbacks(regs[1..])
  }

  /** For each listed subscriber present in the table, its callbacks in registration order. */
  function Calls(t: seq<Channel>, subscribers: seq<string>): seq<nat>
  {
    if |subscribers| == 0 then []
    else (if subscribers[0] in Names(t) then Callbacks(Regs(t, subscribers[0])) else []) + Calls(t, subscribers[1..])
  }

  /** `handleEvent`: a message without a subscriber list calls nothing. */
  function HandleEvent(m: Manager, subscribers: Option<seq<string>>): (r: seq<nat>)
    ensures subscribers.None? ==> r == []
    ensures forall cb :: cb in r <==> subscribers.Some? && Reaches(m.table, subscribers.value, cb)
  {
    if subscribers.None? then [] else
      CallsMembers(m.table, subscribers.value);
      Calls(m.table, subscribers.value)
  }

  /** Some listed subscriber channel holds a registration with this callback. */
  predicate Reaches(t: seq<Channel>, subscribers: seq<string>, cb: nat)
  {
    exists s, k | s in subscribers && 0 <= k < |Regs(t, s)| :: Regs(t, s)[k].callback == cb
  }

  lemma {:induction false} CallsMembers(t: seq<Channel>, subscribers: seq<string>)
    ensures forall cb :: cb in Calls(t, subscribers) <==> Reaches(t, subscribers, cb)
    decreases |subscribers|
  {
    if |subscribers| > 0 {
      var s0, tail := subscribers[0], subscribers[1..];
      CallsMembers(t, tail);
      var head := if s0 in Names(t) then Callbacks(Regs(t, s0)) else [];
      assert Calls(t, subscribers) == head + Calls(t, tail);
      forall cb | cb in Calls(t, subscribers)
        ensures Reaches(t, subscribers, cb)
      {
        if cb in head {
          var k :| 0 <= k < |head| && head[k] == cb;
          assert s0 in subscribers && Regs(t, s0)[k].callback == cb;
        } else {
          assert Reaches(t, tail, cb);
          var s, k :| s in tail && 0 <= k < |Regs(t, s)| && Regs(t, s)[k].callback == cb;
          assert s in subscribers;
        }
      }
      forall cb | Reaches(t, subscribers, cb)
        ensures cb in Calls(t, subscribers)
      {
        var s, k :| s in subscribers && 0 <= k < |Regs(t, s)| && Regs(t, s)[k].callback == cb;
        if s == s0 {
          assert head[k] == cb;
        } else {
          assert s in tail;
          assert Reaches(t, tail, cb);
        }
      }
    }
  }

  /** Dispatching to a concatenated list is dispatching to each part in turn. */
  lemma {:induction false} CallsAppend(t: seq<Channel>, a: seq<string>, b: seq<string>)
    ensures Calls(t, a + b) == Calls(t, a) + Calls(t, b)
    decreases |a|
  {
    if |a| > 0 {
      assert (a + b)[1..] == a[1..] + b;
      CallsAppend(t, a[1..], b);
    } else {
      assert a + b == b;
    }
  }

  /** A single channel's callbacks run in registration order. */
  lemma OneChannelInOrder(m: Manager, s: string)
    requires s in Names(m.table)
    ensures HandleEvent(m, Some([s])) == Callbacks(Regs(m.table, s))
  {
    assert Calls(m.table, [s])[..] == Callbacks(Regs(m.table, s)) + Calls(m.table, []);
  }

  // ---- connect / disconnect (EventsProvider.tsx 38-73) ----

  /**
   * `connect()`: closes the current socket if it is open and opens a new
   * one; the flag says whether an open socket was closed.
   */
  function Connect(m: Manager): (r: (Manager, bool))
    ensures r.0.active && !r.0.open
    ensures r.1 == m.open
    ensures r.0.table == m.table && r.0.outbox == m.outbox
  {
    (m.(active := true, open := false), m.open)
  }

  /** The new socket's `open` listener: announce every current channel. */
  function OnOpen(m: Manager): (r: Manager)
    ensures r.open && r.active == m.active && r.table == m.table
    ensures r.outbox == m.outbox + [AddControl(Names(m.table))]
  {
    m.(open := true, outbox := m.outbox + [AddControl(Names(m.table))])
  }

  /**
   * A socket's `close` listener; `current` says whether it is the manager's
   * own socket. The flag is whether a reconnect is scheduled after 1000 ms.
   */
  function OnClose(m: Manager, current: bool): (r: (Manager, bool))
    ensures r.1 <==> m.active
    ensures r.0.open == (m.open && !current)
    ensures r.0.table == m.table && r.0.outbox == m.outbox && r.0.active == m.active
  {
    (m.(open := if current then false else m.open), m.active)
  }

  /** `disconnect()`: no reconnects, no socket. */
  function Disconnect(m: Manager): (r: Manager)
    ensures !r.active && !r.open
    ensures r.table == m.table && r.outbox == m.outbox
  {
    m.(active := false, open := false)
  }

  /** After `disconnect`, no close event schedules a reconnect. */
  lemma DisconnectStopsReconnects(m: Manager, current: bool)
    ensures !OnClose(Disconnect(m), current).1
  {
  }

  /**
   * `connect()` on an open manager closes the old socket while `active` is
   * already true, so that socket's close listener schedules yet another
   * `connect()` a second later.
   */
  lemma ReconnectWhileOpenSchedulesAnother(m: Manager)
    requires m.open
    ensures var c := Connect(m);
      c.1 && OnClose(c.0, false).1
  {
  }

  /** Messages sent while closed are dropped, so a closed manager's outbox never grows. */
  lemma ClosedSendsNothing(m: Manager, channel: string, callback: nat, id: string, subs: seq<(string, string)>)
    requires !m.open
    ensures Subscribe(m, channel, callback, id).0.outbox == m.outbox
    ensures Unsubscribe(m, subs).outbox == m.outbox
  {
  }

  // ---- the provider's rule (EventsProvider.tsx 130-136) ----

  /** `api.auth?.session` is truthy. */
  predicate HasSession(auth: Json)
  {
    Truthy(Member(auth, "session"))
  }

  /** Whether the provider connects (true) or disconnects (false). */
  function ShouldConnect(c: Api.ApiContext): (r: bool)
    ensures r <==> c.Ready? && HasSession(c.auth)
  {
    match c
    case Ready(auth) => HasSession(auth)
    case _ => false
  }

  function ApplyProviderRule(m: Manager, c: Api.ApiContext): (r: Manager)
    ensures r.active <==> c.Ready? && HasSession(c.auth)
    ensures r.table == m.table
  {
    if ShouldConnect(c) then Connect(m).0 else Disconnect(m)
  }

  // ---- the server's view of the subscriptions ----

  /** The server's subscription list after one control message (controllers/events.py 58-67). */
  function Apply(server: seq<string>, c: Control): seq<string>
  {
    match c
    case AddControl(paths) => EventsController.AddPaths(server, paths)
    case RemoveControl(paths) => EventsController.RemovePaths(server, paths)
  }

  /** The server subscribes to exactly the client's channels. */
  ghost predicate InSync(m: Manager, server: seq<string>)
  {
    forall c :: c in server <==> c in Names(m.table)
  }

  /** A fresh socket starts with no server subscriptions; the open message syncs them. */
  lemma OpenSyncs(m: Manager)
    ensures InSync(OnOpen(m), Apply([], AddControl(Names(m.table))))
  {
    EventsController.AddMembers([], Names(m.table));
  }

  /** While open, each subscribe keeps the server in sync once it applies the message. */
  lemma SubscribeStaysInSync(m: Manager, server: seq<string>, channel: string, callback: nat, id: string)
    requires m.open && InSync(m, server)
    ensures var r := Subscribe(m, channel, callback, id).0;
      InSync(r, Apply(server, r.outbox[|r.outbox| - 1]))
  {
    EventsController.AddMembers(server, [channel]);
  }

  /** While open, each unsubscribe keeps the server in sync once it applies the message (if any). */
  lemma UnsubscribeStaysInSync(m: Manager, server: seq<string>, subs: seq<(string, string)>)
    requires m.open && InSync(m, server)
    ensures var r := Unsubscribe(m, subs);
      InSync(r, if |r.outbox| > |m.outbox| then Apply(server, r.outbox[|r.outbox| - 1]) else server)
  {
    UnsubscribeEmptied(m.table, subs);
  }
}
