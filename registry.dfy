/** The state of the addon manager as a value, and the effect of each of its operations on it:
    the event bus, the activation controller and the index built at start-up. */
module Registry {
  import opened Addons
  import opened Lists

  /** The four dictionaries and lists of the manager, and the trace of calls it made outward. */
  datatype State = State(
    plugins: seq<Addon>,
    pluginMap: map<string, Addon>,
    methods: map<string, map<string, string>>,
    events: map<string, seq<Listener>>,
    trace: seq<Entry>)

  function Names(ps: seq<Addon>): set<string> {
    set i | 0 <= i < |ps| :: ps[i].name
  }

  predicate UniqueNames(ps: seq<Addon>) {
    forall i, j :: 0 <= i < j < |ps| ==> ps[i].name != ps[j].name
  }

  /** At most one instance per name; pluginMap has exactly the names in plugins as keys and maps
      each to its instance; no listener is registered twice for one event. */
  predicate Inv(s: State) {
    && UniqueNames(s.plugins)
    && s.pluginMap.Keys == Names(s.plugins)
    && (forall i :: 0 <= i < |s.plugins| ==>
          s.plugins[i].name in s.pluginMap && s.pluginMap[s.plugins[i].name] == s.plugins[i])
    && (forall e :: e in s.events ==> NoDup(s.events[e]))
  }

  /** In a consistent state, pluginMap maps each name to the instance of that name and has one
      entry per loaded instance. */
  lemma InvIndex(s: State)
    requires Inv(s)
    ensures forall n :: n in s.pluginMap ==> s.pluginMap[n].name == n && s.pluginMap[n] in s.plugins
    ensures |s.pluginMap| == |s.plugins|
  {
    UniqueNamesCount(s.plugins);
    assert |s.pluginMap.Keys| == |s.pluginMap|;
  }

  lemma {:induction false} UniqueNamesCount(ps: seq<Addon>)
    requires UniqueNames(ps)
    ensures |Names(ps)| == |ps|
    decreases |ps|
  {
    if ps != [] {
      var q := ps[..|ps| - 1];
      var a := ps[|ps| - 1];
      assert q + [a] == ps;
      NamesAppend(q, a);
      UniqueNamesCount(q);
      assert a.name !in Names(q);
    }
  }

  lemma NamesAppend(ps: seq<Addon>, a: Addon)
    ensures Names(ps + [a]) == Names(ps) + {a.name}
  {
    var qs := ps + [a];
    assert qs[|ps|].name == a.name;
    forall n | n in Names(ps) ensures n in Names(qs) {
      var i :| 0 <= i < |ps| && ps[i].name == n;
      assert qs[i] == ps[i];
    }
  }

  lemma NamesSplice(ps: seq<Addon>, i: nat)
    requires i < |ps| && UniqueNames(ps)
    ensures UniqueNames(ps[..i] + ps[i + 1..])
    ensures Names(ps[..i] + ps[i + 1..]) == Names(ps) - {ps[i].name}
  {
    var qs := ps[..i] + ps[i + 1..];
    forall k | 0 <= k < |qs| ensures qs[k] == ps[if k < i then k else k + 1] { }
    forall n | n in Names(ps) - {ps[i].name} ensures n in Names(qs) {
      var j :| 0 <= j < |ps| && ps[j].name == n;
      assert qs[if j < i then j else j - 1] == ps[j];
    }
  }

  // ---------------------------------------------------------------------------------------
  // Event bus

  /** addEvent: the listener is appended to the event's list unless it is already there; a new
      event gets a one-element list; every other event keeps its list. */
  function AddEvent(events: map<string, seq<Listener>>, e: string, f: Listener): (r: map<string, seq<Listener>>)
    ensures r.Keys == events.Keys + {e}
    ensures e in events && f in events[e] ==> r[e] == events[e]
    ensures e in events && f !in events[e] ==> r[e] == events[e] + [f]
    ensures e !in events ==> r[e] == [f]
    ensures forall k :: k in events && k != e ==> r[k] == events[k]
    ensures (forall k :: k in events ==> NoDup(events[k])) ==> forall k :: k in r ==> NoDup(r[k])
  {
    if e in events then
      if f in events[e] then events else events[e := events[e] + [f]]
    else events[e := [f]]
  }

  /** removeEvent: drops the first occurrence of the listener from the event's list; an absent
      event or listener changes nothing. */
  function RemoveEvent(events: map<string, seq<Listener>>, e: string, f: Listener): (r: map<string, seq<Listener>>)
    ensures r.Keys == events.Keys
    ensures !(e in events && f in events[e]) ==> r == events
    ensures e in events && f in events[e] ==>
      var i := IndexOf(events[e], f);
      r[e] == events[e][..i] + events[e][i + 1..]
    ensures forall k :: k in events && k != e ==> r[k] == events[k]
    ensures (forall k :: k in events ==> NoDup(events[k])) ==>
      && (forall k :: k in r ==> NoDup(r[k]))
      && (e in r ==> f !in r[e])
  {
    if e in events && f in events[e] then
      RemoveFirstSplices(events[e], f);
      var r := events[e := RemoveFirst(events[e], f)];
      assert (forall k :: k in events ==> NoDup(events[k])) ==> NoDup(r[e]) && f !in r[e] by {
        if forall k :: k in events ==> NoDup(events[k]) {
          RemoveFirstNoDup(events[e], f);
        }
      }
      r
    else events
  }

  /** removeEvent undoes an addEvent that added the listener: the list is as before, and an
      event that was new is left with an empty list. */
  lemma AddThenRemoveEvent(events: map<string, seq<Listener>>, e: string, f: Listener)
    requires e in events ==> f !in events[e]
    ensures var r := RemoveEvent(AddEvent(events, e, f), e, f);
      && (e in events ==> r == events)
      && (e !in events ==> r == events[e := []])
  {
    var x := if e in events then events[e] else [];
    RemoveAfterAdd(events, e, f, x);
  }

  lemma RemoveAfterAdd(events: map<string, seq<Listener>>, e: string, f: Listener, x: seq<Listener>)
    requires x == if e in events then events[e] else []
    requires f !in x
    ensures RemoveEvent(AddEvent(events, e, f), e, f) == events[e := x]
  {
    var a := AddEvent(events, e, f);
    assert x + [f] == (if e in events then events[e] + [f] else [f]);
    assert a == events[e := x + [f]];
    assert f in a[e] by {
      assert a[e][|x|] == f;
    }
    RemoveFirstAppended(x, f);
    assert RemoveEvent(a, e, f) == a[e := RemoveFirst(a[e], f)];
    assert a[e := x] == events[e := x];
  }

  /** A second addEvent of the same listener changes nothing. */
  lemma AddEventIdempotent(events: map<string, seq<Listener>>, e: string, f: Listener)
    ensures AddEvent(AddEvent(events, e, f), e, f) == AddEvent(events, e, f)
  {
    var a := AddEvent(events, e, f);
    assert f in a[e] by {
      if e in events && f !in events[e] {
        assert a[e][|events[e]|] == f;
      } else if e !in events {
        assert a[e][0] == f;
      }
    }
    assert e in a;
    assert AddEvent(a, e, f) == a;
  }

  // ---------------------------------------------------------------------------------------
  // The trace

  /** The entries of a trace that record a call into a listener: the listener and its arguments. */
  function ListenerLog(tr: seq<Entry>): seq<(Listener, seq<Value>)> {
    if tr == [] then []
    else
      var e := tr[|tr| - 1];
      ListenerLog(tr[..|tr| - 1]) + (if e.Ran? && e.target.ListenerCall? then [(e.target.listener, e.args)] else [])
  }

  /** Entries that record no listener call. */
  predicate Quiet(es: seq<Entry>) {
    forall j :: 0 <= j < |es| ==> !(es[j].Ran? && es[j].target.ListenerCall?)
  }

  /** t is t0 followed by entries that record no listener call. */
  predicate QuietlyExtends(t: seq<Entry>, t0: seq<Entry>) {
    |t0| <= |t| && t[..|t0|] == t0 && Quiet(t[|t0|..])
  }

  lemma {:induction false} QuietLog(tr: seq<Entry>, es: seq<Entry>)
    requires Quiet(es)
    ensures ListenerLog(tr + es) == ListenerLog(tr)
    decreases |es|
  {
    if es != [] {
      var es' := es[..|es| - 1];
      assert (tr + es)[..|tr + es| - 1] == tr + es';
      assert (tr + es)[|tr + es| - 1] == es[|es| - 1];
      assert Quiet(es') by {
        forall j | 0 <= j < |es'| ensures !(es'[j].Ran? && es'[j].target.ListenerCall?) {
          assert es'[j] == es[j];
        }
      }
      QuietLog(tr, es');
      var e := es[|es| - 1];
      assert !(e.Ran? && e.target.ListenerCall?);
      assert ListenerLog(tr + es) == ListenerLog(tr + es') + [];
    } else {
      assert tr + es == tr;
    }
  }

  // ---------------------------------------------------------------------------------------
  // Activation controller

  /** activateAddon: nothing happens when an instance of that name is loaded already or the loader
      has no class for it; otherwise the class is instantiated and, unless the constructor raises,
      the one new instance is appended to plugins, entered in pluginMap and its coreReady is
      handed to a new thread. Returns whether an exception escaped. */
  function ActivateName(s: State, env: Env, n: string): (r: (State, bool))
    ensures r.0.events == s.events && r.0.methods == s.methods
    ensures QuietlyExtends(r.0.trace, s.trace)
    ensures n in Names(s.plugins) || env.load(n).None? ==> r == (s, false)
    ensures n !in Names(s.plugins) && env.load(n).Some? && env.raises(Init(n), []) ==>
      r.1 && r.0.plugins == s.plugins && r.0.pluginMap == s.pluginMap
    ensures n !in Names(s.plugins) && env.load(n).Some? && !env.raises(Init(n), []) ==>
      var a := Addon(n, env.load(n).value);
      && !r.1
      && r.0.plugins == s.plugins + [a]
      && r.0.pluginMap == s.pluginMap[n := a]
      && |r.0.trace| > 0
      && r.0.trace[|r.0.trace| - 1] == Submitted(HookCall(n, CoreReady), [])
    ensures Inv(s) ==> Inv(r.0)
  {
    if n in Names(s.plugins) then (s, false)
    else match env.load(n)
      case None => (s, false)
      case Some(c) =>
        if env.raises(Init(n), []) then
          var t := s.trace + [Ran(Init(n), [], true)];
          assert t[|s.trace|..] == [Ran(Init(n), [], true)];
          (s.(trace := t), true)
        else
          var a := Addon(n, c);
          var t := s.trace + [Ran(Init(n), [], false), Submitted(HookCall(n, CoreReady), [])];
          assert t[|s.trace|..] == [Ran(Init(n), [], false), Submitted(HookCall(n, CoreReady), [])];
          NamesAppend(s.plugins, a);
          (s.(plugins := s.plugins + [a], pluginMap := s.pluginMap[n := a], trace := t), false)
  }

  /** The position of the last instance named n: deactivateAddon's loop has no break, so the
      last match is the one it keeps. */
  function LastMatch(ps: seq<Addon>, n: string): (r: Option<nat>)
    ensures r.None? <==> n !in Names(ps)
    ensures r.Some? ==>
      && r.value < |ps|
      && ps[r.value].name == n
      && forall j :: r.value < j < |ps| ==> ps[j].name != n
  {
    if ps == [] then None
    else
      var q := ps[..|ps| - 1];
      NamesAppend(q, ps[|ps| - 1]);
      assert q + [ps[|ps| - 1]] == ps;
      if ps[|ps| - 1].name == n then Some(|ps| - 1) else LastMatch(q, n)
  }

  /** deactivateAddon: nothing happens when no instance has that name; otherwise the instance's
      unload() runs and, unless it raises, its periodic job is removed from the scheduler, the
      instance is removed from plugins (list.remove) and its name from pluginMap. */
  function DeactivateName(s: State, env: Env, n: string): (r: (State, bool))
    ensures r.0.events == s.events && r.0.methods == s.methods
    ensures QuietlyExtends(r.0.trace, s.trace)
    ensures n !in Names(s.plugins) ==> r == (s, false)
    ensures Inv(s) ==> Inv(r.0)
  {
    match LastMatch(s.plugins, n)
    case None => (s, false)
    case Some(i) =>
      var a := s.plugins[i];
      if env.raises(Unload(n), []) then
        var t := s.trace + [Ran(Unload(n), [], true)];
        assert t[|s.trace|..] == [Ran(Unload(n), [], true)];
        (s.(trace := t), true)
      else
        var t := s.trace + [Ran(Unload(n), [], false), JobRemoved(n)];
        assert t[|s.trace|..] == [Ran(Unload(n), [], false), JobRemoved(n)];
        var r := s.(plugins := RemoveFirst(s.plugins, a), pluginMap := s.pluginMap - {a.name}, trace := t);
        assert Inv(s) ==> Inv(r) by {
          if Inv(s) {
            DeactivateRemoves(s, i);
          }
        }
        (r, false)
  }

  /** With unique names, list.remove of the i-th instance is the list without position i. */
  lemma DeactivateRemoves(s: State, i: nat)
    requires Inv(s) && i < |s.plugins|
    ensures RemoveFirst(s.plugins, s.plugins[i]) == s.plugins[..i] + s.plugins[i + 1..]
    ensures Inv(s.(plugins := s.plugins[..i] + s.plugins[i + 1..], pluginMap := s.pluginMap - {s.plugins[i].name}))
  {
    RemoveUnique(s.plugins, i);
    var ps := s.plugins;
    NamesSplice(ps, i);
    var qs := ps[..i] + ps[i + 1..];
    var m := s.pluginMap - {ps[i].name};
    assert m.Keys == Names(qs);
    forall k | 0 <= k < |qs| ensures qs[k].name in m && m[qs[k].name] == qs[k] {
      var k' := if k < i then k else k + 1;
      assert qs[k] == ps[k'];
    }
  }

  lemma RemoveUnique(ps: seq<Addon>, i: nat)
    requires UniqueNames(ps) && i < |ps|
    ensures RemoveFirst(ps, ps[i]) == ps[..i] + ps[i + 1..]
  {
    var k := IndexOf(ps, ps[i]);
    assert ps[k].name == ps[i].name;
    assert k == i;
    RemoveFirstSplices(ps, ps[i]);
  }

  /** deactivateAddon on a consistent state, for the instance at position i named n. */
  lemma DeactivateSpec(s: State, env: Env, i: nat)
    requires Inv(s) && i < |s.plugins|
    ensures var n := s.plugins[i].name;
      var r := DeactivateName(s, env, n);
      && (env.raises(Unload(n), []) ==> r.1 && r.0.plugins == s.plugins && r.0.pluginMap == s.pluginMap)
      && (!env.raises(Unload(n), []) ==>
            && !r.1
            && r.0.plugins == s.plugins[..i] + s.plugins[i + 1..]
            && r.0.pluginMap == s.pluginMap - {n}
            && n !in Names(r.0.plugins)
            && r.0.trace == s.trace + [Ran(Unload(n), [], false), JobRemoved(n)])
  {
    var n := s.plugins[i].name;
    var m := LastMatch(s.plugins, n);
    assert m == Some(i);
    DeactivateRemoves(s, i);
    NamesSplice(s.plugins, i);
  }

  /** Deactivating an addon that was just activated restores plugins and pluginMap; the trace
      shows the constructor, the submitted coreReady, unload() and the removal of the job. */
  lemma ActivateThenDeactivate(s: State, env: Env, n: string)
    requires Inv(s) && n !in Names(s.plugins) && env.load(n).Some?
    requires !env.raises(Init(n), []) && !env.raises(Unload(n), [])
    ensures var s1 := ActivateName(s, env, n).0;
      var r := DeactivateName(s1, env, n);
      && !r.1
      && r.0.plugins == s.plugins
      && r.0.pluginMap == s.pluginMap
      && r.0.events == s.events && r.0.methods == s.methods
      && r.0.trace == s.trace + [Ran(Init(n), [], false), Submitted(HookCall(n, CoreReady), []),
                                 Ran(Unload(n), [], false), JobRemoved(n)]
  {
    var a := Addon(n, env.load(n).value);
    var s1 := ActivateAppends(s, env, n);
    DeactivateSpec(s1, env, |s.plugins|);
    DropLast(s.plugins, a);
    UpdateThenRemove(s.pluginMap, n, a);
    AppendAssoc(s.trace, [Ran(Init(n), [], false), Submitted(HookCall(n, CoreReady), [])],
                [Ran(Unload(n), [], false), JobRemoved(n)]);
  }

  lemma DropLast(ps: seq<Addon>, a: Addon)
    ensures (ps + [a])[..|ps|] + (ps + [a])[|ps| + 1..] == ps
  {
    assert (ps + [a])[..|ps|] == ps;
  }

  lemma UpdateThenRemove(m: map<string, Addon>, k: string, v: Addon)
    requires k !in m
    ensures m[k := v] - {k} == m
  {
  }

  /** A successful activation appends the instance, maps its name and records two entries. */
  lemma ActivateAppends(s: State, env: Env, n: string) returns (s1: State)
    requires Inv(s) && n !in Names(s.plugins) && env.load(n).Some? && !env.raises(Init(n), [])
    ensures var a := Addon(n, env.load(n).value);
      && s1 == ActivateName(s, env, n).0
      && Inv(s1)
      && s1.plugins == s.plugins + [a]
      && s1.plugins[|s.plugins|] == a
      && s1.pluginMap == s.pluginMap[n := a]
      && n !in s.pluginMap
      && s1.events == s.events && s1.methods == s.methods
      && s1.trace == s.trace + [Ran(Init(n), [], false), Submitted(HookCall(n, CoreReady), [])]
  {
    s1 := ActivateName(s, env, n).0;
  }

  /** Once activateAddon has returned normally, a second call for the same name does nothing. */
  lemma ActivateIdempotent(s: State, env: Env, n: string)
    ensures var r := ActivateName(s, env, n);
      !r.1 ==> ActivateName(r.0, env, n) == (r.0, false)
  {
    var r := ActivateName(s, env, n);
    if n !in Names(s.plugins) && env.load(n).Some? && !env.raises(Init(n), []) {
      NamesAppend(s.plugins, Addon(n, env.load(n).value));
    }
  }

  /** On a consistent state, once deactivateAddon has returned normally no instance has that
      name, so a second call does nothing. */
  lemma DeactivateIdempotent(s: State, env: Env, n: string)
    requires Inv(s)
    ensures var r := DeactivateName(s, env, n);
      !r.1 ==> DeactivateName(r.0, env, n) == (r.0, false)
  {
    var m := LastMatch(s.plugins, n);
    if m.Some? {
      DeactivateSpec(s, env, m.value);
    }
  }

  /** The routing of manageAddons. */
  datatype Action = Activate | Deactivate | Ignore

  /** manageAddons acts only on the setting "activated": a truthy value activates, a falsy one
      deactivates, any other setting is ignored. */
  function Route(name: Value, value: Value): (r: Action)
    ensures r == Ignore <==> name != VStr("activated")
    ensures r == Activate <==> name == VStr("activated") && Truthy(value)
    ensures r == Deactivate <==> name == VStr("activated") && !Truthy(value)
  {
    if name == VStr("activated") && Truthy(value) then Activate
    else if name == VStr("activated") && !Truthy(value) then Deactivate
    else Ignore
  }

  /** manageAddons(plugin, name, value). A plugin argument that is not a string matches no loaded
      instance and no class of the loader. */
  function ManageAddonsStep(s: State, env: Env, plugin: Value, name: Value, value: Value): (r: (State, bool))
    ensures r.0.events == s.events && r.0.methods == s.methods
    ensures QuietlyExtends(r.0.trace, s.trace)
    ensures Route(name, value) == Ignore || !plugin.VStr? ==> r == (s, false)
    ensures plugin.VStr? && Route(name, value) == Activate ==> r == ActivateName(s, env, plugin.s)
    ensures plugin.VStr? && Route(name, value) == Deactivate ==> r == DeactivateName(s, env, plugin.s)
    ensures Inv(s) ==> Inv(r.0)
  {
    match (Route(name, value), plugin)
    case (Activate, VStr(p)) => ActivateName(s, env, p)
    case (Deactivate, VStr(p)) => DeactivateName(s, env, p)
    case _ => (s, false)
  }

  // ---------------------------------------------------------------------------------------
  // Event delivery

  /** One call f(*args) inside dispatchEvent's guard. A handler's call is recorded with whether
      it raised. The manager's own manageAddons takes exactly three arguments (anything else is a
      TypeError); its effects come first, then the record of the call. */
  function CallListener(s: State, env: Env, f: Listener, args: seq<Value>): (r: State)
    ensures r.events == s.events && r.methods == s.methods
    ensures f.Handler? ==> r == s.(trace := s.trace + [Ran(ListenerCall(f), args, env.raises(ListenerCall(f), args))])
    ensures f.ManageAddons? && |args| != 3 ==> r == s.(trace := s.trace + [Ran(ListenerCall(f), args, true)])
    ensures f.ManageAddons? && |args| == 3 ==>
      var m := ManageAddonsStep(s, env, args[0], args[1], args[2]);
      r == m.0.(trace := m.0.trace + [Ran(ListenerCall(f), args, m.1)])
    ensures |s.trace| < |r.trace| && r.trace[..|s.trace|] == s.trace
    ensures Inv(s) ==> Inv(r)
  {
    match f
    case Handler(_) =>
      s.(trace := s.trace + [Ran(ListenerCall(f), args, env.raises(ListenerCall(f), args))])
    case ManageAddons =>
      if |args| != 3 then
        s.(trace := s.trace + [Ran(ListenerCall(f), args, true)])
      else
        var (s1, raised) := ManageAddonsStep(s, env, args[0], args[1], args[2]);
        s1.(trace := s1.trace + [Ran(ListenerCall(f), args, raised)])
  }

  /** A listener call adds exactly one listener record to the trace: its own, with its arguments.
      The activation work a reentrant manageAddons does in between records no listener call. */
  lemma CallListenerLog(s: State, env: Env, f: Listener, args: seq<Value>)
    ensures ListenerLog(CallListener(s, env, f, args).trace) == ListenerLog(s.trace) + [(f, args)]
  {
    var r := CallListener(s, env, f, args);
    var t0 := r.trace[..|r.trace| - 1];
    assert r.trace[|r.trace| - 1] == Ran(ListenerCall(f), args, r.trace[|r.trace| - 1].raised);
    assert ListenerLog(r.trace) == ListenerLog(t0) + [(f, args)];
    if f.ManageAddons? && |args| == 3 {
      var m := ManageAddonsStep(s, env, args[0], args[1], args[2]);
      assert t0 == m.0.trace;
      assert m.0.trace == s.trace + m.0.trace[|s.trace|..];
      QuietLog(s.trace, m.0.trace[|s.trace|..]);
    } else {
      assert t0 == s.trace;
    }
  }

  /** The calls made for one listener list, in list order. */
  function DispatchList(s: State, env: Env, fs: seq<Listener>, args: seq<Value>): (r: State)
    ensures r.events == s.events && r.methods == s.methods
    ensures |s.trace| <= |r.trace| && r.trace[..|s.trace|] == s.trace
    ensures Inv(s) ==> Inv(r)
    decreases |fs|
  {
    if fs == [] then s
    else
      var s1 := CallListener(s, env, fs[0], args);
      DispatchList(s1, env, fs[1..], args)
  }

  /** Each listener paired with the arguments it is called with. */
  function Deliveries(fs: seq<Listener>, args: seq<Value>): (r: seq<(Listener, seq<Value>)>)
    ensures |r| == |fs| && forall j :: 0 <= j < |fs| ==> r[j] == (fs[j], args)
  {
    if fs == [] then [] else [(fs[0], args)] + Deliveries(fs[1..], args)
  }

  /** The listener calls recorded for a list are exactly one per listener, in list order. */
  lemma {:induction false} DispatchListLog(s: State, env: Env, fs: seq<Listener>, args: seq<Value>)
    ensures ListenerLog(DispatchList(s, env, fs, args).trace) == ListenerLog(s.trace) + Deliveries(fs, args)
    decreases |fs|
  {
    if fs == [] {
      assert ListenerLog(s.trace) + [] == ListenerLog(s.trace);
    } else {
      var s1 := CallListener(s, env, fs[0], args);
      CallListenerLog(s, env, fs[0], args);
      DispatchListLog(s1, env, fs[1..], args);
      var rest := Deliveries(fs[1..], args);
      assert Deliveries(fs, args) == [(fs[0], args)] + rest;
      AppendAssoc(ListenerLog(s.trace), [(fs[0], args)], rest);
    }
  }

  /** dispatchEvent: nothing for an unregistered event; otherwise the listeners of the event are
      called in list order, with the same arguments, whatever the earlier ones did. */
  function Dispatch(s: State, env: Env, e: string, args: seq<Value>): (r: State)
    ensures e !in s.events ==> r == s
    ensures e in s.events ==> r == DispatchList(s, env, s.events[e], args)
    ensures r.events == s.events && r.methods == s.methods
    ensures |s.trace| <= |r.trace| && r.trace[..|s.trace|] == s.trace
    ensures Inv(s) ==> Inv(r)
  {
    if e in s.events then DispatchList(s, env, s.events[e], args) else s
  }

  /** dispatchEvent calls every listener registered for the event exactly once, in registration
      order, with the event's arguments, and calls nothing else that listens. */
  lemma DispatchDelivers(s: State, env: Env, e: string, args: seq<Value>)
    ensures ListenerLog(Dispatch(s, env, e, args).trace)
      == ListenerLog(s.trace) + Deliveries(if e in s.events then s.events[e] else [], args)
  {
    if e in s.events {
      DispatchListLog(s, env, s.events[e], args);
    } else {
      assert ListenerLog(s.trace) + [] == ListenerLog(s.trace);
    }
  }

  /** With manageAddons the one listener of pluginConfigChanged, as __init__ leaves it, the event
      for a change of an addon's "activated" setting loads or unloads that addon. */
  lemma ConfigChangeRoutes(s: State, env: Env, n: string, v: Value)
    requires Inv(s) && "pluginConfigChanged" in s.events && s.events["pluginConfigChanged"] == [ManageAddons]
    ensures var r := Dispatch(s, env, "pluginConfigChanged", [VStr(n), VStr("activated"), v]);
      && (Truthy(v) ==> r.plugins == ActivateName(s, env, n).0.plugins && r.pluginMap == ActivateName(s, env, n).0.pluginMap)
      && (!Truthy(v) ==> r.plugins == DeactivateName(s, env, n).0.plugins && r.pluginMap == DeactivateName(s, env, n).0.pluginMap)
      && (Truthy(v) && n !in Names(s.plugins) && env.load(n).Some? && !env.raises(Init(n), []) ==>
            var a := Addon(n, env.load(n).value);
            r.plugins == s.plugins + [a] && r.pluginMap == s.pluginMap[n := a])
      && (!Truthy(v) && !env.raises(Unload(n), []) ==>
            n !in Names(r.plugins) && r.pluginMap == s.pluginMap - {n}
            && forall i :: 0 <= i < |s.plugins| && s.plugins[i].name == n ==> r.plugins == s.plugins[..i] + s.plugins[i + 1..])
  {
    var args := [VStr(n), VStr("activated"), v];
    assert [ManageAddons][1..] == [];
    assert Dispatch(s, env, "pluginConfigChanged", args) == CallListener(s, env, ManageAddons, args);
    if !Truthy(v) {
      var m := LastMatch(s.plugins, n);
      if m.Some? {
        DeactivateSpec(s, env, m.value);
      }
    }
  }

  /** The records of calls to handlers that change no manager state. */
  function HandlerRuns(env: Env, fs: seq<Listener>, args: seq<Value>): (r: seq<Entry>)
    ensures |r| == |fs|
    ensures forall j :: 0 <= j < |fs| ==> r[j] == Ran(ListenerCall(fs[j]), args, env.raises(ListenerCall(fs[j]), args))
  {
    if fs == [] then [] else [Ran(ListenerCall(fs[0]), args, env.raises(ListenerCall(fs[0]), args))] + HandlerRuns(env, fs[1..], args)
  }

  /** Delivery to a list that starts with a handler: its record, then the rest of the list. */
  lemma DispatchHandler(s: State, env: Env, fs: seq<Listener>, args: seq<Value>)
    requires fs != [] && fs[0].Handler?
    ensures DispatchList(s, env, fs, args)
      == DispatchList(s.(trace := s.trace + [Ran(ListenerCall(fs[0]), args, env.raises(ListenerCall(fs[0]), args))]), env, fs[1..], args)
  {
  }

  /** When no listener is manageAddons, delivery only appends one record per listener, in order:
      a listener that raises does not keep the later ones from being called. */
  lemma {:induction false} DispatchHandlers(s: State, env: Env, fs: seq<Listener>, args: seq<Value>)
    requires forall j :: 0 <= j < |fs| ==> fs[j].Handler?
    ensures DispatchList(s, env, fs, args) == s.(trace := s.trace + HandlerRuns(env, fs, args))
    decreases |fs|
  {
    if fs == [] {
      assert s.trace + [] == s.trace;
    } else {
      var e := Ran(ListenerCall(fs[0]), args, env.raises(ListenerCall(fs[0]), args));
      var s1 := s.(trace := s.trace + [e]);
      var rest := HandlerRuns(env, fs[1..], args);
      DispatchHandler(s, env, fs, args);
      assert forall j :: 0 <= j < |fs[1..]| ==> fs[1..][j] == fs[j + 1];
      DispatchHandlers(s1, env, fs[1..], args);
      assert DispatchList(s, env, fs, args) == s1.(trace := s1.trace + rest);
      assert HandlerRuns(env, fs, args) == [e] + rest;
      AppendAssoc(s.trace, [e], rest);
    }
  }

  // ---------------------------------------------------------------------------------------
  // Start-up index

  /** One round of createIndex's loop. The plugins field stands for the local list the loop
      builds; pluginMap is updated as it goes. A constructor that raises is logged and skipped. */
  function IndexStep(s: State, env: Env, activated: string -> bool, n: string): (r: State)
    ensures r.events == s.events && r.methods == s.methods
    ensures QuietlyExtends(r.trace, s.trace)
    ensures !activated(n) || env.load(n).None? ==> r == s
    ensures activated(n) && env.load(n).Some? && env.raises(Init(n), []) ==>
      r.plugins == s.plugins && r.pluginMap == s.pluginMap
    ensures activated(n) && env.load(n).Some? && !env.raises(Init(n), []) ==>
      var a := Addon(n, env.load(n).value);
      r.plugins == s.plugins + [a] && r.pluginMap == s.pluginMap[n := a]
  {
    if !activated(n) then s
    else match env.load(n)
      case None => s
      case Some(c) =>
        if env.raises(Init(n), []) then
          var t := s.trace + [Ran(Init(n), [], true)];
          assert t[|s.trace|..] == [Ran(Init(n), [], true)];
          s.(trace := t)
        else
          var a := Addon(n, c);
          var t := s.trace + [Ran(Init(n), [], false)];
          assert t[|s.trace|..] == [Ran(Init(n), [], false)];
          s.(plugins := s.plugins + [a], pluginMap := s.pluginMap[n := a], trace := t)
  }

  /** The loop over the remaining names: it only appends to the list it builds. */
  function IndexFrom(s: State, env: Env, activated: string -> bool, names: seq<string>): (r: State)
    ensures r.events == s.events && r.methods == s.methods
    ensures |s.plugins| <= |r.plugins| && r.plugins[..|s.plugins|] == s.plugins
    decreases |names|
  {
    if names == [] then s else IndexFrom(IndexStep(s, env, activated, names[0]), env, activated, names[1..])
  }

  /** createIndex: the loop over the addon names, then plugins := the list it built. */
  function CreateIndex(s: State, env: Env, activated: string -> bool, names: seq<string>): (r: State)
    ensures r.plugins == Loadable(env, activated, names)
    ensures r.events == s.events && r.methods == s.methods
  {
    IndexFromPlugins(s.(plugins := []), env, activated, names);
    IndexFrom(s.(plugins := []), env, activated, names)
  }

  /** The instances createIndex keeps: one per name whose setting says activated, whose class the
      loader finds and whose constructor does not raise, in the order of the names. */
  function Loadable(env: Env, activated: string -> bool, names: seq<string>): seq<Addon>
    decreases |names|
  {
    if names == [] then []
    else
      var n := names[0];
      (if activated(n) && env.load(n).Some? && !env.raises(Init(n), []) then [Addon(n, env.load(n).value)] else [])
      + Loadable(env, activated, names[1..])
  }

  lemma {:induction false} LoadableNames(env: Env, activated: string -> bool, names: seq<string>)
    ensures forall a :: a in Loadable(env, activated, names) ==> a.name in names
    decreases |names|
  {
    if names != [] {
      LoadableNames(env, activated, names[1..]);
    }
  }

  lemma {:induction false} IndexFromPlugins(s: State, env: Env, activated: string -> bool, names: seq<string>)
    ensures IndexFrom(s, env, activated, names).plugins == s.plugins + Loadable(env, activated, names)
    decreases |names|
  {
    if names == [] {
      assert s.plugins + [] == s.plugins;
    } else {
      var n := names[0];
      var s1 := IndexStep(s, env, activated, n);
      var x := if activated(n) && env.load(n).Some? && !env.raises(Init(n), []) then [Addon(n, env.load(n).value)] else [];
      assert s1.plugins == s.plugins + x;
      IndexFromPlugins(s1, env, activated, names[1..]);
      assert Loadable(env, activated, names) == x + Loadable(env, activated, names[1..]);
      AppendAssoc(s.plugins, x, Loadable(env, activated, names[1..]));
    }
  }

  lemma IndexStepInv(s: State, env: Env, activated: string -> bool, n: string)
    requires Inv(s) && n !in Names(s.plugins)
    ensures var r := IndexStep(s, env, activated, n);
      Names(r.plugins) <= Names(s.plugins) + {n} && Inv(r)
  {
    if activated(n) && env.load(n).Some? && !env.raises(Init(n), []) {
      NamesAppend(s.plugins, Addon(n, env.load(n).value));
    }
  }

  lemma {:induction false} IndexFromInv(s: State, env: Env, activated: string -> bool, names: seq<string>)
    requires Inv(s) && NoDup(names)
    requires forall k :: 0 <= k < |names| ==> names[k] !in Names(s.plugins)
    ensures Inv(IndexFrom(s, env, activated, names))
    decreases |names|
  {
    if names != [] {
      var n := names[0];
      var s1 := IndexStep(s, env, activated, n);
      IndexStepInv(s, env, activated, n);
      var rest := names[1..];
      assert NoDup(rest) by {
        forall a, b | 0 <= a < b < |rest| ensures rest[a] != rest[b] {
          assert rest[a] == names[a + 1] && rest[b] == names[b + 1];
        }
      }
      forall k | 0 <= k < |rest| ensures rest[k] !in Names(s1.plugins) {
        assert rest[k] == names[k + 1] && names[k + 1] != names[0];
      }
      IndexFromInv(s1, env, activated, rest);
    }
  }

  /** The index built at start-up from an empty pluginMap holds exactly the loadable addons, in
      the order of the names, and is consistent. */
  lemma CreateIndexSpec(s: State, env: Env, activated: string -> bool, names: seq<string>)
    requires NoDup(names) && s.pluginMap == map[]
    requires forall e :: e in s.events ==> NoDup(s.events[e])
    ensures var r := CreateIndex(s, env, activated, names);
      && r.plugins == Loadable(env, activated, names)
      && r.pluginMap.Keys == Names(r.plugins)
      && r.events == s.events && r.methods == s.methods
      && Inv(r)
  {
    IndexFromPlugins(s.(plugins := []), env, activated, names);
    IndexFromInv(s.(plugins := []), env, activated, names);
  }
}
