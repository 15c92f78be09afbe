/** The AddonManager object itself: its lists and dictionaries are fields that its methods update
    in place, and every method is proved to have exactly the effect that the Registry and Hooks
    functions give it on a snapshot of those fields. */
module Manager {
  import opened Addons
  import opened Lists
  import Rpc
  import opened Registry
  import opened Hooks

  class AddonManager {
    /** The loader, the outcome of calls into addons and listeners, and literal_eval. */
    const env: Env
    var plugins: seq<Addon>
    var pluginMap: map<string, Addon>
    var methods: map<string, map<string, string>>
    var events: map<string, seq<Listener>>
    /** The calls the manager has made outward, in order. */
    var trace: seq<Entry>

    function Snapshot(): State
      reads this
    {
      State(plugins, pluginMap, methods, events, trace)
    }

    ghost predicate Valid()
      reads this
    {
      Inv(Snapshot())
    }

    /** __init__: empty tables, manageAddons registered for pluginConfigChanged, then the index
        of the addon names the plugin manager knows, with `activated` as each one's
        "activated" setting. */
    constructor (env: Env, addonPlugins: seq<string>, activated: string -> bool)
      requires NoDup(addonPlugins)
      ensures Valid()
      ensures this.env == env
      ensures plugins == Loadable(env, activated, addonPlugins)
      ensures methods == map[]
      ensures events == map["pluginConfigChanged" := [Listener.ManageAddons]]
      ensures Snapshot() ==
        Registry.CreateIndex(State([], map[], map[], map["pluginConfigChanged" := [Listener.ManageAddons]], []), env, activated, addonPlugins)
    {
      this.env := env;
      plugins := [];
      pluginMap := map[];
      methods := map[];
      events := map[];
      trace := [];
      new;
      AddEvent("pluginConfigChanged", Listener.ManageAddons);
      ghost var s0 := Snapshot();
      CreateIndex(addonPlugins, activated);
      CreateIndexSpec(s0, env, activated, addonPlugins);
    }

    // -------------------------------------------------------------------------------------
    // Event bus

    method AddEvent(e: string, f: Listener)
      requires Valid()
      modifies this
      ensures Valid()
      ensures Snapshot() == old(Snapshot()).(events := Registry.AddEvent(old(events), e, f))
    {
      if e in events {
        if f !in events[e] {
          events := events[e := events[e] + [f]];
        }
      } else {
        events := events[e := [f]];
      }
    }

    method RemoveEvent(e: string, f: Listener)
      requires Valid()
      modifies this
      ensures Valid()
      ensures Snapshot() == old(Snapshot()).(events := Registry.RemoveEvent(old(events), e, f))
    {
      if e in events {
        if f in events[e] {
          events := events[e := RemoveFirst(events[e], f)];
          assert events == Registry.RemoveEvent(old(events), e, f);
        }
      }
    }

    /** The call f(*args) of one listener, whose exception dispatchEvent catches and logs. */
    method CallListener(f: Listener, args: seq<Value>)
      requires Valid()
      modifies this
      ensures Valid()
      ensures Snapshot() == Registry.CallListener(old(Snapshot()), env, f, args)
    {
      if f.Handler? {
        trace := trace + [Ran(ListenerCall(f), args, env.raises(ListenerCall(f), args))];
      } else if |args| != 3 {
        trace := trace + [Ran(ListenerCall(f), args, true)];
      } else {
        var raised := ManageAddons(args[0], args[1], args[2]);
        trace := trace + [Ran(ListenerCall(f), args, raised)];
      }
    }

    method DispatchEvent(e: string, args: seq<Value>)
      requires Valid()
      modifies this
      ensures Valid()
      ensures Snapshot() == Dispatch(old(Snapshot()), env, e, args)
    {
      if e in events {
        var fs := events[e];
        var i := 0;
        while i < |fs|
          invariant 0 <= i <= |fs|
          invariant Valid()
          invariant DispatchList(Snapshot(), env, fs[i..], args) == Dispatch(old(Snapshot()), env, e, args)
        {
          assert fs[i..][1..] == fs[i + 1..];
          CallListener(fs[i], args);
          i := i + 1;
        }
      }
    }

    // -------------------------------------------------------------------------------------
    // RPC

    method AddRpc(plugin: string, func: string, doc: Option<string>)
      requires Valid()
      modifies this
      ensures Valid()
      ensures Snapshot() == old(Snapshot()).(methods := Rpc.Register(old(methods), plugin, func, doc))
    {
      var p := Rpc.ShortName(plugin);
      var d := if doc.Some? && doc.value != [] then Rpc.Strip(doc.value) else "";
      assert d == Rpc.Description(doc);
      if p in methods {
        methods := methods[p := methods[p][func := d]];
      } else {
        methods := methods[p := map[func := d]];
      }
      assert methods == Rpc.Put(old(methods), p, func, d);
      assert Snapshot() == old(Snapshot()).(methods := methods);
    }

    /** callRPC up to the call itself: the arguments are prepared first, so a literal that does
        not parse is reported before the plugin is looked up in pluginMap; then the method is
        looked up on the instance by name. */
    function CallRpc(plugin: string, func: string, args: Option<seq<string>>, parse: bool)
      : (r: Result<Rpc.Invocation, Rpc.RpcError>)
      reads this
      ensures var pa := Rpc.PrepareArgs(args, parse, env.literalEval);
        && (r.Err? && r.error.MalformedArgument? <==> pa.Err?)
        && (pa.Err? ==> r == Err(Rpc.MalformedArgument(pa.error)))
        && (r == Err(Rpc.UnknownPlugin) <==> pa.Ok? && plugin !in pluginMap)
        && (r == Err(Rpc.UnknownMethod) <==> pa.Ok? && plugin in pluginMap && func !in pluginMap[plugin].kind.attrs)
        && (r.Ok? <==> pa.Ok? && plugin in pluginMap && func in pluginMap[plugin].kind.attrs)
        && (r.Ok? ==> r.value == Rpc.Invocation(pluginMap[plugin], func, pa.value))
    {
      match Rpc.PrepareArgs(args, parse, env.literalEval)
      case Err(k) => Err(Rpc.MalformedArgument(k))
      case Ok(vs) =>
        if plugin !in pluginMap then Err(Rpc.UnknownPlugin)
        else if func !in pluginMap[plugin].kind.attrs then Err(Rpc.UnknownMethod)
        else Ok(Rpc.Invocation(pluginMap[plugin], func, vs))
    }

    // -------------------------------------------------------------------------------------
    // Index and activation

    method CreateIndex(names: seq<string>, activated: string -> bool)
      modifies this
      ensures Snapshot() == Registry.CreateIndex(old(Snapshot()), env, activated, names)
    {
      var ps: seq<Addon> := [];
      var i := 0;
      while i < |names|
        invariant 0 <= i <= |names|
        invariant IndexFrom(State(ps, pluginMap, methods, events, trace), env, activated, names[i..])
          == Registry.CreateIndex(old(Snapshot()), env, activated, names)
      {
        var n := names[i];
        assert names[i..][1..] == names[i + 1..];
        if activated(n) && env.load(n).Some? {
          if env.raises(Init(n), []) {
            trace := trace + [Ran(Init(n), [], true)];
          } else {
            var a := Addon(n, env.load(n).value);
            trace := trace + [Ran(Init(n), [], false)];
            ps := ps + [a];
            pluginMap := pluginMap[n := a];
          }
        }
        i := i + 1;
      }
      plugins := ps;
    }

    method ActivateAddon(n: string) returns (raised: bool)
      requires Valid()
      modifies this
      ensures Valid()
      ensures (Snapshot(), raised) == ActivateName(old(Snapshot()), env, n)
    {
      raised := false;
      var i := 0;
      while i < |plugins|
        invariant 0 <= i <= |plugins|
        invariant forall j :: 0 <= j < i ==> plugins[j].name != n
      {
        if plugins[i].name == n {
          assert n in Names(plugins);
          assert (Snapshot(), raised) == ActivateName(old(Snapshot()), env, n);
          return;
        }
        i := i + 1;
      }
      assert n !in Names(plugins);
      var c := env.load(n);
      if c.None? {
        assert (Snapshot(), raised) == ActivateName(old(Snapshot()), env, n);
        return;
      }
      if env.raises(Init(n), []) {
        trace := trace + [Ran(Init(n), [], true)];
        raised := true;
        assert (Snapshot(), raised) == ActivateName(old(Snapshot()), env, n);
        return;
      }
      var a := Addon(n, c.value);
      trace := trace + [Ran(Init(n), [], false)];
      plugins := plugins + [a];
      pluginMap := pluginMap[n := a];
      trace := trace + [Submitted(HookCall(n, Hook.CoreReady), [])];
      assert trace == old(trace) + [Ran(Init(n), [], false), Submitted(HookCall(n, Hook.CoreReady), [])];
      assert (Snapshot(), raised) == ActivateName(old(Snapshot()), env, n);
    }

    method DeactivateAddon(n: string) returns (raised: bool)
      requires Valid()
      modifies this
      ensures Valid()
      ensures (Snapshot(), raised) == DeactivateName(old(Snapshot()), env, n)
    {
      raised := false;
      var addon: Option<Addon> := None;
      var i := 0;
      while i < |plugins|
        invariant 0 <= i <= |plugins|
        invariant addon.None? <==> LastMatch(plugins[..i], n).None?
        invariant addon.Some? ==> addon.value == plugins[LastMatch(plugins[..i], n).value]
      {
        assert plugins[..i + 1][..i] == plugins[..i];
        if plugins[i].name == n {
          addon := Some(plugins[i]);
        }
        i := i + 1;
      }
      assert plugins[..i] == plugins;
      if addon.None? {
        return;
      }
      if env.raises(Unload(n), []) {
        trace := trace + [Ran(Unload(n), [], true)];
        raised := true;
        return;
      }
      trace := trace + [Ran(Unload(n), [], false)];
      trace := trace + [JobRemoved(n)];
      plugins := RemoveFirst(plugins, addon.value);
      pluginMap := pluginMap - {addon.value.name};
      assert trace == old(trace) + [Ran(Unload(n), [], false), JobRemoved(n)];
      assert (Snapshot(), raised) == DeactivateName(old(Snapshot()), env, n);
    }

    method ManageAddons(plugin: Value, name: Value, value: Value) returns (raised: bool)
      requires Valid()
      modifies this
      ensures Valid()
      ensures (Snapshot(), raised) == ManageAddonsStep(old(Snapshot()), env, plugin, name, value)
    {
      raised := false;
      if name == VStr("activated") && Truthy(value) {
        if plugin.VStr? {
          raised := ActivateAddon(plugin.s);
        }
      } else if name == VStr("activated") && !Truthy(value) {
        if plugin.VStr? {
          raised := DeactivateAddon(plugin.s);
        }
      }
    }

    // -------------------------------------------------------------------------------------
    // Lifecycle hooks

    /** The loop every hook shares: the addons the policy visits, in list order, each submitted
        or called inline, until a call raises. Returns whether one raised. */
    method VisitAddons(pol: Policy, h: Hook, args: seq<Value>) returns (raised: bool)
      modifies this`trace
      ensures plugins == old(plugins) && pluginMap == old(pluginMap)
      ensures methods == old(methods) && events == old(events)
      ensures trace == old(trace) + Visit(env, pol, h, args, plugins).0
      ensures raised == Visit(env, pol, h, args, plugins).1
    {
      ghost var t0 := trace;
      ghost var v := Visit(env, pol, h, args, plugins);
      raised := false;
      var i := 0;
      while i < |plugins|
        invariant 0 <= i <= |plugins|
        invariant t0 + v.0 == trace + Visit(env, pol, h, args, plugins[i..]).0
        invariant v.1 == Visit(env, pol, h, args, plugins[i..]).1
      {
        var a := plugins[i];
        ghost var rest := Visit(env, pol, h, args, plugins[i + 1..]);
        VisitFrom(env, pol, h, args, plugins, i);
        AppendAssoc(trace, [Step(env, pol, h, args, a)], rest.0);
        if !pol.activeOnly || a.kind.activated {
          if pol.threadable && h in a.kind.threaded {
            trace := trace + [Submitted(HookCall(a.name, pol.callee), args)];
          } else {
            var r := env.raises(HookCall(a.name, h), args);
            trace := trace + [Ran(HookCall(a.name, h), args, r)];
            if r {
              // the exception ends the loop
              raised := true;
              return;
            }
          }
        }
        i := i + 1;
      }
      assert trace + [] == trace;
    }

    /** The body every hook shares: the loop over plugins under the hook's policy, then, unless a
        call raised, the event of the same name. Returns whether an exception reaches the hook's
        caller. */
    method RunHook(h: Hook, args: seq<Value>) returns (escaped: bool)
      requires Valid()
      modifies this
      ensures Valid()
      ensures (Snapshot(), escaped) == Hooks.RunHook(old(Snapshot()), env, h, args)
    {
      var pol := PolicyOf(h);
      var raised := VisitAddons(pol, h, args);
      assert Snapshot() == old(Snapshot()).(trace := old(trace) + Visit(env, pol, h, args, old(plugins)).0);
      if raised {
        escaped := !pol.guarded;
      } else {
        escaped := false;
        DispatchEvent(EventName(h), args);
      }
    }

    /** coreReady, under try_catch. */
    method CoreReady()
      requires Valid()
      modifies this
      ensures Valid()
      ensures Snapshot() == Hooks.RunHook(old(Snapshot()), env, Hook.CoreReady, []).0
    {
      var escaped := RunHook(Hook.CoreReady, []);
    }

    /** coreExiting, under try_catch. */
    method CoreExiting()
      requires Valid()
      modifies this
      ensures Valid()
      ensures Snapshot() == Hooks.RunHook(old(Snapshot()), env, Hook.CoreExiting, []).0
    {
      var escaped := RunHook(Hook.CoreExiting, []);
    }

    /** downloadPreparing(pyfile); an addon's exception reaches the caller. */
    method DownloadPreparing(pyfile: Value) returns (raised: bool)
      requires Valid()
      modifies this
      ensures Valid()
      ensures (Snapshot(), raised) == Hooks.RunHook(old(Snapshot()), env, Hook.DownloadPreparing, [pyfile])
    {
      raised := RunHook(Hook.DownloadPreparing, [pyfile]);
    }

    /** downloadFinished(pyfile); an addon's exception reaches the caller. */
    method DownloadFinished(pyfile: Value) returns (raised: bool)
      requires Valid()
      modifies this
      ensures Valid()
      ensures (Snapshot(), raised) == Hooks.RunHook(old(Snapshot()), env, Hook.DownloadFinished, [pyfile])
    {
      raised := RunHook(Hook.DownloadFinished, [pyfile]);
    }

    /** downloadFailed(pyfile), under try_catch, with its threaded callable corrected. */
    method DownloadFailed(pyfile: Value)
      requires Valid()
      modifies this
      ensures Valid()
      ensures Snapshot() == Hooks.RunHook(old(Snapshot()), env, Hook.DownloadFailed, [pyfile]).0
    {
      var escaped := RunHook(Hook.DownloadFailed, [pyfile]);
    }

    /** packageFinished(package); an addon's exception reaches the caller. */
    method PackageFinished(package: Value) returns (raised: bool)
      requires Valid()
      modifies this
      ensures Valid()
      ensures (Snapshot(), raised) == Hooks.RunHook(old(Snapshot()), env, Hook.PackageFinished, [package])
    {
      raised := RunHook(Hook.PackageFinished, [package]);
    }

    /** beforeReconnecting(ip); an addon's exception reaches the caller. */
    method BeforeReconnecting(ip: Value) returns (raised: bool)
      requires Valid()
      modifies this
      ensures Valid()
      ensures (Snapshot(), raised) == Hooks.RunHook(old(Snapshot()), env, Hook.BeforeReconnecting, [ip])
    {
      raised := RunHook(Hook.BeforeReconnecting, [ip]);
    }

    /** afterReconnecting(ip); an addon's exception reaches the caller. */
    method AfterReconnecting(ip: Value) returns (raised: bool)
      requires Valid()
      modifies this
      ensures Valid()
      ensures (Snapshot(), raised) == Hooks.RunHook(old(Snapshot()), env, Hook.AfterReconnecting, [ip])
    {
      raised := RunHook(Hook.AfterReconnecting, [ip]);
    }

    // -------------------------------------------------------------------------------------
    // Queries

    /** activePlugins: the activated instances, in list order. */
    function ActivePlugins(): (r: seq<Addon>)
      reads this
      ensures r == Active(plugins)
      ensures forall a :: a in r <==> a in plugins && a.kind.activated
    {
      Active(plugins)
    }

    /** getInfo: a copy of the named instance's info with every value as a string; empty when the
        name is not loaded or its info is empty. */
    function GetInfo(n: string): (r: map<string, string>)
      reads this
      ensures n in pluginMap && pluginMap[n].kind.info != map[] ==>
        && r.Keys == pluginMap[n].kind.info.Keys
        && (forall k :: k in r ==> r[k] == ToStr(pluginMap[n].kind.info[k]))
      ensures !(n in pluginMap && pluginMap[n].kind.info != map[]) ==> r == map[]
    {
      if n in pluginMap && pluginMap[n].kind.info != map[] then InfoStrings(pluginMap[n].kind.info) else map[]
    }

    /** getAllInfo: the converted info of every loaded instance whose info is not empty, keyed by
        name; it agrees with getInfo on every name. */
    function GetAllInfo(): (r: map<string, map<string, string>>)
      reads this
      ensures r.Keys == set n | n in pluginMap && pluginMap[n].kind.info != map[]
      ensures forall n :: n in r ==> r[n] == GetInfo(n) && r[n] != map[]
      ensures forall n :: n !in r ==> GetInfo(n) == map[]
    {
      map n | n in pluginMap && pluginMap[n].kind.info != map[] :: InfoStrings(pluginMap[n].kind.info)
    }
  }
}
