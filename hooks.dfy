/** The lifecycle dispatcher: which addons a hook visits, inline or on a thread, what a raising
    addon does to the rest of the call, and the event fired afterwards. */
module Hooks {
  import opened Addons
  import opened Registry

  /** The choices a hook makes: visit only activated addons or every one; look at __threaded__
      (and which method to submit then) or always call inline; run under try_catch or not. */
  datatype Policy = Policy(activeOnly: bool, threadable: bool, callee: Hook, guarded: bool)

  /** The per-hook choices, with the threaded callable of downloadFailed corrected to itself:
      only beforeReconnecting visits inactive addons, only downloadFinished, downloadFailed and
      packageFinished look at __threaded__, only coreReady, coreExiting and downloadFailed run
      under try_catch, and every hook submits its own method. */
  function PolicyOf(h: Hook): (p: Policy)
    ensures p.activeOnly <==> h != BeforeReconnecting
    ensures p.threadable <==> h == DownloadFinished || h == DownloadFailed || h == PackageFinished
    ensures p.guarded <==> h == CoreReady || h == CoreExiting || h == DownloadFailed
    ensures p.callee == h
  {
    match h
    case CoreReady => Policy(true, false, CoreReady, true)
    case CoreExiting => Policy(true, false, CoreExiting, true)
    case DownloadPreparing => Policy(true, false, DownloadPreparing, false)
    case DownloadFinished => Policy(true, true, DownloadFinished, false)
    case DownloadFailed => Policy(true, true, DownloadFailed, true)
    case PackageFinished => Policy(true, true, PackageFinished, false)
    case BeforeReconnecting => Policy(false, false, BeforeReconnecting, false)
    case AfterReconnecting => Policy(true, false, AfterReconnecting, false)
  }

  /** The per-hook choices as the code has them: they differ from the corrected ones only in that
      a threaded downloadFailed submits the addon's downloadFinished. */
  function PolicyAsWritten(h: Hook): (p: Policy)
    ensures p == PolicyOf(h) <==> h != DownloadFailed
    ensures p == PolicyOf(h).(callee := if h == DownloadFailed then DownloadFinished else h)
  {
    if h == DownloadFailed then PolicyOf(h).(callee := DownloadFinished) else PolicyOf(h)
  }

  /** activePlugins: the instances whose isActivated() holds, in list order. */
  function Active(ps: seq<Addon>): (r: seq<Addon>)
    ensures |r| <= |ps|
    ensures forall a :: a in r <==> a in ps && a.kind.activated
  {
    if ps == [] then []
    else
      var r := (if ps[0].kind.activated then [ps[0]] else []) + Active(ps[1..]);
      assert ps == [ps[0]] + ps[1..];
      r
  }

  lemma {:induction false} ActiveAppend(p: seq<Addon>, q: seq<Addon>)
    ensures Active(p + q) == Active(p) + Active(q)
  {
    if p == [] {
      assert p + q == q;
    } else {
      assert (p + q)[1..] == p[1..] + q;
      ActiveAppend(p[1..], q);
    }
  }

  /** After activateAddon loads a new instance, activePlugins lists it last exactly when it is
      activated, after the active instances there were before. */
  lemma ActiveAfterActivate(s: State, env: Env, n: string)
    requires n !in Names(s.plugins) && env.load(n).Some? && !env.raises(Init(n), [])
    ensures var a := Addon(n, env.load(n).value);
      Active(ActivateName(s, env, n).0.plugins) == Active(s.plugins) + (if a.kind.activated then [a] else [])
  {
    var a := Addon(n, env.load(n).value);
    ActiveAppend(s.plugins, [a]);
    assert [a][1..] == [];
  }

  predicate Eligible(pol: Policy, a: Addon) {
    !pol.activeOnly || a.kind.activated
  }

  /** The addons a hook visits. */
  function Eligibles(pol: Policy, ps: seq<Addon>): seq<Addon> {
    if pol.activeOnly then Active(ps) else ps
  }

  /** What a hook does with one addon it visits: submit the policy's callee to a thread when the
      hook looks at __threaded__ and the addon lists it there, otherwise call the hook inline and
      record whether it raised. */
  function Step(env: Env, pol: Policy, h: Hook, args: seq<Value>, a: Addon): (e: Entry)
    ensures e.Submitted? <==> pol.threadable && h in a.kind.threaded
    ensures e.Submitted? ==> e == Submitted(HookCall(a.name, pol.callee), args)
    ensures e.Ran? ==> e == Ran(HookCall(a.name, h), args, env.raises(HookCall(a.name, h), args))
  {
    if pol.threadable && h in a.kind.threaded then Submitted(HookCall(a.name, pol.callee), args)
    else Ran(HookCall(a.name, h), args, env.raises(HookCall(a.name, h), args))
  }

  predicate Failed(e: Entry) {
    e.Ran? && e.raised
  }

  predicate AnyFailed(cs: seq<Entry>) {
    exists j :: 0 <= j < |cs| && Failed(cs[j])
  }

  /** The step for every addon the hook visits, in list order, as if none raised. */
  function Calls(env: Env, pol: Policy, h: Hook, args: seq<Value>, ps: seq<Addon>): (cs: seq<Entry>)
    ensures |cs| == |Eligibles(pol, ps)|
    ensures forall j :: 0 <= j < |cs| ==> cs[j] == Step(env, pol, h, args, Eligibles(pol, ps)[j])
    decreases |ps|
  {
    if ps == [] then []
    else
      var rest := Calls(env, pol, h, args, ps[1..]);
      var cs := (if Eligible(pol, ps[0]) then [Step(env, pol, h, args, ps[0])] else []) + rest;
      assert pol.activeOnly ==> Active(ps) == (if ps[0].kind.activated then [ps[0]] else []) + Active(ps[1..]);
      assert !pol.activeOnly ==> ps == [ps[0]] + ps[1..];
      cs
  }

  lemma CallsCons(env: Env, pol: Policy, h: Hook, args: seq<Value>, ps: seq<Addon>)
    requires ps != []
    ensures Calls(env, pol, h, args, ps)
      == (if Eligible(pol, ps[0]) then [Step(env, pol, h, args, ps[0])] else []) + Calls(env, pol, h, args, ps[1..])
  {
  }

  /** The entries up to and including the first failed call. */
  function UpToFailure(cs: seq<Entry>): (r: seq<Entry>)
    ensures |r| <= |cs| && r == cs[..|r|]
    ensures forall j :: 0 <= j < |r| - 1 ==> !Failed(r[j])
    ensures !AnyFailed(cs) ==> r == cs
    ensures AnyFailed(cs) ==> |r| > 0 && Failed(r[|r| - 1])
  {
    if cs == [] then []
    else if Failed(cs[0]) then [cs[0]]
    else
      var r := [cs[0]] + UpToFailure(cs[1..]);
      assert AnyFailed(cs) ==> AnyFailed(cs[1..]) by {
        if AnyFailed(cs) {
          var j :| 0 <= j < |cs| && Failed(cs[j]);
          assert cs[1..][j - 1] == cs[j];
        }
      }
      assert !AnyFailed(cs) ==> !AnyFailed(cs[1..]) by {
        if AnyFailed(cs[1..]) {
          var j :| 0 <= j < |cs[1..]| && Failed(cs[1..][j]);
          assert cs[j + 1] == cs[1..][j];
        }
      }
      r
  }

  /** The loop of a hook over the plugin list: the entries it adds and whether a call raised,
      which ends the loop. */
  function Visit(env: Env, pol: Policy, h: Hook, args: seq<Value>, ps: seq<Addon>): (r: (seq<Entry>, bool))
    ensures |r.0| <= |ps|
    decreases |ps|
  {
    if ps == [] then ([], false)
    else if !Eligible(pol, ps[0]) then Visit(env, pol, h, args, ps[1..])
    else
      var e := Step(env, pol, h, args, ps[0]);
      if Failed(e) then ([e], true)
      else
        var (es, raised) := Visit(env, pol, h, args, ps[1..]);
        ([e] + es, raised)
  }

  /** Only the last entry of the loop can be a call that raised, and it is one exactly when the
      loop reports that a call raised. */
  lemma VisitStopsAtFailure(env: Env, pol: Policy, h: Hook, args: seq<Value>, ps: seq<Addon>)
    ensures var r := Visit(env, pol, h, args, ps);
      && (r.1 <==> |r.0| > 0 && Failed(r.0[|r.0| - 1]))
      && forall j :: 0 <= j < |r.0| - 1 ==> !Failed(r.0[j])
  {
    VisitSplits(env, pol, h, args, ps);
  }

  /** The loop from position i on: one round for ps[i], then the rest. */
  lemma VisitFrom(env: Env, pol: Policy, h: Hook, args: seq<Value>, ps: seq<Addon>, i: nat)
    requires i < |ps|
    ensures var rest := Visit(env, pol, h, args, ps[i + 1..]);
      var e := Step(env, pol, h, args, ps[i]);
      Visit(env, pol, h, args, ps[i..]) ==
        if !Eligible(pol, ps[i]) then rest
        else if Failed(e) then ([e], true)
        else ([e] + rest.0, rest.1)
  {
    assert ps[i..][1..] == ps[i + 1..];
  }

  lemma AnyFailedCons(e: Entry, cs: seq<Entry>)
    ensures AnyFailed([e] + cs) <==> Failed(e) || AnyFailed(cs)
  {
    var ds := [e] + cs;
    assert ds[0] == e;
    if AnyFailed(cs) {
      var j :| 0 <= j < |cs| && Failed(cs[j]);
      assert ds[j + 1] == cs[j];
    }
    if AnyFailed(ds) && !Failed(e) {
      var j :| 0 <= j < |ds| && Failed(ds[j]);
      assert cs[j - 1] == ds[j];
    }
  }

  /** The loop visits the addons in order and stops at the first call that raises: its entries
      are the planned steps up to that call, and it reports a failure exactly when one raised. */
  lemma {:induction false} VisitSplits(env: Env, pol: Policy, h: Hook, args: seq<Value>, ps: seq<Addon>)
    ensures var cs := Calls(env, pol, h, args, ps);
      Visit(env, pol, h, args, ps) == (UpToFailure(cs), AnyFailed(cs))
    decreases |ps|
  {
    if ps != [] {
      VisitSplits(env, pol, h, args, ps[1..]);
      VisitFrom(env, pol, h, args, ps, 0);
      assert ps[0..] == ps;
      CallsCons(env, pol, h, args, ps);
      var rest := Calls(env, pol, h, args, ps[1..]);
      if Eligible(pol, ps[0]) {
        var e := Step(env, pol, h, args, ps[0]);
        var cs := [e] + rest;
        AnyFailedCons(e, rest);
        assert cs[0] == e && cs[1..] == rest;
      } else {
        assert [] + rest == rest;
      }
    }
  }

  /** A hook with a given policy: the loop over plugins, then, unless a call raised, the event of
      the same name. Returns the new state and whether an exception reaches the caller. */
  function RunHookWith(s: State, env: Env, pol: Policy, h: Hook, args: seq<Value>): (r: (State, bool))
    ensures pol.guarded ==> !r.1
    ensures |s.trace| <= |r.0.trace| && r.0.trace[..|s.trace|] == s.trace
    ensures r.0.events == s.events && r.0.methods == s.methods
    ensures Inv(s) ==> Inv(r.0)
  {
    var (es, raised) := Visit(env, pol, h, args, s.plugins);
    var s1 := s.(trace := s.trace + es);
    assert s1.trace[..|s.trace|] == s.trace;
    if raised then (s1, !pol.guarded) else (Dispatch(s1, env, EventName(h), args), false)
  }

  /** A lifecycle hook as the manager runs it. */
  function RunHook(s: State, env: Env, h: Hook, args: seq<Value>): (r: (State, bool))
    ensures PolicyOf(h).guarded ==> !r.1
    ensures Inv(s) ==> Inv(r.0)
  {
    RunHookWith(s, env, PolicyOf(h), h, args)
  }

  /** When no visited addon raises, every planned step is recorded and the event is fired with the
      hook's arguments; when one raises, the steps up to it are recorded, the rest of the addons
      are skipped, the event is not fired, and the exception reaches the caller unless the hook runs
      under try_catch. */
  lemma RunHookMeaning(s: State, env: Env, pol: Policy, h: Hook, args: seq<Value>)
    ensures var cs := Calls(env, pol, h, args, s.plugins);
      var r := RunHookWith(s, env, pol, h, args);
      && (!AnyFailed(cs) ==> r == (Dispatch(s.(trace := s.trace + cs), env, EventName(h), args), false))
      && (AnyFailed(cs) ==> r == (s.(trace := s.trace + UpToFailure(cs)), !pol.guarded))
  {
    VisitSplits(env, pol, h, args, s.plugins);
  }

  /** Who a hook reaches: beforeReconnecting calls every instance inline; every other hook visits
      the activated instances in list order, and only downloadFinished, downloadFailed and
      packageFinished hand an addon's call to a thread, exactly when the addon lists the hook in
      __threaded__. */
  lemma HookAudience(env: Env, h: Hook, args: seq<Value>, ps: seq<Addon>)
    ensures var cs := Calls(env, PolicyOf(h), h, args, ps);
      && (h == BeforeReconnecting ==>
            && |cs| == |ps|
            && forall j :: 0 <= j < |ps| ==> cs[j] == Ran(HookCall(ps[j].name, h), args, env.raises(HookCall(ps[j].name, h), args)))
      && (h != BeforeReconnecting ==>
            && |cs| == |Active(ps)|
            && forall j :: 0 <= j < |cs| ==> cs[j].target == HookCall(Active(ps)[j].name, h) && cs[j].args == args)
    ensures var cs := Calls(env, PolicyOf(h), h, args, ps);
      forall j :: 0 <= j < |cs| ==>
        (cs[j].Submitted? <==>
          (h == DownloadFinished || h == DownloadFailed || h == PackageFinished) && h in Eligibles(PolicyOf(h), ps)[j].kind.threaded)
  {
  }

  /** As written, downloadFailed submits the addon's downloadFinished: for every activated addon
      that lists downloadFailed in __threaded__, the call handed to the thread is its
      downloadFinished, and no submitted call is a downloadFailed. */
  lemma DownloadFailedAsWritten(env: Env, args: seq<Value>, ps: seq<Addon>)
    ensures var cs := Calls(env, PolicyAsWritten(DownloadFailed), DownloadFailed, args, ps);
      && |cs| == |Active(ps)|
      && forall j :: 0 <= j < |cs| ==>
           (DownloadFailed in Active(ps)[j].kind.threaded <==> cs[j] == Submitted(HookCall(Active(ps)[j].name, DownloadFinished), args))
  {
  }

  /** Corrected, every addon call a hook makes or submits is that hook. */
  lemma HookCallsNameTheirHook(env: Env, h: Hook, args: seq<Value>, ps: seq<Addon>)
    ensures forall e :: e in Calls(env, PolicyOf(h), h, args, ps) ==> e.target.HookCall? && e.target.hook == h
  {
    var pol := PolicyOf(h);
    var cs := Calls(env, pol, h, args, ps);
    forall e | e in cs ensures e.target.HookCall? && e.target.hook == h {
      var j :| 0 <= j < |cs| && cs[j] == e;
      assert e == Step(env, pol, h, args, Eligibles(pol, ps)[j]);
    }
  }
}
