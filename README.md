# pyLoad addon manager — a Dafny model

pyLoad's `AddonManager` sits between the download core and the addon plugins. It keeps the
loaded addon instances (`plugins`, and the name→instance dictionary `pluginMap`). It builds that
index at start-up (`createIndex`) and loads or unloads an addon when its `activated` setting
changes (`manageAddons`, `activateAddon`, `deactivateAddon`). It fans each lifecycle hook
(`coreReady` … `afterReconnecting`) out to the addons, inline or on a thread, and fires an event
of the same name afterwards. It runs a small event bus (`addEvent`, `removeEvent`,
`dispatchEvent`). It also records the RPC methods addons expose (`addRPC`) and prepares RPC calls
(`callRPC`).

The model has six modules:

- `Addons` holds the values the core handles:
  - Python values with truthiness and `str()`;
  - addon classes and instances;
  - event listeners;
  - the trace of outward calls;
  - `Env`, the collaborators the manager cannot see into. These are the plugin loader, whether a
    given call into an addon or listener raises, and `literal_eval`.
- `Lists` models `list.remove`, with `IndexOf` naming the position it drops.
- `Rpc` models the method table and the argument preparation of `callRPC`.
- `Registry` gives the manager's state as a value, `State`, and its consistency invariant `Inv`.
  It defines the effect of every event-bus, activation and indexing operation as a function on
  that state, with the lemmas relating those operations.
- `Hooks` is the lifecycle dispatcher, one function parameterised by a per-hook `Policy`:
  - which addons a hook visits;
  - whether it consults `__threaded__`;
  - whether it runs under `try_catch`.
- `Manager` holds the class `AddonManager`. Its fields are the lists and dictionaries of the
  Python object, and its methods update them with loops, as the Python does. Each method is
  proved to leave `Snapshot()` equal to its specification function in `Registry`, `Hooks` or
  `Rpc` (for `AddRpc`, `Rpc.Register`) applied to the old snapshot. The public methods also
  preserve `Valid()`. `CreateIndex` and `VisitAddons` are used only inside other methods, and
  neither requires nor ensures it. The queries `CallRpc`, `ActivePlugins`, `GetInfo` and
  `GetAllInfo` change nothing and are functions of the class that read its fields.

The `trace` records the hook calls, constructor calls and `unload()` calls the manager makes
into addons, and its calls to listeners. It also records every call handed to a thread and every
periodic job removed. The `isActivated()` calls are not traced: the model reads them as a fixed
flag of the addon's class. A call that raises is marked as
raised, so the contracts can say which calls happen, in which order, and what an exception does
to the rest of the operation.

Points of the code's behaviour that are easy to miss:

- Only `coreReady`, `coreExiting` and `downloadFailed` run under `try_catch`. The other hooks
  have no per-addon isolation: an addon that raises ends the loop, the later addons are skipped,
  the event is not fired, and the exception reaches the caller.
- When `unload()` raises, `deactivateAddon` stops: the instance stays in `plugins` and
  `pluginMap`, and its periodic job is not removed.
- `callRPC` prepares (and parses) the arguments before it looks up the plugin. It finds the method
  with `getattr` on the instance, not through the table `addRPC` fills. So the first error
  reported is a malformed argument, then an unknown plugin, then an unknown attribute.
- The RPC table is never pruned when an addon is deactivated.

## Model

| member | source | states |
|---|---|---|
| `Addons.ToStr` | src/pyload/manager/addon_manager.py:267 | `str()` of a value: a string is kept unchanged; a non-negative integer becomes decimal digits that denote it, with no leading zero except for 0 itself; a negative one becomes '-' followed by the digits of its absolute value, whose first digit is not 0; `True`/`False`/`None` by name |
| `Addons.DigitsRoundTrip` | src/pyload/manager/addon_manager.py:267 | the decimal digits written for a natural number denote that number |
| `Addons.InfoStrings` | src/pyload/manager/addon_manager.py:266-269 | the converted info has the same keys, each value is `str()` of the original, and string values are copied unchanged |
| `Registry.Inv` | src/pyload/manager/addon_manager.py:53-57 | the consistency of the manager's tables: at most one instance per name, pluginMap keyed by exactly the names in plugins and mapping each to its instance, no listener registered twice for one event |
| `Registry.InvIndex` | src/pyload/manager/addon_manager.py:150-151 | in a consistent state, pluginMap maps each name to an instance of that name that is in plugins, and has as many entries as plugins has instances |
| `Lists.IndexOf` | src/pyload/manager/addon_manager.py:298 | the position found holds the element and no earlier position does |
| `Lists.RemoveFirst` | src/pyload/manager/addon_manager.py:298 | of a present element, `list.remove` shortens the list by one. The model's total version also leaves an absent element alone. Python raises ValueError there, and the manager never reaches that case (:297, :173) |
| `Lists.RemoveFirstSplices` | src/pyload/manager/addon_manager.py:298 | `list.remove` keeps the elements before and after the first occurrence, in order |
| `Lists.RemoveFirstAppended` | src/pyload/manager/addon_manager.py:288-298 | `list.remove` of an element just appended to a list without it gives the list back |
| `Lists.RemoveFirstNoDup` | src/pyload/manager/addon_manager.py:298 | on a duplicate-free list, the result is duplicate-free and no longer contains the element |
| `Rpc.ShortName` | src/pyload/manager/addon_manager.py:77 | `rpartition('.')[2]` is the suffix after the last '.', contains no '.', and is the whole name when there is no '.' |
| `Rpc.Strip` | src/pyload/manager/addon_manager.py:78 | `strip()` yields the slice between the leading and trailing whitespace; its ends are not whitespace |
| `Rpc.Description` | src/pyload/manager/addon_manager.py:78 | the stored description is the stripped docstring, or "" when there is none |
| `Rpc.Register` | src/pyload/manager/addon_manager.py:76-83 | addRPC sets the entry (short name, func) to the description; the table gains that plugin's key; every other plugin's entry and every other function of the same plugin are kept |
| `Rpc.ParseAll` | src/pyload/manager/addon_manager.py:89 | either every argument parses, giving one value per argument in order, or the result is the first position that does not parse |
| `Rpc.PrepareArgs` | src/pyload/manager/addon_manager.py:86-89 | missing arguments become the empty tuple; without parse the strings are passed as they are; with parse each is literal-evaluated |
| `Registry.AddEvent` | src/pyload/manager/addon_manager.py:282-290 | addEvent appends the listener unless it is already registered; a new event gets a one-element list; other events are unchanged; lists stay duplicate-free |
| `Registry.RemoveEvent` | src/pyload/manager/addon_manager.py:292-298 | removeEvent drops the first occurrence and keeps the rest in order; an absent event or listener changes nothing; afterwards the listener is not registered for that event |
| `Registry.AddThenRemoveEvent` | src/pyload/manager/addon_manager.py:282-298 | removeEvent undoes an addEvent that added the listener (an event that was new keeps an empty list) |
| `Registry.RemoveAfterAdd` | src/pyload/manager/addon_manager.py:286-298 | removing a listener just appended gives back the event's previous list |
| `Registry.AddEventIdempotent` | src/pyload/manager/addon_manager.py:286-288 | registering the same listener twice is the same as registering it once |
| `Registry.ActivateName` | src/pyload/manager/addon_manager.py:134-153 | activateAddon is a no-op when the name is loaded or the loader has no class; a raising constructor leaves the index alone; otherwise the new instance is appended, mapped by name, and its coreReady is submitted to a thread; the invariant is kept |
| `Registry.LastMatch` | src/pyload/manager/addon_manager.py:157-160 | the scan without break keeps the last instance of that name; none exactly when no instance has it |
| `Registry.DeactivateName` | src/pyload/manager/addon_manager.py:155-174 | deactivateAddon of an absent name is a no-op; events and the RPC table are untouched; the trace gains no listener call; the invariant is kept |
| `Registry.DeactivateRemoves` | src/pyload/manager/addon_manager.py:173-174 | with unique names, `plugins.remove(addon)` removes exactly that position, and removing the name from pluginMap keeps the index consistent |
| `Registry.DeactivateSpec` | src/pyload/manager/addon_manager.py:155-174 | when unload() raises, the instance stays and the exception escapes; otherwise the instance leaves plugins and pluginMap, no instance of that name remains, and the trace records unload() and the job removal |
| `Registry.ActivateThenDeactivate` | src/pyload/manager/addon_manager.py:134-174 | deactivating an addon that was just activated restores plugins and pluginMap exactly |
| `Registry.ActivateAppends` | src/pyload/manager/addon_manager.py:148-153 | a successful activation appends the instance, maps its name, keeps the invariant and records the constructor and the submitted coreReady |
| `Registry.ActivateIdempotent` | src/pyload/manager/addon_manager.py:136-139 | after an activation that returned normally, a second activation of the name does nothing |
| `Registry.DeactivateIdempotent` | src/pyload/manager/addon_manager.py:155-163 | after a deactivation that returned normally, a second one does nothing |
| `Registry.Route` | src/pyload/manager/addon_manager.py:128-132 | manageAddons activates exactly on setting "activated" with a truthy value, deactivates exactly on a falsy one, and ignores every other setting |
| `Registry.ManageAddonsStep` | src/pyload/manager/addon_manager.py:128-132 | manageAddons has the effect of activateAddon / deactivateAddon as routed, and no effect otherwise |
| `Registry.CallListener` | src/pyload/manager/addon_manager.py:306-313 | each listener call is guarded: a handler's call is recorded with whether it raised; manageAddons called with the wrong arity raises a TypeError that is caught; a 3-argument manageAddons call first has the effect of `ManageAddonsStep` and then records the call with whether it raised; the trace only grows and the invariant is kept |
| `Registry.CallListenerLog` | src/pyload/manager/addon_manager.py:306-307 | a listener call adds exactly one listener record, its own with its arguments, even when manageAddons reenters the activation controller |
| `Registry.DispatchList` | src/pyload/manager/addon_manager.py:305-313 | delivery to a list changes neither events nor the RPC table, only extends the trace, and keeps the invariant |
| `Registry.DispatchListLog` | src/pyload/manager/addon_manager.py:305-313 | the listener calls recorded are exactly one per listener of the list, in list order, with the same arguments |
| `Registry.Deliveries` | src/pyload/manager/addon_manager.py:305-307 | each listener is paired with the same arguments |
| `Registry.Dispatch` | src/pyload/manager/addon_manager.py:300-313 | dispatchEvent of an unregistered event changes nothing; otherwise it delivers to the event's listener list; the invariant is kept |
| `Registry.DispatchDelivers` | src/pyload/manager/addon_manager.py:300-313 | dispatchEvent calls every listener registered for the event exactly once, in registration order, with the event's arguments, and no other listener |
| `Registry.ConfigChangeRoutes` | src/pyload/manager/addon_manager.py:62 | with manageAddons the one listener of pluginConfigChanged, the event for a truthy "activated" value leaves plugins and pluginMap as activateAddon does (the new instance appended and mapped when it loads), and for a falsy one as deactivateAddon does (the instance of that name removed from plugins and pluginMap when unload() does not raise) |
| `Registry.HandlerRuns` | src/pyload/manager/addon_manager.py:305-307 | one call record per listener, in order, with whether it raised |
| `Registry.DispatchHandlers` | src/pyload/manager/addon_manager.py:305-313 | a listener that raises does not keep the later listeners from being called |
| `Registry.IndexStep` | src/pyload/manager/addon_manager.py:101-121 | one round of createIndex's loop: nothing for a name whose setting is not activated or whose class the loader lacks; a raising constructor is logged and skipped; otherwise the instance is appended to the local list and mapped by name; events and the RPC table are untouched and the trace gains no listener call |
| `Registry.IndexFrom` | src/pyload/manager/addon_manager.py:101-121 | the loop over the remaining names only appends to the list it builds and leaves events and the RPC table alone |
| `Registry.CreateIndex` | src/pyload/manager/addon_manager.py:95-126 | createIndex's result: plugins is exactly the loadable instances, in the order of the names; events and the RPC table are untouched |
| `Registry.LoadableNames` | src/pyload/manager/addon_manager.py:101 | every indexed instance comes from one of the addon names |
| `Registry.IndexFromPlugins` | src/pyload/manager/addon_manager.py:101-126 | createIndex's loop appends exactly the loadable instances, in the order of the names |
| `Registry.IndexStepInv` | src/pyload/manager/addon_manager.py:105-121 | one round of the loop adds at most that name and keeps the invariant |
| `Registry.IndexFromInv` | src/pyload/manager/addon_manager.py:101-121 | the loop over duplicate-free names keeps the invariant |
| `Registry.CreateIndexSpec` | src/pyload/manager/addon_manager.py:95-126 | the index holds, in order, one instance per name whose setting says activated, whose class loads and whose constructor does not raise; it is consistent |
| `Hooks.PolicyOf` | src/pyload/manager/addon_manager.py:176-247 | corrected per-hook choices: only beforeReconnecting visits inactive addons; only downloadFinished, downloadFailed and packageFinished consult `__threaded__`; only coreReady, coreExiting and downloadFailed run under try_catch; every hook submits its own method |
| `Hooks.PolicyAsWritten` | src/pyload/manager/addon_manager.py:176-247 | the per-hook choices as the code has them: the same as the corrected ones except for downloadFailed, whose threaded callable is downloadFinished (:217) |
| `Hooks.Active` | src/pyload/manager/addon_manager.py:252-256 | activePlugins keeps exactly the activated instances |
| `Hooks.ActiveAppend` | src/pyload/manager/addon_manager.py:256 | the filter distributes over concatenation, so order is kept |
| `Hooks.ActiveAfterActivate` | src/pyload/manager/addon_manager.py:149 | after an activation, activePlugins gains the new instance at the end exactly when it is activated |
| `Hooks.Step` | src/pyload/manager/addon_manager.py:203-207 | one visited addon: its call is handed to a thread exactly when the hook looks at `__threaded__` and the addon lists the hook there, and then the policy's callee is submitted; otherwise the hook method runs inline and is recorded with whether it raised |
| `Hooks.Calls` | src/pyload/manager/addon_manager.py:178-245 | the planned steps, one per visited addon, in list order |
| `Hooks.UpToFailure` | src/pyload/manager/addon_manager.py:178-245 | the prefix of the steps up to and including the first raising call |
| `Hooks.Visit` | src/pyload/manager/addon_manager.py:178-245 | the hook's loop over plugins records at most one entry per instance |
| `Hooks.VisitStopsAtFailure` | src/pyload/manager/addon_manager.py:178-245 | only the last entry of the loop can be a call that raised, and it is one exactly when the loop reports that a call raised |
| `Hooks.VisitSplits` | src/pyload/manager/addon_manager.py:178-245 | the hook loop records exactly the planned steps up to the first raising call, and reports a failure exactly when one raised |
| `Hooks.RunHookWith` | src/pyload/manager/addon_manager.py:67-74 | under try_catch no exception escapes the hook; the hook changes neither events nor the RPC table and keeps the invariant |
| `Hooks.RunHook` | src/pyload/manager/addon_manager.py:176-247 | guarded hooks never raise to the caller; the invariant is kept |
| `Hooks.RunHookMeaning` | src/pyload/manager/addon_manager.py:176-247 | without a raising call every planned step is recorded and the event fires with the hook's arguments; with one, the later addons are skipped, no event fires, and the exception escapes unless guarded |
| `Hooks.HookAudience` | src/pyload/manager/addon_manager.py:176-247 | beforeReconnecting calls every instance inline; the other hooks call the activated instances in order; a call is handed to a thread exactly for a threadable hook that the addon lists in `__threaded__` |
| `Hooks.DownloadFailedAsWritten` | src/pyload/manager/addon_manager.py:211-221 | as written, downloadFailed visits the activated instances, and an instance's call is handed to a thread exactly when it lists downloadFailed in `__threaded__`; the call submitted is then its downloadFinished |
| `Hooks.HookCallsNameTheirHook` | src/pyload/manager/addon_manager.py:176-247 | corrected, every call a hook makes or submits is to the addon method of that hook |
| `Manager.AddonManager.constructor` | src/pyload/manager/addon_manager.py:46-65 | starts with empty tables, registers manageAddons for pluginConfigChanged, builds the index of the loadable addons, and establishes the invariant |
| `Manager.AddonManager.AddEvent` | src/pyload/manager/addon_manager.py:282-290 | updates the events field as `Registry.AddEvent` says and nothing else |
| `Manager.AddonManager.RemoveEvent` | src/pyload/manager/addon_manager.py:292-298 | updates the events field as `Registry.RemoveEvent` says and nothing else |
| `Manager.AddonManager.CallListener` | src/pyload/manager/addon_manager.py:306-313 | one guarded listener call, including a reentrant manageAddons |
| `Manager.AddonManager.DispatchEvent` | src/pyload/manager/addon_manager.py:300-313 | the loop over the listener list has the effect of `Registry.Dispatch` and keeps the invariant |
| `Manager.AddonManager.AddRpc` | src/pyload/manager/addon_manager.py:76-83 | updates the methods table as `Rpc.Register` says and nothing else |
| `Manager.AddonManager.CallRpc` | src/pyload/manager/addon_manager.py:85-93 | a malformed literal is reported exactly when argument preparation fails, before the plugin lookup; then an unknown plugin; then a missing attribute; otherwise it calls the named method of the mapped instance with the prepared arguments |
| `Manager.AddonManager.CreateIndex` | src/pyload/manager/addon_manager.py:95-126 | the loop builds the local list, fills pluginMap as it goes, then assigns plugins, as `Registry.CreateIndex` says |
| `Manager.AddonManager.ActivateAddon` | src/pyload/manager/addon_manager.py:134-153 | the scan with early return and what follows have the effect of `Registry.ActivateName` |
| `Manager.AddonManager.DeactivateAddon` | src/pyload/manager/addon_manager.py:155-174 | the scan that keeps the last match and what follows have the effect of `Registry.DeactivateName` |
| `Manager.AddonManager.ManageAddons` | src/pyload/manager/addon_manager.py:128-132 | has the effect of `Registry.ManageAddonsStep` |
| `Manager.AddonManager.VisitAddons` | src/pyload/manager/addon_manager.py:178-245 | the per-addon loop shared by the hooks appends exactly what `Hooks.Visit` gives and changes no other field |
| `Manager.AddonManager.RunHook` | src/pyload/manager/addon_manager.py:176-247 | loop, then the event unless a call raised, as `Hooks.RunHook` says |
| `Manager.AddonManager.CoreReady` | src/pyload/manager/addon_manager.py:176-182 | coreReady under try_catch |
| `Manager.AddonManager.CoreExiting` | src/pyload/manager/addon_manager.py:184-190 | coreExiting under try_catch |
| `Manager.AddonManager.DownloadPreparing` | src/pyload/manager/addon_manager.py:192-198 | downloadPreparing; an addon's exception reaches the caller |
| `Manager.AddonManager.DownloadFinished` | src/pyload/manager/addon_manager.py:200-209 | downloadFinished, threaded per `__threaded__`; an addon's exception reaches the caller |
| `Manager.AddonManager.DownloadFailed` | src/pyload/manager/addon_manager.py:211-221 | downloadFailed under try_catch, with the threaded callable corrected |
| `Manager.AddonManager.PackageFinished` | src/pyload/manager/addon_manager.py:223-232 | packageFinished, threaded per `__threaded__`; an addon's exception reaches the caller |
| `Manager.AddonManager.BeforeReconnecting` | src/pyload/manager/addon_manager.py:234-239 | beforeReconnecting to every instance; an addon's exception reaches the caller |
| `Manager.AddonManager.AfterReconnecting` | src/pyload/manager/addon_manager.py:241-247 | afterReconnecting to the activated instances; an addon's exception reaches the caller |
| `Manager.AddonManager.ActivePlugins` | src/pyload/manager/addon_manager.py:252-256 | exactly the activated instances, in list order |
| `Manager.AddonManager.GetInfo` | src/pyload/manager/addon_manager.py:272-280 | a str()-converted copy of the instance's info, with the same keys; empty for an unknown name or empty info |
| `Manager.AddonManager.GetAllInfo` | src/pyload/manager/addon_manager.py:258-270 | keyed by exactly the loaded names whose info is not empty; each entry equals getInfo of that name |

## Left out

- Lists.RemoveFirst: does not raise ValueError for an absent element, as Python's
  `list.remove` does. It leaves the list alone there. The manager never calls it on an absent
  element (:297 tests membership, and at :173 the instance comes from `plugins`).
- The `RLock` and the `@lock` decorator are left out: the model is sequential, with no thread
  interleaving.
- Thread execution (`startThread`, `AddonThread`, `start_new_thread`) is left out. A call handed
  to a thread is a `Submitted` entry in the trace; what the thread then does is not modelled.
- `builtins.ADDONMANAGER` and the `MethodType` callback installed on the config are not modelled.
  They are wiring with no effect on the manager's own state.
- Log messages are not modelled; they are output only.
- The plugin loader, `config.getPlugin`, `literal_eval` and `getattr` are parameters of `Env` or
  of the operations. The model assumes `pluginClass.__name__` equals the name it was loaded
  under.
- `isActivated()`, `__threaded__`, the attribute set and `info` are fixed per addon class. The
  model does not let them change over an instance's life.
- Addon hooks and listeners other than manageAddons do not call back into the manager. Only the
  manager's own `manageAddons` listener is reentrant.
- Registry.ActivateName, Registry.IndexStep and Manager.AddonManager.constructor model loading
  and constructing an addon as not calling back into the manager. In the code the constructor
  receives the manager, so an addon may call `addEvent` or `addRPC` while it is built. The model
  therefore does not capture events or RPC methods registered during construction. Their
  contracts that events and methods are unchanged, and the constructor's contract on `events`,
  rely on this. So does `Registry.DispatchDelivers`: in the code, a `pluginConfigChanged`
  listener registered by an addon that manageAddons activates during dispatchEvent would also be
  called, because the loop iterates over the live list.
- `Addons.Value` covers only str, int, bool and None. The floats, tuples, lists and dicts that
  `literal_eval` can return are not modelled, and neither are other `info` values passed through
  `str()` or their truthiness.
- Whether a call into an addon raises is decided by `Env.raises` on the call and its arguments.
  Exceptions raised by the loader, by `getPlugin` or by `isActivated()` are not modelled
  separately.
- Manager.AddonManager.CallRpc: stops at the call it would make. The method's result, and any
  exception it raises, belong to the addon.
- Manager.AddonManager.constructor: requires the plugin manager's addon names to be
  duplicate-free, as the keys of the dictionary they come from are.
- `scheduler.removeJob(addon.cb)` is recorded as a `JobRemoved` entry. The scheduler itself is
  not part of this model.
- `Manager.AddonManager.DownloadFailed` and the rest of the model use the corrected threaded
  callable (see Findings). The code as written is kept as `Hooks.PolicyAsWritten`.

## Findings

| source | as written | input that shows it | evidently intended | confidence | as-written member | corrected member |
|---|---|---|---|---|---|---|
| src/pyload/manager/addon_manager.py:216-217 | when an addon lists downloadFailed in `__threaded__`, the hook hands the addon's downloadFinished to the thread | an activated addon with "downloadFailed" in `__threaded__`, then a failed download | the thread runs the addon's downloadFailed, as the other threaded hooks run their own method | high, not executed | `Hooks.DownloadFailedAsWritten` | `Hooks.HookCallsNameTheirHook` |
