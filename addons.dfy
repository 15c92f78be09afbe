/** Values, addon records, listeners and trace entries shared by the addon manager model. */
module Addons {

  datatype Option<+T> = None | Some(value: T) {
    function GetOr(default: T): T {
      if Some? then value else default
    }
  }

  datatype Result<+T, +E> = Ok(value: T) | Err(error: E)

  /** The Python values that reach this core: hook and event arguments, configuration values,
      entries of an addon's info dictionary, parsed RPC arguments. */
  datatype Value = VStr(s: string) | VInt(i: int) | VBool(b: bool) | VNone

  /** Python truthiness of a value. */
  predicate Truthy(v: Value) {
    match v
    case VStr(s) => s != []
    case VInt(i) => i != 0
    case VBool(b) => b
    case VNone => false
  }

  predicate IsDigit(c: char) {
    '0' <= c <= '9'
  }

  predicate AllDigits(r: string) {
    forall k :: 0 <= k < |r| ==> IsDigit(r[k])
  }

  function DigitChar(d: nat): (c: char)
    requires d < 10
    ensures IsDigit(c) && (c as int) - ('0' as int) == d
  {
    (('0' as int) + d) as char
  }

  /** The decimal digits of n, without leading zeros. */
  function Digits(n: nat): (r: string)
    ensures |r| > 0 && AllDigits(r)
    ensures r[0] == '0' <==> n == 0
    decreases n
  {
    if n < 10 then [DigitChar(n)] else Digits(n / 10) + [DigitChar(n % 10)]
  }

  /** The number a string of decimal digits denotes. */
  function DecimalValue(r: string): nat
    requires AllDigits(r)
  {
    if r == [] then 0 else DecimalValue(r[..|r| - 1]) * 10 + ((r[|r| - 1] as int) - ('0' as int))
  }

  lemma {:induction false} DigitsRoundTrip(n: nat)
    ensures DecimalValue(Digits(n)) == n
    decreases n
  {
    if n >= 10 {
      DigitsRoundTrip(n / 10);
      var r := Digits(n);
      assert r[..|r| - 1] == Digits(n / 10);
    }
  }

  /** Python's str() of a value: a string stays as it is, an integer is written in decimal without
      leading zeros and with a leading '-' when negative, booleans and None by their names. */
  function ToStr(v: Value): (r: string)
    ensures v.VStr? ==> r == v.s
    ensures v.VInt? && v.i >= 0 ==> AllDigits(r) && DecimalValue(r) == v.i
    ensures v.VInt? && v.i >= 0 ==> |r| > 0 && (r[0] == '0' ==> |r| == 1)
    ensures v.VInt? && v.i < 0 ==> |r| > 1 && r[0] == '-' && AllDigits(r[1..]) && DecimalValue(r[1..]) == -v.i
    ensures v.VInt? && v.i < 0 ==> r[1] != '0'
    ensures v.VBool? ==> r == (if v.b then "True" else "False")
    ensures v.VNone? ==> r == "None"
  {
    match v
    case VStr(s) => s
    case VInt(i) =>
      DigitsRoundTrip(if i < 0 then -i else i);
      if i < 0 then "-" + Digits(-i) else Digits(i)
    case VBool(b) => if b then "True" else "False"
    case VNone => "None"
  }

  /** An info dictionary with every value passed through str(), as getInfo and getAllInfo copy it. */
  function InfoStrings(info: map<string, Value>): (r: map<string, string>)
    ensures r.Keys == info.Keys
    ensures forall k :: k in info ==> r[k] == ToStr(info[k])
    ensures forall k :: k in info && info[k].VStr? ==> r[k] == info[k].s
  {
    map k | k in info :: ToStr(info[k])
  }

  /** The fixed lifecycle hooks the core calls on every addon. */
  datatype Hook =
    | CoreReady
    | CoreExiting
    | DownloadPreparing
    | DownloadFinished
    | DownloadFailed
    | PackageFinished
    | BeforeReconnecting
    | AfterReconnecting

  /** The event each hook fires on the event bus after visiting the addons. */
  function EventName(h: Hook): string {
    match h
    case CoreReady => "coreReady"
    case CoreExiting => "coreExiting"
    case DownloadPreparing => "downloadPreparing"
    case DownloadFinished => "downloadFinished"
    case DownloadFailed => "downloadFailed"
    case PackageFinished => "packageFinished"
    case BeforeReconnecting => "beforeReconnecting"
    case AfterReconnecting => "afterReconnecting"
  }

  /** What the plugin loader hands back for an addon name: the behaviour shared by every instance
      of that class. `activated` is the answer of isActivated(), `threaded` the hooks named in
      __threaded__, `attrs` the attribute names getattr finds, `info` the instance's info dict. */
  datatype AddonClass = AddonClass(
    activated: bool,
    threaded: set<Hook>,
    attrs: set<string>,
    info: map<string, Value>)

  /** An addon instance; its name is the name it was loaded under. */
  datatype Addon = Addon(name: string, kind: AddonClass)

  /** An event listener: the manager's own manageAddons, or some other callable, identified by id. */
  datatype Listener = ManageAddons | Handler(id: nat)

  /** Code outside the manager that the manager calls. */
  datatype Target =
    | HookCall(addon: string, hook: Hook)
    | ListenerCall(listener: Listener)
    | Init(addon: string)
    | Unload(addon: string)

  /** One observable step: a call made inline (and whether it raised), a call handed to a
      background thread, or the removal of an addon's periodic job from the scheduler. */
  datatype Entry =
    | Ran(target: Target, args: seq<Value>, raised: bool)
    | Submitted(target: Target, args: seq<Value>)
    | JobRemoved(addon: string)

  /** The collaborators the manager cannot see into: the plugin loader (loadClass("addon", n)),
      which calls raise, and literal_eval. */
  datatype Env = Env(
    load: string -> Option<AddonClass>,
    raises: (Target, seq<Value>) -> bool,
    literalEval: string -> Option<Value>)
}
