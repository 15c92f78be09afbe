/** The RPC side of the manager: the method table that addRPC fills, and the argument preparation
    of callRPC. */
module Rpc {
  import opened Addons

  /** Why callRPC does not get as far as calling: an argument that literal_eval rejects (its
      position), a plugin name absent from pluginMap (KeyError), an attribute the instance lacks
      (AttributeError). */
  datatype RpcError = MalformedArgument(index: nat) | UnknownPlugin | UnknownMethod

  /** The call callRPC makes: the method func of that instance with those positional arguments. */
  datatype Invocation = Invocation(addon: Addon, func: string, args: seq<Value>)

  /** The part of a dotted plugin name after its last '.', as str.rpartition('.')[2] gives it:
      the longest suffix without a '.', and the whole name when it has none. */
  function ShortName(p: string): (r: string)
    ensures |r| <= |p| && r == p[|p| - |r|..]
    ensures '.' !in r
    ensures |r| < |p| ==> p[|p| - |r| - 1] == '.'
  {
    if p == [] then []
    else if p[|p| - 1] == '.' then []
    else
      var q := p[..|p| - 1];
      var r := ShortName(q) + [p[|p| - 1]];
      assert p[|p| - |r|..] == q[|q| - |ShortName(q)|..] + [p[|p| - 1]];
      r
  }

  /** The characters Python's str.isspace accepts. */
  predicate IsSpace(c: char) {
    || ('\t' <= c <= '\r')
    || ('\U{1c}' <= c <= ' ')
    || c == '\U{85}'
    || c == '\U{a0}'
    || c == '\U{1680}'
    || ('\U{2000}' <= c <= '\U{200a}')
    || c == '\U{2028}'
    || c == '\U{2029}'
    || c == '\U{202f}'
    || c == '\U{205f}'
    || c == '\U{3000}'
  }

  function TrimStart(s: string): (r: string)
    ensures |r| <= |s| && r == s[|s| - |r|..]
    ensures forall k :: 0 <= k < |s| - |r| ==> IsSpace(s[k])
    ensures r == [] || !IsSpace(r[0])
  {
    if s != [] && IsSpace(s[0]) then TrimStart(s[1..]) else s
  }

  function TrimEnd(s: string): (r: string)
    ensures |r| <= |s| && r == s[..|r|]
    ensures forall k :: |r| <= k < |s| ==> IsSpace(s[k])
    ensures r == [] || !IsSpace(r[|r| - 1])
  {
    if s != [] && IsSpace(s[|s| - 1]) then TrimEnd(s[..|s| - 1]) else s
  }

  /** str.strip() without arguments: the slice of s left after removing whitespace at both ends. */
  function Strip(s: string): (r: string)
    ensures r == [] || (!IsSpace(r[0]) && !IsSpace(r[|r| - 1]))
    ensures var i := |s| - |TrimStart(s)|;
      && i + |r| <= |s|
      && r == s[i..i + |r|]
      && (forall k :: 0 <= k < i ==> IsSpace(s[k]))
      && (forall k :: i + |r| <= k < |s| ==> IsSpace(s[k]))
  {
    var t := TrimStart(s);
    var r := TrimEnd(t);
    assert r == [] || r[0] == t[0];
    r
  }

  /** The description addRPC stores: the docstring stripped, or "" when there is none. */
  function Description(doc: Option<string>): (d: string)
    ensures d == (if doc.Some? then Strip(doc.value) else "")
  {
    if doc.Some? && doc.value != [] then Strip(doc.value) else ""
  }

  /** Sets methods[p][func] to d and keeps every other entry of the table. */
  function Put(methods: map<string, map<string, string>>, p: string, func: string, d: string)
    : (r: map<string, map<string, string>>)
    ensures r.Keys == methods.Keys + {p}
    ensures func in r[p] && r[p][func] == d
    ensures forall q :: q in methods && q != p ==> r[q] == methods[q]
    ensures p !in methods ==> r[p].Keys == {func}
    ensures p in methods ==>
      && r[p].Keys == methods[p].Keys + {func}
      && forall g :: g in methods[p] && g != func ==> r[p][g] == methods[p][g]
  {
    if p in methods then methods[p := methods[p][func := d]] else methods[p := map[func := d]]
  }

  /** addRPC: the entry for (ShortName(plugin), func) becomes the stripped description, or "" when
      there is none; every other entry of the table is kept. */
  function Register(methods: map<string, map<string, string>>, plugin: string, func: string, doc: Option<string>)
    : (r: map<string, map<string, string>>)
    ensures var p := ShortName(plugin);
      && r.Keys == methods.Keys + {p}
      && func in r[p] && r[p][func] == Description(doc)
      && (forall q :: q in methods && q != p ==> r[q] == methods[q])
      && (forall g :: g in r[p] && g != func ==> p in methods && g in methods[p] && r[p][g] == methods[p][g])
      && (p in methods ==> methods[p].Keys <= r[p].Keys)
  {
    Put(methods, ShortName(plugin), func, Description(doc))
  }

  /** literal_eval applied to each string in turn; the first that does not parse raises. */
  function ParseAll(xs: seq<string>, literalEval: string -> Option<Value>): (r: Result<seq<Value>, nat>)
    ensures r.Ok? ==> |r.value| == |xs| && forall j :: 0 <= j < |xs| ==> literalEval(xs[j]) == Some(r.value[j])
    ensures r.Err? ==>
      && r.error < |xs|
      && literalEval(xs[r.error]).None?
      && forall j :: 0 <= j < r.error ==> literalEval(xs[j]).Some?
  {
    if xs == [] then Ok([])
    else match literalEval(xs[0])
      case None => Err(0)
      case Some(v) =>
        match ParseAll(xs[1..], literalEval)
        case Ok(vs) => Ok([v] + vs)
        case Err(k) => Err(k + 1)
  }

  /** The positional arguments callRPC passes on: none when the argument list is missing or empty;
      each string parsed as a literal when parse is set, the raw strings otherwise. */
  function PrepareArgs(args: Option<seq<string>>, parse: bool, literalEval: string -> Option<Value>)
    : (r: Result<seq<Value>, nat>)
    ensures args.None? ==> r == Ok([])
    ensures !parse ==> r.Ok? && |r.value| == |args.GetOr([])|
    ensures !parse ==> forall j :: 0 <= j < |r.value| ==> r.value[j] == VStr(args.GetOr([])[j])
    ensures parse ==> r == ParseAll(args.GetOr([]), literalEval)
  {
    var xs := if args.Some? then args.value else [];
    if parse then ParseAll(xs, literalEval) else Ok(seq(|xs|, j requires 0 <= j < |xs| => VStr(xs[j])))
  }
}
