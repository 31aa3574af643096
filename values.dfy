/**
 * The JavaScript values the library moves around: request payloads, model
 * fields and filter values. Objects, arrays and dates carry an identity `ref`,
 * because the library compares them with `===`; nested models and
 * repositories are recognised by their `$is_model` / `$is_repository` marker,
 * which here is their tag.
 */
module JsValues {
  import opened Wrappers
  import opened Dicts
  import Strings

  /** Identity of an object. */
  type Ref = nat

  datatype Value =
    | Undefined
    | Null
    | Bool(b: bool)
    | Num(n: int)
    | Str(s: string)
    | Arr(ref: Ref, elems: seq<Value>)
    | Obj(ref: Ref, entries: seq<(string, Value)>)
      /** A Date, with the texts `String(d)` and `d.toDateString()` give for it. */
    | Date(ref: Ref, text: string, dateText: string)
      /** A nested Model instance (an object with `$is_model`). */
    | ModelRef(ref: Ref)
      /** A nested Repository instance (an object with `$is_repository`) and its items. */
    | RepoRef(ref: Ref, items: seq<Value>)

  /** JavaScript truthiness: `undefined`, `null`, `false`, `0` and `''` are falsy. */
  predicate Truthy(v: Value)
  {
    match v
    case Undefined => false
    case Null => false
    case Bool(b) => b
    case Num(n) => n != 0
    case Str(s) => s != ""
    case _ => true
  }

  /** `v || undefined`: every falsy value collapses to `undefined`. */
  function OrUndefined(v: Value): (r: Value)
    ensures r == Undefined || Truthy(r)
    ensures Truthy(v) ==> r == v
    ensures !Truthy(v) ==> r == Undefined
  {
    if Truthy(v) then v else Undefined
  }

  predicate IsReference(v: Value)
  {
    v.Arr? || v.Obj? || v.Date? || v.ModelRef? || v.RepoRef?
  }

  /** `a === b`: primitives compare by value, objects by identity. */
  predicate StrictEquals(a: Value, b: Value)
  {
    match a
    case Arr(r, _) => b.Arr? && b.ref == r
    case Obj(r, _) => b.Obj? && b.ref == r
    case Date(r, _, _) => b.Date? && b.ref == r
    case ModelRef(r) => b.ModelRef? && b.ref == r
    case RepoRef(r, _) => b.RepoRef? && b.ref == r
    case _ => a == b
  }

  /** `===` is an equivalence; it differs from value equality only for objects. */
  lemma StrictEqualsIsEquivalence(a: Value, b: Value, c: Value)
    ensures StrictEquals(a, a)
    ensures StrictEquals(a, b) ==> StrictEquals(b, a)
    ensures StrictEquals(a, b) && StrictEquals(b, c) ==> StrictEquals(a, c)
    ensures !IsReference(a) ==> (StrictEquals(a, b) <==> a == b)
  {
  }

  /** `Object.isModel`. */
  predicate IsModel(v: Value) { v.ModelRef? }

  /** `Object.isRepository`. */
  predicate IsRepository(v: Value) { v.RepoRef? }

  /** Decimal text of a natural number. */
  function NatToString(n: nat): (s: string)
    ensures |s| >= 1 && forall i :: 0 <= i < |s| ==> Strings.IsDigit(s[i])
  {
    var d := ['0', '1', '2', '3', '4', '5', '6', '7', '8', '9'][n % 10];
    if n < 10 then [d] else NatToString(n / 10) + [d]
  }

  /** `Array.prototype.join` over already converted parts. */
  function JoinWith(sep: string, parts: seq<string>): (r: string)
    ensures parts == [] ==> r == ""
    ensures |parts| == 1 ==> r == parts[0]
  {
    if parts == [] then ""
    else if |parts| == 1 then parts[0]
    else JoinWith(sep, parts[..|parts| - 1]) + sep + parts[|parts| - 1]
  }

  /** `String(v)`, the text used by string concatenation and `replace`. */
  function Display(v: Value): string
  {
    match v
    case Undefined => "undefined"
    case Null => "null"
    case Bool(b) => if b then "true" else "false"
    case Num(n) => if n < 0 then "-" + NatToString(-n) else NatToString(n)
    case Str(s) => s
    case Arr(_, es) =>
      JoinWith(",", seq(|es|, i requires 0 <= i < |es| =>
                             if es[i] == Undefined || es[i] == Null then "" else Display(es[i])))
    case Obj(_, _) => "[object Object]"
    case Date(_, text, _) => text
    case ModelRef(_) => "[object Object]"
    case RepoRef(_, _) => "[object Object]"
  }

  /** How `join` shows an element: `null` and `undefined` as the empty string. */
  function ElementText(v: Value): string
  {
    if v == Undefined || v == Null then "" else Display(v)
  }

  /** `values.join(',')`. */
  function JoinValues(values: seq<Value>): (r: string)
    ensures values == [] ==> r == ""
    ensures |values| == 1 ==> r == ElementText(values[0])
    ensures |values| >= 2 ==>
              r == JoinValues(values[..|values| - 1]) + "," + ElementText(values[|values| - 1])
    decreases |values|
  {
    var texts := seq(|values|, i requires 0 <= i < |values| => ElementText(values[i]));
    var init := values[..if values == [] then 0 else |values| - 1];
    // the texts of all but the last value are the texts of the shorter list
    assert texts[..|init|] == seq(|init|, i requires 0 <= i < |init| => ElementText(init[i]));
    JoinWith(",", texts)
  }

  /**
   * `Object.keys(v)` with the values: `None` where JavaScript throws a
   * TypeError (`undefined`, `null`); index keys for arrays and strings; no keys
   * for other primitives, dates, and nested models and repositories.
   */
  function OwnEntries(v: Value): (r: Option<Dict<Value>>)
    ensures r.None? <==> v == Undefined || v == Null
  {
    match v
    case Undefined => None
    case Null => None
    case Obj(_, es) => Some(es)
    case Arr(_, es) => Some(seq(|es|, i requires 0 <= i < |es| => (NatToString(i), es[i])))
    case Str(s) => Some(seq(|s|, i requires 0 <= i < |s| => (NatToString(i), Str([s[i]]))))
    case _ => Some([])
  }

  /** `d[k]` on a dictionary: `undefined` when the key is missing. */
  function At(d: Dict<Value>, k: string): Value
  {
    match Lookup(d, k)
    case Some(v) => v
    case None => Undefined
  }

  /** `v[k]` for the own keys of `v`. */
  function Member(v: Value, k: string): Value
  {
    match OwnEntries(v)
    case Some(es) => At(es, k)
    case None => Undefined
  }
}
