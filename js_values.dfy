/**
 * The JavaScript values the downloader inspects, and the few language
 * operations it applies to them: `typeof`, truthiness, `== null`, `??`,
 * object spread and `String.prototype.replace` with a string pattern.
 */
module JsValues {
  import opened Wrappers

  /** An opaque token standing for one user-supplied JavaScript function. */
  type Handler = nat

  datatype JsValue =
    | Undefined
    | Null
    | Bool(b: bool)
    | Num(n: real)
    | NaN
    | Str(s: string)
    | Obj(props: map<string, JsValue>)   // plain objects and arrays
    | Fn(handler: Handler)

  /** The own enumerable properties of an object. */
  type Props = map<string, JsValue>

  /** The errors the downloader throws. */
  datatype JsError = TypeError(message: string) | Error(message: string)

  /** The `typeof` operator. Note that `typeof null` is "object". */
  function TypeOf(v: JsValue): (r: string)
    ensures r == "function" <==> v.Fn?
    ensures r == "object" <==> v.Null? || v.Obj?
    ensures r == "number" <==> v.Num? || v.NaN?
    ensures r == "boolean" <==> v.Bool?
    ensures r == "string" <==> v.Str?
    ensures r == "undefined" <==> v.Undefined?
  {
    match v
    case Undefined => "undefined"
    case Null => "object"
    case Bool(_) => "boolean"
    case Num(_) => "number"
    case NaN => "number"
    case Str(_) => "string"
    case Obj(_) => "object"
    case Fn(_) => "function"
  }

  /** JavaScript truthiness (the test of `if (v)` and of `!v`). */
  predicate Truthy(v: JsValue)
    ensures Truthy(v) ==> !v.Undefined? && !v.Null? && !v.NaN?
    ensures v.Obj? || v.Fn? ==> Truthy(v)
  {
    match v
    case Undefined => false
    case Null => false
    case Bool(b) => b
    case Num(n) => n != 0.0
    case NaN => false
    case Str(s) => s != ""
    case Obj(_) => true
    case Fn(_) => true
  }

  /** Loose equality with null: `v == null`. */
  predicate IsNullish(v: JsValue)
    ensures IsNullish(v) ==> !Truthy(v) && TypeOf(v) != "function"
  {
    v.Undefined? || v.Null?
  }

  /** The nullish-coalescing operator `a ?? b`. */
  function Coalesce(a: JsValue, b: JsValue): (r: JsValue)
    ensures IsNullish(r) ==> IsNullish(a)
    ensures !IsNullish(a) ==> r == a
    ensures IsNullish(a) ==> r == b
  {
    if IsNullish(a) then b else a
  }

  /** The test `v && typeof v === 'object'` holds exactly of non-null objects. */
  lemma TruthyObject(v: JsValue)
    ensures Truthy(v) && TypeOf(v) == "object" <==> v.Obj?
  {
  }

  /** The properties `{...v}` copies out of `v`: those of an object, none for null or undefined. */
  function Spread(v: JsValue): Props {
    if v.Obj? then v.props else map[]
  }

  /** The object literal `{...a, ...b}`: the keys of both, and `b`'s value wherever both have a key. */
  function MergeProps(a: Props, b: Props): (r: Props)
    ensures r.Keys == a.Keys + b.Keys
    ensures forall k :: k in b ==> r[k] == b[k]
    ensures forall k :: k in a && k !in b ==> r[k] == a[k]
  {
    a + b
  }

  /** `pat` occurs in `s` starting at index `i`. */
  predicate OccursAt(s: string, pat: string, i: nat) {
    i + |pat| <= |s| && s[i..i + |pat|] == pat
  }

  /** `s.indexOf(pat, from)`, with `None` for -1. */
  function IndexOf(s: string, pat: string, from: nat): (r: Option<nat>)
    decreases |s| - from
    ensures r.Some? ==> from <= r.value && OccursAt(s, pat, r.value)
    ensures r.Some? ==> forall j :: from <= j < r.value ==> !OccursAt(s, pat, j)
    ensures r.None? ==> forall j :: from <= j ==> !OccursAt(s, pat, j)
  {
    if |s| < from + |pat| then None
    else if OccursAt(s, pat, from) then Some(from)
    else IndexOf(s, pat, from + 1)
  }

  /** `s.replace(pat, rep)` for a string `pat`: only the first occurrence is replaced. */
  function ReplaceFirst(s: string, pat: string, rep: string): (r: string)
    ensures (forall j :: !OccursAt(s, pat, j)) ==> r == s
    ensures forall i: nat :: OccursAt(s, pat, i) && (forall j: nat :: j < i ==> !OccursAt(s, pat, j)) ==>
              r == s[..i] + rep + s[i + |pat|..]
  {
    match IndexOf(s, pat, 0)
    case None => s
    case Some(i) => s[..i] + rep + s[i + |pat|..]
  }
}
