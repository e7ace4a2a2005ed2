/**
 * JSON-like values, as the in-memory store holds them (every value passes
 * through `JSON.parse(JSON.stringify(...))`), with JavaScript truthiness,
 * property access and conversion to text.
 */
module Json {
  import opened Wrappers
  import opened Strings

  /** Numbers are integers here: the stored numbers are file sizes and id tokens. */
  datatype Json =
    | Null
    | Bool(b: bool)
    | Num(n: int)
    | Str(s: string)
    | Arr(items: seq<Json>)
    | Obj(fields: map<string, Json>)

  /** JavaScript truthiness: `null`, `false`, `0` and `""` are falsy; arrays and objects never are. */
  predicate Truthy(v: Json) {
    match v
    case Null => false
    case Bool(b) => b
    case Num(n) => n != 0
    case Str(s) => s != ""
    case Arr(_) => true
    case Obj(_) => true
  }

  /** Property access `v.key`; `None` stands for `undefined` (a missing key, or a value that is not an object). */
  function Get(v: Json, key: string): (r: Option<Json>)
    ensures r.Some? <==> v.Obj? && key in v.fields
  {
    if v.Obj? && key in v.fields then Some(v.fields[key]) else None
  }

  /** `v.key` is truthy (`undefined` is falsy). */
  predicate HasTruthy(v: Json, key: string) {
    Get(v, key).Some? && Truthy(Get(v, key).value)
  }

  /** `v || fallback`. */
  function OrElse(v: Option<Json>, fallback: Json): Json {
    if v.Some? && Truthy(v.value) then v.value else fallback
  }

  /** The text a template literal `${v}` produces for a JSON value. */
  function Display(v: Json): string
    decreases v, 1, 0
  {
    match v
    case Null => "null"
    case Bool(b) => if b then "true" else "false"
    case Num(n) => IntToString(n)
    case Str(s) => s
    case Arr(items) => JoinItems(v, 0)
    case Obj(_) => "[object Object]"
  }

  /** `Array.prototype.join(",")` from index `i` on, where `null` items give the empty text. */
  function JoinItems(v: Json, i: nat): string
    requires v.Arr? && i <= |v.items|
    decreases v, 0, |v.items| - i
  {
    if i == |v.items| then ""
    else
      var item := if v.items[i] == Null then "" else Display(v.items[i]);
      (if i == 0 then "" else ",") + item + JoinItems(v, i + 1)
  }

  /** `${v}` where `v` may be `undefined`. */
  function DisplayOpt(v: Option<Json>): string {
    match v
    case None => "undefined"
    case Some(j) => Display(j)
  }

  /** A form's data object: every field value is a string. */
  function FromStrings(m: map<string, string>): (r: Json)
    ensures r.Obj? && r.fields.Keys == m.Keys
    ensures forall k :: k in m ==> r.fields[k] == Str(m[k])
  {
    Obj(map k | k in m :: Str(m[k]))
  }

  /** A list of texts as stored. */
  function StrList(xs: seq<string>): (r: Json)
    ensures r.Arr? && |r.items| == |xs|
    ensures forall i :: 0 <= i < |xs| ==> r.items[i] == Str(xs[i])
  {
    Arr(seq(|xs|, i requires 0 <= i < |xs| => Str(xs[i])))
  }

  /** The texts of a stored list; `None` when some item is not a text. */
  function StrItems(items: seq<Json>): (r: Option<seq<string>>)
    ensures r.Some? ==> |r.value| == |items|
  {
    if items == [] then Some([])
    else match (items[0], StrItems(items[1..]))
      case (Str(x), Some(rest)) => Some([x] + rest)
      case _ => None
  }

  lemma {:induction false} StrListRoundTrip(xs: seq<string>)
    ensures StrItems(StrList(xs).items) == Some(xs)
  {
    if xs != [] {
      StrListRoundTrip(xs[1..]);
      assert StrList(xs).items[1..] == StrList(xs[1..]).items;
      assert xs == [xs[0]] + xs[1..];
    }
  }
}
