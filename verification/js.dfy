/** The JavaScript values the backend handles: parsed JSON request bodies,
    query parameters, and the plain objects kept in the in-memory stores.
    Numbers are modelled as integers plus `NaN`; `undefined` is a value of
    its own because an object property may hold it explicitly. */
module Js {
  import opened Text

  datatype JsValue =
    | Undefined
    | Null
    | Bool(b: bool)
    | Num(n: int)
    | NaN
    | Str(s: string)
    | Arr(items: seq<JsValue>)
    | Obj(props: map<string, JsValue>)

  /** A plain object: own enumerable properties by name. A key mapped to
      `Undefined` is present with the value `undefined`. */
  type Record = map<string, JsValue>

  /** Property read `r.k` on a plain object. */
  function Get(r: Record, k: string): JsValue {
    if k in r then r[k] else Undefined
  }

  /** Property read `v?.k`: objects answer from their properties; every
      other value (including `undefined` and `null`, through `?.`) gives
      `undefined`. */
  function Prop(v: JsValue, k: string): JsValue {
    if v.Obj? then Get(v.props, k) else Undefined
  }

  predicate IsNullish(v: JsValue) {
    v.Undefined? || v.Null?
  }

  /** `v ?? fallback`. */
  function Coalesce(v: JsValue, fallback: JsValue): (r: JsValue)
    ensures !IsNullish(v) ==> r == v
    ensures IsNullish(v) ==> r == fallback
  {
    if IsNullish(v) then fallback else v
  }

  /** `Boolean(v)`: the truthiness that `if (v)`, `!v` and `v || w` test. */
  predicate Truthy(v: JsValue) {
    match v
    case Undefined => false
    case Null => false
    case NaN => false
    case Bool(b) => b
    case Num(n) => n != 0
    case Str(s) => s != ""
    case Arr(_) => true
    case Obj(_) => true
  }

  /** How `Array.prototype.join` renders one element: `undefined` and
      `null` as the empty string, everything else through `String`. */
  function ElementString(v: JsValue): string
    decreases v, 2
  {
    if IsNullish(v) then "" else ToStr(v)
  }

  /** `items.join(sep)` for a one-character separator. */
  function JoinValues(items: seq<JsValue>, sep: char): string
    decreases Arr(items), 0
  {
    Join(seq(|items|, i requires 0 <= i < |items| => ElementString(items[i])), sep)
  }

  /** `String(v)`. */
  function ToStr(v: JsValue): string
    decreases v, 1
  {
    match v
    case Undefined => "undefined"
    case Null => "null"
    case NaN => "NaN"
    case Bool(b) => if b then "true" else "false"
    case Num(n) => IntToString(n)
    case Str(s) => s
    case Arr(items) => JoinValues(items, ',')
    case Obj(_) => "[object Object]"
  }

  /** `body.x === wanted ? wanted : fallback`: a choice the body makes only
      by naming the one alternative exactly; anything else, a different
      case or a non-string included, takes the default. */
  function ExactOr(v: JsValue, wanted: string, fallback: string): (r: string)
    ensures r == wanted || r == fallback
    ensures wanted != fallback ==> (r == wanted <==> v == Str(wanted))
    ensures wanted == fallback ==> r == wanted
  {
    if v == Str(wanted) then wanted else fallback
  }

  /** `String(v ?? "")`, the normalisation every route applies to body
      fields before trimming: absent and `null` become the empty string. */
  function StringOrEmpty(v: JsValue): (r: string)
    ensures v.Str? ==> r == v.s
    ensures IsNullish(v) ==> r == ""
  {
    ToStr(Coalesce(v, Str("")))
  }

  /** `String(v ?? "").trim() || undefined`: an optional text field. */
  function OptionalText(v: JsValue): (r: JsValue)
    ensures r.Undefined? || (r.Str? && r.s != "" && r.s == Trim(StringOrEmpty(v)))
    ensures r.Undefined? <==> Trim(StringOrEmpty(v)) == ""
  {
    var t := Trim(StringOrEmpty(v));
    if t == "" then Undefined else Str(t)
  }

  /** `Number(s)` for a string: surrounding whitespace is ignored, the
      empty string is 0, an optionally signed run of decimal digits is its
      value, anything else is `NaN`. */
  function StringToNumber(s: string): (r: JsValue)
    ensures r.Num? || r.NaN?
    ensures AllDigits(Trim(s)) ==> r == Num(ParseDigits(Trim(s)))
  {
    var t := Trim(s);
    if AllDigits(t) then Num(ParseDigits(t))
    else if |t| > 1 && t[0] == '+' && AllDigits(t[1..]) then Num(ParseDigits(t[1..]))
    else if |t| > 1 && t[0] == '-' && AllDigits(t[1..]) then Num(0 - ParseDigits(t[1..]) as int)
    else NaN
  }

  /** `Number(v)`. */
  function ToNumber(v: JsValue): (r: JsValue)
    ensures r.Num? || r.NaN?
    ensures v.Num? ==> r == v
  {
    match v
    case Undefined => NaN
    case Null => Num(0)
    case NaN => NaN
    case Bool(b) => Num(if b then 1 else 0)
    case Num(n) => Num(n)
    case Str(s) => StringToNumber(s)
    case Arr(_) => StringToNumber(ToStr(v))
    case Obj(_) => NaN
  }

  lemma NumberOfDecimal(n: nat)
    ensures ToNumber(Str(NatToString(n))) == Num(n)
  {
    var s := NatToString(n);
    TrimIsCore(s, 0, |s|);
    assert Trim(s) == s;
    ParseNatToString(n);
  }
}
