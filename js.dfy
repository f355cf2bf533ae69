/** The JavaScript values a mutation payload or a cache entry is made of, and the operators the
    sync engine applies to them (`==`/`??` against nullish values, `typeof`, `Number()`). */
module Js {
  import opened Wrappers
  import Text

  /** A JavaScript value. Numbers are modelled as integers. */
  datatype JsValue =
    | Undefined
    | Null
    | Bool(b: bool)
    | Number(n: int)
    | Str(s: string)
    | Array(items: seq<JsValue>)
    | Object(fields: map<string, JsValue>)

  /** A plain object such as a mutation payload; an absent key reads as `undefined`. */
  type Record = map<string, JsValue>

  /** `r.key` */
  function Get(r: Record, key: string): JsValue {
    if key in r then r[key] else Undefined
  }

  /** `v == null` (loose equality): true of `null` and `undefined` only. */
  predicate IsNullish(v: JsValue) {
    v == Undefined || v == Null
  }

  /** `a ?? b` */
  function Coalesce(a: JsValue, b: JsValue): JsValue {
    if IsNullish(a) then b else a
  }

  /** `typeof v === 'boolean'` */
  predicate IsBoolean(v: JsValue) {
    v.Bool?
  }

  /** `typeof v === 'number'` */
  predicate IsNumber(v: JsValue) {
    v.Number?
  }

  /** `Number(v)`, None standing for NaN. An array is converted through its text `items.join(',')`:
      `[]` is 0, a single element is converted by its own text (null and undefined giving ""), and
      two or more elements leave a comma, which is NaN. A plain object's text is NaN. */
  function ToNumber(v: JsValue): Option<int> {
    match v
    case Undefined => None
    case Null => Some(0)
    case Bool(b) => Some(if b then 1 else 0)
    case Number(n) => Some(n)
    case Str(s) => Text.StringToNumber(s)
    case Array(items) =>
      if items == [] then Some(0)
      else if |items| > 1 then None
      else (match items[0]
        case Undefined => Some(0)
        case Null => Some(0)
        case Bool(_) => None
        case Object(_) => None
        case _ => ToNumber(items[0]))
    case Object(_) => None
  }
}
