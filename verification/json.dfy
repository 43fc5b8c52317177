/**
 The values the normalizer receives from `json.loads` and hands back.
 JSON numbers with a fraction are modelled as exact decimals rather than
 IEEE doubles.
 */
module Json {

  /** The exact number mantissa / 10^scale. */
  datatype Decimal = Decimal(mantissa: int, scale: nat)

  /** A decoded JSON value. An object is the sequence of its dict's `items()`
      in iteration order. */
  datatype Json =
    | JNull
    | JBool(b: bool)
    | JInt(i: int)
    | JNum(n: Decimal)
    | JStr(s: string)
    | JArr(elems: seq<Json>)
    | JObj(fields: seq<(string, Json)>)

  /** Python truthiness: `None`, `False`, zero, the empty string and empty
      containers are falsy. */
  predicate Truthy(v: Json) {
    match v
    case JNull => false
    case JBool(b) => b
    case JInt(i) => i != 0
    case JNum(n) => n.mantissa != 0
    case JStr(s) => s != []
    case JArr(elems) => elems != []
    case JObj(fields) => fields != []
  }
}
