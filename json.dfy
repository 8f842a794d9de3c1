/**
 * The payload side: `serde_json::Value`, the shape in which the evtx decoder
 * hands over each record's data. A number keeps only what serde_json's own
 * representation distinguishes: a non-negative integer that fits in a u64,
 * a negative integer that fits in an i64, or a float (whose value plays no
 * part here).
 */
module Json {
  import opened Wrappers

  const U64_BOUND: int := 0x1_0000_0000_0000_0000
  const I64_MIN: int := -0x8000_0000_0000_0000

  type U64 = n: int | 0 <= n < 0x1_0000_0000_0000_0000

  type NegI64 = i: int | -0x8000_0000_0000_0000 <= i < 0 witness -1

  datatype Num = PosInt(n: U64) | NegInt(i: NegI64) | Float

  datatype Value =
    | Null
    | Bool(b: bool)
    | Number(num: Num)
    | String(str: string)
    | Array(items: seq<Value>)
      /** The entries of a `serde_json::Map`, in its iteration order. */
    | Object(entries: seq<(string, Value)>)

  /** `Number::as_u64`: the integer, when the number is a non-negative integer below 2^64. */
  function AsU64(n: Num): (r: Option<U64>)
    ensures r.Some? <==> n.PosInt?
    ensures r.Some? ==> r.value == n.n
  {
    match n
    case PosInt(u) => Some(u)
    case NegInt(_) => None
    case Float => None
  }

  /** How serde_json stores an integer literal: u64 if it fits, else i64 if it fits, else f64. */
  function OfInteger(i: int): (n: Num)
    ensures 0 <= i < U64_BOUND ==> n.PosInt?
    ensures I64_MIN <= i < 0 ==> n.NegInt?
    ensures n.PosInt? ==> n.n == i
    ensures n.NegInt? ==> n.i == i
  {
    if 0 <= i < U64_BOUND then PosInt(i)
    else if I64_MIN <= i < 0 then NegInt(i)
    else Float
  }

  /** `as_u64` recovers exactly the integers in [0, 2^64). */
  lemma AsU64OfInteger(i: int)
    ensures AsU64(OfInteger(i)) == if 0 <= i < U64_BOUND then Some(i) else None
  {
  }
}
