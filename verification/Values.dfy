/** The value domain every plane shares: what a row holds, a literal spells, a claim carries and an
    expression evaluates to. Numbers are exact: a double is a real, so rounding is not modelled. */
module Values {

  datatype NumKind = IntNum | DoubleNum | DecimalNum

  datatype Value =
    | Null
    | Bool(b: bool)
    | Num(kind: NumKind, n: real)
    | Str(s: string)
    | Date(day: int)
    | Stamp(instant: int)
    | List(items: seq<Value>)

  const MICROS_PER_DAY := 86_400_000_000

  predicate IsTime(v: Value) {
    v.Date? || v.Stamp?
  }

  /** Where a date or a timestamp lies in time: a date stands at its first microsecond. */
  function Instant(v: Value): int
    requires IsTime(v)
  {
    match v
    case Date(day) => day * MICROS_PER_DAY
    case Stamp(instant) => instant
  }

  /** Code-point order of strings. */
  predicate StrLess(a: string, b: string) {
    if b == [] then false
    else if a == [] then true
    else a[0] < b[0] || (a[0] == b[0] && StrLess(a[1..], b[1..]))
  }
}
