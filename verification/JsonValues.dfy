/** Values looked up in decoded JSON objects, with Python's truth and `str`. */
module JsonValues {
  import opened Strings

  /** `Absent` is a missing key or null. `Other` is any further value: how it is shown and whether it is true. */
  datatype Scalar = Absent | Text(text: string) | Number(n: int) | Other(shown: string, truthy: bool)

  predicate Truthy(s: Scalar) {
    match s
    case Absent => false
    case Text(text) => text != []
    case Number(n) => n != 0
    case Other(_, truthy) => truthy
  }

  /** Python's `a or b`. */
  function Or(a: Scalar, b: Scalar): Scalar {
    if Truthy(a) then a else b
  }

  function Str(s: Scalar): string {
    match s
    case Absent => []
    case Text(text) => text
    case Number(n) => Decimal(n)
    case Other(shown, _) => shown
  }
}
