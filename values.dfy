/** The dynamically typed values that flow through the backend's records:
    what sits in an import dictionary or in an ORM attribute. */
module Values {
  import opened PyStr
  import opened PyNum
  import opened PyDate

  datatype Value =
    | NoneVal
    | Str(s: string)
    | Int(i: int)
    | Float(x: Decimal)
    | Bool(b: bool)
    | DateVal(d: Date)
    | DateTimeVal(t: DateTime)

  /** Python truthiness (`if v:`). */
  predicate Truthy(v: Value) {
    match v
    case NoneVal => false
    case Str(s) => s != ""
    case Int(i) => i != 0
    case Float(x) => x.mantissa != 0
    case Bool(b) => b
    case DateVal(_) => true
    case DateTimeVal(_) => true
  }

  /** `str(v)`, which is also what an f-string `{v}` renders. */
  function Text(v: Value): string {
    match v
    case NoneVal => "None"
    case Str(s) => s
    case Int(i) => IntText(i)
    case Float(x) => FloatText(x)
    case Bool(b) => if b then "True" else "False"
    case DateVal(d) => IsoFormat(d)
    case DateTimeVal(t) => DateTimeText(t)
  }

  /** `{v or ''}` in an f-string: the text of a truthy value, else nothing. */
  function TextOrEmpty(v: Value): (r: string)
    ensures !Truthy(v) ==> r == ""
    ensures v.Str? ==> r == v.s
  {
    if Truthy(v) then Text(v) else ""
  }
}
