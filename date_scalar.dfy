/**
  The `Date` custom scalar: the three coercions the GraphQL engine calls when a
  `Date` value crosses the client/server boundary.

  A JavaScript `Date` is modelled by its time value: a whole number of
  milliseconds since the epoch within the range of section 21.4.1.1 of
  ECMA-262 ("Time Values and Time Range"), or the invalid date whose time
  value is NaN. A JavaScript number handed to or produced by the scalar is
  modelled as an integer or NaN.
 */
module DateScalar {
  import Decimal

  datatype Option<T> = None | Some(value: T)

  /** The largest magnitude of a time value: 100,000,000 days of milliseconds. */
  const MaxTimeValue: int := 8_640_000_000_000_000

  predicate InTimeRange(t: int) {
    -MaxTimeValue <= t <= MaxTimeValue
  }

  type TimeValue = t: int | InTimeRange(t)

  /** A `Date` object: a valid date holding its time value, or `Invalid Date`. */
  datatype Date = Date(time: TimeValue) | InvalidDate

  /** A JavaScript number that is integral or NaN. */
  datatype Number = Integral(n: int) | NaN

  /** The kinds of value literal a GraphQL document can hold (graphql-js `Kind`). */
  datatype Kind = INT | FLOAT | STRING | BOOLEAN | NULL | ENUM | LIST | OBJECT | VARIABLE

  /** A value literal node of the query text; `value` is the literal's source text. */
  datatype ValueNode = ValueNode(kind: Kind, value: string)

  /** What the GraphQL lexer guarantees of a node: an `INT` node holds integer-literal text. */
  predicate WellFormed(ast: ValueNode) {
    ast.kind == INT ==> Decimal.IsIntLiteral(ast.value)
  }

  /**
    `__serialize`: the outbound value of a `Date` is its millisecond timestamp,
    `value.getTime()`; an invalid date gives NaN.
   */
  function Serialize(value: Date): (ms: Number)
    ensures ms.NaN? <==> value.InvalidDate?
    ensures value.Date? ==> ms == Integral(value.time)
  {
    match value
    case Date(t) => Integral(t)
    case InvalidDate => NaN
  }

  /**
    `__parseValue`: a `date` supplied through query variables becomes
    `new Date(value)`. For an integer number of milliseconds the date is valid
    exactly when the number is in the time range, and it then serializes back
    to that number.
   */
  function ParseValue(value: int): (d: Date)
    ensures d.Date? <==> InTimeRange(value)
    ensures InTimeRange(value) ==> Serialize(d) == Integral(value)
    ensures !InTimeRange(value) ==> Serialize(d) == NaN
  {
    if InTimeRange(value) then Date(value) else InvalidDate
  }

  /**
    `__parseLiteral`: an inline literal of kind `INT` becomes the integer its
    text denotes, `parseInt(ast.value, 10)`, and every other kind becomes null
    (`None`). The integer is returned as it is, not wrapped in a `Date`.
   */
  function ParseLiteral(ast: ValueNode): (r: Option<int>)
    requires WellFormed(ast)
    ensures r.Some? <==> ast.kind == INT
    ensures r.Some? && ast.value != "-0" ==> Decimal.IntToLiteral(r.value) == ast.value
    ensures r.Some? ==> (r.value < 0 <==> ast.value[0] == '-' && ast.value != "-0")
  {
    if ast.kind == INT then Some(Decimal.ParseIntLiteral(ast.value)) else None
  }

  /** A valid date survives serialization followed by `__parseValue`. */
  lemma SerializeThenParse(d: Date)
    requires d.Date?
    ensures Serialize(d).Integral? && ParseValue(Serialize(d).n) == d
  {
  }

  /** Every integer literal the engine can be handed parses to the integer it prints as. */
  lemma ParseLiteralOfInt(n: int)
    ensures WellFormed(ValueNode(INT, Decimal.IntToLiteral(n)))
    ensures ParseLiteral(ValueNode(INT, Decimal.IntToLiteral(n))) == Some(n)
  {
  }

  /**
    The inline path and the variable path disagree outside the time range: an
    integer literal there is accepted as a plain number, while the same number
    given as a variable yields an invalid date.
   */
  lemma LiteralOutsideTimeRange(n: int)
    requires !InTimeRange(n)
    ensures ParseLiteral(ValueNode(INT, Decimal.IntToLiteral(n))) == Some(n)
    ensures ParseValue(n) == InvalidDate && Serialize(ParseValue(n)) == NaN
  {
  }
}
