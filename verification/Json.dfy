/** JSON trees with unique object keys, and the number predicates of the JSON library. */
module Json {
  import opened FloatingPoint

  const MIN_INT64: int := -0x8000_0000_0000_0000
  const INT64_LIMIT: int := 0x8000_0000_0000_0000
  const UINT64_LIMIT: int := 0x1_0000_0000_0000_0000

  /** A JSON integer is held as a signed or an unsigned 64-bit integer. */
  type Integer = n: int | MIN_INT64 <= n < UINT64_LIMIT

  /** A string is its sequence of bytes, one `char` each. */
  datatype Json =
    | Null
    | Bool(b: bool)
    | Int(n: Integer)
    | Real(x: Float)
    | Str(s: string)
    | Arr(items: seq<Json>)
    | Obj(fields: map<string, Json>)

  predicate IsNumeric(j: Json) {
    j.Int? || j.Real?
  }

  /** A real number in the text is held as the nearest double. */
  function AsDouble(fp: Platform, j: Json): Float
    requires IsNumeric(j)
  {
    if j.Int? then Cast(fp.double, Finite(j.n as real)) else Cast(fp.double, j.x)
  }

  /** Integers, and reals with an integral value in the signed or unsigned 64-bit range. */
  predicate IsIntegral(fp: Platform, j: Json) {
    || j.Int?
    || (j.Real? &&
        var d := AsDouble(fp, j);
        && d.Finite?
        && d.r == d.r.Floor as real
        && MIN_INT64 <= d.r.Floor < UINT64_LIMIT)
  }

  function IntegerOf(fp: Platform, j: Json): Integer
    requires IsIntegral(fp, j)
  {
    if j.Int? then j.n else AsDouble(fp, j).r.Floor
  }

  /** `j` stands for the finite number `r`: the nearest double to what it says. */
  ghost predicate IsNumber(fp: Platform, j: Json, r: real) {
    && (j.Int? || (j.Real? && j.x.Finite?))
    && fp.double.round(if j.Int? then j.n as real else j.x.r) == r
    && -fp.double.max <= r <= fp.double.max
  }

  /** `j` stands for the integer `n`: it is `n`, or a real that stands for `n` and that a signed or
      unsigned 64-bit integer can hold. */
  ghost predicate IsWhole(fp: Platform, j: Json, n: int) {
    || (j.Int? && j.n == n)
    || (j.Real? && IsNumber(fp, j, n as real) && -9223372036854775808 <= n <= 18446744073709551615)
  }

  /** The numbers with a finite double are the ones that stand for a number, and for one only. */
  lemma NumberExactly(fp: Platform, j: Json, r: real)
    ensures IsNumber(fp, j, r) <==> IsNumeric(j) && AsDouble(fp, j) == Finite(r)
  {
  }

  /** The integral values are the ones that stand for an integer, and for one only. */
  lemma IntegralExactly(fp: Platform, j: Json, n: int)
    ensures IsWhole(fp, j, n) <==> IsIntegral(fp, j) && IntegerOf(fp, j) == n
  {
    assert (n as real).Floor == n;
    NumberExactly(fp, j, n as real);
  }

  /** asInt64 throws when the integral value does not fit; asUInt64 then still does. */
  predicate AsInt64Throws(fp: Platform, j: Json)
    requires IsIntegral(fp, j)
  {
    IntegerOf(fp, j) >= INT64_LIMIT
  }
}
