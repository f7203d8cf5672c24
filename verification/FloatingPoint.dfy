/** Floating-point numbers by their defining properties: a format is a monotone rounding function
    that fixes the values it can represent, together with its largest finite value
    (IEEE 754-2019, sections 4.3 and 7.4).  Signed zeros are identified. */
module FloatingPoint {

  datatype Float = Finite(r: real) | PosInf | NegInf | NaN

  datatype Format = Format(round: real -> real, max: real)

  /** Rounding keeps the order of `x` and `y`. */
  predicate Monotone(f: Format, x: real, y: real) {
    x <= y ==> f.round(x) <= f.round(y)
  }

  /** What `x` rounds to in the narrow format is a value of the wide one. */
  predicate Widens(narrow: Format, wide: Format, x: real) {
    wide.round(narrow.round(x)) == narrow.round(x)
  }

  ghost predicate IsFormat(f: Format) {
    && 0.0 < f.max
    && f.round(0.0) == 0.0
    && f.round(f.max) == f.max
    && f.round(-f.max) == -f.max
    && (forall x: real, y: real :: Monotone(f, x, y))
    && (forall x: real :: Widens(f, f, x))
  }

  /** float, double and long double; every value of one is a value of the next. */
  datatype FormatTriple = FormatTriple(single: Format, double: Format, extended: Format)

  ghost predicate IsPlatform(p: FormatTriple) {
    && IsFormat(p.single) && IsFormat(p.double) && IsFormat(p.extended)
    && p.single.max <= p.double.max <= p.extended.max
    && (forall x: real :: Widens(p.single, p.double, x))
    && (forall x: real :: Widens(p.double, p.extended, x))
  }

  const EXACT := Format((x: real) => x, 1.0)

  type Platform = p: FormatTriple | IsPlatform(p) witness FormatTriple(EXACT, EXACT, EXACT)

  /** Conversion of a number to a format: round, then overflow to an infinity. */
  function Cast(f: Format, x: Float): Float {
    match x
    case Finite(r) =>
      var q := f.round(r);
      if q > f.max then PosInf else if q < -f.max then NegInf else Finite(q)
    case _ => x
  }

  /** The values a variable of the format can hold. */
  ghost predicate Representable(f: Format, x: Float) {
    x.Finite? ==> f.round(x.r) == x.r && -f.max <= x.r <= f.max
  }

  /** fabs(x) > m for a finite x, as the processor compares it. */
  predicate MagnitudeExceeds(r: real, m: Float) {
    match m
    case Finite(b) => r > b || -r > b
    case PosInf => false
    case NegInf => true
    case NaN => false
  }

  lemma CastIsRepresentable(f: Format, x: Float)
    requires IsFormat(f)
    ensures Representable(f, Cast(f, x))
  {
    if x.Finite? {
      assert Widens(f, f, x.r);
    }
  }

  lemma CastFixesRepresentable(f: Format, x: Float)
    requires Representable(f, x)
    ensures Cast(f, x) == x
  {
  }

  /** A value that does not exceed the largest finite value cannot overflow when narrowed. */
  lemma NarrowingInRangeIsFinite(f: Format, r: real)
    requires IsFormat(f) && -f.max <= r <= f.max
    ensures Cast(f, Finite(r)) == Finite(f.round(r))
    ensures -f.max <= f.round(r) <= f.max
  {
    assert Monotone(f, -f.max, r) && Monotone(f, r, f.max);
  }

  lemma SingleIsDouble(p: Platform, x: Float)
    requires Representable(p.single, x)
    ensures Representable(p.double, x)
  {
    if x.Finite? {
      assert Widens(p.single, p.double, x.r);
    }
  }

  lemma DoubleIsExtended(p: Platform, x: Float)
    requires Representable(p.double, x)
    ensures Representable(p.extended, x)
  {
    if x.Finite? {
      assert Widens(p.double, p.extended, x.r);
    }
  }
}
