/** Conversion between one JSON value and one scalar field. */
module ScalarCodec {
  import opened Errors
  import opened FloatingPoint
  import opened Json
  import opened Descriptors

  // ---- Integers ----

  predicate IsSigned(t: TypeId) {
    t.TInt8? || t.TInt16? || t.TInt32? || t.TInt64?
  }

  predicate IsUnsigned(t: TypeId) {
    t.TChar? || t.TOctet? || t.TUInt8? || t.TUInt16? || t.TUInt32? || t.TUInt64?
  }

  predicate IsInteger(t: TypeId) {
    IsSigned(t) || IsUnsigned(t)
  }

  function MinOf(t: TypeId): Integer {
    match t
    case TInt8 => -0x80
    case TInt16 => -0x8000
    case TInt32 => -0x8000_0000
    case TInt64 => MIN_INT64
    case _ => 0
  }

  function MaxOf(t: TypeId): Integer {
    match t
    case TInt8 => 0x7f
    case TInt16 => 0x7fff
    case TInt32 => 0x7fff_ffff
    case TInt64 => INT64_LIMIT - 1
    case TUInt16 => 0xffff
    case TUInt32 => 0xffff_ffff
    case TUInt64 => UINT64_LIMIT - 1
    case _ => 0xff
  }

  /** static_cast to an integer type: the value modulo the width of the type. */
  function Wrap(t: TypeId, n: Integer): (r: Integer)
    ensures IsInteger(t) ==> IsInRange(t, r)
    ensures IsInRange(t, n) ==> r == n
  {
    MinOf(t) + (n - MinOf(t)) % (MaxOf(t) - MinOf(t) + 1)
  }

  function AssignSigned(fp: Platform, t: TypeId, j: Json): Result<Prim> {
    if !IsIntegral(fp, j) then Err(PermanentError(InvalidMessageField))
    else if AsInt64Throws(fp, j) then Err(UntypedException)
    else
      var parsed := IntegerOf(fp, j);
      if parsed < MinOf(t) || parsed > MaxOf(t) then Err(PermanentError(MessageFieldOutOfRange))
      else Ok(PInt(Wrap(t, parsed)))
  }

  function AssignUnsigned(fp: Platform, t: TypeId, j: Json): Result<Prim> {
    if !IsIntegral(fp, j) || (!AsInt64Throws(fp, j) && IntegerOf(fp, j) < 0) then
      Err(PermanentError(InvalidMessageField))
    else
      var parsed := IntegerOf(fp, j);
      if parsed > MaxOf(t) then Err(PermanentError(MessageFieldOutOfRange))
      else Ok(PInt(Wrap(t, parsed)))
  }

  // ---- Floating point ----

  predicate IsFloating(t: TypeId) {
    t.TFloat? || t.TDouble? || t.TLongDouble?
  }

  function FormatOf(fp: Platform, t: TypeId): Format {
    match t
    case TFloat => fp.single
    case TDouble => fp.double
    case _ => fp.extended
  }

  /** The comparison limit is the type's maximum converted to double, which for a wider type
      overflows to infinity. */
  function AssignFloating(fp: Platform, t: TypeId, j: Json): Result<Prim> {
    if !IsNumeric(j) then Err(PermanentError(InvalidMessageField))
    else
      var f := FormatOf(fp, t);
      var parsed := AsDouble(fp, j);
      if !parsed.Finite? || MagnitudeExceeds(parsed.r, Cast(fp.double, Finite(f.max))) then
        Err(PermanentError(MessageFieldOutOfRange))
      else Ok(PFloat(Cast(f, parsed)))
  }

  // ---- Strings ----

  predicate IsAscii(s: string) {
    forall i :: 0 <= i < |s| ==> s[i] as int <= 0x7f
  }

  predicate WithinBound(s: string, bound: nat) {
    bound != 0 ==> |s| <= bound
  }

  function AssignString(m: Member, j: Json): Result<Prim> {
    if !j.Str? then Err(PermanentError(InvalidMessageField))
    else if !WithinBound(j.s, m.stringBound) then Err(PermanentError(MessageFieldOutOfRange))
    else Ok(PStr(j.s))
  }

  function AssignWide(m: Member, j: Json): Result<Prim> {
    if !j.Str? then Err(PermanentError(InvalidMessageField))
    else if !IsAscii(j.s) then Err(PermanentError(UnsupportedMessageField))
    else if !WithinBound(j.s, m.stringBound) then Err(PermanentError(MessageFieldOutOfRange))
    else Ok(PWide(j.s))
  }

  /** What assigning `j` to a scalar field that is not a message stores. */
  function AssignPrim(fp: Platform, m: Member, j: Json): Result<Prim> {
    var t := m.typeId;
    if t.TBool? then
      if j.Bool? then Ok(PBool(j.b)) else Err(PermanentError(InvalidMessageField))
    else if IsFloating(t) then AssignFloating(fp, t, j)
    else if IsUnsigned(t) then AssignUnsigned(fp, t, j)
    else if IsSigned(t) then AssignSigned(fp, t, j)
    else if t.TString? then AssignString(m, j)
    else if t.TWString? then AssignWide(m, j)
    else Err(PermanentError(UnsupportedMessageField))
  }

  /** What reading a scalar field that is not a message projects. */
  function ProjectPrim(fp: Platform, t: TypeId, p: Prim): Result<Json> {
    if t.TBool? then if p.PBool? then Ok(Bool(p.b)) else Err(UndefinedBehaviour)
    else if t.TFloat? || t.TDouble? then
      if p.PFloat? then Ok(Real(Cast(fp.double, p.x))) else Err(UndefinedBehaviour)
    else if t.TLongDouble? then
      if !p.PFloat? then Err(UndefinedBehaviour)
      else if !p.x.Finite? || p.x.r > fp.double.max || -p.x.r > fp.double.max then
        Err(PermanentError(MessageFieldOutOfRange))
      else Ok(Real(Cast(fp.double, p.x)))
    else if IsInteger(t) then if p.PInt? then Ok(Int(p.n)) else Err(UndefinedBehaviour)
    else if t.TString? then if p.PStr? then Ok(Str(p.s)) else Err(UndefinedBehaviour)
    else if t.TWString? then
      if !p.PWide? then Err(UndefinedBehaviour)
      else if !IsAscii(p.w) then Err(PermanentError(UnsupportedMessageField))
      else Ok(Str(p.w))
    else Err(PermanentError(UnsupportedMessageField))
  }

  // ---- Declarative side ----

  /** The values of each integer type. */
  predicate IsInRange(t: TypeId, n: int) {
    match t
    case TChar | TOctet | TUInt8 => 0 <= n <= 255
    case TUInt16 => 0 <= n <= 65535
    case TUInt32 => 0 <= n <= 4294967295
    case TUInt64 => 0 <= n <= 18446744073709551615
    case TInt8 => -128 <= n <= 127
    case TInt16 => -32768 <= n <= 32767
    case TInt32 => -2147483648 <= n <= 2147483647
    case TInt64 => -9223372036854775808 <= n <= 9223372036854775807
    case _ => false
  }

  /** `j` is a value of the kind and range the field asks for. */
  predicate PrimConforms(fp: Platform, m: Member, j: Json) {
    var t := m.typeId;
    match t
    case TBool => j.Bool?
    case TFloat =>
      IsNumeric(j) && AsDouble(fp, j).Finite? && -fp.single.max <= AsDouble(fp, j).r <= fp.single.max
    case TDouble | TLongDouble => IsNumeric(j) && AsDouble(fp, j).Finite?
    case TString => j.Str? && (m.stringBound == 0 || |j.s| <= m.stringBound)
    case TWString => j.Str? && IsAscii(j.s) && (m.stringBound == 0 || |j.s| <= m.stringBound)
    case TMessage | TOther => false
    case _ => IsIntegral(fp, j) && IsInRange(t, IntegerOf(fp, j))
  }

  /** The physical type of the slot of a scalar field. */
  ghost predicate PrimHasType(fp: Platform, t: TypeId, p: Prim) {
    match t
    case TBool => p.PBool?
    case TFloat | TDouble | TLongDouble => p.PFloat? && Representable(FormatOf(fp, t), p.x)
    case TString => p.PStr?
    case TWString => p.PWide?
    case TMessage | TOther => true
    case _ => p.PInt? && IsInRange(t, p.n)
  }

  /** A typed value that JSON can carry: finite, representable as a double, ASCII, within bound. */
  ghost predicate PrimWellFormed(fp: Platform, m: Member, p: Prim) {
    var t := m.typeId;
    && PrimHasType(fp, t, p)
    && (IsFloating(t) ==> p.x.Finite? && Representable(fp.double, p.x))
    && (t.TString? ==> WithinBound(p.s, m.stringBound))
    && (t.TWString? ==> IsAscii(p.w) && WithinBound(p.w, m.stringBound))
    && !t.TMessage? && !t.TOther?
  }

  /** The number, truth value or text that `j` denotes: integers exactly, floating-point numbers as
      the nearest value of the field's format. */
  function Denoted(fp: Platform, m: Member, j: Json): Prim
    requires PrimConforms(fp, m, j)
  {
    match m.typeId
    case TBool => PBool(j.b)
    case TFloat | TDouble | TLongDouble =>
      PFloat(Finite(FormatOf(fp, m.typeId).round(AsDouble(fp, j).r)))
    case TString => PStr(j.s)
    case TWString => PWide(j.s)
    case TMessage | TOther => PNone
    case _ => PInt(IntegerOf(fp, j))
  }

  lemma AsDoubleIsDouble(fp: Platform, j: Json)
    requires IsNumeric(j)
    ensures Representable(fp.double, AsDouble(fp, j))
  {
    CastIsRepresentable(fp.double, if j.Int? then Finite(j.n as real) else j.x);
  }

  /** The comparison limit used for each floating-point type decides range exactly. */
  lemma LimitDecidesRange(fp: Platform, t: TypeId, r: real)
    requires IsFloating(t) && Representable(fp.double, Finite(r))
    ensures MagnitudeExceeds(r, Cast(fp.double, Finite(FormatOf(fp, t).max))) <==>
      !(-FormatOf(fp, t).max <= r <= FormatOf(fp, t).max)
  {
    match t
    case TFloat =>
      SingleIsDouble(fp, Finite(fp.single.max));
      CastFixesRepresentable(fp.double, Finite(fp.single.max));
    case TDouble =>
      CastFixesRepresentable(fp.double, Finite(fp.double.max));
    case TLongDouble =>
      ExtendedLimit(fp, r);
  }

  /** The nearest value of each format to a double in range is itself a double. */
  lemma NarrowedIsDouble(fp: Platform, t: TypeId, r: real)
    requires IsFloating(t) && Representable(fp.double, Finite(r))
    requires -FormatOf(fp, t).max <= r <= FormatOf(fp, t).max
    ensures Representable(fp.double, Finite(FormatOf(fp, t).round(r)))
  {
    match t
    case TFloat =>
      NarrowingInRangeIsFinite(fp.single, r);
      CastIsRepresentable(fp.single, Finite(r));
      SingleIsDouble(fp, Finite(fp.single.round(r)));
    case TDouble =>
    case TLongDouble =>
      DoubleIsExtended(fp, Finite(r));
  }

  lemma FormatOfIsFormat(fp: Platform, t: TypeId)
    ensures IsFormat(FormatOf(fp, t))
  {
  }

  lemma AssignFloatingExact(fp: Platform, t: TypeId, j: Json)
    requires IsFloating(t) && IsNumeric(j)
    ensures AssignFloating(fp, t, j).Ok? <==>
      AsDouble(fp, j).Finite? && -FormatOf(fp, t).max <= AsDouble(fp, j).r <= FormatOf(fp, t).max
    ensures AssignFloating(fp, t, j).Ok? ==>
      var q := Finite(FormatOf(fp, t).round(AsDouble(fp, j).r));
      AssignFloating(fp, t, j) == Ok(PFloat(q))
      && Representable(FormatOf(fp, t), q) && Representable(fp.double, q)
  {
    var d := AsDouble(fp, j);
    var f := FormatOf(fp, t);
    AsDoubleIsDouble(fp, j);
    FormatOfIsFormat(fp, t);
    if d.Finite? {
      LimitDecidesRange(fp, t, d.r);
      if -f.max <= d.r <= f.max {
        NarrowingInRangeIsFinite(f, d.r);
        CastIsRepresentable(f, d);
        NarrowedIsDouble(fp, t, d.r);
      }
    }
  }

  /** No finite double exceeds the long double maximum, however that maximum converts. */
  lemma ExtendedLimit(fp: Platform, r: real)
    requires Representable(fp.double, Finite(r))
    ensures !MagnitudeExceeds(r, Cast(fp.double, Finite(fp.extended.max)))
  {
    assert Monotone(fp.double, fp.double.max, fp.extended.max);
  }

  /** Acceptance, stored value and error of one scalar assignment, all at once. */
  ghost predicate Exact(fp: Platform, m: Member, j: Json, r: Result<Prim>) {
    && (r.Ok? <==> PrimConforms(fp, m, j))
    && (r.Ok? ==> r.value == Denoted(fp, m, j) && PrimWellFormed(fp, m, r.value))
    && (r.Err? ==> IsCodecError(r.error) || r.error == UntypedException)
    && (r == Err(UntypedException) <==>
      IsSigned(m.typeId) && IsIntegral(fp, j) && AsInt64Throws(fp, j))
  }

  lemma FloatingExact(fp: Platform, m: Member, j: Json)
    requires IsFloating(m.typeId)
    ensures Exact(fp, m, j, AssignFloating(fp, m.typeId, j))
  {
    var t := m.typeId;
    if IsNumeric(j) {
      AssignFloatingExact(fp, t, j);
      AsDoubleIsDouble(fp, j);
      if t.TLongDouble? && AsDouble(fp, j).Finite? {
        assert fp.double.max <= fp.extended.max;
      }
    }
  }

  lemma IntegerExact(fp: Platform, m: Member, j: Json)
    requires IsInteger(m.typeId)
    ensures Exact(fp, m, j, AssignPrim(fp, m, j))
  {
  }

  /** A scalar is accepted exactly when it conforms, and what is stored is what the JSON denotes,
      well-formed. */
  lemma AssignPrimExact(fp: Platform, m: Member, j: Json)
    ensures Exact(fp, m, j, AssignPrim(fp, m, j))
  {
    if IsFloating(m.typeId) {
      FloatingExact(fp, m, j);
    } else if IsInteger(m.typeId) {
      IntegerExact(fp, m, j);
    }
  }

  /** Projecting a well-formed scalar succeeds, and assigning the projection stores it again. */
  lemma PrimRoundTrip(fp: Platform, m: Member, p: Prim)
    requires PrimWellFormed(fp, m, p)
    ensures ProjectPrim(fp, m.typeId, p).Ok?
    ensures AssignPrim(fp, m, ProjectPrim(fp, m.typeId, p).value) == Ok(p)
  {
    var t := m.typeId;
    if IsFloating(t) {
      CastFixesRepresentable(fp.double, p.x);
      CastFixesRepresentable(FormatOf(fp, t), p.x);
      AssignFloatingExact(fp, t, Real(p.x));
    }
  }
}
