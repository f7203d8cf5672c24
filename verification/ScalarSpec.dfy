/** What one scalar field makes of one JSON value and back, said without the code: which value is
    stored, which refusal is raised, and which JSON a value is printed as. */
module ScalarSpec {
  import opened Errors
  import opened FloatingPoint
  import opened Json
  import opened Descriptors
  import opened ScalarCodec

  // ---- From JSON ----

  ghost predicate IsStoredWhole(fp: Platform, j: Json, lo: int, hi: int, p: Prim) {
    p.PInt? && IsWhole(fp, j, p.n) && lo <= p.n <= hi
  }

  /** A field of the type accepts `j` and then holds `p`: integers exactly and within the type's
      limits, floats as the nearest value of their format and only up to its largest one. */
  ghost predicate Stores(fp: Platform, m: Member, j: Json, p: Prim) {
    match m.typeId
    case TBool => j.Bool? && p == PBool(j.b)
    case TFloat =>
      exists r :: IsNumber(fp, j, r) && -fp.single.max <= r <= fp.single.max && p == PFloat(Finite(fp.single.round(r)))
    case TDouble => p.PFloat? && p.x.Finite? && IsNumber(fp, j, p.x.r)
    case TLongDouble => p.PFloat? && p.x.Finite? && IsNumber(fp, j, p.x.r)
    case TChar => IsStoredWhole(fp, j, 0, 255, p)
    case TOctet => IsStoredWhole(fp, j, 0, 255, p)
    case TUInt8 => IsStoredWhole(fp, j, 0, 255, p)
    case TUInt16 => IsStoredWhole(fp, j, 0, 65535, p)
    case TUInt32 => IsStoredWhole(fp, j, 0, 4294967295, p)
    case TUInt64 => IsStoredWhole(fp, j, 0, 18446744073709551615, p)
    case TInt8 => IsStoredWhole(fp, j, -128, 127, p)
    case TInt16 => IsStoredWhole(fp, j, -32768, 32767, p)
    case TInt32 => IsStoredWhole(fp, j, -2147483648, 2147483647, p)
    case TInt64 => IsStoredWhole(fp, j, -9223372036854775808, 9223372036854775807, p)
    case TString => j.Str? && p == PStr(j.s) && (m.stringBound == 0 || |j.s| <= m.stringBound)
    case TWString =>
      && j.Str? && p == PWide(j.s) && (m.stringBound == 0 || |j.s| <= m.stringBound)
      && forall i :: 0 <= i < |j.s| ==> j.s[i] as int < 128
    case TMessage => false
    case TOther => false
  }

  /** `j` is of the kind the type asks for. */
  ghost predicate IsOfKind(fp: Platform, t: TypeId, j: Json) {
    match t
    case TBool => j.Bool?
    case TFloat | TDouble | TLongDouble => j.Int? || j.Real?
    case TChar | TOctet | TUInt8 | TUInt16 | TUInt32 | TUInt64 => exists n :: IsWhole(fp, j, n) && 0 <= n
    case TInt8 | TInt16 | TInt32 | TInt64 => exists n :: IsWhole(fp, j, n)
    case TString | TWString => j.Str?
    case TMessage | TOther => true
  }

  /** How a field of the type refuses `j`: the wrong kind first; then what wide strings and unknown
      types cannot hold; a signed field given 2^63 or more throws; anything else is out of range. */
  ghost predicate Refuses(fp: Platform, m: Member, j: Json, e: Error) {
    if !IsOfKind(fp, m.typeId, j) then e == PermanentError(InvalidMessageField)
    else
      match m.typeId
      case TMessage | TOther => e == PermanentError(UnsupportedMessageField)
      case TWString =>
        if exists i :: 0 <= i < |j.s| && 128 <= j.s[i] as int then e == PermanentError(UnsupportedMessageField)
        else m.stringBound != 0 && m.stringBound < |j.s| && e == PermanentError(MessageFieldOutOfRange)
      case TInt8 | TInt16 | TInt32 | TInt64 =>
        if exists n :: IsWhole(fp, j, n) && 9223372036854775808 <= n then e == UntypedException
        else !(exists p :: Stores(fp, m, j, p)) && e == PermanentError(MessageFieldOutOfRange)
      case _ => !(exists p :: Stores(fp, m, j, p)) && e == PermanentError(MessageFieldOutOfRange)
  }

  lemma WholeOf(fp: Platform, j: Json)
    ensures IsIntegral(fp, j) <==> exists n :: IsWhole(fp, j, n)
    ensures IsIntegral(fp, j) ==> forall n :: IsWhole(fp, j, n) <==> n == IntegerOf(fp, j)
  {
    if IsIntegral(fp, j) {
      IntegralExactly(fp, j, IntegerOf(fp, j));
    }
    forall n ensures IsWhole(fp, j, n) <==> IsIntegral(fp, j) && IntegerOf(fp, j) == n {
      IntegralExactly(fp, j, n);
    }
  }

  lemma NumberOf(fp: Platform, j: Json)
    ensures forall r :: IsNumber(fp, j, r) <==> IsNumeric(j) && AsDouble(fp, j) == Finite(r)
  {
    forall r ensures IsNumber(fp, j, r) <==> IsNumeric(j) && AsDouble(fp, j) == Finite(r) {
      NumberExactly(fp, j, r);
    }
  }

  /** A double is its own nearest double and its own nearest long double. */
  lemma DoubleIsKept(fp: Platform, j: Json)
    requires IsNumeric(j) && AsDouble(fp, j).Finite?
    ensures fp.double.round(AsDouble(fp, j).r) == AsDouble(fp, j).r
    ensures fp.extended.round(AsDouble(fp, j).r) == AsDouble(fp, j).r
  {
    AsDoubleIsDouble(fp, j);
    DoubleIsExtended(fp, AsDouble(fp, j));
  }

  lemma ConformingIsStored(fp: Platform, m: Member, j: Json)
    ensures PrimConforms(fp, m, j) <==> exists p :: Stores(fp, m, j, p)
    ensures PrimConforms(fp, m, j) ==> forall p :: Stores(fp, m, j, p) <==> p == Denoted(fp, m, j)
  {
    hide IsWhole, IsNumber, IsIntegral, IntegerOf, AsDouble;
    WholeOf(fp, j);
    NumberOf(fp, j);
    if IsNumeric(j) && AsDouble(fp, j).Finite? {
      DoubleIsKept(fp, j);
    }
    if PrimConforms(fp, m, j) {
      assert Stores(fp, m, j, Denoted(fp, m, j));
    }
  }

  /** Assigning `j` to a field stores `p` if and only if that is what the field makes of `j`. */
  lemma AssignPrimStores(fp: Platform, m: Member, j: Json, p: Prim)
    ensures AssignPrim(fp, m, j) == Ok(p) <==> Stores(fp, m, j, p)
  {
    hide PrimConforms, Denoted, Stores, AssignPrim, PrimWellFormed;
    AssignPrimExact(fp, m, j);
    ConformingIsStored(fp, m, j);
  }

  /** Assigning `j` to a field raises `e` if and only if that is how the field refuses `j`. */
  lemma AssignPrimRefuses(fp: Platform, m: Member, j: Json, e: Error)
    ensures AssignPrim(fp, m, j) == Err(e) <==> Refuses(fp, m, j, e)
  {
    ConformingIsStored(fp, m, j);
    hide IsWhole, IsNumber, Stores, PrimConforms, Denoted, AssignPrim, Refuses;
    if IsInteger(m.typeId) {
      IntegerRefuses(fp, m, j, e);
    } else if IsFloating(m.typeId) {
      FloatingRefuses(fp, m, j, e);
    } else {
      OtherRefuses(fp, m, j, e);
    }
  }

  lemma IntegerRefuses(fp: Platform, m: Member, j: Json, e: Error)
    requires IsInteger(m.typeId) && (PrimConforms(fp, m, j) <==> exists p :: Stores(fp, m, j, p))
    ensures AssignPrim(fp, m, j) == Err(e) <==> Refuses(fp, m, j, e)
  {
    hide IsWhole, IsNumber, IsIntegral, IntegerOf, AsDouble, Stores, PrimConforms, Denoted, PrimWellFormed,
      AssignPrim, Refuses;
    AssignPrimExact(fp, m, j);
    WholeOf(fp, j);
    ThrowsFrom(fp, j);
    if IsSigned(m.typeId) {
      SignedRefuses(fp, m, j, e);
    } else {
      UnsignedRefuses(fp, m, j, e);
    }
  }

  /** What an integral value is, in both ways of saying it. */
  ghost predicate WholeFacts(fp: Platform, j: Json) {
    && (IsIntegral(fp, j) <==> exists n :: IsWhole(fp, j, n))
    && (IsIntegral(fp, j) ==> forall n :: IsWhole(fp, j, n) <==> n == IntegerOf(fp, j))
    && (IsIntegral(fp, j) ==> (AsInt64Throws(fp, j) <==> 9223372036854775808 <= IntegerOf(fp, j)))
  }

  lemma SignedRefuses(fp: Platform, m: Member, j: Json, e: Error)
    requires IsSigned(m.typeId) && (PrimConforms(fp, m, j) <==> exists p :: Stores(fp, m, j, p))
    requires Exact(fp, m, j, AssignPrim(fp, m, j)) && WholeFacts(fp, j)
    ensures AssignPrim(fp, m, j) == Err(e) <==> Refuses(fp, m, j, e)
  {
    hide IsWhole, IsNumber, IsIntegral, IntegerOf, AsDouble, Stores, PrimConforms, Denoted, PrimWellFormed,
      AsInt64Throws;
  }

  lemma UnsignedRefuses(fp: Platform, m: Member, j: Json, e: Error)
    requires IsUnsigned(m.typeId) && (PrimConforms(fp, m, j) <==> exists p :: Stores(fp, m, j, p))
    requires Exact(fp, m, j, AssignPrim(fp, m, j)) && WholeFacts(fp, j)
    ensures AssignPrim(fp, m, j) == Err(e) <==> Refuses(fp, m, j, e)
  {
    hide IsWhole, IsNumber, IsIntegral, IntegerOf, AsDouble, Stores, PrimConforms, Denoted, PrimWellFormed,
      AsInt64Throws;
  }

  lemma FloatingRefuses(fp: Platform, m: Member, j: Json, e: Error)
    requires IsFloating(m.typeId) && (PrimConforms(fp, m, j) <==> exists p :: Stores(fp, m, j, p))
    ensures AssignPrim(fp, m, j) == Err(e) <==> Refuses(fp, m, j, e)
  {
    hide IsWhole, IsNumber, IsIntegral, IntegerOf, AsDouble, Stores, PrimConforms, Denoted, PrimWellFormed, Cast,
      MagnitudeExceeds;
    AssignPrimExact(fp, m, j);
  }

  lemma OtherRefuses(fp: Platform, m: Member, j: Json, e: Error)
    requires !IsInteger(m.typeId) && !IsFloating(m.typeId)
    requires PrimConforms(fp, m, j) <==> exists p :: Stores(fp, m, j, p)
    ensures AssignPrim(fp, m, j) == Err(e) <==> Refuses(fp, m, j, e)
  {
    hide IsWhole, IsNumber, IsIntegral, IntegerOf, AsDouble, Stores, Denoted, PrimWellFormed;
  }

  lemma ThrowsFrom(fp: Platform, j: Json)
    ensures IsIntegral(fp, j) ==> (AsInt64Throws(fp, j) <==> 9223372036854775808 <= IntegerOf(fp, j))
  {
  }

  /** An integer is accepted by exactly the types whose limits hold it. */
  lemma IntegerFieldsExactly(fp: Platform, m: Member, n: Integer)
    ensures m.typeId.TUInt8? ==> (AssignPrim(fp, m, Int(n)).Ok? <==> 0 <= n <= 255)
    ensures m.typeId.TUInt16? ==> (AssignPrim(fp, m, Int(n)).Ok? <==> 0 <= n <= 65535)
    ensures m.typeId.TUInt32? ==> (AssignPrim(fp, m, Int(n)).Ok? <==> 0 <= n <= 4294967295)
    ensures m.typeId.TUInt64? ==> (AssignPrim(fp, m, Int(n)).Ok? <==> 0 <= n <= 18446744073709551615)
    ensures m.typeId.TInt8? ==> (AssignPrim(fp, m, Int(n)).Ok? <==> -128 <= n <= 127)
    ensures m.typeId.TInt16? ==> (AssignPrim(fp, m, Int(n)).Ok? <==> -32768 <= n <= 32767)
    ensures m.typeId.TInt32? ==> (AssignPrim(fp, m, Int(n)).Ok? <==> -2147483648 <= n <= 2147483647)
    ensures m.typeId.TInt64? ==>
      (AssignPrim(fp, m, Int(n)).Ok? <==> -9223372036854775808 <= n <= 9223372036854775807)
    ensures IsInteger(m.typeId) && AssignPrim(fp, m, Int(n)).Ok? ==> AssignPrim(fp, m, Int(n)) == Ok(PInt(n))
  {
    hide AssignPrim;
    AssignPrimExact(fp, m, Int(n));
  }

  // ---- To JSON ----

  /** The value prints as `j`: numbers as they are, infinities and NaN included, and a long double as
      the nearest double. */
  predicate Prints(fp: Platform, t: TypeId, p: Prim, j: Json) {
    match t
    case TBool => p.PBool? && j == Bool(p.b)
    case TFloat | TDouble => p.PFloat? && j == Real(p.x)
    case TLongDouble =>
      && p.PFloat? && p.x.Finite? && -fp.double.max <= p.x.r <= fp.double.max
      && j == Real(Finite(fp.double.round(p.x.r)))
    case TString => p.PStr? && j == Str(p.s)
    case TWString => p.PWide? && j == Str(p.w) && forall i :: 0 <= i < |p.w| ==> p.w[i] as int < 128
    case TMessage | TOther => false
    case _ => p.PInt? && j == Int(p.n)
  }

  /** The value has no JSON, for this reason. */
  predicate Unprintable(fp: Platform, t: TypeId, p: Prim, e: Error) {
    match t
    case TLongDouble =>
      && p.PFloat? && !(p.x.Finite? && -fp.double.max <= p.x.r <= fp.double.max)
      && e == PermanentError(MessageFieldOutOfRange)
    case TWString =>
      && p.PWide? && (exists i :: 0 <= i < |p.w| && 128 <= p.w[i] as int)
      && e == PermanentError(UnsupportedMessageField)
    case TMessage | TOther => e == PermanentError(UnsupportedMessageField)
    case _ => false
  }

  /** A typed value is projected to `j` if and only if it prints as `j`. */
  lemma ProjectPrimPrints(fp: Platform, t: TypeId, p: Prim, j: Json)
    requires PrimHasType(fp, t, p)
    ensures ProjectPrim(fp, t, p) == Ok(j) <==> Prints(fp, t, p, j)
  {
    if t.TFloat? {
      SingleIsDouble(fp, p.x);
    }
    if t.TFloat? || t.TDouble? {
      CastFixesRepresentable(fp.double, p.x);
    }
    if t.TLongDouble? && p.x.Finite? && -fp.double.max <= p.x.r <= fp.double.max {
      NarrowingInRangeIsFinite(fp.double, p.x.r);
    }
  }

  lemma ProjectPrimUnprintable(fp: Platform, t: TypeId, p: Prim, e: Error)
    requires PrimHasType(fp, t, p)
    ensures ProjectPrim(fp, t, p) == Err(e) <==> Unprintable(fp, t, p, e)
  {
  }
}
