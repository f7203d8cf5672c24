/** The ROS context a process is bound to, how an instance spec names it, and which invocation
    subjects it accepts. */
module NativeContext {
  import opened Errors
  import opened FloatingPoint
  import opened Json
  import opened Wire

  const MAXIMUM_DOMAIN_ID: nat := 232
  const MAXIMUM_CONFIGURATION_BYTES: nat := 16 * 1024
  const SCOPE_KIND := "ros2-native-context"
  const DOMAIN_ATTRIBUTE := "domain-id"
  const RMW_ATTRIBUTE := "rmw-implementation"
  const DOMAIN_FIELD := "domainId"
  const RMW_FIELD := "rmwImplementation"

  datatype Context = Context(domainId: nat, rmwImplementation: string, scopeKey: string)

  // ---- Decimal printing ----

  function Digit(d: nat): char
    requires d < 10
  {
    ('0' as int + d) as char
  }

  function Decimal(n: nat): (s: string)
    ensures s != []
  {
    if n < 10 then [Digit(n)] else Decimal(n / 10) + [Digit(n % 10)]
  }

  function ParseDecimal(s: string): int
    requires s != []
  {
    var last := s[|s| - 1] as int - '0' as int;
    if |s| == 1 then last else 10 * ParseDecimal(s[..|s| - 1]) + last
  }

  lemma {:induction false} ParseOfDecimal(n: nat)
    ensures ParseDecimal(Decimal(n)) == n
  {
    if 10 <= n {
      ParseOfDecimal(n / 10);
      assert Decimal(n)[..|Decimal(n)| - 1] == Decimal(n / 10);
    }
  }

  /** Digits only, with no leading zero. */
  predicate IsNumeral(s: string) {
    && s != [] && (|s| > 1 ==> s[0] != '0')
    && forall i :: 0 <= i < |s| ==> '0' <= s[i] <= '9'
  }

  lemma {:induction false} DecimalIsNumeral(n: nat)
    ensures IsNumeral(Decimal(n)) && (0 < n ==> Decimal(n)[0] != '0')
  {
    if 10 <= n {
      DecimalIsNumeral(n / 10);
    }
  }

  lemma {:induction false} DecimalOfParse(s: string)
    requires IsNumeral(s)
    ensures 0 <= ParseDecimal(s) && Decimal(ParseDecimal(s)) == s
    ensures s[0] != '0' ==> 0 < ParseDecimal(s)
    decreases |s|
  {
    if |s| > 1 {
      var front := s[..|s| - 1];
      assert IsNumeral(front) && front[0] == s[0];
      DecimalOfParse(front);
      assert s == front + [s[|s| - 1]];
    }
  }

  /** A number is printed as the one numeral without leading zeros that reads as it. */
  lemma DecimalExactly(n: nat, s: string)
    ensures s == Decimal(n) <==> IsNumeral(s) && ParseDecimal(s) == n
  {
    ParseOfDecimal(n);
    DecimalIsNumeral(n);
    if IsNumeral(s) {
      DecimalOfParse(s);
    }
  }

  lemma DecimalInjective(a: nat, b: nat)
    requires Decimal(a) == Decimal(b)
    ensures a == b
  {
    ParseOfDecimal(a);
    ParseOfDecimal(b);
  }

  // ---- Scope attributes ----

  /** The check as the code makes it: two lookups and a size. */
  predicate AttributesMatch(c: Context, attributes: map<string, string>) {
    var scopedRmw := if RMW_ATTRIBUTE in attributes then attributes[RMW_ATTRIBUTE] else "";
    && DOMAIN_ATTRIBUTE in attributes
    && attributes[DOMAIN_ATTRIBUTE] == Decimal(c.domainId)
    && scopedRmw == c.rmwImplementation
    && |attributes| == 1 + (if c.rmwImplementation != "" then 1 else 0)
  }

  /** The attributes a context is named by. */
  function CanonicalAttributes(c: Context): map<string, string> {
    if c.rmwImplementation == "" then map["domain-id" := Decimal(c.domainId)]
    else map["domain-id" := Decimal(c.domainId), "rmw-implementation" := c.rmwImplementation]
  }

  /** The scope a context is named by. */
  function CanonicalScope(c: Context): Scope {
    Scope("ros2-native-context", c.scopeKey, CanonicalAttributes(c))
  }

  lemma AttributeNamesDiffer()
    ensures DOMAIN_ATTRIBUTE != RMW_ATTRIBUTE && DOMAIN_FIELD != RMW_FIELD
  {
    assert DOMAIN_ATTRIBUTE[0] != RMW_ATTRIBUTE[0];
    assert DOMAIN_FIELD[0] != RMW_FIELD[0];
  }

  lemma SubsetOfSameSize<T>(a: set<T>, b: set<T>)
    requires a <= b && |a| == |b|
    ensures a == b
  {
    assert |b - a| == |b| - |a|;
  }

  /** Two lookups and a size pin down the whole attribute map. */
  lemma AttributesExact(c: Context, attributes: map<string, string>)
    ensures AttributesMatch(c, attributes) <==> attributes == CanonicalAttributes(c)
  {
    AttributeNamesDiffer();
    var canonical := CanonicalAttributes(c);
    assert |canonical| == 1 + (if c.rmwImplementation != "" then 1 else 0);
    if AttributesMatch(c, attributes) {
      assert canonical.Keys <= attributes.Keys;
      SubsetOfSameSize(canonical.Keys, attributes.Keys);
      assert attributes == canonical;
    }
  }

  // ---- From a spec ----

  function RequiredPossiblyEmptyString(fields: map<string, Json>, name: string): Result<string> {
    if name !in fields || !fields[name].Str? then Err(PermanentError(InvalidConfiguration))
    else Ok(fields[name].s)
  }

  function ParseDomain(fp: Platform, fields: map<string, Json>): (r: Result<nat>)
    ensures r.Ok? <==>
      && DOMAIN_FIELD in fields && IsIntegral(fp, fields[DOMAIN_FIELD])
      && 0 <= IntegerOf(fp, fields[DOMAIN_FIELD]) <= MAXIMUM_DOMAIN_ID
    ensures r.Ok? ==> r.value == IntegerOf(fp, fields[DOMAIN_FIELD])
    ensures r == Err(UntypedException) <==>
      && DOMAIN_FIELD in fields && IsIntegral(fp, fields[DOMAIN_FIELD])
      && AsInt64Throws(fp, fields[DOMAIN_FIELD])
  {
    if DOMAIN_FIELD !in fields || !IsIntegral(fp, fields[DOMAIN_FIELD]) then
      Err(PermanentError(InvalidConfiguration))
    else if AsInt64Throws(fp, fields[DOMAIN_FIELD]) then Err(UntypedException)
    else
      var n := IntegerOf(fp, fields[DOMAIN_FIELD]);
      if n < 0 || n > MAXIMUM_DOMAIN_ID then Err(PermanentError(InvalidConfiguration)) else Ok(n)
  }

  function ParseConfiguration(env: Environment, spec: InstanceSpec): Result<map<string, Json>> {
    if spec.configuration.None? || !spec.configuration.value.isJson
       || spec.configuration.value.schema != Some(env.configuration) then
      Err(PermanentError(InvalidConfiguration))
    else if spec.configuration.value.size > MAXIMUM_CONFIGURATION_BYTES || spec.secrets != 0 then
      Err(PermanentError(InvalidConfiguration))
    else if spec.configuration.value.text.TooDeep? then Err(UntypedException)
    else if spec.configuration.value.text.NotStrict? then Err(PermanentError(InvalidJson))
    else if !spec.configuration.value.text.value.Obj? then Err(PermanentError(InvalidRequest))
    else
      var fields := spec.configuration.value.text.value.fields;
      if !(fields.Keys <= {DOMAIN_FIELD, RMW_FIELD}) then Err(PermanentError(InvalidRequest))
      else Ok(fields)
  }

  function FromInstanceSpec(env: Environment, spec: InstanceSpec): Result<Context> {
    var fields :- ParseConfiguration(env, spec);
    var domain :- ParseDomain(env.fp, fields);
    var rmw :- RequiredPossiblyEmptyString(fields, RMW_FIELD);
    if (rmw != "" && !env.isRmwName(rmw)) || |rmw| > 255 then
      Err(PermanentError(InvalidConfiguration))
    else if spec.scope.None? || spec.scope.value.kind != SCOPE_KIND || !env.isScopeKey(spec.scope.value.key) then
      Err(PermanentError(InvalidScope))
    else
      var c := Context(domain, rmw, spec.scope.value.key);
      if !AttributesMatch(c, spec.scope.value.attributes) then Err(PermanentError(InvalidScope)) else Ok(c)
  }

  predicate SubjectAccepted(c: Context, work: WorkContext) {
    && work.subject.Some?
    && work.subject.value.kind == SCOPE_KIND
    && work.subject.value.key == c.scopeKey
    && AttributesMatch(c, work.subject.value.attributes)
  }

  function ValidateSubject(c: Context, work: WorkContext): Result<()> {
    if SubjectAccepted(c, work) then Ok(()) else Err(PermanentError(InvalidSubject))
  }

  // ---- Scope exactness ----

  lemma SpecNamesItsContext(env: Environment, spec: InstanceSpec)
    requires FromInstanceSpec(env, spec).Ok?
    ensures var c := FromInstanceSpec(env, spec).value;
      && spec.scope.Some?
      && spec.scope.value == CanonicalScope(c)
      && c.domainId <= 232
  {
    AttributesExact(FromInstanceSpec(env, spec).value, spec.scope.value.attributes);
  }

  lemma CanonicalAttributesInjective(c: Context, d: Context)
    requires CanonicalAttributes(c) == CanonicalAttributes(d)
    ensures c.domainId == d.domainId && c.rmwImplementation == d.rmwImplementation
  {
    AttributeNamesDiffer();
    assert CanonicalAttributes(c)[DOMAIN_ATTRIBUTE] == Decimal(c.domainId);
    assert CanonicalAttributes(d)[DOMAIN_ATTRIBUTE] == Decimal(d.domainId);
    DecimalInjective(c.domainId, d.domainId);
    if c.rmwImplementation == "" {
      assert RMW_ATTRIBUTE !in CanonicalAttributes(c);
    } else {
      assert CanonicalAttributes(c)[RMW_ATTRIBUTE] == c.rmwImplementation;
    }
  }

  /** Two accepted specs give equal contexts exactly when their scope keys and attributes agree. */
  lemma EqualContextsExactly(env: Environment, a: InstanceSpec, b: InstanceSpec)
    requires FromInstanceSpec(env, a).Ok? && FromInstanceSpec(env, b).Ok?
    ensures a.scope.Some? && b.scope.Some?
    ensures FromInstanceSpec(env, a) == FromInstanceSpec(env, b) <==>
      a.scope.value.key == b.scope.value.key && a.scope.value.attributes == b.scope.value.attributes
  {
    SpecNamesItsContext(env, a);
    SpecNamesItsContext(env, b);
    var c, d := FromInstanceSpec(env, a).value, FromInstanceSpec(env, b).value;
    if CanonicalAttributes(c) == CanonicalAttributes(d) {
      CanonicalAttributesInjective(c, d);
    }
  }

  /** The subjects a context accepts are exactly the scope of the spec it came from. */
  lemma SubjectsExactly(env: Environment, spec: InstanceSpec, work: WorkContext)
    requires FromInstanceSpec(env, spec).Ok?
    ensures ValidateSubject(FromInstanceSpec(env, spec).value, work).Ok? <==> work.subject == spec.scope
  {
    var c := FromInstanceSpec(env, spec).value;
    SpecNamesItsContext(env, spec);
    if work.subject.Some? {
      AttributesExact(c, work.subject.value.attributes);
    }
  }

  // ---- Which specs are accepted, and how the others are refused ----

  /** The configuration comes as JSON of the compiled schema, within its limit and with no secrets. */
  predicate IsDelivered(env: Environment, spec: InstanceSpec) {
    && spec.configuration.Some? && spec.secrets == 0
    && spec.configuration.value.isJson && spec.configuration.value.schema == Some(env.configuration)
    && spec.configuration.value.size <= 16384
  }

  /** An object with no field but the two that a context has. */
  predicate IsShaped(spec: InstanceSpec) {
    && spec.configuration.Some? && spec.configuration.value.text.Strict?
    && spec.configuration.value.text.value.Obj?
    && spec.configuration.value.text.value.fields.Keys <= {"domainId", "rmwImplementation"}
  }

  predicate IsRmw(env: Environment, j: Json, rmw: string) {
    j == Str(rmw) && |rmw| <= 255 && (rmw != "" ==> env.isRmwName(rmw))
  }

  /** The two fields are there and say the context. */
  ghost predicate Says(env: Environment, fields: map<string, Json>, domain: nat, rmw: string) {
    && "domainId" in fields && IsWhole(env.fp, fields["domainId"], domain) && domain <= 232
    && "rmwImplementation" in fields && IsRmw(env, fields["rmwImplementation"], rmw)
  }

  ghost predicate Configures(env: Environment, spec: InstanceSpec, c: Context) {
    && IsDelivered(env, spec) && IsShaped(spec)
    && Says(env, spec.configuration.value.text.value.fields, c.domainId, c.rmwImplementation)
  }

  /** A spec gives a context exactly when its configuration says that context and its scope is the
      context's canonical name. */
  lemma {:induction false} SpecGivesExactly(env: Environment, spec: InstanceSpec, c: Context)
    ensures FromInstanceSpec(env, spec) == Ok(c) <==>
      Configures(env, spec, c) && spec.scope == Some(CanonicalScope(c)) && env.isScopeKey(c.scopeKey)
  {
    hide AttributesMatch, CanonicalAttributes, IsIntegral, IntegerOf, AsInt64Throws, IsWhole;
    if spec.scope.Some? {
      AttributesExact(c, spec.scope.value.attributes);
    }
    if IsShaped(spec) && "domainId" in spec.configuration.value.text.value.fields {
      WholeDomain(env.fp, spec.configuration.value.text.value.fields["domainId"], c.domainId);
    }
  }

  lemma WholeDomain(fp: Platform, j: Json, n: int)
    ensures IsWhole(fp, j, n) <==> IsIntegral(fp, j) && IntegerOf(fp, j) == n
    ensures IsIntegral(fp, j) ==> IsWhole(fp, j, IntegerOf(fp, j))
    ensures IsIntegral(fp, j) ==> (AsInt64Throws(fp, j) <==> 9223372036854775808 <= IntegerOf(fp, j))
  {
    IntegralExactly(fp, j, n);
    if IsIntegral(fp, j) {
      IntegralExactly(fp, j, IntegerOf(fp, j));
    }
  }

  /** How a spec is refused: by the first thing wrong with it. */
  ghost predicate IsSpecRefused(env: Environment, spec: InstanceSpec, e: Error) {
    if !IsDelivered(env, spec) then e == PermanentError(InvalidConfiguration)
    else if spec.configuration.value.text.TooDeep? then e == UntypedException
    else if spec.configuration.value.text.NotStrict? then e == PermanentError(InvalidJson)
    else if !IsShaped(spec) then e == PermanentError(InvalidRequest)
    else
      var fields := spec.configuration.value.text.value.fields;
      if "domainId" in fields && exists n :: IsWhole(env.fp, fields["domainId"], n) && 9223372036854775808 <= n
      then e == UntypedException
      else if !exists domain, rmw :: Says(env, fields, domain, rmw) then e == PermanentError(InvalidConfiguration)
      else
        && e == PermanentError(InvalidScope)
        && forall c: Context :: Says(env, fields, c.domainId, c.rmwImplementation) ==>
             !(spec.scope == Some(CanonicalScope(c)) && env.isScopeKey(c.scopeKey))
  }

  lemma ShapedSpecRefused(env: Environment, spec: InstanceSpec, fields: map<string, Json>, e: Error)
    requires IsDelivered(env, spec) && IsShaped(spec) && fields == spec.configuration.value.text.value.fields
    requires "domainId" in fields && IsIntegral(env.fp, fields["domainId"])
    requires 0 <= IntegerOf(env.fp, fields["domainId"]) <= 232
    requires IsWhole(env.fp, fields["domainId"], IntegerOf(env.fp, fields["domainId"]))
    requires forall n :: IsWhole(env.fp, fields["domainId"], n) ==> n == IntegerOf(env.fp, fields["domainId"])
    ensures FromInstanceSpec(env, spec) == Err(e) <==> IsSpecRefused(env, spec, e)
  {
    hide AttributesMatch, CanonicalAttributes, IsIntegral, IntegerOf, IsWhole;
    var n: nat := IntegerOf(env.fp, fields["domainId"]);
    if "rmwImplementation" in fields && fields["rmwImplementation"].Str?
       && IsRmw(env, fields["rmwImplementation"], fields["rmwImplementation"].s)
    {
      var rmw := fields["rmwImplementation"].s;
      assert Says(env, fields, n, rmw);
      if spec.scope.Some? {
        var c := Context(n, rmw, spec.scope.value.key);
        assert Says(env, fields, c.domainId, c.rmwImplementation);
        AttributesExact(c, spec.scope.value.attributes);
      }
    } else {
      assert !exists domain, rmw :: Says(env, fields, domain, rmw);
    }
  }

  lemma {:induction false} SpecRefusedExactly(env: Environment, spec: InstanceSpec, e: Error)
    ensures FromInstanceSpec(env, spec) == Err(e) <==> IsSpecRefused(env, spec, e)
  {
    hide AttributesMatch, CanonicalAttributes, IsIntegral, IntegerOf, AsInt64Throws, IsWhole;
    if IsDelivered(env, spec) && IsShaped(spec) {
      var fields := spec.configuration.value.text.value.fields;
      if "domainId" in fields {
        var j := fields["domainId"];
        forall n ensures IsWhole(env.fp, j, n) <==> IsIntegral(env.fp, j) && IntegerOf(env.fp, j) == n {
          WholeDomain(env.fp, j, n);
        }
        WholeDomain(env.fp, j, 0);
        if IsIntegral(env.fp, j) && 0 <= IntegerOf(env.fp, j) <= 232 {
          ShapedSpecRefused(env, spec, fields, e);
        } else {
          assert !exists domain, rmw :: Says(env, fields, domain, rmw);
        }
      } else {
        assert !exists domain, rmw :: Says(env, fields, domain, rmw);
      }
    }
  }
}
