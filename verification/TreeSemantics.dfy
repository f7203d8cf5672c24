/** The codec on trees: which JSON a type accepts, the value that results, and the JSON a value
    projects to.  No memory and no addresses. */
module TreeSemantics {
  import opened Errors
  import opened Json
  import opened Descriptors
  import opened ScalarCodec
  import opened ScalarSpec

  function Field(v: Value, i: nat): Value {
    if v.Msg? && i < |v.fields| then v.fields[i] else Leaf(PNone)
  }

  function Items(v: Value): seq<Value> {
    if v.List? then v.items else []
  }

  /** What element `i` holds before it is assigned: the old element, or a new one after resizing. */
  ghost function ItemBase(ts: Types, m: Member, prior: Value, i: nat): Value
    requires Layout(ts)
  {
    if i < |Items(prior)| then Items(prior)[i] else DefaultValue(ts, m)
  }

  // ---- Acceptance ----

  predicate CanAssignItems(m: Member) {
    m.hasGet || (m.typeId.TBool? && m.hasAssign)
  }

  predicate CanProjectItems(m: Member) {
    m.hasGetConst || (m.typeId.TBool? && m.hasFetch)
  }

  predicate LengthConforms(m: Member, n: nat) {
    m.arraySize != 0 ==> if m.isUpperBound then n <= m.arraySize else n == m.arraySize
  }

  ghost predicate Conforms(ts: Types, m: Member, prior: Value, j: Json)
    requires Layout(ts)
    decreases j, 2
  {
    if !m.isArray then ConformsScalar(ts, m, prior, j)
    else
      && j.Arr?
      && LengthConforms(m, |j.items|)
      && m.hasSize
      && (IsSequence(m) && !m.hasResize ==> |j.items| == |Items(prior)|)
      && (j.items != [] ==> CanAssignItems(m))
      && (forall i :: 0 <= i < |j.items| ==>
            ConformsScalar(ts, m, ItemBase(ts, m, prior, i), j.items[i]))
  }

  ghost predicate ConformsScalar(ts: Types, m: Member, prior: Value, j: Json)
    requires Layout(ts)
    decreases j, 1
  {
    if m.typeId.TMessage? then HasNested(ts, m) && ConformsMessage(ts, m.nested, prior, j)
    else PrimConforms(ts.fp, m, j)
  }

  /** No unknown key, and every field that is present conforms. */
  ghost predicate ConformsMessage(ts: Types, k: nat, prior: Value, j: Json)
    requires Layout(ts) && k < |ts.descs|
    decreases j, 0
  {
    var ms := ts.descs[k].members;
    && j.Obj?
    && j.fields.Keys <= Names(ms)
    && (forall i :: 0 <= i < |ms| && ms[i].name in j.fields ==>
          Conforms(ts, ms[i], Field(prior, i), j.fields[ms[i].name]))
  }

  // ---- Rejection ----

  /** How a member rejects `j`: the wrong kind or length, an incomplete descriptor, or the first
      element that is rejected. */
  ghost predicate Rejects(ts: Types, m: Member, prior: Value, j: Json, e: Error)
    requires Layout(ts)
    decreases j, 2
  {
    if !m.isArray then RejectsScalar(ts, m, prior, j, e)
    else if !j.Arr? || !LengthConforms(m, |j.items|) then e == PermanentError(InvalidMessageField)
    else if !m.hasSize || (IsSequence(m) && !m.hasResize && |j.items| != |Items(prior)|)
            || (j.items != [] && !CanAssignItems(m))
    then e == PermanentError(TypeSupportInvalid)
    else
      exists i :: 0 <= i < |j.items| && RejectsScalar(ts, m, ItemBase(ts, m, prior, i), j.items[i], e)
        && forall h :: 0 <= h < i ==> ConformsScalar(ts, m, ItemBase(ts, m, prior, h), j.items[h])
  }

  ghost predicate RejectsScalar(ts: Types, m: Member, prior: Value, j: Json, e: Error)
    requires Layout(ts)
    decreases j, 1
  {
    if !m.typeId.TMessage? then Refuses(ts.fp, m, j, e)
    else if !HasNested(ts, m) then e == PermanentError(TypeSupportInvalid)
    else RejectsMessage(ts, m.nested, prior, j, e)
  }

  /** How a message rejects `j`: no object, a key that no member has, or the first given field, in
      the order of the members, that is rejected. */
  ghost predicate RejectsMessage(ts: Types, k: nat, prior: Value, j: Json, e: Error)
    requires Layout(ts) && k < |ts.descs|
    decreases j, 0
  {
    var ms := ts.descs[k].members;
    if !j.Obj? then e == PermanentError(InvalidMessage)
    else if !(j.fields.Keys <= Names(ms)) then e == PermanentError(UnknownMessageField)
    else
      exists i :: 0 <= i < |ms| && ms[i].name in j.fields
        && Rejects(ts, ms[i], Field(prior, i), j.fields[ms[i].name], e)
        && forall h :: 0 <= h < i && ms[h].name in j.fields ==>
             Conforms(ts, ms[h], Field(prior, h), j.fields[ms[h].name])
  }

  /** The JSON library throws on the way. */
  ghost predicate ThrowsMessage(ts: Types, k: nat, prior: Value, j: Json)
    requires Layout(ts) && k < |ts.descs|
  {
    RejectsMessage(ts, k, prior, j, UntypedException)
  }

  // ---- The resulting value ----

  /** `prior` with what `j` gives laid over it. */
  ghost function Overlay(ts: Types, m: Member, prior: Value, j: Json): Value
    requires Layout(ts)
    decreases j, 2
  {
    if !m.isArray then OverlayScalar(ts, m, prior, j)
    else if !j.Arr? then prior
    else List(seq(|j.items|, i requires 0 <= i < |j.items| =>
      OverlayScalar(ts, m, ItemBase(ts, m, prior, i), j.items[i])))
  }

  ghost function OverlayScalar(ts: Types, m: Member, prior: Value, j: Json): Value
    requires Layout(ts)
    decreases j, 1
  {
    if m.typeId.TMessage? then
      if HasNested(ts, m) then OverlayMessage(ts, m.nested, prior, j) else prior
    else if PrimConforms(ts.fp, m, j) then Leaf(Denoted(ts.fp, m, j))
    else prior
  }

  ghost function OverlayMessage(ts: Types, k: nat, prior: Value, j: Json): Value
    requires Layout(ts) && k < |ts.descs|
    decreases j, 0
  {
    var ms := ts.descs[k].members;
    if !j.Obj? then prior
    else Msg(seq(|ms|, i requires 0 <= i < |ms| =>
      if ms[i].name in j.fields then Overlay(ts, ms[i], Field(prior, i), j.fields[ms[i].name])
      else Field(prior, i)))
  }

  // ---- Projection ----

  function EncodeMember(ts: Types, m: Member, v: Value): Result<Json>
    decreases v, 2
  {
    if !m.isArray then EncodeScalar(ts, m, v)
    else if !m.hasSize then Err(PermanentError(TypeSupportInvalid))
    else if !v.List? then Err(UndefinedBehaviour)
    else
      var items :- EncodeItems(ts, m, v, 0, []);
      Ok(Arr(items))
  }

  /** Appends the projections of the elements from `i` to `acc`. */
  function EncodeItems(ts: Types, m: Member, v: Value, i: nat, acc: seq<Json>): Result<seq<Json>>
    requires v.List? && i <= |v.items|
    decreases v, 0, |v.items| - i
  {
    if i == |v.items| then Ok(acc)
    else if !CanProjectItems(m) then Err(PermanentError(TypeSupportInvalid))
    else
      var item :- EncodeScalar(ts, m, v.items[i]);
      EncodeItems(ts, m, v, i + 1, acc + [item])
  }

  function EncodeScalar(ts: Types, m: Member, v: Value): Result<Json>
    decreases v, 1
  {
    if m.typeId.TMessage? then
      if !HasNested(ts, m) then Err(PermanentError(TypeSupportInvalid))
      else EncodeMessage(ts, m.nested, v)
    else if v.Leaf? then ProjectPrim(ts.fp, m.typeId, v.p)
    else Err(UndefinedBehaviour)
  }

  function EncodeMessage(ts: Types, k: nat, v: Value): Result<Json>
    requires k < |ts.descs|
    decreases v, 0
  {
    if !v.Msg? || |v.fields| != |ts.descs[k].members| then Err(UndefinedBehaviour)
    else
      var fields :- EncodeFields(ts, k, v, 0, map[]);
      Ok(Obj(fields))
  }

  /** Sets the projections of the fields from `i` in `acc`. */
  function EncodeFields(ts: Types, k: nat, v: Value, i: nat, acc: map<string, Json>)
    : Result<map<string, Json>>
    requires k < |ts.descs| && v.Msg? && i <= |v.fields| == |ts.descs[k].members|
    decreases v, 0, |v.fields| - i
  {
    if i == |v.fields| then Ok(acc)
    else
      var m := ts.descs[k].members[i];
      var field :- EncodeMember(ts, m, v.fields[i]);
      EncodeFields(ts, k, v, i + 1, acc[m.name := field])
  }

  // ---- Typed and well-formed values ----

  ghost predicate HasType(ts: Types, m: Member, v: Value)
    decreases v, 2
  {
    if !m.isArray then HasScalarType(ts, m, v)
    else
      && v.List?
      && (IsFixedArray(m) ==> |v.items| == m.arraySize)
      && (forall i :: 0 <= i < |v.items| ==> HasScalarType(ts, m, v.items[i]))
  }

  ghost predicate HasScalarType(ts: Types, m: Member, v: Value)
    decreases v, 1
  {
    if m.typeId.TMessage? then HasNested(ts, m) ==> HasMessageType(ts, m.nested, v)
    else v.Leaf? && PrimHasType(ts.fp, m.typeId, v.p)
  }

  ghost predicate HasMessageType(ts: Types, k: nat, v: Value)
    requires k < |ts.descs|
    decreases v, 0
  {
    var ms := ts.descs[k].members;
    v.Msg? && |v.fields| == |ms| && forall i :: 0 <= i < |ms| ==> HasType(ts, ms[i], v.fields[i])
  }

  /** Typed, with every scalar well-formed and every sequence within its bound. */
  ghost predicate WellFormed(ts: Types, m: Member, v: Value)
    decreases v, 2
  {
    if !m.isArray then WellFormedScalar(ts, m, v)
    else
      && v.List?
      && LengthConforms(m, |v.items|)
      && (forall i :: 0 <= i < |v.items| ==> WellFormedScalar(ts, m, v.items[i]))
  }

  ghost predicate WellFormedScalar(ts: Types, m: Member, v: Value)
    decreases v, 1
  {
    if m.typeId.TMessage? then HasNested(ts, m) && WellFormedMessage(ts, m.nested, v)
    else v.Leaf? && PrimWellFormed(ts.fp, m, v.p)
  }

  ghost predicate WellFormedMessage(ts: Types, k: nat, v: Value)
    requires k < |ts.descs|
    decreases v, 0
  {
    var ms := ts.descs[k].members;
    v.Msg? && |v.fields| == |ms| && forall i :: 0 <= i < |ms| ==> WellFormed(ts, ms[i], v.fields[i])
  }

  /** The descriptor supplies every function and pointer its members need. */
  predicate Complete(ts: Types, m: Member) {
    && !m.typeId.TOther?
    && (m.typeId.TMessage? ==> HasNested(ts, m))
    && (m.isArray ==> m.hasSize && CanAssignItems(m) && CanProjectItems(m))
    && (IsSequence(m) ==> m.hasResize)
  }

  ghost predicate Introspectable(ts: Types) {
    forall k, i :: 0 <= k < |ts.descs| && 0 <= i < |ts.descs[k].members| ==>
      Complete(ts, ts.descs[k].members[i])
  }

  ghost function DefaultMessage(ts: Types, k: nat): Value
    requires Layout(ts) && k < |ts.descs|
  {
    assert DescLayout(ts, ts.descs[k]);
    Msg(LoadFields(ts, k, ts.descs[k].defaults))
  }

  /** Initialisers leave typed memory. */
  ghost predicate TypedDefaults(ts: Types)
    requires Layout(ts)
  {
    forall k :: 0 <= k < |ts.descs| ==> HasMessageType(ts, k, DefaultMessage(ts, k))
  }

  ghost predicate WellFormedDefaults(ts: Types)
    requires Layout(ts)
  {
    forall k :: 0 <= k < |ts.descs| ==> WellFormedMessage(ts, k, DefaultMessage(ts, k))
  }
}
