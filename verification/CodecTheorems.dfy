/** What the codec promises about message memory as a whole. */
module CodecTheorems {
  import opened Errors
  import opened FloatingPoint
  import opened Json
  import opened Descriptors
  import opened ScalarCodec
  import opened TreeSemantics
  import opened FlatDecode
  import opened Refinement
  import opened CodecLaws

  ghost function MessageAt(ts: Types, k: nat, s: Memory): Value
    requires Layout(ts) && k < |ts.descs| && |s| == ts.descs[k].size
  {
    Msg(LoadFields(ts, k, s))
  }

  lemma {:induction false} WellFormedHasType(ts: Types, m: Member, v: Value)
    requires WellFormed(ts, m, v)
    ensures HasType(ts, m, v)
    decreases v, 2
  {
    if !m.isArray {
      WellFormedScalarHasType(ts, m, v);
    } else {
      forall i | 0 <= i < |v.items| ensures HasScalarType(ts, m, v.items[i]) {
        WellFormedScalarHasType(ts, m, v.items[i]);
      }
    }
  }

  lemma {:induction false} WellFormedScalarHasType(ts: Types, m: Member, v: Value)
    requires WellFormedScalar(ts, m, v)
    ensures HasScalarType(ts, m, v)
    decreases v, 1
  {
    if m.typeId.TMessage? {
      WellFormedMessageHasType(ts, m.nested, v);
    }
  }

  lemma {:induction false} WellFormedMessageHasType(ts: Types, k: nat, v: Value)
    requires k < |ts.descs| && WellFormedMessage(ts, k, v)
    ensures HasMessageType(ts, k, v)
    decreases v, 0
  {
    var ms := ts.descs[k].members;
    forall i | 0 <= i < |ms| ensures HasType(ts, ms[i], v.fields[i]) {
      WellFormedHasType(ts, ms[i], v.fields[i]);
    }
  }

  lemma DefaultsHaveType(ts: Types)
    requires Layout(ts) && WellFormedDefaults(ts)
    ensures TypedDefaults(ts)
  {
    forall k | 0 <= k < |ts.descs| ensures HasMessageType(ts, k, DefaultMessage(ts, k)) {
      WellFormedMessageHasType(ts, k, DefaultMessage(ts, k));
    }
  }

  /** The type can be instantiated: its descriptor has both functions and a size. */
  predicate Constructible(ts: Types, k: nat)
    requires k < |ts.descs|
  {
    ts.descs[k].hasInit && ts.descs[k].hasFini && ts.descs[k].size != 0
  }

  /** Decoding gets as far as constructing the message. */
  predicate ReachesConstruction(ts: Types, k: nat, j: Json)
    requires k < |ts.descs|
  {
    j.Obj? && j.fields.Keys <= Names(ts.descs[k].members) && Constructible(ts, k)
  }

  /** Decoding a message over typed defaults: acceptance, result, and which failures are untyped. */
  lemma {:induction false} DecodeMessageExact(ts: Types, k: nat, j: Json, initThrows: bool)
    requires Layout(ts) && TypedDefaults(ts) && k < |ts.descs|
    ensures var r := DecodeMessage(ts, k, j, initThrows);
      && (r.Ok? <==> Constructible(ts, k) && !initThrows && ConformsMessage(ts, k, DefaultMessage(ts, k), j))
      && (r.Ok? ==> MessageAt(ts, k, r.value) == OverlayMessage(ts, k, DefaultMessage(ts, k), j))
      && FailsWith(r, UntypedException, ReachesConstruction(ts, k, j)
           && (initThrows || ThrowsMessage(ts, k, DefaultMessage(ts, k), j)))
  {
    assert DescLayout(ts, ts.descs[k]);
    assert HasMessageType(ts, k, DefaultMessage(ts, k));
    if j.Obj? && j.fields.Keys <= Names(ts.descs[k].members) {
      RefineFields(ts, k, j, ts.descs[k].defaults, UntypedException);
    }
  }

  /** How decoding rejects `j`: no object, an unknown key, a type that cannot be instantiated, an
      initialiser that throws, or the first given field that is rejected. */
  ghost predicate IsRejected(ts: Types, k: nat, j: Json, initThrows: bool, e: Error)
    requires Layout(ts) && k < |ts.descs|
  {
    if !j.Obj? then e == PermanentError(InvalidMessage)
    else if !(j.fields.Keys <= Names(ts.descs[k].members)) then e == PermanentError(UnknownMessageField)
    else if !Constructible(ts, k) then e == PermanentError(TypeSupportInvalid)
    else if initThrows then e == UntypedException
    else RejectsMessage(ts, k, DefaultMessage(ts, k), j, e)
  }

  /** Decoding ends in the error `e` if and only if that is how the type rejects the JSON. */
  lemma {:induction false} DecodeRejectsExactly(ts: Types, k: nat, j: Json, initThrows: bool, e: Error)
    requires Layout(ts) && TypedDefaults(ts) && k < |ts.descs|
    ensures DecodeMessage(ts, k, j, initThrows) == Err(e) <==> IsRejected(ts, k, j, initThrows, e)
  {
    assert DescLayout(ts, ts.descs[k]);
    assert HasMessageType(ts, k, DefaultMessage(ts, k));
    if j.Obj? && j.fields.Keys <= Names(ts.descs[k].members) {
      RefineFields(ts, k, j, ts.descs[k].defaults, e);
    }
  }

  // ---- The untyped rejection ----

  const UNSIGNED_COUNT :=
    Member("n", TUInt64, 0, 0, false, false, 0, false, 0, false, false, false, false, false, false)

  const SIGNED_COUNT := UNSIGNED_COUNT.(typeId := TInt64)

  /** A message with one 64-bit integer. */
  function CountType(fp: Platform, m: Member): Types {
    Types([MessageDesc([m], 1, 1, [P(PInt(0))], true, true)], fp)
  }

  /** 2^63 in the field throws exactly when the field is signed, and not even then if a key that no
      member has was found first. */
  lemma HugeCounts(fp: Platform, m: Member)
    requires m == UNSIGNED_COUNT || m == SIGNED_COUNT
    ensures var ts, huge := CountType(fp, m), Int(INT64_LIMIT);
      && Layout(ts) && TypedDefaults(ts) && Constructible(ts, 0)
      && DecodeMessage(ts, 0, Obj(map["n" := huge, "zz" := Int(1)]), false) == Err(PermanentError(UnknownMessageField))
      && (DecodeMessage(ts, 0, Obj(map["n" := huge]), false) == Err(UntypedException) <==> m == SIGNED_COUNT)
      && (DecodeMessage(ts, 0, Obj(map["n" := huge]), false).Ok? <==> m == UNSIGNED_COUNT)
  {
    hide LoadFields, HasMessageType, TypedDefaults, DecodeMessage;
    CountDefaults(fp, m);
    UnknownKeyComesFirst(fp, m);
    HugeAlone(fp, m);
  }

  lemma UnknownKeyComesFirst(fp: Platform, m: Member)
    requires m.name == "n" && Layout(CountType(fp, m))
    ensures DecodeMessage(CountType(fp, m), 0, Obj(map["n" := Int(INT64_LIMIT), "zz" := Int(1)]), false)
      == Err(PermanentError(UnknownMessageField))
  {
    hide LoadFields, WriteFields;
    var j := Obj(map["n" := Int(INT64_LIMIT), "zz" := Int(1)]);
    assert Names(CountType(fp, m).descs[0].members) == {"n"};
    assert |"zz"| != |"n"|;
    assert "zz" in j.fields.Keys;
  }

  lemma HugeAlone(fp: Platform, m: Member)
    requires m == UNSIGNED_COUNT || m == SIGNED_COUNT
    requires var ts := CountType(fp, m);
      Layout(ts) && TypedDefaults(ts) && DefaultMessage(ts, 0) == Msg([Leaf(PInt(0))])
    ensures var r := DecodeMessage(CountType(fp, m), 0, Obj(map["n" := Int(INT64_LIMIT)]), false);
      (r == Err(UntypedException) <==> m == SIGNED_COUNT) && (r.Ok? <==> m == UNSIGNED_COUNT)
  {
    hide LoadFields, HasMessageType, TypedDefaults, OverlayMessage, MessageAt, WriteFields, DefaultMessage;
    var ts, j := CountType(fp, m), Obj(map["n" := Int(INT64_LIMIT)]);
    assert Names(ts.descs[0].members) == {"n"};
    DecodeMessageExact(ts, 0, j, false);
    if m == SIGNED_COUNT {
      assert IsWhole(fp, Int(INT64_LIMIT), INT64_LIMIT);
      assert Rejects(ts, m, Leaf(PInt(0)), Int(INT64_LIMIT), UntypedException);
    } else {
      assert Conforms(ts, m, Leaf(PInt(0)), Int(INT64_LIMIT));
    }
  }

  lemma CountDefaults(fp: Platform, m: Member)
    requires m == UNSIGNED_COUNT || m == SIGNED_COUNT
    ensures var ts := CountType(fp, m);
      Layout(ts) && TypedDefaults(ts) && DefaultMessage(ts, 0) == Msg([Leaf(PInt(0))])
  {
    var ts, d := CountType(fp, m), CountType(fp, m).descs[0];
    assert DescLayout(ts, d);
    assert Layout(ts);
    assert Slot(ts, m, d.defaults) == d.defaults;
    assert LoadMember(ts, m, d.defaults) == Leaf(PInt(0));
    assert DefaultMessage(ts, 0).fields == [Leaf(PInt(0))];
    assert HasType(ts, m, Leaf(PInt(0)));
  }

  /** Unless some type has a signed integer, no JSON makes the library throw. */
  ghost predicate NoSigned(ts: Types) {
    forall k, i :: 0 <= k < |ts.descs| && 0 <= i < |ts.descs[k].members| ==>
      !IsSigned(ts.descs[k].members[i].typeId)
  }

  lemma {:induction false} UnsignedNeverThrows(ts: Types, k: nat, prior: Value, j: Json)
    requires Layout(ts) && NoSigned(ts) && k < |ts.descs|
    ensures !ThrowsMessage(ts, k, prior, j)
    decreases j, 0
  {
    var ms := ts.descs[k].members;
    if j.Obj? {
      forall i | 0 <= i < |ms| && ms[i].name in j.fields
        ensures !Rejects(ts, ms[i], Field(prior, i), j.fields[ms[i].name], UntypedException)
      {
        UnsignedMemberNeverThrows(ts, ms[i], Field(prior, i), j.fields[ms[i].name]);
      }
    }
  }

  lemma {:induction false} UnsignedMemberNeverThrows(ts: Types, m: Member, prior: Value, j: Json)
    requires Layout(ts) && NoSigned(ts) && !IsSigned(m.typeId)
    ensures !Rejects(ts, m, prior, j, UntypedException) && !RejectsScalar(ts, m, prior, j, UntypedException)
    decreases j, 1
  {
    if m.typeId.TMessage? && HasNested(ts, m) {
      UnsignedNeverThrows(ts, m.nested, prior, j);
    }
    if m.isArray && j.Arr? {
      forall i | 0 <= i < |j.items|
        ensures !RejectsScalar(ts, m, ItemBase(ts, m, prior, i), j.items[i], UntypedException) {
        UnsignedMemberNeverThrows(ts, m, ItemBase(ts, m, prior, i), j.items[i]);
      }
    }
  }

  /** The round trip through memory: a well-formed message encodes, and decoding its JSON builds
      new memory that stands for the same message. */
  lemma MemoryRoundTrip(ts: Types, k: nat, s: Memory)
    requires Layout(ts) && Introspectable(ts) && UniqueNames(ts) && TypedDefaults(ts)
    requires k < |ts.descs| && |s| == ts.descs[k].size && Constructible(ts, k)
    requires WellFormedMessage(ts, k, MessageAt(ts, k, s))
    ensures var j := EncodeMessage(ts, k, MessageAt(ts, k, s));
      && j.Ok?
      && DecodeMessage(ts, k, j.value, false).Ok?
      && MessageAt(ts, k, DecodeMessage(ts, k, j.value, false).value) == MessageAt(ts, k, s)
  {
    RoundTripMessage(ts, k, MessageAt(ts, k, s), DefaultMessage(ts, k));
    DecodeMessageExact(ts, k, EncodeMessage(ts, k, MessageAt(ts, k, s)).value, false);
  }

  /** The round trip gives a message back exactly when it is well-formed: a message holding a
      non-finite float, a long double that is no double, a non-ASCII wide string or an over-long
      string or sequence is rejected on the way or comes back different. */
  lemma {:induction false} RoundTripsExactly(ts: Types, k: nat, s: Memory)
    requires Layout(ts) && Introspectable(ts) && UniqueNames(ts) && WellFormedDefaults(ts)
    requires k < |ts.descs| && |s| == ts.descs[k].size && Constructible(ts, k)
    ensures WellFormedMessage(ts, k, MessageAt(ts, k, s)) <==>
      var j := EncodeMessage(ts, k, MessageAt(ts, k, s));
      && j.Ok?
      && DecodeMessage(ts, k, j.value, false).Ok?
      && MessageAt(ts, k, DecodeMessage(ts, k, j.value, false).value) == MessageAt(ts, k, s)
  {
    DefaultsHaveType(ts);
    var j := EncodeMessage(ts, k, MessageAt(ts, k, s));
    if WellFormedMessage(ts, k, MessageAt(ts, k, s)) {
      MemoryRoundTrip(ts, k, s);
    } else if j.Ok? && DecodeMessage(ts, k, j.value, false).Ok? {
      DecodeMessageExact(ts, k, j.value, false);
      OverlayMessageWellFormed(ts, k, DefaultMessage(ts, k), j.value);
    }
  }

  /** Decode, encode, decode: from well-formed defaults, the message decoding builds is well-formed,
      its JSON says everything the input said, and decoding that JSON builds the same message. */
  lemma MemoryNormalForm(ts: Types, k: nat, j: Json)
    requires Layout(ts) && Introspectable(ts) && UniqueNames(ts) && WellFormedDefaults(ts)
    requires k < |ts.descs| && DecodeMessage(ts, k, j, false).Ok?
    ensures var v := MessageAt(ts, k, DecodeMessage(ts, k, j, false).value);
      var out := EncodeMessage(ts, k, v);
      && WellFormedMessage(ts, k, v)
      && out.Ok? && CoversMessage(ts, k, j, out.value)
      && DecodeMessage(ts, k, out.value, false).Ok?
      && MessageAt(ts, k, DecodeMessage(ts, k, out.value, false).value) == v
  {
    DefaultsHaveType(ts);
    DecodeMessageExact(ts, k, j, false);
    OverlayMessageWellFormed(ts, k, DefaultMessage(ts, k), j);
    NormalForm(ts, k, j);
    var out := EncodeMessage(ts, k, OverlayMessage(ts, k, DefaultMessage(ts, k), j)).value;
    DecodeMessageExact(ts, k, out, false);
  }

  // ---- Encoding typed memory ----

  lemma {:induction false} EncodeTypedMember(ts: Types, m: Member, v: Value)
    requires HasType(ts, m, v) && EncodeMember(ts, m, v).Err?
    ensures IsCodecError(EncodeMember(ts, m, v).error)
    decreases v, 2
  {
    if !m.isArray {
      EncodeTypedScalar(ts, m, v);
    } else if m.hasSize {
      EncodeTypedItems(ts, m, v, 0, []);
    }
  }

  lemma {:induction false} EncodeTypedItems(ts: Types, m: Member, v: Value, i: nat, acc: seq<Json>)
    requires v.List? && i <= |v.items|
    requires forall x :: 0 <= x < |v.items| ==> HasScalarType(ts, m, v.items[x])
    requires EncodeItems(ts, m, v, i, acc).Err?
    ensures IsCodecError(EncodeItems(ts, m, v, i, acc).error)
    decreases v, 0, |v.items| - i
  {
    if CanProjectItems(m) {
      var item := EncodeScalar(ts, m, v.items[i]);
      if item.Err? {
        EncodeTypedScalar(ts, m, v.items[i]);
      } else {
        EncodeTypedItems(ts, m, v, i + 1, acc + [item.value]);
      }
    }
  }

  lemma {:induction false} EncodeTypedScalar(ts: Types, m: Member, v: Value)
    requires HasScalarType(ts, m, v) && EncodeScalar(ts, m, v).Err?
    ensures IsCodecError(EncodeScalar(ts, m, v).error)
    decreases v, 1
  {
    if m.typeId.TMessage? && HasNested(ts, m) {
      EncodeTypedMessage(ts, m.nested, v);
    }
  }

  lemma {:induction false} EncodeTypedFields(ts: Types, k: nat, v: Value, i: nat, acc: map<string, Json>)
    requires k < |ts.descs| && HasMessageType(ts, k, v) && i <= |v.fields|
    requires EncodeFields(ts, k, v, i, acc).Err?
    ensures IsCodecError(EncodeFields(ts, k, v, i, acc).error)
    decreases v, 0, |v.fields| - i
  {
    var m := ts.descs[k].members[i];
    var field := EncodeMember(ts, m, v.fields[i]);
    if field.Err? {
      EncodeTypedMember(ts, m, v.fields[i]);
    } else {
      EncodeTypedFields(ts, k, v, i + 1, acc[m.name := field.value]);
    }
  }

  /** Encoding typed memory never reads a slot as something it is not: the only failures are typed
      permanent errors. */
  lemma {:induction false} EncodeTypedMessage(ts: Types, k: nat, v: Value)
    requires k < |ts.descs| && HasMessageType(ts, k, v) && EncodeMessage(ts, k, v).Err?
    ensures IsCodecError(EncodeMessage(ts, k, v).error)
    decreases v, 0, |v.fields| + 1
  {
    EncodeTypedFields(ts, k, v, 0, map[]);
  }

  // ---- A cyclic type ----

  const LABEL := Member("label", TInt8, 0, 0, false, false, 0, false, 0, false, false, false, false, false, false)

  const CHILDREN := Member("children", TMessage, 0, 0, true, true, 0, false, 1, true, true, true, true, false, false)

  /** A tree node: a label and a sequence of nodes. */
  function NodeType(fp: Platform): Types {
    Types([MessageDesc([LABEL, CHILDREN], 2, 1, [P(PInt(0)), Vec(0, [])], true, true)], fp)
  }

  /** Descriptors may refer to themselves through a sequence and still meet every hypothesis above;
      decoding and encoding are defined, and so terminate, on such types too. */
  lemma CyclicTypesAreCovered(fp: Platform)
    ensures Layout(NodeType(fp)) && UniqueNames(NodeType(fp)) && Introspectable(NodeType(fp))
    ensures WellFormedDefaults(NodeType(fp)) && Constructible(NodeType(fp), 0)
    ensures NodeType(fp).descs[0].members[1].nested == 0
  {
    var ts := NodeType(fp);
    var d := ts.descs[0];
    assert Disjoint(ts, d.members[0], d.members[1]);
    assert DescLayout(ts, d);
    assert Layout(ts);
    var s := d.defaults;
    assert Slot(ts, LABEL, s) == [P(PInt(0))];
    assert Slot(ts, CHILDREN, s) == [Vec(0, [])];
    assert LoadMember(ts, LABEL, [P(PInt(0))]) == Leaf(PInt(0));
    assert LoadMember(ts, CHILDREN, [Vec(0, [])]) == List([]);
    assert DefaultMessage(ts, 0).fields == [Leaf(PInt(0)), List([])];
    assert WellFormed(ts, LABEL, Leaf(PInt(0)));
    assert WellFormed(ts, CHILDREN, List([]));
  }
}
