/** Laws of the codec on trees: decoding establishes well-formedness, printing and parsing undo
    each other, and decoding then encoding is a normal form. */
module CodecLaws {
  import opened Errors
  import opened FloatingPoint
  import opened Json
  import opened Descriptors
  import opened ScalarCodec
  import opened TreeSemantics

  // ---- Decoding establishes well-formedness ----

  lemma DefaultWellFormed(ts: Types, m: Member)
    requires Layout(ts) && WellFormedDefaults(ts) && Complete(ts, m)
    ensures WellFormedScalar(ts, m, DefaultValue(ts, m))
  {
    if m.typeId.TMessage? {
      assert DefaultValue(ts, m) == DefaultMessage(ts, m.nested);
    }
  }

  lemma {:induction false} OverlayWellFormed(ts: Types, m: Member, v: Value, j: Json)
    requires Layout(ts) && Introspectable(ts) && WellFormedDefaults(ts) && Complete(ts, m)
    requires WellFormed(ts, m, v) && Conforms(ts, m, v, j)
    ensures WellFormed(ts, m, Overlay(ts, m, v, j))
    decreases j, 2
  {
    if !m.isArray {
      OverlayScalarWellFormed(ts, m, v, j);
    } else {
      DefaultWellFormed(ts, m);
      forall i | 0 <= i < |j.items| ensures WellFormedScalar(ts, m, Overlay(ts, m, v, j).items[i]) {
        OverlayScalarWellFormed(ts, m, ItemBase(ts, m, v, i), j.items[i]);
      }
    }
  }

  lemma {:induction false} OverlayScalarWellFormed(ts: Types, m: Member, v: Value, j: Json)
    requires Layout(ts) && Introspectable(ts) && WellFormedDefaults(ts) && Complete(ts, m)
    requires WellFormedScalar(ts, m, v) && ConformsScalar(ts, m, v, j)
    ensures WellFormedScalar(ts, m, OverlayScalar(ts, m, v, j))
    decreases j, 1
  {
    if m.typeId.TMessage? {
      OverlayMessageWellFormed(ts, m.nested, v, j);
    } else {
      AssignPrimExact(ts.fp, m, j);
    }
  }

  /** Decoding over a well-formed value leaves a well-formed value: floats finite, strings and
      sequences within bound, at every depth. */
  lemma {:induction false} OverlayMessageWellFormed(ts: Types, k: nat, v: Value, j: Json)
    requires Layout(ts) && Introspectable(ts) && WellFormedDefaults(ts) && k < |ts.descs|
    requires WellFormedMessage(ts, k, v) && ConformsMessage(ts, k, v, j)
    ensures WellFormedMessage(ts, k, OverlayMessage(ts, k, v, j))
    decreases j, 0
  {
    var ms := ts.descs[k].members;
    var w := OverlayMessage(ts, k, v, j);
    forall i | 0 <= i < |ms| ensures WellFormed(ts, ms[i], w.fields[i]) {
      assert Complete(ts, ms[i]);
      if ms[i].name in j.fields {
        OverlayWellFormed(ts, ms[i], v.fields[i], j.fields[ms[i].name]);
      }
    }
  }

  // ---- Encoding, element by element and field by field ----

  lemma {:induction false} EncodeItemsLaw(ts: Types, m: Member, v: Value, i: nat, acc: seq<Json>)
    requires v.List? && i <= |v.items| && (v.items != [] ==> CanProjectItems(m))
    ensures EncodeItems(ts, m, v, i, acc).Ok? <==>
      forall x :: i <= x < |v.items| ==> EncodeScalar(ts, m, v.items[x]).Ok?
    ensures EncodeItems(ts, m, v, i, acc).Ok? ==>
      var r := EncodeItems(ts, m, v, i, acc).value;
      && |r| == |acc| + |v.items| - i
      && r[..|acc|] == acc
      && (forall x :: i <= x < |v.items| ==> Ok(r[|acc| + x - i]) == EncodeScalar(ts, m, v.items[x]))
    decreases |v.items| - i
  {
    if i < |v.items| {
      var item := EncodeScalar(ts, m, v.items[i]);
      if item.Ok? {
        EncodeItemsLaw(ts, m, v, i + 1, acc + [item.value]);
        if EncodeItems(ts, m, v, i, acc).Ok? {
          var r := EncodeItems(ts, m, v, i, acc).value;
          assert r[..|acc|] == r[..|acc| + 1][..|acc|];
          assert r[|acc|] == r[..|acc| + 1][|acc|];
        }
      }
    }
  }

  /** The array a list projects to has one item per element, in order. */
  lemma EncodeListLaw(ts: Types, m: Member, v: Value)
    requires m.isArray && m.hasSize && v.List? && (v.items != [] ==> CanProjectItems(m))
    ensures EncodeMember(ts, m, v).Ok? <==>
      forall x :: 0 <= x < |v.items| ==> EncodeScalar(ts, m, v.items[x]).Ok?
    ensures EncodeMember(ts, m, v).Ok? ==>
      var j := EncodeMember(ts, m, v).value;
      && j.Arr? && |j.items| == |v.items|
      && (forall x :: 0 <= x < |v.items| ==> Ok(j.items[x]) == EncodeScalar(ts, m, v.items[x]))
  {
    EncodeItemsLaw(ts, m, v, 0, []);
    if EncodeMember(ts, m, v).Ok? {
      var items := EncodeMember(ts, m, v).value.items;
      forall x | 0 <= x < |v.items| ensures Ok(items[x]) == EncodeScalar(ts, m, v.items[x]) {
        var acc: seq<Json> := [];
        assert items[|acc| + x - 0] == items[x];
      }
    }
  }

  /** What encoding the fields from `i` adds to `acc`. */
  ghost predicate FieldsEncoded(ts: Types, k: nat, v: Value, i: nat, acc: map<string, Json>, r: map<string, Json>)
    requires k < |ts.descs| && v.Msg? && i <= |v.fields| == |ts.descs[k].members|
  {
    var ms := ts.descs[k].members;
    && r.Keys == acc.Keys + Names(ms[i..])
    && (forall x :: i <= x < |ms| ==>
          ms[x].name in r && Ok(r[ms[x].name]) == EncodeMember(ts, ms[x], v.fields[x]))
    && (forall n :: n in acc && n !in Names(ms[i..]) ==> r[n] == acc[n])
  }

  ghost predicate FieldsEncode(ts: Types, k: nat, v: Value, i: nat)
    requires k < |ts.descs| && v.Msg? && i <= |v.fields| == |ts.descs[k].members|
  {
    forall x :: i <= x < |v.fields| ==> EncodeMember(ts, ts.descs[k].members[x], v.fields[x]).Ok?
  }

  lemma {:induction false} EncodeFieldsLaw(ts: Types, k: nat, v: Value, i: nat, acc: map<string, Json>)
    requires UniqueNames(ts) && k < |ts.descs| && v.Msg? && i <= |v.fields| == |ts.descs[k].members|
    ensures EncodeFields(ts, k, v, i, acc).Ok? <==> FieldsEncode(ts, k, v, i)
    ensures EncodeFields(ts, k, v, i, acc).Ok? ==>
      FieldsEncoded(ts, k, v, i, acc, EncodeFields(ts, k, v, i, acc).value)
    decreases |v.fields| - i
  {
    hide EncodeMember, FieldsEncoded, Names, UniqueNames;
    var ms := ts.descs[k].members;
    if i < |ms| {
      var field := EncodeMember(ts, ms[i], v.fields[i]);
      if field.Ok? {
        var acc' := acc[ms[i].name := field.value];
        EncodeFieldsLaw(ts, k, v, i + 1, acc');
        assert EncodeFields(ts, k, v, i, acc) == EncodeFields(ts, k, v, i + 1, acc');
        if EncodeFields(ts, k, v, i, acc).Ok? {
          FieldEncoded(ts, k, v, i, acc, EncodeFields(ts, k, v, i, acc).value);
        }
      }
    } else {
      NoFieldsEncoded(ts, k, v, acc);
    }
  }

  lemma NoFieldsEncoded(ts: Types, k: nat, v: Value, acc: map<string, Json>)
    requires k < |ts.descs| && v.Msg? && |v.fields| == |ts.descs[k].members|
    ensures FieldsEncoded(ts, k, v, |v.fields|, acc, acc)
  {
  }

  lemma FieldEncoded(ts: Types, k: nat, v: Value, i: nat, acc: map<string, Json>, r: map<string, Json>)
    requires UniqueNames(ts) && k < |ts.descs| && v.Msg? && i < |v.fields| == |ts.descs[k].members|
    requires EncodeMember(ts, ts.descs[k].members[i], v.fields[i]).Ok?
    requires FieldsEncoded(ts, k, v, i + 1,
      acc[ts.descs[k].members[i].name := EncodeMember(ts, ts.descs[k].members[i], v.fields[i]).value], r)
    ensures FieldsEncoded(ts, k, v, i, acc, r)
  {
    hide EncodeMember;
    var ms := ts.descs[k].members;
    assert ms[i..] == [ms[i]] + ms[i + 1..];
    assert ms[i].name !in Names(ms[i + 1..]);
  }

  /** The object a message projects to has one key per member, with that member's projection. */
  lemma EncodeMessageLaw(ts: Types, k: nat, v: Value)
    requires UniqueNames(ts) && k < |ts.descs| && v.Msg? && |v.fields| == |ts.descs[k].members|
    ensures EncodeMessage(ts, k, v).Ok? <==>
      forall x :: 0 <= x < |v.fields| ==> EncodeMember(ts, ts.descs[k].members[x], v.fields[x]).Ok?
    ensures EncodeMessage(ts, k, v).Ok? ==>
      var ms, j := ts.descs[k].members, EncodeMessage(ts, k, v).value;
      && j.Obj? && j.fields.Keys == Names(ms)
      && (forall x :: 0 <= x < |ms| ==>
            ms[x].name in j.fields && Ok(j.fields[ms[x].name]) == EncodeMember(ts, ms[x], v.fields[x]))
  {
    var ms := ts.descs[k].members;
    EncodeFieldsLaw(ts, k, v, 0, map[]);
    assert ms[0..] == ms;
  }

  // ---- Round trip ----

  lemma {:induction false} RoundTripMember(ts: Types, m: Member, v: Value, base: Value)
    requires Layout(ts) && Introspectable(ts) && UniqueNames(ts) && Complete(ts, m)
    requires WellFormed(ts, m, v)
    ensures var j := EncodeMember(ts, m, v);
      j.Ok? && Conforms(ts, m, base, j.value) && Overlay(ts, m, base, j.value) == v
    decreases v, 2
  {
    if !m.isArray {
      RoundTripScalar(ts, m, v, base);
    } else {
      forall i | 0 <= i < |v.items|
        ensures ScalarReturns(ts, m, v.items[i], ItemBase(ts, m, base, i))
      {
        RoundTripScalar(ts, m, v.items[i], ItemBase(ts, m, base, i));
      }
      RoundTripList(ts, m, v, base);
    }
  }

  ghost predicate ScalarReturns(ts: Types, m: Member, v: Value, base: Value)
    requires Layout(ts)
  {
    var j := EncodeScalar(ts, m, v);
    j.Ok? && ConformsScalar(ts, m, base, j.value) && OverlayScalar(ts, m, base, j.value) == v
  }

  lemma RoundTripList(ts: Types, m: Member, v: Value, base: Value)
    requires Layout(ts) && m.isArray && Complete(ts, m) && v.List? && LengthConforms(m, |v.items|)
    requires forall i :: 0 <= i < |v.items| ==> ScalarReturns(ts, m, v.items[i], ItemBase(ts, m, base, i))
    ensures var j := EncodeMember(ts, m, v);
      j.Ok? && Conforms(ts, m, base, j.value) && Overlay(ts, m, base, j.value) == v
  {
    EncodeListLaw(ts, m, v);
    forall i | 0 <= i < |v.items| ensures EncodeScalar(ts, m, v.items[i]).Ok? {
      assert ScalarReturns(ts, m, v.items[i], ItemBase(ts, m, base, i));
    }
    var j := EncodeMember(ts, m, v).value;
    forall i | 0 <= i < |v.items|
      ensures ConformsScalar(ts, m, ItemBase(ts, m, base, i), j.items[i])
      ensures Overlay(ts, m, base, j).items[i] == v.items[i]
    {
      assert ScalarReturns(ts, m, v.items[i], ItemBase(ts, m, base, i));
    }
    assert Overlay(ts, m, base, j).items == v.items;
  }

  lemma {:induction false} RoundTripScalar(ts: Types, m: Member, v: Value, base: Value)
    requires Layout(ts) && Introspectable(ts) && UniqueNames(ts) && Complete(ts, m)
    requires WellFormedScalar(ts, m, v)
    ensures var j := EncodeScalar(ts, m, v);
      j.Ok? && ConformsScalar(ts, m, base, j.value) && OverlayScalar(ts, m, base, j.value) == v
    decreases v, 1
  {
    if m.typeId.TMessage? {
      RoundTripMessage(ts, m.nested, v, base);
    } else {
      PrimRoundTrip(ts.fp, m, v.p);
      AssignPrimExact(ts.fp, m, ProjectPrim(ts.fp, m.typeId, v.p).value);
    }
  }

  /** A well-formed message projects to JSON that is accepted over any message of the type, and
      decoding it there rebuilds the message. */
  lemma {:induction false} RoundTripMessage(ts: Types, k: nat, v: Value, base: Value)
    requires Layout(ts) && Introspectable(ts) && UniqueNames(ts) && k < |ts.descs|
    requires WellFormedMessage(ts, k, v)
    ensures var j := EncodeMessage(ts, k, v);
      j.Ok? && ConformsMessage(ts, k, base, j.value) && OverlayMessage(ts, k, base, j.value) == v
    decreases v, 0
  {
    var ms := ts.descs[k].members;
    forall i | 0 <= i < |ms|
      ensures var j := EncodeMember(ts, ms[i], v.fields[i]);
        j.Ok? && Conforms(ts, ms[i], Field(base, i), j.value)
        && Overlay(ts, ms[i], Field(base, i), j.value) == v.fields[i]
    {
      assert Complete(ts, ms[i]);
      RoundTripMember(ts, ms[i], v.fields[i], Field(base, i));
    }
    EncodeMessageLaw(ts, k, v);
    assert OverlayMessage(ts, k, base, EncodeMessage(ts, k, v).value).fields == v.fields;
  }

  // ---- Normal form ----

  /** `out` says what `j` says: integers and integral reals by value, floating-point numbers after
      rounding to the field's format, and every key and element of `j` in its place. */
  ghost predicate Covers(ts: Types, m: Member, j: Json, out: Json)
    decreases j, 2
  {
    if !m.isArray then CoversScalar(ts, m, j, out)
    else j.Arr? && out.Arr? && |j.items| == |out.items| &&
         forall i :: 0 <= i < |j.items| ==> CoversScalar(ts, m, j.items[i], out.items[i])
  }

  ghost predicate CoversScalar(ts: Types, m: Member, j: Json, out: Json)
    decreases j, 1
  {
    match m.typeId
    case TMessage => HasNested(ts, m) && CoversMessage(ts, m.nested, j, out)
    case TBool | TString | TWString => out == j
    case TFloat | TDouble | TLongDouble =>
      && IsNumeric(j) && AsDouble(ts.fp, j).Finite?
      && out == Real(Finite(FormatOf(ts.fp, m.typeId).round(AsDouble(ts.fp, j).r)))
    case TOther => false
    case _ => IsIntegral(ts.fp, j) && out == Int(IntegerOf(ts.fp, j))
  }

  ghost predicate CoversMessage(ts: Types, k: nat, j: Json, out: Json)
    requires k < |ts.descs|
    decreases j, 0
  {
    && j.Obj? && out.Obj? && j.fields.Keys <= out.fields.Keys == Names(ts.descs[k].members)
    && (forall i :: 0 <= i < |ts.descs[k].members| && ts.descs[k].members[i].name in j.fields ==>
          var m := ts.descs[k].members[i];
          m.name in out.fields && Covers(ts, m, j.fields[m.name], out.fields[m.name]))
  }

  lemma {:induction false} CoversAfterMember(ts: Types, m: Member, v: Value, j: Json)
    requires Layout(ts) && UniqueNames(ts)
    requires Conforms(ts, m, v, j) && EncodeMember(ts, m, Overlay(ts, m, v, j)).Ok?
    ensures Covers(ts, m, j, EncodeMember(ts, m, Overlay(ts, m, v, j)).value)
    decreases j, 2
  {
    if !m.isArray {
      CoversAfterScalar(ts, m, v, j);
    } else {
      var w := Overlay(ts, m, v, j);
      if w.items != [] {
        assert CanProjectItems(m);
      }
      EncodeListLaw(ts, m, w);
      var out := EncodeMember(ts, m, w).value;
      forall i | 0 <= i < |j.items| ensures CoversScalar(ts, m, j.items[i], out.items[i]) {
        assert w.items[i] == OverlayScalar(ts, m, ItemBase(ts, m, v, i), j.items[i]);
        CoversAfterScalar(ts, m, ItemBase(ts, m, v, i), j.items[i]);
      }
    }
  }

  lemma {:induction false} CoversAfterScalar(ts: Types, m: Member, v: Value, j: Json)
    requires Layout(ts) && UniqueNames(ts)
    requires ConformsScalar(ts, m, v, j) && EncodeScalar(ts, m, OverlayScalar(ts, m, v, j)).Ok?
    ensures CoversScalar(ts, m, j, EncodeScalar(ts, m, OverlayScalar(ts, m, v, j)).value)
    decreases j, 1
  {
    if m.typeId.TMessage? {
      CoversAfterMessage(ts, m.nested, v, j);
    } else {
      AssignPrimExact(ts.fp, m, j);
      if IsFloating(m.typeId) {
        CastFixesRepresentable(ts.fp.double, Denoted(ts.fp, m, j).x);
      }
    }
  }

  lemma {:induction false} CoversAfterMessage(ts: Types, k: nat, v: Value, j: Json)
    requires Layout(ts) && UniqueNames(ts) && k < |ts.descs|
    requires ConformsMessage(ts, k, v, j) && EncodeMessage(ts, k, OverlayMessage(ts, k, v, j)).Ok?
    ensures CoversMessage(ts, k, j, EncodeMessage(ts, k, OverlayMessage(ts, k, v, j)).value)
    decreases j, 0
  {
    var ms := ts.descs[k].members;
    EncodeMessageLaw(ts, k, OverlayMessage(ts, k, v, j));
    forall i | 0 <= i < |ms| && ms[i].name in j.fields
      ensures Covers(ts, ms[i], j.fields[ms[i].name],
        EncodeMessage(ts, k, OverlayMessage(ts, k, v, j)).value.fields[ms[i].name])
    {
      CoversAfterMember(ts, ms[i], Field(v, i), j.fields[ms[i].name]);
    }
  }

  /** Decoding an accepted value and encoding the result yields JSON that is itself accepted, says
      everything the input said, and is a fixed point: decoding it gives the same message, so
      encoding again gives the same JSON. */
  lemma NormalForm(ts: Types, k: nat, j: Json)
    requires Layout(ts) && Introspectable(ts) && UniqueNames(ts) && WellFormedDefaults(ts)
    requires k < |ts.descs| && ConformsMessage(ts, k, DefaultMessage(ts, k), j)
    ensures var d := DefaultMessage(ts, k);
      var v := OverlayMessage(ts, k, d, j);
      var out := EncodeMessage(ts, k, v);
      && out.Ok?
      && CoversMessage(ts, k, j, out.value)
      && ConformsMessage(ts, k, d, out.value)
      && OverlayMessage(ts, k, d, out.value) == v
      && CoversMessage(ts, k, out.value, out.value)
  {
    var d := DefaultMessage(ts, k);
    OverlayMessageWellFormed(ts, k, d, j);
    var v := OverlayMessage(ts, k, d, j);
    RoundTripMessage(ts, k, v, d);
    CoversAfterMessage(ts, k, d, j);
    CoversAfterMessage(ts, k, d, EncodeMessage(ts, k, v).value);
  }
}
