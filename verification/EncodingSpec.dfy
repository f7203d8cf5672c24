/** Which JSON each typed message is projected to, and for what reason the others are not, said
    without the code. */
module EncodingSpec {
  import opened Errors
  import opened Json
  import opened Descriptors
  import opened ScalarSpec
  import opened TreeSemantics
  import opened CodecLaws
  import opened Projection

  // ---- The JSON that says what a value is ----

  /** `j` says `v`: an array of what its elements are, in order. */
  predicate Says(ts: Types, m: Member, v: Value, j: Json)
    decreases v, 2
  {
    if !m.isArray then SaysScalar(ts, m, v, j)
    else
      && m.hasSize && v.List? && j.Arr? && |j.items| == |v.items|
      && (v.items != [] ==> CanProjectItems(m))
      && forall i :: 0 <= i < |v.items| ==> SaysScalar(ts, m, v.items[i], j.items[i])
  }

  predicate SaysScalar(ts: Types, m: Member, v: Value, j: Json)
    decreases v, 1
  {
    if m.typeId.TMessage? then HasNested(ts, m) && SaysMessage(ts, m.nested, v, j)
    else v.Leaf? && Prints(ts.fp, m.typeId, v.p, j)
  }

  /** An object with exactly the names of the members, each with what its field is. */
  predicate SaysMessage(ts: Types, k: nat, v: Value, j: Json)
    requires k < |ts.descs|
    decreases v, 0
  {
    var ms := ts.descs[k].members;
    && v.Msg? && |v.fields| == |ms| && j.Obj? && j.fields.Keys == Names(ms)
    && forall i :: 0 <= i < |ms| ==>
         ms[i].name in j.fields && Says(ts, ms[i], v.fields[i], j.fields[ms[i].name])
  }

  lemma {:induction false} MemberEncodesAs(ts: Types, m: Member, v: Value, j: Json)
    requires UniqueNames(ts) && HasType(ts, m, v)
    ensures EncodeMember(ts, m, v) == Ok(j) <==> Says(ts, m, v, j)
    decreases v, 2
  {
    if !m.isArray {
      ScalarEncodesAs(ts, m, v, j);
    } else if m.hasSize && j.Arr? && |j.items| == |v.items| && (v.items != [] ==> CanProjectItems(m)) {
      forall i | 0 <= i < |v.items|
        ensures EncodeScalar(ts, m, v.items[i]) == Ok(j.items[i]) <==> SaysScalar(ts, m, v.items[i], j.items[i])
      {
        ScalarEncodesAs(ts, m, v.items[i], j.items[i]);
      }
      ListEncodesAs(ts, m, v, j);
    } else if m.hasSize && (v.items != [] ==> CanProjectItems(m)) {
      EncodeListLaw(ts, m, v);
    }
  }

  lemma ListEncodesAs(ts: Types, m: Member, v: Value, j: Json)
    requires m.isArray && m.hasSize && v.List? && j.Arr? && |j.items| == |v.items|
    requires v.items != [] ==> CanProjectItems(m)
    ensures EncodeMember(ts, m, v) == Ok(j) <==>
      forall i :: 0 <= i < |v.items| ==> EncodeScalar(ts, m, v.items[i]) == Ok(j.items[i])
  {
    hide EncodeScalar;
    EncodeListLaw(ts, m, v);
    if forall i :: 0 <= i < |v.items| ==> EncodeScalar(ts, m, v.items[i]) == Ok(j.items[i]) {
      assert EncodeMember(ts, m, v).value.items == j.items;
    }
  }

  lemma {:induction false} ScalarEncodesAs(ts: Types, m: Member, v: Value, j: Json)
    requires UniqueNames(ts) && HasScalarType(ts, m, v)
    ensures EncodeScalar(ts, m, v) == Ok(j) <==> SaysScalar(ts, m, v, j)
    decreases v, 1
  {
    if !m.typeId.TMessage? {
      ProjectPrimPrints(ts.fp, m.typeId, v.p, j);
    } else if HasNested(ts, m) {
      EncodesAs(ts, m.nested, v, j);
    }
  }

  /** A typed message is projected to `j` if and only if `j` says what it is, field by field and
      element by element: the numbers that are no numbers included. */
  lemma {:induction false} EncodesAs(ts: Types, k: nat, v: Value, j: Json)
    requires UniqueNames(ts) && k < |ts.descs| && HasMessageType(ts, k, v)
    ensures EncodeMessage(ts, k, v) == Ok(j) <==> SaysMessage(ts, k, v, j)
    decreases v, 0
  {
    var ms := ts.descs[k].members;
    if j.Obj? && j.fields.Keys == Names(ms) {
      forall i | 0 <= i < |ms|
        ensures ms[i].name in j.fields
        ensures EncodeMember(ts, ms[i], v.fields[i]) == Ok(j.fields[ms[i].name]) <==>
          Says(ts, ms[i], v.fields[i], j.fields[ms[i].name])
      {
        assert ms[i].name in Names(ms);
        MemberEncodesAs(ts, ms[i], v.fields[i], j.fields[ms[i].name]);
      }
      ObjectEncodesAs(ts, k, v, j);
    } else {
      EncodeMessageLaw(ts, k, v);
    }
  }

  lemma ObjectEncodesAs(ts: Types, k: nat, v: Value, j: Json)
    requires UniqueNames(ts) && k < |ts.descs| && v.Msg? && |v.fields| == |ts.descs[k].members|
    requires j.Obj? && j.fields.Keys == Names(ts.descs[k].members)
    requires forall i :: 0 <= i < |ts.descs[k].members| ==> ts.descs[k].members[i].name in j.fields
    ensures EncodeMessage(ts, k, v) == Ok(j) <==>
      forall i :: 0 <= i < |ts.descs[k].members| ==>
        EncodeMember(ts, ts.descs[k].members[i], v.fields[i]) == Ok(j.fields[ts.descs[k].members[i].name])
  {
    hide EncodeMember, UniqueNames;
    var ms := ts.descs[k].members;
    EncodeMessageLaw(ts, k, v);
    if forall i :: 0 <= i < |ms| ==> EncodeMember(ts, ms[i], v.fields[i]) == Ok(j.fields[ms[i].name]) {
      var out := EncodeMessage(ts, k, v).value;
      forall n | n in j.fields ensures out.fields[n] == j.fields[n] {
        var m :| m in ms && m.name == n;
        var i :| 0 <= i < |ms| && ms[i] == m;
        assert Ok(out.fields[ms[i].name]) == EncodeMember(ts, ms[i], v.fields[i]);
      }
      assert out.fields == j.fields;
    }
  }

  // ---- The reasons why the others are not projected ----

  /** The first element that cannot be projected, or a function that is missing. */
  ghost predicate FailsToEncode(ts: Types, m: Member, v: Value, e: Error)
    decreases v, 2
  {
    if !m.isArray then ScalarFailsToEncode(ts, m, v, e)
    else if !m.hasSize then e == PermanentError(TypeSupportInvalid)
    else
      v.List? && v.items != [] &&
      if !CanProjectItems(m) then e == PermanentError(TypeSupportInvalid)
      else
        exists i :: 0 <= i < |v.items| && ScalarFailsToEncode(ts, m, v.items[i], e)
          && forall h :: 0 <= h < i ==> ScalarProjects(ts, m, v.items[h])
  }

  ghost predicate ScalarFailsToEncode(ts: Types, m: Member, v: Value, e: Error)
    decreases v, 1
  {
    if !m.typeId.TMessage? then v.Leaf? && Unprintable(ts.fp, m.typeId, v.p, e)
    else if !HasNested(ts, m) then e == PermanentError(TypeSupportInvalid)
    else MessageFailsToEncode(ts, m.nested, v, e)
  }

  ghost predicate MessageFailsToEncode(ts: Types, k: nat, v: Value, e: Error)
    requires k < |ts.descs|
    decreases v, 0
  {
    var ms := ts.descs[k].members;
    && v.Msg? && |v.fields| == |ms|
    && exists i :: 0 <= i < |ms| && FailsToEncode(ts, ms[i], v.fields[i], e)
         && forall h :: 0 <= h < i ==> Projects(ts, ms[h], v.fields[h])
  }

  lemma {:induction false} MemberFailsExactly(ts: Types, m: Member, v: Value, e: Error)
    requires HasType(ts, m, v)
    ensures EncodeMember(ts, m, v) == Err(e) <==> FailsToEncode(ts, m, v, e)
    decreases v, 2
  {
    if !m.isArray {
      ScalarFailsExactly(ts, m, v, e);
    } else if m.hasSize {
      ItemsFailExactly(ts, m, v, 0, [], e);
    }
  }

  lemma {:induction false} ItemsFailExactly(ts: Types, m: Member, v: Value, i: nat, acc: seq<Json>, e: Error)
    requires v.List? && i <= |v.items|
    requires forall x :: 0 <= x < |v.items| ==> HasScalarType(ts, m, v.items[x])
    ensures EncodeItems(ts, m, v, i, acc) == Err(e) <==>
      i < |v.items| &&
      if !CanProjectItems(m) then e == PermanentError(TypeSupportInvalid)
      else
        exists x :: i <= x < |v.items| && ScalarFailsToEncode(ts, m, v.items[x], e)
          && forall h :: i <= h < x ==> ScalarProjects(ts, m, v.items[h])
    decreases v, 0, |v.items| - i
  {
    if i < |v.items| && CanProjectItems(m) {
      var item := EncodeScalar(ts, m, v.items[i]);
      ScalarEncodesExactly(ts, m, v.items[i]);
      ScalarFailsExactly(ts, m, v.items[i], e);
      if item.Ok? {
        ItemsFailExactly(ts, m, v, i + 1, acc + [item.value], e);
      } else if item.error == e {
        assert ScalarFailsToEncode(ts, m, v.items[i], e);
      }
    }
  }

  lemma {:induction false} ScalarFailsExactly(ts: Types, m: Member, v: Value, e: Error)
    requires HasScalarType(ts, m, v)
    ensures EncodeScalar(ts, m, v) == Err(e) <==> ScalarFailsToEncode(ts, m, v, e)
    decreases v, 1
  {
    if !m.typeId.TMessage? {
      ProjectPrimUnprintable(ts.fp, m.typeId, v.p, e);
    } else if HasNested(ts, m) {
      MessageFailsExactly(ts, m.nested, v, e);
    }
  }

  lemma {:induction false} FieldsFailExactly(ts: Types, k: nat, v: Value, i: nat, acc: map<string, Json>, e: Error)
    requires k < |ts.descs| && HasMessageType(ts, k, v) && i <= |v.fields|
    ensures EncodeFields(ts, k, v, i, acc) == Err(e) <==>
      exists x :: i <= x < |v.fields| && FailsToEncode(ts, ts.descs[k].members[x], v.fields[x], e)
        && forall h :: i <= h < x ==> Projects(ts, ts.descs[k].members[h], v.fields[h])
    decreases v, 0, |v.fields| - i
  {
    if i < |v.fields| {
      var m := ts.descs[k].members[i];
      var field := EncodeMember(ts, m, v.fields[i]);
      MemberEncodesExactly(ts, m, v.fields[i]);
      MemberFailsExactly(ts, m, v.fields[i], e);
      if field.Ok? {
        FieldsFailExactly(ts, k, v, i + 1, acc[m.name := field.value], e);
      } else if field.error == e {
        assert FailsToEncode(ts, m, v.fields[i], e);
      }
    }
  }

  /** Encoding a typed message ends in the error `e` if and only if that is the reason of the first
      field that has no JSON. */
  lemma {:induction false} MessageFailsExactly(ts: Types, k: nat, v: Value, e: Error)
    requires k < |ts.descs| && HasMessageType(ts, k, v)
    ensures EncodeMessage(ts, k, v) == Err(e) <==> MessageFailsToEncode(ts, k, v, e)
    decreases v, 0, |v.fields| + 1
  {
    FieldsFailExactly(ts, k, v, 0, map[], e);
  }
}
