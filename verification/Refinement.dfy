/** In-place decoding refines the tree semantics: what the writes leave in memory reads back as the
    old value with the JSON laid over it. */
module Refinement {
  import opened Errors
  import opened Json
  import opened Descriptors
  import opened ScalarCodec
  import opened ScalarSpec
  import opened TreeSemantics
  import opened FlatDecode
  import opened Separation

  /** A failure is a typed permanent error or an untyped exception, and it is `e` exactly if `fails`
      holds. */
  predicate FailsWith<T>(w: Result<T>, e: Error, fails: bool) {
    && (w.Err? ==> IsCodecError(w.error) || w.error == UntypedException)
    && (w.Err? && w.error == e <==> fails)
  }

  ghost predicate ScalarRefined(ts: Types, m: Member, j: Json, s: Memory, e: Error)
    requires Layout(ts) && |s| == ElemSize(ts, m)
  {
    var w, prior := WriteScalar(ts, m, j, s), LoadScalar(ts, m, s);
    && (w.Ok? <==> ConformsScalar(ts, m, prior, j))
    && (w.Ok? ==> LoadScalar(ts, m, w.value) == OverlayScalar(ts, m, prior, j))
    && FailsWith(w, e, RejectsScalar(ts, m, prior, j, e))
  }

  ghost predicate MemberRefined(ts: Types, m: Member, j: Json, s: Memory, e: Error)
    requires Layout(ts) && |s| == SlotSize(ts, m)
  {
    var w, prior := WriteMember(ts, m, j, s), LoadMember(ts, m, s);
    && (w.Ok? <==> Conforms(ts, m, prior, j))
    && (w.Ok? ==> LoadMember(ts, m, w.value) == Overlay(ts, m, prior, j))
    && FailsWith(w, e, Rejects(ts, m, prior, j, e))
  }

  lemma {:induction false} RefineScalar(ts: Types, m: Member, j: Json, s: Memory, e: Error)
    requires Layout(ts) && TypedDefaults(ts) && |s| == ElemSize(ts, m)
    requires HasScalarType(ts, m, LoadScalar(ts, m, s))
    ensures ScalarRefined(ts, m, j, s, e)
    decreases j, 1
  {
    if !m.typeId.TMessage? {
      AssignPrimExact(ts.fp, m, j);
      AssignPrimRefuses(ts.fp, m, j, e);
    } else if HasNested(ts, m) && j.Obj? && j.fields.Keys <= Names(ts.descs[m.nested].members) {
      RefineFields(ts, m.nested, j, s, e);
    }
  }

  /** The fields of an object, decoded into a typed message. */
  lemma {:induction false} RefineFields(ts: Types, k: nat, j: Json, s: Memory, e: Error)
    requires Layout(ts) && TypedDefaults(ts) && k < |ts.descs| && |s| == ts.descs[k].size
    requires j.Obj? && j.fields.Keys <= Names(ts.descs[k].members)
    requires HasMessageType(ts, k, Msg(LoadFields(ts, k, s)))
    ensures var w, prior := WriteFields(ts, k, j, 0, s), Msg(LoadFields(ts, k, s));
      && (w.Ok? <==> ConformsMessage(ts, k, prior, j))
      && (w.Ok? ==> Msg(LoadFields(ts, k, w.value)) == OverlayMessage(ts, k, prior, j))
      && FailsWith(w, e, RejectsMessage(ts, k, prior, j, e))
    decreases j, 0
  {
    var ms := ts.descs[k].members;
    forall x | 0 <= x < |ms| ensures FieldRefined(ts, k, j, x, s, e) {
      MemberFacts(ts, k, x);
      if ms[x].name in j.fields {
        RefineMember(ts, ms[x], j.fields[ms[x].name], Slot(ts, ms[x], s), e);
      }
    }
    FieldsSeparate(ts, k, j, 0, s);
    FieldsRefined(ts, k, j, s, e);
  }

  /** One slot of a message after decoding. */
  ghost predicate FieldRefined(ts: Types, k: nat, j: Json, x: nat, s: Memory, e: Error)
    requires Layout(ts) && k < |ts.descs| && |s| == ts.descs[k].size && j.Obj?
    requires x < |ts.descs[k].members|
  {
    MemberFacts(ts, k, x);
    var m, w := ts.descs[k].members[x], SlotResult(ts, k, j, x, s);
    var prior := LoadMember(ts, m, Slot(ts, m, s));
    if m.name in j.fields then
      && (w.Ok? <==> Conforms(ts, m, prior, j.fields[m.name]))
      && (w.Ok? ==> LoadMember(ts, m, w.value) == Overlay(ts, m, prior, j.fields[m.name]))
      && FailsWith(w, e, Rejects(ts, m, prior, j.fields[m.name], e))
    else w.Ok? && LoadMember(ts, m, w.value) == prior
  }

  lemma FieldsRefined(ts: Types, k: nat, j: Json, s: Memory, e: Error)
    requires Layout(ts) && k < |ts.descs| && |s| == ts.descs[k].size
    requires j.Obj? && j.fields.Keys <= Names(ts.descs[k].members)
    requires forall x :: 0 <= x < |ts.descs[k].members| ==> FieldRefined(ts, k, j, x, s, e)
    requires var w := WriteFields(ts, k, j, 0, s);
      && (w.Ok? <==> AllSlotsOk(ts, k, j, 0, s))
      && (w.Ok? ==> Separated(ts, k, j, 0, s, w.value))
      && (w.Err? ==> FailsAtFirstSlot(ts, k, j, 0, s, w))
    ensures var w, prior := WriteFields(ts, k, j, 0, s), Msg(LoadFields(ts, k, s));
      && (w.Ok? <==> ConformsMessage(ts, k, prior, j))
      && (w.Ok? ==> Msg(LoadFields(ts, k, w.value)) == OverlayMessage(ts, k, prior, j))
      && FailsWith(w, e, RejectsMessage(ts, k, prior, j, e))
  {
    hide WriteFields, WriteMember, SlotResult, Conforms, Rejects, RejectsMessage;
    var ms := ts.descs[k].members;
    var w, prior := WriteFields(ts, k, j, 0, s), Msg(LoadFields(ts, k, s));
    forall x: nat | x < |ms| ensures FieldOutcome(ts, k, prior, j, x, SlotResult(ts, k, j, x, s), e) {
      OutcomeOfField(ts, k, j, x, s, e);
    }
    if w.Ok? {
      FieldsOverlaid(ts, k, j, s, w.value, e);
      NothingRejects(ts, k, j, s, prior, e);
    } else {
      FirstFieldFails(ts, k, j, s, w, prior, e);
    }
  }

  lemma NothingRejects(ts: Types, k: nat, j: Json, s: Memory, prior: Value, e: Error)
    requires Layout(ts) && k < |ts.descs| && |s| == ts.descs[k].size && j.Obj?
    requires j.fields.Keys <= Names(ts.descs[k].members)
    requires forall x :: 0 <= x < |ts.descs[k].members| ==>
      FieldOutcome(ts, k, prior, j, x, SlotResult(ts, k, j, x, s), e)
    requires AllSlotsOk(ts, k, j, 0, s)
    ensures !RejectsMessage(ts, k, prior, j, e)
  {
    hide SlotResult, Conforms, Rejects, Field;
    var ms := ts.descs[k].members;
    forall x: nat | x < |ms| && ms[x].name in j.fields
      ensures !Rejects(ts, ms[x], Field(prior, x), j.fields[ms[x].name], e)
    {
      assert FieldOutcome(ts, k, prior, j, x, SlotResult(ts, k, j, x, s), e);
    }
  }

  lemma FieldsOverlaid(ts: Types, k: nat, j: Json, s: Memory, r: Memory, e: Error)
    requires Layout(ts) && k < |ts.descs| && |s| == |r| == ts.descs[k].size
    requires j.Obj? && j.fields.Keys <= Names(ts.descs[k].members)
    requires forall x :: 0 <= x < |ts.descs[k].members| ==> FieldRefined(ts, k, j, x, s, e)
    requires Separated(ts, k, j, 0, s, r)
    ensures ConformsMessage(ts, k, Msg(LoadFields(ts, k, s)), j)
    ensures Msg(LoadFields(ts, k, r)) == OverlayMessage(ts, k, Msg(LoadFields(ts, k, s)), j)
  {
    hide WriteMember, SlotResult, Conforms, Rejects, Overlay, LoadMember;
    var ms, prior := ts.descs[k].members, Msg(LoadFields(ts, k, s));
    forall x | 0 <= x < |ms|
      ensures LoadFields(ts, k, r)[x] == OverlayMessage(ts, k, prior, j).fields[x]
      ensures ms[x].name in j.fields ==> Conforms(ts, ms[x], Field(prior, x), j.fields[ms[x].name])
    {
      MemberFacts(ts, k, x);
      assert FieldRefined(ts, k, j, x, s, e);
    }
    assert LoadFields(ts, k, r) == OverlayMessage(ts, k, prior, j).fields;
  }

  /** What member `x` comes to: nothing fails, or it fails with `e` or otherwise. */
  ghost predicate FieldOutcome(ts: Types, k: nat, prior: Value, j: Json, x: nat, w: Result<Memory>, e: Error)
    requires Layout(ts) && k < |ts.descs| && j.Obj? && x < |ts.descs[k].members|
  {
    var m := ts.descs[k].members[x];
    && (w.Ok? <==> m.name in j.fields ==> Conforms(ts, m, Field(prior, x), j.fields[m.name]))
    && FailsWith(w, e, m.name in j.fields && Rejects(ts, m, Field(prior, x), j.fields[m.name], e))
  }

  lemma OutcomeOfField(ts: Types, k: nat, j: Json, x: nat, s: Memory, e: Error)
    requires Layout(ts) && k < |ts.descs| && |s| == ts.descs[k].size && j.Obj?
    requires x < |ts.descs[k].members| && FieldRefined(ts, k, j, x, s, e)
    ensures FieldOutcome(ts, k, Msg(LoadFields(ts, k, s)), j, x, SlotResult(ts, k, j, x, s), e)
  {
    hide WriteMember, LoadMember, Conforms, Rejects, SlotResult;
    MemberFacts(ts, k, x);
    assert LoadFields(ts, k, s)[x] == LoadMember(ts, ts.descs[k].members[x], Slot(ts, ts.descs[k].members[x], s));
  }

  /** The first field that fails decides how the message is rejected. */
  lemma FirstFieldFails(ts: Types, k: nat, j: Json, s: Memory, w: Result<Memory>, prior: Value, e: Error)
    requires Layout(ts) && k < |ts.descs| && |s| == ts.descs[k].size
    requires j.Obj? && j.fields.Keys <= Names(ts.descs[k].members)
    requires forall x :: 0 <= x < |ts.descs[k].members| ==>
      FieldOutcome(ts, k, prior, j, x, SlotResult(ts, k, j, x, s), e)
    requires FailsAtFirstSlot(ts, k, j, 0, s, w)
    ensures w.Err? && !ConformsMessage(ts, k, prior, j)
    ensures FailsWith(w, e, RejectsMessage(ts, k, prior, j, e))
  {
    hide SlotResult, FieldOutcome, ConformsMessage, RejectsMessage;
    var x: nat :| FirstFailingSlot(ts, k, j, 0, x, s) && SlotResult(ts, k, j, x, s) == w;
    assert FieldOutcome(ts, k, prior, j, x, w, e);
    forall h: nat | h < x ensures FieldOutcome(ts, k, prior, j, h, Ok(s), e) {
      assert FieldOutcome(ts, k, prior, j, h, SlotResult(ts, k, j, h, s), e);
      OkOutcome(ts, k, prior, j, h, SlotResult(ts, k, j, h, s), s, e);
    }
    FailsAtField(ts, k, prior, j, x, w, s, e);
  }

  lemma OkOutcome(ts: Types, k: nat, prior: Value, j: Json, x: nat, w: Result<Memory>, s: Memory, e: Error)
    requires Layout(ts) && k < |ts.descs| && j.Obj? && x < |ts.descs[k].members|
    requires w.Ok? && FieldOutcome(ts, k, prior, j, x, w, e)
    ensures FieldOutcome(ts, k, prior, j, x, Ok(s), e)
  {
  }

  lemma FailsAtField(ts: Types, k: nat, prior: Value, j: Json, x: nat, w: Result<Memory>, s: Memory, e: Error)
    requires Layout(ts) && k < |ts.descs| && j.Obj? && j.fields.Keys <= Names(ts.descs[k].members)
    requires x < |ts.descs[k].members| && w.Err? && FieldOutcome(ts, k, prior, j, x, w, e)
    requires forall h :: 0 <= h < x ==> FieldOutcome(ts, k, prior, j, h, Ok(s), e)
    ensures !ConformsMessage(ts, k, prior, j)
    ensures FailsWith(w, e, RejectsMessage(ts, k, prior, j, e))
  {
    hide Conforms, Rejects, Field, FieldOutcome, FailsWith;
    EarlierFieldsConform(ts, k, prior, j, x, s, e);
    FieldAt(ts, k, prior, j, x, w, e);
    if w.error == e {
      assert RejectsMessage(ts, k, prior, j, e);
    }
    FailsWithIntro(w, e, RejectsMessage(ts, k, prior, j, e));
  }

  lemma FailsWithIntro<T>(w: Result<T>, e: Error, fails: bool)
    requires w.Err? && (IsCodecError(w.error) || w.error == UntypedException)
    requires w.error == e <==> fails
    ensures FailsWith(w, e, fails)
  {
  }

  lemma FieldAt(ts: Types, k: nat, prior: Value, j: Json, x: nat, w: Result<Memory>, e: Error)
    requires Layout(ts) && k < |ts.descs| && j.Obj? && x < |ts.descs[k].members|
    requires w.Err? && FieldOutcome(ts, k, prior, j, x, w, e)
    ensures IsCodecError(w.error) || w.error == UntypedException
    ensures var m := ts.descs[k].members[x];
      && m.name in j.fields && !Conforms(ts, m, Field(prior, x), j.fields[m.name])
      && (w.error == e <==> Rejects(ts, m, Field(prior, x), j.fields[m.name], e))
  {
    hide Conforms, Rejects, Field;
  }

  lemma EarlierFieldsConform(ts: Types, k: nat, prior: Value, j: Json, x: nat, s: Memory, e: Error)
    requires Layout(ts) && k < |ts.descs| && j.Obj? && x < |ts.descs[k].members|
    requires forall h :: 0 <= h < x ==> FieldOutcome(ts, k, prior, j, h, Ok(s), e)
    ensures var ms := ts.descs[k].members;
      forall h :: 0 <= h < x && ms[h].name in j.fields ==>
        && Conforms(ts, ms[h], Field(prior, h), j.fields[ms[h].name])
        && !Rejects(ts, ms[h], Field(prior, h), j.fields[ms[h].name], e)
  {
    hide Conforms, Rejects, Field;
    var ms := ts.descs[k].members;
    forall h | 0 <= h < x && ms[h].name in j.fields
      ensures Conforms(ts, ms[h], Field(prior, h), j.fields[ms[h].name])
      ensures !Rejects(ts, ms[h], Field(prior, h), j.fields[ms[h].name], e)
    {
      assert FieldOutcome(ts, k, prior, j, h, Ok(s), e);
    }
  }

  lemma BoolIgnoresOld(ts: Types, m: Member, j: Json, x: nat, buf: Memory)
    requires Layout(ts) && j.Arr? && x < |j.items| && CanAssignItems(m)
    requires |buf| == Stride(ElemSize(ts, m), |j.items|)
    ensures Stride(ElemSize(ts, m), x) + ElemSize(ts, m) <= |buf|
    ensures ItemResult(ts, m, j, x, buf) == WriteScalar(ts, m, j.items[x], Element(ElemSize(ts, m), buf, x))
  {
    StrideMonotone(ElemSize(ts, m), x, |j.items|);
    if !m.hasGet {
      var prior := Element(ElemSize(ts, m), buf, x);
      assert WriteScalar(ts, m, j.items[x], prior) == WriteScalar(ts, m, j.items[x], [P(PBool(false))]);
    }
  }

  /** Some element is rejected with `e`, and the ones before it conform. */
  ghost predicate SomeItemRejects(ts: Types, m: Member, prior: Value, j: Json, e: Error)
    requires Layout(ts) && j.Arr?
  {
    exists i :: 0 <= i < |j.items| && RejectsScalar(ts, m, ItemBase(ts, m, prior, i), j.items[i], e)
      && forall h :: 0 <= h < i ==> ConformsScalar(ts, m, ItemBase(ts, m, prior, h), j.items[h])
  }

  /** The first element that fails decides how the array is rejected. */
  lemma FirstItemFails(ts: Types, m: Member, j: Json, prior: Value, buf: Memory, w: Result<Memory>, e: Error)
    requires Layout(ts) && j.Arr? && |buf| == Stride(ElemSize(ts, m), |j.items|)
    requires forall x :: 0 <= x < |j.items| ==>
      (ItemResult(ts, m, j, x, buf).Ok? <==> ConformsScalar(ts, m, ItemBase(ts, m, prior, x), j.items[x]))
      && FailsWith(ItemResult(ts, m, j, x, buf), e, RejectsScalar(ts, m, ItemBase(ts, m, prior, x), j.items[x], e))
    requires w.Ok? ==> AllItemsOk(ts, m, j, 0, buf)
    requires w.Err? ==> FailsAtFirstItem(ts, m, j, 0, buf, w)
    ensures FailsWith(w, e, SomeItemRejects(ts, m, prior, j, e))
  {
    hide ItemResult, ConformsScalar, RejectsScalar, ItemBase;
    if w.Err? {
      var x :| FirstFailingItem(ts, m, j, 0, x, buf) && ItemResult(ts, m, j, x, buf) == w;
      assert ItemResult(ts, m, j, x, buf).Err?;
    }
  }

  /** The elements of an array, decoded into a buffer that holds the values `prior` gives. */
  lemma {:induction false} RefineItems(ts: Types, m: Member, j: Json, prior: Value, buf: Memory, e: Error)
    requires Layout(ts) && TypedDefaults(ts) && j.Arr?
    requires |buf| == Stride(ElemSize(ts, m), |j.items|)
    requires forall x :: 0 <= x < |j.items| ==> LoadElement(ts, m, buf, |j.items|, x) == ItemBase(ts, m, prior, x)
    requires forall x :: 0 <= x < |j.items| ==> HasScalarType(ts, m, ItemBase(ts, m, prior, x))
    ensures var w, n := WriteItems(ts, m, j, 0, buf), |j.items|;
      && (w.Ok? <==> (0 < n ==> CanAssignItems(m)) &&
                     forall x :: 0 <= x < n ==> ConformsScalar(ts, m, ItemBase(ts, m, prior, x), j.items[x]))
      && (w.Ok? ==> forall x :: 0 <= x < n ==>
            LoadElement(ts, m, w.value, n, x) == OverlayScalar(ts, m, ItemBase(ts, m, prior, x), j.items[x]))
      && FailsWith(w, e, if 0 < n && !CanAssignItems(m) then e == PermanentError(TypeSupportInvalid)
                         else SomeItemRejects(ts, m, prior, j, e))
    decreases j, 1, 0
  {
    var w, n, es := WriteItems(ts, m, j, 0, buf), |j.items|, ElemSize(ts, m);
    ItemsSeparate(ts, m, j, 0, buf);
    if CanAssignItems(m) {
      forall x | 0 <= x < n
        ensures ItemResult(ts, m, j, x, buf).Ok? <==> ConformsScalar(ts, m, ItemBase(ts, m, prior, x), j.items[x])
        ensures w.Ok? ==>
          LoadElement(ts, m, w.value, n, x) == OverlayScalar(ts, m, ItemBase(ts, m, prior, x), j.items[x])
        ensures FailsWith(ItemResult(ts, m, j, x, buf), e,
          RejectsScalar(ts, m, ItemBase(ts, m, prior, x), j.items[x], e))
      {
        BoolIgnoresOld(ts, m, j, x, buf);
        assert LoadElement(ts, m, buf, n, x) == LoadScalar(ts, m, Element(es, buf, x));
        RefineScalar(ts, m, j.items[x], Element(es, buf, x), e);
        assert ScalarRefined(ts, m, j.items[x], Element(es, buf, x), e);
        if w.Ok? {
          assert Element(es, w.value, x) == ItemResult(ts, m, j, x, buf).value;
        }
      }
      FirstItemFails(ts, m, j, prior, buf, w, e);
    } else if 0 < n {
      assert ItemResult(ts, m, j, 0, buf).Err?;
    }
  }

  /** Resizing keeps the old elements and adds default ones. */
  lemma {:induction false} ResizeKeeps(ts: Types, m: Member, buf: Memory, len: nat, n: nat, i: nat)
    requires Layout(ts) && |buf| == Stride(ElemSize(ts, m), len) && i < n
    ensures LoadElement(ts, m, Resize(ts, m, buf, len, n), n, i) ==
      if i < len then LoadElement(ts, m, buf, len, i) else DefaultValue(ts, m)
    decreases n
  {
    hide LoadScalar, Stride;
    var es := ElemSize(ts, m);
    var r := Resize(ts, m, buf, len, n);
    StrideMonotone(es, i, n);
    if n <= len {
      StrideMonotone(es, n, len);
      StrideMonotone(es, i, len);
      assert Element(es, r, i) == Element(es, buf, i);
    } else if i == n - 1 {
      assert Element(es, r, i) == DefaultCells(ts, m);
    } else {
      StrideMonotone(es, i, n - 1);
      assert Element(es, r, i) == Element(es, Resize(ts, m, buf, len, n - 1), i);
      ResizeKeeps(ts, m, buf, len, n - 1, i);
    }
  }

  lemma DefaultHasType(ts: Types, m: Member)
    requires Layout(ts) && TypedDefaults(ts)
    ensures HasScalarType(ts, m, DefaultValue(ts, m))
  {
    if m.typeId.TMessage? && HasNested(ts, m) {
      assert DefaultValue(ts, m) == DefaultMessage(ts, m.nested);
    }
  }

  lemma {:induction false} RefineMember(ts: Types, m: Member, j: Json, s: Memory, e: Error)
    requires Layout(ts) && TypedDefaults(ts) && |s| == SlotSize(ts, m)
    requires HasType(ts, m, LoadMember(ts, m, s))
    ensures MemberRefined(ts, m, j, s, e)
    decreases j, 2
  {
    if !m.isArray {
      RefineScalar(ts, m, j, s, e);
    } else {
      hide MemberRefined;
      if !HasFittingLength(ts, m, j, s) {
        MisfitIsRejected(ts, m, j, s, e);
      } else if IsFixedArray(m) {
        RefineArray(ts, m, j, s, e);
      } else {
        RefineSequence(ts, m, j, s, e);
      }
    }
  }

  /** An array of a length that fits, for a member that can be resized to it or has it already. */
  ghost predicate HasFittingLength(ts: Types, m: Member, j: Json, s: Memory)
    requires Layout(ts) && |s| == SlotSize(ts, m)
  {
    && j.Arr? && LengthConforms(m, |j.items|) && m.hasSize
    && (IsSequence(m) && !m.hasResize ==> |j.items| == |Items(LoadMember(ts, m, s))|)
  }

  lemma MisfitIsRejected(ts: Types, m: Member, j: Json, s: Memory, e: Error)
    requires Layout(ts) && |s| == SlotSize(ts, m) && HasType(ts, m, LoadMember(ts, m, s))
    requires m.isArray && !HasFittingLength(ts, m, j, s)
    ensures MemberRefined(ts, m, j, s, e)
  {
    hide WriteItems, Resize, LoadElement, LoadScalar, ConformsScalar, RejectsScalar, HasScalarType;
  }

  lemma {:induction false} RefineArray(ts: Types, m: Member, j: Json, s: Memory, e: Error)
    requires Layout(ts) && TypedDefaults(ts) && |s| == SlotSize(ts, m)
    requires HasType(ts, m, LoadMember(ts, m, s))
    requires IsFixedArray(m) && HasFittingLength(ts, m, j, s)
    ensures MemberRefined(ts, m, j, s, e)
    decreases j, 1, 1
  {
    hide WriteItems, Resize, LoadElement, LoadScalar, ConformsScalar, RejectsScalar, HasScalarType;
    var prior := LoadMember(ts, m, s);
    RefineItems(ts, m, j, prior, s, e);
    RefineFixed(ts, m, j, s);
  }

  lemma {:induction false} RefineSequence(ts: Types, m: Member, j: Json, s: Memory, e: Error)
    requires Layout(ts) && TypedDefaults(ts) && |s| == SlotSize(ts, m)
    requires HasType(ts, m, LoadMember(ts, m, s))
    requires IsSequence(m) && HasFittingLength(ts, m, j, s)
    ensures MemberRefined(ts, m, j, s, e)
    decreases j, 1, 1
  {
    hide WriteItems, Resize, LoadElement, LoadScalar, ConformsScalar, RejectsScalar, HasScalarType;
    var prior, n := LoadMember(ts, m, s), |j.items|;
    DefaultHasType(ts, m);
    assert IsVec(ts, m, s);
    var buf := if m.hasResize then Resize(ts, m, s[0].buf, s[0].len, n) else s[0].buf;
    forall x | 0 <= x < n
      ensures LoadElement(ts, m, buf, n, x) == ItemBase(ts, m, prior, x)
      ensures HasScalarType(ts, m, ItemBase(ts, m, prior, x))
    {
      if m.hasResize {
        ResizeKeeps(ts, m, s[0].buf, s[0].len, n, x);
      }
    }
    RefineItems(ts, m, j, prior, buf, e);
    RefineVec(ts, m, j, s, buf);
  }

  lemma RefineFixed(ts: Types, m: Member, j: Json, s: Memory)
    requires Layout(ts) && |s| == SlotSize(ts, m) && IsFixedArray(m) && m.hasSize
    requires j.Arr? && |j.items| == m.arraySize
    requires var w, n := WriteItems(ts, m, j, 0, s), |j.items|;
      w.Ok? ==> forall x :: 0 <= x < n ==>
        LoadElement(ts, m, w.value, n, x) ==
        OverlayScalar(ts, m, ItemBase(ts, m, LoadMember(ts, m, s), x), j.items[x])
    ensures WriteMember(ts, m, j, s) == WriteItems(ts, m, j, 0, s)
    ensures WriteMember(ts, m, j, s).Ok? ==>
      LoadMember(ts, m, WriteMember(ts, m, j, s).value) == Overlay(ts, m, LoadMember(ts, m, s), j)
  {
    var w := WriteMember(ts, m, j, s);
    assert w == WriteItems(ts, m, j, 0, s);
    if w.Ok? {
      assert LoadMember(ts, m, w.value).items == Overlay(ts, m, LoadMember(ts, m, s), j).items;
    }
  }

  lemma RefineVec(ts: Types, m: Member, j: Json, s: Memory, buf: Memory)
    requires Layout(ts) && |s| == SlotSize(ts, m) && IsSequence(m) && m.hasSize && IsVec(ts, m, s)
    requires j.Arr? && LengthConforms(m, |j.items|) && (m.hasResize || s[0].len == |j.items|)
    requires |buf| == Stride(ElemSize(ts, m), |j.items|)
    requires buf == if m.hasResize then Resize(ts, m, s[0].buf, s[0].len, |j.items|) else s[0].buf
    requires var w, n := WriteItems(ts, m, j, 0, buf), |j.items|;
      w.Ok? ==> forall x :: 0 <= x < n ==>
        LoadElement(ts, m, w.value, n, x) ==
        OverlayScalar(ts, m, ItemBase(ts, m, LoadMember(ts, m, s), x), j.items[x])
    ensures var w := WriteItems(ts, m, j, 0, buf);
      WriteMember(ts, m, j, s) == if w.Ok? then Ok([Vec(|j.items|, w.value)]) else w
    ensures WriteMember(ts, m, j, s).Ok? ==>
      LoadMember(ts, m, WriteMember(ts, m, j, s).value) == Overlay(ts, m, LoadMember(ts, m, s), j)
  {
    var w := WriteMember(ts, m, j, s);
    var items := WriteItems(ts, m, j, 0, buf);
    if items.Ok? {
      assert w == Ok([Vec(|j.items|, items.value)]);
      assert IsVec(ts, m, w.value);
      assert LoadMember(ts, m, w.value).items == Overlay(ts, m, LoadMember(ts, m, s), j).items;
    }
  }
}
