/** Which messages have a JSON value, and which types only have messages that do. */
module Projection {
  import opened FloatingPoint
  import opened Json
  import opened Descriptors
  import opened ScalarCodec
  import opened TreeSemantics
  import opened Separation
  import opened Refinement
  import opened CodecTheorems

  // ---- Which values project ----

  predicate PrimProjects(fp: Platform, t: TypeId, p: Prim) {
    && !t.TMessage? && !t.TOther?
    && (t.TLongDouble? && p.PFloat? ==> p.x.Finite? && -fp.double.max <= p.x.r <= fp.double.max)
    && (t.TWString? && p.PWide? ==> IsAscii(p.w))
  }

  /** Every wide string ASCII, every long double within the range of double, every pointer and
      access function that is needed there. */
  predicate Projects(ts: Types, m: Member, v: Value)
    decreases v, 2
  {
    if !m.isArray then ScalarProjects(ts, m, v)
    else
      && m.hasSize
      && (v.List? ==>
        && (v.items != [] ==> CanProjectItems(m))
        && forall i :: 0 <= i < |v.items| ==> ScalarProjects(ts, m, v.items[i]))
  }

  predicate ScalarProjects(ts: Types, m: Member, v: Value)
    decreases v, 1
  {
    if m.typeId.TMessage? then HasNested(ts, m) && MessageProjects(ts, m.nested, v)
    else v.Leaf? ==> PrimProjects(ts.fp, m.typeId, v.p)
  }

  predicate MessageProjects(ts: Types, k: nat, v: Value)
    requires k < |ts.descs|
    decreases v, 0
  {
    var ms := ts.descs[k].members;
    v.Msg? && |v.fields| == |ms| ==> forall i :: 0 <= i < |ms| ==> Projects(ts, ms[i], v.fields[i])
  }

  // ---- Encoding succeeds exactly on them ----

  lemma {:induction false} MemberEncodesExactly(ts: Types, m: Member, v: Value)
    requires HasType(ts, m, v)
    ensures EncodeMember(ts, m, v).Ok? <==> Projects(ts, m, v)
    decreases v, 2
  {
    if !m.isArray {
      ScalarEncodesExactly(ts, m, v);
    } else if m.hasSize {
      ItemsEncodeExactly(ts, m, v, 0, []);
    }
  }

  lemma {:induction false} ItemsEncodeExactly(ts: Types, m: Member, v: Value, i: nat, acc: seq<Json>)
    requires v.List? && i <= |v.items|
    requires forall x :: 0 <= x < |v.items| ==> HasScalarType(ts, m, v.items[x])
    ensures EncodeItems(ts, m, v, i, acc).Ok? <==>
      (i < |v.items| ==> CanProjectItems(m)) && forall x :: i <= x < |v.items| ==> ScalarProjects(ts, m, v.items[x])
    decreases v, 0, |v.items| - i
  {
    if i < |v.items| && CanProjectItems(m) {
      var item := EncodeScalar(ts, m, v.items[i]);
      ScalarEncodesExactly(ts, m, v.items[i]);
      if item.Ok? {
        ItemsEncodeExactly(ts, m, v, i + 1, acc + [item.value]);
      }
    }
  }

  lemma {:induction false} ScalarEncodesExactly(ts: Types, m: Member, v: Value)
    requires HasScalarType(ts, m, v)
    ensures EncodeScalar(ts, m, v).Ok? <==> ScalarProjects(ts, m, v)
    decreases v, 1
  {
    if m.typeId.TMessage? && HasNested(ts, m) {
      EncodesExactly(ts, m.nested, v);
    }
  }

  lemma {:induction false} FieldsEncodeExactly(ts: Types, k: nat, v: Value, i: nat, acc: map<string, Json>)
    requires k < |ts.descs| && HasMessageType(ts, k, v) && i <= |v.fields|
    ensures EncodeFields(ts, k, v, i, acc).Ok? <==>
      forall x :: i <= x < |v.fields| ==> Projects(ts, ts.descs[k].members[x], v.fields[x])
    decreases v, 0, |v.fields| - i
  {
    if i < |v.fields| {
      var m := ts.descs[k].members[i];
      var field := EncodeMember(ts, m, v.fields[i]);
      MemberEncodesExactly(ts, m, v.fields[i]);
      if field.Ok? {
        FieldsEncodeExactly(ts, k, v, i + 1, acc[m.name := field.value]);
      }
    }
  }

  /** Typed memory encodes if and only if what it stands for projects. */
  lemma {:induction false} EncodesExactly(ts: Types, k: nat, v: Value)
    requires k < |ts.descs| && HasMessageType(ts, k, v)
    ensures EncodeMessage(ts, k, v).Ok? <==> MessageProjects(ts, k, v)
    decreases v, 0, |v.fields| + 1
  {
    FieldsEncodeExactly(ts, k, v, 0, map[]);
  }

  // ---- Types all of whose messages project ----

  /** A message can hold something in this member that has no JSON value. */
  predicate IsStuck(ts: Types, m: Member) {
    || m.typeId.TWString? || m.typeId.TLongDouble? || m.typeId.TOther?
    || (m.typeId.TMessage? && !HasNested(ts, m))
    || (m.isArray && !(m.hasSize && CanProjectItems(m)))
  }

  /** The members along `path`, each nested in the one before it, lead to a stuck member. */
  predicate LeadsToStuck(ts: Types, k: nat, path: seq<nat>)
    decreases |path|
  {
    && path != [] && k < |ts.descs| && path[0] < |ts.descs[k].members|
    && var m := ts.descs[k].members[path[0]];
    if |path| == 1 then IsStuck(ts, m)
    else m.typeId.TMessage? && HasNested(ts, m) && LeadsToStuck(ts, m.nested, path[1..])
  }

  /** No wide string, no long double and no incomplete member anywhere inside the type. */
  ghost predicate AlwaysProjects(ts: Types, k: nat) {
    forall path :: !LeadsToStuck(ts, k, path)
  }

  lemma NestedAlwaysProjects(ts: Types, k: nat, i: nat)
    requires k < |ts.descs| && i < |ts.descs[k].members| && AlwaysProjects(ts, k)
    ensures var m := ts.descs[k].members[i];
      !IsStuck(ts, m) && (m.typeId.TMessage? && HasNested(ts, m) ==> AlwaysProjects(ts, m.nested))
  {
    var m := ts.descs[k].members[i];
    assert !LeadsToStuck(ts, k, [i]);
    if m.typeId.TMessage? && HasNested(ts, m) {
      forall path ensures !LeadsToStuck(ts, m.nested, path) {
        assert ([i] + path)[1..] == path;
        assert !LeadsToStuck(ts, k, [i] + path);
      }
    }
  }

  lemma {:induction false} PlainMemberProjects(ts: Types, m: Member, v: Value)
    requires HasType(ts, m, v) && !IsStuck(ts, m)
    requires m.typeId.TMessage? && HasNested(ts, m) ==> AlwaysProjects(ts, m.nested)
    ensures Projects(ts, m, v)
    decreases v, 2
  {
    if !m.isArray {
      PlainScalarProjects(ts, m, v);
    } else {
      forall i | 0 <= i < |v.items| ensures ScalarProjects(ts, m, v.items[i]) {
        PlainScalarProjects(ts, m, v.items[i]);
      }
    }
  }

  lemma {:induction false} PlainScalarProjects(ts: Types, m: Member, v: Value)
    requires HasScalarType(ts, m, v) && !IsStuck(ts, m)
    requires m.typeId.TMessage? && HasNested(ts, m) ==> AlwaysProjects(ts, m.nested)
    ensures ScalarProjects(ts, m, v)
    decreases v, 1
  {
    if m.typeId.TMessage? {
      PlainMessageProjects(ts, m.nested, v);
    }
  }

  lemma {:induction false} PlainMessageProjects(ts: Types, k: nat, v: Value)
    requires k < |ts.descs| && HasMessageType(ts, k, v) && AlwaysProjects(ts, k)
    ensures MessageProjects(ts, k, v)
    decreases v, 0
  {
    var ms := ts.descs[k].members;
    forall i | 0 <= i < |ms| ensures Projects(ts, ms[i], v.fields[i]) {
      NestedAlwaysProjects(ts, k, i);
      PlainMemberProjects(ts, ms[i], v.fields[i]);
    }
  }

  // ---- A message that does not project, for every other type ----

  function Repeat(e: Memory, n: nat): (r: Memory)
    ensures |r| == Stride(|e|, n)
  {
    if n == 0 then [] else Repeat(e, n - 1) + e
  }

  lemma {:induction false} RepeatAt(e: Memory, n: nat, i: nat)
    requires i < n
    ensures Stride(|e|, i) + |e| <= |Repeat(e, n)|
    ensures Element(|e|, Repeat(e, n), i) == e
    decreases n
  {
    var es, before := |e|, Repeat(e, n - 1);
    StrideStep(es, n - 1);
    if i < n - 1 {
      RepeatAt(e, n - 1, i);
      PrefixElement(es, before, e, i);
    } else {
      assert (before + e)[|before|..|before| + es] == e;
    }
  }

  lemma PrefixElement(es: nat, s: Memory, t: Memory, i: nat)
    requires Stride(es, i) + es <= |s|
    ensures Element(es, s + t, i) == Element(es, s, i)
  {
  }

  /** The memory of a member each of whose elements is `e`: one element for a sequence. */
  function Filled(m: Member, e: Memory): Memory {
    if !m.isArray then e
    else if IsFixedArray(m) then Repeat(e, m.arraySize)
    else [Vec(1, e)]
  }

  lemma FilledHasType(ts: Types, m: Member, e: Memory)
    requires Layout(ts) && |e| == ElemSize(ts, m) && HasScalarType(ts, m, LoadScalar(ts, m, e))
    ensures |Filled(m, e)| == SlotSize(ts, m)
    ensures HasType(ts, m, LoadMember(ts, m, Filled(m, e)))
    ensures Projects(ts, m, LoadMember(ts, m, Filled(m, e))) ==>
      ScalarProjects(ts, m, LoadScalar(ts, m, e)) && (m.isArray ==> m.hasSize && CanProjectItems(m))
  {
    var s := Filled(m, e);
    if IsFixedArray(m) {
      forall i | 0 <= i < m.arraySize ensures LoadElement(ts, m, s, m.arraySize, i) == LoadScalar(ts, m, e) {
        RepeatAt(e, m.arraySize, i);
      }
      assert LoadMember(ts, m, s).items[0] == LoadScalar(ts, m, e);
    } else if m.isArray {
      assert Stride(ElemSize(ts, m), 0) == 0 && Stride(ElemSize(ts, m), 1) == ElemSize(ts, m);
      assert Element(ElemSize(ts, m), e, 0) == e;
      assert IsVec(ts, m, s);
      assert LoadMember(ts, m, s).items[0] == LoadScalar(ts, m, e);
    }
  }

  /** Memory of a type with one member replaced. */
  lemma ReplaceMember(ts: Types, k: nat, i: nat, piece: Memory) returns (s: Memory)
    requires Layout(ts) && TypedDefaults(ts) && k < |ts.descs| && i < |ts.descs[k].members|
    requires |piece| == SlotSize(ts, ts.descs[k].members[i])
    requires HasType(ts, ts.descs[k].members[i], LoadMember(ts, ts.descs[k].members[i], piece))
    ensures |s| == ts.descs[k].size && HasMessageType(ts, k, MessageAt(ts, k, s))
    ensures MessageAt(ts, k, s).fields[i] == LoadMember(ts, ts.descs[k].members[i], piece)
  {
    hide LoadMember, HasType;
    var ms, d := ts.descs[k].members, ts.descs[k].defaults;
    MemberFacts(ts, k, i);
    s := Splice(d, ms[i].offset, piece);
    SpliceInside(d, ms[i].offset, piece);
    assert HasMessageType(ts, k, DefaultMessage(ts, k));
    forall x | 0 <= x < |ms| ensures HasType(ts, ms[x], MessageAt(ts, k, s).fields[x]) {
      MemberFacts(ts, k, x);
      if x != i {
        MembersDisjoint(ts, k, i, x);
        SpliceOutside(d, ms[i].offset, piece, ms[x].offset, ms[x].offset + SlotSize(ts, ms[x]));
        assert Slot(ts, ms[x], s) == Slot(ts, ms[x], d);
        assert HasType(ts, ms[x], DefaultMessage(ts, k).fields[x]);
      }
    }
  }

  /** An element of a stuck member: a long double that is no number, a wide string that is not
      ASCII, or anything at all. */
  function StuckElement(ts: Types, m: Member): Memory {
    match m.typeId
    case TLongDouble => [P(PFloat(NaN))]
    case TWString => [P(PWide(['\U{00e9}']))]
    case _ => DefaultCells(ts, m)
  }

  lemma StuckElementDoesNotProject(ts: Types, m: Member)
    requires Layout(ts) && TypedDefaults(ts) && IsStuck(ts, m)
    ensures |StuckElement(ts, m)| == ElemSize(ts, m)
    ensures HasScalarType(ts, m, LoadScalar(ts, m, StuckElement(ts, m)))
    ensures !Projects(ts, m, LoadMember(ts, m, Filled(m, StuckElement(ts, m))))
  {
    var e := StuckElement(ts, m);
    DefaultHasType(ts, m);
    assert m.typeId.TMessage? && HasNested(ts, m) ==> DescLayout(ts, ts.descs[m.nested]);
    if m.typeId.TWString? {
      assert e[0].p.w[0] as int == 0xe9;
    }
    FilledHasType(ts, m, e);
  }

  /** A type that leads to a stuck member has a typed message that does not project. */
  lemma {:induction false} UnprojectableMessage(ts: Types, k: nat, path: seq<nat>) returns (s: Memory)
    requires Layout(ts) && TypedDefaults(ts) && k < |ts.descs| && LeadsToStuck(ts, k, path)
    ensures |s| == ts.descs[k].size
    ensures HasMessageType(ts, k, MessageAt(ts, k, s)) && !MessageProjects(ts, k, MessageAt(ts, k, s))
    decreases |path|
  {
    var m := ts.descs[k].members[path[0]];
    var e: Memory;
    if |path| == 1 {
      StuckElementDoesNotProject(ts, m);
      e := StuckElement(ts, m);
    } else {
      e := UnprojectableMessage(ts, m.nested, path[1..]);
    }
    FilledHasType(ts, m, e);
    s := ReplaceMember(ts, k, path[0], Filled(m, e));
    assert !Projects(ts, m, MessageAt(ts, k, s).fields[path[0]]);
  }

  /** Every typed message of a type has a JSON value if and only if the type contains, at any depth,
      no wide string, no long double and no incomplete member. */
  lemma TypeProjectsExactly(ts: Types, k: nat)
    requires Layout(ts) && TypedDefaults(ts) && k < |ts.descs|
    ensures AlwaysProjects(ts, k) <==>
      forall s: Memory :: |s| == ts.descs[k].size && HasMessageType(ts, k, MessageAt(ts, k, s)) ==>
        EncodeMessage(ts, k, MessageAt(ts, k, s)).Ok?
  {
    forall s: Memory | |s| == ts.descs[k].size && HasMessageType(ts, k, MessageAt(ts, k, s))
      ensures EncodeMessage(ts, k, MessageAt(ts, k, s)).Ok? <==> MessageProjects(ts, k, MessageAt(ts, k, s))
      ensures AlwaysProjects(ts, k) ==> MessageProjects(ts, k, MessageAt(ts, k, s))
    {
      EncodesExactly(ts, k, MessageAt(ts, k, s));
      if AlwaysProjects(ts, k) {
        PlainMessageProjects(ts, k, MessageAt(ts, k, s));
      }
    }
    if !AlwaysProjects(ts, k) {
      var path :| LeadsToStuck(ts, k, path);
      var s := UnprojectableMessage(ts, k, path);
      EncodesExactly(ts, k, MessageAt(ts, k, s));
    }
  }
}
