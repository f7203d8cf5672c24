/** What decoding leaves alone, at every depth: a slot of message memory that lies on no path the JSON
    gives keeps its value. */
module Frame {
  import opened Json
  import opened Descriptors
  import opened FlatDecode
  import opened Separation

  /** Decoding `j` into a message of type `k` does not reach slot `a`: every given field whose slot
      holds `a` is itself a message or a fixed array of messages in which `a` is not reached. */
  ghost predicate Untouched(ts: Types, k: nat, j: Json, a: nat)
    requires k < |ts.descs|
    decreases j, 0
  {
    var ms := ts.descs[k].members;
    j.Obj? ==>
      forall i :: 0 <= i < |ms| && ms[i].name in j.fields && InSlot(ts, ms[i], a) ==>
        UntouchedMember(ts, ms[i], j.fields[ms[i].name], a - ms[i].offset)
  }

  /** The same for slot `a` of a member. */
  ghost predicate UntouchedMember(ts: Types, m: Member, j: Json, a: nat)
    decreases j, 2
  {
    if !m.isArray then UntouchedScalar(ts, m, j, a)
    else IsFixedArray(m) && (j.Arr? ==>
      forall i :: 0 <= i < |j.items| && InElement(ts, m, i, a) ==>
        UntouchedScalar(ts, m, j.items[i], a - Stride(ElemSize(ts, m), i)))
  }

  ghost predicate UntouchedScalar(ts: Types, m: Member, j: Json, a: nat)
    decreases j, 1
  {
    m.typeId.TMessage? && HasNested(ts, m) && Untouched(ts, m.nested, j, a)
  }

  predicate InElement(ts: Types, m: Member, i: nat, a: nat) {
    Stride(ElemSize(ts, m), i) <= a < Stride(ElemSize(ts, m), i) + ElemSize(ts, m)
  }

  lemma {:induction false} ScalarKeeps(ts: Types, m: Member, j: Json, s: Memory, a: nat)
    requires Layout(ts) && |s| == ElemSize(ts, m) && a < |s|
    requires WriteScalar(ts, m, j, s).Ok? && UntouchedScalar(ts, m, j, a)
    ensures WriteScalar(ts, m, j, s).value[a] == s[a]
    decreases j, 1
  {
    FieldsKeep(ts, m.nested, j, s, a);
  }

  lemma {:induction false} MemberKeeps(ts: Types, m: Member, j: Json, s: Memory, a: nat)
    requires Layout(ts) && |s| == SlotSize(ts, m) && a < |s|
    requires WriteMember(ts, m, j, s).Ok? && UntouchedMember(ts, m, j, a)
    ensures WriteMember(ts, m, j, s).value[a] == s[a]
    decreases j, 2
  {
    if !m.isArray {
      ScalarKeeps(ts, m, j, s, a);
    } else {
      ItemsKeep(ts, m, j, s, a);
    }
  }

  lemma {:induction false} ItemsKeep(ts: Types, m: Member, j: Json, buf: Memory, a: nat)
    requires Layout(ts) && j.Arr? && |buf| == Stride(ElemSize(ts, m), |j.items|) && a < |buf|
    requires WriteItems(ts, m, j, 0, buf).Ok?
    requires forall i :: 0 <= i < |j.items| && InElement(ts, m, i, a) ==>
      UntouchedScalar(ts, m, j.items[i], a - Stride(ElemSize(ts, m), i))
    ensures WriteItems(ts, m, j, 0, buf).value[a] == buf[a]
    decreases j, 1
  {
    var es, r := ElemSize(ts, m), WriteItems(ts, m, j, 0, buf).value;
    ItemsSeparate(ts, m, j, 0, buf);
    var i := ElementOf(es, |j.items|, a);
    assert InElement(ts, m, i, a);
    StrideMonotone(es, i, |j.items|);
    var prior, b := Element(es, buf, i), a - Stride(es, i);
    assert Element(es, r, i) == ItemResult(ts, m, j, i, buf).value;
    if m.hasGet {
      ScalarKeeps(ts, m, j.items[i], prior, b);
    }
    assert r[a] == Element(es, r, i)[b] && buf[a] == prior[b];
  }

  /** Every slot of a buffer belongs to an element. */
  lemma {:induction false} ElementOf(es: nat, n: nat, a: nat) returns (i: nat)
    requires a < Stride(es, n)
    ensures i < n && Stride(es, i) <= a < Stride(es, i) + es
    decreases n
  {
    if n == 0 {
      assert false;
    } else if Stride(es, n - 1) <= a {
      StrideStep(es, n - 1);
      i := n - 1;
    } else {
      i := ElementOf(es, n - 1, a);
    }
  }

  lemma SlotAt(ts: Types, m: Member, s: Memory, a: nat)
    requires m.offset + SlotSize(ts, m) <= |s| && InSlot(ts, m, a)
    ensures Slot(ts, m, s)[a - m.offset] == s[a]
  {
  }

  lemma {:induction false} FieldsKeep(ts: Types, k: nat, j: Json, s: Memory, a: nat)
    requires Layout(ts) && k < |ts.descs| && |s| == ts.descs[k].size && a < |s|
    requires j.Obj? && WriteFields(ts, k, j, 0, s).Ok? && Untouched(ts, k, j, a)
    ensures WriteFields(ts, k, j, 0, s).value[a] == s[a]
    decreases j, 0
  {
    hide WriteMember, WriteFields;
    var r := WriteFields(ts, k, j, 0, s).value;
    FieldsSeparate(ts, k, j, 0, s);
    if i :| 0 <= i < |ts.descs[k].members| && InSlot(ts, ts.descs[k].members[i], a) {
      var m := ts.descs[k].members[i];
      MemberFacts(ts, k, i);
      if m.name in j.fields {
        MemberKeeps(ts, m, j.fields[m.name], Slot(ts, m, s), a - m.offset);
      }
      assert SlotResult(ts, k, j, i, s).Ok?;
      assert Slot(ts, m, r) == SlotResult(ts, k, j, i, s).value;
      SlotAt(ts, m, r, a);
      SlotAt(ts, m, s, a);
    }
  }

  /** Writes stay in the slots of their paths, through nested messages and fixed arrays of messages:
      every other slot keeps its initial value, at whatever offset it lies. */
  lemma DecodeFrame(ts: Types, k: nat, j: Json, initThrows: bool, a: nat)
    requires Layout(ts) && k < |ts.descs| && DecodeMessage(ts, k, j, initThrows).Ok?
    requires a < ts.descs[k].size && Untouched(ts, k, j, a)
    ensures |ts.descs[k].defaults| == ts.descs[k].size
    ensures DecodeMessage(ts, k, j, initThrows).value[a] == ts.descs[k].defaults[a]
  {
    hide WriteFields, Untouched;
    DefaultsFit(ts, k);
    FieldsKeep(ts, k, j, ts.descs[k].defaults, a);
  }
}
