/** The order in which a descriptor lists its members does not matter: with the offsets kept, every
    accepted JSON leaves the same memory. */
module MemberOrder {
  import opened Json
  import opened Descriptors
  import opened FlatDecode
  import opened Separation

  predicate SameDesc(d: MessageDesc, d': MessageDesc) {
    && d.size == d'.size && d.depth == d'.depth && d.defaults == d'.defaults
    && d.hasInit == d'.hasInit && d.hasFini == d'.hasFini
    && multiset(d.members) == multiset(d'.members)
  }

  /** `ts'` is `ts` with the member lists permuted, at every type. */
  ghost predicate Permuted(ts: Types, ts': Types) {
    && ts.fp == ts'.fp
    && |ts.descs| == |ts'.descs|
    && forall k :: 0 <= k < |ts.descs| ==> SameDesc(ts.descs[k], ts'.descs[k])
  }

  lemma PermutedFacts(ts: Types, ts': Types, m: Member)
    requires Permuted(ts, ts')
    ensures HasNested(ts, m) == HasNested(ts', m)
    ensures ElemSize(ts, m) == ElemSize(ts', m) && SlotSize(ts, m) == SlotSize(ts', m)
    ensures DefaultCells(ts, m) == DefaultCells(ts', m)
  {
    if HasNested(ts, m) {
      assert SameDesc(ts.descs[m.nested], ts'.descs[m.nested]);
    }
  }

  lemma MemberOfPermutation(ms: seq<Member>, ms': seq<Member>, m: Member)
    requires multiset(ms) == multiset(ms')
    ensures m in ms <==> m in ms'
  {
    assert m in ms <==> m in multiset(ms);
    assert m in ms' <==> m in multiset(ms');
  }

  lemma NamesOfPermutation(ms: seq<Member>, ms': seq<Member>)
    requires multiset(ms) == multiset(ms')
    ensures Names(ms) == Names(ms')
  {
    forall m | m in ms || m in ms' ensures m in ms && m in ms' {
      MemberOfPermutation(ms, ms', m);
    }
  }

  lemma {:induction false} ResizeSame(ts: Types, ts': Types, m: Member, buf: Memory, len: nat, n: nat)
    requires Layout(ts) && Layout(ts') && Permuted(ts, ts') && |buf| == Stride(ElemSize(ts, m), len)
    ensures ElemSize(ts, m) == ElemSize(ts', m)
    ensures Resize(ts, m, buf, len, n) == Resize(ts', m, buf, len, n)
    decreases n
  {
    PermutedFacts(ts, ts', m);
    if len < n {
      ResizeSame(ts, ts', m, buf, len, n - 1);
    }
  }

  lemma {:induction false} MemberSame(ts: Types, ts': Types, m: Member, j: Json, s: Memory)
    requires Layout(ts) && Layout(ts') && Permuted(ts, ts') && |s| == SlotSize(ts, m)
    requires WriteMember(ts, m, j, s).Ok?
    ensures SlotSize(ts, m) == SlotSize(ts', m)
    ensures WriteMember(ts', m, j, s) == WriteMember(ts, m, j, s)
    decreases j, 2
  {
    PermutedFacts(ts, ts', m);
    if !m.isArray {
      ScalarSame(ts, ts', m, j, s);
    } else if IsFixedArray(m) {
      ItemsSame(ts, ts', m, j, 0, s);
    } else {
      var n := |j.items|;
      if m.hasResize {
        ResizeSame(ts, ts', m, s[0].buf, s[0].len, n);
      }
      ItemsSame(ts, ts', m, j, 0,
        if m.hasResize then Resize(ts, m, s[0].buf, s[0].len, n) else s[0].buf);
    }
  }

  lemma {:induction false} ItemsSame(ts: Types, ts': Types, m: Member, j: Json, i: nat, buf: Memory)
    requires Layout(ts) && Layout(ts') && Permuted(ts, ts') && j.Arr? && i <= |j.items|
    requires |buf| == Stride(ElemSize(ts, m), |j.items|)
    requires WriteItems(ts, m, j, i, buf).Ok?
    ensures ElemSize(ts, m) == ElemSize(ts', m)
    ensures WriteItems(ts', m, j, i, buf) == WriteItems(ts, m, j, i, buf)
    decreases j, 1, |j.items| - i
  {
    PermutedFacts(ts, ts', m);
    if i < |j.items| {
      StrideMonotone(ElemSize(ts, m), i, |j.items|);
      var prior := Element(ElemSize(ts, m), buf, i);
      ScalarSame(ts, ts', m, j.items[i], if m.hasGet then prior else [P(PBool(false))]);
      var item := WriteItem(ts, m, j.items[i], prior).value;
      ItemsSame(ts, ts', m, j, i + 1, Splice(buf, Stride(ElemSize(ts, m), i), item));
    }
  }

  lemma {:induction false} ScalarSame(ts: Types, ts': Types, m: Member, j: Json, s: Memory)
    requires Layout(ts) && Layout(ts') && Permuted(ts, ts') && |s| == ElemSize(ts, m)
    requires WriteScalar(ts, m, j, s).Ok?
    ensures ElemSize(ts, m) == ElemSize(ts', m)
    ensures WriteScalar(ts', m, j, s) == WriteScalar(ts, m, j, s)
    decreases j, 1
  {
    PermutedFacts(ts, ts', m);
    if m.typeId.TMessage? {
      var k := m.nested;
      assert SameDesc(ts.descs[k], ts'.descs[k]);
      NamesOfPermutation(ts.descs[k].members, ts'.descs[k].members);
      FieldsSame(ts, ts', k, j, s);
    }
  }

  /** Both member lists, run in their own order over the same memory, leave the same memory. */
  lemma {:induction false} FieldsSame(ts: Types, ts': Types, k: nat, j: Json, s: Memory)
    requires Layout(ts) && Layout(ts') && Permuted(ts, ts') && k < |ts.descs|
    requires |s| == ts.descs[k].size && j.Obj?
    requires WriteFields(ts, k, j, 0, s).Ok?
    ensures |s| == ts'.descs[k].size
    ensures WriteFields(ts', k, j, 0, s) == WriteFields(ts, k, j, 0, s)
    decreases j, 0
  {
    hide WriteMember, WriteFields, Separated, FailsAtFirstSlot;
    var ms, ms' := ts.descs[k].members, ts'.descs[k].members;
    assert SameDesc(ts.descs[k], ts'.descs[k]);
    FieldsSeparate(ts, k, j, 0, s);
    FieldsSeparate(ts', k, j, 0, s);
    forall x, y | 0 <= x < |ms| && 0 <= y < |ms'| && ms[x] == ms'[y]
      ensures SlotResult(ts', k, j, y, s) == SlotResult(ts, k, j, x, s)
    {
      MemberFacts(ts, k, x);
      MemberFacts(ts', k, y);
      PermutedFacts(ts, ts', ms[x]);
      assert SlotResult(ts, k, j, x, s).Ok?;
      if ms[x].name in j.fields {
        MemberSame(ts, ts', ms[x], j.fields[ms[x].name], Slot(ts, ms[x], s));
      }
    }
    forall y | 0 <= y < |ms'| ensures SlotResult(ts', k, j, y, s).Ok? {
      MemberOfPermutation(ms, ms', ms'[y]);
    }
    SeparatedAgree(ts, ts', k, j, s, WriteFields(ts, k, j, 0, s).value, WriteFields(ts', k, j, 0, s).value);
  }

  lemma SlotsAgree(ts: Types, ts': Types, k: nat, x: nat, y: nat, r: Memory, r': Memory, a: nat)
    requires Layout(ts) && Layout(ts') && Permuted(ts, ts') && k < |ts.descs|
    requires |r| == |r'| == ts.descs[k].size == ts'.descs[k].size
    requires x < |ts.descs[k].members| && y < |ts'.descs[k].members|
    requires ts.descs[k].members[x] == ts'.descs[k].members[y]
    requires InSlot(ts, ts.descs[k].members[x], a) && a < |r|
    requires (MemberFacts(ts, k, x); MemberFacts(ts', k, y);
      Slot(ts, ts.descs[k].members[x], r) == Slot(ts', ts'.descs[k].members[y], r'))
    ensures r[a] == r'[a]
  {
    var m := ts.descs[k].members[x];
    MemberFacts(ts, k, x);
    PermutedFacts(ts, ts', m);
    assert r[a] == Slot(ts, m, r)[a - m.offset];
    assert r'[a] == Slot(ts', m, r')[a - m.offset];
  }

  /** The slots and the rest of memory determine memory. */
  lemma SeparatedAgree(ts: Types, ts': Types, k: nat, j: Json, s: Memory, r: Memory, r': Memory)
    requires Layout(ts) && Layout(ts') && Permuted(ts, ts') && k < |ts.descs|
    requires |s| == |r| == |r'| == ts.descs[k].size == ts'.descs[k].size && j.Obj?
    requires forall x, y ::
      0 <= x < |ts.descs[k].members| && 0 <= y < |ts'.descs[k].members|
      && ts.descs[k].members[x] == ts'.descs[k].members[y]
      ==> SlotResult(ts', k, j, y, s) == SlotResult(ts, k, j, x, s)
    requires Separated(ts, k, j, 0, s, r) && Separated(ts', k, j, 0, s, r')
    ensures r == r'
  {
    var ms, ms' := ts.descs[k].members, ts'.descs[k].members;
    assert SameDesc(ts.descs[k], ts'.descs[k]);
    forall a | 0 <= a < |s| ensures r[a] == r'[a] {
      if x :| 0 <= x < |ms| && InSlot(ts, ms[x], a) {
        MemberOfPermutation(ms, ms', ms[x]);
        var y :| 0 <= y < |ms'| && ms'[y] == ms[x];
        assert SlotResult(ts', k, j, y, s) == SlotResult(ts, k, j, x, s);
        SlotsAgree(ts, ts', k, x, y, r, r', a);
      } else {
        forall y | 0 <= y < |ms'| ensures !InSlot(ts', ms'[y], a) {
          MemberOfPermutation(ms, ms', ms'[y]);
          PermutedFacts(ts, ts', ms'[y]);
        }
      }
    }
  }

  /** Decoding a message does not depend on the order of the member lists, at any nesting level. */
  lemma OrderIndependent(ts: Types, ts': Types, k: nat, j: Json, initThrows: bool)
    requires Layout(ts) && Layout(ts') && Permuted(ts, ts') && k < |ts.descs|
    ensures DecodeMessage(ts, k, j, initThrows).Ok? <==> DecodeMessage(ts', k, j, initThrows).Ok?
    ensures DecodeMessage(ts, k, j, initThrows).Ok? ==>
      DecodeMessage(ts', k, j, initThrows) == DecodeMessage(ts, k, j, initThrows)
  {
    assert SameDesc(ts.descs[k], ts'.descs[k]);
    assert Permuted(ts', ts);
    DefaultsFit(ts, k);
    NamesOfPermutation(ts.descs[k].members, ts'.descs[k].members);
    if DecodeMessage(ts, k, j, initThrows).Ok? {
      FieldsSame(ts, ts', k, j, ts.descs[k].defaults);
    }
    if DecodeMessage(ts', k, j, initThrows).Ok? {
      FieldsSame(ts', ts, k, j, ts'.descs[k].defaults);
    }
  }
}
