/** Members do not overlap, so what decoding leaves in each slot depends on that slot alone. */
module Separation {
  import opened Errors
  import opened Json
  import opened Descriptors
  import opened FlatDecode

  predicate InSlot(ts: Types, m: Member, a: nat) {
    m.offset <= a < m.offset + SlotSize(ts, m)
  }

  lemma MemberFacts(ts: Types, k: nat, i: nat)
    requires Layout(ts) && k < |ts.descs| && i < |ts.descs[k].members|
    ensures MemberFits(ts, ts.descs[k], ts.descs[k].members[i])
    ensures |ts.descs[k].defaults| == ts.descs[k].size
  {
    assert DescLayout(ts, ts.descs[k]);
  }

  lemma DefaultsFit(ts: Types, k: nat)
    requires Layout(ts) && k < |ts.descs|
    ensures |ts.descs[k].defaults| == ts.descs[k].size
  {
    assert DescLayout(ts, ts.descs[k]);
  }

  lemma MembersDisjoint(ts: Types, k: nat, x: nat, y: nat)
    requires Layout(ts) && k < |ts.descs| && x < |ts.descs[k].members| && y < |ts.descs[k].members|
    requires x != y
    ensures Disjoint(ts, ts.descs[k].members[x], ts.descs[k].members[y])
  {
    assert DescLayout(ts, ts.descs[k]);
    if y < x {
      assert Disjoint(ts, ts.descs[k].members[y], ts.descs[k].members[x]);
    }
  }

  /** What decoding leaves in the slot of member `x`. */
  function SlotResult(ts: Types, k: nat, j: Json, x: nat, s: Memory): Result<Memory>
    requires Layout(ts) && k < |ts.descs| && x < |ts.descs[k].members|
    requires |s| == ts.descs[k].size && j.Obj?
  {
    var m := ts.descs[k].members[x];
    MemberFacts(ts, k, x);
    if m.name in j.fields then WriteMember(ts, m, j.fields[m.name], Slot(ts, m, s))
    else Ok(Slot(ts, m, s))
  }

  lemma SpliceInside(s: Memory, at: nat, piece: Memory)
    requires at + |piece| <= |s|
    ensures Splice(s, at, piece)[at..at + |piece|] == piece
  {
  }

  lemma SpliceOutside(s: Memory, at: nat, piece: Memory, lo: nat, hi: nat)
    requires at + |piece| <= |s| && lo <= hi <= |s|
    requires hi <= at || at + |piece| <= lo
    ensures Splice(s, at, piece)[lo..hi] == s[lo..hi]
  {
    var t := Splice(s, at, piece);
    forall a | lo <= a < hi ensures t[a] == s[a] {
    }
  }

  /** The memory `r` has exactly the slots `SlotResult` says from member `i` on, and agrees with
      `s` everywhere else. */
  ghost predicate Separated(ts: Types, k: nat, j: Json, i: nat, s: Memory, r: Memory)
    requires Layout(ts) && k < |ts.descs| && |s| == |r| == ts.descs[k].size && j.Obj?
  {
    var ms := ts.descs[k].members;
    && (forall x :: i <= x < |ms| ==>
      SlotResult(ts, k, j, x, s).Ok? && (MemberFacts(ts, k, x); Slot(ts, ms[x], r) == SlotResult(ts, k, j, x, s).value))
    && (forall a :: 0 <= a < |s| && (forall x :: i <= x < |ms| ==> !InSlot(ts, ms[x], a)) ==> r[a] == s[a])
  }

  ghost predicate AllSlotsOk(ts: Types, k: nat, j: Json, i: nat, s: Memory)
    requires Layout(ts) && k < |ts.descs| && |s| == ts.descs[k].size && j.Obj?
  {
    forall x :: i <= x < |ts.descs[k].members| ==> SlotResult(ts, k, j, x, s).Ok?
  }

  /** From member `i` on, `x` is the first one that fails. */
  ghost predicate FirstFailingSlot(ts: Types, k: nat, j: Json, i: nat, x: nat, s: Memory)
    requires Layout(ts) && k < |ts.descs| && |s| == ts.descs[k].size && j.Obj?
  {
    && i <= x < |ts.descs[k].members| && SlotResult(ts, k, j, x, s).Err?
    && forall h :: i <= h < x ==> SlotResult(ts, k, j, h, s).Ok?
  }

  ghost predicate FailsAtFirstSlot(ts: Types, k: nat, j: Json, i: nat, s: Memory, r: Result<Memory>)
    requires Layout(ts) && k < |ts.descs| && |s| == ts.descs[k].size && j.Obj?
  {
    exists x :: FirstFailingSlot(ts, k, j, i, x, s) && SlotResult(ts, k, j, x, s) == r
  }

  /** One step of the loop over the members. */
  lemma WriteFieldsUnfold(ts: Types, k: nat, j: Json, i: nat, s: Memory)
    requires Layout(ts) && k < |ts.descs| && |s| == ts.descs[k].size
    requires j.Obj? && i < |ts.descs[k].members|
    ensures MemberFits(ts, ts.descs[k], ts.descs[k].members[i])
    ensures var here := SlotResult(ts, k, j, i, s);
      WriteFields(ts, k, j, i, s) ==
      if here.Err? then here
      else WriteFields(ts, k, j, i + 1, Splice(s, ts.descs[k].members[i].offset, here.value))
  {
    MemberFacts(ts, k, i);
    var m := ts.descs[k].members[i];
    if m.name !in j.fields {
      assert Splice(s, m.offset, Slot(ts, m, s)) == s;
    }
  }

  lemma SlotResultElsewhere(ts: Types, k: nat, j: Json, i: nat, x: nat, s: Memory, piece: Memory)
    requires Layout(ts) && k < |ts.descs| && |s| == ts.descs[k].size && j.Obj?
    requires i < |ts.descs[k].members| && x < |ts.descs[k].members| && x != i
    requires MemberFits(ts, ts.descs[k], ts.descs[k].members[i])
    requires |piece| == SlotSize(ts, ts.descs[k].members[i])
    ensures SlotResult(ts, k, j, x, Splice(s, ts.descs[k].members[i].offset, piece)) == SlotResult(ts, k, j, x, s)
  {
    var m := ts.descs[k].members[x];
    MemberFacts(ts, k, x);
    MembersDisjoint(ts, k, i, x);
    SpliceOutside(s, ts.descs[k].members[i].offset, piece, m.offset, m.offset + SlotSize(ts, m));
  }

  /** Decoding an object into a message decodes each slot by itself: it succeeds exactly when every
      slot does, changes nothing outside the slots, and otherwise fails as the first failing slot. */
  lemma {:induction false} FieldsSeparate(ts: Types, k: nat, j: Json, i: nat, s: Memory)
    requires Layout(ts) && k < |ts.descs| && |s| == ts.descs[k].size
    requires j.Obj? && i <= |ts.descs[k].members|
    ensures var w := WriteFields(ts, k, j, i, s);
      && (w.Ok? <==> AllSlotsOk(ts, k, j, i, s))
      && (w.Ok? ==> Separated(ts, k, j, i, s, w.value))
      && (w.Err? ==> FailsAtFirstSlot(ts, k, j, i, s, w))
    decreases |ts.descs[k].members| - i
  {
    hide WriteMember;
    var ms := ts.descs[k].members;
    if i < |ms| {
      WriteFieldsUnfold(ts, k, j, i, s);
      var here := SlotResult(ts, k, j, i, s);
      if here.Ok? {
        var s' := Splice(s, ms[i].offset, here.value);
        FieldsSeparate(ts, k, j, i + 1, s');
        forall x | i < x < |ms| ensures SlotResult(ts, k, j, x, s') == SlotResult(ts, k, j, x, s) {
          SlotResultElsewhere(ts, k, j, i, x, s, here.value);
        }
        var w := WriteFields(ts, k, j, i + 1, s');
        if w.Ok? {
          SeparateStep(ts, k, j, i, s, s', w.value);
        } else {
          var x :| FirstFailingSlot(ts, k, j, i + 1, x, s') && SlotResult(ts, k, j, x, s') == w;
          assert FirstFailingSlot(ts, k, j, i, x, s);
        }
      } else {
        assert FirstFailingSlot(ts, k, j, i, i, s);
      }
    }
  }

  lemma SeparateStep(ts: Types, k: nat, j: Json, i: nat, s: Memory, s': Memory, r: Memory)
    requires Layout(ts) && k < |ts.descs| && |s| == |r| == ts.descs[k].size
    requires j.Obj? && i < |ts.descs[k].members|
    requires SlotResult(ts, k, j, i, s).Ok?
    requires |SlotResult(ts, k, j, i, s).value| == SlotSize(ts, ts.descs[k].members[i])
    requires MemberFits(ts, ts.descs[k], ts.descs[k].members[i])
    requires s' == Splice(s, ts.descs[k].members[i].offset, SlotResult(ts, k, j, i, s).value)
    requires forall x :: i < x < |ts.descs[k].members| ==> SlotResult(ts, k, j, x, s') == SlotResult(ts, k, j, x, s)
    requires Separated(ts, k, j, i + 1, s', r)
    ensures Separated(ts, k, j, i, s, r)
  {
    var ms := ts.descs[k].members;
    var m := ms[i];
    SpliceInside(s, m.offset, SlotResult(ts, k, j, i, s).value);
    forall a | 0 <= a < SlotSize(ts, m) ensures Slot(ts, m, r)[a] == Slot(ts, m, s')[a] {
      forall x | i + 1 <= x < |ms| ensures !InSlot(ts, ms[x], m.offset + a) {
        MembersDisjoint(ts, k, i, x);
      }
      assert r[m.offset + a] == s'[m.offset + a];
      assert Slot(ts, m, r)[a] == r[m.offset + a] && Slot(ts, m, s')[a] == s'[m.offset + a];
    }
    assert Slot(ts, m, r) == Slot(ts, m, s');
    forall a | 0 <= a < |s| && (forall x :: i <= x < |ms| ==> !InSlot(ts, ms[x], a)) ensures r[a] == s[a] {
      assert !InSlot(ts, ms[i], a);
      assert s'[a] == s[a];
      forall x | i + 1 <= x < |ms| ensures !InSlot(ts, ms[x], a) {
      }
    }
  }

  // ---- Elements of an array ----

  /** What decoding leaves in element `x` of an array. */
  function ItemResult(ts: Types, m: Member, j: Json, x: nat, buf: Memory): (r: Result<Memory>)
    requires Layout(ts) && j.Arr? && x < |j.items|
    requires |buf| == Stride(ElemSize(ts, m), |j.items|)
    ensures r.Ok? ==> |r.value| == ElemSize(ts, m)
  {
    StrideMonotone(ElemSize(ts, m), x, |j.items|);
    WriteItem(ts, m, j.items[x], Element(ElemSize(ts, m), buf, x))
  }

  lemma ElementsApart(es: nat, i: nat, x: nat)
    requires i != x
    ensures Stride(es, i) + es <= Stride(es, x) || Stride(es, x) + es <= Stride(es, i)
  {
    if i < x {
      StrideMonotone(es, i, x);
    } else {
      StrideMonotone(es, x, i);
    }
  }

  lemma SpliceElement(es: nat, n: nat, i: nat, x: nat, buf: Memory, piece: Memory)
    requires |buf| == Stride(es, n) && i < n && x < n && |piece| == es
    ensures Stride(es, i) + es <= |buf| && Stride(es, x) + es <= |buf|
    ensures Element(es, Splice(buf, Stride(es, i), piece), x) ==
      if x == i then piece else Element(es, buf, x)
  {
    StrideMonotone(es, i, n);
    StrideMonotone(es, x, n);
    if x == i {
      SpliceInside(buf, Stride(es, i), piece);
    } else {
      ElementsApart(es, i, x);
      SpliceOutside(buf, Stride(es, i), piece, Stride(es, x), Stride(es, x) + es);
    }
  }

  lemma ItemResultElsewhere(ts: Types, m: Member, j: Json, i: nat, x: nat, buf: Memory, item: Memory)
    requires Layout(ts) && j.Arr? && i < |j.items| && x < |j.items| && x != i
    requires |buf| == Stride(ElemSize(ts, m), |j.items|) && |item| == ElemSize(ts, m)
    ensures Stride(ElemSize(ts, m), i) + ElemSize(ts, m) <= |buf|
    ensures ItemResult(ts, m, j, x, Splice(buf, Stride(ElemSize(ts, m), i), item)) == ItemResult(ts, m, j, x, buf)
  {
    SpliceElement(ElemSize(ts, m), |j.items|, i, x, buf, item);
  }

  ghost predicate ItemsSeparated(ts: Types, m: Member, j: Json, i: nat, buf: Memory, r: Memory)
    requires Layout(ts) && j.Arr? && |buf| == |r| == Stride(ElemSize(ts, m), |j.items|)
  {
    var es := ElemSize(ts, m);
    forall x :: 0 <= x < |j.items| ==>
      (StrideMonotone(es, x, |j.items|);
       if x < i then Element(es, r, x) == Element(es, buf, x)
       else ItemResult(ts, m, j, x, buf).Ok? && Element(es, r, x) == ItemResult(ts, m, j, x, buf).value)
  }

  /** One step of the loop over the elements. */
  lemma WriteItemsUnfold(ts: Types, m: Member, j: Json, i: nat, buf: Memory)
    requires Layout(ts) && j.Arr? && i < |j.items|
    requires |buf| == Stride(ElemSize(ts, m), |j.items|)
    ensures Stride(ElemSize(ts, m), i) + ElemSize(ts, m) <= |buf|
    ensures var here := ItemResult(ts, m, j, i, buf);
      WriteItems(ts, m, j, i, buf) ==
      if here.Err? then here
      else WriteItems(ts, m, j, i + 1, Splice(buf, Stride(ElemSize(ts, m), i), here.value))
  {
    StrideMonotone(ElemSize(ts, m), i, |j.items|);
  }

  ghost predicate AllItemsOk(ts: Types, m: Member, j: Json, i: nat, buf: Memory)
    requires Layout(ts) && j.Arr? && |buf| == Stride(ElemSize(ts, m), |j.items|)
  {
    forall x :: i <= x < |j.items| ==> ItemResult(ts, m, j, x, buf).Ok?
  }

  /** From element `i` on, `x` is the first one that fails. */
  ghost predicate FirstFailingItem(ts: Types, m: Member, j: Json, i: nat, x: nat, buf: Memory)
    requires Layout(ts) && j.Arr? && |buf| == Stride(ElemSize(ts, m), |j.items|)
  {
    && i <= x < |j.items| && ItemResult(ts, m, j, x, buf).Err?
    && forall h :: i <= h < x ==> ItemResult(ts, m, j, h, buf).Ok?
  }

  ghost predicate FailsAtFirstItem(ts: Types, m: Member, j: Json, i: nat, buf: Memory, r: Result<Memory>)
    requires Layout(ts) && j.Arr? && |buf| == Stride(ElemSize(ts, m), |j.items|)
  {
    exists x :: FirstFailingItem(ts, m, j, i, x, buf) && ItemResult(ts, m, j, x, buf) == r
  }

  /** Decoding an array decodes each element by itself, and otherwise fails as the first failing
      element. */
  lemma {:induction false} ItemsSeparate(ts: Types, m: Member, j: Json, i: nat, buf: Memory)
    requires Layout(ts) && j.Arr? && i <= |j.items|
    requires |buf| == Stride(ElemSize(ts, m), |j.items|)
    ensures var w := WriteItems(ts, m, j, i, buf);
      && (w.Ok? <==> AllItemsOk(ts, m, j, i, buf))
      && (w.Ok? ==> ItemsSeparated(ts, m, j, i, buf, w.value))
      && (w.Err? ==> FailsAtFirstItem(ts, m, j, i, buf, w))
    decreases |j.items| - i
  {
    hide WriteScalar, WriteItem, ItemResult, Stride, ElemSize, Element, ItemsSeparated;
    if i < |j.items| {
      WriteItemsUnfold(ts, m, j, i, buf);
      var here := ItemResult(ts, m, j, i, buf);
      if here.Ok? {
        var buf' := Splice(buf, Stride(ElemSize(ts, m), i), here.value);
        ItemsSeparate(ts, m, j, i + 1, buf');
        forall x | i < x < |j.items| ensures ItemResult(ts, m, j, x, buf') == ItemResult(ts, m, j, x, buf) {
          ItemResultElsewhere(ts, m, j, i, x, buf, here.value);
        }
        var w := WriteItems(ts, m, j, i + 1, buf');
        if w.Ok? {
          ItemsStep(ts, m, j, i, buf, buf', w.value);
        } else {
          var x :| FirstFailingItem(ts, m, j, i + 1, x, buf') && ItemResult(ts, m, j, x, buf') == w;
          assert FirstFailingItem(ts, m, j, i, x, buf);
        }
      } else {
        assert FirstFailingItem(ts, m, j, i, i, buf);
      }
    } else {
      NothingWritten(ts, m, j, buf);
    }
  }

  lemma NothingWritten(ts: Types, m: Member, j: Json, buf: Memory)
    requires Layout(ts) && j.Arr? && |buf| == Stride(ElemSize(ts, m), |j.items|)
    ensures ItemsSeparated(ts, m, j, |j.items|, buf, buf)
  {
  }

  lemma ItemsStep(ts: Types, m: Member, j: Json, i: nat, buf: Memory, buf': Memory, r: Memory)
    requires Layout(ts) && j.Arr? && i < |j.items|
    requires |buf| == |r| == Stride(ElemSize(ts, m), |j.items|)
    requires ItemResult(ts, m, j, i, buf).Ok?
    requires |ItemResult(ts, m, j, i, buf).value| == ElemSize(ts, m)
    requires Stride(ElemSize(ts, m), i) + ElemSize(ts, m) <= |buf|
    requires buf' == Splice(buf, Stride(ElemSize(ts, m), i), ItemResult(ts, m, j, i, buf).value)
    requires forall x :: i < x < |j.items| ==> ItemResult(ts, m, j, x, buf') == ItemResult(ts, m, j, x, buf)
    requires ItemsSeparated(ts, m, j, i + 1, buf', r)
    ensures ItemsSeparated(ts, m, j, i, buf, r)
  {
    var es := ElemSize(ts, m);
    forall x | 0 <= x < |j.items|
      ensures Stride(es, x) + es <= |buf|
      ensures if x < i then Element(es, r, x) == Element(es, buf, x)
              else ItemResult(ts, m, j, x, buf).Ok? && Element(es, r, x) == ItemResult(ts, m, j, x, buf).value
    {
      SpliceElement(es, |j.items|, i, x, buf, ItemResult(ts, m, j, i, buf).value);
    }
  }
}
