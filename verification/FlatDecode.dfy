/** Decoding as it acts on memory: every write lands in the slot of its path.  These functions
    follow the code branch by branch; the lemmas tie them to the tree semantics. */
module FlatDecode {
  import opened Errors
  import opened Json
  import opened Descriptors
  import opened ScalarCodec

  /** std::vector::resize: keep a prefix, add new elements at the end. */
  function Resize(ts: Types, m: Member, buf: Memory, len: nat, n: nat): (r: Memory)
    requires Layout(ts) && |buf| == Stride(ElemSize(ts, m), len)
    ensures |r| == Stride(ElemSize(ts, m), n)
    decreases n
  {
    var es := ElemSize(ts, m);
    if n <= len then
      StrideMonotone(es, n, len);
      buf[..Stride(es, n)]
    else
      assert m.typeId.TMessage? && HasNested(ts, m) ==> DescLayout(ts, ts.descs[m.nested]);
      Resize(ts, m, buf, len, n - 1) + DefaultCells(ts, m)
  }

  function WriteMember(ts: Types, m: Member, j: Json, s: Memory): (r: Result<Memory>)
    requires Layout(ts) && |s| == SlotSize(ts, m)
    ensures r.Ok? ==> |r.value| == |s|
    decreases j, 2, 0
  {
    var es := ElemSize(ts, m);
    if !m.isArray then WriteScalar(ts, m, j, s)
    else if !j.Arr? then Err(PermanentError(InvalidMessageField))
    else if m.arraySize != 0 && !m.isUpperBound && |j.items| != m.arraySize then
      Err(PermanentError(InvalidMessageField))
    else if m.isUpperBound && m.arraySize != 0 && |j.items| > m.arraySize then
      Err(PermanentError(InvalidMessageField))
    else if IsFixedArray(m) then
      if !m.hasSize then Err(PermanentError(TypeSupportInvalid))
      else WriteItems(ts, m, j, 0, s)
    else if (m.hasResize || m.hasSize) && !IsVec(ts, m, s) then Err(UndefinedBehaviour)
    else if !m.hasSize || (!m.hasResize && s[0].len != |j.items|) then
      Err(PermanentError(TypeSupportInvalid))
    else
      var buf := if m.hasResize then Resize(ts, m, s[0].buf, s[0].len, |j.items|) else s[0].buf;
      var written :- WriteItems(ts, m, j, 0, buf);
      Ok([Vec(|j.items|, written)])
  }

  /** Assigns the elements from `i`. */
  function WriteItems(ts: Types, m: Member, j: Json, i: nat, buf: Memory): (r: Result<Memory>)
    requires Layout(ts) && j.Arr? && i <= |j.items|
    requires |buf| == Stride(ElemSize(ts, m), |j.items|)
    ensures r.Ok? ==> |r.value| == |buf|
    decreases j, 1, |j.items| - i
  {
    var es := ElemSize(ts, m);
    if i == |j.items| then Ok(buf)
    else
      StrideMonotone(es, i, |j.items|);
      var item :- WriteItem(ts, m, j.items[i], Element(es, buf, i));
      WriteItems(ts, m, j, i + 1, Splice(buf, Stride(es, i), item))
  }

  /** Assigns one element: through a pointer to it, or through a local and the assign function. */
  function WriteItem(ts: Types, m: Member, item: Json, s: Memory): (r: Result<Memory>)
    requires Layout(ts) && |s| == ElemSize(ts, m)
    ensures r.Ok? ==> |r.value| == |s|
    decreases item, 2, 0
  {
    if m.hasGet then WriteScalar(ts, m, item, s)
    else if m.typeId.TBool? && m.hasAssign then WriteScalar(ts, m, item, [P(PBool(false))])
    else Err(PermanentError(TypeSupportInvalid))
  }

  function WriteScalar(ts: Types, m: Member, j: Json, s: Memory): (r: Result<Memory>)
    requires Layout(ts) && |s| == ElemSize(ts, m)
    ensures r.Ok? ==> |r.value| == |s|
    decreases j, 1, 0
  {
    if m.typeId.TMessage? then
      if !HasNested(ts, m) then Err(PermanentError(TypeSupportInvalid))
      else if !j.Obj? then Err(PermanentError(InvalidMessage))
      else if !(j.fields.Keys <= Names(ts.descs[m.nested].members)) then
        Err(PermanentError(UnknownMessageField))
      else WriteFields(ts, m.nested, j, 0, s)
    else
      var p :- AssignPrim(ts.fp, m, j);
      Ok([P(p)])
  }

  /** Assigns the fields from `i` that the object has. */
  function WriteFields(ts: Types, k: nat, j: Json, i: nat, s: Memory): (r: Result<Memory>)
    requires Layout(ts) && k < |ts.descs| && |s| == ts.descs[k].size
    requires j.Obj? && i <= |ts.descs[k].members|
    ensures r.Ok? ==> |r.value| == |s|
    decreases j, 0, |ts.descs[k].members| - i
  {
    if i == |ts.descs[k].members| then Ok(s)
    else
      var m := ts.descs[k].members[i];
      assert DescLayout(ts, ts.descs[k]) && MemberFits(ts, ts.descs[k], m);
      if m.name in j.fields then
        var field :- WriteMember(ts, m, j.fields[m.name], Slot(ts, m, s));
        WriteFields(ts, k, j, i + 1, Splice(s, m.offset, field))
      else WriteFields(ts, k, j, i + 1, s)
  }

  /** messageFromJson: the memory of a new message with the fields of `j` assigned. */
  function DecodeMessage(ts: Types, k: nat, j: Json, initThrows: bool): (r: Result<Memory>)
    requires Layout(ts) && k < |ts.descs|
    ensures r.Ok? ==> |r.value| == ts.descs[k].size
  {
    var d := ts.descs[k];
    assert DescLayout(ts, d);
    if !j.Obj? then Err(PermanentError(InvalidMessage))
    else if !(j.fields.Keys <= Names(d.members)) then Err(PermanentError(UnknownMessageField))
    else if !d.hasInit || !d.hasFini || d.size == 0 then Err(PermanentError(TypeSupportInvalid))
    else if initThrows then Err(UntypedException)
    else WriteFields(ts, k, j, 0, d.defaults)
  }
}
