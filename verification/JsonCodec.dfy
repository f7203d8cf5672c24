/** The codec as it runs: decoding writes into message memory in place, encoding reads it back. */
module JsonCodec {
  import opened Errors
  import opened FloatingPoint
  import opened Json
  import opened Descriptors
  import opened ScalarCodec
  import opened TreeSemantics
  import opened FlatDecode
  import opened Separation
  import opened Refinement
  import opened CodecTheorems
  import opened EncodingSpec
  import DynamicMessage

  method RejectUnknownFields(j: Json, ms: seq<Member>) returns (r: Result<()>)
    requires j.Obj?
    ensures r.Ok? <==> j.fields.Keys <= Names(ms)
    ensures r.Err? ==> r.error == PermanentError(UnknownMessageField)
  {
    var names := j.fields.Keys;
    while names != {}
      invariant names <= j.fields.Keys
      invariant j.fields.Keys - names <= Names(ms)
      decreases |names|
    {
      var name :| name in names;
      var found := false;
      var index := 0;
      while index < |ms| && !found
        invariant 0 <= index <= |ms|
        invariant found <==> name in Names(ms[..index])
      {
        assert ms[..index + 1] == ms[..index] + [ms[index]];
        found := name == ms[index].name;
        index := index + 1;
      }
      if !found {
        assert ms[..index] == ms;
        return Err(PermanentError(UnknownMessageField));
      }
      assert name in Names(ms);
      names := names - {name};
    }
    return Ok(());
  }

  /** Widens a string byte by byte. */
  method WidenString(s: string) returns (r: Result<string>)
    ensures r == if IsAscii(s) then Ok(s) else Err(PermanentError(UnsupportedMessageField))
  {
    var parsed := "";
    for i := 0 to |s|
      invariant parsed == s[..i] && IsAscii(s[..i])
    {
      if s[i] as int > 0x7f {
        return Err(PermanentError(UnsupportedMessageField));
      }
      parsed := parsed + [s[i]];
    }
    assert s[..|s|] == s;
    return Ok(parsed);
  }

  /** The JSON value of a scalar field that is not a message. */
  method ParsePrim(fp: Platform, m: Member, j: Json) returns (r: Result<Prim>)
    ensures r == AssignPrim(fp, m, j)
  {
    if m.typeId.TWString? {
      if !j.Str? {
        return Err(PermanentError(InvalidMessageField));
      }
      var parsed := WidenString(j.s);
      if parsed.Err? {
        return Err(parsed.error);
      }
      if !WithinBound(parsed.value, m.stringBound) {
        return Err(PermanentError(MessageFieldOutOfRange));
      }
      return Ok(PWide(parsed.value));
    }
    return AssignPrim(fp, m, j);
  }

  // ---- Decoding in place ----

  /** The write of `w` to the `n` slots at `at`: on success those slots hold what `w` says; on
      either outcome no other slot has changed. */
  ghost predicate Wrote(w: Result<Memory>, before: Memory, after: Memory, at: nat, n: nat, r: Result<()>)
    requires at + n <= |before|
  {
    && |after| == |before|
    && after[..at] == before[..at]
    && after[at + n..] == before[at + n..]
    && (w.Ok? ==> r.Ok? && after[at..at + n] == w.value)
    && (w.Err? ==> r == Err(w.error))
  }

  /** A write to part of a region is a splice of the region. */
  lemma WroteWithin(w: Result<Memory>, before: Memory, after: Memory, at: nat, n: nat, off: nat, len: nat,
      r: Result<()>)
    requires at + n <= |before| && off + len <= n
    requires Wrote(w, before, after, at + off, len, r)
    ensures after[..at] == before[..at] && after[at + n..] == before[at + n..]
    ensures w.Ok? && |w.value| == len ==> after[at..at + n] == Splice(before[at..at + n], off, w.value)
  {
    forall a | 0 <= a < |before| && (a < at + off || at + off + len <= a) ensures after[a] == before[a] {
      if a < at + off {
        assert after[..at + off][a] == before[..at + off][a];
      } else {
        assert after[at + off + len..][a - (at + off + len)] == before[at + off + len..][a - (at + off + len)];
      }
    }
    if w.Ok? && |w.value| == len {
      var t := Splice(before[at..at + n], off, w.value);
      forall a | 0 <= a < n ensures after[at + a] == t[a] {
        if off <= a < off + len {
          assert after[at + off..at + off + len][a - off] == w.value[a - off];
        }
      }
    }
  }

  lemma SubSlice(s: Memory, at: nat, n: nat, lo: nat, hi: nat)
    requires at + n <= |s| && lo <= hi <= n
    ensures s[at..at + n][lo..hi] == s[at + lo..at + hi]
  {
    var region := s[at..at + n];
    var x, y := region[lo..hi], s[at + lo..at + hi];
    forall i | 0 <= i < hi - lo ensures x[i] == y[i] {
      assert x[i] == region[lo + i] && y[i] == s[at + lo + i];
    }
    assert x == y;
  }

  // The loop over the elements of a region, `i` of which have been written.
  ghost predicate ItemsProgress(ts: Types, m: Member, j: Json, field: nat, before: Memory, now: Memory, i: nat)
    requires Layout(ts) && j.Arr? && i <= |j.items|
    requires field + Stride(ElemSize(ts, m), |j.items|) <= |before|
  {
    var n := Stride(ElemSize(ts, m), |j.items|);
    && |now| == |before|
    && now[..field] == before[..field]
    && now[field + n..] == before[field + n..]
    && WriteItems(ts, m, j, i, now[field..field + n]) == WriteItems(ts, m, j, 0, before[field..field + n])
  }

  lemma ItemWritten(ts: Types, m: Member, j: Json, field: nat, before: Memory, now: Memory, i: nat, after: Memory,
      r: Result<()>)
    requires Layout(ts) && j.Arr? && i < |j.items|
    requires field + Stride(ElemSize(ts, m), |j.items|) <= |before|
    requires ItemsProgress(ts, m, j, field, before, now, i)
    requires Stride(ElemSize(ts, m), i) + ElemSize(ts, m) <= Stride(ElemSize(ts, m), |j.items|)
    requires var at, es := field + Stride(ElemSize(ts, m), i), ElemSize(ts, m);
      Wrote(WriteItem(ts, m, j.items[i], now[at..at + es]), now, after, at, es, r)
    ensures r.Ok? ==> ItemsProgress(ts, m, j, field, before, after, i + 1)
    ensures r.Err? ==> ItemsDone(ts, m, j, field, before, after, r)
  {
    hide WriteItems, WriteItem, Stride, ElemSize;
    var es, n := ElemSize(ts, m), Stride(ElemSize(ts, m), |j.items|);
    var at := Stride(es, i);
    var region := now[field..field + n];
    SubSlice(now, field, n, at, at + es);
    var here := ItemResult(ts, m, j, i, region);
    WriteItemsUnfold(ts, m, j, i, region);
    WroteWithin(here, now, after, field, n, at, es, r);
  }

  /** The contract of assigning all elements. */
  ghost predicate ItemsDone(ts: Types, m: Member, j: Json, field: nat, before: Memory, after: Memory, r: Result<()>)
    requires Layout(ts) && j.Arr?
    requires field + Stride(ElemSize(ts, m), |j.items|) <= |before|
  {
    var n := Stride(ElemSize(ts, m), |j.items|);
    Wrote(WriteItems(ts, m, j, 0, before[field..field + n]), before, after, field, n, r)
  }

  lemma ItemsFinished(ts: Types, m: Member, j: Json, field: nat, before: Memory, now: Memory)
    requires Layout(ts) && j.Arr?
    requires field + Stride(ElemSize(ts, m), |j.items|) <= |before|
    requires ItemsProgress(ts, m, j, field, before, now, |j.items|)
    ensures ItemsDone(ts, m, j, field, before, now, Ok(()))
  {
  }

  lemma ItemsStarted(ts: Types, m: Member, j: Json, field: nat, before: Memory)
    requires Layout(ts) && j.Arr?
    requires field + Stride(ElemSize(ts, m), |j.items|) <= |before|
    ensures ItemsProgress(ts, m, j, field, before, before, 0)
  {
  }

  // The loop over the members of the message at `output`, `i` of which have been looked at.
  ghost predicate FieldsProgress(ts: Types, k: nat, j: Json, output: nat, before: Memory, now: Memory, i: nat)
    requires Layout(ts) && k < |ts.descs| && j.Obj? && i <= |ts.descs[k].members|
    requires output + ts.descs[k].size <= |before|
  {
    var n := ts.descs[k].size;
    && |now| == |before|
    && now[..output] == before[..output]
    && now[output + n..] == before[output + n..]
    && WriteFields(ts, k, j, i, now[output..output + n]) == WriteFields(ts, k, j, 0, before[output..output + n])
  }

  /** The contract of assigning all fields. */
  ghost predicate FieldsDone(ts: Types, k: nat, j: Json, output: nat, before: Memory, after: Memory, r: Result<()>)
    requires Layout(ts) && k < |ts.descs| && j.Obj? && output + ts.descs[k].size <= |before|
  {
    var n := ts.descs[k].size;
    Wrote(WriteFields(ts, k, j, 0, before[output..output + n]), before, after, output, n, r)
  }

  lemma FieldsStarted(ts: Types, k: nat, j: Json, output: nat, before: Memory)
    requires Layout(ts) && k < |ts.descs| && j.Obj? && output + ts.descs[k].size <= |before|
    ensures FieldsProgress(ts, k, j, output, before, before, 0)
  {
  }

  lemma FieldsFinished(ts: Types, k: nat, j: Json, output: nat, before: Memory, now: Memory)
    requires Layout(ts) && k < |ts.descs| && j.Obj? && output + ts.descs[k].size <= |before|
    requires FieldsProgress(ts, k, j, output, before, now, |ts.descs[k].members|)
    ensures FieldsDone(ts, k, j, output, before, now, Ok(()))
  {
  }

  lemma MemberInside(ts: Types, k: nat, i: nat)
    requires Layout(ts) && k < |ts.descs| && i < |ts.descs[k].members|
    ensures ts.descs[k].members[i].offset + SlotSize(ts, ts.descs[k].members[i]) <= ts.descs[k].size
  {
    MemberFacts(ts, k, i);
  }

  /** Writing member `i`, or leaving it alone, takes the loop one step further. */
  lemma FieldWritten(ts: Types, k: nat, j: Json, output: nat, before: Memory, now: Memory, i: nat, after: Memory,
      r: Result<()>)
    requires Layout(ts) && k < |ts.descs| && j.Obj? && i < |ts.descs[k].members|
    requires output + ts.descs[k].size <= |before|
    requires FieldsProgress(ts, k, j, output, before, now, i)
    requires ts.descs[k].members[i].offset + SlotSize(ts, ts.descs[k].members[i]) <= ts.descs[k].size
    requires var m := ts.descs[k].members[i];
      var at, n := output + m.offset, SlotSize(ts, m);
      if m.name in j.fields then Wrote(WriteMember(ts, m, j.fields[m.name], now[at..at + n]), now, after, at, n, r)
      else after == now && r == Ok(())
    ensures r.Ok? ==> FieldsProgress(ts, k, j, output, before, after, i + 1)
    ensures r.Err? ==> FieldsDone(ts, k, j, output, before, after, r)
  {
    hide WriteMember, WriteFields;
    var m, n := ts.descs[k].members[i], ts.descs[k].size;
    var region := now[output..output + n];
    SubSlice(now, output, n, m.offset, m.offset + SlotSize(ts, m));
    WriteFieldsUnfold(ts, k, j, i, region);
    var here := SlotResult(ts, k, j, i, region);
    WroteWithin(here, now, after, output, n, m.offset, SlotSize(ts, m), r);
  }

  method AssignMember(ts: Types, m: Member, j: Json, mem: array<Cell>, message: nat)
    returns (r: Result<()>)
    requires Layout(ts) && message + m.offset + SlotSize(ts, m) <= mem.Length
    modifies mem
    ensures Wrote(
      WriteMember(ts, m, j, old(mem[..])[message + m.offset..message + m.offset + SlotSize(ts, m)]),
      old(mem[..]), mem[..], message + m.offset, SlotSize(ts, m), r)
    decreases j, 2, 0
  {
    var field := message + m.offset;
    if !m.isArray {
      r := AssignScalar(ts, m, j, mem, field);
      return;
    }
    if !j.Arr? {
      return Err(PermanentError(InvalidMessageField));
    }
    var requested := |j.items|;
    if m.arraySize != 0 && !m.isUpperBound && requested != m.arraySize {
      return Err(PermanentError(InvalidMessageField));
    }
    if m.isUpperBound && m.arraySize != 0 && requested > m.arraySize {
      return Err(PermanentError(InvalidMessageField));
    }
    if IsFixedArray(m) {
      if !m.hasSize {
        return Err(PermanentError(TypeSupportInvalid));
      }
      r := AssignItems(ts, m, j, mem, field);
      return;
    }
    r := AssignSequence(ts, m, j, mem, field);
  }

  /** Resizes the sequence whose header is at `field` and assigns its elements. */
  method AssignSequence(ts: Types, m: Member, j: Json, mem: array<Cell>, field: nat)
    returns (r: Result<()>)
    requires Layout(ts) && IsSequence(m) && field < mem.Length
    requires j.Arr? && LengthConforms(m, |j.items|)
    modifies mem
    ensures Wrote(WriteMember(ts, m, j, [old(mem[field])]), old(mem[..]), mem[..], field, 1, r)
    decreases j, 1, 1
  {
    hide WriteItems, Resize, WriteScalar;
    var requested := |j.items|;
    var header := mem[field];
    if (m.hasResize || m.hasSize) && !IsVec(ts, m, [header]) {
      return Err(UndefinedBehaviour);
    }
    if !m.hasSize || (!m.hasResize && header.len != requested) {
      return Err(PermanentError(TypeSupportInvalid));
    }
    var buf := if m.hasResize then Resize(ts, m, header.buf, header.len, requested) else header.buf;
    var heap := new Cell[|buf|](i requires 0 <= i < |buf| => buf[i]);
    assert heap[..] == buf;
    assert buf[0..0 + |buf|] == buf;
    r := AssignItems(ts, m, j, heap, 0);
    if r.Ok? {
      assert heap[..][0..0 + |buf|] == heap[..];
      mem[field] := Vec(requested, heap[..]);
    }
  }

  /** Assigns the elements of `j` to the consecutive elements at `field`. */
  method AssignItems(ts: Types, m: Member, j: Json, mem: array<Cell>, field: nat)
    returns (r: Result<()>)
    requires Layout(ts) && j.Arr?
    requires field + Stride(ElemSize(ts, m), |j.items|) <= mem.Length
    modifies mem
    ensures ItemsDone(ts, m, j, field, old(mem[..]), mem[..], r)
    decreases j, 1, 0
  {
    hide *;
    ItemsStarted(ts, m, j, field, mem[..]);
    var index := 0;
    while index < |j.items|
      invariant 0 <= index <= |j.items|
      invariant ItemsProgress(ts, m, j, field, old(mem[..]), mem[..], index)
    {
      ghost var now := mem[..];
      StrideMonotone(ElemSize(ts, m), index, |j.items|);
      r := AssignItem(ts, m, j.items[index], mem, field + Stride(ElemSize(ts, m), index));
      ItemWritten(ts, m, j, field, old(mem[..]), now, index, mem[..], r);
      if r.Err? {
        return;
      }
      index := index + 1;
    }
    ItemsFinished(ts, m, j, field, old(mem[..]), mem[..]);
    return Ok(());
  }

  /** Assigns one element, through a pointer to it or through the assign function. */
  method AssignItem(ts: Types, m: Member, item: Json, mem: array<Cell>, at: nat) returns (r: Result<()>)
    requires Layout(ts) && at + ElemSize(ts, m) <= mem.Length
    modifies mem
    ensures Wrote(
      WriteItem(ts, m, item, old(mem[..])[at..at + ElemSize(ts, m)]),
      old(mem[..]), mem[..], at, ElemSize(ts, m), r)
    decreases item, 2, 0
  {
    if m.hasGet {
      r := AssignScalar(ts, m, item, mem, at);
    } else if m.typeId.TBool? && m.hasAssign {
      var local := new Cell[1](_ => P(PBool(false)));
      assert local[..] == local[..][0..0 + 1] == [P(PBool(false))];
      r := AssignScalar(ts, m, item, local, 0);
      if r.Ok? {
        assert local[..][0..0 + 1] == [local[0]];
        mem[at] := local[0];
      }
    } else {
      return Err(PermanentError(TypeSupportInvalid));
    }
  }

  method AssignScalar(ts: Types, m: Member, j: Json, mem: array<Cell>, output: nat)
    returns (r: Result<()>)
    requires Layout(ts) && output + ElemSize(ts, m) <= mem.Length
    modifies mem
    ensures Wrote(
      WriteScalar(ts, m, j, old(mem[..])[output..output + ElemSize(ts, m)]),
      old(mem[..]), mem[..], output, ElemSize(ts, m), r)
    decreases j, 1, 0
  {
    if !m.typeId.TMessage? {
      var p := ParsePrim(ts.fp, m, j);
      if p.Err? {
        return Err(p.error);
      }
      mem[output] := P(p.value);
      return Ok(());
    }
    if !HasNested(ts, m) {
      return Err(PermanentError(TypeSupportInvalid));
    }
    if !j.Obj? {
      return Err(PermanentError(InvalidMessage));
    }
    var unknown := RejectUnknownFields(j, ts.descs[m.nested].members);
    if unknown.Err? {
      return unknown;
    }
    r := AssignFields(ts, m.nested, j, mem, output);
  }

  /** The loop over the members of a message at `output`. */
  method AssignFields(ts: Types, k: nat, j: Json, mem: array<Cell>, output: nat)
    returns (r: Result<()>)
    requires Layout(ts) && k < |ts.descs| && j.Obj? && output + ts.descs[k].size <= mem.Length
    modifies mem
    ensures FieldsDone(ts, k, j, output, old(mem[..]), mem[..], r)
    decreases j, 0, 0
  {
    hide *;
    FieldsStarted(ts, k, j, output, mem[..]);
    var members := ts.descs[k].members;
    var index := 0;
    while index < |members|
      invariant 0 <= index <= |members|
      invariant FieldsProgress(ts, k, j, output, old(mem[..]), mem[..], index)
    {
      var child := members[index];
      MemberInside(ts, k, index);
      ghost var now := mem[..];
      r := Ok(());
      if child.name in j.fields {
        r := AssignMember(ts, child, j.fields[child.name], mem, output);
      }
      FieldWritten(ts, k, j, output, old(mem[..]), now, index, mem[..], r);
      if r.Err? {
        return;
      }
      index := index + 1;
    }
    FieldsFinished(ts, k, j, output, old(mem[..]), mem[..]);
    return Ok(());
  }

  /** messageFromJson.  A message is decoded exactly when it conforms; what its memory then stands
      for is the default message with the JSON laid over it; a rejection is a typed permanent error
      unless the JSON library or the initialiser threw.  On success the caller owns the one buffer
      obtained; on failure after construction, unwinding has retired it; nothing else was obtained. */
  method MessageFromJson(ts: Types, k: nat, j: Json, initThrows: bool, heap: DynamicMessage.Heap)
    returns (r: Result<DynamicMessage.Message>, memory: array<Cell>)
    requires Layout(ts) && TypedDefaults(ts) && k < |ts.descs| && heap.Valid()
    modifies heap
    ensures fresh(memory) && heap.Valid()
    ensures DecodeMessage(ts, k, j, initThrows) == if r.Ok? then Ok(memory[..]) else Err(r.error)
    ensures r.Ok? <==>
      Constructible(ts, k) && !initThrows && ConformsMessage(ts, k, DefaultMessage(ts, k), j)
    ensures r.Ok? ==>
      && memory.Length == ts.descs[k].size
      && MessageAt(ts, k, memory[..]) == OverlayMessage(ts, k, DefaultMessage(ts, k), j)
    ensures FailsWith(r, UntypedException, ReachesConstruction(ts, k, j)
      && (initThrows || ThrowsMessage(ts, k, DefaultMessage(ts, k), j)))
    ensures r.Err? ==> IsRejected(ts, k, j, initThrows, r.error)
    ensures r.Ok? ==>
      && fresh(r.value) && heap.owners == old(heap.owners) + {r.value}
      && r.value.data == Some(|old(heap.buffers)|)
      && heap.buffers == old(heap.buffers) + [DynamicMessage.OWNED]
    ensures r.Err? ==> heap.owners == old(heap.owners)
    ensures r.Err? && !ReachesConstruction(ts, k, j) ==> heap.buffers == old(heap.buffers)
    ensures r.Err? && ReachesConstruction(ts, k, j) ==>
      var left := if initThrows then DynamicMessage.ABANDONED else DynamicMessage.RETIRED;
      heap.buffers == old(heap.buffers) + [left]
  {
    hide WriteFields, ConformsMessage, ThrowsMessage, OverlayMessage, MessageAt, DefaultMessage, TypedDefaults,
      IsRejected;
    var d := ts.descs[k];
    MessageMemory(ts, k, j, initThrows);
    memory := new Cell[|d.defaults|](i requires 0 <= i < |d.defaults| => d.defaults[i]);
    if !j.Obj? {
      return Err(PermanentError(InvalidMessage)), memory;
    }
    var unknown := RejectUnknownFields(j, d.members);
    if unknown.Err? {
      return Err(unknown.error), memory;
    }
    var result := DynamicMessage.Construct(heap, Some(d), initThrows);
    if result.Err? {
      return result, memory;
    }
    assert memory[..] == d.defaults && memory[..][0..0 + d.size] == d.defaults;
    var written := AssignFields(ts, k, j, memory, 0);
    assert memory[..][0..0 + d.size] == memory[..];
    if written.Err? {
      result.value.Destroy(heap);
      return Err(written.error), memory;
    }
    return result, memory;
  }

  /** Decoding acts on the memory the initialiser leaves. */
  lemma MessageMemory(ts: Types, k: nat, j: Json, initThrows: bool)
    requires Layout(ts) && TypedDefaults(ts) && k < |ts.descs|
    ensures |ts.descs[k].defaults| == ts.descs[k].size
    ensures var r := DecodeMessage(ts, k, j, initThrows);
      && (r.Ok? <==> Constructible(ts, k) && !initThrows && ConformsMessage(ts, k, DefaultMessage(ts, k), j))
      && (r.Ok? ==> MessageAt(ts, k, r.value) == OverlayMessage(ts, k, DefaultMessage(ts, k), j))
      && FailsWith(r, UntypedException, ReachesConstruction(ts, k, j)
           && (initThrows || ThrowsMessage(ts, k, DefaultMessage(ts, k), j)))
      && (r.Err? ==> IsRejected(ts, k, j, initThrows, r.error))
  {
    DefaultsFit(ts, k);
    if DecodeMessage(ts, k, j, initThrows).Err? {
      DecodeRejectsExactly(ts, k, j, initThrows, DecodeMessage(ts, k, j, initThrows).error);
    }
    DecodeMessageExact(ts, k, j, initThrows);
  }

  // ---- Encoding ----

  /** Narrows a wide string code unit by code unit. */
  method NarrowString(w: string) returns (r: Result<string>)
    ensures r == if IsAscii(w) then Ok(w) else Err(PermanentError(UnsupportedMessageField))
  {
    var value := "";
    for i := 0 to |w|
      invariant value == w[..i] && IsAscii(w[..i])
    {
      if w[i] as int > 0x7f {
        return Err(PermanentError(UnsupportedMessageField));
      }
      value := value + [w[i]];
    }
    assert w[..|w|] == w;
    return Ok(value);
  }

  method PrintPrim(fp: Platform, t: TypeId, p: Prim) returns (r: Result<Json>)
    ensures r == ProjectPrim(fp, t, p)
  {
    if t.TWString? && p.PWide? {
      var value := NarrowString(p.w);
      if value.Err? {
        return Err(value.error);
      }
      return Ok(Str(value.value));
    }
    return ProjectPrim(fp, t, p);
  }

  method MemberToJson(ts: Types, m: Member, mem: Memory, message: nat) returns (r: Result<Json>)
    requires Layout(ts) && message + m.offset + SlotSize(ts, m) <= |mem|
    ensures r == EncodeMember(ts, m,
      LoadMember(ts, m, mem[message + m.offset..message + m.offset + SlotSize(ts, m)]))
    decreases MaxHeight(mem[message + m.offset..message + m.offset + SlotSize(ts, m)]),
      if IsSequence(m) then 0 else Depth(ts, m), 3
  {
    var field := message + m.offset;
    ghost var s := mem[field..field + SlotSize(ts, m)];
    if !m.isArray {
      r := ScalarToJson(ts, m, mem, field);
      return;
    }
    if !m.hasSize {
      return Err(PermanentError(TypeSupportInvalid));
    }
    if IsFixedArray(m) {
      r := ItemsToJson(ts, m, mem, field, m.arraySize, LoadMember(ts, m, s));
      return;
    }
    assert s == [mem[field]];
    if !IsVec(ts, m, [mem[field]]) {
      return Err(UndefinedBehaviour);
    }
    HeightInMax(s, 0);
    var buf := mem[field].buf;
    assert buf[0..0 + |buf|] == buf;
    r := ItemsToJson(ts, m, buf, 0, mem[field].len, LoadMember(ts, m, s));
  }

  /** Projects `size` consecutive elements at `field`, which stand for the list `v`. */
  method ItemsToJson(ts: Types, m: Member, mem: Memory, field: nat, size: nat, ghost v: Value)
    returns (r: Result<Json>)
    requires Layout(ts) && m.isArray && m.hasSize
    requires field + Stride(ElemSize(ts, m), size) <= |mem|
    requires v.List? && |v.items| == size
    requires forall i :: 0 <= i < size ==>
      v.items[i] == LoadElement(ts, m, mem[field..field + Stride(ElemSize(ts, m), size)], size, i)
    ensures r == EncodeMember(ts, m, v)
    decreases MaxHeight(mem[field..field + Stride(ElemSize(ts, m), size)]), Depth(ts, m), 2
  {
    hide LoadScalar, EncodeScalar, MaxHeight;
    var es := ElemSize(ts, m);
    ghost var whole := mem[field..field + Stride(es, size)];
    var result := [];
    for index := 0 to size
      invariant EncodeItems(ts, m, v, index, result) == EncodeItems(ts, m, v, 0, [])
    {
      StrideMonotone(es, index, size);
      var at := Stride(es, index);
      if m.hasGetConst || (m.typeId.TBool? && m.hasFetch) {
        SliceHeight(whole, at, at + es);
        SubSlice(mem, field, Stride(es, size), at, at + es);
        var item := ScalarToJson(ts, m, mem, field + at);
        if item.Err? {
          return Err(item.error);
        }
        result := result + [item.value];
      } else {
        return Err(PermanentError(TypeSupportInvalid));
      }
    }
    return Ok(Arr(result));
  }

  method ScalarToJson(ts: Types, m: Member, mem: Memory, input: nat) returns (r: Result<Json>)
    requires Layout(ts) && input + ElemSize(ts, m) <= |mem|
    ensures r == EncodeScalar(ts, m, LoadScalar(ts, m, mem[input..input + ElemSize(ts, m)]))
    decreases MaxHeight(mem[input..input + ElemSize(ts, m)]), Depth(ts, m), 1
  {
    if m.typeId.TMessage? {
      if !HasNested(ts, m) {
        return Err(PermanentError(TypeSupportInvalid));
      }
      r := FieldsToJson(ts, m.nested, mem, input);
      return;
    }
    var p := if mem[input].P? then mem[input].p else PNone;
    r := PrintPrim(ts.fp, m.typeId, p);
  }

  /** messageToJson: the object of the projections of all members of the message at `input`. */
  method MessageToJson(ts: Types, k: nat, mem: Memory, input: nat) returns (r: Result<Json>)
    requires Layout(ts) && k < |ts.descs| && input + ts.descs[k].size <= |mem|
    ensures r == EncodeMessage(ts, k, Msg(LoadFields(ts, k, mem[input..input + ts.descs[k].size])))
    ensures var v := Msg(LoadFields(ts, k, mem[input..input + ts.descs[k].size]));
      UniqueNames(ts) && HasMessageType(ts, k, v) ==>
        if r.Ok? then SaysMessage(ts, k, v, r.value) else MessageFailsToEncode(ts, k, v, r.error)
  {
    ghost var w := Msg(LoadFields(ts, k, mem[input..input + ts.descs[k].size]));
    r := FieldsToJson(ts, k, mem, input);
    MessageSaid(ts, k, w, r);
  }

  lemma MessageSaid(ts: Types, k: nat, v: Value, r: Result<Json>)
    requires k < |ts.descs| && r == EncodeMessage(ts, k, v)
    ensures UniqueNames(ts) && HasMessageType(ts, k, v) ==>
      if r.Ok? then SaysMessage(ts, k, v, r.value) else MessageFailsToEncode(ts, k, v, r.error)
  {
    hide EncodeMessage, SaysMessage, MessageFailsToEncode, UniqueNames, HasMessageType;
    if UniqueNames(ts) && HasMessageType(ts, k, v) {
      if r.Ok? {
        EncodesAs(ts, k, v, r.value);
      } else {
        MessageFailsExactly(ts, k, v, r.error);
      }
    }
  }

  /** The loop over the members of the message at `input`. */
  method FieldsToJson(ts: Types, k: nat, mem: Memory, input: nat) returns (r: Result<Json>)
    requires Layout(ts) && k < |ts.descs| && input + ts.descs[k].size <= |mem|
    ensures r == EncodeMessage(ts, k, Msg(LoadFields(ts, k, mem[input..input + ts.descs[k].size])))
    decreases MaxHeight(mem[input..input + ts.descs[k].size]), ts.descs[k].depth, 0
  {
    hide LoadMember, EncodeMember, MaxHeight;
    var members := ts.descs[k].members;
    ghost var s := mem[input..input + ts.descs[k].size];
    ghost var v := Msg(LoadFields(ts, k, s));
    var result: map<string, Json> := map[];
    for index := 0 to |members|
      invariant EncodeFields(ts, k, v, index, result) == EncodeFields(ts, k, v, 0, map[])
    {
      var child := members[index];
      MemberFacts(ts, k, index);
      ghost var lo, hi := child.offset, child.offset + SlotSize(ts, child);
      SliceHeight(s, lo, hi);
      SubSlice(mem, input, ts.descs[k].size, lo, hi);
      assert DescLayout(ts, ts.descs[k]);
      var field := MemberToJson(ts, child, mem, input);
      if field.Err? {
        return Err(field.error);
      }
      result := result[child.name := field.value];
    }
    return Ok(Obj(result));
  }
}
