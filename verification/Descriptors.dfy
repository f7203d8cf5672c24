/** The runtime type description of messages, the memory they occupy, and the tree a piece of
    memory stands for. */
module Descriptors {
  import opened FloatingPoint
  import opened Json

  datatype TypeId =
    | TBool
    | TFloat
    | TDouble
    | TLongDouble
    | TChar
    | TOctet
    | TUInt8
    | TInt8
    | TUInt16
    | TInt16
    | TUInt32
    | TInt32
    | TUInt64
    | TInt64
    | TString
    | TWString
    | TMessage
    | TOther

  /** A value of a scalar field.  A string is its bytes, a wide string its 16-bit code units. */
  datatype Prim =
    | PBool(b: bool)
    | PInt(n: Integer)
    | PFloat(x: Float)
    | PStr(s: string)
    | PWide(w: string)
    | PNone

  /** One slot of memory: a scalar, or the header of a dynamic sequence of `len` elements, which
      owns the contiguous buffer they live in. */
  datatype Cell = P(p: Prim) | Vec(len: nat, buf: seq<Cell>)

  /** `nested` is an index into the descriptor table, so types may refer to one another and to
      themselves; the `has` fields say whether that pointer and each access function are there. */
  datatype Member = Member(
    name: string,
    typeId: TypeId,
    stringBound: nat,
    nested: nat,
    hasNested: bool,
    isArray: bool,
    arraySize: nat,
    isUpperBound: bool,
    offset: nat,
    hasSize: bool,
    hasResize: bool,
    hasGet: bool,
    hasGetConst: bool,
    hasAssign: bool,
    hasFetch: bool)

  /** `defaults` is the memory the initialiser leaves; `depth` bounds the by-value nesting of the
      C++ struct, which cannot contain itself except through a sequence. */
  datatype MessageDesc = MessageDesc(
    members: seq<Member>,
    size: nat,
    depth: nat,
    defaults: seq<Cell>,
    hasInit: bool,
    hasFini: bool)

  datatype Types = Types(descs: seq<MessageDesc>, fp: Platform)

  // ---- Layout ----

  predicate HasNested(ts: Types, m: Member) {
    m.hasNested && m.nested < |ts.descs|
  }

  predicate IsFixedArray(m: Member) {
    m.isArray && m.arraySize != 0 && !m.isUpperBound
  }

  predicate IsSequence(m: Member) {
    m.isArray && !IsFixedArray(m)
  }

  /** The number of slots `n` elements of `es` slots each take. */
  function Stride(es: nat, n: nat): nat {
    n * es
  }

  lemma StrideStep(es: nat, n: nat)
    ensures Stride(es, n + 1) == Stride(es, n) + es
  {
  }

  lemma {:induction false} StrideMonotone(es: nat, i: nat, n: nat)
    requires i <= n
    ensures Stride(es, i) <= Stride(es, n)
    ensures i < n ==> Stride(es, i) + es <= Stride(es, n)
    decreases n
  {
    if i < n {
      StrideMonotone(es, i, n - 1);
      StrideStep(es, n - 1);
    }
  }

  function ElemSize(ts: Types, m: Member): nat {
    if m.typeId.TMessage? && HasNested(ts, m) then ts.descs[m.nested].size else 1
  }

  function SlotSize(ts: Types, m: Member): nat {
    if !m.isArray then ElemSize(ts, m)
    else if IsFixedArray(m) then Stride(ElemSize(ts, m), m.arraySize)
    else 1
  }

  predicate Disjoint(ts: Types, a: Member, b: Member) {
    || a.offset + SlotSize(ts, a) <= b.offset
    || b.offset + SlotSize(ts, b) <= a.offset
  }

  predicate MemberFits(ts: Types, d: MessageDesc, m: Member) {
    && (m.hasNested ==> m.nested < |ts.descs|)
    && m.offset + SlotSize(ts, m) <= d.size
    && (m.typeId.TMessage? && m.hasNested && !IsSequence(m) ==> ts.descs[m.nested].depth < d.depth)
  }

  predicate DescLayout(ts: Types, d: MessageDesc) {
    && 0 < d.depth
    && |d.defaults| == d.size
    && (forall i :: 0 <= i < |d.members| ==> MemberFits(ts, d, d.members[i]))
    && (forall i, j :: 0 <= i < j < |d.members| ==> Disjoint(ts, d.members[i], d.members[j]))
  }

  /** Every member lies inside its message, and no two members of a message overlap. */
  ghost predicate Layout(ts: Types) {
    forall k :: 0 <= k < |ts.descs| ==> DescLayout(ts, ts.descs[k])
  }

  ghost predicate UniqueNames(ts: Types) {
    forall k, i, j :: 0 <= k < |ts.descs| && 0 <= i < j < |ts.descs[k].members| ==>
      ts.descs[k].members[i].name != ts.descs[k].members[j].name
  }

  function Names(ms: seq<Member>): set<string> {
    set m | m in ms :: m.name
  }

  // ---- Memory ----

  type Memory = seq<Cell>

  /** Memory with the slots from `at` replaced by `piece`. */
  function Splice(s: Memory, at: nat, piece: Memory): (r: Memory)
    requires at + |piece| <= |s|
    ensures |r| == |s|
  {
    s[..at] + piece + s[at + |piece|..]
  }

  function Slot(ts: Types, m: Member, s: Memory): Memory
    requires m.offset + SlotSize(ts, m) <= |s|
  {
    s[m.offset..m.offset + SlotSize(ts, m)]
  }

  function Element(es: nat, s: Memory, i: nat): Memory
    requires Stride(es, i) + es <= |s|
  {
    s[Stride(es, i)..Stride(es, i) + es]
  }

  function Height(c: Cell): nat {
    match c
    case P(_) => 0
    case Vec(_, buf) => 1 + MaxHeight(buf)
  }

  /** How deeply sequences nest in a piece of memory. */
  function MaxHeight(s: Memory): nat {
    if s == [] then 0
    else
      var h, t := Height(s[0]), MaxHeight(s[1..]);
      if h < t then t else h
  }

  lemma {:induction false} HeightInMax(s: Memory, i: nat)
    requires i < |s|
    ensures Height(s[i]) <= MaxHeight(s)
  {
    if 0 < i {
      HeightInMax(s[1..], i - 1);
    }
  }

  lemma {:induction false} MaxHeightBound(s: Memory, b: nat)
    requires forall i :: 0 <= i < |s| ==> Height(s[i]) <= b
    ensures MaxHeight(s) <= b
  {
    if s != [] {
      MaxHeightBound(s[1..], b);
    }
  }

  lemma SliceHeight(s: Memory, lo: nat, hi: nat)
    requires lo <= hi <= |s|
    ensures MaxHeight(s[lo..hi]) <= MaxHeight(s)
  {
    forall i | 0 <= i < hi - lo ensures Height(s[lo..hi][i]) <= MaxHeight(s) {
      HeightInMax(s, lo + i);
    }
    MaxHeightBound(s[lo..hi], MaxHeight(s));
  }

  function DefaultPrim(t: TypeId): Prim {
    match t
    case TBool => PBool(false)
    case TFloat | TDouble | TLongDouble => PFloat(Finite(0.0))
    case TString => PStr("")
    case TWString => PWide("")
    case TMessage | TOther => PNone
    case _ => PInt(0)
  }

  /** A new element of a sequence, as resizing creates it. */
  function DefaultCells(ts: Types, m: Member): (s: Memory)
  {
    if m.typeId.TMessage? && HasNested(ts, m) then ts.descs[m.nested].defaults
    else [P(DefaultPrim(m.typeId))]
  }

  // ---- What memory stands for ----

  /** A message value; the fields of a message are listed in member order. */
  datatype Value = Leaf(p: Prim) | List(items: seq<Value>) | Msg(fields: seq<Value>)

  function Depth(ts: Types, m: Member): nat {
    if m.typeId.TMessage? && HasNested(ts, m) then ts.descs[m.nested].depth else 0
  }

  /** The sequence header in a slot holds as many elements as it says. */
  predicate IsVec(ts: Types, m: Member, s: Memory) {
    |s| == 1 && s[0].Vec? && |s[0].buf| == Stride(ElemSize(ts, m), s[0].len)
  }

  ghost function LoadScalar(ts: Types, m: Member, s: Memory): Value
    requires Layout(ts) && |s| == ElemSize(ts, m)
    decreases MaxHeight(s), Depth(ts, m), 1
  {
    if m.typeId.TMessage? then
      if HasNested(ts, m) then Msg(LoadFields(ts, m.nested, s)) else Leaf(PNone)
    else if s[0].P? then Leaf(s[0].p)
    else Leaf(PNone)
  }

  ghost function LoadMember(ts: Types, m: Member, s: Memory): Value
    requires Layout(ts) && |s| == SlotSize(ts, m)
    decreases MaxHeight(s), if IsSequence(m) then 0 else Depth(ts, m), 3
  {
    if !m.isArray then LoadScalar(ts, m, s)
    else if IsFixedArray(m) then
      List(seq(m.arraySize, i requires 0 <= i < m.arraySize =>
        LoadElement(ts, m, s, m.arraySize, i)))
    else if IsVec(ts, m, s) then
      HeightInMax(s, 0);
      List(seq(s[0].len, i requires 0 <= i < s[0].len =>
        LoadElement(ts, m, s[0].buf, s[0].len, i)))
    else Leaf(PNone)
  }

  /** Element `i` of a buffer of `n` elements. */
  ghost function LoadElement(ts: Types, m: Member, buf: Memory, n: nat, i: nat): Value
    requires Layout(ts) && i < n && |buf| == Stride(ElemSize(ts, m), n)
    decreases MaxHeight(buf), Depth(ts, m), 2
  {
    var es := ElemSize(ts, m);
    StrideMonotone(es, i, n);
    SliceHeight(buf, Stride(es, i), Stride(es, i) + es);
    LoadScalar(ts, m, Element(es, buf, i))
  }

  /** The value of a new element of a sequence. */
  ghost function DefaultValue(ts: Types, m: Member): Value
    requires Layout(ts)
  {
    assert m.typeId.TMessage? && HasNested(ts, m) ==> DescLayout(ts, ts.descs[m.nested]);
    LoadScalar(ts, m, DefaultCells(ts, m))
  }

  ghost function LoadFields(ts: Types, k: nat, s: Memory): seq<Value>
    requires Layout(ts) && k < |ts.descs| && |s| == ts.descs[k].size
    decreases MaxHeight(s), ts.descs[k].depth, 0
  {
    var ms := ts.descs[k].members;
    seq(|ms|, i requires 0 <= i < |ms| =>
      assert DescLayout(ts, ts.descs[k]) && MemberFits(ts, ts.descs[k], ms[i]);
      SliceHeight(s, ms[i].offset, ms[i].offset + SlotSize(ts, ms[i]));
      LoadMember(ts, ms[i], Slot(ts, ms[i], s)))
  }
}
