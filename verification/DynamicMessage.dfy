/** The move-only owner of message memory, with a ledger of what happens to every buffer. */
module DynamicMessage {
  import opened Errors
  import opened Descriptors

  /** Whether the initialiser completed on a buffer, and how often it was finalised and freed. */
  datatype Buffer = Buffer(initialised: bool, finalised: nat, freed: nat)

  const OWNED := Buffer(true, 0, 0)
  const RETIRED := Buffer(true, 1, 1)
  const ABANDONED := Buffer(false, 0, 1)

  /** Memory as the messages use it; a pointer is an index into `buffers`. */
  class Heap {
    var buffers: seq<Buffer>
    ghost var owners: set<Message>

    constructor ()
      ensures Valid() && owners == {} && buffers == []
    {
      buffers := [];
      owners := {};
    }

    /** Every initialised buffer that has not been retired has exactly one owner, and no buffer is
        finalised or freed more than once, or freed while owned, or lost. */
    ghost predicate Valid()
      reads this, owners
    {
      && (forall o :: o in owners ==>
            && (o.data.None? <==> o.members.None?)
            && (o.data.Some? ==> o.data.value < |buffers| && buffers[o.data.value] == OWNED))
      && (forall o, p :: o in owners && p in owners && o != p && o.data.Some? ==> o.data != p.data)
      && (forall b :: 0 <= b < |buffers| ==>
            || (buffers[b] == OWNED && exists o :: o in owners && o.data == Some(b))
            || buffers[b] == RETIRED
            || buffers[b] == ABANDONED)
    }

    method New() returns (b: nat)
      modifies this`buffers
      ensures b == |old(buffers)| && buffers == old(buffers) + [Buffer(false, 0, 0)]
    {
      b := |buffers|;
      buffers := buffers + [Buffer(false, 0, 0)];
    }

    /** Runs an initialiser, which may throw instead of completing. */
    method Init(b: nat, throws: bool)
      requires b < |buffers|
      modifies this`buffers
      ensures buffers == if throws then old(buffers) else old(buffers)[b := old(buffers)[b].(initialised := true)]
    {
      if !throws {
        buffers := buffers[b := buffers[b].(initialised := true)];
      }
    }

    method Fini(b: nat)
      requires b < |buffers|
      modifies this`buffers
      ensures buffers == old(buffers)[b := old(buffers)[b].(finalised := old(buffers)[b].finalised + 1)]
    {
      buffers := buffers[b := buffers[b].(finalised := buffers[b].finalised + 1)];
    }

    method Delete(b: nat)
      requires b < |buffers|
      modifies this`buffers
      ensures buffers == old(buffers)[b := old(buffers)[b].(freed := old(buffers)[b].freed + 1)]
    {
      buffers := buffers[b := buffers[b].(freed := buffers[b].freed + 1)];
    }
  }

  class Message {
    var members: Option<MessageDesc>
    var data: Option<nat>

    /** A message object before its constructor body has run. */
    constructor Unset()
      ensures members == None && data == None
    {
      members := None;
      data := None;
    }

    /** Takes the buffer of `other`, which is left empty. */
    constructor MoveFrom(heap: Heap, other: Message)
      requires heap.Valid() && other in heap.owners
      modifies heap`owners, other
      ensures heap.Valid() && heap.owners == old(heap.owners) + {this}
      ensures heap.buffers == old(heap.buffers)
      ensures data == old(other.data) && members == old(other.members)
      ensures other.data == None && other.members == None
    {
      members := other.members;
      data := other.data;
      new;
      other.members := None;
      other.data := None;
      heap.owners := heap.owners + {this};
      forall b | 0 <= b < |heap.buffers| && heap.buffers[b] == OWNED
        ensures exists o :: o in heap.owners && o.data == Some(b)
      {
        var o :| o in old(heap.owners) && old(o.data) == Some(b);
        assert o == other ==> this.data == Some(b);
      }
    }

    /** Finalises and frees the owned buffer, if any. */
    method Reset(heap: Heap)
      requires heap.Valid() && this in heap.owners
      modifies heap`buffers, this
      ensures heap.Valid()
      ensures data == None && members == None
      ensures heap.buffers ==
        if old(data).Some? then old(heap.buffers)[old(data).value := RETIRED] else old(heap.buffers)
    {
      if data.Some? && members.Some? {
        heap.Fini(data.value);
        heap.Delete(data.value);
      }
      data := None;
      members := None;
      forall b | 0 <= b < |heap.buffers| && heap.buffers[b] == OWNED
        ensures exists o :: o in heap.owners && o.data == Some(b)
      {
        var o :| o in heap.owners && old(o.data) == Some(b);
        assert o != this;
      }
    }

    /** Move assignment; assigning a message to itself changes nothing. */
    method MoveAssign(heap: Heap, other: Message)
      requires heap.Valid() && this in heap.owners && other in heap.owners
      modifies heap`buffers, this, other
      ensures heap.Valid()
      ensures data == old(other.data) && members == old(other.members)
      ensures this != other ==> other.data == None && other.members == None
      ensures heap.buffers ==
        if this != other && old(data).Some? then old(heap.buffers)[old(data).value := RETIRED]
        else old(heap.buffers)
    {
      if this != other {
        Reset(heap);
        label Emptied:
        members := other.members;
        data := other.data;
        other.members := None;
        other.data := None;
        forall b | 0 <= b < |heap.buffers| && heap.buffers[b] == OWNED
          ensures exists o :: o in heap.owners && o.data == Some(b)
        {
          var o :| o in heap.owners && old@Emptied(o.data) == Some(b);
          assert (if o == other then this else o).data == Some(b);
        }
      }
    }

    method Destroy(heap: Heap)
      requires heap.Valid() && this in heap.owners
      modifies heap, this
      ensures heap.Valid() && heap.owners == old(heap.owners) - {this}
      ensures heap.buffers ==
        if old(data).Some? then old(heap.buffers)[old(data).value := RETIRED] else old(heap.buffers)
    {
      Reset(heap);
      heap.owners := heap.owners - {this};
      forall b | 0 <= b < |heap.buffers| && heap.buffers[b] == OWNED
        ensures exists o :: o in heap.owners && o.data == Some(b)
      {
        var o :| o in old(heap.owners) && o.data == Some(b);
        assert o != this;
      }
    }
  }

  predicate IsConstructible(desc: Option<MessageDesc>) {
    desc.Some? && desc.value.hasInit && desc.value.hasFini && desc.value.size != 0
  }

  /** Construction: an incomplete descriptor allocates nothing; an initialiser that throws leaves a
      buffer that is freed without being finalised; otherwise the message owns a new buffer. */
  method Construct(heap: Heap, desc: Option<MessageDesc>, initThrows: bool) returns (r: Result<Message>)
    requires heap.Valid()
    modifies heap
    ensures heap.Valid()
    ensures r.Ok? <==> IsConstructible(desc) && !initThrows
    ensures r.Ok? ==>
      && fresh(r.value) && heap.owners == old(heap.owners) + {r.value}
      && r.value.data == Some(|old(heap.buffers)|) && r.value.members == desc
      && heap.buffers == old(heap.buffers) + [OWNED]
    ensures r.Err? ==> heap.owners == old(heap.owners)
    ensures r.Err? ==>
      if IsConstructible(desc) then r.error == UntypedException && heap.buffers == old(heap.buffers) + [ABANDONED]
      else r.error == PermanentError(TypeSupportInvalid) && heap.buffers == old(heap.buffers)
  {
    if !IsConstructible(desc) {
      return Err(PermanentError(TypeSupportInvalid));
    }
    var b := heap.New();
    heap.Init(b, initThrows);
    if initThrows {
      heap.Delete(b);
      assert heap.buffers == old(heap.buffers) + [ABANDONED];
      forall c | 0 <= c < |heap.buffers| && heap.buffers[c] == OWNED
        ensures exists o :: o in heap.owners && o.data == Some(c)
      {
        assert old(heap.buffers)[c] == OWNED;
      }
      return Err(UntypedException);
    }
    var m := new Message.Unset();
    m.members := desc;
    m.data := Some(b);
    heap.owners := heap.owners + {m};
    assert heap.buffers == old(heap.buffers) + [OWNED];
    forall c | 0 <= c < |heap.buffers| && heap.buffers[c] == OWNED
      ensures exists o :: o in heap.owners && o.data == Some(c)
    {
      if c == b {
        assert m.data == Some(c);
      } else {
        assert old(heap.buffers)[c] == OWNED;
        var o :| o in old(heap.owners) && old(o.data) == Some(c);
        assert o.data == Some(c);
      }
    }
    return Ok(m);
  }

  datatype Command =
    | Declare(x: nat, desc: Option<MessageDesc>, initThrows: bool)
    | MoveInto(x: nat, y: nat)
    | Assign(x: nat, y: nat)
    | EndScope(x: nat)

  /** The variables of a program hold distinct messages, and exactly the given ones. */
  ghost predicate Binds(vars: map<nat, Message>, messages: set<Message>) {
    && (forall x :: x in vars ==> vars[x] in messages)
    && (forall o :: o in messages ==> exists x :: x in vars && vars[x] == o)
    && (forall x, y :: x in vars && y in vars && x != y ==> vars[x] != vars[y])
  }

  lemma Bind(vars: map<nat, Message>, messages: set<Message>, x: nat, m: Message)
    requires Binds(vars, messages) && x !in vars && m !in messages
    ensures Binds(vars[x := m], messages + {m})
  {
    var after := vars[x := m];
    forall o | o in messages + {m} ensures exists y :: y in after && after[y] == o {
      if o == m {
        assert after[x] == o;
      } else {
        var y :| y in vars && vars[y] == o;
        assert after[y] == o;
      }
    }
  }

  lemma IsBound(vars: map<nat, Message>, messages: set<Message>, x: nat)
    requires Binds(vars, messages) && x in vars
    ensures vars[x] in messages
    ensures forall z :: z in vars && z != x ==> vars[z] != vars[x]
  {
  }

  lemma OwnsLiveData(heap: Heap, m: Message)
    requires heap.Valid() && m in heap.owners
    ensures m.data.Some? ==> m.data.value < |heap.buffers| && heap.buffers[m.data.value] == OWNED
  {
  }

  lemma Unbind(vars: map<nat, Message>, messages: set<Message>, x: nat)
    requires Binds(vars, messages) && x in vars
    ensures Binds(vars - {x}, messages - {vars[x]})
  {
    var after := vars - {x};
    forall o | o in messages - {vars[x]} ensures exists y :: y in after && after[y] == o {
      var y :| y in vars && vars[y] == o;
      assert after[y] == o;
    }
  }

  // ---- The ledger of a program, with no objects in it ----

  /** The buffers obtained so far, and the buffer each variable in scope owns, if any. */
  datatype Ledger = Ledger(buffers: seq<Buffer>, vars: map<nat, Option<nat>>)

  /** Every owned buffer has exactly one owner, owners own owned buffers, and every other buffer has
      been freed once: finalised first if its initialiser completed, and not otherwise. */
  ghost predicate WellOwned(l: Ledger) {
    && (forall x :: x in l.vars && l.vars[x].Some? ==>
          l.vars[x].value < |l.buffers| && l.buffers[l.vars[x].value] == OWNED)
    && (forall x, y :: x in l.vars && y in l.vars && x != y && l.vars[x].Some? ==> l.vars[x] != l.vars[y])
    && (forall b :: 0 <= b < |l.buffers| ==>
          || (l.buffers[b] == OWNED && exists x :: x in l.vars && l.vars[x] == Some(b))
          || l.buffers[b] == RETIRED
          || l.buffers[b] == ABANDONED)
  }

  function Retire(buffers: seq<Buffer>, data: Option<nat>): (r: seq<Buffer>)
    ensures |r| == |buffers|
  {
    if data.Some? && data.value < |buffers| then buffers[data.value := RETIRED] else buffers
  }

  /** What a command does to the ledger.  A command that the scopes do not allow does nothing. */
  function Execute(l: Ledger, c: Command): Ledger {
    match c
    case Declare(x, desc, initThrows) =>
      if x in l.vars || !IsConstructible(desc) then l
      else if initThrows then l.(buffers := l.buffers + [ABANDONED])
      else Ledger(l.buffers + [OWNED], l.vars[x := Some(|l.buffers|)])
    case MoveInto(x, y) =>
      if x in l.vars || y !in l.vars then l
      else l.(vars := l.vars[y := None][x := l.vars[y]])
    case Assign(x, y) =>
      if x !in l.vars || y !in l.vars || x == y then l
      else Ledger(Retire(l.buffers, l.vars[x]), l.vars[y := None][x := l.vars[y]])
    case EndScope(x) =>
      if x !in l.vars then l
      else Ledger(Retire(l.buffers, l.vars[x]), l.vars - {x})
  }

  function ExecuteAll(program: seq<Command>): Ledger {
    if program == [] then Ledger([], map[])
    else Execute(ExecuteAll(program[..|program| - 1]), program[|program| - 1])
  }

  lemma AddBuffer(l: Ledger, x: nat)
    requires WellOwned(l) && x !in l.vars
    ensures WellOwned(l.(buffers := l.buffers + [ABANDONED]))
    ensures WellOwned(Ledger(l.buffers + [OWNED], l.vars[x := Some(|l.buffers|)]))
  {
    var after := Ledger(l.buffers + [OWNED], l.vars[x := Some(|l.buffers|)]);
    assert after.vars[x] == Some(|l.buffers|);
    forall b | 0 <= b < |l.buffers| && l.buffers[b] == OWNED
      ensures exists y :: y in l.vars && y in after.vars && l.vars[y] == after.vars[y] == Some(b)
    {
      var y :| y in l.vars && l.vars[y] == Some(b);
      assert after.vars[y] == Some(b);
    }
  }

  /** A variable that owns nothing, or does not exist yet, takes over what another one owns. */
  lemma TransferOwner(l: Ledger, x: nat, y: nat)
    requires WellOwned(l) && y in l.vars && x != y && (x in l.vars ==> l.vars[x] == None)
    ensures WellOwned(l.(vars := l.vars[y := None][x := l.vars[y]]))
  {
    var vars := l.vars[y := None][x := l.vars[y]];
    forall b | 0 <= b < |l.buffers| && l.buffers[b] == OWNED
      ensures exists z :: z in vars && vars[z] == Some(b)
    {
      var z :| z in l.vars && l.vars[z] == Some(b);
      assert vars[if z == y then x else z] == Some(b);
    }
    forall u, v | u in vars && v in vars && u != v && vars[u].Some? ensures vars[u] != vars[v] {
      assert l.vars[if u == x then y else u] == vars[u];
      assert vars[v].Some? ==> l.vars[if v == x then y else v] == vars[v];
    }
  }

  lemma RetireOwner(l: Ledger, x: nat)
    requires WellOwned(l) && x in l.vars
    ensures WellOwned(Ledger(Retire(l.buffers, l.vars[x]), l.vars[x := None]))
    ensures WellOwned(Ledger(Retire(l.buffers, l.vars[x]), l.vars - {x}))
  {
    var retired, emptied, dropped := Retire(l.buffers, l.vars[x]), l.vars[x := None], l.vars - {x};
    forall b | 0 <= b < |retired| && retired[b] == OWNED
      ensures exists z :: z in l.vars && z != x && l.vars[z] == Some(b)
    {
      assert l.buffers[b] == OWNED;
      var z :| z in l.vars && l.vars[z] == Some(b);
      assert z != x;
    }
    forall b | 0 <= b < |retired| && retired[b] == OWNED
      ensures exists z :: z in emptied && emptied[z] == Some(b)
      ensures exists z :: z in dropped && dropped[z] == Some(b)
    {
      var z :| z in l.vars && z != x && l.vars[z] == Some(b);
      assert emptied[z] == Some(b) && dropped[z] == Some(b);
    }
  }

  lemma ExecuteKeepsOwners(l: Ledger, c: Command)
    requires WellOwned(l)
    ensures WellOwned(Execute(l, c))
  {
    hide WellOwned;
    if c.Declare? && c.x !in l.vars {
      AddBuffer(l, c.x);
    } else if c.MoveInto? && c.x !in l.vars && c.y in l.vars {
      TransferOwner(l, c.x, c.y);
    } else if c.Assign? && c.x in l.vars && c.y in l.vars && c.x != c.y {
      RetireOwner(l, c.x);
      var emptied := Ledger(Retire(l.buffers, l.vars[c.x]), l.vars[c.x := None]);
      TransferOwner(emptied, c.x, c.y);
      assert emptied.vars[c.y := None][c.x := emptied.vars[c.y]] == l.vars[c.y := None][c.x := l.vars[c.y]];
    } else if c.EndScope? && c.x in l.vars {
      RetireOwner(l, c.x);
    }
  }

  /** After every prefix of every program, each owned buffer has exactly one owner. */
  lemma {:induction false} PrefixesAreWellOwned(program: seq<Command>, n: nat)
    requires n <= |program|
    ensures WellOwned(ExecuteAll(program[..n]))
    decreases n
  {
    if 0 < n {
      PrefixesAreWellOwned(program, n - 1);
      assert program[..n][..n - 1] == program[..n - 1];
      ExecuteKeepsOwners(ExecuteAll(program[..n - 1]), program[n - 1]);
    }
  }

  // ---- What becomes of every buffer ----

  /** The variables in scope after a program. */
  function InScope(program: seq<Command>): set<nat> {
    if program == [] then {}
    else
      var before := InScope(program[..|program| - 1]);
      match program[|program| - 1]
      case Declare(x, desc, initThrows) =>
        if IsConstructible(desc) && !initThrows then before + {x} else before
      case MoveInto(x, y) => if y in before then before + {x} else before
      case Assign(_, _) => before
      case EndScope(x) => before - {x}
  }

  /** The fate of every buffer a program obtains: one for each construction that got as far as
      allocating, never finalised if the initialiser threw, finalised and freed otherwise. */
  function Fates(program: seq<Command>): seq<Buffer> {
    if program == [] then []
    else
      var before, c := program[..|program| - 1], program[|program| - 1];
      if c.Declare? && c.x !in InScope(before) && IsConstructible(c.desc)
      then Fates(before) + [if c.initThrows then ABANDONED else RETIRED]
      else Fates(before)
  }

  /** Buffers once their owners are gone. */
  function Settled(buffers: seq<Buffer>): (r: seq<Buffer>)
    ensures |r| == |buffers|
  {
    seq(|buffers|, i requires 0 <= i < |buffers| => if buffers[i] == OWNED then RETIRED else buffers[i])
  }

  lemma RetiringSettles(buffers: seq<Buffer>, data: Option<nat>)
    requires data.Some? && data.value < |buffers| ==> buffers[data.value] == OWNED
    ensures Settled(Retire(buffers, data)) == Settled(buffers)
  {
  }

  /** Moves and assignments decide when a buffer is retired, not what becomes of it. */
  lemma {:induction false} FatesExactly(program: seq<Command>)
    ensures ExecuteAll(program).vars.Keys == InScope(program)
    ensures Settled(ExecuteAll(program).buffers) == Fates(program)
    decreases |program|
  {
    if program != [] {
      var before, c := program[..|program| - 1], program[|program| - 1];
      FatesExactly(before);
      PrefixesAreWellOwned(before, |before|);
      assert before[..|before|] == before;
      var l := ExecuteAll(before);
      if (c.Assign? || c.EndScope?) && c.x in l.vars {
        RetiringSettles(l.buffers, l.vars[c.x]);
      }
      if c.Declare? {
        assert Settled(l.buffers + [ABANDONED]) == Settled(l.buffers) + [ABANDONED];
        assert Settled(l.buffers + [OWNED]) == Settled(l.buffers) + [RETIRED];
      }
    }
  }

  // ---- Programs as they run ----

  /** The heap and the variables are what the ledger says. */
  ghost predicate Tracks(l: Ledger, heap: Heap, vars: map<nat, Message>)
    reads heap, vars.Values
  {
    && heap.buffers == l.buffers
    && vars.Keys == l.vars.Keys
    && (forall x :: x in vars ==> vars[x].data == l.vars[x])
  }

  /** Runs any program over message variables: constructions that may throw, move constructions, move
      assignments (a variable to itself included) and ends of scope, in any order.  Whatever the
      program, heap and variables end as its ledger says. */
  method RunCommands(program: seq<Command>) returns (heap: Heap, vars: map<nat, Message>)
    ensures fresh(heap) && fresh(heap.owners)
    ensures heap.Valid() && Binds(vars, heap.owners)
    ensures Tracks(ExecuteAll(program), heap, vars)
  {
    heap := new Heap();
    vars := map[];
    for i := 0 to |program|
      invariant fresh(heap) && fresh(heap.owners)
      invariant heap.Valid() && Binds(vars, heap.owners)
      invariant Tracks(ExecuteAll(program[..i]), heap, vars)
    {
      assert program[..i + 1][..i] == program[..i];
      vars := RunCommand(program[i], vars, heap, ExecuteAll(program[..i]));
    }
    assert program[..|program|] == program;
  }

  /** A whole program: at its end every variable still in scope is destroyed.  Then the heap holds
      exactly one buffer for each construction that allocated, each freed once, and finalised once if
      and only if its initialiser completed. */
  method RunProgram(program: seq<Command>) returns (heap: Heap)
    ensures fresh(heap) && heap.Valid() && heap.owners == {}
    ensures heap.buffers == Fates(program)
  {
    var vars: map<nat, Message>;
    heap, vars := RunCommands(program);
    EndAllScopes(vars, heap);
    FatesExactly(program);
  }

  method EndAllScopes(vars: map<nat, Message>, heap: Heap)
    requires heap.Valid() && Binds(vars, heap.owners)
    modifies heap, heap.owners
    ensures heap.Valid() && heap.owners == {}
    ensures heap.buffers == Settled(old(heap.buffers))
    decreases |vars|
  {
    if vars != map[] {
      var x :| x in vars;
      RetiringSettles(heap.buffers, vars[x].data);
      vars[x].Destroy(heap);
      Unbind(vars, old(heap.owners), x);
      assert |vars - {x}| < |vars|;
      EndAllScopes(vars - {x}, heap);
    }
  }

  /** One command does to the heap and the variables what it does to the ledger. */
  method RunCommand(c: Command, vars: map<nat, Message>, heap: Heap, ghost l: Ledger)
    returns (after: map<nat, Message>)
    requires heap.Valid() && Binds(vars, heap.owners) && Tracks(l, heap, vars)
    modifies heap, heap.owners
    ensures heap.Valid() && Binds(after, heap.owners)
    ensures fresh(heap.owners - old(heap.owners))
    ensures Tracks(Execute(l, c), heap, after)
  {
    after := vars;
    match c
    case Declare(x, desc, initThrows) =>
      if x !in vars {
        after := RunDeclare(x, desc, initThrows, vars, heap, l);
      }
    case MoveInto(x, y) =>
      if x !in vars && y in vars {
        after := RunMove(x, y, vars, heap, l);
      }
    case Assign(x, y) =>
      if x in vars && y in vars {
        RunAssign(x, y, vars, heap, l);
      }
    case EndScope(x) =>
      if x in vars {
        after := RunEnd(x, vars, heap, l);
      }
  }

  method RunDeclare(x: nat, desc: Option<MessageDesc>, initThrows: bool, vars: map<nat, Message>, heap: Heap,
      ghost l: Ledger)
    returns (after: map<nat, Message>)
    requires heap.Valid() && Binds(vars, heap.owners) && Tracks(l, heap, vars) && x !in vars
    modifies heap
    ensures heap.Valid() && Binds(after, heap.owners)
    ensures fresh(heap.owners - old(heap.owners))
    ensures Tracks(Execute(l, Declare(x, desc, initThrows)), heap, after)
  {
    after := vars;
    var r := Construct(heap, desc, initThrows);
    if r.Ok? {
      after := vars[x := r.value];
      Bind(vars, old(heap.owners), x, r.value);
    }
  }

  method RunMove(x: nat, y: nat, vars: map<nat, Message>, heap: Heap, ghost l: Ledger)
    returns (after: map<nat, Message>)
    requires heap.Valid() && Binds(vars, heap.owners) && Tracks(l, heap, vars) && x !in vars && y in vars
    modifies heap, heap.owners
    ensures heap.Valid() && Binds(after, heap.owners)
    ensures fresh(heap.owners - old(heap.owners))
    ensures Tracks(Execute(l, MoveInto(x, y)), heap, after)
  {
    hide Binds, Heap.Valid;
    IsBound(vars, heap.owners, y);
    var m := new Message.MoveFrom(heap, vars[y]);
    after := vars[x := m];
    Bind(vars, old(heap.owners), x, m);
  }

  method RunAssign(x: nat, y: nat, vars: map<nat, Message>, heap: Heap, ghost l: Ledger)
    requires heap.Valid() && Binds(vars, heap.owners) && Tracks(l, heap, vars) && x in vars && y in vars
    modifies heap, heap.owners
    ensures heap.Valid() && heap.owners == old(heap.owners)
    ensures Tracks(Execute(l, Assign(x, y)), heap, vars)
  {
    hide Binds, Heap.Valid;
    IsBound(vars, heap.owners, x);
    OwnsLiveData(heap, vars[x]);
    IsBound(vars, heap.owners, y);
    vars[x].MoveAssign(heap, vars[y]);
  }

  method RunEnd(x: nat, vars: map<nat, Message>, heap: Heap, ghost l: Ledger) returns (after: map<nat, Message>)
    requires heap.Valid() && Binds(vars, heap.owners) && Tracks(l, heap, vars) && x in vars
    modifies heap, heap.owners
    ensures heap.Valid() && Binds(after, heap.owners)
    ensures fresh(heap.owners - old(heap.owners))
    ensures Tracks(Execute(l, EndScope(x)), heap, after)
  {
    hide Binds, Heap.Valid;
    IsBound(vars, heap.owners, x);
    OwnsLiveData(heap, vars[x]);
    vars[x].Destroy(heap);
    after := vars - {x};
    Unbind(vars, old(heap.owners), x);
  }
}
