/** The lifecycle callbacks: the class that holds the flags, and what holds of the flags when
    callbacks interleave at every atomic step. */
module Lifecycle {
  import opened Errors
  import opened Wire
  import opened NativeContext
  import opened Capabilities
  import opened Requests
  import opened Adapter
  import opened AdapterTheorems

  /** The adapter's state: an immutable context and three flags. */
  class ToolsAdapter {
    const env: Environment
    const nativeContext: Context
    var instanceSpecApplied: bool
    var publishEnabled: bool
    var serviceEnabled: bool

    constructor (env: Environment, nativeContext: Context)
      ensures this.env == env && this.nativeContext == nativeContext && Current() == NO_FLAGS
    {
      this.env := env;
      this.nativeContext := nativeContext;
      instanceSpecApplied, publishEnabled, serviceEnabled := false, false, false;
    }

    function Current(): Flags
      reads this
    {
      Flags(instanceSpecApplied, publishEnabled, serviceEnabled)
    }

    method ApplyInstanceSpec(spec: InstanceSpec) returns (ok: bool)
      modifies this
      ensures ok <==> FromInstanceSpec(env, spec) == Ok(nativeContext)
      ensures Current() == RunAlone(env, nativeContext, old(Current()), Applying(spec)).0
    {
      var c := FromInstanceSpec(env, spec);
      if c.Err? || c.value != nativeContext {
        return false;
      }
      instanceSpecApplied := true;
      return true;
    }

    method ClearInstanceSpec()
      modifies this
      ensures Current() == NO_FLAGS
      ensures Current() == RunAlone(env, nativeContext, old(Current()), ClearingPublish).0
    {
      StopPublishCapability();
      StopServiceCapability();
      instanceSpecApplied := false;
    }

    method StartPublishCapability(spec: InstanceSpec, grant: EnabledCapability) returns (ok: bool)
      modifies this
      ensures ok <==> old(instanceSpecApplied) && FromInstanceSpec(env, spec) == Ok(nativeContext)
                      && grant == EnabledCapability(env.publish.capabilityId, env.publish.contractVersion,
                                                    env.publish.contractDigest, [env.publish.endpointId])
                      && !old(publishEnabled)
      ensures (Current(), ok) == RunAlone(env, nativeContext, old(Current()), Loading(Publish, spec, grant))
    {
      if !instanceSpecApplied || FromInstanceSpec(env, spec) != Ok(nativeContext)
         || !GrantMatches(grant, env.publish) {
        return false;
      }
      if publishEnabled {
        return false;
      }
      publishEnabled := true;
      return true;
    }

    method StopPublishCapability()
      modifies this`publishEnabled
      ensures !publishEnabled
      ensures Current() == RunAlone(env, nativeContext, old(Current()), Stopping(Publish)).0
    {
      publishEnabled := false;
    }

    method StartServiceCapability(spec: InstanceSpec, grant: EnabledCapability) returns (ok: bool)
      modifies this
      ensures ok <==> old(instanceSpecApplied) && FromInstanceSpec(env, spec) == Ok(nativeContext)
                      && grant == EnabledCapability(env.service.capabilityId, env.service.contractVersion,
                                                    env.service.contractDigest, [env.service.endpointId])
                      && !old(serviceEnabled)
      ensures (Current(), ok) == RunAlone(env, nativeContext, old(Current()), Loading(Service, spec, grant))
    {
      if !instanceSpecApplied || FromInstanceSpec(env, spec) != Ok(nativeContext)
         || !GrantMatches(grant, env.service) {
        return false;
      }
      if serviceEnabled {
        return false;
      }
      serviceEnabled := true;
      return true;
    }

    method StopServiceCapability()
      modifies this`serviceEnabled
      ensures !serviceEnabled
      ensures Current() == RunAlone(env, nativeContext, old(Current()), Stopping(Service)).0
    {
      serviceEnabled := false;
    }
  }

  /** How many atomic steps a callback still has at most. */
  function StepsLeft(cb: Callback): nat {
    match cb
    case ClearingPublish => 3
    case ClearingService => 2
    case Loading(_, _, _) => 2
    case _ => 1
  }

  /** The flags after the callback has run to its end by itself, and whether it started something. */
  function RunAlone(env: Environment, c: Context, f: Flags, cb: Callback): (Flags, bool)
    decreases StepsLeft(cb)
  {
    var (after, next, started) := StepCallback(env, c, f, cb);
    if next.None? then (after, started) else RunAlone(env, c, after, next.value)
  }

  // ---- Exclusive activation ----

  function One(b: bool): nat {
    if b then 1 else 0
  }

  predicate CountersMatch(s: State) {
    && s.publish.starts == s.publish.stops + One(s.shared.flags.publish)
    && s.service.starts == s.service.stops + One(s.shared.flags.service)
  }

  lemma ActKeepsCounters(p: Process, s: State, a: Action)
    requires CountersMatch(s) && CanAct(p, s, a)
    ensures CountersMatch(Act(p, s, a))
  {
    hide StepOp, FromInstanceSpec, GrantMatches;
  }

  /** Whatever callbacks race, successful starts of a capability are its effective stops, plus one
      if it is enabled now. */
  lemma {:induction false} ActivationIsExclusive(p: Process, s: State, run: seq<Action>)
    requires CountersMatch(s) && IsRun(p, s, run)
    ensures CountersMatch(After(p, s, run))
    decreases |run|
  {
    hide CanAct, Act, CountersMatch;
    if run != [] {
      ActKeepsCounters(p, s, run[0]);
      ActivationIsExclusive(p, Act(p, s, run[0]), run[1..]);
    }
  }

  /** The same in every reachable state: the counts start level. */
  lemma ActivationInEveryState(p: Process, s: State)
    requires Reachable(p, s)
    ensures CountersMatch(s)
  {
    var steady: nat, system: int, run: seq<Action> :|
      IsRun(p, Initial(steady, system), run) && After(p, Initial(steady, system), run) == s;
    ActivationIsExclusive(p, Initial(steady, system), run);
  }

  /** Among any number of racing starts with no effective stop in between, at most one succeeds. */
  lemma AtMostOneStartWins(p: Process, s: State, run: seq<Action>)
    requires CountersMatch(s) && IsRun(p, s, run)
    ensures After(p, s, run).publish.stops == s.publish.stops ==>
      s.publish.starts <= After(p, s, run).publish.starts + One(s.shared.flags.publish) <= s.publish.starts + 1
    ensures After(p, s, run).service.stops == s.service.stops ==>
      s.service.starts <= After(p, s, run).service.starts + One(s.shared.flags.service) <= s.service.starts + 1
  {
    ActivationIsExclusive(p, s, run);
    StartsGrow(p, s, run);
  }

  lemma {:induction false} StartsGrow(p: Process, s: State, run: seq<Action>)
    requires IsRun(p, s, run)
    ensures s.publish.starts <= After(p, s, run).publish.starts
    ensures s.service.starts <= After(p, s, run).service.starts
    decreases |run|
  {
    hide StepOp, FromInstanceSpec, GrantMatches, StepCallback;
    if run != [] {
      StartsGrow(p, Act(p, s, run[0]), run[1..]);
    }
  }

  // ---- Who changes a flag ----

  /** The next step of the callback is a start or stop step of the capability, or a clear step of its
      flag. */
  predicate Concerns(cb: Callback, kind: Kind) {
    || cb == Claiming(kind) || cb == Stopping(kind)
    || (if kind.Publish? then cb.ClearingPublish? else cb.ClearingService?)
  }

  /** Somewhere in the run a callback takes such a step. */
  ghost predicate RunConcerns(p: Process, s: State, run: seq<Action>, kind: Kind)
    requires IsRun(p, s, run)
    decreases |run|
  {
    run != [] &&
      (|| (run[0].StepThread? && Concerns(s.callbacks[run[0].thread], kind))
       || RunConcerns(p, Act(p, s, run[0]), run[1..], kind))
  }

  lemma ActLeavesFlag(p: Process, s: State, a: Action, kind: Kind)
    requires CanAct(p, s, a)
    requires a.StepThread? ==> !Concerns(s.callbacks[a.thread], kind)
    ensures Enabled(Act(p, s, a).shared.flags, kind) == Enabled(s.shared.flags, kind)
  {
    hide StepOp, CanStep, FromInstanceSpec, GrantMatches, ValidResponse;
  }

  /** A capability's flag differs at two points of a run only if one of its own start or stop steps,
      or the clear step of its flag, lies between; whatever else happens leaves it alone. */
  lemma {:induction false} CapabilitiesIndependent(p: Process, s: State, run: seq<Action>, kind: Kind)
    requires IsRun(p, s, run)
    ensures Enabled(After(p, s, run).shared.flags, kind) != Enabled(s.shared.flags, kind) ==>
      RunConcerns(p, s, run, kind)
    decreases |run|
  {
    hide CanAct, Act, Enabled;
    if run != [] && !RunConcerns(p, s, run, kind) {
      ActLeavesFlag(p, s, run[0], kind);
      CapabilitiesIndependent(p, Act(p, s, run[0]), run[1..], kind);
    }
  }

  // ---- Admission ----

  predicate IsClear(cb: Callback) {
    cb.ClearingPublish? || cb.ClearingService? || cb.ClearingApplied?
  }

  predicate IsStart(cb: Callback) {
    cb.Loading? || cb.Claiming?
  }

  /** A clear is in progress together with a start that has passed its checks. */
  predicate Overlaps(s: State) {
    exists t, u :: t in s.callbacks && u in s.callbacks && IsClear(s.callbacks[t]) && s.callbacks[u].Claiming?
  }

  /** No clear is in progress together with a start: what a caller of the callbacks can see to.
      Starts, stops and applies may overlap as they like, and so may clears with stops and applies. */
  predicate Apart(s: State) {
    !exists t, u :: t in s.callbacks && u in s.callbacks && IsClear(s.callbacks[t]) && IsStart(s.callbacks[u])
  }

  lemma ApartDoesNotOverlap(s: State)
    requires Apart(s)
    ensures !Overlaps(s)
  {
    forall t, u | t in s.callbacks && u in s.callbacks && IsClear(s.callbacks[t])
      ensures !s.callbacks[u].Claiming?
    {
      assert !IsStart(s.callbacks[u]);
    }
  }

  /** No state the run goes through has such an overlap. */
  ghost predicate NeverOverlaps(p: Process, s: State, run: seq<Action>)
    requires IsRun(p, s, run)
    decreases |run|
  {
    !Overlaps(s) && (run != [] ==> NeverOverlaps(p, Act(p, s, run[0]), run[1..]))
  }

  /** Clears and starts are kept apart throughout. */
  ghost predicate IsSerialised(p: Process, s: State, run: seq<Action>)
    requires IsRun(p, s, run)
    decreases |run|
  {
    Apart(s) && (run != [] ==> IsSerialised(p, Act(p, s, run[0]), run[1..]))
  }

  lemma {:induction false} SerialisedNeverOverlaps(p: Process, s: State, run: seq<Action>)
    requires IsRun(p, s, run) && IsSerialised(p, s, run)
    ensures NeverOverlaps(p, s, run)
    decreases |run|
  {
    hide CanAct, Act, Apart, Overlaps;
    ApartDoesNotOverlap(s);
    if run != [] {
      SerialisedNeverOverlaps(p, Act(p, s, run[0]), run[1..]);
    }
  }

  predicate EnabledImpliesApplied(f: Flags) {
    f.publish || f.service ==> f.applied
  }

  /** What a callback in progress has seen or done. */
  predicate CallbackHolds(f: Flags, cb: Callback) {
    && (cb.Claiming? ==> f.applied)
    && (cb.ClearingService? ==> !f.publish)
    && (cb.ClearingApplied? ==> !f.publish && !f.service)
  }

  ghost predicate AdmissionInv(s: State) {
    && EnabledImpliesApplied(s.shared.flags)
    && (forall t :: t in s.callbacks ==> CallbackHolds(s.shared.flags, s.callbacks[t]))
    && (forall id :: id in s.ops && s.ops[id].admitted.Some? ==>
          s.ops[id].admitted.value.applied && Enabled(s.ops[id].admitted.value, s.ops[id].kind))
  }

  lemma StepOpAdmission(env: Environment, c: Context, sh: Shared, op: Op, ev: Event)
    ensures var after := StepOp(env, c, sh, op, ev);
      && after.kind == op.kind
      && (after.admitted == op.admitted || (after.admitted == Some(sh.flags) && Enabled(sh.flags, op.kind)))
  {
    hide Validate, StepPreparing, StepWaiting, StepFinalPoll, StepDispatching, StepReplying, StepFinishing;
  }

  lemma ActKeepsAdmission(p: Process, s: State, a: Action)
    requires AdmissionInv(s) && CanAct(p, s, a) && !Overlaps(s)
    ensures AdmissionInv(Act(p, s, a))
  {
    hide StepOp, FromInstanceSpec, GrantMatches, ValidResponse, CanStep;
    if a.Step? {
      StepOpAdmission(p.env, p.context, s.shared, s.ops[a.id], a.ev);
    }
  }

  /** Unless a clear overlaps a start that has passed its checks, an enabled capability implies an
      applied spec after every single step, and every operation that got past its flag was admitted
      under both. */
  lemma {:induction false} AdmissionHolds(p: Process, s: State, run: seq<Action>)
    requires AdmissionInv(s) && IsRun(p, s, run) && NeverOverlaps(p, s, run)
    ensures AdmissionInv(After(p, s, run))
    decreases |run|
  {
    hide CanAct, Act, AdmissionInv, Overlaps;
    if run != [] {
      ActKeepsAdmission(p, s, run[0]);
      AdmissionHolds(p, Act(p, s, run[0]), run[1..]);
    }
  }

  /** Whatever runs concurrently, and however callbacks overlap as long as no clear overlaps a start
      that has passed its checks: an operation that ever dispatched was admitted while its capability
      was enabled and a spec of the process's one context was applied, for a subject in that
      context. */
  lemma DispatchedWasAdmitted(p: Process, steady: nat, system: int, run: seq<Action>, id: nat)
    requires IsRun(p, Initial(steady, system), run) && NeverOverlaps(p, Initial(steady, system), run)
    ensures EnabledImpliesApplied(After(p, Initial(steady, system), run).shared.flags)
    ensures var ops := After(p, Initial(steady, system), run).ops;
      id in ops && 1 <= ops[id].dispatches ==>
        && ops[id].admitted.Some?
        && ops[id].admitted.value.applied && Enabled(ops[id].admitted.value, ops[id].kind)
        && IsAbout(p.context, ops[id].request)
  {
    hide IsRun, NeverOverlaps, After;
    var s := After(p, Initial(steady, system), run);
    AdmissionHolds(p, Initial(steady, system), run);
    assert Reachable(p, s);
    if id in s.ops {
      DispatchIsGuarded(p, s, id);
    }
  }

  /** The applied flag is only ever set by a spec that names the process's context. */
  lemma AppliedNamesTheContext(env: Environment, c: Context, f: Flags, cb: Callback)
    requires !f.applied && StepCallback(env, c, f, cb).0.applied
    ensures cb.Applying? && FromInstanceSpec(env, cb.spec) == Ok(c)
    ensures cb.spec.scope == Some(CanonicalScope(c))
  {
    SpecNamesItsContext(env, cb.spec);
  }
}
