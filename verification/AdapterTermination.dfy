/** Every operation ends: a bound on the steps it takes, over every interleaving. */
module AdapterTermination {
  import opened Errors
  import opened Descriptors
  import opened FlatDecode
  import opened Wire
  import opened Requests
  import opened Adapter
  import opened AdapterSafety
  import opened AdapterTheorems

  /** A bound on the steps behind an operation that has not slept or polled. */
  function Offset(pc: Pc): nat {
    match pc
    case Entered => 0
    case Admitted => 1
    case EarlyCancel => 2
    case EarlyDeadline => 3
    case Preparing => 4
    case Sleeping(_) => 4
    case Waiting => 5
    case WaitClock => 6
    case WaitCancel => 7
    case Counting => 7
    case WaitDeadline => 8
    case LastCancel => 8
    case WaitExpired => 9
    case LastDeadline => 9
    case Starting => 10
    case ReplyCancel => 10
    case ReplyTime => 11
    case RemovingCancelled => 11
    case Dispatching => 11
    case AwaitingReply(_) => 12
    case RemovingTimedOut => 12
    case Getting => 13
    case Projecting => 14
    case Reporting => 15
    case Done(_) => 16
  }

  function Spent(op: Op): nat {
    Offset(op.pc) + 6 * op.waitPolls + 3 * op.replyPolls
  }

  function SpentBy(s: State, id: nat): nat {
    if id in s.ops then Spent(s.ops[id]) else 0
  }

  /** The number of steps an operation takes in a run. */
  function StepsOf(run: seq<Action>, id: nat): nat {
    if run == [] then 0
    else (if run[0].Step? && run[0].id == id then 1 else 0) + StepsOf(run[1..], id)
  }

  lemma AdmissionSpends(p: Process, sh: Shared, op: Op)
    requires IsAdmission(op.pc)
    ensures Spent(op) < Spent(StepAdmission(p.env, p.context, sh, op))
  {
    hide Validate;
  }

  lemma PreparingSpends(sh: Shared, op: Op, ev: Event)
    requires op.pc.Preparing?
    ensures Spent(op) < Spent(StepPreparing(sh, op, ev))
  {
    hide ValidLoaded, DecodeMessage;
  }

  lemma WaitingSpends(sh: Shared, op: Op, ev: Event)
    requires IsWaiting(op.pc)
    ensures Spent(op) < Spent(StepWaiting(sh, op, ev))
  {
    hide WaitNanos, FailureOf, Offset;
    var after := StepWaiting(sh, op, ev);
    assert after.replyPolls == op.replyPolls;
    assert after.waitPolls == op.waitPolls + (if after.pc.Sleeping? then 1 else 0);
    WaitAdvances(op.pc, after.pc);
  }

  lemma WaitAdvances(before: Pc, after: Pc)
    requires IsWaiting(before)
    ensures after.Done? ==> Offset(before) < Offset(after)
    ensures before.Waiting? && (after.WaitClock? || after.WaitCancel? || after.Counting? || after.LastCancel?) ==>
      Offset(before) < Offset(after)
    ensures before.WaitClock? && (after.WaitCancel? || after.Counting?) ==> Offset(before) < Offset(after)
    ensures before.WaitCancel? && after.WaitDeadline? ==> Offset(before) < Offset(after)
    ensures before.WaitDeadline? && after.WaitExpired? ==> Offset(before) < Offset(after)
    ensures (before.WaitDeadline? || before.WaitExpired?) && after.Sleeping? ==> Offset(before) < Offset(after) + 6
    ensures before.Sleeping? && after.Waiting? ==> Offset(before) < Offset(after)
    ensures before.Counting? && after.LastCancel? ==> Offset(before) < Offset(after)
  {
  }

  lemma FinalPollSpends(sh: Shared, op: Op)
    requires IsFinalPoll(op.pc)
    ensures Spent(op) < Spent(StepFinalPoll(sh, op))
  {
  }

  lemma DispatchingSpends(sh: Shared, op: Op, ev: Event)
    requires op.pc.Dispatching?
    ensures Spent(op) < Spent(StepDispatching(sh, op, ev))
  {
  }

  lemma ReplyingSpends(sh: Shared, op: Op)
    requires IsReplying(op.pc)
    ensures Spent(op) < Spent(StepReplying(sh, op))
  {
    hide CallNanos;
  }

  lemma FinishingSpends(p: Process, op: Op, ev: Event)
    requires IsFinishing(op.pc)
    ensures Spent(op) < Spent(StepFinishing(p.env, op, ev))
  {
    hide ProjectResponse, ResponseLimit, FailureOf, Offset;
    var after := StepFinishing(p.env, op, ev);
    assert after.waitPolls == op.waitPolls && after.replyPolls == op.replyPolls;
    FinishAdvances(op.pc, after.pc);
  }

  lemma FinishAdvances(before: Pc, after: Pc)
    requires !before.Done?
    ensures after.Done? ==> Offset(before) < Offset(after)
    ensures before.Getting? && after.Projecting? ==> Offset(before) < Offset(after)
    ensures before.Projecting? && after.Reporting? ==> Offset(before) < Offset(after)
  {
  }

  lemma StepSpends(p: Process, sh: Shared, op: Op, ev: Event)
    requires CanStep(p.tick, sh, op, ev)
    ensures Spent(op) < Spent(StepOp(p.env, p.context, sh, op, ev))
  {
    hide Spent, StepAdmission, StepPreparing, StepWaiting, StepFinalPoll, StepDispatching, StepReplying, StepFinishing;
    if IsAdmission(op.pc) {
      AdmissionSpends(p, sh, op);
    } else if op.pc.Preparing? {
      PreparingSpends(sh, op, ev);
    } else if IsWaiting(op.pc) {
      WaitingSpends(sh, op, ev);
    } else if IsFinalPoll(op.pc) {
      FinalPollSpends(sh, op);
    } else if op.pc.Dispatching? {
      DispatchingSpends(sh, op, ev);
    } else if IsReplying(op.pc) {
      ReplyingSpends(sh, op);
    } else if IsFinishing(op.pc) {
      FinishingSpends(p, op, ev);
    }
  }

  lemma ActSpends(p: Process, s: State, a: Action, id: nat)
    requires CanAct(p, s, a)
    ensures SpentBy(s, id) + StepsOf([a], id) <= SpentBy(Act(p, s, a), id)
  {
    hide StepOp, CanStep, Spent, StepCallback, ValidResponse;
    match a
    case Begin(_, kind, request) => NothingSpent(kind, request);
    case Step(id', ev) => StepSpends(p, s.shared, s.ops[id'], ev);
    case RequestCancel(id') => EnvironmentSpends(s.ops[id'], s.ops[id'].(cancelRequested := true));
    case Respond(id', requestId, response) =>
      EnvironmentSpends(s.ops[id'], DeliverResponse(s.ops[id'], requestId, response));
    case _ =>
  }

  lemma NothingSpent(kind: Kind, request: OperationRequest)
    ensures Spent(NewOp(kind, request)) == 0
  {
  }

  lemma EnvironmentSpends(op: Op, after: Op)
    requires after.pc == op.pc && after.waitPolls == op.waitPolls && after.replyPolls == op.replyPolls
    ensures Spent(after) == Spent(op)
  {
  }

  lemma {:induction false} RunSpends(p: Process, s: State, run: seq<Action>, id: nat)
    requires IsRun(p, s, run)
    ensures SpentBy(s, id) + StepsOf(run, id) <= SpentBy(After(p, s, run), id)
    decreases |run|
  {
    hide CanAct, Act, SpentBy;
    if run != [] {
      ActSpends(p, s, run[0], id);
      assert StepsOf([run[0]], id) + StepsOf(run[1..], id) == StepsOf(run, id) by {
        assert [run[0]][1..] == [];
      }
      RunSpends(p, Act(p, s, run[0]), run[1..], id);
    }
  }

  /** No operation runs for ever: whatever the interleaving, it takes at most six steps per sleep,
      three per poll for the reply, and sixteen more.  For a publish that is 90016 steps in all; for
      a call whose readiness waits take a millisecond or more, 1845016. */
  lemma OperationsEnd(p: Process, steady: nat, system: int, run: seq<Action>, id: nat)
    requires IsRun(p, Initial(steady, system), run) && id in After(p, Initial(steady, system), run).ops
    ensures var op := After(p, Initial(steady, system), run).ops[id];
      && StepsOf(run, id) <= 16 + 6 * op.waitPolls + 3 * op.replyPolls
      && (op.kind.Publish? ==> StepsOf(run, id) <= 90016)
      && (op.kind.Service? && NANOS_PER_MS <= p.tick ==> StepsOf(run, id) <= 1845016)
  {
    hide IsRun, After;
    var s := After(p, Initial(steady, system), run);
    var op := s.ops[id];
    assert Reachable(p, s);
    RunSpends(p, Initial(steady, system), run, id);
    PollsAreBounded(p, s, id);
    if op.kind.Service? && NANOS_PER_MS <= p.tick {
      ServiceSleeps(p, s, id);
    }
  }

  lemma ServiceSleeps(p: Process, s: State, id: nat)
    requires Reachable(p, s) && id in s.ops && s.ops[id].kind.Service? && NANOS_PER_MS <= p.tick
    ensures s.ops[id].waitPolls <= MAXIMUM_WAIT_MS
  {
    hide Reachable, OpInv;
    var op := s.ops[id];
    ReachableOp(p, s, id);
    PlanIsValid(p, s.shared.steady, op);
    ServiceWaitEnds(p, s, id);
    if 0 < op.waitPolls {
      RoundsFit(op.waitPolls - 1, p.tick, op.plan.value.waitMs);
    }
  }

  /** Rounds of a millisecond or more that fit in a number of milliseconds are no more than that. */
  lemma RoundsFit(rounds: nat, tick: nat, ms: nat)
    requires NANOS_PER_MS <= tick && rounds * tick < ms * NANOS_PER_MS
    ensures rounds < ms
  {
    if ms <= rounds {
      MulMonotone(ms, rounds, tick);
      MulMonotone(NANOS_PER_MS, tick, ms);
    }
  }

  lemma MulMonotone(a: nat, b: nat, c: nat)
    requires a <= b
    ensures a * c <= b * c
  {
  }

  // ---- Operations do not get stuck ----

  /** An operation that is not over can take another step once enough time has passed, without any
      library call throwing. */
  lemma CanGoOn(p: Process, s: State, id: nat) returns (elapsed: nat, ev: Event)
    requires Reachable(p, s) && id in s.ops && !s.ops[id].pc.Done?
    ensures ev != Throws
    ensures CanAct(p, s, Tick(elapsed)) && CanAct(p, Act(p, s, Tick(elapsed)), Step(id, ev))
  {
    hide Reachable, OpInv, CanStep;
    ReachableOp(p, s, id);
    elapsed := POLL + p.tick;
    ev := NextEvent(s.ops[id]);
    NothingPending(p, s.shared.steady, s.ops[id]);
    AsleepSinceBefore(p, s.shared.steady, s.ops[id]);
    NextEventFits(p.tick, s.shared.(steady := s.shared.steady + elapsed), s.ops[id]);
  }

  lemma NothingPending(p: Process, steady: nat, op: Op)
    requires OpInv(p, steady, op)
    ensures op.pc.Dispatching? ==> op.pending == {}
  {
    hide Delivered, Guarded, Timed, Explained;
  }

  lemma AsleepSinceBefore(p: Process, steady: nat, op: Op)
    requires OpInv(p, steady, op)
    ensures op.pc.Sleeping? || op.pc.AwaitingReply? ==> op.pc.since <= steady
  {
    hide Recorded, Guarded, Explained, Stride;
  }

  lemma NextEventFits(tick: nat, sh: Shared, op: Op)
    requires !op.pc.Done? && (op.pc.Dispatching? ==> op.pending == {})
    requires op.pc.Sleeping? || op.pc.AwaitingReply? ==> op.pc.since + POLL + tick <= sh.steady
    ensures CanStep(tick, sh, op, NextEvent(op))
  {
    hide ValidLoaded;
  }

  /** An event that lets the operation go on. */
  function NextEvent(op: Op): Event {
    if op.pc.Preparing? then PrepareFails(PermanentError(TypeSupportUnavailable))
    else if op.pc.Waiting? then if op.kind.Publish? then Count(1) else Ready(true)
    else if op.pc.Counting? then Count(1)
    else if op.pc.Dispatching? && op.kind.Service? then Sent(0)
    else if op.pc.Reporting? then Reported(0)
    else Go
  }

  /** The operation can take no further step, however long it waits. */
  ghost predicate IsStuck(p: Process, s: State, id: nat) {
    forall elapsed: nat, ev: Event :: !CanAct(p, Act(p, s, Tick(elapsed)), Step(id, ev))
  }

  /** Every operation ends: in every run it takes a bounded number of steps, and where it can take no
      more it is over. */
  lemma OperationsFinish(p: Process, steady: nat, system: int, run: seq<Action>, id: nat)
    requires IsRun(p, Initial(steady, system), run) && id in After(p, Initial(steady, system), run).ops
    ensures IsStuck(p, After(p, Initial(steady, system), run), id) ==>
      After(p, Initial(steady, system), run).ops[id].pc.Done?
    ensures var op := After(p, Initial(steady, system), run).ops[id];
      StepsOf(run, id) <= 16 + 6 * op.waitPolls + 3 * op.replyPolls
  {
    hide IsRun, After, CanAct, Act;
    var s := After(p, Initial(steady, system), run);
    assert Reachable(p, s);
    OperationsEnd(p, steady, system, run, id);
    if !s.ops[id].pc.Done? {
      var elapsed, ev := CanGoOn(p, s, id);
    }
  }
}
