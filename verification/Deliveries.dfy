/**
 * Who decides an approval. Stated on the slot and the history alone: what each step of the protocol
 * delivers and to whom, and that every effect follows an approving tap on its own question.
 */
module Deliveries {
  import opened Prelude
  import opened Crypto
  import opened Records
  import opened Engine
  import opened Approvals
  import opened Protocol
  import opened ProtocolSafety

  // ----- one step -------------------------------------------------------------

  /** The slot is emptied and its approval, if any, gets the decision. */
  ghost predicate Delivers(before: Desk, after: Desk, decision: Decision, at: nat) {
    && after.slot == None
    && after.history == if before.slot.None? then before.history
                        else before.history + [Decided(before.slot.value.id, decision, at)]
  }

  /** An approving tap approves, a rejecting tap and a host's cancel reject: each what is in the slot. */
  lemma {:induction false} TapsAndCancels(s: State, env: Env)
    ensures Delivers(s.desk, Next(s, env, Tap(true)).desk, Approve, s.clock)
    ensures Delivers(s.desk, Next(s, env, Tap(false)).desk, Reject, s.clock)
    ensures Delivers(s.desk, Next(s, env, Cancel).desk, Reject, s.clock)
  {
  }

  /** The worker times out what is in the slot exactly from its deadline on. */
  lemma {:induction false} TimeoutPasses(s: State, env: Env)
    ensures var after := Next(s, env, TimeoutPass).desk;
            if s.desk.slot.Some? && s.desk.slot.value.deadline <= s.clock
            then Delivers(s.desk, after, Timeout, s.clock)
            else after == s.desk
  {
  }

  /** A raise takes the slot for 60 seconds and rejects what was in it. */
  lemma {:induction false} Raises(s: State, env: Env, rid: nat, id: nat)
    requires Enabled(s, RaiseApproval(rid, id))
    ensures var d, after := s.desk, Next(s, env, RaiseApproval(rid, id)).desk;
            && after.slot == Some(Pending(id, s.clock + 60_000))
            && after.history == d.history + [Raised(id, s.clock)]
                                + (if d.slot.None? then [] else [Decided(d.slot.value.id, Reject, s.clock)])
  {
  }

  /** A card that could not be shown is taken back if the slot still holds it; its request is refused. */
  lemma {:induction false} Withdrawals(s: State, env: Env, rid: nat)
    requires Enabled(s, ScheduleFailed(rid))
    ensures var d, s' := s.desk, Next(s, env, ScheduleFailed(rid));
            var id := s.flows[rid].phase.id;
            && s'.desk == (if d.slot.Some? && d.slot.value.id == id
                           then Desk(None, d.history + [Withdrawn(id, s.clock)]) else d)
            && rid in s'.replies && s'.replies[rid] == Failed(UserRejected)
            && s'.store == s.store && s'.effects == s.effects
  {
  }

  /** No other step touches the desk. */
  lemma {:induction false} OtherSteps(s: State, env: Env, step: Step)
    requires Enabled(s, step) && !step.Tap? && !step.Cancel? && !step.TimeoutPass?
    requires !step.RaiseApproval? && !step.ScheduleFailed?
    ensures Next(s, env, step).desk == s.desk
  {
  }

  // ----- every run ------------------------------------------------------------

  /** The steps that deliver a decision, to what is in the slot. */
  ghost predicate CanDeliver(s: State, step: Step, decision: Decision) {
    match decision
    case Approve => step == Tap(true)
    case Reject => step == Tap(false) || step == Cancel || step.RaiseApproval?
    case Timeout => step == TimeoutPass && s.desk.slot.Some? && s.desk.slot.value.deadline <= s.clock
  }

  ghost predicate DeliveredAt(s: State, step: Step, id: nat, decision: Decision) {
    CanDeliver(s, step, decision) && s.desk.slot.Some? && s.desk.slot.value.id == id
  }

  ghost predicate Given(events: seq<Event>, id: nat, decision: Decision) {
    exists i :: 0 <= i < |events| && events[i].Decided? && events[i].id == id && events[i].decision == decision
  }

  /** What a history gains by a few events. */
  lemma {:induction false} AfterEvents(before: Desk, after: Desk, events: seq<Event>, id: nat, decision: Decision)
    requires after.history == before.history + events
    ensures WasDelivered(after, id, decision) <==> WasDelivered(before, id, decision) || Given(events, id, decision)
  {
    var n := |before.history|;
    assert forall i :: 0 <= i < n ==> after.history[i] == before.history[i];
    assert forall i :: 0 <= i < |events| ==> after.history[n + i] == events[i];
    assert forall i :: n <= i < |after.history| ==> after.history[i] == events[i - n];
  }

  lemma {:induction false} NewDecision(s: State, env: Env, step: Step, id: nat, decision: Decision)
    requires Enabled(s, step)
    requires WasDelivered(Next(s, env, step).desk, id, decision) && !WasDelivered(s.desk, id, decision)
    ensures DeliveredAt(s, step, id, decision)
  {
    match step
    case Tap(approve) =>
      TapsAndCancels(s, env);
      InSlot(s, Next(s, env, step).desk, if approve then Approve else Reject, id, decision);
    case Cancel =>
      TapsAndCancels(s, env);
      InSlot(s, Next(s, env, step).desk, Reject, id, decision);
    case TimeoutPass =>
      TimeoutPasses(s, env);
      InSlot(s, Next(s, env, step).desk, Timeout, id, decision);
    case RaiseApproval(rid, other) => RaiseDecides(s, env, rid, other, id, decision);
    case ScheduleFailed(rid) => WithdrawalDecidesNone(s, env, rid, id, decision);
    case _ => OtherSteps(s, env, step);
  }

  lemma {:induction false} InSlot(s: State, after: Desk, delivered: Decision, id: nat, decision: Decision)
    requires Delivers(s.desk, after, delivered, s.clock)
    ensures WasDelivered(after, id, decision) <==>
              WasDelivered(s.desk, id, decision)
              || (s.desk.slot.Some? && s.desk.slot.value.id == id && decision == delivered)
  {
    var events := if s.desk.slot.None? then [] else [Decided(s.desk.slot.value.id, delivered, s.clock)];
    assert after.history == s.desk.history + events;
    AfterEvents(s.desk, after, events, id, decision);
    assert s.desk.slot.Some? ==> events[0] == Decided(s.desk.slot.value.id, delivered, s.clock);
  }

  lemma {:induction false} RaiseDecides(s: State, env: Env, rid: nat, other: nat, id: nat, decision: Decision)
    requires Enabled(s, RaiseApproval(rid, other))
    ensures WasDelivered(Next(s, env, RaiseApproval(rid, other)).desk, id, decision) <==>
              WasDelivered(s.desk, id, decision)
              || (s.desk.slot.Some? && s.desk.slot.value.id == id && decision == Reject)
  {
    Raises(s, env, rid, other);
    var after := Next(s, env, RaiseApproval(rid, other)).desk;
    var raised := Desk(None, s.desk.history + [Raised(other, s.clock)]);
    var events := if s.desk.slot.None? then [] else [Decided(s.desk.slot.value.id, Reject, s.clock)];
    AfterEvents(s.desk, raised, [Raised(other, s.clock)], id, decision);
    AfterEvents(raised, after, events, id, decision);
    assert s.desk.slot.Some? ==> events[0] == Decided(s.desk.slot.value.id, Reject, s.clock);
  }

  lemma {:induction false} WithdrawalDecidesNone(s: State, env: Env, rid: nat, id: nat, decision: Decision)
    requires Enabled(s, ScheduleFailed(rid))
    ensures WasDelivered(Next(s, env, ScheduleFailed(rid)).desk, id, decision) <==> WasDelivered(s.desk, id, decision)
  {
    Withdrawals(s, env, rid);
    var after := Next(s, env, ScheduleFailed(rid)).desk;
    var events := if after == s.desk then [] else [Withdrawn(s.flows[rid].phase.id, s.clock)];
    assert after.history == s.desk.history + events;
    AfterEvents(s.desk, after, events, id, decision);
  }

  /**
   * In every run a decision was delivered to an approval in the slot at that moment: Approve by an
   * approving tap only; Reject by a rejecting tap, a cancel or a raise; Timeout by the worker, not
   * before the deadline.
   */
  lemma {:induction false} DecisionsAreDelivered(env: Env, records: seq<Record>, steps: seq<Step>, trace: seq<State>,
                                                 n: nat, id: nat, decision: Decision)
    requires IsRun(env, records, steps, trace) && n < |trace|
    requires WasDelivered(trace[n].desk, id, decision)
    ensures exists m :: 0 <= m < n && DeliveredAt(trace[m], steps[m], id, decision)
  {
    if n > 0 {
      if WasDelivered(trace[n - 1].desk, id, decision) {
        DecisionsAreDelivered(env, records, steps, trace, n - 1, id, decision);
      } else {
        NewDecision(trace[n - 1], env, steps[n - 1], id, decision);
      }
    }
  }

  /** Questions stay as they were put. */
  lemma {:induction false} QuestionsStay(env: Env, records: seq<Record>, steps: seq<Step>, trace: seq<State>, m: nat,
                                         n: nat, id: nat)
    requires IsRun(env, records, steps, trace) && m <= n < |trace| && id in trace[m].questions
    ensures id in trace[n].questions && trace[n].questions[id] == trace[m].questions[id]
    decreases n
  {
    if m < n {
      QuestionsStay(env, records, steps, trace, m, n - 1, id);
      RunInv(env, records, steps, trace, n - 1);
      QuestionStays(trace[n - 1], env, steps[n - 1], id);
    }
  }

  lemma {:induction false} QuestionStays(s: State, env: Env, step: Step, id: nat)
    requires Inv(s) && Enabled(s, step) && id in s.questions
    ensures id in Next(s, env, step).questions && Next(s, env, step).questions[id] == s.questions[id]
  {
  }

  /** The approving tap on the very question an effect rests on. */
  ghost predicate TappedFor(s: State, step: Step, id: nat, e: Effect) {
    && step == Tap(true) && s.desk.slot.Some? && s.desk.slot.value.id == id && id in s.questions
    && s.questions[id].rid == e.rid && s.questions[id].origin == e.origin && s.questions[id].username == e.username
    && (s.questions[id].action == Release <==> e.SentPassword?)
  }

  /**
   * Before a password leaves or a record is written, the user has tapped approve while the slot held the
   * question of that very request, with that origin, that username and that kind of action.
   */
  lemma {:induction false} EffectsFollowTaps(env: Env, records: seq<Record>, steps: seq<Step>, trace: seq<State>,
                                             n: nat, e: Effect)
    requires IsRun(env, records, steps, trace) && n < |steps|
    requires EffectOf(trace[n], env, steps[n]) == Some(e)
    ensures exists m, id :: 0 <= m < n && TappedFor(trace[m], steps[m], id, e)
  {
    EffectsAreApproved(env, records, steps, trace, n, e);
    var id :| id in trace[n].questions && Allows(trace[n].desk, trace[n].questions, id, e);
    DecisionsAreDelivered(env, records, steps, trace, n, id, Approve);
    var m :| 0 <= m < n && DeliveredAt(trace[m], steps[m], id, Approve);
    RunInv(env, records, steps, trace, m);
    SlotIsAsked(trace[m]);
    QuestionsStay(env, records, steps, trace, m, n, id);
    assert TappedFor(trace[m], steps[m], id, e);
  }

  lemma {:induction false} SlotIsAsked(s: State)
    requires Inv(s) && s.desk.slot.Some?
    ensures s.desk.slot.value.id in s.questions
  {
    assert s.desk.slot.value.id in OpenOf(s.desk);
    assert WasRaised(s.desk.history, s.desk.slot.value.id);
  }
}
