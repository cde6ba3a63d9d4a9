/** Runs of the protocol from any state, and the run of steps that asks the user and gets an answer. */
module ProtocolRuns {
  import opened Prelude
  import opened Crypto
  import opened Records
  import opened Engine
  import opened Approvals
  import opened Protocol

  /** `steps`, each enabled in turn, lead from `s` to `t`. */
  ghost predicate Leads(s: State, env: Env, steps: seq<Step>, t: State)
    decreases |steps|
  {
    if steps == [] then t == s
    else Enabled(s, steps[0]) && Leads(Next(s, env, steps[0]), env, steps[1..], t)
  }

  lemma LeadsOne(s: State, env: Env, step: Step)
    requires Enabled(s, step)
    ensures Leads(s, env, [step], Next(s, env, step))
  {
    var t := Next(s, env, step);
    assert [step][1..] == [];
    assert Leads(t, env, [], t);
  }

  lemma {:induction false} LeadsThen(s: State, env: Env, before: seq<Step>, m: State, after: seq<Step>, t: State)
    requires Leads(s, env, before, m) && Leads(m, env, after, t)
    ensures Leads(s, env, before + after, t)
    decreases |before|
  {
    if before == [] {
      assert before + after == after;
    } else {
      assert (before + after)[1..] == before[1..] + after;
      LeadsThen(Next(s, env, before[0]), env, before[1..], m, after, t);
    }
  }

  lemma {:induction false} LeadsSnoc(s: State, env: Env, steps: seq<Step>, m: State, step: Step)
    requires Leads(s, env, steps, m) && Enabled(m, step)
    ensures Leads(s, env, steps + [step], Next(m, env, step))
  {
    LeadsOne(m, env, step);
    LeadsThen(s, env, steps, m, [step], Next(m, env, step));
  }

  /** What a run of `Leads` from the start is in terms of traces. */
  lemma {:induction false} LeadsIsRun(s: State, env: Env, steps: seq<Step>, t: State) returns (trace: seq<State>)
    requires Leads(s, env, steps, t)
    ensures |trace| == |steps| + 1 && trace[0] == s && trace[|steps|] == t
    ensures forall i :: 0 <= i < |steps| ==>
              Enabled(trace[i], steps[i]) && trace[i + 1] == Next(trace[i], env, steps[i])
    decreases |steps|
  {
    if steps == [] {
      trace := [s];
    } else {
      var rest := LeadsIsRun(Next(s, env, steps[0]), env, steps[1..], t);
      trace := [s] + rest;
      forall i | 0 <= i < |steps| ensures Enabled(trace[i], steps[i]) && trace[i + 1] == Next(trace[i], env, steps[i]) {
        if i > 0 { assert steps[i] == steps[1..][i - 1] && trace[i] == rest[i - 1]; }
      }
    }
  }

  // ----- asking the user ------------------------------------------------------

  /** The question was put to the user and answered; nothing else happened. */
  ghost predicate Answered(s: State, t: State, rid: nat, id: nat, decision: Decision)
    requires rid in s.flows && s.flows[rid].phase.Ready?
  {
    var f := s.flows[rid];
    && t.session == s.session && t.store == s.store && t.durable == s.durable
    && t.desk.slot == None && (decision != Timeout ==> t.clock == s.clock)
    && (forall x :: WasRaised(t.desk.history, x) <==> WasRaised(s.desk.history, x) || x == id)
    && match Refusal(decision)
       case None =>
         t.flows == s.flows[rid := Flow(f.req, Phase.Approved(id, f.phase.job))] && t.replies == s.replies
       case Some(code) =>
         t.flows == s.flows[rid := Flow(f.req, Done)] && t.replies == s.replies[rid := Failed(code)]
  }

  /** With the slot free, any answer can be had: by a tap, or by waiting for the worker. */
  lemma {:induction false} AskAndAnswer(s: State, env: Env, rid: nat, id: nat,
                                        decision: Decision) returns (steps: seq<Step>, t: State)
    requires rid in s.flows && s.flows[rid].phase.Ready? && !WasRaised(s.desk.history, id) && s.desk.slot == None
    ensures Leads(s, env, steps, t) && Answered(s, t, rid, id, decision)
  {
    var f := s.flows[rid];
    var job := f.phase.job;
    var raised := s.desk.history + [Raised(id, s.clock)];
    var s4 := s.(flows := s.flows[rid := Flow(f.req, Scheduling(id, job))],
                 desk := Desk(Some(Pending(id, s.clock + APPROVAL_TIMEOUT_MS)), raised),
                 questions := s.questions[id := Question(rid, job.action, job.key.origin, job.key.username)]);
    RaiseAt(s, env, rid, id, s4);
    LeadsOne(s, env, RaiseApproval(rid, id));
    var s5 := s4.(flows := s.flows[rid := Flow(f.req, Waiting(id, job))]);
    ScheduledAt(s4, env, rid, s5, s.flows);
    LeadsSnoc(s, env, [RaiseApproval(rid, id)], s4, Scheduled(rid));
    var more, s6 := Decide(s5, env, id, decision);
    LeadsThen(s, env, [RaiseApproval(rid, id)] + [Scheduled(rid)], s5, more, s6);
    t := Next(s6, env, Receive(rid, decision));
    ReceiveAt(s6, env, rid, decision, s.flows);
    LeadsSnoc(s, env, [RaiseApproval(rid, id)] + [Scheduled(rid)] + more, s6, Receive(rid, decision));
    steps := [RaiseApproval(rid, id)] + [Scheduled(rid)] + more + [Receive(rid, decision)];
    forall x ensures WasRaised(t.desk.history, x) <==> WasRaised(s.desk.history, x) || x == id {
      WasAppend(s.desk.history, Raised(id, s.clock), x);
      WasAppend(raised, Decided(id, decision, s6.clock), x);
    }
  }

  lemma RaiseAt(s: State, env: Env, rid: nat, id: nat, s4: State)
    requires rid in s.flows && s.flows[rid].phase.Ready? && !WasRaised(s.desk.history, id) && s.desk.slot == None
    requires var job := s.flows[rid].phase.job;
             s4 == s.(flows := s.flows[rid := Flow(s.flows[rid].req, Scheduling(id, job))],
                      desk := Desk(Some(Pending(id, s.clock + APPROVAL_TIMEOUT_MS)),
                                   s.desk.history + [Raised(id, s.clock)]),
                      questions := s.questions[id := Question(rid, job.action, job.key.origin, job.key.username)])
    ensures Next(s, env, RaiseApproval(rid, id)) == s4
  {
    assert s.desk.history + [Raised(id, s.clock)] + [] == s.desk.history + [Raised(id, s.clock)];
  }

  lemma ScheduledAt(s4: State, env: Env, rid: nat, s5: State, flows: map<nat, Flow>)
    requires rid in s4.flows && s4.flows[rid].phase.Scheduling?
    requires var f := s4.flows[rid];
             && s4.flows == flows[rid := f]
             && s5 == s4.(flows := flows[rid := Flow(f.req, Waiting(f.phase.id, f.phase.job))])
    ensures Next(s4, env, Scheduled(rid)) == s5
  {
    var f := s4.flows[rid];
    assert flows[rid := f][rid := Flow(f.req, Waiting(f.phase.id, f.phase.job))]
        == flows[rid := Flow(f.req, Waiting(f.phase.id, f.phase.job))];
  }

  lemma {:induction false} Decide(s5: State, env: Env, id: nat, decision: Decision) returns (steps: seq<Step>,
                                  s6: State)
    requires s5.desk.slot == Some(Pending(id, s5.clock + APPROVAL_TIMEOUT_MS))
    ensures Leads(s5, env, steps, s6) && WasDelivered(s6.desk, id, decision)
    ensures s6 == s5.(desk := Desk(None, s5.desk.history + [Decided(id, decision, s6.clock)]), clock := s6.clock)
    ensures decision != Timeout ==> s6.clock == s5.clock
  {
    if decision == Timeout {
      var late := Next(s5, env, Tick(APPROVAL_TIMEOUT_MS));
      LeadsOne(s5, env, Tick(APPROVAL_TIMEOUT_MS));
      LeadsSnoc(s5, env, [Tick(APPROVAL_TIMEOUT_MS)], late, TimeoutPass);
      steps, s6 := [Tick(APPROVAL_TIMEOUT_MS)] + [TimeoutPass], Next(late, env, TimeoutPass);
    } else {
      LeadsOne(s5, env, Tap(decision == Approve));
      steps, s6 := [Tap(decision == Approve)], Next(s5, env, Tap(decision == Approve));
    }
    assert s6.desk.history[|s5.desk.history|] == Decided(id, decision, s6.clock);
  }

  lemma ReceiveAt(s6: State, env: Env, rid: nat, decision: Decision, flows: map<nat, Flow>)
    requires rid in s6.flows && s6.flows[rid].phase.Waiting? && WasDelivered(s6.desk, s6.flows[rid].phase.id, decision)
    requires s6.flows == flows[rid := s6.flows[rid]]
    ensures var t, f := Next(s6, env, Receive(rid, decision)), s6.flows[rid];
            && t == s6.(flows := t.flows, replies := t.replies)
            && match Refusal(decision)
               case None =>
                 t.flows == flows[rid := Flow(f.req, Phase.Approved(f.phase.id, f.phase.job))]
                 && t.replies == s6.replies
               case Some(code) =>
                 t.flows == flows[rid := Flow(f.req, Done)] && t.replies == s6.replies[rid := Failed(code)]
  {
  }
}
