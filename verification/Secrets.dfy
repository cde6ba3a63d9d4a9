/** Where the passwords of store and generate requests come from, in every run of the protocol. */
module Secrets {
  import opened Prelude
  import opened Records
  import opened Engine
  import opened Password
  import opened Approvals
  import opened Protocol
  import Sessions

  /** The password a store request has opened, or a generate request has stored. */
  function Carried(f: Flow): Option<string> {
    if f.req.StoreReq? then
      match f.phase
      case PasswordOpen(password) => Some(password)
      case Ready(job) => Some(job.password)
      case Scheduling(_, job) => Some(job.password)
      case Waiting(_, job) => Some(job.password)
      case Approved(_, job) => Some(job.password)
      case _ => None
    else if f.req.GenerateReq? then
      match f.phase
      case Mutated(_, job, _) => Some(job.password)
      case Persisted(_, job) => Some(job.password)
      case _ => None
    else None
  }

  /** The step that gives a request its password: opening the sealed text, or writing a generated one. */
  ghost predicate Gives(s: State, env: Env, step: Step, rid: nat, req: Request, password: string) {
    && rid in s.flows && s.flows[rid].req == req
    && match req
       case StoreReq(_, _, sealed, _, now) =>
         step == OpenSealed(rid) && OpenPassword(env, s.session, sealed, now).password == Ok(password)
       case GenerateReq(_, _, length, charset, _, _) =>
         step.WriteStore? && step.rid == rid && step.password == password
         && Allowed(password, ClampedLength(length), charset)
       case _ => false
  }

  ghost predicate CarriedSince(s: State, env: Env, step: Step, rid: nat, f: Flow)
    requires Carried(f).Some?
  {
    Gives(s, env, step, rid, f.req, Carried(f).value)
    || (rid in s.flows && s.flows[rid].req == f.req && Carried(s.flows[rid]) == Carried(f))
  }

  lemma CarriedStep(s: State, env: Env, step: Step, rid: nat)
    requires Enabled(s, step)
    requires var s' := Next(s, env, step); rid in s'.flows && Carried(s'.flows[rid]).Some?
    ensures CarriedSince(s, env, step, rid, Next(s, env, step).flows[rid])
  {
    if step.Arrive? || step.Gate? || step.OpenSealed? || step.LookUp? {
      CarriedEarly(s, env, step, rid);
    } else if step.RaiseApproval? || step.Scheduled? || step.Receive? {
      CarriedAsked(s, env, step, rid);
    } else if step.WriteStore? || step.Persist? || step.RollBack? {
      CarriedCommit(s, env, step, rid);
    } else {
      CarriedOthers(s, env, step, rid);
    }
  }

  lemma CarriedEarly(s: State, env: Env, step: Step, rid: nat)
    requires Enabled(s, step) && (step.Arrive? || step.Gate? || step.OpenSealed? || step.LookUp?)
    requires var s' := Next(s, env, step); rid in s'.flows && Carried(s'.flows[rid]).Some?
    ensures CarriedSince(s, env, step, rid, Next(s, env, step).flows[rid])
  {
  }

  lemma CarriedAsked(s: State, env: Env, step: Step, rid: nat)
    requires Enabled(s, step) && (step.RaiseApproval? || step.Scheduled? || step.Receive?)
    requires var s' := Next(s, env, step); rid in s'.flows && Carried(s'.flows[rid]).Some?
    ensures CarriedSince(s, env, step, rid, Next(s, env, step).flows[rid])
  {
  }

  lemma CarriedCommit(s: State, env: Env, step: Step, rid: nat)
    requires Enabled(s, step) && (step.WriteStore? || step.Persist? || step.RollBack?)
    requires var s' := Next(s, env, step); rid in s'.flows && Carried(s'.flows[rid]).Some?
    ensures CarriedSince(s, env, step, rid, Next(s, env, step).flows[rid])
  {
  }

  lemma CarriedOthers(s: State, env: Env, step: Step, rid: nat)
    requires Enabled(s, step) && !step.Arrive? && !step.Gate? && !step.OpenSealed? && !step.LookUp?
    requires !step.RaiseApproval? && !step.Scheduled? && !step.Receive?
    requires !step.WriteStore? && !step.Persist? && !step.RollBack?
    requires var s' := Next(s, env, step); rid in s'.flows && Carried(s'.flows[rid]).Some?
    ensures CarriedSince(s, env, step, rid, Next(s, env, step).flows[rid])
  {
  }

  ghost predicate GivenBefore(env: Env, steps: seq<Step>, trace: seq<State>, n: nat, rid: nat, req: Request,
                              password: string)
    requires n <= |steps| < |trace|
  {
    exists m :: 0 <= m < n && Gives(trace[m], env, steps[m], rid, req, password)
  }

  lemma {:induction false} CarriedAt(env: Env, records: seq<Record>, steps: seq<Step>, trace: seq<State>, n: nat,
                                     rid: nat)
    requires IsRun(env, records, steps, trace) && n < |steps|
    requires rid in trace[n + 1].flows && Carried(trace[n + 1].flows[rid]).Some?
    ensures CarriedSince(trace[n], env, steps[n], rid, trace[n + 1].flows[rid])
  {
    CarriedStep(trace[n], env, steps[n], rid);
  }

  lemma {:induction false} CarriedWasGiven(env: Env, records: seq<Record>, steps: seq<Step>, trace: seq<State>, n: nat,
                                           rid: nat)
    requires IsRun(env, records, steps, trace) && n < |trace|
    requires rid in trace[n].flows && Carried(trace[n].flows[rid]).Some?
    ensures GivenBefore(env, steps, trace, n, rid, trace[n].flows[rid].req, Carried(trace[n].flows[rid]).value)
  {
    if n > 0 {
      CarriedAt(env, records, steps, trace, n - 1, rid);
      var f := trace[n].flows[rid];
      if !Gives(trace[n - 1], env, steps[n - 1], rid, f.req, Carried(f).value) {
        CarriedWasGiven(env, records, steps, trace, n - 1, rid);
        GivenLater(env, steps, trace, n - 1, rid, f.req, Carried(f).value);
      }
    }
  }

  lemma GivenLater(env: Env, steps: seq<Step>, trace: seq<State>, n: nat, rid: nat, req: Request, password: string)
    requires n < |steps| < |trace| && GivenBefore(env, steps, trace, n, rid, req, password)
    ensures GivenBefore(env, steps, trace, n + 1, rid, req, password)
  {
  }

  /** What a store request writes is what its sealed text opened to, in the session of that moment. */
  lemma {:induction false} StoredWasSent(env: Env, records: seq<Record>, steps: seq<Step>, trace: seq<State>, n: nat)
    returns (m: nat)
    requires IsRun(env, records, steps, trace) && n < |steps| && steps[n].WriteStore?
    requires trace[n].flows[steps[n].rid].req.StoreReq?
    ensures m < n && steps[m] == OpenSealed(steps[n].rid)
    ensures var req := trace[n].flows[steps[n].rid].req;
            OpenPassword(env, trace[m].session, req.sealed, req.now).password == Ok(steps[n].password)
  {
    var rid := steps[n].rid;
    var f := trace[n].flows[rid];
    CarriedWasGiven(env, records, steps, trace, n, rid);
    m :| 0 <= m < n && Gives(trace[m], env, steps[m], rid, f.req, Carried(f).value);
  }

  /** What a generate request seals for the host is what it wrote to the store, and of the kind it asked for. */
  lemma {:induction false} SentWasStored(env: Env, records: seq<Record>, steps: seq<Step>, trace: seq<State>, n: nat)
    returns (m: nat)
    requires IsRun(env, records, steps, trace) && n < |steps| && steps[n].SealGenerated?
    ensures m < n && steps[m].WriteStore? && steps[m].rid == steps[n].rid
    ensures trace[n].flows[steps[n].rid].req.GenerateReq?
    ensures var f := trace[n].flows[steps[n].rid];
            && steps[m].password == f.phase.job.password
            && Allowed(steps[m].password, ClampedLength(f.req.length), f.req.charset)
  {
    var rid := steps[n].rid;
    var f := trace[n].flows[rid];
    RunInv(env, records, steps, trace, n);
    assert FlowOk(trace[n].desk, trace[n].questions, rid, f);
    CarriedWasGiven(env, records, steps, trace, n, rid);
    m :| 0 <= m < n && Gives(trace[m], env, steps[m], rid, f.req, Carried(f).value);
  }
}
