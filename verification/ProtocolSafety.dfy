/** What holds over every run of the protocol. */
module ProtocolSafety {
  import opened Prelude
  import opened Crypto
  import opened Records
  import opened Engine
  import opened Approvals
  import opened Protocol
  import Sessions
  import HostSession
  import AppShell

  // ----- no effect without its approval ---------------------------------------

  lemma EffectfulSteps(s: State, env: Env, step: Step)
    requires Enabled(s, step) && !step.SealRelease? && !step.WriteStore? && !step.SealGenerated?
    ensures EffectOf(s, env, step).None?
  {
  }

  /** The effect of a sending or writing step is for its own request and the origin and user approved. */
  lemma EffectShown(s: State, env: Env, step: Step, e: Effect)
    requires Enabled(s, step) && (step.SealRelease? || step.WriteStore? || step.SealGenerated?)
    requires EffectOf(s, env, step) == Some(e)
    ensures var key := s.flows[step.rid].phase.job.key;
            e == if step.SealRelease? then SentPassword(step.rid, key.origin, key.username)
                 else if step.WriteStore? then WroteRecord(step.rid, key.origin, key.username)
                 else SentGenerated(step.rid, key.origin, key.username)
  {
  }

  lemma EffectAllowed(s: State, env: Env, step: Step, e: Effect)
    requires Inv(s) && Enabled(s, step) && (step.SealRelease? || step.WriteStore? || step.SealGenerated?)
    requires EffectOf(s, env, step) == Some(e)
    ensures e.rid == step.rid && EffectOk(s.desk, s.questions, e)
  {
    EffectShown(s, env, step, e);
    assert FlowOk(s.desk, s.questions, step.rid, s.flows[step.rid]);
    ApprovedIsAllowed(s, step.rid, e);
  }

  /** Before any password leaves or any record is written, that very request's question was approved. */
  lemma {:induction false} EffectsAreApproved(env: Env, records: seq<Record>, steps: seq<Step>, trace: seq<State>,
                                              n: nat, e: Effect)
    requires IsRun(env, records, steps, trace) && n < |steps|
    requires EffectOf(trace[n], env, steps[n]) == Some(e)
    ensures exists id :: id in trace[n].questions && Allows(trace[n].desk, trace[n].questions, id, e)
  {
    RunInv(env, records, steps, trace, n);
    var s, step := trace[n], steps[n];
    if !step.SealRelease? && !step.WriteStore? && !step.SealGenerated? {
      EffectfulSteps(s, env, step);
    } else {
      EffectAllowed(s, env, step, e);
    }
  }

  lemma ReleasingSteps(s: State, env: Env, step: Step, rid: nat)
    requires Enabled(s, step) && !(step.SealRelease? && step.rid == rid)
    requires rid !in s.replies
    ensures rid in Next(s, env, step).replies ==> !Next(s, env, step).replies[rid].Released?
  {
  }

  /** A release reply goes out only as such an effect, with the origin asked for and the username approved. */
  lemma {:induction false} ReleaseReplies(env: Env, records: seq<Record>, steps: seq<Step>, trace: seq<State>, n: nat,
                                          rid: nat)
    requires IsRun(env, records, steps, trace) && n < |steps|
    requires rid !in trace[n].replies && rid in trace[n + 1].replies && trace[n + 1].replies[rid].Released?
    ensures rid in trace[n].flows && trace[n].flows[rid].req.ReleaseReq?
    ensures EffectOf(trace[n], env, steps[n])
         == Some(SentPassword(rid, trace[n].flows[rid].req.origin, trace[n + 1].replies[rid].username))
  {
    RunInv(env, records, steps, trace, n);
    var s, step := trace[n], steps[n];
    if !(step.SealRelease? && step.rid == rid) {
      ReleasingSteps(s, env, step, rid);
    } else {
      assert FlowOk(s.desk, s.questions, rid, s.flows[rid]);
    }
  }

  /**
   * Apart from the UI and rollbacks, the store changes only by an upsert of a key for which the user
   * has approved a write by that very request.
   */
  lemma {:induction false} StoreChanges(env: Env, records: seq<Record>, steps: seq<Step>, trace: seq<State>, n: nat)
    requires IsRun(env, records, steps, trace) && n < |steps|
    requires trace[n + 1].store != trace[n].store && !steps[n].UiStep? && !steps[n].RollBack?
    ensures steps[n].WriteStore?
    ensures var s, step := trace[n], steps[n];
            var f := s.flows[step.rid];
            && trace[n + 1].store == Upsert(s.store, f.phase.job.key, step.password, TitleOf(f.req), step.mint)
            && (f.req.StoreReq? || f.req.GenerateReq?) && f.phase.job.key == f.req.key
            && EffectOk(s.desk, s.questions, WroteRecord(step.rid, f.req.key.origin, f.req.key.username))
  {
    RunInv(env, records, steps, trace, n);
    OnlyWritesChange(trace[n], env, steps[n]);
    ApprovedWrite(trace[n], env, steps[n]);
  }

  lemma OnlyWritesChange(s: State, env: Env, step: Step)
    requires Enabled(s, step) && Next(s, env, step).store != s.store && !step.UiStep? && !step.RollBack?
    ensures step.WriteStore?
    ensures var f := s.flows[step.rid];
            Next(s, env, step).store == Upsert(s.store, f.phase.job.key, step.password, TitleOf(f.req), step.mint)
  {
  }

  lemma ApprovedWrite(s: State, env: Env, step: Step)
    requires Inv(s) && Enabled(s, step) && step.WriteStore?
    ensures var f := s.flows[step.rid];
            && (f.req.StoreReq? || f.req.GenerateReq?) && f.phase.job.key == f.req.key
            && EffectOk(s.desk, s.questions, WroteRecord(step.rid, f.req.key.origin, f.req.key.username))
  {
    var f := s.flows[step.rid];
    assert FlowOk(s.desk, s.questions, step.rid, f);
    ApprovedIsAllowed(s, step.rid, WroteRecord(step.rid, f.req.key.origin, f.req.key.username));
  }

  /** One approval allows at most one effect of a kind. */
  lemma {:induction false} ApprovalsAreNotReused(env: Env, records: seq<Record>, steps: seq<Step>, trace: seq<State>,
                                                 p: nat, q: nat, i: nat, j: nat)
    requires IsRun(env, records, steps, trace)
    requires var s := trace[|steps|];
             && p < q < |s.effects| && SameKind(s.effects[p], s.effects[q])
             && Allows(s.desk, s.questions, i, s.effects[p]) && Allows(s.desk, s.questions, j, s.effects[q])
    ensures i != j
  {
    RunInv(env, records, steps, trace, |steps|);
  }

  // ----- which password a release sends ---------------------------------------

  /** The credential a release request has looked up, until it is sent. */
  predicate Holding(f: Flow) {
    f.req.ReleaseReq? && (f.phase.Ready? || f.phase.Scheduling? || f.phase.Waiting? || f.phase.Approved?)
  }

  /** Step `m` looked the request's credential up. */
  ghost predicate LookedUpAt(steps: seq<Step>, trace: seq<State>, m: nat, rid: nat, f: Flow)
    requires m < |steps| && m < |trace| && Holding(f)
  {
    && steps[m] == LookUp(rid) && rid in trace[m].flows && trace[m].flows[rid].req == f.req
    && Looked(trace[m], f.req, PastGate) == Ok(f.phase.job)
  }

  lemma {:induction false} HeldWasLookedUp(env: Env, records: seq<Record>, steps: seq<Step>, trace: seq<State>, n: nat,
                                           rid: nat)
    requires IsRun(env, records, steps, trace) && n < |trace|
    requires rid in trace[n].flows && Holding(trace[n].flows[rid])
    ensures exists m :: 0 <= m < n && LookedUpAt(steps, trace, m, rid, trace[n].flows[rid])
  {
    if n > 0 {
      var s, step, f := trace[n - 1], steps[n - 1], trace[n].flows[rid];
      HoldingStep(s, env, step, rid);
      if step == LookUp(rid) {
        assert LookedUpAt(steps, trace, n - 1, rid, f);
      } else {
        HeldWasLookedUp(env, records, steps, trace, n - 1, rid);
        var m :| 0 <= m < n - 1 && LookedUpAt(steps, trace, m, rid, s.flows[rid]);
        assert LookedUpAt(steps, trace, m, rid, f);
      }
    }
  }

  /** What is held was looked up in this step, or held before. */
  ghost predicate HeldSince(s: State, f: Flow, step: Step, rid: nat)
    requires Holding(f)
  {
    && rid in s.flows && s.flows[rid].req == f.req
    && if step == LookUp(rid) then Looked(s, f.req, PastGate) == Ok(f.phase.job)
       else Holding(s.flows[rid]) && s.flows[rid].phase.job == f.phase.job
  }

  lemma {:induction false} HoldingStep(s: State, env: Env, step: Step, rid: nat)
    requires Enabled(s, step)
    requires var s' := Next(s, env, step); rid in s'.flows && Holding(s'.flows[rid])
    ensures HeldSince(s, Next(s, env, step).flows[rid], step, rid)
  {
    if step.RaiseApproval? || step.Scheduled? || step.Receive? {
      HoldingAsked(s, env, step, rid);
    } else if step.Arrive? || step.Gate? || step.OpenSealed? || step.LookUp? {
      HoldingEarly(s, env, step, rid);
    } else if step.SealRelease? || step.SealGenerated? {
      HoldingSealing(s, env, step, rid);
    } else {
      HoldingOthers(s, env, step, rid);
    }
  }

  lemma HoldingAsked(s: State, env: Env, step: Step, rid: nat)
    requires Enabled(s, step) && (step.RaiseApproval? || step.Scheduled? || step.Receive?)
    requires var s' := Next(s, env, step); rid in s'.flows && Holding(s'.flows[rid])
    ensures HeldSince(s, Next(s, env, step).flows[rid], step, rid)
  {
  }

  lemma HoldingEarly(s: State, env: Env, step: Step, rid: nat)
    requires Enabled(s, step) && (step.Arrive? || step.Gate? || step.OpenSealed? || step.LookUp?)
    requires var s' := Next(s, env, step); rid in s'.flows && Holding(s'.flows[rid])
    ensures HeldSince(s, Next(s, env, step).flows[rid], step, rid)
  {
  }

  lemma HoldingSealing(s: State, env: Env, step: Step, rid: nat)
    requires Enabled(s, step) && (step.SealRelease? || step.SealGenerated?)
    requires var s' := Next(s, env, step); rid in s'.flows && Holding(s'.flows[rid])
    ensures HeldSince(s, Next(s, env, step).flows[rid], step, rid)
  {
    SealingEnds(s, env, step);
  }

  /** Sealing is a request's last step, and leaves the stores alone. */
  lemma SealingEnds(s: State, env: Env, step: Step)
    requires Enabled(s, step) && (step.SealRelease? || step.SealGenerated?)
    ensures var s' := Next(s, env, step);
            && s'.flows == s.flows[step.rid := Flow(s.flows[step.rid].req, Done)]
            && s'.store == s.store && s'.durable == s.durable
  {
  }

  lemma HoldingOthers(s: State, env: Env, step: Step, rid: nat)
    requires Enabled(s, step) && !step.RaiseApproval? && !step.Scheduled? && !step.Receive?
    requires !step.Arrive? && !step.Gate? && !step.OpenSealed? && !step.LookUp?
    requires !step.SealRelease? && !step.SealGenerated?
    requires var s' := Next(s, env, step); rid in s'.flows && Holding(s'.flows[rid])
    ensures HeldSince(s, Next(s, env, step).flows[rid], step, rid)
  {
  }

  /**
   * Under any interleaving a release reply opens, with the key of the session it was sealed in, to the
   * password that a live record of exactly that origin and username had when the request looked it up.
   */
  lemma {:induction false} ReleasedPassword(env: Env, records: seq<Record>, steps: seq<Step>, trace: seq<State>,
                                            n: nat, rid: nat)
    returns (m: nat, r: Record)
    requires IsRun(env, records, steps, trace) && n < |steps|
    requires rid !in trace[n].replies && rid in trace[n + 1].replies && trace[n + 1].replies[rid].Released?
    ensures m < n && steps[m] == LookUp(rid)
    ensures rid in trace[n].flows && trace[n].flows[rid].req.ReleaseReq?
    ensures r in trace[m].store && !r.archived
            && r.origin == trace[n].flows[rid].req.origin && r.username == trace[n + 1].replies[rid].username
    ensures trace[n].session.key.Some?
            && HostSession.Unsealed(env.suite, trace[n].session.key.value, trace[n + 1].replies[rid].sealed)
            == Ok(env.utf8.encode(r.password))
  {
    ReleaseReplies(env, records, steps, trace, n, rid);
    var s, f := trace[n], trace[n].flows[rid];
    SentBySealing(s, env, steps[n], rid);
    HeldWasLookedUp(env, records, steps, trace, n, rid);
    m :| 0 <= m < n && LookedUpAt(steps, trace, m, rid, f);
    r := Choose(trace[m].store, f.req.origin, f.req.hint).value;
    ChosenIsLive(trace[m].store, f.req.origin, f.req.hint);
    HostSession.DeviceToHost(env.suite, s.session, steps[n].iv, env.utf8.encode(r.password), f.req.now);
  }

  lemma SentBySealing(s: State, env: Env, step: Step, rid: nat)
    requires Enabled(s, step) && rid !in s.replies
    requires rid in Next(s, env, step).replies && Next(s, env, step).replies[rid].Released?
    ensures step.SealRelease? && step.rid == rid && Holding(s.flows[rid])
    ensures var f := s.flows[rid];
            var sealed := Sessions.SealPayload(s.session, env.suite, step.iv,
                                                env.utf8.encode(f.phase.job.password), f.req.now);
            sealed.hex.Ok? && Next(s, env, step).replies[rid] == Released(f.phase.job.key.username, sealed.hex.value)
  {
    if !(step.SealRelease? && step.rid == rid) { ReleasingSteps(s, env, step, rid); }
  }

  /**
   * A saved generated password is answered with exactly if the session is still active with its key and
   * encryption succeeds, and then opens to it; the vault keeps it either way.
   */
  lemma {:induction false} GeneratedReplies(s: State, env: Env, rid: nat, iv: Iv)
    requires Enabled(s, SealGenerated(rid, iv))
    ensures var s' := Next(s, env, SealGenerated(rid, iv));
            var plain := env.utf8.encode(s.flows[rid].phase.job.password);
            && s'.store == s.store && s'.durable == s.durable && rid in s'.replies
            && (s'.replies[rid].GenerateDone? <==>
                  s.session.state == Sessions.Active && s.session.key.Some?
                  && env.suite.cipher.encrypt(s.session.key.value, iv, plain).Some?)
            && (s'.replies[rid].GenerateDone? ==>
                  HostSession.Unsealed(env.suite, s.session.key.value, s'.replies[rid].sealed) == Ok(plain))
            && (!s'.replies[rid].GenerateDone? ==> s'.replies[rid].Failed?)
            && s'.effects == s.effects
                             + (if s'.replies[rid].GenerateDone?
                                then [SentGenerated(rid, s.flows[rid].phase.job.key.origin,
                                                    s.flows[rid].phase.job.key.username)]
                                else [])
  {
    var f := s.flows[rid];
    var plain := env.utf8.encode(f.phase.job.password);
    if Sessions.SealPayload(s.session, env.suite, iv, plain, f.req.now).hex.Ok? {
      HostSession.DeviceToHost(env.suite, s.session, iv, plain, f.req.now);
    }
  }

  /** The approval slot keeps its invariant in the midst of everything else. */
  lemma {:induction false} SlotInRuns(env: Env, records: seq<Record>, steps: seq<Step>, trace: seq<State>, n: nat)
    requires IsRun(env, records, steps, trace) && n < |trace|
    ensures DeskInvariant(trace[n].desk)
    ensures forall id :: id in trace[n].questions <==> WasRaised(trace[n].desk.history, id)
  {
    RunInv(env, records, steps, trace, n);
  }

  // ----- the session inside a run ---------------------------------------------

  /** What a protocol step does to the session. */
  function SessionOps(s: State, env: Env, step: Step): seq<Sessions.Op>
  {
    match step
    case Handshake(hostHex, secret, now) => [Sessions.DoAccept(hostHex, secret, now)]
    case ListGate(now) => [Sessions.DoCheckIdle(now, env.idleMs)]
    case Gate(rid) =>
      if rid in s.flows then
        [Sessions.DoCheckIdle(s.flows[rid].req.now, env.idleMs),
         Sessions.DoNonce(s.flows[rid].req.nonce, s.flows[rid].req.now)]
      else []
    case OpenSealed(rid) =>
      if rid in s.flows && s.flows[rid].req.StoreReq? then
        [Sessions.DoOpen(s.flows[rid].req.sealed, s.flows[rid].req.now)]
      else []
    case SealRelease(rid, iv) => SealOps(s, env, rid, iv)
    case SealGenerated(rid, iv) => SealOps(s, env, rid, iv)
    case _ => []
  }

  function SealOps(s: State, env: Env, rid: nat, iv: Iv): seq<Sessions.Op> {
    if rid in s.flows && (s.flows[rid].phase.Approved? || s.flows[rid].phase.Persisted?) then
      [Sessions.DoSeal(iv, env.utf8.encode(s.flows[rid].phase.job.password), s.flows[rid].req.now)]
    else []
  }

  /** The request nonces let through the gate since the last completed handshake. */
  ghost function PassedNonces(env: Env, steps: seq<Step>, trace: seq<State>, n: nat): seq<u64>
    requires n <= |steps| < |trace|
  {
    if n == 0 then []
    else
      PassedWith(trace[n - 1], env, steps[n - 1], PassedNonces(env, steps, trace, n - 1))
  }

  function PassedWith(s: State, env: Env, step: Step, before: seq<u64>): seq<u64> {
    match step
    case Handshake(hostHex, secret, now) =>
      if Sessions.Accept(s.session, env.suite, hostHex, secret, now).reply.Ok? then [] else before
    case Gate(rid) =>
      if rid in s.flows
         && GateSession(s.session, s.flows[rid].req.nonce, s.flows[rid].req.now, env.idleMs).result.Ok?
      then before + [s.flows[rid].req.nonce]
      else before
    case _ => before
  }

  lemma AfterSnoc(suite: Sessions.Suite, ops: seq<Sessions.Op>, op: Sessions.Op)
    ensures Sessions.After(suite, ops + [op]) == Sessions.Apply(Sessions.After(suite, ops), suite, op)
    ensures Sessions.AcceptedNonces(suite, ops + [op])
         == Sessions.NoncesWith(Sessions.After(suite, ops), suite, op, Sessions.AcceptedNonces(suite, ops))
  {
    assert (ops + [op])[..|ops|] == ops;
  }

  /** Every protocol run is, for its session, a run of the session state machine, gate by gate. */
  lemma {:induction false} SessionOfRun(env: Env, records: seq<Record>, steps: seq<Step>, trace: seq<State>, n: nat)
    returns (ops: seq<Sessions.Op>)
    requires IsRun(env, records, steps, trace) && n <= |steps|
    ensures trace[n].session == Sessions.After(env.suite, ops)
    ensures PassedNonces(env, steps, trace, n) == Sessions.AcceptedNonces(env.suite, ops)
  {
    if n == 0 {
      ops := [];
    } else {
      var before := SessionOfRun(env, records, steps, trace, n - 1);
      ops := before + SessionOps(trace[n - 1], env, steps[n - 1]);
      SessionStep(env, steps, trace, n - 1, before);
    }
  }

  lemma {:induction false} SessionStep(env: Env, steps: seq<Step>, trace: seq<State>, n: nat, before: seq<Sessions.Op>)
    requires n < |steps| < |trace| && Enabled(trace[n], steps[n]) && trace[n + 1] == Next(trace[n], env, steps[n])
    requires trace[n].session == Sessions.After(env.suite, before)
    requires PassedNonces(env, steps, trace, n) == Sessions.AcceptedNonces(env.suite, before)
    ensures var ops := before + SessionOps(trace[n], env, steps[n]);
            && trace[n + 1].session == Sessions.After(env.suite, ops)
            && PassedNonces(env, steps, trace, n + 1) == Sessions.AcceptedNonces(env.suite, ops)
  {
    var s, step, ns := trace[n], steps[n], PassedNonces(env, steps, trace, n);
    var ops := SessionOps(s, env, step);
    assert PassedNonces(env, steps, trace, n + 1) == PassedWith(s, env, step, ns);
    SessionOfStep(s, env, step);
    NoncesOfStep(s, env, step, ns);
    if ops == [] {
      assert before + ops == before;
    } else {
      AfterSnoc(env.suite, before, ops[0]);
      if |ops| == 1 {
        assert ops == [ops[0]];
      } else {
        AfterSnoc(env.suite, before + [ops[0]], ops[1]);
        assert before + ops == before + [ops[0]] + [ops[1]];
      }
    }
  }

  function ApplyOps(d: Sessions.Data, suite: Sessions.Suite, ops: seq<Sessions.Op>): Sessions.Data
    requires |ops| <= 2
  {
    if ops == [] then d
    else if |ops| == 1 then Sessions.Apply(d, suite, ops[0])
    else Sessions.Apply(Sessions.Apply(d, suite, ops[0]), suite, ops[1])
  }

  function NoncesOps(d: Sessions.Data, suite: Sessions.Suite, ops: seq<Sessions.Op>, ns: seq<u64>): seq<u64>
    requires |ops| <= 2
  {
    if ops == [] then ns
    else
      var ns1 := Sessions.NoncesWith(d, suite, ops[0], ns);
      if |ops| == 1 then ns1 else Sessions.NoncesWith(Sessions.Apply(d, suite, ops[0]), suite, ops[1], ns1)
  }

  lemma SessionOfStep(s: State, env: Env, step: Step)
    requires Enabled(s, step)
    ensures Next(s, env, step).session == ApplyOps(s.session, env.suite, SessionOps(s, env, step))
  {
    if step.Gate? || step.OpenSealed? || step.Handshake? || step.ListGate? {
      SessionOfGating(s, env, step);
    } else if step.SealRelease? || step.SealGenerated? {
      SessionOfSealing(s, env, step);
    } else {
      SessionOfOthers(s, env, step);
    }
  }

  lemma SessionOfGating(s: State, env: Env, step: Step)
    requires Enabled(s, step) && (step.Gate? || step.OpenSealed? || step.Handshake? || step.ListGate?)
    ensures Next(s, env, step).session == ApplyOps(s.session, env.suite, SessionOps(s, env, step))
  {
  }

  lemma SessionOfSealing(s: State, env: Env, step: Step)
    requires Enabled(s, step) && (step.SealRelease? || step.SealGenerated?)
    ensures Next(s, env, step).session == ApplyOps(s.session, env.suite, SessionOps(s, env, step))
  {
  }

  lemma SessionOfOthers(s: State, env: Env, step: Step)
    requires Enabled(s, step) && SessionOps(s, env, step) == []
    requires !step.Gate? && !step.OpenSealed? && !step.SealRelease? && !step.SealGenerated?
    ensures Next(s, env, step).session == s.session
  {
  }

  lemma NoncesOfStep(s: State, env: Env, step: Step, ns: seq<u64>)
    requires Enabled(s, step)
    ensures PassedWith(s, env, step, ns) == NoncesOps(s.session, env.suite, SessionOps(s, env, step), ns)
  {
  }

  /** Under any interleaving the nonces let through between handshakes strictly increase. */
  lemma {:induction false} NoncesIncreaseInRuns(env: Env, records: seq<Record>, steps: seq<Step>, trace: seq<State>,
                                                n: nat)
    requires IsRun(env, records, steps, trace) && n <= |steps|
    ensures Sessions.StrictlyIncreasing(PassedNonces(env, steps, trace, n))
    ensures Sessions.KeyInvariant(trace[n].session)
  {
    var ops := SessionOfRun(env, records, steps, trace, n);
    Sessions.NoncesIncrease(env.suite, ops);
    Sessions.KeyInvariantHolds(env.suite, ops);
  }

  // ----- memory and durable state ---------------------------------------------

  /** Between writing the store and having persisted or restored it. */
  predicate Committing(f: Flow) {
    f.phase.Mutated? || f.phase.RollingBack?
  }

  ghost predicate Busy(s: State) {
    exists rid :: rid in s.flows && Committing(s.flows[rid])
  }

  /** No other writer enters while a commit is under way. */
  ghost predicate Lone(s: State, step: Step) {
    step.WriteStore? || step.UiStep? ==> !Busy(s)
  }

  /**
   * A second writer enters a commit and makes a difference: a request that writes the store when the two
   * copies differ or come to differ, or a UI operation that replaces the durable copy.
   */
  ghost predicate Clash(s: State, env: Env, step: Step)
    requires Enabled(s, step)
  {
    Busy(s) && match step
               case WriteStore(_, _, _) => s.store != s.durable || Next(s, env, step).store != s.store
               case UiStep(_, _) => Next(s, env, step).durable != s.durable
               case _ => false
  }

  ghost predicate OneCommit(s: State) {
    forall a, b {:trigger s.flows[a], s.flows[b]} ::
      a in s.flows && b in s.flows && Committing(s.flows[a]) && Committing(s.flows[b]) ==> a == b
  }

  /** Every snapshot is the durable copy, which memory equals unless exactly one commit is under way. */
  ghost predicate Agreement(s: State) {
    && (forall rid :: rid in s.flows && Committing(s.flows[rid]) ==> s.durable == s.flows[rid].phase.snapshot)
    && (!Busy(s) ==> s.store == s.durable)
    && (!OneCommit(s) ==> s.store == s.durable)
  }

  ghost predicate MemoryInvariant(s: State) {
    OneCommit(s) && Agreement(s)
  }

  lemma {:induction false} ClashFreeStepKeeps(s: State, env: Env, step: Step)
    requires Agreement(s) && Enabled(s, step) && !Clash(s, env, step)
    ensures Agreement(Next(s, env, step))
  {
    if step.UiStep? {
      UiKeeps(s, env, step);
    } else if step.WriteStore? {
      WriteKeeps(s, env, step);
    } else if step.Persist? || step.RollBack? {
      EndKeeps(s, env, step);
    } else {
      QuietStep(s, env, step);
      QuietKeeps(s, Next(s, env, step));
    }
  }

  lemma {:induction false} UiKeeps(s: State, env: Env, step: Step)
    requires Agreement(s) && Enabled(s, step) && !Clash(s, env, step) && step.UiStep?
    ensures Agreement(Next(s, env, step))
  {
    AppShell.UnpersistedIsUnchanged(s.store, step.op);
    var s' := Next(s, env, step);
    assert s'.flows == s.flows && (s'.store == s.store || s'.store == s'.durable);
    assert Busy(s') <==> Busy(s);
    assert OneCommit(s') <==> OneCommit(s);
  }

  /** A step of one request that neither starts nor ends a commit, or of none. */
  ghost predicate Quiet(s: State, s': State) {
    && s'.store == s.store && s'.durable == s.durable
    && (s'.flows == s.flows
        || exists rid :: rid in s'.flows && s'.flows == s.flows[rid := s'.flows[rid]] && !Committing(s'.flows[rid])
                         && (rid in s.flows ==> !Committing(s.flows[rid])))
  }

  lemma QuietStep(s: State, env: Env, step: Step)
    requires Enabled(s, step) && !step.UiStep? && !step.WriteStore? && !step.Persist? && !step.RollBack?
    ensures Quiet(s, Next(s, env, step))
  {
    if step.Arrive? || step.Gate? || step.OpenSealed? || step.LookUp? {
      QuietEarly(s, env, step);
    } else if step.RaiseApproval? || step.Scheduled? || step.ScheduleFailed? || step.Receive? {
      QuietAsking(s, env, step);
    } else if step.SealRelease? || step.SealGenerated? {
      QuietSealing(s, env, step);
    }
  }

  lemma QuietEarly(s: State, env: Env, step: Step)
    requires Enabled(s, step) && (step.Arrive? || step.Gate? || step.OpenSealed? || step.LookUp?)
    ensures Quiet(s, Next(s, env, step))
  {
    var s' := Next(s, env, step);
    assert s'.flows == s.flows[step.rid := s'.flows[step.rid]];
  }

  lemma QuietAsking(s: State, env: Env, step: Step)
    requires Enabled(s, step)
    requires step.RaiseApproval? || step.Scheduled? || step.ScheduleFailed? || step.Receive?
    ensures Quiet(s, Next(s, env, step))
  {
    var s' := Next(s, env, step);
    assert s'.flows == s.flows[step.rid := s'.flows[step.rid]];
  }

  lemma QuietSealing(s: State, env: Env, step: Step)
    requires Enabled(s, step) && (step.SealRelease? || step.SealGenerated?)
    ensures Quiet(s, Next(s, env, step))
  {
    SealingEnds(s, env, step);
  }

  lemma QuietKeeps(s: State, s': State)
    requires Agreement(s) && Quiet(s, s')
    ensures Agreement(s') && (OneCommit(s) ==> OneCommit(s'))
  {
    assert forall rid :: rid in s'.flows && Committing(s'.flows[rid]) ==>
             rid in s.flows && s.flows[rid] == s'.flows[rid];
    assert forall rid :: rid in s.flows && Committing(s.flows[rid]) ==>
             rid in s'.flows && s.flows[rid] == s'.flows[rid];
  }

  lemma {:induction false} WriteKeeps(s: State, env: Env, step: Step)
    requires Agreement(s) && Enabled(s, step) && !Clash(s, env, step) && step.WriteStore?
    ensures Agreement(Next(s, env, step)) && (!Busy(s) ==> OneCommit(Next(s, env, step)))
  {
    var s', rid := Next(s, env, step), step.rid;
    var f := s'.flows[rid];
    assert s'.flows == s.flows[rid := f] && s'.durable == s.durable;
    assert f.phase.Mutated? && f.phase.snapshot == s.store;
    assert Committing(s'.flows[rid]);
  }

  lemma {:induction false} EndKeeps(s: State, env: Env, step: Step)
    requires Agreement(s) && Enabled(s, step) && (step.Persist? || step.RollBack?)
    ensures Agreement(Next(s, env, step)) && (OneCommit(s) ==> OneCommit(Next(s, env, step)))
  {
    var s', rid := Next(s, env, step), step.rid;
    var f := s'.flows[rid];
    assert s'.flows == s.flows[rid := f];
    if Committing(f) {
      assert s'.store == s.store && s'.durable == s.durable && f.phase.snapshot == s.flows[rid].phase.snapshot;
    } else {
      assert s'.store == s'.durable && (s'.durable == s.durable || s'.durable == s.store);
    }
    EndOfCommit(s, s', rid, f);
  }

  /** A commit under way goes on with its snapshot, or ends with both copies equal. */
  lemma {:induction false} EndOfCommit(s: State, s': State, rid: nat, f: Flow)
    requires Agreement(s) && rid in s.flows && Committing(s.flows[rid])
    requires s'.flows == s.flows[rid := f]
    requires s'.durable == s.durable || s'.durable == s.store
    requires if Committing(f) then s'.store == s.store && s'.durable == s.durable == f.phase.snapshot
             else s'.store == s'.durable
    ensures Agreement(s') && (OneCommit(s) ==> OneCommit(s'))
  {
    assert forall other :: other in s'.flows && Committing(s'.flows[other]) ==>
             other in s.flows && Committing(s.flows[other]);
    assert rid in s'.flows && s'.flows[rid] == f;
    if Committing(f) {
      assert forall other :: other in s.flows && Committing(s.flows[other]) ==> Committing(s'.flows[other]);
    }
  }

  lemma {:induction false} LoneStepKeeps(s: State, env: Env, step: Step)
    requires MemoryInvariant(s) && Enabled(s, step) && Lone(s, step)
    ensures MemoryInvariant(Next(s, env, step))
  {
    ClashFreeStepKeeps(s, env, step);
    if step.WriteStore? {
      WriteKeeps(s, env, step);
    } else if step.Persist? || step.RollBack? {
      EndKeeps(s, env, step);
    } else if !step.UiStep? {
      QuietStep(s, env, step);
      QuietKeeps(s, Next(s, env, step));
    }
  }

  /** With no overlapping writers, memory and durable state agree whenever no commit is under way. */
  lemma {:induction false} LoneRunsAgree(env: Env, records: seq<Record>, steps: seq<Step>, trace: seq<State>, n: nat)
    requires IsRun(env, records, steps, trace) && n < |trace|
    requires forall i :: 0 <= i < |steps| ==> Lone(trace[i], steps[i])
    ensures MemoryInvariant(trace[n])
  {
    if n > 0 {
      LoneRunsAgree(env, records, steps, trace, n - 1);
      LoneStepKeeps(trace[n - 1], env, steps[n - 1]);
    }
  }

  /** The same as long as no second writer makes a difference to a commit it enters. */
  lemma {:induction false} ClashFreeRunsAgree(env: Env, records: seq<Record>, steps: seq<Step>, trace: seq<State>,
                                              n: nat)
    requires IsRun(env, records, steps, trace) && n < |trace|
    requires forall i :: 0 <= i < |steps| ==> !Clash(trace[i], env, steps[i])
    ensures Agreement(trace[n])
  {
    if n > 0 {
      ClashFreeRunsAgree(env, records, steps, trace, n - 1);
      ClashFreeStepKeeps(trace[n - 1], env, steps[n - 1]);
    }
  }
}
