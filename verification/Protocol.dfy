/**
 * The protocol with any number of requests in flight. Every lock acquisition of a handler is one step,
 * and steps of different requests, taps, timeouts, cancels, handshakes and UI operations interleave freely.
 */
module Protocol {
  import opened Prelude
  import opened Crypto
  import opened Records
  import opened Engine
  import opened Password
  import Shuffle
  import opened Approvals
  import Sessions
  import AppShell

  /** A request that passed validation; `now` is its arrival time. */
  datatype Request =
    | ReleaseReq(origin: string, hint: Option<string>, nonce: u64, now: u64)
    | StoreReq(key: Key, title: Option<string>, sealed: string, nonce: u64, now: u64)
    | GenerateReq(key: Key, title: Option<string>, length: Option<nat>, charset: CharsetHint, nonce: u64, now: u64)

  /** What an approval would allow. */
  datatype Job = Job(action: Action, key: Key, password: string)

  /** Where a handler is between two of its atomic steps. */
  datatype Phase =
    | Arrived
    | PastGate
    | PasswordOpen(password: string)
    | Ready(job: Job)
    | Scheduling(id: nat, job: Job)
    | Waiting(id: nat, job: Job)
    | Approved(id: nat, job: Job)
    | Mutated(id: nat, job: Job, snapshot: seq<Record>)
    | RollingBack(id: nat, job: Job, snapshot: seq<Record>)
    | Persisted(id: nat, job: Job)
    | Done

  datatype Flow = Flow(req: Request, phase: Phase)

  datatype Reply =
    | Released(username: string, sealed: string)
    | StoreDone
    | GenerateDone(sealed: string)
    | Failed(code: ErrorCode)

  /** What leaves the device or changes the vault on a host's behalf. */
  datatype Effect =
    | SentPassword(rid: nat, origin: string, username: string)
    | WroteRecord(rid: nat, origin: string, username: string)
    | SentGenerated(rid: nat, origin: string, username: string)

  /** Who raised an approval, and what the user was shown. */
  datatype Question = Question(rid: nat, action: Action, origin: string, username: string)

  datatype State = State(
    clock: nat,
    session: Sessions.Data,
    store: seq<Record>,
    durable: seq<Record>,
    desk: Desk,
    questions: map<nat, Question>,
    flows: map<nat, Flow>,
    effects: seq<Effect>,
    replies: map<nat, Reply>)

  datatype Step =
    | Tick(ms: nat)
    | Handshake(hostHex: string, secret: nat, now: u64)
    | ListGate(now: u64)
    | Arrive(rid: nat, req: Request)
    | Gate(rid: nat)
    | OpenSealed(rid: nat)
    | LookUp(rid: nat)
    | RaiseApproval(rid: nat, id: nat)
    | Scheduled(rid: nat)
    | ScheduleFailed(rid: nat)
    | Tap(approve: bool)
    | Cancel
    | TimeoutPass
    | Receive(rid: nat, decision: Decision)
    | SealRelease(rid: nat, iv: Iv)
    | WriteStore(rid: nat, password: string, mint: Mint)
    | Persist(rid: nat, ok: bool)
    | RollBack(rid: nat)
    | SealGenerated(rid: nat, iv: Iv)
    | UiStep(op: AppShell.UiOp, ok: bool)

  // ----- one step -------------------------------------------------------------


  ghost predicate WasDelivered(d: Desk, id: nat, decision: Decision) {
    exists i :: 0 <= i < |d.history| && d.history[i].Decided?
                && d.history[i].id == id && d.history[i].decision == decision
  }

  ghost predicate Enabled(s: State, step: Step) {
    match step
    case Tick(_) => true
    case Handshake(_, _, _) => true
    case ListGate(_) => true
    case Arrive(rid, _) => rid !in s.flows
    case Gate(rid) => rid in s.flows && s.flows[rid].phase.Arrived?
    case OpenSealed(rid) => rid in s.flows && s.flows[rid].phase.PastGate? && s.flows[rid].req.StoreReq?
    case LookUp(rid) =>
      rid in s.flows && (if s.flows[rid].req.StoreReq? then s.flows[rid].phase.PasswordOpen?
                         else s.flows[rid].phase.PastGate?)
    case RaiseApproval(rid, id) =>
      rid in s.flows && s.flows[rid].phase.Ready? && !WasRaised(s.desk.history, id)
    case Scheduled(rid) => rid in s.flows && s.flows[rid].phase.Scheduling?
    case ScheduleFailed(rid) => rid in s.flows && s.flows[rid].phase.Scheduling?
    case Tap(_) => true
    case Cancel => true
    case TimeoutPass => true
    case Receive(rid, decision) =>
      rid in s.flows && s.flows[rid].phase.Waiting? && WasDelivered(s.desk, s.flows[rid].phase.id, decision)
    case SealRelease(rid, _) => rid in s.flows && s.flows[rid].phase.Approved? && s.flows[rid].req.ReleaseReq?
    case WriteStore(rid, password, _) =>
      rid in s.flows && s.flows[rid].phase.Approved?
      && (match s.flows[rid].req
          case ReleaseReq(_, _, _, _) => false
          case StoreReq(_, _, _, _, _) => password == s.flows[rid].phase.job.password
          case GenerateReq(_, _, length, charset, _, _) => Allowed(password, ClampedLength(length), charset))
    case Persist(rid, _) => rid in s.flows && s.flows[rid].phase.Mutated?
    case RollBack(rid) => rid in s.flows && s.flows[rid].phase.RollingBack?
    case SealGenerated(rid, _) => rid in s.flows && s.flows[rid].phase.Persisted?
    case UiStep(_, _) => true
  }

  function To(s: State, rid: nat, phase: Phase): State
    requires rid in s.flows
  {
    s.(flows := s.flows[rid := s.flows[rid].(phase := phase)])
  }

  function Finish(s: State, rid: nat, reply: Reply): State
    requires rid in s.flows
  {
    To(s, rid, Done).(replies := s.replies[rid := reply])
  }

  function Emit(s: State, e: Effect): State {
    s.(effects := s.effects + [e])
  }

  function Looked(s: State, req: Request, phase: Phase): Result<Job, ErrorCode>
    requires req.StoreReq? ==> phase.PasswordOpen?
  {
    match req
    case ReleaseReq(origin, hint, _, _) =>
      var chosen := Choose(s.store, origin, hint);
      if chosen.Err? then Err(chosen.error)
      else Ok(Job(Release, Key(origin, chosen.value.username), chosen.value.password))
    case StoreReq(key, _, _, _, _) => Ok(Job(SaveAction(Probe(s.store, key)).0, key, phase.password))
    case GenerateReq(key, _, _, charset, _, _) =>
      if Classes(charset) == [] then Err(BadPolicy)
      else Ok(Job(GenerateAction(Probe(s.store, key)).0, key, ""))
  }

  function TitleOf(req: Request): Option<string> {
    match req
    case ReleaseReq(_, _, _, _) => None
    case StoreReq(_, title, _, _, _) => title
    case GenerateReq(_, title, _, _, _, _) => title
  }

  ghost function Next(s: State, env: Env, step: Step): State
    requires Enabled(s, step)
  {
    match step
    case Tick(ms) => s.(clock := s.clock + ms)
    case Handshake(hostHex, secret, now) =>
      s.(session := Sessions.Accept(s.session, env.suite, hostHex, secret, now).data)
    case ListGate(now) =>
      if Sessions.IdleTooLong(s.session, now, env.idleMs) then s.(session := Sessions.Expire(s.session)) else s
    case Arrive(rid, req) => s.(flows := s.flows[rid := Flow(req, Arrived)])
    case Gate(rid) =>
      var req := s.flows[rid].req;
      var gated := GateSession(s.session, req.nonce, req.now, env.idleMs);
      var s1 := s.(session := gated.session);
      if gated.result.Err? then Finish(s1, rid, Failed(gated.result.error)) else To(s1, rid, PastGate)
    case OpenSealed(rid) =>
      var req := s.flows[rid].req;
      var secret := OpenPassword(env, s.session, req.sealed, req.now);
      var s1 := s.(session := secret.session);
      if secret.password.Err? then Finish(s1, rid, Failed(secret.password.error))
      else To(s1, rid, PasswordOpen(secret.password.value))
    case LookUp(rid) =>
      var job := Looked(s, s.flows[rid].req, s.flows[rid].phase);
      if job.Err? then Finish(s, rid, Failed(job.error)) else To(s, rid, Ready(job.value))
    case RaiseApproval(rid, id) =>
      var job := s.flows[rid].phase.job;
      To(s, rid, Scheduling(id, job))
      .(desk := Raise(s.desk, id, s.clock),
        questions := s.questions[id := Question(rid, job.action, job.key.origin, job.key.username)])
    case Scheduled(rid) => To(s, rid, Waiting(s.flows[rid].phase.id, s.flows[rid].phase.job))
    case ScheduleFailed(rid) =>
      Finish(s.(desk := Withdraw(s.desk, s.flows[rid].phase.id, s.clock)), rid, Failed(UserRejected))
    case Tap(approve) => s.(desk := Take(s.desk, if approve then Approve else Reject, s.clock))
    case Cancel => s.(desk := Take(s.desk, Reject, s.clock))
    case TimeoutPass => s.(desk := WorkerPass(s.desk, s.clock))
    case Receive(rid, decision) =>
      var p := s.flows[rid].phase;
      if Refusal(decision).Some? then Finish(s, rid, Failed(Refusal(decision).value))
      else To(s, rid, Approved(p.id, p.job))
    case SealRelease(rid, iv) =>
      var job, now := s.flows[rid].phase.job, s.flows[rid].req.now;
      var sealed := Sessions.SealPayload(s.session, env.suite, iv, env.utf8.encode(job.password), now);
      var s1 := s.(session := sealed.data);
      if sealed.hex.Err? then Finish(s1, rid, Failed(MapSessionError(sealed.hex.error)))
      else Emit(Finish(s1, rid, Released(job.key.username, sealed.hex.value)),
                SentPassword(rid, job.key.origin, job.key.username))
    case WriteStore(rid, password, mint) =>
      var p := s.flows[rid].phase;
      Emit(To(s, rid, Mutated(p.id, p.job.(password := password), s.store))
           .(store := Upsert(s.store, p.job.key, password, TitleOf(s.flows[rid].req), mint)),
           WroteRecord(rid, p.job.key.origin, p.job.key.username))
    case Persist(rid, ok) =>
      var p := s.flows[rid].phase;
      if !ok then To(s, rid, RollingBack(p.id, p.job, p.snapshot))
      else
        var s1 := s.(durable := s.store);
        if s.flows[rid].req.StoreReq? then Finish(s1, rid, StoreDone) else To(s1, rid, Persisted(p.id, p.job))
    case RollBack(rid) =>
      Finish(s.(store := s.flows[rid].phase.snapshot), rid, Failed(Internal))
    case SealGenerated(rid, iv) =>
      var job, now := s.flows[rid].phase.job, s.flows[rid].req.now;
      var sealed := Sessions.SealPayload(s.session, env.suite, iv, env.utf8.encode(job.password), now);
      var s1 := s.(session := sealed.data);
      if sealed.hex.Err? then Finish(s1, rid, Failed(MapSessionError(sealed.hex.error)))
      else Emit(Finish(s1, rid, GenerateDone(sealed.hex.value)),
                SentGenerated(rid, job.key.origin, job.key.username))
    case UiStep(op, ok) =>
      var m := AppShell.UiStep(AppShell.Memory(s.store, s.durable), op, ok);
      s.(store := m.records, durable := m.durable)
  }

  // ----- runs -----------------------------------------------------------------

  function Start(records: seq<Record>): State {
    State(0, Sessions.FRESH, records, records, EMPTY, map[], map[], [], map[])
  }

  /** `trace[i]` is the state before step i; each step is enabled where it is taken. */
  ghost predicate IsRun(env: Env, records: seq<Record>, steps: seq<Step>, trace: seq<State>) {
    && |trace| == |steps| + 1
    && trace[0] == Start(records)
    && forall i :: 0 <= i < |steps| ==> Enabled(trace[i], steps[i]) && trace[i + 1] == Next(trace[i], env, steps[i])
  }

  // ----- approvals cover every effect -----------------------------------------

  function Rank(p: Phase): nat {
    match p
    case Arrived => 0
    case PastGate => 1
    case PasswordOpen(_) => 2
    case Ready(_) => 3
    case Scheduling(_, _) => 4
    case Waiting(_, _) => 5
    case Approved(_, _) => 6
    case Mutated(_, _, _) => 7
    case RollingBack(_, _, _) => 8
    case Persisted(_, _) => 8
    case Done => 9
  }

  /** The job is for the request's own origin and user, and of its kind. */
  predicate Fits(job: Job, req: Request) {
    match req
    case ReleaseReq(origin, hint, _, _) =>
      job.action == Release && job.key.origin == origin && (hint.Some? ==> job.key.username == hint.value)
    case StoreReq(key, _, _, _, _) => job.action != Release && job.key == key
    case GenerateReq(key, _, _, _, _, _) => job.action != Release && job.key == key
  }

  ghost predicate Asked(questions: map<nat, Question>, id: nat, rid: nat, job: Job) {
    id in questions && questions[id] == Question(rid, job.action, job.key.origin, job.key.username)
  }

  ghost predicate FlowOk(d: Desk, questions: map<nat, Question>, rid: nat, f: Flow) {
    match f.phase
    case Ready(job) => Fits(job, f.req)
    case Scheduling(id, job) => Fits(job, f.req) && Asked(questions, id, rid, job)
    case Waiting(id, job) => Fits(job, f.req) && Asked(questions, id, rid, job)
    case Approved(id, job) => Fits(job, f.req) && Asked(questions, id, rid, job) && WasDelivered(d, id, Approve)
    case Mutated(id, job, _) =>
      Fits(job, f.req) && Asked(questions, id, rid, job) && WasDelivered(d, id, Approve) && !f.req.ReleaseReq?
    case RollingBack(id, job, _) =>
      Fits(job, f.req) && Asked(questions, id, rid, job) && WasDelivered(d, id, Approve) && !f.req.ReleaseReq?
    case Persisted(id, job) =>
      Fits(job, f.req) && Asked(questions, id, rid, job) && WasDelivered(d, id, Approve) && f.req.GenerateReq?
    case _ => true
  }

  /** The approval that allows an effect: put to the user for that request, with that origin and user. */
  ghost predicate Allows(d: Desk, questions: map<nat, Question>, id: nat, e: Effect) {
    && id in questions
    && questions[id].rid == e.rid && questions[id].origin == e.origin && questions[id].username == e.username
    && (questions[id].action == Release <==> e.SentPassword?)
    && WasDelivered(d, id, Approve)
  }

  ghost predicate EffectOk(d: Desk, questions: map<nat, Question>, e: Effect) {
    exists id :: id in questions && Allows(d, questions, id, e)
  }

  /** Each request asks once, and only when it is ready. */
  ghost predicate AskedOnce(questions: map<nat, Question>, flows: map<nat, Flow>) {
    && (forall id :: id in questions ==> questions[id].rid in flows && Rank(flows[questions[id].rid].phase) >= 4)
    && (forall i, j {:trigger questions[i], questions[j]} ::
          i in questions && j in questions && i != j ==> questions[i].rid != questions[j].rid)
  }

  predicate SameKind(e: Effect, f: Effect) {
    && (e.SentPassword? <==> f.SentPassword?)
    && (e.WroteRecord? <==> f.WroteRecord?)
  }

  /** The phase a request is in once it has had the effect. */
  function EffectRank(e: Effect): nat {
    if e.WroteRecord? then 7 else 9
  }

  /** Each request has each kind of effect once. */
  ghost predicate EffectsOnce(effects: seq<Effect>, flows: map<nat, Flow>) {
    && (forall p :: 0 <= p < |effects| ==>
          effects[p].rid in flows && Rank(flows[effects[p].rid].phase) >= EffectRank(effects[p]))
    && (forall p, q {:trigger effects[p], effects[q]} ::
          0 <= p < q < |effects| && effects[p].rid == effects[q].rid ==> !SameKind(effects[p], effects[q]))
  }

  ghost predicate ApprovalsOk(d: Desk, questions: map<nat, Question>, flows: map<nat, Flow>, effects: seq<Effect>) {
    && DeskInvariant(d)
    && (forall id :: id in questions <==> WasRaised(d.history, id))
    && (forall rid :: rid in flows ==> FlowOk(d, questions, rid, flows[rid]))
    && AskedOnce(questions, flows)
    && (forall p :: 0 <= p < |effects| ==> EffectOk(d, questions, effects[p]))
    && EffectsOnce(effects, flows)
  }

  ghost predicate Inv(s: State) {
    ApprovalsOk(s.desk, s.questions, s.flows, s.effects)
  }

  /** The desk's history and the questions only grow. */
  ghost predicate Grows(d: Desk, q: map<nat, Question>, d': Desk, q': map<nat, Question>) {
    d.history <= d'.history && forall id :: id in q ==> id in q' && q'[id] == q[id]
  }

  lemma {:induction false} DeliveredGrows(d: Desk, d': Desk, id: nat, decision: Decision)
    requires d.history <= d'.history && WasDelivered(d, id, decision)
    ensures WasDelivered(d', id, decision)
  {
    var i :| 0 <= i < |d.history| && d.history[i].Decided?
             && d.history[i].id == id && d.history[i].decision == decision;
    assert d'.history[i] == d.history[i];
  }

  lemma {:induction false} FlowOkGrows(d: Desk, q: map<nat, Question>, d': Desk, q': map<nat, Question>, rid: nat,
                                       f: Flow)
    requires Grows(d, q, d', q') && FlowOk(d, q, rid, f)
    ensures FlowOk(d', q', rid, f)
  {
    if f.phase.Approved? || f.phase.Mutated? || f.phase.RollingBack? || f.phase.Persisted? {
      DeliveredGrows(d, d', f.phase.id, Approve);
    }
  }

  lemma {:induction false} EffectOkGrows(d: Desk, q: map<nat, Question>, d': Desk, q': map<nat, Question>, e: Effect)
    requires Grows(d, q, d', q') && EffectOk(d, q, e)
    ensures EffectOk(d', q', e)
  {
    var id :| id in q && Allows(d, q, id, e);
    DeliveredGrows(d, d', id, Approve);
    assert Allows(d', q', id, e);
  }

  /** Steps that leave requests, questions and effects alone. */
  lemma {:induction false} DeskStepKeeps(s: State, s': State)
    requires Inv(s) && DeskInvariant(s'.desk) && s.desk.history <= s'.desk.history
    requires forall id :: WasRaised(s.desk.history, id) <==> WasRaised(s'.desk.history, id)
    requires s'.flows == s.flows && s'.questions == s.questions && s'.effects == s.effects
    ensures Inv(s')
  {
    forall rid | rid in s'.flows ensures FlowOk(s'.desk, s'.questions, rid, s'.flows[rid]) {
      FlowOkGrows(s.desk, s.questions, s'.desk, s'.questions, rid, s.flows[rid]);
    }
    forall p | 0 <= p < |s'.effects| ensures EffectOk(s'.desk, s'.questions, s'.effects[p]) {
      EffectOkGrows(s.desk, s.questions, s'.desk, s'.questions, s.effects[p]);
    }
  }

  /** Steps that move one request forward, with nothing else for the approvals to see. */
  lemma {:induction false} FlowStepKeeps(s: State, s': State, rid: nat, f: Flow)
    requires Inv(s) && s'.desk == s.desk && s'.questions == s.questions && s'.effects == s.effects
    requires s'.flows == s.flows[rid := f] && FlowOk(s.desk, s.questions, rid, f)
    requires rid in s.flows ==> Rank(s.flows[rid].phase) <= Rank(f.phase)
    ensures Inv(s')
  {
    forall r | r in s'.flows ensures FlowOk(s'.desk, s'.questions, r, s'.flows[r]) {
    }
  }

  lemma {:induction false} EffectKeeps(s: State, s': State, e: Effect)
    requires Inv(s) && s' == Emit(s, e)
    requires EffectOk(s.desk, s.questions, e)
    requires e.rid in s.flows && Rank(s.flows[e.rid].phase) >= EffectRank(e)
    requires forall p :: 0 <= p < |s.effects| && s.effects[p].rid == e.rid ==> !SameKind(s.effects[p], e)
    ensures Inv(s')
  {
    forall p | 0 <= p < |s'.effects| ensures EffectOk(s'.desk, s'.questions, s'.effects[p]) {
    }
  }

  lemma {:induction false} TakeRaisesNone(d: Desk, decision: Decision, now: nat, id: nat)
    ensures WasRaised(d.history, id) <==> WasRaised(Take(d, decision, now).history, id)
  {
    if d.slot.Some? {
      WasAppend(d.history, Decided(d.slot.value.id, decision, now), id);
    }
  }

  lemma {:induction false} WithdrawRaisesNone(d: Desk, id: nat, now: nat, other: nat)
    ensures WasRaised(d.history, other) <==> WasRaised(Withdraw(d, id, now).history, other)
  {
    WasAppend(d.history, Withdrawn(id, now), other);
  }

  lemma {:induction false} RaiseRaisesOne(d: Desk, id: nat, now: nat, other: nat)
    ensures WasRaised(Raise(d, id, now).history, other) <==> WasRaised(d.history, other) || other == id
  {
    var h := d.history + [Raised(id, now)];
    WasAppend(d.history, Raised(id, now), other);
    if d.slot.Some? {
      WasAppend(h, Decided(d.slot.value.id, Reject, now), other);
      assert Raise(d, id, now).history == h + [Decided(d.slot.value.id, Reject, now)];
    } else {
      assert Raise(d, id, now).history == h;
    }
  }

  lemma {:induction false} RaiseStepKeeps(s: State, env: Env, rid: nat, id: nat)
    requires Inv(s) && Enabled(s, RaiseApproval(rid, id))
    ensures Inv(Next(s, env, RaiseApproval(rid, id)))
  {
    var s' := Next(s, env, RaiseApproval(rid, id));
    RaiseKeeps(s.desk, id, s.clock);
    forall other ensures other in s'.questions <==> WasRaised(s'.desk.history, other) {
      RaiseRaisesOne(s.desk, id, s.clock, other);
    }
    var f := s'.flows[rid];
    assert FlowOk(s.desk, s.questions, rid, s.flows[rid]);
    RaiseExtends(s, s', rid, f, id, s'.questions[id]);
  }

  lemma {:induction false} RaiseExtends(s: State, s': State, rid: nat, f: Flow, id: nat, q: Question)
    requires Inv(s) && rid in s.flows && s.flows[rid].phase.Ready? && f.phase.Scheduling? && id !in s.questions
    requires DeskInvariant(s'.desk) && s.desk.history <= s'.desk.history
    requires forall other :: other in s'.questions <==> WasRaised(s'.desk.history, other)
    requires s'.questions == s.questions[id := q] && q.rid == rid
    requires s'.flows == s.flows[rid := f] && s'.effects == s.effects
    requires FlowOk(s'.desk, s'.questions, rid, f)
    ensures Inv(s')
  {
    assert Grows(s.desk, s.questions, s'.desk, s'.questions);
    FlowsGrow(s, s', rid, f);
    forall p | 0 <= p < |s'.effects| ensures EffectOk(s'.desk, s'.questions, s'.effects[p]) {
      EffectOkGrows(s.desk, s.questions, s'.desk, s'.questions, s.effects[p]);
    }
    AskedOnceMore(s.questions, s.flows, rid, f, id, q);
  }

  lemma {:induction false} FlowsGrow(s: State, s': State, rid: nat, f: Flow)
    requires Inv(s) && Grows(s.desk, s.questions, s'.desk, s'.questions) && s'.flows == s.flows[rid := f]
    requires FlowOk(s'.desk, s'.questions, rid, f)
    ensures forall r :: r in s'.flows ==> FlowOk(s'.desk, s'.questions, r, s'.flows[r])
  {
    forall r | r in s'.flows ensures FlowOk(s'.desk, s'.questions, r, s'.flows[r]) {
      if r != rid { FlowOkGrows(s.desk, s.questions, s'.desk, s'.questions, r, s.flows[r]); }
    }
  }

  lemma {:induction false} AskedOnceMore(questions: map<nat, Question>, flows: map<nat, Flow>, rid: nat, f: Flow,
                                         id: nat, q: Question)
    requires AskedOnce(questions, flows) && id !in questions && q.rid == rid
    requires rid in flows && flows[rid].phase.Ready? && f.phase.Scheduling?
    ensures AskedOnce(questions[id := q], flows[rid := f])
  {
    forall i | i in questions ensures questions[i].rid != rid {
      assert Rank(flows[questions[i].rid].phase) >= 4;
    }
  }

  lemma {:induction false} ApprovedIsAllowed(s: State, rid: nat, e: Effect)
    requires Inv(s) && rid in s.flows && e.rid == rid
    requires var p := s.flows[rid].phase;
             && (p.Approved? || p.Mutated? || p.Persisted?)
             && p.job.key == Key(e.origin, e.username)
             && (p.job.action == Release <==> e.SentPassword?)
    ensures Allows(s.desk, s.questions, s.flows[rid].phase.id, e)
  {
    assert FlowOk(s.desk, s.questions, rid, s.flows[rid]);
  }

  /** What effect a step has, if any. */
  ghost function EffectOf(s: State, env: Env, step: Step): Option<Effect>
    requires Enabled(s, step)
  {
    var after := Next(s, env, step).effects;
    if |after| > |s.effects| then Some(after[|after| - 1]) else None
  }

  /** Answering a request, with or without an effect to record. */
  lemma {:induction false} SendKeeps(s: State, session: Sessions.Data, rid: nat, reply: Reply, e: Effect)
    requires Inv(s) && rid in s.flows && EffectOk(s.desk, s.questions, e)
    requires e.rid == rid
    requires forall p :: 0 <= p < |s.effects| && s.effects[p].rid == rid ==> !SameKind(s.effects[p], e)
    ensures var sent := Finish(s.(session := session), rid, reply); Inv(sent) && Inv(Emit(sent, e))
  {
    var sent := Finish(s.(session := session), rid, reply);
    FlowStepKeeps(s, sent, rid, Flow(s.flows[rid].req, Done));
    EffectKeeps(sent, Emit(sent, e), e);
  }

  lemma {:induction false} SealReleaseKeeps(s: State, env: Env, rid: nat, iv: Iv)
    requires Inv(s) && Enabled(s, SealRelease(rid, iv))
    ensures Inv(Next(s, env, SealRelease(rid, iv)))
  {
    var p := s.flows[rid].phase;
    var e := SentPassword(rid, p.job.key.origin, p.job.key.username);
    assert FlowOk(s.desk, s.questions, rid, s.flows[rid]);
    ApprovedIsAllowed(s, rid, e);
    var sealed := Sessions.SealPayload(s.session, env.suite, iv, env.utf8.encode(p.job.password), s.flows[rid].req.now);
    var reply := if sealed.hex.Err? then Failed(MapSessionError(sealed.hex.error))
                 else Released(p.job.key.username, sealed.hex.value);
    SendKeeps(s, sealed.data, rid, reply, e);
  }

  lemma {:induction false} WriteStoreKeeps(s: State, env: Env, rid: nat, password: string, mint: Mint)
    requires Inv(s) && Enabled(s, WriteStore(rid, password, mint))
    ensures Inv(Next(s, env, WriteStore(rid, password, mint)))
  {
    var p, req := s.flows[rid].phase, s.flows[rid].req;
    WriteKeeps(s, rid, p.job.(password := password), Upsert(s.store, p.job.key, password, TitleOf(req), mint));
  }

  /** The store replaced by an approved request, which goes on to persist it. */
  lemma {:induction false} WriteKeeps(s: State, rid: nat, job: Job, store: seq<Record>)
    requires Inv(s) && rid in s.flows && s.flows[rid].phase.Approved? && !s.flows[rid].req.ReleaseReq?
    requires job == s.flows[rid].phase.job.(password := job.password)
    ensures var s1 := To(s, rid, Mutated(s.flows[rid].phase.id, job, s.store)).(store := store);
            Inv(Emit(s1, WroteRecord(rid, job.key.origin, job.key.username)))
  {
    var s1 := To(s, rid, Mutated(s.flows[rid].phase.id, job, s.store)).(store := store);
    var e := WroteRecord(rid, job.key.origin, job.key.username);
    assert FlowOk(s.desk, s.questions, rid, s.flows[rid]);
    ApprovedIsAllowed(s, rid, e);
    FlowStepKeeps(s, s1, rid, s1.flows[rid]);
    EffectKeeps(s1, Emit(s1, e), e);
  }

  lemma {:induction false} SealGeneratedKeeps(s: State, env: Env, rid: nat, iv: Iv)
    requires Inv(s) && Enabled(s, SealGenerated(rid, iv))
    ensures Inv(Next(s, env, SealGenerated(rid, iv)))
  {
    var p := s.flows[rid].phase;
    var e := SentGenerated(rid, p.job.key.origin, p.job.key.username);
    assert FlowOk(s.desk, s.questions, rid, s.flows[rid]);
    ApprovedIsAllowed(s, rid, e);
    var sealed := Sessions.SealPayload(s.session, env.suite, iv, env.utf8.encode(p.job.password), s.flows[rid].req.now);
    var reply := if sealed.hex.Err? then Failed(MapSessionError(sealed.hex.error)) else GenerateDone(sealed.hex.value);
    SendKeeps(s, sealed.data, rid, reply, e);
  }

  lemma {:induction false} NextKeeps(s: State, env: Env, step: Step)
    requires Inv(s) && Enabled(s, step)
    ensures Inv(Next(s, env, step))
  {
    match step
    case Arrive(rid, req) => ArriveKeeps(s, env, rid, req);
    case Gate(rid) => GateKeeps(s, env, rid);
    case OpenSealed(rid) => OpenSealedKeeps(s, env, rid);
    case LookUp(rid) => LookUpKeeps(s, env, rid);
    case RaiseApproval(rid, id) => RaiseStepKeeps(s, env, rid, id);
    case ScheduleFailed(rid) => WithdrawStepKeeps(s, env, rid);
    case SealRelease(rid, iv) => SealReleaseKeeps(s, env, rid, iv);
    case WriteStore(rid, password, mint) => WriteStoreKeeps(s, env, rid, password, mint);
    case SealGenerated(rid, iv) => SealGeneratedKeeps(s, env, rid, iv);
    case Scheduled(_) => AskedStepKeeps(s, env, step);
    case Receive(_, _) => AskedStepKeeps(s, env, step);
    case Persist(_, _) => CommitStepKeeps(s, env, step);
    case RollBack(_) => CommitStepKeeps(s, env, step);
    case Tap(approve) => TakeStepKeeps(s, if approve then Approve else Reject);
    case Cancel => TakeStepKeeps(s, Reject);
    case TimeoutPass => WorkerKeeps(s, env);
    case _ => OutsideKeeps(s, env, step);
  }

  lemma {:induction false} AskedStepKeeps(s: State, env: Env, step: Step)
    requires Inv(s) && Enabled(s, step) && (step.Scheduled? || step.Receive?)
    ensures Inv(Next(s, env, step))
  {
    ForwardKeeps(s, Next(s, env, step), step.rid);
  }

  lemma {:induction false} CommitStepKeeps(s: State, env: Env, step: Step)
    requires Inv(s) && Enabled(s, step) && (step.Persist? || step.RollBack?)
    ensures Inv(Next(s, env, step))
  {
    ForwardKeeps(s, Next(s, env, step), step.rid);
  }

  lemma {:induction false} WorkerKeeps(s: State, env: Env)
    requires Inv(s)
    ensures Inv(Next(s, env, TimeoutPass))
  {
    if s.desk.slot.Some? && s.clock >= s.desk.slot.value.deadline {
      TakeStepKeeps(s, Timeout);
    } else {
      assert WorkerPass(s.desk, s.clock) == s.desk;
      SameApprovals(s, Next(s, env, TimeoutPass));
    }
  }

  /** Clock, session and UI steps do not concern approvals. */
  lemma {:induction false} OutsideKeeps(s: State, env: Env, step: Step)
    requires Inv(s) && (step.Tick? || step.Handshake? || step.ListGate? || step.UiStep?)
    ensures Inv(Next(s, env, step))
  {
    var s' := Next(s, env, step);
    assert s'.desk == s.desk && s'.questions == s.questions && s'.flows == s.flows && s'.effects == s.effects;
    SameApprovals(s, s');
  }

  lemma {:induction false} SameApprovals(s: State, s': State)
    requires Inv(s) && s'.desk == s.desk && s'.questions == s.questions
    requires s'.flows == s.flows && s'.effects == s.effects
    ensures Inv(s')
  {
  }

  /** Steps before any approval: nothing has been asked yet. */
  lemma {:induction false} GateKeeps(s: State, env: Env, rid: nat)
    requires Inv(s) && Enabled(s, Gate(rid))
    ensures Inv(Next(s, env, Gate(rid)))
  {
    var s' := Next(s, env, Gate(rid));
    var f := s'.flows[rid];
    assert s'.flows == s.flows[rid := f] && (f.phase.PastGate? || f.phase.Done?);
    FlowStepKeeps(s, s', rid, f);
  }

  lemma {:induction false} OpenSealedKeeps(s: State, env: Env, rid: nat)
    requires Inv(s) && Enabled(s, OpenSealed(rid))
    ensures Inv(Next(s, env, OpenSealed(rid)))
  {
    var s' := Next(s, env, OpenSealed(rid));
    var f := s'.flows[rid];
    assert s'.flows == s.flows[rid := f] && (f.phase.PasswordOpen? || f.phase.Done?);
    FlowStepKeeps(s, s', rid, f);
  }

  lemma {:induction false} ArriveKeeps(s: State, env: Env, rid: nat, req: Request)
    requires Inv(s) && rid !in s.flows
    ensures Inv(Next(s, env, Arrive(rid, req)))
  {
    FlowStepKeeps(s, Next(s, env, Arrive(rid, req)), rid, Flow(req, Arrived));
  }

  lemma {:induction false} TakeStepKeeps(s: State, decision: Decision)
    requires Inv(s)
    requires decision == Timeout && s.desk.slot.Some? ==> s.clock >= s.desk.slot.value.deadline
    ensures Inv(s.(desk := Take(s.desk, decision, s.clock)))
  {
    TakeKeeps(s.desk, decision, s.clock);
    forall id ensures WasRaised(s.desk.history, id) <==> WasRaised(Take(s.desk, decision, s.clock).history, id) {
      TakeRaisesNone(s.desk, decision, s.clock, id);
    }
    DeskStepKeeps(s, s.(desk := Take(s.desk, decision, s.clock)));
  }

  lemma {:induction false} LookUpKeeps(s: State, env: Env, rid: nat)
    requires Inv(s) && Enabled(s, LookUp(rid))
    ensures Inv(Next(s, env, LookUp(rid)))
  {
    var f := s.flows[rid];
    var job := Looked(s, f.req, f.phase);
    LookedFits(s, f.req, f.phase);
    var s' := if job.Err? then Finish(s, rid, Failed(job.error)) else To(s, rid, Ready(job.value));
    FlowStepKeeps(s, s', rid, s'.flows[rid]);
  }

  lemma {:induction false} LookedFits(s: State, req: Request, phase: Phase)
    requires req.StoreReq? ==> phase.PasswordOpen?
    ensures Looked(s, req, phase).Ok? ==> Fits(Looked(s, req, phase).value, req)
  {
    if req.ReleaseReq? && Choose(s.store, req.origin, req.hint).Ok? {
      ChosenIsLive(s.store, req.origin, req.hint);
    }
  }

  lemma {:induction false} WithdrawStepKeeps(s: State, env: Env, rid: nat)
    requires Inv(s) && Enabled(s, ScheduleFailed(rid))
    ensures Inv(Next(s, env, ScheduleFailed(rid)))
  {
    var id := s.flows[rid].phase.id;
    var s1 := s.(desk := Withdraw(s.desk, id, s.clock));
    WithdrawKeeps(s.desk, id, s.clock);
    forall other ensures WasRaised(s.desk.history, other) <==> WasRaised(s1.desk.history, other) {
      WithdrawRaisesNone(s.desk, id, s.clock, other);
    }
    DeskStepKeeps(s, s1);
    FlowStepKeeps(s1, Finish(s1, rid, Failed(UserRejected)), rid, Flow(s.flows[rid].req, Done));
  }

  /** Steps from Scheduling on that have no effect of their own. */
  lemma {:induction false} ForwardKeeps(s: State, s': State, rid: nat)
    requires Inv(s) && rid in s.flows && rid in s'.flows
    requires s'.desk == s.desk && s'.questions == s.questions && s'.effects == s.effects
    requires s'.flows == s.flows[rid := s'.flows[rid]] && s'.flows[rid].req == s.flows[rid].req
    requires var p, p' := s.flows[rid].phase, s'.flows[rid].phase;
             || (p.Scheduling? && p' == Waiting(p.id, p.job))
             || (p.Waiting? && p' == Approved(p.id, p.job) && WasDelivered(s.desk, p.id, Approve))
             || (p.Mutated? && p' == RollingBack(p.id, p.job, p.snapshot))
             || (p.Mutated? && p' == Persisted(p.id, p.job) && !s.flows[rid].req.StoreReq?)
             || p' == Done
    ensures Inv(s')
  {
    assert FlowOk(s.desk, s.questions, rid, s.flows[rid]);
    FlowStepKeeps(s, s', rid, s'.flows[rid]);
  }

  lemma {:induction false} StartInv(records: seq<Record>)
    ensures Inv(Start(records))
  {
    assert forall id :: !WasRaised([], id);
  }

  lemma {:induction false} RunInv(env: Env, records: seq<Record>, steps: seq<Step>, trace: seq<State>, n: nat)
    requires IsRun(env, records, steps, trace) && n < |trace|
    ensures Inv(trace[n])
  {
    if n == 0 {
      StartInv(records);
    } else {
      RunInv(env, records, steps, trace, n - 1);
      NextKeeps(trace[n - 1], env, steps[n - 1]);
    }
  }
}
