/**
 * The single-flight engine is a special case of the concurrent protocol: what it answers and leaves
 * behind for a well-formed request is reached by a run of protocol steps for that request alone.
 */
module SerialRuns {
  import opened Prelude
  import opened Crypto
  import opened Records
  import opened Engine
  import opened Password
  import opened Approvals
  import opened Protocol
  import opened ProtocolRuns
  import Sessions

  /** The serial engine's world at a state of the protocol. */
  function WorldOf(s: State): World {
    World(s.session, s.store, s.durable, [])
  }

  /** The run ends in the serial engine's world, with the request answered. */
  ghost predicate Serves(t: State, w: World, rid: nat, reply: Reply) {
    && t.session == w.session && t.store == w.store && t.durable == w.durable
    && rid in t.replies && t.replies[rid] == reply
    && rid in t.flows && t.flows[rid].phase.Done?
  }

  /** A request can be taken alone: its ids are fresh and no approval is pending. */
  ghost predicate Free(s: State, rid: nat, id: nat) {
    rid !in s.flows && !WasRaised(s.desk.history, id) && s.desk.slot == None
  }

  /** Arrival and the gate. */
  lemma {:induction false} Enter(s: State, env: Env, rid: nat, req: Request) returns (steps: seq<Step>, t: State)
    requires rid !in s.flows
    ensures Leads(s, env, steps, t)
    ensures var g := GateSession(s.session, req.nonce, req.now, env.idleMs);
            && t == s.(session := g.session, flows := t.flows, replies := t.replies)
            && (g.result.Ok? ==> t.flows == s.flows[rid := Flow(req, PastGate)] && t.replies == s.replies)
            && (g.result.Err? ==> t.flows == s.flows[rid := Flow(req, Done)]
                                  && t.replies == s.replies[rid := Failed(g.result.error)])
  {
    var s1 := Next(s, env, Arrive(rid, req));
    t := Next(s1, env, Gate(rid));
    LeadsOne(s, env, Arrive(rid, req));
    LeadsSnoc(s, env, [Arrive(rid, req)], s1, Gate(rid));
    steps := [Arrive(rid, req)] + [Gate(rid)];
    assert s.flows[rid := Flow(req, Arrived)][rid := t.flows[rid]] == s.flows[rid := t.flows[rid]];
  }

  /** Looking up what to ask, once the gate has been passed and any password opened. */
  lemma {:induction false} Prepare(s: State, env: Env, before: seq<Step>, m: State,
                                   rid: nat) returns (steps: seq<Step>, t: State)
    requires Leads(s, env, before, m) && Enabled(m, LookUp(rid))
    ensures Leads(s, env, steps, t)
    ensures var f := m.flows[rid];
            var job := Looked(m, f.req, f.phase);
            && t == m.(flows := t.flows, replies := t.replies)
            && (job.Ok? ==> t.flows == m.flows[rid := Flow(f.req, Ready(job.value))] && t.replies == m.replies)
            && (job.Err? ==> t.flows == m.flows[rid := Flow(f.req, Done)]
                              && t.replies == m.replies[rid := Failed(job.error)])
  {
    LeadsSnoc(s, env, before, m, LookUp(rid));
    steps, t := before + [LookUp(rid)], Next(m, env, LookUp(rid));
  }

  lemma {:induction false} Ask(s: State, env: Env, before: seq<Step>, m: State, rid: nat, id: nat, decision: Decision)
    returns (steps: seq<Step>, t: State)
    requires Leads(s, env, before, m)
    requires rid in m.flows && m.flows[rid].phase.Ready? && !WasRaised(m.desk.history, id) && m.desk.slot == None
    ensures Leads(s, env, steps, t) && Answered(m, t, rid, id, decision)
  {
    var more, u := AskAndAnswer(m, env, rid, id, decision);
    LeadsThen(s, env, before, m, more, u);
    steps, t := before + more, u;
  }

  lemma {:induction false} FinishRelease(s: State, env: Env, before: seq<Step>, m: State, rid: nat, iv: Iv)
    returns (steps: seq<Step>, t: State)
    requires Leads(s, env, before, m) && Enabled(m, SealRelease(rid, iv))
    ensures Leads(s, env, steps, t)
    ensures var job := m.flows[rid].phase.job;
            var sealed := Sessions.SealPayload(m.session, env.suite, iv, env.utf8.encode(job.password),
                                                m.flows[rid].req.now);
            Serves(t, World(sealed.data, m.store, m.durable, []), rid,
                   if sealed.hex.Err? then Failed(MapSessionError(sealed.hex.error))
                   else Released(job.key.username, sealed.hex.value))
  {
    LeadsSnoc(s, env, before, m, SealRelease(rid, iv));
    steps, t := before + [SealRelease(rid, iv)], Next(m, env, SealRelease(rid, iv));
  }

  /** The question, its answer, and on approval the sealed reply. */
  lemma {:induction false} AskAndRelease(s: State, env: Env, before: seq<Step>, m: State, rid: nat, id: nat,
                                         decision: Decision, iv: Iv)
    returns (steps: seq<Step>, t: State)
    requires Leads(s, env, before, m)
    requires rid in m.flows && m.flows[rid].phase.Ready? && m.flows[rid].req.ReleaseReq?
    requires !WasRaised(m.desk.history, id) && m.desk.slot == None
    ensures Leads(s, env, steps, t)
    ensures var job := m.flows[rid].phase.job;
            var sealed := Sessions.SealPayload(m.session, env.suite, iv, env.utf8.encode(job.password),
                                                m.flows[rid].req.now);
            match Refusal(decision)
            case Some(code) => Serves(t, WorldOf(m), rid, Failed(code))
            case None => Serves(t, WorldOf(m).(session := sealed.data), rid,
                                if sealed.hex.Err? then Failed(MapSessionError(sealed.hex.error))
                                else Released(job.key.username, sealed.hex.value))
  {
    steps, t := Ask(s, env, before, m, rid, id, decision);
    if decision == Approve {
      steps, t := FinishRelease(s, env, steps, t, rid, iv);
    }
  }

  function ReleaseReplyOf(r: Result<ReleaseReply, ErrorCode>): Reply {
    if r.Err? then Failed(r.error) else Released(r.value.username, r.value.sealed)
  }

  /** Every release the serial engine serves is a run of the protocol, with the same answer and effects. */
  lemma {:induction false} ReleaseIsARun(s: State, env: Env, p: ReleaseParams, now: u64, decision: Decision, iv: Iv,
                                         rid: nat, id: nat)
    returns (steps: seq<Step>, t: State)
    requires Free(s, rid, id) && CheckRelease(env, p).Ok?
    ensures Leads(s, env, steps, t)
    ensures var served := ServeRelease(WorldOf(s), env, p, now, decision, iv);
            Serves(t, served.world, rid, ReleaseReplyOf(served.result))
  {
    var req := ReleaseReq(CheckRelease(env, p).value, p.hint, p.nonce, now);
    steps, t := Enter(s, env, rid, req);
    if t.flows[rid].phase.PastGate? {
      steps, t := Prepare(s, env, steps, t, rid);
      if t.flows[rid].phase.Ready? {
        steps, t := AskAndRelease(s, env, steps, t, rid, id, decision, iv);
      }
    }
  }

  // ----- store and generate ---------------------------------------------------

  /** Decrypting the password to store. */
  lemma {:induction false} Decrypt(s: State, env: Env, before: seq<Step>, m: State,
                                   rid: nat) returns (steps: seq<Step>, t: State)
    requires Leads(s, env, before, m) && Enabled(m, OpenSealed(rid))
    ensures Leads(s, env, steps, t)
    ensures var f := m.flows[rid];
            var o := OpenPassword(env, m.session, f.req.sealed, f.req.now);
            && t == m.(session := o.session, flows := t.flows, replies := t.replies)
            && (o.password.Ok? ==> t.flows == m.flows[rid := Flow(f.req, PasswordOpen(o.password.value))]
                                   && t.replies == m.replies)
            && (o.password.Err? ==> t.flows == m.flows[rid := Flow(f.req, Done)]
                                    && t.replies == m.replies[rid := Failed(o.password.error)])
  {
    LeadsSnoc(s, env, before, m, OpenSealed(rid));
    steps, t := before + [OpenSealed(rid)], Next(m, env, OpenSealed(rid));
  }

  /** Writing and persisting, or rolling back. */
  lemma {:induction false} WriteAndPersist(s: State, env: Env, before: seq<Step>, m: State, rid: nat, password: string,
                                           mint: Mint, ok: bool)
    returns (steps: seq<Step>, t: State)
    requires Leads(s, env, before, m) && Enabled(m, WriteStore(rid, password, mint))
    ensures Leads(s, env, steps, t)
    ensures var f := m.flows[rid];
            var job := f.phase.job;
            var after := Upsert(m.store, job.key, password, TitleOf(f.req), mint);
            && t.session == m.session
            && (ok ==> t.store == after && t.durable == after)
            && (!ok ==> Serves(t, World(m.session, m.store, m.durable, []), rid, Failed(Internal)))
            && (ok && f.req.StoreReq? ==> Serves(t, World(m.session, after, after, []), rid, StoreDone))
            && (ok && f.req.GenerateReq? ==>
                  rid in t.flows && t.flows[rid] == Flow(f.req, Persisted(f.phase.id, job.(password := password))))
  {
    var m1 := Next(m, env, WriteStore(rid, password, mint));
    LeadsSnoc(s, env, before, m, WriteStore(rid, password, mint));
    var m2 := Next(m1, env, Persist(rid, ok));
    LeadsSnoc(s, env, before + [WriteStore(rid, password, mint)], m1, Persist(rid, ok));
    steps, t := before + [WriteStore(rid, password, mint)] + [Persist(rid, ok)], m2;
    if !ok {
      LeadsSnoc(s, env, steps, m2, RollBack(rid));
      steps, t := steps + [RollBack(rid)], Next(m2, env, RollBack(rid));
    }
  }

  function StoreReplyOf(r: Result<StoreAction, ErrorCode>): Reply {
    if r.Err? then Failed(r.error) else StoreDone
  }

  /** An approved store request, written and persisted or rolled back. */
  lemma {:induction false} FinishStore(s: State, env: Env, before: seq<Step>, m: State, rid: nat, password: string,
                                       mint: Mint, ok: bool)
    returns (steps: seq<Step>, t: State)
    requires Leads(s, env, before, m) && Enabled(m, WriteStore(rid, password, mint)) && m.flows[rid].req.StoreReq?
    ensures Leads(s, env, steps, t)
    ensures var f := m.flows[rid];
            var done := Commit(WorldOf(m), Upsert(m.store, f.phase.job.key, password, TitleOf(f.req), mint), ok);
            Serves(t, done.world, rid, if done.result.Ok? then StoreDone else Failed(Internal))
  {
    steps, t := WriteAndPersist(s, env, before, m, rid, password, mint, ok);
  }

  /** The question, its answer, and on approval the write. */
  lemma {:induction false} AskAndStore(s: State, env: Env, before: seq<Step>, m: State, rid: nat, id: nat,
                                       decision: Decision, mint: Mint, ok: bool)
    returns (steps: seq<Step>, t: State)
    requires Leads(s, env, before, m)
    requires rid in m.flows && m.flows[rid].phase.Ready? && m.flows[rid].req.StoreReq?
    requires !WasRaised(m.desk.history, id) && m.desk.slot == None
    ensures Leads(s, env, steps, t)
    ensures var f := m.flows[rid];
            var after := Upsert(m.store, f.phase.job.key, f.phase.job.password, TitleOf(f.req), mint);
            var done := Commit(WorldOf(m), after, ok);
            match Refusal(decision)
            case Some(code) => Serves(t, WorldOf(m), rid, Failed(code))
            case None => Serves(t, done.world, rid, if done.result.Ok? then StoreDone else Failed(Internal))
  {
    steps, t := Ask(s, env, before, m, rid, id, decision);
    if decision == Approve {
      steps, t := FinishStore(s, env, steps, t, rid, m.flows[rid].phase.job.password, mint, ok);
    }
  }

  /** Likewise every store request, persisted or not. */
  lemma {:induction false} StoreIsARun(s: State, env: Env, p: StoreParams, now: u64, decision: Decision, mint: Mint,
                                       ok: bool, rid: nat, id: nat)
    returns (steps: seq<Step>, t: State)
    requires Free(s, rid, id) && CheckWrite(env, p.origin, p.username, p.title).Ok?
    ensures Leads(s, env, steps, t)
    ensures var served := ServeStore(WorldOf(s), env, p, now, decision, mint, ok);
            Serves(t, served.world, rid, StoreReplyOf(served.result))
  {
    var req := StoreReq(CheckWrite(env, p.origin, p.username, p.title).value, p.title, p.sealed, p.nonce, now);
    steps, t := Enter(s, env, rid, req);
    if t.flows[rid].phase.PastGate? {
      steps, t := Decrypt(s, env, steps, t, rid);
      if t.flows[rid].phase.PasswordOpen? {
        steps, t := Prepare(s, env, steps, t, rid);
        steps, t := AskAndStore(s, env, steps, t, rid, id, decision, mint, ok);
      }
    }
  }

  lemma {:induction false} SealTheReply(s: State, env: Env, before: seq<Step>, m: State, rid: nat, iv: Iv)
    returns (steps: seq<Step>, t: State)
    requires Leads(s, env, before, m) && Enabled(m, SealGenerated(rid, iv))
    ensures Leads(s, env, steps, t)
    ensures var job := m.flows[rid].phase.job;
            var sealed := Sessions.SealPayload(m.session, env.suite, iv, env.utf8.encode(job.password),
                                                m.flows[rid].req.now);
            Serves(t, World(sealed.data, m.store, m.durable, []), rid,
                   if sealed.hex.Err? then Failed(MapSessionError(sealed.hex.error))
                   else GenerateDone(sealed.hex.value))
  {
    LeadsSnoc(s, env, before, m, SealGenerated(rid, iv));
    steps, t := before + [SealGenerated(rid, iv)], Next(m, env, SealGenerated(rid, iv));
  }

  /** An approved generate request, written and persisted or rolled back, and its password sealed. */
  lemma {:induction false} FinishGenerate(s: State, env: Env, before: seq<Step>, m: State, rid: nat, password: string,
                                          mint: Mint, ok: bool, iv: Iv)
    returns (steps: seq<Step>, t: State)
    requires Leads(s, env, before, m) && Enabled(m, WriteStore(rid, password, mint)) && m.flows[rid].req.GenerateReq?
    ensures Leads(s, env, steps, t)
    ensures var f := m.flows[rid];
            var done := Commit(WorldOf(m), Upsert(m.store, f.phase.job.key, password, TitleOf(f.req), mint), ok);
            var sealed := Sessions.SealPayload(m.session, env.suite, iv, env.utf8.encode(password), f.req.now);
            && (ok ==> Serves(t, done.world.(session := sealed.data), rid,
                              if sealed.hex.Err? then Failed(MapSessionError(sealed.hex.error))
                              else GenerateDone(sealed.hex.value)))
            && (!ok ==> Serves(t, done.world, rid, Failed(Internal)))
  {
    steps, t := WriteAndPersist(s, env, before, m, rid, password, mint, ok);
    if ok {
      steps, t := SealTheReply(s, env, steps, t, rid, iv);
    }
  }

  function GenerateReplyOf(r: Result<GenerateReply, ErrorCode>): Reply {
    if r.Err? then Failed(r.error) else GenerateDone(r.value.sealed)
  }

  /** Likewise every generate request, for every password the generator can make. */
  lemma {:induction false} GenerateIsARun(s: State, env: Env, p: GenerateParams, now: u64, decision: Decision,
                                          password: string, mint: Mint, ok: bool, iv: Iv, rid: nat, id: nat)
    returns (steps: seq<Step>, t: State)
    requires Free(s, rid, id) && CheckWrite(env, p.origin, p.username, p.title).Ok?
    requires Allowed(password, ClampedLength(p.length), CharsetOf(p))
    ensures Leads(s, env, steps, t)
    ensures var served := ServeGenerate(WorldOf(s), env, p, now, decision, password, mint, ok, iv);
            Serves(t, served.world, rid, GenerateReplyOf(served.result))
  {
    var key := CheckWrite(env, p.origin, p.username, p.title).value;
    var req := GenerateReq(key, p.title, p.length, CharsetOf(p), p.nonce, now);
    steps, t := Enter(s, env, rid, req);
    if t.flows[rid].phase.PastGate? {
      steps, t := Prepare(s, env, steps, t, rid);
      if t.flows[rid].phase.Ready? {
        steps, t := Ask(s, env, steps, t, rid, id, decision);
        if decision == Approve {
          steps, t := FinishGenerate(s, env, steps, t, rid, password, mint, ok, iv);
        }
      }
    }
  }
}
