/**
 * Writers that enter a commit under way: exactly when memory and the durable copy can come apart, and a
 * reachable run in which a credential the host was told is saved is lost from memory.
 */
module Overlap {
  import opened Prelude
  import opened Crypto
  import opened Records
  import opened Engine
  import opened Password
  import opened Approvals
  import opened Protocol
  import opened ProtocolRuns
  import opened ProtocolSafety
  import Sessions
  import AppShell

  /** A generate request at time 0 for a user of one site. */
  function Wish(username: string, nonce: u64): Request {
    GenerateReq(Key("https://example.com", username), None, None, CharsetHint(true, true, true), nonce, 0)
  }

  /** The request has been asked about and approved; nothing else about the vault changed. */
  ghost predicate Granted(s: State, t: State, rid: nat, req: Request) {
    && req.GenerateReq? && rid in t.flows && t.flows[rid].req == req && t.flows[rid].phase.Approved?
    && t.flows[rid].phase.job.key == req.key
    && t.flows.Keys == s.flows.Keys + {rid}
    && (forall r :: r in s.flows && r != rid ==> t.flows[r] == s.flows[r])
    && t.store == s.store && t.durable == s.durable && t.replies == s.replies && t.desk.slot == None
    && t.session == s.session.(lastNonce := req.nonce, lastActivityMs := 0)
    && (forall id :: WasRaised(t.desk.history, id) <==> WasRaised(s.desk.history, id) || id == rid)
  }

  /** Seven steps take a fresh request to its approval. */
  lemma {:induction false} Grant(s: State, env: Env, rid: nat, username: string, nonce: u64) returns (steps: seq<Step>,
                                 t: State)
    requires s.session.state == Sessions.Active && s.session.lastActivityMs == 0 && env.idleMs > 0
    requires nonce > s.session.lastNonce && rid !in s.flows && !WasRaised(s.desk.history, rid)
    requires s.desk.slot == None && s.clock == 0
    ensures Leads(s, env, steps, t) && Granted(s, t, rid, Wish(username, nonce)) && t.clock == 0
  {
    var before, m := ReadyToAsk(s, env, rid, username, nonce);
    var more, u := AskAndAnswer(m, env, rid, rid, Approve);
    LeadsThen(s, env, before, m, more, u);
    steps, t := before + more, u;
  }

  lemma {:induction false} ReadyToAsk(s: State, env: Env, rid: nat, username: string,
                                      nonce: u64) returns (steps: seq<Step>, t: State)
    requires s.session.state == Sessions.Active && s.session.lastActivityMs == 0 && env.idleMs > 0
    requires nonce > s.session.lastNonce && rid !in s.flows
    ensures Leads(s, env, steps, t)
    ensures var req := Wish(username, nonce);
            var job := Job(GenerateAction(Probe(s.store, req.key)).0, req.key, "");
            t == s.(session := GateSession(s.session, nonce, 0, env.idleMs).session,
                    flows := s.flows[rid := Flow(req, Ready(job))])
  {
    var req := Wish(username, nonce);
    var s1 := Next(s, env, Arrive(rid, req));
    steps := [Arrive(rid, req)];
    LeadsOne(s, env, Arrive(rid, req));
    var s2 := Next(s1, env, Gate(rid));
    GateOpensExactly(s1.session, nonce, 0, env.idleMs);
    assert s2.flows == s.flows[rid := Flow(req, PastGate)];
    LeadsSnoc(s, env, steps, s1, Gate(rid));
    steps := steps + [Gate(rid)];
    t := Next(s2, env, LookUp(rid));
    assert Classes(CharsetHint(true, true, true)) != [];
    var job := Job(GenerateAction(Probe(s.store, req.key)).0, req.key, "");
    assert t.flows == s.flows[rid := Flow(req, Ready(job))];
    LeadsSnoc(s, env, steps, s2, LookUp(rid));
    steps := steps + [LookUp(rid)];
  }

  // ----- runs without clashes --------------------------------------------------

  /** `steps`, each enabled and no clash, lead from `s` to `t`. */
  ghost predicate Calm(s: State, env: Env, steps: seq<Step>, t: State)
    decreases |steps|
  {
    if steps == [] then t == s
    else Enabled(s, steps[0]) && !Clash(s, env, steps[0]) && Calm(Next(s, env, steps[0]), env, steps[1..], t)
  }

  lemma {:induction false} CalmLeads(s: State, env: Env, steps: seq<Step>, t: State)
    requires Calm(s, env, steps, t)
    ensures Leads(s, env, steps, t)
    decreases |steps|
  {
    if steps != [] { CalmLeads(Next(s, env, steps[0]), env, steps[1..], t); }
  }

  lemma {:induction false} CalmThen(s: State, env: Env, before: seq<Step>, m: State, after: seq<Step>, t: State)
    requires Calm(s, env, before, m) && Calm(m, env, after, t)
    ensures Calm(s, env, before + after, t)
    decreases |before|
  {
    if before == [] {
      assert before + after == after;
    } else {
      assert (before + after)[1..] == before[1..] + after;
      CalmThen(Next(s, env, before[0]), env, before[1..], m, after, t);
    }
  }

  lemma {:induction false} CalmOne(s: State, env: Env, step: Step)
    requires Enabled(s, step) && !Clash(s, env, step)
    ensures Calm(s, env, [step], Next(s, env, step))
  {
    assert [step][1..] == [];
    assert Calm(Next(s, env, step), env, [], Next(s, env, step));
  }

  lemma {:induction false} CalmKeeps(s: State, env: Env, steps: seq<Step>, t: State)
    requires Agreement(s) && Calm(s, env, steps, t)
    ensures Agreement(t)
    decreases |steps|
  {
    if steps != [] {
      ClashFreeStepKeeps(s, env, steps[0]);
      CalmKeeps(Next(s, env, steps[0]), env, steps[1..], t);
    }
  }

  // ----- ending commits --------------------------------------------------------

  /** The commit's persist fails, and it puts its snapshot back. */
  lemma {:induction false} FailCommit(s: State, env: Env, rid: nat) returns (steps: seq<Step>, t: State)
    requires rid in s.flows && Committing(s.flows[rid])
    ensures Calm(s, env, steps, t)
    ensures t == s.(store := s.flows[rid].phase.snapshot, flows := s.flows[rid := Flow(s.flows[rid].req, Done)],
                    replies := s.replies[rid := Failed(Internal)])
  {
    steps, t := [], s;
    if s.flows[rid].phase.Mutated? {
      CalmOne(s, env, Persist(rid, false));
      steps, t := [Persist(rid, false)], Next(s, env, Persist(rid, false));
    }
    CalmOne(t, env, RollBack(rid));
    CalmThen(s, env, steps, t, [RollBack(rid)], Next(t, env, RollBack(rid)));
    steps, t := steps + [RollBack(rid)], Next(t, env, RollBack(rid));
    assert t.flows == s.flows[rid := Flow(s.flows[rid].req, Done)];
  }

  /** All of them fail, all with the same snapshot. */
  lemma {:induction false} FailCommits(s: State, env: Env, rids: set<nat>, snapshot: seq<Record>)
    returns (steps: seq<Step>, t: State)
    requires forall rid :: rid in rids ==>
               rid in s.flows && Committing(s.flows[rid]) && s.flows[rid].phase.snapshot == snapshot
    ensures Calm(s, env, steps, t)
    ensures t.durable == s.durable && t.store == if rids == {} then s.store else snapshot
    ensures t.flows.Keys == s.flows.Keys
    ensures forall rid :: rid in s.flows ==>
              t.flows[rid] == if rid in rids then Flow(s.flows[rid].req, Done) else s.flows[rid]
    decreases |rids|
  {
    if rids == {} {
      steps, t := [], s;
    } else {
      var rid :| rid in rids;
      var first, m := FailCommit(s, env, rid);
      var more, u := FailCommits(m, env, rids - {rid}, snapshot);
      CalmThen(s, env, first, m, more, u);
      steps, t := first + more, u;
    }
  }

  // ----- every clash lets the copies come apart --------------------------------

  /** No commit is under way and the two copies differ. */
  ghost predicate Apart(s: State) {
    !Busy(s) && s.store != s.durable
  }

  ghost predicate CanComeApart(s: State, env: Env) {
    exists steps, t :: Calm(s, env, steps, t) && Apart(t)
  }

  ghost function Commits(s: State): set<nat> {
    set rid | rid in s.flows && Committing(s.flows[rid])
  }

  lemma {:induction false} UiClashParts(s: State, env: Env, op: AppShell.UiOp, ok: bool) returns (steps: seq<Step>,
                                        t: State)
    requires Agreement(s) && Clash(s, env, UiStep(op, ok))
    ensures Calm(Next(s, env, UiStep(op, ok)), env, steps, t) && Apart(t)
  {
    var s' := Next(s, env, UiStep(op, ok));
    steps, t := FailCommits(s', env, Commits(s'), s.durable);
    AllEnded(s', t, Commits(s'));
    SomeCommit(s');
  }

  lemma {:induction false} AllEnded(s: State, t: State, rids: set<nat>)
    requires t.flows.Keys == s.flows.Keys && Commits(s) <= rids
    requires forall rid :: rid in s.flows ==>
              t.flows[rid] == if rid in rids then Flow(s.flows[rid].req, Done) else s.flows[rid]
    ensures !Busy(t)
  {
    forall rid | rid in t.flows ensures !Committing(t.flows[rid]) {
      if rid !in rids { assert rid !in Commits(s); }
    }
  }

  /** Request `b` has written within a commit under way; `s` was before. */
  ghost predicate Joined(s: State, s1: State, b: nat) {
    && Agreement(s) && Busy(s) && b in s.flows && b in s1.flows && !Committing(s.flows[b])
    && s1.flows == s.flows[b := s1.flows[b]] && s1.durable == s.durable
    && s1.flows[b].phase.Mutated? && s1.flows[b].phase.snapshot == s.store
  }

  /** Its write is persisted, and then the commits it joined fail. */
  lemma {:induction false} SavedThenLost(s: State, s1: State, env: Env, b: nat) returns (steps: seq<Step>, t: State)
    requires Joined(s, s1, b) && s1.store != s.durable
    ensures Calm(s1, env, steps, t) && Apart(t)
  {
    var s2 := Next(s1, env, Persist(b, true));
    CalmOne(s1, env, Persist(b, true));
    AfterPersist(s1, env, b);
    assert s2.flows == s.flows[b := s2.flows[b]] && !Committing(s2.flows[b]);
    var more, u := FailCommits(s2, env, Commits(s), s.durable);
    CalmThen(s1, env, [Persist(b, true)], s2, more, u);
    steps, t := [Persist(b, true)] + more, u;
    AllEnded(s2, t, Commits(s));
    SomeCommit(s);
  }

  lemma {:induction false} SomeCommit(s: State)
    requires Busy(s)
    ensures Commits(s) != {}
  {
    var rid :| rid in s.flows && Committing(s.flows[rid]);
    assert rid in Commits(s);
  }

  /** The commits it joined fail, and then its own, whose snapshot has their writes. */
  lemma {:induction false} LostThenBack(s: State, s1: State, env: Env, b: nat) returns (steps: seq<Step>, t: State)
    requires Joined(s, s1, b) && s.store != s.durable
    ensures Calm(s1, env, steps, t) && Apart(t)
  {
    var first, s2 := FailCommits(s1, env, Commits(s), s.durable);
    assert b !in Commits(s) && s2.flows[b] == s1.flows[b];
    var second, s3 := FailCommit(s2, env, b);
    CalmThen(s1, env, first, s2, second, s3);
    steps, t := first + second, s3;
    forall rid | rid in t.flows ensures !Committing(t.flows[rid]) {
      if rid !in Commits(s) && rid != b { assert t.flows[rid] == s.flows[rid]; }
    }
  }

  /**
   * After a run without clashes, a step is a clash iff the copies can come apart after it with no further
   * clash. So memory drifts from the durable state exactly when a second writer makes a difference.
   */
  lemma {:induction false} ClashesExactly(env: Env, records: seq<Record>, steps: seq<Step>, trace: seq<State>,
                                          step: Step)
    requires IsRun(env, records, steps, trace) && forall i :: 0 <= i < |steps| ==> !Clash(trace[i], env, steps[i])
    requires Enabled(trace[|steps|], step)
    ensures Clash(trace[|steps|], env, step)
       <==> CanComeApart(Next(trace[|steps|], env, step), env)
  {
    var s := trace[|steps|];
    ClashFreeRunsAgree(env, records, steps, trace, |steps|);
    if Clash(s, env, step) {
      var more, t := ClashParts(s, env, step);
    } else {
      ClashFreeStepKeeps(s, env, step);
      StaysTogether(Next(s, env, step), env);
    }
  }

  lemma {:induction false} StaysTogether(s: State, env: Env)
    requires Agreement(s)
    ensures !CanComeApart(s, env)
  {
    forall more, t | Calm(s, env, more, t) ensures !Apart(t) {
      CalmKeeps(s, env, more, t);
    }
  }

  lemma {:induction false} ClashParts(s: State, env: Env, step: Step) returns (more: seq<Step>, t: State)
    requires Agreement(s) && Enabled(s, step) && Clash(s, env, step)
    ensures Calm(Next(s, env, step), env, more, t) && Apart(t)
  {
    if step.UiStep? {
      more, t := UiClashParts(s, env, step.op, step.ok);
    } else {
      AfterWrite(s, env, step.rid, step.password, step.mint);
      more, t := WriteClashParts(s, Next(s, env, step), env, step.rid);
    }
  }

  lemma {:induction false} WriteClashParts(s: State, s1: State, env: Env, b: nat) returns (more: seq<Step>, t: State)
    requires Joined(s, s1, b) && (s.store != s.durable || s1.store != s.store)
    ensures Calm(s1, env, more, t) && Apart(t)
  {
    if s.store != s.durable {
      more, t := LostThenBack(s, s1, env, b);
    } else {
      more, t := SavedThenLost(s, s1, env, b);
    }
  }

  // ----- two approved requests -------------------------------------------------

  /** What the host is told once its write was persisted. */
  function SavedReply(s: State, env: Env, req: Request, password: string, iv: Iv): Reply {
    if req.StoreReq? then StoreDone
    else
      var sealed := Sessions.SealPayload(s.session, env.suite, iv, env.utf8.encode(password), req.now);
      if sealed.hex.Err? then Failed(MapSessionError(sealed.hex.error)) else GenerateDone(sealed.hex.value)
  }

  /**
   * Any two approved writes: a writes, b writes and persists, the host is told so, and then a's persist
   * fails and it puts its snapshot back. The durable copy has both writes and memory neither.
   */
  lemma {:induction false} OverlapDiverges(s: State, env: Env, a: nat, b: nat, pa: string, ma: Mint, pb: string,
                                           mb: Mint, iv: Iv)
    returns (steps: seq<Step>, t: State)
    requires a != b && Enabled(s, WriteStore(a, pa, ma)) && Enabled(s, WriteStore(b, pb, mb))
    ensures Leads(s, env, steps, t)
    ensures var fa, fb := s.flows[a], s.flows[b];
            && t.store == s.store
            && t.durable == Upsert(Upsert(s.store, fa.phase.job.key, pa, TitleOf(fa.req), ma),
                                   fb.phase.job.key, pb, TitleOf(fb.req), mb)
            && t.flows == s.flows[b := Flow(fb.req, Done)][a := Flow(fa.req, Done)]
            && t.replies == s.replies[b := SavedReply(s, env, fb.req, pb, iv)][a := Failed(Internal)]
  {
    var writes, s2 := WriteBoth(s, env, a, b, pa, ma, pb, mb);
    var more, u := SaveThenFail(s2, env, a, b, iv);
    LeadsThen(s, env, writes, s2, more, u);
    steps, t := writes + more, u;
    var fa, fb := s.flows[a], s.flows[b];
    assert t.flows == s.flows[b := Flow(fb.req, Done)][a := Flow(fa.req, Done)];
  }

  /** Of two commits under way b is persisted and the host told, and a fails. */
  lemma {:induction false} SaveThenFail(s: State, env: Env, a: nat, b: nat, iv: Iv) returns (steps: seq<Step>, t: State)
    requires a != b && a in s.flows && b in s.flows && s.flows[a].phase.Mutated? && s.flows[b].phase.Mutated?
    ensures Leads(s, env, steps, t)
    ensures var fa, fb := s.flows[a], s.flows[b];
            && t.store == fa.phase.snapshot && t.durable == s.store
            && t.flows == s.flows[b := Flow(fb.req, Done)][a := Flow(fa.req, Done)]
            && t.replies == s.replies[b := SavedReply(s, env, fb.req, fb.phase.job.password, iv)][a := Failed(Internal)]
  {
    var saved, m := Saved(s, env, b, iv);
    var lost, u := FailCommit(m, env, a);
    CalmLeads(m, env, lost, u);
    LeadsThen(s, env, saved, m, lost, u);
    steps, t := saved + lost, u;
  }

  lemma {:induction false} WriteBoth(s: State, env: Env, a: nat, b: nat, pa: string, ma: Mint, pb: string, mb: Mint)
    returns (steps: seq<Step>, t: State)
    requires a != b && Enabled(s, WriteStore(a, pa, ma)) && Enabled(s, WriteStore(b, pb, mb))
    ensures Leads(s, env, steps, t)
    ensures var fa, fb := s.flows[a], s.flows[b];
            var once := Upsert(s.store, fa.phase.job.key, pa, TitleOf(fa.req), ma);
            && t.store == Upsert(once, fb.phase.job.key, pb, TitleOf(fb.req), mb)
            && t.flows == s.flows[a := Written(fa, pa, s.store)][b := Written(fb, pb, once)]
            && t.session == s.session && t.replies == s.replies
  {
    var s1 := Next(s, env, WriteStore(a, pa, ma));
    AfterWrite(s, env, a, pa, ma);
    t := Next(s1, env, WriteStore(b, pb, mb));
    AfterWrite(s1, env, b, pb, mb);
    LeadsOne(s, env, WriteStore(a, pa, ma));
    LeadsSnoc(s, env, [WriteStore(a, pa, ma)], s1, WriteStore(b, pb, mb));
    steps := [WriteStore(a, pa, ma)] + [WriteStore(b, pb, mb)];
  }

  /** The write is persisted and the host is told. */
  lemma {:induction false} Saved(s: State, env: Env, b: nat, iv: Iv) returns (steps: seq<Step>, t: State)
    requires b in s.flows && s.flows[b].phase.Mutated?
    ensures Leads(s, env, steps, t)
    ensures var f := s.flows[b];
            && t.store == s.store && t.durable == s.store
            && t.flows == s.flows[b := Flow(f.req, Done)]
            && t.replies == s.replies[b := SavedReply(s, env, f.req, f.phase.job.password, iv)]
  {
    var f := s.flows[b];
    var s1 := Next(s, env, Persist(b, true));
    AfterPersist(s, env, b);
    LeadsOne(s, env, Persist(b, true));
    steps, t := [Persist(b, true)], s1;
    if !f.req.StoreReq? {
      AfterSeal(s1, env, b, iv);
      LeadsSnoc(s, env, steps, s1, SealGenerated(b, iv));
      steps, t := steps + [SealGenerated(b, iv)], Next(s1, env, SealGenerated(b, iv));
    }
    assert t.flows == s.flows[b := Flow(f.req, Done)];
  }

  function Written(f: Flow, password: string, snapshot: seq<Record>): Flow
    requires f.phase.Approved?
  {
    Flow(f.req, Mutated(f.phase.id, f.phase.job.(password := password), snapshot))
  }

  lemma {:induction false} AfterWrite(s: State, env: Env, rid: nat, password: string, mint: Mint)
    requires Enabled(s, WriteStore(rid, password, mint))
    ensures var s', f := Next(s, env, WriteStore(rid, password, mint)), s.flows[rid];
            && s'.store == Upsert(s.store, f.phase.job.key, password, TitleOf(f.req), mint)
            && s'.flows == s.flows[rid := Written(f, password, s.store)]
            && s'.durable == s.durable && s'.session == s.session && s'.replies == s.replies
  {
  }

  lemma {:induction false} AfterPersist(s: State, env: Env, rid: nat)
    requires rid in s.flows && s.flows[rid].phase.Mutated?
    ensures var s', f := Next(s, env, Persist(rid, true)), s.flows[rid];
            && s'.store == s.store && s'.durable == s.store && s'.session == s.session
            && s'.flows == s.flows[rid := Flow(f.req, if f.req.StoreReq? then Done
                                                      else Persisted(f.phase.id, f.phase.job))]
            && s'.replies == if f.req.StoreReq? then s.replies[rid := StoreDone] else s.replies
  {
  }

  lemma {:induction false} AfterSeal(s: State, env: Env, rid: nat, iv: Iv)
    requires rid in s.flows && s.flows[rid].phase.Persisted? && !s.flows[rid].req.StoreReq?
    ensures var s', f := Next(s, env, SealGenerated(rid, iv)), s.flows[rid];
            && s'.store == s.store && s'.durable == s.durable
            && s'.flows == s.flows[rid := Flow(f.req, Done)]
            && s'.replies == s.replies[rid := SavedReply(s, env, f.req, f.phase.job.password, iv)]
  {
  }

  /**
   * Such a run starts from an empty vault, whenever a handshake and an encryption succeed: bob's host is
   * told his password is saved, and memory has no record of it.
   */
  lemma {:induction false} LostAfterSaved(env: Env, hostHex: string, secret: nat, password: string, mint: Mint, iv: Iv)
    returns (steps: seq<Step>, trace: seq<State>)
    requires env.idleMs > 0 && Allowed(password, ClampedLength(None), CharsetHint(true, true, true))
    requires var accepted := Sessions.Accept(Sessions.FRESH, env.suite, hostHex, secret, 0);
             accepted.reply.Ok?
             && Sessions.SealPayload(accepted.data, env.suite, iv, env.utf8.encode(password), 0).hex.Ok?
    ensures IsRun(env, [], steps, trace)
    ensures var t := trace[|steps|];
            && !Busy(t) && 2 in t.replies && t.replies[2].GenerateDone?
            && t.store == [] && Find(t.durable, Wish("bob", 2).key).Some?
  {
    var s := Start([]);
    var h := Handshake(hostHex, secret, 0);
    var s0 := Next(s, env, h);
    LeadsOne(s, env, h);
    var grants, s2 := TwoGrants(s0, env);
    var last, t := OverlapDiverges(s2, env, 1, 2, password, mint, password, mint, iv);
    LeadsThen(s, env, [h], s0, grants, s2);
    LeadsThen(s, env, [h] + grants, s2, last, t);
    steps := [h] + grants + last;
    trace := LeadsIsRun(s, env, steps, t);
    UpsertHasKey(Upsert([], Wish("alice", 1).key, password, None, mint), Wish("bob", 2).key, password, None, mint);
    assert t.flows.Keys == {1, 2};
  }

  lemma {:induction false} UpsertHasKey(rs: seq<Record>, k: Key, password: string, title: Option<string>, mint: Mint)
    ensures Find(Upsert(rs, k, password, title, mint), k).Some?
  {
    FindIs(Upsert(rs, k, password, title, mint), k, if Find(rs, k).Some? then Find(rs, k).value else |rs|);
  }

  lemma {:induction false} TwoGrants(s: State, env: Env) returns (steps: seq<Step>, t: State)
    requires s.session.state == Sessions.Active && s.session.lastActivityMs == 0 && s.session.lastNonce == 0
    requires env.idleMs > 0 && s.flows == map[] && s.desk == EMPTY && s.clock == 0
    ensures Leads(s, env, steps, t)
    ensures t.flows.Keys == {1, 2} && t.store == s.store
    ensures t.flows[1].phase.Approved? && t.flows[2].phase.Approved?
    ensures t.flows[1].req == Wish("alice", 1) && t.flows[2].req == Wish("bob", 2)
    ensures t.flows[1].phase.job.key == Wish("alice", 1).key && t.flows[2].phase.job.key == Wish("bob", 2).key
    ensures t.session == s.session.(lastNonce := 2, lastActivityMs := 0)
  {
    assert forall id :: !WasRaised([], id);
    var first, s1 := Grant(s, env, 1, "alice", 1);
    var second, s2 := Grant(s1, env, 2, "bob", 2);
    LeadsThen(s, env, first, s1, second, s2);
    steps, t := first + second, s2;
  }

  // ----- a handshake that enters a request -------------------------------------

  /**
   * A handshake that fails while a generate request waits for its approval: the password is stored,
   * and the host gets an error in place of it.
   */
  lemma {:induction false} StoredButRefused(env: Env, hostHex: string, secret: nat, password: string, mint: Mint,
                                            iv: Iv)
    returns (steps: seq<Step>, trace: seq<State>)
    requires env.idleMs > 0 && Allowed(password, ClampedLength(None), CharsetHint(true, true, true))
    requires Sessions.Accept(Sessions.FRESH, env.suite, hostHex, secret, 0).reply.Ok?
    ensures IsRun(env, [], steps, trace)
    ensures var t := trace[|steps|];
            && 1 in t.replies && t.replies[1] == Failed(SessionExpired)
            && t.store == t.durable == Upsert([], Wish("alice", 1).key, password, None, mint)
  {
    var s := Start([]);
    var h := Handshake(hostHex, secret, 0);
    var s0 := Next(s, env, h);
    LeadsOne(s, env, h);
    var asking, s1 := ReadyToAsk(s0, env, 1, "alice", 1);
    LeadsThen(s, env, [h], s0, asking, s1);
    LeadsSnoc(s, env, [h] + asking, s1, Handshake("", 0, 0));
    var s2 := FailedHandshake(s1, env);
    assert forall id :: !WasRaised([], id);
    var answer, s3 := AskAndAnswer(s2, env, 1, 1, Approve);
    LeadsThen(s, env, [h] + asking + [Handshake("", 0, 0)], s2, answer, s3);
    var last, t := StoreAndRefuse(s3, env, 1, password, mint, iv);
    LeadsThen(s, env, [h] + asking + [Handshake("", 0, 0)] + answer, s3, last, t);
    steps := [h] + asking + [Handshake("", 0, 0)] + answer + last;
    trace := LeadsIsRun(s, env, steps, t);
  }

  lemma {:induction false} FailedHandshake(s: State, env: Env) returns (t: State)
    ensures t == Next(s, env, Handshake("", 0, 0)) == s.(session := s.session.(state := Sessions.Handshaking))
  {
    t := Next(s, env, Handshake("", 0, 0));
  }

  lemma {:induction false} StoreAndRefuse(s: State, env: Env, rid: nat, password: string, mint: Mint, iv: Iv)
    returns (steps: seq<Step>, t: State)
    requires Enabled(s, WriteStore(rid, password, mint)) && s.flows[rid].req.GenerateReq?
    requires s.session.state != Sessions.Active
    ensures Leads(s, env, steps, t)
    ensures rid in t.replies && t.replies[rid] == Failed(SessionExpired)
    ensures var f := s.flows[rid];
            t.store == t.durable == Upsert(s.store, f.phase.job.key, password, TitleOf(f.req), mint)
  {
    var s1 := Next(s, env, WriteStore(rid, password, mint));
    LeadsOne(s, env, WriteStore(rid, password, mint));
    AfterWrite(s, env, rid, password, mint);
    var more, u := Saved(s1, env, rid, iv);
    LeadsThen(s, env, [WriteStore(rid, password, mint)], s1, more, u);
    steps, t := [WriteStore(rid, password, mint)] + more, u;
  }
}
