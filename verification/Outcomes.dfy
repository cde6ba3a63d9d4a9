/**
 * What each request answers, asks and leaves behind, for every request and every state: stated on
 * positions of the store, fields of the session and the foreign functions alone.
 */
module Outcomes {
  import opened Prelude
  import opened Crypto
  import opened Records
  import opened Engine
  import opened Password
  import Approvals
  import Sessions
  import HostSession
  import Hex

  // ----- choosing what to release ---------------------------------------------

  predicate LiveAt(rs: seq<Record>, origin: string, j: int) {
    0 <= j < |rs| && rs[j].origin == origin && !rs[j].archived
  }

  /** The positions of the live records of an origin, in order. */
  function LivePositions(rs: seq<Record>, origin: string): (at: seq<nat>)
    ensures |at| == |LiveOf(rs, origin)|
  {
    if rs == [] then []
    else (if LiveAt(rs, origin, 0) then [0] else []) + Shifted(LivePositions(rs[1..], origin))
  }

  function Shifted(at: seq<nat>): seq<nat> {
    seq(|at|, k requires 0 <= k < |at| => at[k] + 1)
  }

  lemma {:induction false} PositionsAreLive(rs: seq<Record>, origin: string, k: nat)
    requires k < |LivePositions(rs, origin)|
    ensures var j := LivePositions(rs, origin)[k]; LiveAt(rs, origin, j) && rs[j] == LiveOf(rs, origin)[k]
  {
    var first := if LiveAt(rs, origin, 0) then 1 else 0;
    if first <= k { PositionsAreLive(rs[1..], origin, k - first); }
  }

  lemma {:induction false} PositionsAscend(rs: seq<Record>, origin: string, k: nat, l: nat)
    requires k < l < |LivePositions(rs, origin)|
    ensures LivePositions(rs, origin)[k] < LivePositions(rs, origin)[l]
  {
    var first := if LiveAt(rs, origin, 0) then 1 else 0;
    if first <= k { PositionsAscend(rs[1..], origin, k - first, l - first); }
  }

  lemma {:induction false} PositionOf(rs: seq<Record>, origin: string, j: nat) returns (k: nat)
    requires LiveAt(rs, origin, j)
    ensures k < |LivePositions(rs, origin)| && LivePositions(rs, origin)[k] == j
  {
    if j == 0 {
      k := 0;
    } else {
      assert LiveAt(rs[1..], origin, j - 1);
      k := PositionOf(rs[1..], origin, j - 1);
      k := k + if LiveAt(rs, origin, 0) then 1 else 0;
    }
  }

  lemma {:induction false} NamedIsFirst(rs: seq<Record>, username: string)
    ensures var r := Named(rs, username);
            r.Some? ==> exists k :: 0 <= k < |rs| && rs[k] == r.value && rs[k].username == username
                                    && forall i :: 0 <= i < k ==> rs[i].username != username
  {
    if rs != [] {
      if rs[0].username == username {
        assert rs[0] == Named(rs, username).value;
      } else {
        NamedIsFirst(rs[1..], username);
        var r := Named(rs, username);
        if r.Some? {
          var k :| 0 <= k < |rs[1..]| && rs[1..][k] == r.value && rs[1..][k].username == username
                   && forall i :: 0 <= i < k ==> rs[1..][i].username != username;
          assert forall i :: 1 <= i < k + 1 ==> rs[i] == rs[1..][i - 1];
          assert rs[k + 1] == r.value;
        }
      }
    }
  }

  ghost predicate OnlyLive(rs: seq<Record>, origin: string, j: int) {
    LiveAt(rs, origin, j) && forall i :: LiveAt(rs, origin, i) ==> i == j
  }

  ghost predicate TwoLive(rs: seq<Record>, origin: string) {
    exists i, j :: i < j && LiveAt(rs, origin, i) && LiveAt(rs, origin, j)
  }

  /**
   * Without a username hint: the one live record of the origin is released; none is UnknownOrigin, two
   * are MultipleMatches.
   */
  lemma {:induction false} ChooseWithoutHint(rs: seq<Record>, origin: string)
    ensures var c := Choose(rs, origin, None);
            && (c.Ok? <==> exists j :: OnlyLive(rs, origin, j))
            && (forall j :: OnlyLive(rs, origin, j) ==> c == Ok(rs[j]))
            && (c == Err(UnknownOrigin) <==> forall j :: !LiveAt(rs, origin, j))
            && (c == Err(MultipleMatches) <==> TwoLive(rs, origin))
  {
    var at := LivePositions(rs, origin);
    forall j | LiveAt(rs, origin, j) ensures |at| >= 1 && (|at| == 1 ==> j == at[0]) {
      var k := PositionOf(rs, origin, j);
    }
    if |at| == 1 {
      PositionsAreLive(rs, origin, 0);
      assert OnlyLive(rs, origin, at[0]);
    } else if |at| > 1 {
      PositionsAreLive(rs, origin, 0);
      PositionsAreLive(rs, origin, 1);
      PositionsAscend(rs, origin, 0, 1);
      assert at[0] < at[1] && LiveAt(rs, origin, at[0]) && LiveAt(rs, origin, at[1]);
    }
  }

  ghost predicate FirstLive(rs: seq<Record>, origin: string, username: string, j: int) {
    && LiveAt(rs, origin, j) && rs[j].username == username
    && forall i :: LiveAt(rs, origin, i) && rs[i].username == username ==> j <= i
  }

  /** With a hint: the first live record of that origin and username is released; none is UnknownOrigin. */
  lemma {:induction false} ChooseWithHint(rs: seq<Record>, origin: string, username: string)
    ensures var c := Choose(rs, origin, Some(username));
            && (c.Ok? <==> exists j :: LiveAt(rs, origin, j) && rs[j].username == username)
            && (c.Ok? ==> exists j :: FirstLive(rs, origin, username, j) && rs[j] == c.value)
            && (c.Err? ==> c.error == UnknownOrigin)
  {
    NamedIsFirst(LiveOf(rs, origin), username);
    if Choose(rs, origin, Some(username)).Ok? {
      var k := FirstNamed(LiveOf(rs, origin), username);
      PositionsAreLive(rs, origin, k);
      var at := LivePositions(rs, origin);
      forall i | LiveAt(rs, origin, i) && rs[i].username == username ensures at[k] <= i {
        NotBefore(rs, origin, username, k, i);
      }
      assert FirstLive(rs, origin, username, at[k]);
    } else {
      forall j | LiveAt(rs, origin, j) ensures rs[j].username != username {
        NamedElsewhere(rs, origin, username, j);
      }
    }
  }

  lemma {:induction false} FirstNamed(rs: seq<Record>, username: string) returns (k: nat)
    requires Named(rs, username).Some?
    ensures k < |rs| && rs[k] == Named(rs, username).value && rs[k].username == username
    ensures forall i :: 0 <= i < k ==> rs[i].username != username
  {
    NamedIsFirst(rs, username);
    k :| 0 <= k < |rs| && rs[k] == Named(rs, username).value && rs[k].username == username
         && forall i :: 0 <= i < k ==> rs[i].username != username;
  }

  lemma {:induction false} NotBefore(rs: seq<Record>, origin: string, username: string, k: nat, i: nat)
    requires k < |LiveOf(rs, origin)| && forall l :: 0 <= l < k ==> LiveOf(rs, origin)[l].username != username
    requires LiveAt(rs, origin, i) && rs[i].username == username
    ensures LivePositions(rs, origin)[k] <= i
  {
    var l := PositionOf(rs, origin, i);
    PositionsAreLive(rs, origin, l);
    if k < l { PositionsAscend(rs, origin, k, l); }
  }

  /** If no live record of the origin has the username, this one has not. */
  lemma {:induction false} NamedElsewhere(rs: seq<Record>, origin: string, username: string, j: nat)
    requires LiveAt(rs, origin, j) && Named(LiveOf(rs, origin), username).None?
    ensures rs[j].username != username
  {
    var l := PositionOf(rs, origin, j);
    PositionsAreLive(rs, origin, l);
  }

  // ----- requests -------------------------------------------------------------

  predicate Short(env: Env, s: string, max: nat) {
    |env.utf8.encode(s)| <= max
  }

  predicate OriginFormed(env: Env, origin: string) {
    Short(env, origin, 512) && env.canon(origin).Some?
  }

  predicate ReleaseFormed(env: Env, p: ReleaseParams) {
    OriginFormed(env, p.origin) && (p.hint.Some? ==> Short(env, p.hint.value, 256))
  }

  predicate WriteFormed(env: Env, origin: string, username: string, title: Option<string>) {
    && OriginFormed(env, origin) && username != "" && Short(env, username, 256)
    && (title.Some? ==> Short(env, title.value, 128))
  }

  lemma ReleaseChecked(env: Env, p: ReleaseParams)
    ensures CheckRelease(env, p)
         == if ReleaseFormed(env, p) then Ok(env.canon(p.origin).value) else Err(InvalidRequest)
  {
  }

  lemma WriteChecked(env: Env, origin: string, username: string, title: Option<string>)
    ensures CheckWrite(env, origin, username, title)
         == if WriteFormed(env, origin, username, title) then Ok(Key(env.canon(origin).value, username))
            else Err(InvalidRequest)
  {
  }

  /** No activity for the idle time. */
  predicate Idle(d: Sessions.Data, now: u64, idleMs: u64) {
    d.state == Sessions.Active && (idleMs == 0 || d.lastActivityMs + idleMs <= now)
  }

  predicate GateOpen(d: Sessions.Data, nonce: u64, now: u64, idleMs: u64) {
    d.state == Sessions.Active && !Idle(d, now, idleMs) && nonce > d.lastNonce
  }

  /** An open gate remembers nonce and time; a closed one says why, and drops the key of an idle session. */
  lemma GateAnswers(d: Sessions.Data, nonce: u64, now: u64, idleMs: u64)
    ensures GateSession(d, nonce, now, idleMs)
         == if GateOpen(d, nonce, now, idleMs) then Gated(d.(lastNonce := nonce, lastActivityMs := now), Ok(()))
            else if Idle(d, now, idleMs) then
              Gated(d.(state := Sessions.Expired, key := None), Err(SessionExpired))
            else Gated(d, Err(if d.state == Sessions.Active then NonceReused else SessionExpired))
  {
  }

  /** What sealing answers: the session must hold a key, and encryption succeed. */
  ghost predicate Sealable(env: Env, d: Sessions.Data, iv: Iv, text: string) {
    d.key.Some? && env.suite.cipher.encrypt(d.key.value, iv, env.utf8.encode(text)).Some?
  }

  lemma {:induction false} SealAnswers(env: Env, d: Sessions.Data, iv: Iv, text: string, now: u64)
    requires d.state == Sessions.Active
    ensures var s := Sessions.SealPayload(d, env.suite, iv, env.utf8.encode(text), now);
            && (s.hex.Ok? <==> Sealable(env, d, iv, text))
            && (s.hex.Ok? ==> s.data == d.(lastActivityMs := now)
                              && HostSession.Unsealed(env.suite, d.key.value, s.hex.value) == Ok(env.utf8.encode(text)))
            && (s.hex.Err? ==> s.data == d
                               && MapSessionError(s.hex.error) == if d.key.None? then SessionExpired else Internal)
  {
    if Sealable(env, d, iv, text) {
      HostSession.DeviceToHost(env.suite, d, iv, env.utf8.encode(text), now);
    }
  }

  // ----- release --------------------------------------------------------------

  /** The credential a release is about. */
  ghost predicate Meant(rs: seq<Record>, origin: string, hint: Option<string>, j: int) {
    match hint
    case None => OnlyLive(rs, origin, j)
    case Some(username) => FirstLive(rs, origin, username, j)
  }

  lemma {:induction false} ChooseMeans(rs: seq<Record>, origin: string, hint: Option<string>)
    ensures var c := Choose(rs, origin, hint);
            && (c.Ok? <==> exists j :: Meant(rs, origin, hint, j))
            && (forall j :: Meant(rs, origin, hint, j) ==> c == Ok(rs[j]))
            && (c.Err? ==> c.error == if hint == None && TwoLive(rs, origin) then MultipleMatches else UnknownOrigin)
  {
    match hint
    case None =>
      ChooseWithoutHint(rs, origin);
      assert forall j :: Meant(rs, origin, hint, j) <==> OnlyLive(rs, origin, j);
      if j :| OnlyLive(rs, origin, j) { assert Meant(rs, origin, hint, j); }
    case Some(username) =>
      ChooseWithHint(rs, origin, username);
      assert forall i, j :: FirstLive(rs, origin, username, i) && FirstLive(rs, origin, username, j) ==> i == j;
      if Choose(rs, origin, hint).Ok? {
        var j :| FirstLive(rs, origin, username, j) && rs[j] == Choose(rs, origin, hint).value;
        assert Meant(rs, origin, hint, j);
      }
  }

  /**
   * Every release, on every path. It succeeds iff it is well formed, the gate opens, the store has the
   * credential meant, the user approves and encryption succeeds; the host then opens the reply to that
   * credential's password. It asks iff it gets as far as having the credential, and never writes.
   */
  ghost predicate ReleaseOutcome(w: World, env: Env, p: ReleaseParams, now: u64, decision: Approvals.Decision, iv: Iv,
                                 s: Served<ReleaseReply>)
  {
    && s.world.store == w.store && s.world.durable == w.durable
    && if !ReleaseFormed(env, p) then s == Served(w, Err(InvalidRequest))
       else if !GateOpen(w.session, p.nonce, now, env.idleMs) then
         s.result == Err(if w.session.state == Sessions.Active && !Idle(w.session, now, env.idleMs)
                         then NonceReused else SessionExpired)
         && s.world.asked == w.asked
       else
         var origin := env.canon(p.origin).value;
         if forall j :: !Meant(w.store, origin, p.hint, j) then
           s.result == Err(if p.hint == None && TwoLive(w.store, origin) then MultipleMatches else UnknownOrigin)
           && s.world.asked == w.asked
         else
           exists j :: Meant(w.store, origin, p.hint, j)
             && s.world.asked == w.asked + [Ask(Release, origin, w.store[j].username, p.nonce)]
             && Released(w, env, decision, iv, w.store[j], s.result)
  }

  /** The user is asked about `r`; the reply opens, with the session's key, to its password. */
  ghost predicate Released(w: World, env: Env, decision: Approvals.Decision, iv: Iv, r: Record,
                           result: Result<ReleaseReply, ErrorCode>)
  {
    match decision
    case Reject => result == Err(UserRejected)
    case Timeout => result == Err(TimedOut)
    case Approve =>
      if Sealable(env, w.session, iv, r.password) then
        result.Ok? && result.value.username == r.username
        && HostSession.Unsealed(env.suite, w.session.key.value, result.value.sealed) == Ok(env.utf8.encode(r.password))
      else result == Err(if w.session.key.None? then SessionExpired else Internal)
  }

  lemma {:induction false} ReleaseAnswers(w: World, env: Env, p: ReleaseParams, now: u64, decision: Approvals.Decision,
                                          iv: Iv)
    ensures ReleaseOutcome(w, env, p, now, decision, iv, ServeRelease(w, env, p, now, decision, iv))
  {
    ReleaseChecked(env, p);
    GateAnswers(w.session, p.nonce, now, env.idleMs);
    if ReleaseFormed(env, p) && GateOpen(w.session, p.nonce, now, env.idleMs) {
      var origin := env.canon(p.origin).value;
      ChooseMeans(w.store, origin, p.hint);
      if j :| Meant(w.store, origin, p.hint, j) {
        AskedRelease(w, env, p, now, decision, iv, w.store[j]);
      }
    }
  }

  /** When a release succeeds. */
  lemma {:induction false} ReleaseSucceeds(w: World, env: Env, p: ReleaseParams, now: u64,
                                           decision: Approvals.Decision, iv: Iv)
    ensures ServeRelease(w, env, p, now, decision, iv).result.Ok? <==>
              && ReleaseFormed(env, p) && GateOpen(w.session, p.nonce, now, env.idleMs)
              && decision == Approvals.Approve
              && exists j :: Meant(w.store, env.canon(p.origin).value, p.hint, j)
                             && Sealable(env, w.session, iv, w.store[j].password)
  {
    ReleaseAnswers(w, env, p, now, decision, iv);
    if ReleaseFormed(env, p) {
      ChooseMeans(w.store, env.canon(p.origin).value, p.hint);
    }
  }

  lemma {:induction false} AskedRelease(w: World, env: Env, p: ReleaseParams, now: u64, decision: Approvals.Decision,
                                        iv: Iv, r: Record)
    requires ReleaseFormed(env, p) && GateOpen(w.session, p.nonce, now, env.idleMs)
    requires Choose(w.store, env.canon(p.origin).value, p.hint) == Ok(r)
    ensures var s := ServeRelease(w, env, p, now, decision, iv);
            && s.world.asked == w.asked + [Ask(Release, env.canon(p.origin).value, r.username, p.nonce)]
            && Released(w, env, decision, iv, r, s.result)
  {
    ReleaseChecked(env, p);
    GateAnswers(w.session, p.nonce, now, env.idleMs);
    SealAnswers(env, w.session.(lastNonce := p.nonce, lastActivityMs := now), iv, r.password, now);
  }

  // ----- store and generate ---------------------------------------------------

  predicate IsFor(r: Record, k: Key) {
    r.origin == k.origin && r.username == k.username
  }

  predicate FirstFor(rs: seq<Record>, k: Key, j: int) {
    0 <= j < |rs| && IsFor(rs[j], k) && forall i :: 0 <= i < j ==> !IsFor(rs[i], k)
  }

  /** What a write does to the store as it was: no record for the key, or the first one live or archived. */
  ghost predicate Does(rs: seq<Record>, k: Key, a: StoreAction) {
    match a
    case Saved => forall j :: 0 <= j < |rs| ==> !IsFor(rs[j], k)
    case Updated => exists j :: FirstFor(rs, k, j) && !rs[j].archived
    case RestoredAndUpdated => exists j :: FirstFor(rs, k, j) && rs[j].archived
  }

  /** What the user is asked before it. */
  function SaveQuestion(a: StoreAction): Action {
    match a
    case Saved => Save
    case Updated => Update
    case RestoredAndUpdated => RestoreAndUpdate
  }

  function GenerateQuestion(a: StoreAction): Action {
    match a
    case Saved => GenerateNew
    case Updated => GenerateAndUpdate
    case RestoredAndUpdated => GenerateAndRestore
  }

  /** Exactly one of the three. */
  lemma {:induction false} DoesOne(rs: seq<Record>, k: Key) returns (a: StoreAction)
    ensures forall b :: Does(rs, k, b) <==> b == a
    ensures SaveAction(Probe(rs, k)) == (SaveQuestion(a), a)
    ensures GenerateAction(Probe(rs, k)) == (GenerateQuestion(a), a)
  {
    var p := Find(rs, k);
    assert forall j :: 0 <= j < |rs| ==> (KeyOf(rs[j]) == k <==> IsFor(rs[j], k));
    if p.None? {
      a := Saved;
    } else {
      assert FirstFor(rs, k, p.value);
      assert forall j :: FirstFor(rs, k, j) ==> j == p.value;
      a := if rs[p.value].archived then RestoredAndUpdated else Updated;
    }
  }

  /** The sealed text opens, with the session's key, to this password. */
  ghost predicate OpensTo(env: Env, d: Sessions.Data, sealed: string, text: string) {
    && d.key.Some? && Hex.Decode(sealed).Ok?
    && var raw := Hex.Decode(sealed).value;
       && |raw| >= 28
       && var plain := env.suite.cipher.decrypt(d.key.value, raw[..12], raw[12..]);
          && plain.Some? && env.utf8.decode(plain.value) == Some(text) && Short(env, text, 512)
  }

  /** The sealed text decrypts, to whatever bytes: this is enough to reset the idle timer. */
  predicate Decrypts(env: Env, d: Sessions.Data, sealed: string) {
    && d.key.Some? && Hex.Decode(sealed).Ok?
    && var raw := Hex.Decode(sealed).value;
       |raw| >= 28 && env.suite.cipher.decrypt(d.key.value, raw[..12], raw[12..]).Some?
  }

  /** Why it does not open. */
  function OpenError(env: Env, d: Sessions.Data, sealed: string): ErrorCode {
    if d.key.None? then SessionExpired
    else if Hex.Decode(sealed).Err? then InvalidRequest
    else
      var raw := Hex.Decode(sealed).value;
      if |raw| < 28 || env.suite.cipher.decrypt(d.key.value, raw[..12], raw[12..]).None? then Internal
      else InvalidRequest
  }

  lemma OpenAnswers(env: Env, d: Sessions.Data, sealed: string, now: u64)
    requires d.state == Sessions.Active
    ensures var o := OpenPassword(env, d, sealed, now);
            && (forall text :: OpensTo(env, d, sealed, text) <==> o.password == Ok(text))
            && (o.password.Err? ==> o.password.error == OpenError(env, d, sealed))
            && o.session == if Decrypts(env, d, sealed) then d.(lastActivityMs := now) else d
  {
  }

  ghost predicate StoreOutcome(w: World, env: Env, p: StoreParams, now: u64, decision: Approvals.Decision,
                               mint: Mint, persistOk: bool, s: Served<StoreAction>)
  {
    var refused := s.world.store == w.store && s.world.durable == w.durable;
    if !WriteFormed(env, p.origin, p.username, p.title) then s == Served(w, Err(InvalidRequest))
    else if !GateOpen(w.session, p.nonce, now, env.idleMs) then
      s.result == Err(if w.session.state == Sessions.Active && !Idle(w.session, now, env.idleMs)
                      then NonceReused else SessionExpired)
      && s.world.asked == w.asked && refused
    else if forall text :: !OpensTo(env, w.session, p.sealed, text) then
      s.result == Err(OpenError(env, w.session, p.sealed)) && s.world.asked == w.asked && refused
    else
      var k := Key(env.canon(p.origin).value, p.username);
      exists text, a :: OpensTo(env, w.session, p.sealed, text) && Does(w.store, k, a)
        && s.world.asked == w.asked + [Ask(SaveQuestion(a), k.origin, k.username, p.nonce)]
        && match decision
           case Reject => s.result == Err(UserRejected) && refused
           case Timeout => s.result == Err(TimedOut) && refused
           case Approve =>
             if !persistOk then s.result == Err(Internal) && refused
             else s.result == Ok(a) && s.world.store == s.world.durable == Upsert(w.store, k, text, p.title, mint)
  }

  /**
   * Every store, on every path. It succeeds iff it is well formed, the gate opens, the sealed text opens to
   * UTF-8 of at most 512 bytes, the user approves and persisting succeeds; it is then Saved, Updated or
   * RestoredAndUpdated as the old store has it. Exactly the matching question is asked, after the opening.
   */
  lemma {:induction false} StoreAnswers(w: World, env: Env, p: StoreParams, now: u64, decision: Approvals.Decision,
                                        mint: Mint, persistOk: bool)
    ensures StoreOutcome(w, env, p, now, decision, mint, persistOk,
                         ServeStore(w, env, p, now, decision, mint, persistOk))
  {
    WriteChecked(env, p.origin, p.username, p.title);
    GateAnswers(w.session, p.nonce, now, env.idleMs);
    if WriteFormed(env, p.origin, p.username, p.title) && GateOpen(w.session, p.nonce, now, env.idleMs) {
      var gated := w.session.(lastNonce := p.nonce, lastActivityMs := now);
      assert forall text :: OpensTo(env, w.session, p.sealed, text) <==> OpensTo(env, gated, p.sealed, text);
      OpenAnswers(env, gated, p.sealed, now);
      var k := Key(env.canon(p.origin).value, p.username);
      var a := DoesOne(w.store, k);
      var o := OpenPassword(env, gated, p.sealed, now).password;
      if o.Ok? {
        assert OpensTo(env, w.session, p.sealed, o.value) && Does(w.store, k, a);
      }
    }
  }

  /** When a store succeeds, and as what. */
  lemma {:induction false} StoreSucceeds(w: World, env: Env, p: StoreParams, now: u64, decision: Approvals.Decision,
                                         mint: Mint, persistOk: bool, a: StoreAction)
    ensures ServeStore(w, env, p, now, decision, mint, persistOk).result == Ok(a) <==>
              && WriteFormed(env, p.origin, p.username, p.title)
              && GateOpen(w.session, p.nonce, now, env.idleMs)
              && (exists text :: OpensTo(env, w.session, p.sealed, text))
              && decision == Approvals.Approve && persistOk
              && Does(w.store, Key(env.canon(p.origin).value, p.username), a)
  {
    StoreAnswers(w, env, p, now, decision, mint, persistOk);
    if WriteFormed(env, p.origin, p.username, p.title) {
      var b := DoesOne(w.store, Key(env.canon(p.origin).value, p.username));
    }
  }

  ghost predicate GenerateOutcome(w: World, env: Env, p: GenerateParams, now: u64, decision: Approvals.Decision,
                                  password: string, mint: Mint, persistOk: bool, iv: Iv, s: Served<GenerateReply>)
  {
    var refused := s.world.store == w.store && s.world.durable == w.durable;
    if !WriteFormed(env, p.origin, p.username, p.title) then s == Served(w, Err(InvalidRequest))
    else if !GateOpen(w.session, p.nonce, now, env.idleMs) then
      s.result == Err(if w.session.state == Sessions.Active && !Idle(w.session, now, env.idleMs)
                      then NonceReused else SessionExpired)
      && s.world.asked == w.asked && refused
    else if p.charset == Some(CharsetHint(false, false, false)) then
      s.result == Err(BadPolicy) && s.world.asked == w.asked && refused
    else
      var k := Key(env.canon(p.origin).value, p.username);
      exists a :: Does(w.store, k, a)
        && s.world.asked == w.asked + [Ask(GenerateQuestion(a), k.origin, k.username, p.nonce)]
        && match decision
           case Reject => s.result == Err(UserRejected) && refused
           case Timeout => s.result == Err(TimedOut) && refused
           case Approve =>
             if !persistOk then s.result == Err(Internal) && refused
             else s.world.store == s.world.durable == Upsert(w.store, k, password, p.title, mint)
                  && Sent(w, env, password, iv, a, s.result)
  }

  /** The stored password is sent iff it can be sealed. */
  ghost predicate Sent(w: World, env: Env, password: string, iv: Iv, a: StoreAction,
                       result: Result<GenerateReply, ErrorCode>)
  {
    if Sealable(env, w.session, iv, password) then
      result.Ok? && result.value.action == a
      && HostSession.Unsealed(env.suite, w.session.key.value, result.value.sealed) == Ok(env.utf8.encode(password))
    else result == Err(if w.session.key.None? then SessionExpired else Internal)
  }

  /** Every generate, on every path, likewise; it has stored what it cannot send. */
  lemma {:induction false} GenerateAnswers(w: World, env: Env, p: GenerateParams, now: u64,
                                           decision: Approvals.Decision, password: string, mint: Mint, persistOk: bool,
                                           iv: Iv)
    ensures GenerateOutcome(w, env, p, now, decision, password, mint, persistOk, iv,
                            ServeGenerate(w, env, p, now, decision, password, mint, persistOk, iv))
  {
    WriteChecked(env, p.origin, p.username, p.title);
    GateAnswers(w.session, p.nonce, now, env.idleMs);
    if WriteFormed(env, p.origin, p.username, p.title) && GateOpen(w.session, p.nonce, now, env.idleMs) {
      var a := DoesOne(w.store, Key(env.canon(p.origin).value, p.username));
      SealAnswers(env, w.session.(lastNonce := p.nonce, lastActivityMs := now), iv, password, now);
    }
  }
}
