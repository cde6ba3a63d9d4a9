/** The protocol engine: the decisions of each handler, and the engine serving one request at a time. */
module Engine {
  import opened Prelude
  import opened Crypto
  import opened Records
  import opened Store
  import opened Password
  import Shuffle
  import Sessions
  import Approvals
  import HostSession
  import Hex

  const MAX_ORIGIN_BYTES: nat := 512
  const MAX_USERNAME_BYTES: nat := 256
  const MAX_LABEL_BYTES: nat := 128
  const MAX_PASSWORD_BYTES: nat := 512

  datatype ErrorCode =
    | InvalidRequest | UnknownOrigin | UserRejected | TimedOut | SessionExpired
    | NonceReused | BadPolicy | MultipleMatches | Internal

  datatype Action =
    | Release | Save | Update | RestoreAndUpdate
    | GenerateNew | GenerateAndUpdate | GenerateAndRestore

  datatype StoreAction = Saved | Updated | RestoredAndUpdated

  /** Text encoding: whatever decodes is what encoding gives back. */
  datatype Text = Text(encode: string -> seq<byte>, decode: seq<byte> -> Option<string>)

  ghost predicate Faithful(t: Text) {
    forall b {:trigger t.decode(b)} :: t.decode(b).Some? ==> t.encode(t.decode(b).value) == b
  }

  type Utf8 = t: Text | Faithful(t) ghost witness Text(s => [], b => None)

  /** What the engine is configured with; `canon` is the canonical form of a well-formed origin. */
  datatype Env = Env(suite: Sessions.Suite, utf8: Utf8, canon: string -> Option<string>, idleMs: u64)

  datatype ReleaseParams = ReleaseParams(origin: string, hint: Option<string>, nonce: u64)

  datatype StoreParams =
    StoreParams(origin: string, username: string, title: Option<string>, sealed: string, nonce: u64)

  datatype GenerateParams =
    GenerateParams(origin: string, username: string, title: Option<string>,
                   length: Option<nat>, charset: Option<CharsetHint>, nonce: u64)

  datatype ReleaseReply = ReleaseReply(username: string, sealed: string)

  datatype GenerateReply = GenerateReply(sealed: string, action: StoreAction)

  /** What the user is asked to approve. */
  datatype Ask = Ask(action: Action, origin: string, username: string, nonce: u64)

  // ----- decisions of the handlers --------------------------------------------

  function MapSessionError(e: Sessions.SessionError): ErrorCode {
    match e
    case NonceReused(_, _) => NonceReused
    case NotActive => SessionExpired
    case InvalidPubkey => InvalidRequest
    case BadHex => InvalidRequest
    case SealFailed => Internal
    case OpenFailed => Internal
  }

  function CanonicalizeOrigin(env: Env, origin: string): Result<string, ErrorCode> {
    if |env.utf8.encode(origin)| > MAX_ORIGIN_BYTES then Err(InvalidRequest)
    else
      var c := env.canon(origin);
      if c.None? then Err(InvalidRequest) else Ok(c.value)
  }

  predicate TooLong(env: Env, s: Option<string>, max: nat) {
    s.Some? && |env.utf8.encode(s.value)| > max
  }

  /** The canonical origin of a well-formed release request. */
  function CheckRelease(env: Env, p: ReleaseParams): Result<string, ErrorCode> {
    var canonical := CanonicalizeOrigin(env, p.origin);
    if canonical.Err? then canonical
    else if TooLong(env, p.hint, MAX_USERNAME_BYTES) then Err(InvalidRequest)
    else canonical
  }

  /** The key a well-formed store or generate request writes. */
  function CheckWrite(env: Env, origin: string, username: string, title: Option<string>): Result<Key, ErrorCode> {
    var canonical := CanonicalizeOrigin(env, origin);
    if canonical.Err? then Err(canonical.error)
    else if username == "" then Err(InvalidRequest)
    else if TooLong(env, Some(username), MAX_USERNAME_BYTES) then Err(InvalidRequest)
    else if TooLong(env, title, MAX_LABEL_BYTES) then Err(InvalidRequest)
    else Ok(Key(canonical.value, username))
  }

  datatype Gated = Gated(session: Sessions.Data, result: Result<(), ErrorCode>)

  /** The session gate: idle timeout first, then the request nonce. */
  function GateSession(d: Sessions.Data, nonce: u64, now: u64, idleMs: u64): Gated {
    if Sessions.IdleTooLong(d, now, idleMs) then Gated(Sessions.Expire(d), Err(SessionExpired))
    else
      var c := Sessions.AcceptNonce(d, nonce, now);
      Gated(c.data, if c.result.Ok? then Ok(()) else Err(MapSessionError(c.result.error)))
  }

  /** The gate opens exactly for an active session, not idle too long, and a nonce above the last. */
  lemma GateOpensExactly(d: Sessions.Data, nonce: u64, now: u64, idleMs: u64)
    ensures GateSession(d, nonce, now, idleMs).result.Ok?
       <==> d.state == Sessions.Active && Sessions.Elapsed(d, now) < idleMs && nonce > d.lastNonce
    ensures var g := GateSession(d, nonce, now, idleMs);
            g.result.Ok? ==> g.session == d.(lastNonce := nonce, lastActivityMs := now)
    ensures var g := GateSession(d, nonce, now, idleMs);
            g.result.Err? ==> g.session.lastNonce == d.lastNonce
                              && (g.result.error == SessionExpired || g.result.error == NonceReused)
                              && (g.result.error == NonceReused ==> nonce <= d.lastNonce && g.session == d)
  {
  }

  /** The live credential a release may send: the hinted user's, or the only one. */
  function Choose(rs: seq<Record>, origin: string, hint: Option<string>): Result<Record, ErrorCode> {
    var live := LiveOf(rs, origin);
    if live == [] then Err(UnknownOrigin)
    else
      match hint
      case Some(h) =>
        var r := Named(live, h);
        if r.None? then Err(UnknownOrigin) else Ok(r.value)
      case None => if |live| == 1 then Ok(live[0]) else Err(MultipleMatches)
  }

  /** What is released is live and belongs to exactly this origin, and to the hinted user if one is named. */
  lemma {:induction false} ChosenIsLive(rs: seq<Record>, origin: string, hint: Option<string>)
    requires Choose(rs, origin, hint).Ok?
    ensures var r := Choose(rs, origin, hint).value;
            && r in rs && r.origin == origin && !r.archived
            && (hint.Some? ==> r.username == hint.value)
            && (hint.None? ==> forall other :: other in rs && other.origin == origin && !other.archived ==> other == r)
  {
    var live := LiveOf(rs, origin);
    if hint.None? {
      forall other | other in rs && other.origin == origin && !other.archived ensures other == live[0] {
        LiveOfComplete(rs, origin, other);
      }
    }
  }

  lemma {:induction false} LiveOfComplete(rs: seq<Record>, origin: string, r: Record)
    requires r in rs && r.origin == origin && !r.archived
    ensures r in LiveOf(rs, origin)
  {
    if rs[0] != r {
      LiveOfComplete(rs[1..], origin, r);
    }
  }

  function SaveAction(e: Existing): (Action, StoreAction) {
    match e
    case Absent => (Save, Saved)
    case Live => (Update, Updated)
    case Archived => (RestoreAndUpdate, RestoredAndUpdated)
  }

  function GenerateAction(e: Existing): (Action, StoreAction) {
    match e
    case Absent => (GenerateNew, Saved)
    case Live => (GenerateAndUpdate, Updated)
    case Archived => (GenerateAndRestore, RestoredAndUpdated)
  }

  function Refusal(d: Approvals.Decision): Option<ErrorCode> {
    match d
    case Approve => None
    case Reject => Some(UserRejected)
    case Timeout => Some(TimedOut)
  }

  datatype Decrypted = Decrypted(session: Sessions.Data, password: Result<string, ErrorCode>)

  /** Open a sealed password before asking the user. */
  function OpenPassword(env: Env, d: Sessions.Data, sealed: string, now: u64): Decrypted {
    var o := Sessions.OpenPayload(d, env.suite, sealed, now);
    if o.plain.Err? then Decrypted(o.data, Err(MapSessionError(o.plain.error)))
    else
      var text := env.utf8.decode(o.plain.value);
      if text.None? then Decrypted(o.data, Err(InvalidRequest))
      else if |env.utf8.encode(text.value)| > MAX_PASSWORD_BYTES then Decrypted(o.data, Err(InvalidRequest))
      else Decrypted(o.data, Ok(text.value))
  }

  function CharsetOf(p: GenerateParams): CharsetHint {
    if p.charset.Some? then p.charset.value else CharsetHint(true, true, true)
  }

  // ----- one request at a time ------------------------------------------------

  /** Session, store, durable copy, and every question put to the user. */
  datatype World = World(session: Sessions.Data, store: seq<Record>, durable: seq<Record>, asked: seq<Ask>)

  datatype Served<T> = Served(world: World, result: Result<T, ErrorCode>)

  function ServeRelease(w: World, env: Env, p: ReleaseParams, now: u64, decision: Approvals.Decision, iv: Iv)
    : Served<ReleaseReply>
  {
    var checked := CheckRelease(env, p);
    if checked.Err? then Served(w, Err(checked.error))
    else
      var gated := GateSession(w.session, p.nonce, now, env.idleMs);
      var w1 := w.(session := gated.session);
      if gated.result.Err? then Served(w1, Err(gated.result.error))
      else
        var chosen := Choose(w.store, checked.value, p.hint);
        if chosen.Err? then Served(w1, Err(chosen.error))
        else
          var r := chosen.value;
          var w2 := w1.(asked := w1.asked + [Ask(Release, checked.value, r.username, p.nonce)]);
          if Refusal(decision).Some? then Served(w2, Err(Refusal(decision).value))
          else
            var s := Sessions.SealPayload(w2.session, env.suite, iv, env.utf8.encode(r.password), now);
            Served(w2.(session := s.data),
                   if s.hex.Err? then Err(MapSessionError(s.hex.error))
                   else Ok(ReleaseReply(r.username, s.hex.value)))
  }

  /** Write, then persist; if persisting fails the store goes back to the snapshot. */
  function Commit(w: World, after: seq<Record>, persistOk: bool): Served<()> {
    if persistOk then Served(w.(store := after, durable := after), Ok(()))
    else Served(w, Err(Internal))
  }

  function ServeStore(w: World, env: Env, p: StoreParams, now: u64, decision: Approvals.Decision,
                      mint: Mint, persistOk: bool): Served<StoreAction>
  {
    var checked := CheckWrite(env, p.origin, p.username, p.title);
    if checked.Err? then Served(w, Err(checked.error))
    else
      var k := checked.value;
      var gated := GateSession(w.session, p.nonce, now, env.idleMs);
      var w1 := w.(session := gated.session);
      if gated.result.Err? then Served(w1, Err(gated.result.error))
      else
        var secret := OpenPassword(env, w1.session, p.sealed, now);
        var w2 := w1.(session := secret.session);
        if secret.password.Err? then Served(w2, Err(secret.password.error))
        else
          var action := SaveAction(Probe(w.store, k));
          var w3 := w2.(asked := w2.asked + [Ask(action.0, k.origin, k.username, p.nonce)]);
          if Refusal(decision).Some? then Served(w3, Err(Refusal(decision).value))
          else
            var c := Commit(w3, Upsert(w3.store, k, secret.password.value, p.title, mint), persistOk);
            Served(c.world, if c.result.Err? then Err(c.result.error) else Ok(action.1))
  }

  function ServeGenerate(w: World, env: Env, p: GenerateParams, now: u64, decision: Approvals.Decision,
                         password: string, mint: Mint, persistOk: bool, iv: Iv): Served<GenerateReply>
  {
    var checked := CheckWrite(env, p.origin, p.username, p.title);
    if checked.Err? then Served(w, Err(checked.error))
    else
      var k := checked.value;
      var gated := GateSession(w.session, p.nonce, now, env.idleMs);
      var w1 := w.(session := gated.session);
      if gated.result.Err? then Served(w1, Err(gated.result.error))
      else if Classes(CharsetOf(p)) == [] then Served(w1, Err(BadPolicy))
      else
        var action := GenerateAction(Probe(w.store, k));
        var w2 := w1.(asked := w1.asked + [Ask(action.0, k.origin, k.username, p.nonce)]);
        if Refusal(decision).Some? then Served(w2, Err(Refusal(decision).value))
        else
          var c := Commit(w2, Upsert(w2.store, k, password, p.title, mint), persistOk);
          if c.result.Err? then Served(c.world, Err(c.result.error))
          else
            var s := Sessions.SealPayload(c.world.session, env.suite, iv, env.utf8.encode(password), now);
            Served(c.world.(session := s.data),
                   if s.hex.Err? then Err(MapSessionError(s.hex.error))
                   else Ok(GenerateReply(s.hex.value, action.1)))
  }

  /** The engine behind the single-flight USB dispatcher; the user's decision comes from outside. */
  class Engine {
    const session: Sessions.Session
    const keystore: Keystore
    const env: Env
    var durable: seq<Record>
    var asked: seq<Ask>

    function View(): World
      reads this, session, keystore
    {
      World(session.Fields(), keystore.records, durable, asked)
    }

    constructor (env: Env, session: Sessions.Session, keystore: Keystore)
      ensures this.env == env && this.session == session && this.keystore == keystore
      ensures View() == World(session.Fields(), keystore.records, keystore.records, [])
    {
      this.env, this.session, this.keystore := env, session, keystore;
      this.durable, this.asked := keystore.records, [];
    }

    method Gate(nonce: u64, now: u64) returns (r: Result<(), ErrorCode>)
      modifies session
      ensures Gated(session.Fields(), r) == GateSession(old(session.Fields()), nonce, now, env.idleMs)
    {
      var idle := session.CheckIdle(now, env.idleMs);
      if idle {
        return Err(SessionExpired);
      }
      var accepted := session.TakeNonce(nonce, now);
      if accepted.Err? {
        return Err(MapSessionError(accepted.error));
      }
      return Ok(());
    }

    /** Snapshot, mutate, persist, and roll back if persisting fails. */
    method CommitUpsert(k: Key, password: string, title: Option<string>, mint: Mint, persistOk: bool)
      returns (r: Result<(), ErrorCode>)
      modifies this`durable, keystore
      ensures Served(View(), r)
           == Commit(old(View()), Upsert(old(keystore.records), k, password, title, mint), persistOk)
    {
      var snapshot := keystore.records;
      keystore.UpsertCredential(k, password, title, mint);
      if !persistOk {
        keystore.records := snapshot;
        return Err(Internal);
      }
      durable := keystore.records;
      return Ok(());
    }

    method HandleRelease(p: ReleaseParams, now: u64, decision: Approvals.Decision, iv: Iv)
      returns (r: Result<ReleaseReply, ErrorCode>)
      modifies this, session
      ensures Served(View(), r) == ServeRelease(old(View()), env, p, now, decision, iv)
    {
      var canonical := CheckRelease(env, p);
      if canonical.Err? {
        return Err(canonical.error);
      }
      var gated := Gate(p.nonce, now);
      if gated.Err? {
        return Err(gated.error);
      }
      var chosen := Choose(keystore.records, canonical.value, p.hint);
      if chosen.Err? {
        return Err(chosen.error);
      }
      asked := asked + [Ask(Release, canonical.value, chosen.value.username, p.nonce)];
      if decision == Approvals.Reject {
        return Err(UserRejected);
      }
      if decision == Approvals.Timeout {
        return Err(TimedOut);
      }
      var sealed := session.SealText(env.suite, iv, env.utf8.encode(chosen.value.password), now);
      if sealed.Err? {
        return Err(MapSessionError(sealed.error));
      }
      return Ok(ReleaseReply(chosen.value.username, sealed.value));
    }

    method HandleStore(p: StoreParams, now: u64, decision: Approvals.Decision, mint: Mint, persistOk: bool)
      returns (r: Result<StoreAction, ErrorCode>)
      modifies this, session, keystore
      ensures Served(View(), r) == ServeStore(old(View()), env, p, now, decision, mint, persistOk)
    {
      var checked := CheckWrite(env, p.origin, p.username, p.title);
      if checked.Err? {
        return Err(checked.error);
      }
      var gated := Gate(p.nonce, now);
      if gated.Err? {
        return Err(gated.error);
      }
      var bytes := session.OpenText(env.suite, p.sealed, now);
      if bytes.Err? {
        return Err(MapSessionError(bytes.error));
      }
      var password := env.utf8.decode(bytes.value);
      if password.None? {
        return Err(InvalidRequest);
      }
      if |env.utf8.encode(password.value)| > MAX_PASSWORD_BYTES {
        return Err(InvalidRequest);
      }
      var action := SaveAction(Probe(keystore.records, checked.value));
      asked := asked + [Ask(action.0, checked.value.origin, checked.value.username, p.nonce)];
      if decision == Approvals.Reject {
        return Err(UserRejected);
      }
      if decision == Approvals.Timeout {
        return Err(TimedOut);
      }
      var committed := CommitUpsert(checked.value, password.value, p.title, mint, persistOk);
      if committed.Err? {
        return Err(committed.error);
      }
      return Ok(action.1);
    }

    /** The random source must hold enough for one password; it would be read for longer otherwise. */
    method HandleGenerate(p: GenerateParams, now: u64, decision: Approvals.Decision, rng: OsRng,
                          mint: Mint, persistOk: bool, iv: Iv)
      returns (r: Result<GenerateReply, ErrorCode>)
      requires Generate(rng.tape, ClampedLength(p.length), CharsetOf(p)).Drawn?
      modifies this, session, keystore, rng
      ensures var password := Generate(old(rng.tape), ClampedLength(p.length), CharsetOf(p)).value;
              Served(View(), r) == ServeGenerate(old(View()), env, p, now, decision, password, mint, persistOk, iv)
    {
      var checked := CheckWrite(env, p.origin, p.username, p.title);
      if checked.Err? {
        return Err(checked.error);
      }
      var gated := Gate(p.nonce, now);
      if gated.Err? {
        return Err(gated.error);
      }
      var charset := CharsetOf(p);
      if !(charset.letters || charset.digits || charset.symbols) {
        return Err(BadPolicy);
      }
      var action := GenerateAction(Probe(keystore.records, checked.value));
      asked := asked + [Ask(action.0, checked.value.origin, checked.value.username, p.nonce)];
      if decision == Approvals.Reject {
        return Err(UserRejected);
      }
      if decision == Approvals.Timeout {
        return Err(TimedOut);
      }
      var password := rng.GeneratePassword(ClampedLength(p.length), charset);
      var committed := CommitUpsert(checked.value, password.value, p.title, mint, persistOk);
      if committed.Err? {
        return Err(committed.error);
      }
      var sealed := session.SealText(env.suite, iv, env.utf8.encode(password.value), now);
      if sealed.Err? {
        return Err(MapSessionError(sealed.error));
      }
      return Ok(GenerateReply(sealed.value, action.1));
    }
  }
}
