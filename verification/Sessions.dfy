/** The session state machine of the device, and of the Rust host side. */
module Sessions {
  import opened Prelude
  import opened Crypto
  import Hex

  datatype State = Idle | Handshaking | Active | Expired

  datatype SessionError =
    | NotActive | InvalidPubkey | SealFailed | OpenFailed | BadHex
    | NonceReused(got: u64, last: u64)

  /** Key agreement, key derivation and cipher used by both ends. */
  datatype Suite = Suite(curve: Curve, kdf: Block -> Block, cipher: Cipher)

  /** The fields of a session. */
  datatype Data = Data(state: State, key: Option<Block>, lastNonce: u64, lastActivityMs: u64)

  const FRESH: Data := Data(Idle, None, 0, 0)

  // ----- the operations -------------------------------------------------------

  function ParsePubkey(hex: string): Result<Block, SessionError> {
    var bytes := Hex.Decode(hex);
    if bytes.Err? then Err(BadHex)
    else if |bytes.value| != BLOCK_BYTES then Err(InvalidPubkey)
    else Ok(bytes.value)
  }

  predicate AllZero(b: Block) {
    forall i :: 0 <= i < BLOCK_BYTES ==> b[i] == 0
  }

  function Established(key: Block, now: u64): Data {
    Data(Active, Some(key), 0, now)
  }

  datatype Accepted = Accepted(data: Data, reply: Result<string, SessionError>)

  /** Device side of the handshake. A failed one leaves the old key in place. */
  function Accept(d: Data, suite: Suite, hostHex: string, secret: nat, now: u64): Accepted {
    var pk := ParsePubkey(hostHex);
    if pk.Err? then Accepted(d.(state := Handshaking), Err(pk.error))
    else
      var shared := suite.curve.shared(secret, pk.value);
      if AllZero(shared) then Accepted(d.(state := Idle), Err(InvalidPubkey))
      else Accepted(Established(suite.kdf(shared), now), Ok(Hex.Encode(suite.curve.public(secret))))
  }

  datatype Completed = Completed(data: Data, result: Result<(), SessionError>)

  /** Host side of the handshake, on the device's reply. */
  function CompleteHost(d: Data, suite: Suite, secret: nat, deviceHex: string, now: u64): Completed {
    var pk := ParsePubkey(deviceHex);
    if pk.Err? then Completed(d, Err(pk.error))
    else
      var shared := suite.curve.shared(secret, pk.value);
      if AllZero(shared) then Completed(d.(state := Idle), Err(InvalidPubkey))
      else Completed(Established(suite.kdf(shared), now), Ok(()))
  }

  function AcceptNonce(d: Data, nonce: u64, now: u64): Completed {
    if d.state != Active then Completed(d, Err(NotActive))
    else if nonce <= d.lastNonce then Completed(d, Err(NonceReused(nonce, d.lastNonce)))
    else Completed(d.(lastNonce := nonce, lastActivityMs := now), Ok(()))
  }

  function Expire(d: Data): Data {
    d.(key := None, state := Expired)
  }

  function Elapsed(d: Data, now: u64): nat {
    if now <= d.lastActivityMs then 0 else now - d.lastActivityMs
  }

  predicate IdleTooLong(d: Data, now: u64, threshold: u64) {
    d.state == Active && Elapsed(d, now) >= threshold
  }

  datatype Sealed = Sealed(data: Data, hex: Result<string, SessionError>)

  function SealPayload(d: Data, suite: Suite, iv: Iv, plain: seq<byte>, now: u64): Sealed {
    if d.state != Active || d.key.None? then Sealed(d, Err(NotActive))
    else
      var blob := Seal(suite.cipher, d.key.value, iv, plain);
      if blob.None? then Sealed(d, Err(SealFailed))
      else Sealed(d.(lastActivityMs := now), Ok(Hex.Encode(blob.value)))
  }

  datatype Opened = Opened(data: Data, plain: Result<seq<byte>, SessionError>)

  function OpenPayload(d: Data, suite: Suite, hex: string, now: u64): Opened {
    if d.state != Active || d.key.None? then Opened(d, Err(NotActive))
    else
      var raw := Hex.Decode(hex);
      if raw.Err? then Opened(d, Err(BadHex))
      else
        var plain := Unseal(suite.cipher, d.key.value, raw.value);
        if plain.None? then Opened(d, Err(OpenFailed))
        else Opened(d.(lastActivityMs := now), Ok(plain.value))
  }

  // ----- the session object ---------------------------------------------------

  class Session {
    var state: State
    var key: Option<Block>
    var lastNonce: u64
    var lastActivityMs: u64

    function Fields(): Data
      reads this
    {
      Data(state, key, lastNonce, lastActivityMs)
    }

    constructor ()
      ensures Fields() == FRESH
    {
      state, key, lastNonce, lastActivityMs := Idle, None, 0, 0;
    }

    method AcceptHost(suite: Suite, hostHex: string, secret: nat, now: u64)
      returns (reply: Result<string, SessionError>)
      modifies this
      ensures Accepted(Fields(), reply) == Accept(old(Fields()), suite, hostHex, secret, now)
    {
      state := Handshaking;
      var pk := ParsePubkey(hostHex);
      if pk.Err? {
        return Err(pk.error);
      }
      var shared := suite.curve.shared(secret, pk.value);
      if AllZero(shared) {
        state := Idle;
        return Err(InvalidPubkey);
      }
      key := Some(suite.kdf(shared));
      lastNonce, lastActivityMs := 0, now;
      state := Active;
      return Ok(Hex.Encode(suite.curve.public(secret)));
    }

    method BeginHost(suite: Suite, secret: nat) returns (publicKey: Block)
      modifies this
      ensures Fields() == Apply(old(Fields()), suite, DoBegin)
      ensures publicKey == suite.curve.public(secret)
    {
      state := Handshaking;
      publicKey := suite.curve.public(secret);
    }

    method Complete(suite: Suite, secret: nat, deviceHex: string, now: u64)
      returns (r: Result<(), SessionError>)
      modifies this
      ensures Completed(Fields(), r) == CompleteHost(old(Fields()), suite, secret, deviceHex, now)
    {
      var pk := ParsePubkey(deviceHex);
      if pk.Err? {
        return Err(pk.error);
      }
      var shared := suite.curve.shared(secret, pk.value);
      if AllZero(shared) {
        state := Idle;
        return Err(InvalidPubkey);
      }
      key := Some(suite.kdf(shared));
      lastNonce, lastActivityMs := 0, now;
      state := Active;
      return Ok(());
    }

    method TakeNonce(nonce: u64, now: u64) returns (r: Result<(), SessionError>)
      modifies this
      ensures Completed(Fields(), r) == AcceptNonce(old(Fields()), nonce, now)
    {
      if state != Active {
        return Err(NotActive);
      }
      if nonce <= lastNonce {
        return Err(NonceReused(nonce, lastNonce));
      }
      lastNonce, lastActivityMs := nonce, now;
      return Ok(());
    }

    method ExpireNow()
      modifies this
      ensures Fields() == Expire(old(Fields()))
    {
      key := None;
      state := Expired;
    }

    method CheckIdle(now: u64, threshold: u64) returns (expired: bool)
      modifies this
      ensures expired == IdleTooLong(old(Fields()), now, threshold)
      ensures Fields() == if expired then Expire(old(Fields())) else old(Fields())
    {
      if state != Active {
        return false;
      }
      if (if now <= lastActivityMs then 0 else now - lastActivityMs) >= threshold {
        ExpireNow();
        return true;
      }
      return false;
    }

    method SealText(suite: Suite, iv: Iv, plain: seq<byte>, now: u64) returns (hex: Result<string, SessionError>)
      modifies this
      ensures Sealed(Fields(), hex) == SealPayload(old(Fields()), suite, iv, plain, now)
    {
      if state != Active || key.None? {
        return Err(NotActive);
      }
      var ct := suite.cipher.encrypt(key.value, iv, plain);
      if ct.None? {
        return Err(SealFailed);
      }
      lastActivityMs := now;
      return Ok(Hex.Encode(iv + ct.value));
    }

    method OpenText(suite: Suite, hex: string, now: u64) returns (plain: Result<seq<byte>, SessionError>)
      modifies this
      ensures Opened(Fields(), plain) == OpenPayload(old(Fields()), suite, hex, now)
    {
      if state != Active || key.None? {
        return Err(NotActive);
      }
      var raw := Hex.HexToBytes(hex);
      if raw.Err? {
        return Err(BadHex);
      }
      if |raw.value| < IV_BYTES + TAG_BYTES {
        return Err(OpenFailed);
      }
      var pt := suite.cipher.decrypt(key.value, raw.value[..IV_BYTES], raw.value[IV_BYTES..]);
      if pt.None? {
        return Err(OpenFailed);
      }
      lastActivityMs := now;
      return Ok(pt.value);
    }
  }

  // ----- every run of a session -----------------------------------------------

  /** What can be done to a session, in any order and any interleaving. */
  datatype Op =
    | DoAccept(hostHex: string, secret: nat, now: u64)
    | DoBegin
    | DoComplete(secret: nat, deviceHex: string, now: u64)
    | DoNonce(nonce: u64, now: u64)
    | DoCheckIdle(now: u64, threshold: u64)
    | DoSeal(iv: Iv, plain: seq<byte>, now: u64)
    | DoOpen(hex: string, now: u64)
    | DoExpire

  function Apply(d: Data, suite: Suite, op: Op): Data {
    match op
    case DoAccept(hostHex, secret, now) => Accept(d, suite, hostHex, secret, now).data
    case DoBegin => d.(state := Handshaking)
    case DoComplete(secret, deviceHex, now) => CompleteHost(d, suite, secret, deviceHex, now).data
    case DoNonce(nonce, now) => AcceptNonce(d, nonce, now).data
    case DoCheckIdle(now, threshold) => if IdleTooLong(d, now, threshold) then Expire(d) else d
    case DoSeal(iv, plain, now) => SealPayload(d, suite, iv, plain, now).data
    case DoOpen(hex, now) => OpenPayload(d, suite, hex, now).data
    case DoExpire => Expire(d)
  }

  /** Did this step complete a handshake? */
  predicate Handshakes(d: Data, suite: Suite, op: Op) {
    match op
    case DoAccept(hostHex, secret, now) => Accept(d, suite, hostHex, secret, now).reply.Ok?
    case DoComplete(secret, deviceHex, now) => CompleteHost(d, suite, secret, deviceHex, now).result.Ok?
    case _ => false
  }

  function After(suite: Suite, ops: seq<Op>): Data {
    if ops == [] then FRESH
    else Apply(After(suite, ops[..|ops| - 1]), suite, ops[|ops| - 1])
  }

  /** The nonces accepted since the last completed handshake. */
  function AcceptedNonces(suite: Suite, ops: seq<Op>): seq<u64> {
    if ops == [] then []
    else
      var n := |ops| - 1;
      NoncesWith(After(suite, ops[..n]), suite, ops[n], AcceptedNonces(suite, ops[..n]))
  }

  function NoncesWith(d: Data, suite: Suite, op: Op, before: seq<u64>): seq<u64> {
    if Handshakes(d, suite, op) then []
    else if op.DoNonce? && AcceptNonce(d, op.nonce, op.now).result.Ok? then before + [op.nonce]
    else before
  }

  /** Active sessions have a key, expired ones have none; the converse of the first fails. */
  ghost predicate KeyInvariant(d: Data) {
    (d.state == Active ==> d.key.Some?) && (d.state == Expired ==> d.key.None?)
  }

  lemma {:induction false} KeyInvariantHolds(suite: Suite, ops: seq<Op>)
    ensures KeyInvariant(After(suite, ops))
  {
    if ops != [] {
      KeyInvariantHolds(suite, ops[..|ops| - 1]);
    }
  }

  /** A failed handshake leaves a session that is not active and still holds the old key. */
  lemma FailedHandshakeKeepsKey(suite: Suite, d: Data, hostHex: string, secret: nat, now: u64)
    requires Accept(d, suite, hostHex, secret, now).reply.Err?
    ensures var after := Accept(d, suite, hostHex, secret, now).data;
            after.key == d.key && (after.state == Handshaking || after.state == Idle)
  {
  }

  /** When the step resets the idle timer: a completed handshake, an accepted nonce, something sealed or opened. */
  function TouchedAt(d: Data, suite: Suite, op: Op): Option<u64> {
    match op
    case DoAccept(hostHex, secret, now) => if Accept(d, suite, hostHex, secret, now).reply.Ok? then Some(now) else None
    case DoComplete(secret, deviceHex, now) =>
      if CompleteHost(d, suite, secret, deviceHex, now).result.Ok? then Some(now) else None
    case DoNonce(nonce, now) => if d.state == Active && nonce > d.lastNonce then Some(now) else None
    case DoSeal(iv, plain, now) => if SealPayload(d, suite, iv, plain, now).hex.Ok? then Some(now) else None
    case DoOpen(hex, now) => if OpenPayload(d, suite, hex, now).plain.Ok? then Some(now) else None
    case _ => None
  }

  /** When each step of a run resets the idle timer. */
  function Touches(suite: Suite, ops: seq<Op>): (ts: seq<Option<u64>>)
    ensures |ts| == |ops|
  {
    if ops == [] then []
    else
      var n := |ops| - 1;
      Touches(suite, ops[..n]) + [TouchedAt(After(suite, ops[..n]), suite, ops[n])]
  }

  /** `i` is the last step that did, at `at`; -1 stands for none, and 0. */
  predicate LastTouch(touches: seq<Option<u64>>, i: int, at: u64) {
    && -1 <= i < |touches|
    && (forall j :: i < j < |touches| ==> touches[j].None?)
    && (if i == -1 then at == 0 else touches[i] == Some(at))
  }

  /** In every run the idle timer was set by the last step that resets it; before any it is 0. */
  lemma {:induction false} ActivityIsLastTouch(suite: Suite, ops: seq<Op>) returns (i: int)
    ensures LastTouch(Touches(suite, ops), i, After(suite, ops).lastActivityMs)
  {
    if ops == [] {
      i := -1;
    } else {
      var n := |ops| - 1;
      var d := After(suite, ops[..n]);
      i := ActivityIsLastTouch(suite, ops[..n]);
      TouchSets(d, suite, ops[n]);
      var touched := TouchedAt(d, suite, ops[n]);
      NextTouch(Touches(suite, ops[..n]), i, d.lastActivityMs, touched);
      if touched.Some? { i := n; }
    }
  }

  lemma NextTouch(touches: seq<Option<u64>>, i: int, at: u64, touched: Option<u64>)
    requires LastTouch(touches, i, at)
    ensures if touched.None? then LastTouch(touches + [touched], i, at)
            else LastTouch(touches + [touched], |touches|, touched.value)
  {
  }

  lemma TouchSets(d: Data, suite: Suite, op: Op)
    ensures var at := TouchedAt(d, suite, op);
            Apply(d, suite, op).lastActivityMs == if at.Some? then at.value else d.lastActivityMs
  {
  }

  /**
   * The device's answer to every host key: bad hex and a bad length leave it handshaking, an all-zero secret
   * idle, all three with the old key; any other makes a session whose key both ends derive.
   */
  lemma AcceptAnswers(d: Data, suite: Suite, hostHex: string, secret: nat, now: u64)
    ensures var a, raw := Accept(d, suite, hostHex, secret, now), Hex.Decode(hostHex);
            if raw.Err? then a == Accepted(d.(state := Handshaking), Err(BadHex))
            else if |raw.value| != 32 then a == Accepted(d.(state := Handshaking), Err(InvalidPubkey))
            else
              var shared := suite.curve.shared(secret, raw.value);
              if forall i :: 0 <= i < 32 ==> shared[i] == 0 then a == Accepted(d.(state := Idle), Err(InvalidPubkey))
              else a == Accepted(Data(Active, Some(suite.kdf(shared)), 0, now),
                                 Ok(Hex.Encode(suite.curve.public(secret))))
  {
  }

  /** The host side's answer to every device key, likewise; bad hex and a bad length leave it as it was. */
  lemma CompleteAnswers(d: Data, suite: Suite, secret: nat, deviceHex: string, now: u64)
    ensures var c, raw := CompleteHost(d, suite, secret, deviceHex, now), Hex.Decode(deviceHex);
            if raw.Err? then c == Completed(d, Err(BadHex))
            else if |raw.value| != 32 then c == Completed(d, Err(InvalidPubkey))
            else
              var shared := suite.curve.shared(secret, raw.value);
              if forall i :: 0 <= i < 32 ==> shared[i] == 0 then c == Completed(d.(state := Idle), Err(InvalidPubkey))
              else c == Completed(Data(Active, Some(suite.kdf(shared)), 0, now), Ok(()))
  {
  }

  ghost predicate StrictlyIncreasing(ns: seq<u64>) {
    forall i, j {:trigger ns[i], ns[j]} :: 0 <= i < j < |ns| ==> ns[i] < ns[j]
  }

  /** The nonces increase, and the session remembers the last. */
  ghost predicate Remembered(d: Data, ns: seq<u64>) {
    && StrictlyIncreasing(ns) && (forall i :: 0 <= i < |ns| ==> 0 < ns[i] <= d.lastNonce)
    && d.lastNonce == if ns == [] then 0 else ns[|ns| - 1]
  }

  /**
   * Between handshakes the accepted nonces strictly increase from above zero, through failed
   * handshakes, expiry and any interleaving, and the session remembers exactly the last one.
   */
  lemma {:induction false} NoncesIncrease(suite: Suite, ops: seq<Op>)
    ensures Remembered(After(suite, ops), AcceptedNonces(suite, ops))
  {
    if ops != [] {
      var n := |ops| - 1;
      NoncesIncrease(suite, ops[..n]);
      IncreaseKept(After(suite, ops[..n]), suite, ops[n], AcceptedNonces(suite, ops[..n]));
    }
  }

  lemma IncreaseKept(d: Data, suite: Suite, op: Op, ns: seq<u64>)
    requires Remembered(d, ns)
    ensures Remembered(Apply(d, suite, op), NoncesWith(d, suite, op, ns))
  {
  }

  predicate AllBelow(ns: seq<u64>, nonce: u64) {
    forall m :: m in ns ==> m < nonce
  }

  /** A nonce is accepted exactly by an active session that has accepted none as large. */
  lemma {:induction false} AcceptedExactly(suite: Suite, ops: seq<Op>, nonce: u64, now: u64)
    ensures AcceptNonce(After(suite, ops), nonce, now).result.Ok?
       <==> After(suite, ops).state == Active && nonce > 0 && AllBelow(AcceptedNonces(suite, ops), nonce)
  {
    NoncesIncrease(suite, ops);
    AcceptedAbove(After(suite, ops), AcceptedNonces(suite, ops), nonce, now);
  }

  lemma {:induction false} AcceptedAbove(d: Data, ns: seq<u64>, nonce: u64, now: u64)
    requires Remembered(d, ns)
    ensures AcceptNonce(d, nonce, now).result.Ok?
       <==> d.state == Active && nonce > 0 && AllBelow(ns, nonce)
  {
    if ns != [] {
      assert ns[|ns| - 1] in ns;
    }
    forall m | m in ns && nonce > d.lastNonce ensures m < nonce {
      var i :| 0 <= i < |ns| && ns[i] == m;
    }
  }
}
