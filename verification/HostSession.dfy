/** The browser side of the sealed channel (extension/background.js). */
module HostSession {
  import opened Prelude
  import opened Crypto
  import Hex
  import opened Sessions

  datatype HostError = BadReply | ZeroSecret | NoKey | SealedTooShort | DecryptFailed | EncryptFailed

  /** The key `ensureSession` derives from the device's reply. */
  function HostKey(suite: Suite, secret: nat, deviceHex: string): Result<Block, HostError> {
    var raw := Hex.Decode(deviceHex);
    if raw.Err? || |raw.value| != BLOCK_BYTES then Err(BadReply)
    else
      var shared := suite.curve.shared(secret, raw.value);
      if AllZero(shared) then Err(ZeroSecret) else Ok(suite.kdf(shared))
  }

  method UnsealPassword(suite: Suite, sessionKey: Option<Block>, sealedHex: string)
    returns (r: Result<seq<byte>, HostError>)
    ensures sessionKey.None? ==> r == Err(NoKey)
    ensures sessionKey.Some? ==> r == Unsealed(suite, sessionKey.value, sealedHex)
  {
    if sessionKey.None? {
      return Err(NoKey);
    }
    var raw := Hex.HexToBytes(sealedHex);
    if raw.Err? {
      return Err(BadReply);
    }
    if |raw.value| < IV_BYTES + TAG_BYTES {
      return Err(SealedTooShort);
    }
    var iv, ct := raw.value[..IV_BYTES], raw.value[IV_BYTES..];
    var plain := suite.cipher.decrypt(sessionKey.value, iv, ct);
    return if plain.None? then Err(DecryptFailed) else Ok(plain.value);
  }

  function Unsealed(suite: Suite, key: Block, sealedHex: string): Result<seq<byte>, HostError> {
    var raw := Hex.Decode(sealedHex);
    if raw.Err? then Err(BadReply)
    else if |raw.value| < IV_BYTES + TAG_BYTES then Err(SealedTooShort)
    else
      var plain := Unseal(suite.cipher, key, raw.value);
      if plain.None? then Err(DecryptFailed) else Ok(plain.value)
  }

  /** `out.set(iv, 0); out.set(ct, 12)`, then hex. */
  method SealPassword(suite: Suite, sessionKey: Option<Block>, iv: Iv, plain: seq<byte>)
    returns (r: Result<string, HostError>)
    ensures sessionKey.None? ==> r == Err(NoKey)
    ensures sessionKey.Some? ==> r == SealedHex(suite, sessionKey.value, iv, plain)
  {
    if sessionKey.None? {
      return Err(NoKey);
    }
    var ct := suite.cipher.encrypt(sessionKey.value, iv, plain);
    if ct.None? {
      return Err(EncryptFailed);
    }
    var out := new byte[IV_BYTES + |ct.value|];
    for i := 0 to IV_BYTES
      invariant forall k :: 0 <= k < i ==> out[k] == iv[k]
    {
      out[i] := iv[i];
    }
    for i := 0 to |ct.value|
      invariant forall k :: 0 <= k < IV_BYTES ==> out[k] == iv[k]
      invariant forall k :: 0 <= k < i ==> out[IV_BYTES + k] == ct.value[k]
    {
      out[IV_BYTES + i] := ct.value[i];
    }
    assert out[..] == iv + ct.value;
    return Ok(Hex.Encode(out[..]));
  }

  function SealedHex(suite: Suite, key: Block, iv: Iv, plain: seq<byte>): Result<string, HostError> {
    var blob := Seal(suite.cipher, key, iv, plain);
    if blob.None? then Err(EncryptFailed) else Ok(Hex.Encode(blob.value))
  }

  // ----- both ends together ---------------------------------------------------

  /** Host and device come out of a handshake with the same key, or both refuse it. */
  lemma {:induction false} HandshakeAgrees(suite: Suite, d: Data, hostSecret: nat, deviceSecret: nat, now: u64)
    ensures var a := Accept(d, suite, Hex.Encode(suite.curve.public(hostSecret)), deviceSecret, now);
            var deviceHex := Hex.Encode(suite.curve.public(deviceSecret));
            && (a.reply.Ok? ==> a.reply.value == deviceHex && a.data.key.Some?
                                && HostKey(suite, hostSecret, deviceHex) == Ok(a.data.key.value))
            && (a.reply.Err? ==> a.reply.error == InvalidPubkey
                                 && HostKey(suite, hostSecret, deviceHex) == Err(ZeroSecret))
  {
    Hex.DecodeEncode(suite.curve.public(hostSecret));
    Hex.DecodeEncode(suite.curve.public(deviceSecret));
    assert suite.curve.shared(hostSecret, suite.curve.public(deviceSecret))
        == suite.curve.shared(deviceSecret, suite.curve.public(hostSecret));
  }

  /** The Rust host side derives the same key as the browser side. */
  lemma HostsAgree(suite: Suite, d: Data, secret: nat, deviceHex: string, now: u64)
    ensures var c := CompleteHost(d, suite, secret, deviceHex, now);
            c.result.Ok? <==> HostKey(suite, secret, deviceHex).Ok?
    ensures var c := CompleteHost(d, suite, secret, deviceHex, now);
            c.result.Ok? ==> c.data.key == Some(HostKey(suite, secret, deviceHex).value)
  {
  }

  /** On the wire both ends send the 12 bytes of the iv, then the ciphertext, in hex. */
  lemma {:induction false} SealedLayout(suite: Suite, key: Block, iv: Iv, plain: seq<byte>, d: Data, now: u64)
    requires d.state == Active && d.key == Some(key)
    ensures var ct := suite.cipher.encrypt(key, iv, plain);
            if ct.None? then
              SealedHex(suite, key, iv, plain) == Err(EncryptFailed)
              && SealPayload(d, suite, iv, plain, now).hex == Err(SealFailed)
            else
              && |ct.value| == |plain| + 16
              && SealedHex(suite, key, iv, plain) == Ok(Hex.Encode(iv + ct.value))
              && SealPayload(d, suite, iv, plain, now).hex == Ok(Hex.Encode(iv + ct.value))
              && Hex.Decode(Hex.Encode(iv + ct.value)) == Ok(iv + ct.value)
  {
    var ct := suite.cipher.encrypt(key, iv, plain);
    if ct.Some? { Hex.DecodeEncode(iv + ct.value); }
  }

  /** What the device seals, the host opens. */
  lemma {:induction false} DeviceToHost(suite: Suite, d: Data, iv: Iv, plain: seq<byte>, now: u64)
    requires SealPayload(d, suite, iv, plain, now).hex.Ok?
    ensures d.key.Some?
    ensures Unsealed(suite, d.key.value, SealPayload(d, suite, iv, plain, now).hex.value) == Ok(plain)
  {
    var blob := Seal(suite.cipher, d.key.value, iv, plain).value;
    Hex.DecodeEncode(blob);
    UnsealSeal(suite.cipher, d.key.value, iv, plain);
  }

  /** What the host seals, the active device opens. */
  lemma {:induction false} HostToDevice(suite: Suite, d: Data, iv: Iv, plain: seq<byte>, now: u64)
    requires d.state == Active && d.key.Some?
    requires SealedHex(suite, d.key.value, iv, plain).Ok?
    ensures OpenPayload(d, suite, SealedHex(suite, d.key.value, iv, plain).value, now).plain == Ok(plain)
  {
    var blob := Seal(suite.cipher, d.key.value, iv, plain).value;
    Hex.DecodeEncode(blob);
    UnsealSeal(suite.cipher, d.key.value, iv, plain);
  }
}
