/** The foreign primitives, as arbitrary functions with their inverse and agreement laws. */
module Crypto {
  import opened Prelude

  const IV_BYTES: nat := 12
  const TAG_BYTES: nat := 16

  type Iv = n: seq<byte> | |n| == IV_BYTES
    witness seq(IV_BYTES, i => 0)

  /** An AEAD without associated data; encryption may fail. */
  datatype Aead = Aead(
    encrypt: (Block, Iv, seq<byte>) -> Option<seq<byte>>,
    decrypt: (Block, Iv, seq<byte>) -> Option<seq<byte>>)

  ghost predicate Inverse(a: Aead) {
    forall key, iv, plain {:trigger a.encrypt(key, iv, plain)} :: a.encrypt(key, iv, plain).Some? ==>
      && |a.encrypt(key, iv, plain).value| == |plain| + TAG_BYTES
      && a.decrypt(key, iv, a.encrypt(key, iv, plain).value) == Some(plain)
  }

  /** A cipher that only pads; it shows the laws can be met. */
  ghost const PADDING: Aead := Aead(
    (key: Block, iv: Iv, plain: seq<byte>) => Some(plain + seq(TAG_BYTES, i => 0)),
    (key: Block, iv: Iv, ct: seq<byte>) => if |ct| >= TAG_BYTES then Some(ct[..|ct| - TAG_BYTES]) else None)

  lemma PaddingInverse()
    ensures Inverse(PADDING)
  {
    forall plain: seq<byte> ensures (plain + seq(TAG_BYTES, i => 0))[..|plain|] == plain {
    }
  }

  ghost function LawfulPadding(): (a: Aead)
    ensures Inverse(a)
  {
    PaddingInverse();
    PADDING
  }

  type Cipher = a: Aead | Inverse(a) ghost witness LawfulPadding()

  /** Diffie-Hellman: secrets are drawn from anywhere, both sides agree. */
  datatype Dh = Dh(public: nat -> Block, shared: (nat, Block) -> Block)

  ghost predicate Agrees(d: Dh) {
    forall a, b {:trigger d.shared(a, d.public(b))} :: d.shared(a, d.public(b)) == d.shared(b, d.public(a))
  }

  type Curve = d: Dh | Agrees(d)
    ghost witness Dh(a => seq(BLOCK_BYTES, i => 1), (a, p) => seq(BLOCK_BYTES, i => 1))

  // ----- iv || ciphertext -----------------------------------------------------

  function Seal(cipher: Cipher, key: Block, iv: Iv, plain: seq<byte>): Option<seq<byte>> {
    var ct := cipher.encrypt(key, iv, plain);
    if ct.Some? then Some(iv + ct.value) else None
  }

  function Unseal(cipher: Cipher, key: Block, blob: seq<byte>): Option<seq<byte>> {
    if |blob| < IV_BYTES + TAG_BYTES then None
    else cipher.decrypt(key, blob[..IV_BYTES], blob[IV_BYTES..])
  }

  lemma UnsealSeal(cipher: Cipher, key: Block, iv: Iv, plain: seq<byte>)
    ensures var blob := Seal(cipher, key, iv, plain);
            blob.Some? ==> Unseal(cipher, key, blob.value) == Some(plain)
  {
    var ct := cipher.encrypt(key, iv, plain);
    if ct.Some? {
      assert (iv + ct.value)[..IV_BYTES] == iv && (iv + ct.value)[IV_BYTES..] == ct.value;
    }
  }
}
