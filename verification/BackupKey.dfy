/** The passphrase-to-key loop of the portable backup (PBKDF2 with HMAC-SHA256, one block). */
module BackupKey {
  import opened Prelude

  /** HMAC-SHA256 is a foreign primitive: any function from key and data to a block. */
  type Hmac = (seq<byte>, seq<byte>) -> Block

  datatype KeyError = ZeroIterations

  // ----- exclusive or ---------------------------------------------------------

  /** Bitwise exclusive or of the low `bits` bits. */
  function XorBits(a: nat, b: nat, bits: nat): nat {
    if bits == 0 then 0
    else 2 * XorBits(a / 2, b / 2, bits - 1) + (if a % 2 == b % 2 then 0 else 1)
  }

  lemma {:induction false} XorBitsBound(a: nat, b: nat, bits: nat)
    ensures XorBits(a, b, bits) < Pow2(bits)
  {
    if bits != 0 {
      XorBitsBound(a / 2, b / 2, bits - 1);
    }
  }

  function Pow2(n: nat): nat {
    if n == 0 then 1 else 2 * Pow2(n - 1)
  }

  lemma {:induction false} XorBitsAssociative(a: nat, b: nat, c: nat, bits: nat)
    ensures XorBits(XorBits(a, b, bits), c, bits) == XorBits(a, XorBits(b, c, bits), bits)
  {
    if bits != 0 {
      XorBitsAssociative(a / 2, b / 2, c / 2, bits - 1);
      var ab, bc := XorBits(a, b, bits), XorBits(b, c, bits);
      assert ab / 2 == XorBits(a / 2, b / 2, bits - 1);
      assert bc / 2 == XorBits(b / 2, c / 2, bits - 1);
    }
  }

  function Bit(x: nat, j: nat): nat {
    if j == 0 then x % 2 else Bit(x / 2, j - 1)
  }

  /** Each of the low bits is set iff the two bits differ; no other is set. */
  lemma {:induction false} XorBitsAt(a: nat, b: nat, bits: nat, j: nat)
    ensures Bit(XorBits(a, b, bits), j) == if j < bits && Bit(a, j) != Bit(b, j) then 1 else 0
  {
    if bits == 0 {
      BitOfZero(j);
    } else if j > 0 {
      assert XorBits(a, b, bits) / 2 == XorBits(a / 2, b / 2, bits - 1);
      XorBitsAt(a / 2, b / 2, bits - 1, j - 1);
    }
  }

  lemma {:induction false} BitOfZero(j: nat)
    ensures Bit(0, j) == 0
  {
    if j > 0 { BitOfZero(j - 1); }
  }

  function XorByte(a: byte, b: byte): (x: byte) {
    XorBitsBound(a, b, 8);
    assert Pow2(8) == 256;
    XorBits(a, b, 8)
  }

  /** Exclusive or, bit by bit. */
  lemma {:induction false} XorByteAt(a: byte, b: byte, j: nat)
    requires j < 8
    ensures Bit(XorByte(a, b), j) == if Bit(a, j) == Bit(b, j) then 0 else 1
  {
    XorBitsAt(a, b, 8, j);
    BitIsBit(a, j);
    BitIsBit(b, j);
  }

  lemma {:induction false} BitIsBit(x: nat, j: nat)
    ensures Bit(x, j) == 0 || Bit(x, j) == 1
  {
    if j > 0 { BitIsBit(x / 2, j - 1); }
  }

  function Xor(a: Block, b: Block): (x: Block) {
    seq(BLOCK_BYTES, i requires 0 <= i < BLOCK_BYTES => XorByte(a[i], b[i]))
  }

  lemma {:induction false} XorAssociative(a: Block, b: Block, c: Block)
    ensures Xor(Xor(a, b), c) == Xor(a, Xor(b, c))
  {
    forall i | 0 <= i < BLOCK_BYTES
      ensures Xor(Xor(a, b), c)[i] == Xor(a, Xor(b, c))[i]
    {
      XorBitsAssociative(a[i], b[i], c[i], 8);
    }
  }

  // ----- PBKDF2, section 5.2 of RFC 8018 --------------------------------------

  /** U_1 = PRF(P, S || INT(1)), U_c = PRF(P, U_{c-1}). */
  function U(hmac: Hmac, passphrase: seq<byte>, salt: seq<byte>, c: nat): Block
    requires c >= 1
  {
    if c == 1 then hmac(passphrase, salt + [0, 0, 0, 1])
    else hmac(passphrase, U(hmac, passphrase, salt, c - 1))
  }

  /** U_i xor U_{i+1} xor ... xor U_c, associated to the right. */
  function XorOfUs(hmac: Hmac, passphrase: seq<byte>, salt: seq<byte>, i: nat, c: nat): Block
    requires 1 <= i <= c
    decreases c - i
  {
    if i == c then U(hmac, passphrase, salt, c)
    else Xor(U(hmac, passphrase, salt, i), XorOfUs(hmac, passphrase, salt, i + 1, c))
  }

  /** T_1 for iteration count c. */
  function T1(hmac: Hmac, passphrase: seq<byte>, salt: seq<byte>, c: nat): Block
    requires c >= 1
  {
    XorOfUs(hmac, passphrase, salt, 1, c)
  }

  /** The first keys written out: the salt is followed by the big-endian block number 1, each U is hashed on. */
  lemma {:induction false} FirstKeys(hmac: Hmac, passphrase: seq<byte>, salt: seq<byte>)
    ensures var u1 := hmac(passphrase, salt + [0, 0, 0, 1]);
            var u2 := hmac(passphrase, u1);
            var u3 := hmac(passphrase, u2);
            && T1(hmac, passphrase, salt, 1) == u1
            && T1(hmac, passphrase, salt, 2) == Xor(u1, u2)
            && T1(hmac, passphrase, salt, 3) == Xor(Xor(u1, u2), u3)
  {
    XorOfUsSnoc(hmac, passphrase, salt, 1, 1);
    XorOfUsSnoc(hmac, passphrase, salt, 1, 2);
  }

  lemma {:induction false} XorOfUsSnoc(hmac: Hmac, passphrase: seq<byte>, salt: seq<byte>, i: nat, c: nat)
    requires 1 <= i <= c
    ensures XorOfUs(hmac, passphrase, salt, i, c + 1)
         == Xor(XorOfUs(hmac, passphrase, salt, i, c), U(hmac, passphrase, salt, c + 1))
    decreases c - i
  {
    if i < c {
      XorOfUsSnoc(hmac, passphrase, salt, i + 1, c);
      XorAssociative(U(hmac, passphrase, salt, i),
                     XorOfUs(hmac, passphrase, salt, i + 1, c),
                     U(hmac, passphrase, salt, c + 1));
    }
  }

  /** `dst ^= src` over the whole block. */
  method XorInto(dst: array<byte>, src: Block)
    requires dst.Length == BLOCK_BYTES
    modifies dst
    ensures dst[..] == Xor(old(dst[..]), src)
  {
    ghost var was := dst[..];
    var i := 0;
    while i < BLOCK_BYTES
      invariant 0 <= i <= BLOCK_BYTES
      invariant forall k :: 0 <= k < i ==> dst[k] == XorByte(was[k], src[k])
      invariant forall k :: i <= k < BLOCK_BYTES ==> dst[k] == was[k]
    {
      dst[i] := XorByte(dst[i], src[i]);
      i := i + 1;
    }
  }

  /** The loop computes the RFC's T_1; a zero iteration count is refused. */
  method DeriveBackupKey(hmac: Hmac, passphrase: seq<byte>, salt: seq<byte>, iterations: nat)
    returns (r: Result<Block, KeyError>)
    ensures iterations == 0 ==> r == Err(ZeroIterations)
    ensures iterations >= 1 ==> r == Ok(T1(hmac, passphrase, salt, iterations))
  {
    if iterations == 0 {
      return Err(ZeroIterations);
    }
    var u := hmac(passphrase, salt + [0, 0, 0, 1]);
    var out := new byte[BLOCK_BYTES](i requires 0 <= i < BLOCK_BYTES => u[i]);
    assert out[..] == u;
    var i := 1;
    while i < iterations
      invariant 1 <= i <= iterations
      invariant u == U(hmac, passphrase, salt, i)
      invariant out[..] == T1(hmac, passphrase, salt, i)
    {
      u := hmac(passphrase, u);
      XorInto(out, u);
      XorOfUsSnoc(hmac, passphrase, salt, 1, i);
      i := i + 1;
    }
    r := Ok(out[..]);
  }
}
