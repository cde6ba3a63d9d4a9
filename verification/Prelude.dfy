/** Shared value types. */
module Prelude {

  datatype Option<+T> = None | Some(value: T)

  datatype Result<+T, +E> = Ok(value: T) | Err(error: E)

  type byte = b: int | 0 <= b < 256

  const U64_MAX: nat := 0xFFFF_FFFF_FFFF_FFFF

  type u64 = n: int | 0 <= n <= U64_MAX

  const BLOCK_BYTES: nat := 32

  /** A key, a public key, a shared secret or a hash: 32 bytes. */
  type Block = b: seq<byte> | |b| == BLOCK_BYTES
    witness seq(BLOCK_BYTES, i => 0)
}
