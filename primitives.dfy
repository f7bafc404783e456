/**
 * Fixed-width integers, account keys and the success/error wrapper shared by
 * the on-chain program and the battle circuit.
 */
module Primitives {

  /** Rust's unsigned integer types, as ranges of the unbounded integers. */
  type U8 = x: int | 0 <= x < 0x100
  type U16 = x: int | 0 <= x < 0x1_0000
  type U64 = x: int | 0 <= x < 0x1_0000_0000_0000_0000

  const U8_MODULUS: int := 0x100
  const U16_MODULUS: int := 0x1_0000
  const U64_MAX: int := 0xFFFF_FFFF_FFFF_FFFF

  /**
   * A Solana public key, abstracted to a number. Key 0 stands for
   * `Pubkey::default()`, the all-zero key the program uses as "no player yet"
   * and "no winner".
   */
  type Pubkey = nat

  const DEFAULT_PUBKEY: Pubkey := 0

  /** The outcome of an instruction or of a token transfer. */
  datatype Result<+T, +E> = Ok(value: T) | Err(error: E)
}
