/** The fixed-width C integer types the runtime uses, with their wrap-around
    arithmetic written out, the Option type that stands for a nullable
    pointer, and the associativity of sequence concatenation that the
    trace proofs of the other modules use. */
module CTypes {

  const U8_LIMIT: int := 0x100
  const U32_LIMIT: int := 0x1_0000_0000
  const U64_LIMIT: int := 0x1_0000_0000_0000_0000

  type u8 = x: int | 0 <= x < U8_LIMIT
  type u32 = x: int | 0 <= x < U32_LIMIT
  type u64 = x: int | 0 <= x < U64_LIMIT

  /** A pointer that may be NULL. */
  datatype Option<+T> = None | Some(value: T)

  /** `a + b` on uint64_t: the sum modulo 2^64. */
  function Add64(a: u64, b: u64): (r: u64)
    ensures a + b < U64_LIMIT ==> r == a + b
    ensures a + b >= U64_LIMIT ==> r == a + b - U64_LIMIT
  {
    (a + b) % U64_LIMIT
  }

  /** `a - b` on uint64_t: the difference modulo 2^64. */
  function Sub64(a: u64, b: u64): (r: u64)
    ensures b <= a ==> r == a - b
    ensures a < b ==> r == a - b + U64_LIMIT
  {
    (a - b) % U64_LIMIT
  }

  lemma ConcatAssoc<T>(a: seq<T>, b: seq<T>, c: seq<T>)
    ensures (a + b) + c == a + (b + c)
  {
  }

  /** `a * b` on uint32_t: the product modulo 2^32. */
  function Mul32(a: u32, b: u32): (r: u32)
  {
    (a * b) % U32_LIMIT
  }
}
