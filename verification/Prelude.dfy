/** Types shared by every component of the proxy model. */
module Prelude {
  datatype Option<+T> = None | Some(value: T)

  datatype Result<+T, +E> = Ok(value: T) | Err(error: E)

  /** Raw object IDs, protocol words and array lengths are 32-bit. */
  type u32 = x: int | 0 <= x < 0x1_0000_0000

  type i32 = x: int | -0x8000_0000 <= x < 0x8000_0000

  type u16 = x: int | 0 <= x < 0x1_0000

  const U64_LIMIT: int := 0x1_0000_0000_0000_0000

  type u64 = x: int | 0 <= x < U64_LIMIT

  type byte = x: int | 0 <= x < 0x100

  /** A raw file descriptor number; negative numbers mean "no descriptor". */
  type Fd = int

  const U32_MAX: u32 := 0xffff_ffff

  /** Guest numbers from here on are allocated by the server side, here the proxy. */
  const GUEST_SERVER_ID_START: u32 := 0xff00_0000

  /** `HashMap::get`. */
  function Lookup<K, V>(m: map<K, V>, k: K): (r: Option<V>)
    ensures r.Some? <==> k in m
    ensures k in m ==> r == Some(m[k])
  {
    if k in m then Some(m[k]) else None
  }

  /** What a queue holds beyond what it held before. */
  function Sent<M>(before: seq<M>, after: seq<M>): seq<M> {
    if |before| <= |after| then after[|before|..] else []
  }
}
