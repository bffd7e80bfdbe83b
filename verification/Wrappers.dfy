// Result types shared by every module of the model.
module Wrappers {
  datatype Option<+T> = None | Some(value: T)

  datatype Result<+T, +E> = Ok(value: T) | Err(error: E)

  type Byte = x: int | 0 <= x < 0x100

  // The source's u32 and u64; arithmetic that can leave the range is written
  // out where it happens.
  const U32_MAX: int := 0xFFFF_FFFF
  const U64_MAX: int := 0xFFFF_FFFF_FFFF_FFFF

  type U32 = x: int | 0 <= x <= 0xFFFF_FFFF
  type U64 = x: int | 0 <= x <= 0xFFFF_FFFF_FFFF_FFFF

  ghost predicate Distinct(s: seq<string>) {
    forall i, j :: 0 <= i < j < |s| ==> s[i] != s[j]
  }

  lemma Assoc<T>(a: seq<T>, b: seq<T>, c: seq<T>)
    ensures (a + b) + c == a + (b + c)
  {
  }
}
