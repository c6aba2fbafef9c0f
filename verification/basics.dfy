/** Shared vocabulary of the model: optional values, results, and the fixed-width
    integer types that the game's data sheets and structures use. */
module Basics {

  /** A value that may be missing; stands for a C# nullable or a null reference. */
  datatype Option<+T> = None | Some(value: T) {

    /** The wrapped value, or `default` when there is none (the C# `??` operator). */
    function GetOr(default: T): T {
      match this
      case Some(v) => v
      case None => default
    }
  }

  /** The outcome of an operation that can fail; `Failure` stands for a thrown exception. */
  datatype Result<+T, +E> = Success(value: T) | Failure(error: E)

  type Byte = x: int | 0 <= x < 0x100
  type UShort = x: int | 0 <= x < 0x1_0000
  type Short = x: int | -0x8000 <= x < 0x8000
  type UInt = x: int | 0 <= x < 0x1_0000_0000

  /** An optional lookup in a table keyed by row id: missing rows read as `None`. */
  function Lookup<K, V>(m: map<K, V>, k: K): (r: Option<V>)
    ensures r.Some? <==> k in m
    ensures r.Some? ==> r.value == m[k]
  {
    if k in m then Some(m[k]) else None
  }

  function Abs(x: real): (r: real)
    ensures 0.0 <= r && (r == x || r == -x)
  {
    if x < 0.0 then -x else x
  }

  predicate EndsWith(s: string, suffix: string) {
    |suffix| <= |s| && s[|s| - |suffix|..] == suffix
  }
}
