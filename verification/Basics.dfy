/** Values shared by every component: options, results, error kinds, fixed-width numbers and content labels. */
module Basics {

  datatype Option<+T> = None | Some(value: T)

  /** The kinds of `LiveError` (src/error.rs); the message text is not modelled. */
  datatype LiveError =
    | Io | Config | Protocol | Transport | Authentication | Authorization
    | Capability | NotFound | Conflict | InvalidHolo | UnknownCommitState

  datatype Result<+T> = Ok(value: T) | Err(error: LiveError) {
    predicate IsFailure() {
      Err?
    }

    function PropagateFailure<U>(): Result<U>
      requires Err?
    {
      Err(error)
    }

    function Extract(): T
      requires Ok?
    {
      value
    }
  }

  type Byte = n: int | 0 <= n < 256
  type Bytes = seq<Byte>

  /** A content label such as `blake3:...`. */
  type Kappa = string

  const U32_MAX: nat := 0xFFFF_FFFF
  const U64_MAX: nat := 0xFFFF_FFFF_FFFF_FFFF

  type U32 = n: nat | n <= 0xFFFF_FFFF
  type U64 = n: nat | n <= 0xFFFF_FFFF_FFFF_FFFF

  /** `usize` on the 64-bit targets the program is built for. */
  type USize = n: nat | n <= 0xFFFF_FFFF_FFFF_FFFF

  /** A count as a 32-bit number, or the largest one. */
  function U32Of(n: nat): U32 {
    if n <= U32_MAX then n else U32_MAX
  }

  /** A count as a 64-bit number, or the largest one. */
  function U64Of(n: nat): U64 {
    if n <= U64_MAX then n else U64_MAX
  }

  /** `saturating_add` on 64-bit numbers. */
  function SaturatingAdd(a: nat, b: nat): U64 {
    U64Of(a + b)
  }

  /** Saturating each part first does not change a saturated sum. */
  lemma {:induction false} SaturatingSum(a: nat, b: nat)
    ensures SaturatingAdd(U64Of(a), U64Of(b)) == U64Of(a + b)
  {
  }

  /** The saturated count is the closest one the width can hold. */
  lemma {:induction false} SaturatedIsClosest(n: nat, m: nat)
    ensures m <= U32Of(n) <==> m <= n && m <= 0xFFFF_FFFF
    ensures m <= U64Of(n) <==> m <= n && m <= 0xFFFF_FFFF_FFFF_FFFF
  {
  }

  function Max(a: nat, b: nat): nat {
    if a < b then b else a
  }

  ghost predicate NoDuplicates<T>(s: seq<T>) {
    forall i, j :: 0 <= i < j < |s| ==> s[i] != s[j]
  }
}
