/** Bytes, safe integers and increasing indices: what several models share. */
module Basics {

  /** The largest integer up to which every integer is represented exactly. */
  const MAX_SAFE_INTEGER: nat := 0x1F_FFFF_FFFF_FFFF

  type Byte = b: int | 0 <= b < 0x100

  type Bytes = seq<Byte>

  predicate Increasing(indices: seq<nat>) {
    forall i, j | 0 <= i < j < |indices| :: indices[i] < indices[j]
  }
}
