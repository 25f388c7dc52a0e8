// The byte values as numbers and back.

module ByteValues {
  lemma ByteRound(i: int)
    requires 0 <= i < 256
    ensures ((i as bv8) as int) == i
  {}
}
