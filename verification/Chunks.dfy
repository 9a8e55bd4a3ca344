/** What both streaming protocols share: chunks as the application sees them, and the place of the final one. */
module Chunks {
  import opened Bytes

  datatype Chunk = Chunk(plaintext: bytes, isFinal: bool, aad: bytes, frame: bytes)

  function FlagByte(isFinal: bool): byte {
    if isFinal then 0x01 else 0x00
  }

  /** No chunk but the last is final, and it is exactly when the sender has finalized. */
  predicate FinalOnlyLast(emitted: seq<Chunk>, finalized: bool) {
    && (forall i | 0 <= i < |emitted| - 1 :: !emitted[i].isFinal)
    && (finalized <==> emitted != [] && emitted[|emitted| - 1].isFinal)
  }

  lemma FinalStaysLast(emitted: seq<Chunk>, next: Chunk)
    requires FinalOnlyLast(emitted, false)
    ensures FinalOnlyLast(emitted + [next], next.isFinal)
  {
  }
}
