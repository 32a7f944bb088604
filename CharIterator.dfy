/**
 * The byte cursor that the multi-byte recognisers decode with
 * (src/chardet/char_iterator.ts). A decode step reads bytes through
 * NextByte and records the packed value of the character it assembled.
 */
module CharIter {
  import opened Types

  /** What NextByte answers for read index i: the byte there, or -1 past the end. */
  function ByteAt(s: seq<byte>, i: nat): (b: int)
    ensures -1 <= b < 256
    ensures b == -1 <==> i >= |s|
  {
    if i < |s| then s[i] else -1
  }

  class CharIterator {
    /** The 1 to 4 raw bytes of the last character, packed big-endian. */
    var charValue: int
    /** Where the last character started. */
    var index: int
    /** The next byte to read. */
    var nextIndex: int
    /** The last character violated the encoding's byte grammar. */
    var error: bool
    /** A read ran past the end of the input. */
    var done: bool

    /** The read index is a position inside the input or just past it. */
    predicate InBounds(det: Context)
      reads this
    {
      0 <= nextIndex <= det.rawLen
    }

    constructor ()
      ensures charValue == 0 && index == 0 && nextIndex == 0
      ensures !error && !done
    {
      charValue := 0;
      index := 0;
      nextIndex := 0;
      error := false;
      done := false;
    }

    method Reset()
      modifies this
      ensures charValue == 0 && index == -1 && nextIndex == 0
      ensures !error && !done
      ensures forall det: Context :: InBounds(det)
    {
      charValue := 0;
      index := -1;
      nextIndex := 0;
      error := false;
      done := false;
    }

    /**
     * Answers the byte at nextIndex and moves past it, or, at the end of
     * the input, answers -1, sets done and stays put. charValue, error and
     * index are untouched, and done is never cleared.
     */
    method NextByte(det: Context) returns (b: int)
      requires det.Valid() && 0 <= nextIndex
      modifies this`nextIndex, this`done
      ensures b == ByteAt(det.rawInput, old(nextIndex))
      ensures old(nextIndex) >= det.rawLen ==> b == -1 && done && nextIndex == old(nextIndex)
      ensures old(nextIndex) < det.rawLen ==>
                0 <= b < 256 && nextIndex == old(nextIndex) + 1 && done == old(done)
      ensures old(InBounds(det)) ==> InBounds(det)
    {
      if nextIndex >= det.rawLen {
        done := true;
        return -1;
      }
      b := det.rawInput[nextIndex];
      nextIndex := nextIndex + 1;
    }
  }
}
