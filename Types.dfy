/**
 * Shared vocabulary of the detector: bytes, optional values, the Match
 * record every recogniser produces, the per-call Context, and the 32-bit
 * integer conversions that JavaScript applies to the operands of its
 * bitwise operators.
 */
module Types {

  /** One element of the input buffer (a Uint8Array element). */
  type byte = b: int | 0 <= b < 256

  datatype Option<T> = None | Some(value: T)

  /** A named encoding with a heuristic confidence. */
  datatype Match = Match(name: string, confidence: int)

  /** The names the five recognisers report. */
  const GB18030_NAME: string := "GB18030"
  const UTF8_NAME: string := "UTF-8"
  const BIG5_NAME: string := "Big5"
  const UTF16LE_NAME: string := "UTF-16LE"
  const UTF16BE_NAME: string := "UTF-16BE"

  /**
   * The per-call snapshot shared by all recognisers. Only rawInput and
   * rawLen are read by the recognisers; the histogram and the C1 flag
   * are computed by the detector and carried along.
   */
  datatype Context = Context(
    byteStats: seq<nat>,
    c1Bytes: bool,
    rawInput: seq<byte>,
    rawLen: nat,
    inputBytes: seq<byte>,
    inputLen: nat)
  {
    /** rawLen is the length of rawInput, as the detector builds it. */
    predicate Valid() {
      rawLen == |rawInput|
    }
  }

  const TWO_POW_32: int := 0x1_0000_0000
  const TWO_POW_31: int := 0x8000_0000

  predicate IsInt32(x: int) {
    -TWO_POW_31 <= x < TWO_POW_31
  }

  /** ECMAScript ToInt32: the integer congruent to x modulo 2^32 in the signed 32-bit range. */
  function ToInt32(x: int): (r: int)
    ensures IsInt32(r)
    ensures (x - r) % TWO_POW_32 == 0
    ensures IsInt32(x) ==> r == x
  {
    var m := x % TWO_POW_32;
    if m >= TWO_POW_31 then m - TWO_POW_32 else m
  }

  /**
   * `(cv << 8) | b` for a 32-bit cv and a nextByte result b in -1..255.
   * The low 8 bits of `cv << 8` are zero, so OR with a byte adds it;
   * -1 has every bit set, so OR with it gives -1.
   */
  function ShiftOrByte(cv: int, b: int): (r: int)
    requires IsInt32(cv) && -1 <= b < 256
    ensures IsInt32(r)
    ensures b == -1 ==> r == -1
    ensures 0 <= b && 0 <= cv < 0x80_0000 ==> r == cv * 256 + b
  {
    if b < 0 then -1 else ToInt32(cv * 256) + b
  }

  /**
   * `(cv << 16) | (b2 << 8) | b3` for a 32-bit cv and two bytes; the
   * shifted operands occupy disjoint bits, so OR is addition.
   */
  function ShiftOrTwoBytes(cv: int, b2: byte, b3: byte): (r: int)
    requires IsInt32(cv)
    ensures IsInt32(r)
    ensures (r - (cv * 0x1_0000 + b2 * 0x100 + b3)) % TWO_POW_32 == 0
  {
    ShiftSixteenRange(cv);
    ToInt32(cv * 0x1_0000) + b2 * 0x100 + b3
  }

  /** `cv << 16` is a multiple of 2^16, so it leaves room below 2^31 for the two low bytes. */
  lemma ShiftSixteenRange(cv: int)
    ensures -TWO_POW_31 <= ToInt32(cv * 0x1_0000) <= TWO_POW_31 - 0x1_0000
  {
    var x := cv * 0x1_0000;
    var d := x / TWO_POW_32;
    var m := x % TWO_POW_32;
    var t := cv - d * 0x1_0000;
    assert x == d * TWO_POW_32 + m;
    assert d * TWO_POW_32 == (d * 0x1_0000) * 0x1_0000;
    assert m == t * 0x1_0000;
    assert 0 <= t < 0x1_0000;
  }

  function Min(a: int, b: int): int {
    if a <= b then a else b
  }
}
