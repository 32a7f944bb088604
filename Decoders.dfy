/**
 * The per-encoding "next character" steps of the Big5 and GB18030
 * recognisers (src/chardet.ts:16-37 and 54-104). Each step is given twice:
 * as a function of the input and the read index, which says which bytes
 * make up the next character, and as the method that performs the same
 * step on a CharIterator through NextByte, proved to agree with it.
 */
module Decoders {
  import opened Types
  import opened CharIter

  /**
   * The outcome of one decode step: the packed character value, whether
   * the bytes broke the encoding's grammar, whether some read ran past the
   * end of the input, and where the next character starts.
   */
  datatype Step = Step(charValue: int, error: bool, hitEnd: bool, next: nat)

  // ---------------------------------------------------------------- Big5

  /** A Big5 byte that stands alone: ASCII, or 0xFF. */
  predicate Big5SingleByte(b: byte) {
    b <= 0x7F || b == 0xFF
  }

  /** A Big5 trail byte outside the grammar: below 0x40, 0x7F or 0xFF. */
  predicate Big5BadTrail(b: byte) {
    b < 0x40 || b == 0x7F || b == 0xFF
  }

  function Big5Decode(s: seq<byte>, pos: nat): (st: Step)
    ensures pos <= |s| ==> pos <= st.next <= |s|
    ensures st.hitEnd <==> pos >= |s| || (!Big5SingleByte(s[pos]) && pos + 1 == |s|)
    ensures pos < |s| && Big5SingleByte(s[pos]) ==>
              st == Step(s[pos], false, false, pos + 1)
    ensures pos + 1 < |s| && !Big5SingleByte(s[pos]) ==>
              st == Step(s[pos] as int * 256 + s[pos + 1], Big5BadTrail(s[pos + 1]), false, pos + 2)
  {
    if pos >= |s| then Step(-1, false, true, pos)
    else
      var first := s[pos];
      if first <= 0x7F || first == 0xFF then Step(first, false, false, pos + 1)
      else if pos + 1 >= |s| then Step(first, false, true, pos + 1)
      else
        var second := s[pos + 1];
        Step(ShiftOrByte(first, second), second < 0x40 || second == 0x7F || second == 0xFF, false, pos + 2)
  }

  /** `Big5.nextChar`: true when a whole character was read. */
  method Big5NextChar(iter: CharIterator, det: Context) returns (more: bool)
    requires det.Valid() && 0 <= iter.nextIndex
    modifies iter
    ensures var st := Big5Decode(det.rawInput, old(iter.nextIndex));
      && more == !st.hitEnd
      && iter.charValue == st.charValue
      && iter.error == st.error
      && iter.nextIndex == st.next
      && iter.done == (old(iter.done) || st.hitEnd)
      && iter.index == old(iter.nextIndex)
  {
    iter.index := iter.nextIndex;
    iter.error := false;

    var firstByte := iter.NextByte(det);
    iter.charValue := firstByte;
    if firstByte < 0 {
      return false;
    }
    if firstByte <= 0x7F || firstByte == 0xFF {
      return true;
    }

    var secondByte := iter.NextByte(det);
    if secondByte < 0 {
      return false;
    }
    iter.charValue := ShiftOrByte(iter.charValue, secondByte);
    if secondByte < 0x40 || secondByte == 0x7F || secondByte == 0xFF {
      iter.error := true;
    }
    return true;
  }

  // ------------------------------------------------------------- GB18030

  /** A GB18030 lead byte, 0x81..0xFE; it also opens the third byte of a four-byte character. */
  predicate GbLead(b: int) {
    0x81 <= b <= 0xFE
  }

  /**
   * The accepted two-byte trail. The source tests `0x40..0x7E` or
   * `80..0xFE` with 80 in decimal (0x50), so together 0x40..0xFE,
   * 0x7F included.
   */
  predicate GbTwoByteTrail(b: int) {
    (0x40 <= b <= 0x7E) || (80 <= b <= 0xFE)
  }

  predicate GbDigit(b: int) {
    0x30 <= b <= 0x39
  }

  /** A two-byte character starts at pos. */
  predicate GbTwoByteAt(s: seq<byte>, pos: nat) {
    pos + 1 < |s| && GbLead(s[pos]) && 0x40 <= s[pos + 1] <= 0xFE
  }

  /** A four-byte character (lead, digit, lead, digit) starts at pos. */
  predicate GbFourByteAt(s: seq<byte>, pos: nat) {
    pos + 3 < |s| && GbLead(s[pos]) && GbDigit(s[pos + 1]) && GbLead(s[pos + 2]) && GbDigit(s[pos + 3])
  }

  /** How many bytes a GB18030 step tries to read when it starts at pos. */
  function GbReads(s: seq<byte>, pos: nat): nat {
    if pos >= |s| || s[pos] <= 0x80 then 1
    else if s[pos] == 0xFF || GbTwoByteTrail(ByteAt(s, pos + 1)) || !GbDigit(ByteAt(s, pos + 1)) then 2
    else if !GbLead(ByteAt(s, pos + 2)) then 3
    else 4
  }

  function Gb18030Decode(s: seq<byte>, pos: nat): (st: Step)
    ensures pos <= |s| ==> pos <= st.next <= |s|
    ensures pos <= |s| ==> st.next == Min(pos + GbReads(s, pos), |s|)
    ensures st.hitEnd <==> pos + GbReads(s, pos) > |s|
    ensures !st.hitEnd ==> 1 <= st.next - pos <= 4
  {
    if pos >= |s| then Step(-1, false, true, pos)
    else
      var first := s[pos];
      if first <= 0x80 then Step(first, false, false, pos + 1)
      else
        var second := ByteAt(s, pos + 1);
        var cv := ShiftOrByte(first, second);
        if first <= 0xFE then
          if GbTwoByteTrail(second) then Step(cv, false, false, pos + 2)
          else if GbDigit(second) then
            var third := ByteAt(s, pos + 2);
            if GbLead(third) then
              var fourth := ByteAt(s, pos + 3);
              if GbDigit(fourth) then Step(ShiftOrTwoBytes(cv, third, fourth), false, false, pos + 4)
              else Step(cv, true, fourth < 0, Min(pos + 4, |s|))
            else Step(cv, true, third < 0, Min(pos + 3, |s|))
          else Step(cv, true, second < 0, Min(pos + 2, |s|))
        else Step(cv, false, second < 0, Min(pos + 2, |s|))
  }

  /**
   * The shapes of a GB18030 character: one byte up to 0x80; a lead
   * 0x81..0xFE with a second byte 0x40..0xFE; lead, digit, lead, digit,
   * whose packed value has bit 31 set and is negative as a 32-bit integer;
   * a lead 0xFF with any second byte, without error. Any other combination
   * after a lead 0x81..0xFE is an error.
   */
  lemma Gb18030Classes(s: seq<byte>, pos: nat)
    ensures var st := Gb18030Decode(s, pos);
      && (pos < |s| && s[pos] <= 0x80 ==> st == Step(s[pos], false, false, pos + 1))
      && (GbTwoByteAt(s, pos) ==> st == Step(s[pos] as int * 256 + s[pos + 1], false, false, pos + 2))
      && (GbFourByteAt(s, pos) ==>
            && st.charValue == s[pos] * 0x100_0000 + s[pos + 1] * 0x1_0000 + s[pos + 2] * 0x100 + s[pos + 3] - TWO_POW_32
            && st.charValue < 0
            && !st.error && !st.hitEnd && st.next == pos + 4)
      && (pos + 1 < |s| && s[pos] == 0xFF ==> st == Step(0xFF00 + s[pos + 1] as int, false, false, pos + 2))
      && (pos < |s| && GbLead(s[pos]) && !st.hitEnd ==>
            (st.error <==> !GbTwoByteAt(s, pos) && !GbFourByteAt(s, pos)))
  {
  }

  /** `GB_18030.nextChar`: true unless the iterator is, or has become, exhausted. */
  method Gb18030NextChar(iter: CharIterator, det: Context) returns (more: bool)
    requires det.Valid() && 0 <= iter.nextIndex
    modifies iter
    ensures var st := Gb18030Decode(det.rawInput, old(iter.nextIndex));
      && iter.done == (old(iter.done) || st.hitEnd)
      && more == !iter.done
      && iter.charValue == st.charValue
      && iter.error == st.error
      && iter.nextIndex == st.next
      && iter.index == old(iter.nextIndex)
  {
    ghost var s, pos := det.rawInput, iter.nextIndex;
    iter.index := iter.nextIndex;
    iter.error := false;

    label buildChar: {
      var firstByte := iter.NextByte(det);
      iter.charValue := firstByte;
      if firstByte < 0 {
        iter.done := true;
        break buildChar;
      }
      if firstByte <= 0x80 {
        break buildChar;
      }

      var secondByte := iter.NextByte(det);
      iter.charValue := ShiftOrByte(iter.charValue, secondByte);

      if 0x81 <= firstByte <= 0xFE {
        if (0x40 <= secondByte <= 0x7E) || (80 <= secondByte <= 0xFE) {
          break buildChar;
        }
        if 0x30 <= secondByte <= 0x39 {
          var thirdByte := iter.NextByte(det);
          if 0x81 <= thirdByte <= 0xFE {
            var fourthByte := iter.NextByte(det);
            if 0x30 <= fourthByte <= 0x39 {
              iter.charValue := ShiftOrTwoBytes(iter.charValue, thirdByte, fourthByte);
              break buildChar;
            }
          }
        }
        iter.error := true;
        break buildChar;
      }
    }
    return !iter.done;
  }
}
