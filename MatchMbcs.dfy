/**
 * The scoring routine shared by the Big5 and GB18030 recognisers
 * (src/chardet/match_mbcs.ts). It decodes the input character by
 * character, tallies total, malformed, double-byte and common characters,
 * gives up early once malformed characters dominate, and turns the
 * tallies into a confidence through an ordered cascade of rules.
 */
module MatchMbcs {
  import opened Types
  import opened CharIter
  import opened Decoders
  import BinarySearch

  /** The decode step a recogniser hands to the scorer. */
  datatype Encoding = Big5 | Gb18030

  function Decode(enc: Encoding, s: seq<byte>, pos: nat): (st: Step)
    ensures pos <= |s| ==> pos <= st.next <= |s|
    ensures pos <= |s| && !st.hitEnd ==> pos < st.next
  {
    match enc
    case Big5 => Big5Decode(s, pos)
    case Gb18030 => Gb18030Decode(s, pos)
  }

  datatype Counts = Counts(total: nat, bad: nat, doubleByte: nat, common: nat)

  const NoCounts := Counts(0, 0, 0, 0)

  /** Malformed and double-byte characters are disjoint kinds of characters; common ones are double-byte. */
  predicate CountsInv(c: Counts) {
    c.bad + c.doubleByte <= c.total && c.common <= c.doubleByte
  }

  /** The early exit: at least two malformed characters, and at least one per five double-byte ones. */
  predicate BailOut(c: Counts) {
    c.bad >= 2 && c.bad * 5 >= c.doubleByte
  }

  /**
   * A well-formed character counts as double-byte when its value, read as
   * a signed 32-bit integer (`charValue & 0xffffffff`), exceeds 0xFF.
   */
  predicate IsDoubleByte(st: Step) {
    !st.error && ToInt32(st.charValue) > 0xFF
  }

  /** One character's contribution to the tallies. */
  function Tally(c: Counts, st: Step, commonChars: Option<seq<int>>): (c': Counts)
    ensures c'.total == c.total + 1
    ensures c'.bad == c.bad + (if st.error then 1 else 0)
    ensures c'.doubleByte == c.doubleByte + (if IsDoubleByte(st) then 1 else 0)
    ensures c'.common == c.common + 1 ==>
              IsDoubleByte(st) && commonChars.Some? && ToInt32(st.charValue) in commonChars.value
    ensures (IsDoubleByte(st) && commonChars.Some? && BinarySearch.Sorted(commonChars.value)
             && ToInt32(st.charValue) in commonChars.value) ==> c'.common == c.common + 1
    ensures c'.common == c.common || c'.common == c.common + 1
    ensures CountsInv(c) ==> CountsInv(c')
  {
    var total := c.total + 1;
    if st.error then c.(total := total, bad := c.bad + 1)
    else
      var cv := ToInt32(st.charValue);
      if cv > 0xFF then
        var isCommon := commonChars.Some? && BinarySearch.Search(commonChars.value, cv) >= 0;
        c.(total := total, doubleByte := c.doubleByte + 1,
           common := if isCommon then c.common + 1 else c.common)
      else c.(total := total)
  }

  /** How the scan ends: input exhausted, or the early exit taken. */
  datatype ScanEnd = Exhausted(counts: Counts) | BailedOut(counts: Counts)

  /** The character scan from read index pos with tallies c so far. */
  function ScanFrom(enc: Encoding, s: seq<byte>, commonChars: Option<seq<int>>, pos: nat, c: Counts): (e: ScanEnd)
    requires pos <= |s|
    ensures CountsInv(c) ==> CountsInv(e.counts)
    ensures e.BailedOut? ==> BailOut(e.counts)
    ensures c.total <= e.counts.total <= c.total + |s| - pos
    ensures c.bad <= e.counts.bad && c.doubleByte <= e.counts.doubleByte && c.common <= e.counts.common
    decreases |s| - pos
  {
    var st := Decode(enc, s, pos);
    if st.hitEnd then Exhausted(c)
    else
      var c' := Tally(c, st, commonChars);
      if BailOut(c') then BailedOut(c')
      else ScanFrom(enc, s, commonChars, st.next, c')
  }

  // ------------------------------------------------ the logarithmic rule

  function Pow(b: nat, e: nat): nat {
    if e == 0 then 1 else b * Pow(b, e - 1)
  }

  lemma {:induction false} PowPositive(b: nat, e: nat)
    requires b >= 1
    ensures Pow(b, e) >= 1
  {
    if e > 0 {
      PowPositive(b, e - 1);
    }
  }

  lemma {:induction false} PowMonotone(a: nat, b: nat, e: nat)
    requires a <= b
    ensures Pow(a, e) <= Pow(b, e)
  {
    if e > 0 {
      PowMonotone(a, b, e - 1);
      MulMonotone(a, Pow(a, e - 1), b, Pow(b, e - 1));
    }
  }

  lemma {:induction false} PowStrictlyMonotone(a: nat, b: nat, e: nat)
    requires a < b && e >= 1
    ensures Pow(a, e) < Pow(b, e)
  {
    if e == 1 {
    } else {
      PowStrictlyMonotone(a, b, e - 1);
      PowPositive(b, e - 1);
      assert a * Pow(a, e - 1) <= a * Pow(b, e - 1) by {
        MulMonotone(a, Pow(a, e - 1), a, Pow(b, e - 1));
      }
      assert a * Pow(b, e - 1) < b * Pow(b, e - 1);
    }
  }

  lemma {:induction false} PowOfProduct(a: nat, b: nat, e: nat)
    ensures Pow(a * b, e) == Pow(a, e) * Pow(b, e)
  {
    if e > 0 {
      PowOfProduct(a, b, e - 1);
      var x, y := Pow(a, e - 1), Pow(b, e - 1);
      assert Pow(a * b, e) == (a * b) * (x * y);
      assert (a * b) * (x * y) == (a * x) * (b * y) by {
        MulSwap(a, b, x, y);
      }
    }
  }

  lemma MulSwap(a: int, b: int, x: int, y: int)
    ensures (a * b) * (x * y) == (a * x) * (b * y)
  {
  }

  lemma MulMonotone(x1: nat, y1: nat, x2: nat, y2: nat)
    requires x1 <= x2 && y1 <= y2
    ensures x1 * y1 <= x2 * y2
  {
    assert x1 * y1 <= x1 * y2;
    assert x1 * y2 <= x2 * y2;
  }

  /**
   * In exact arithmetic, floor(ln(common + 1) * 90 / ln(dbc / 4) + 10) is
   * at least k (for k >= 10) exactly when (dbc/4)^(k-10) <= (common+1)^90,
   * that is, when dbc^(k-10) <= 4^(k-10) * (common+1)^90.
   */
  predicate Reaches(common: nat, dbc: nat, k: int)
    requires k >= 10
  {
    Pow(dbc, k - 10) <= Pow(4, k - 10) * Pow(common + 1, 90)
  }

  function ScoreAtMost(common: nat, dbc: nat, k: int): (r: int)
    requires 10 <= k <= 100
    ensures 10 <= r <= k
    ensures r == 10 || Reaches(common, dbc, r)
    ensures forall j :: r < j <= k ==> !Reaches(common, dbc, j)
    decreases k
  {
    if k == 10 then 10
    else if Reaches(common, dbc, k) then k
    else ScoreAtMost(common, dbc, k - 1)
  }

  /**
   * The frequency rule `min(floor(ln(common + 1) * (90 / ln(dbc / 4)) + 10), 100)`
   * as the largest k in 10..100 that the real-valued formula reaches.
   */
  function LogScore(common: nat, dbc: nat): (r: int)
    requires dbc > 4
    ensures 10 <= r <= 100
    ensures Reaches(common, dbc, r)
    ensures forall j :: r < j <= 100 ==> !Reaches(common, dbc, j)
  {
    PowPositive(common + 1, 90);
    ScoreAtMost(common, dbc, 100)
  }

  /** With no common character the logarithm of 1 is 0 and the score is the floor, 10. */
  lemma LogScoreNoCommon(dbc: nat)
    requires dbc > 4
    ensures LogScore(0, dbc) == 10
  {
    var r := LogScore(0, dbc);
    if r > 10 {
      PowOneIsOne(90);
      PowStrictlyMonotone(4, dbc, r - 10);
    }
  }

  lemma {:induction false} PowOneIsOne(e: nat)
    ensures Pow(1, e) == 1
  {
    if e > 0 {
      PowOneIsOne(e - 1);
    }
  }

  /** Once common + 1 reaches dbc / 4 the logarithms' ratio is at least 1 and the score is capped at 100. */
  lemma LogScoreSaturates(common: nat, dbc: nat)
    requires dbc > 4 && dbc <= 4 * (common + 1)
    ensures LogScore(common, dbc) == 100
  {
    assert Reaches(common, dbc, 100) by {
      PowMonotone(dbc, 4 * (common + 1), 90);
      PowOfProduct(4, common + 1, 90);
    }
  }

  // ------------------------------------------------------- the cascade

  /** Rule 1: no malformed character and at most ten double-byte ones, as in ASCII or Latin-1 text. */
  predicate FewDoubleBytes(c: Counts) {
    c.doubleByte <= 10 && c.bad == 0
  }

  /** Rule 2: fewer than twenty double-byte characters per malformed one. */
  predicate TooManyBad(c: Counts) {
    c.doubleByte < 20 * c.bad
  }

  /**
   * The confidence cascade applied to how the scan ended, first matching
   * rule wins; 0 stands for "no confidence".
   */
  function Confidence(e: ScanEnd, commonChars: Option<seq<int>>): (k: int)
    ensures k == 0 || 10 <= k <= 100
    ensures e.BailedOut? ==> k == 0
    ensures e.Exhausted? && FewDoubleBytes(e.counts) ==>
              k == (if e.counts.doubleByte == 0 && e.counts.total < 10 then 0 else 10)
    ensures e.Exhausted? && !FewDoubleBytes(e.counts) && TooManyBad(e.counts) ==> k == 0
    ensures e.Exhausted? && !FewDoubleBytes(e.counts) && !TooManyBad(e.counts) && commonChars.None? ==>
              30 <= k == Min(30 + e.counts.doubleByte - 20 * e.counts.bad, 100)
    ensures e.Exhausted? && !FewDoubleBytes(e.counts) && !TooManyBad(e.counts) && commonChars.Some? ==>
              e.counts.doubleByte > 4 && k == LogScore(e.counts.common, e.counts.doubleByte)
    ensures commonChars.None? ==> k == 0 || k == 10 || k >= 30
  {
    match e
    case BailedOut(_) => 0
    case Exhausted(c) =>
      if FewDoubleBytes(c) then
        if c.doubleByte == 0 && c.total < 10 then 0 else 10
      else if TooManyBad(c) then 0
      else if commonChars.None? then Min(30 + c.doubleByte - 20 * c.bad, 100)
      else LogScore(c.common, c.doubleByte)
  }

  /** A confidence of 0 is reported as no match. */
  function Conclude(name: string, e: ScanEnd, commonChars: Option<seq<int>>): (r: Option<Match>)
    ensures e.BailedOut? ==> r == None
    ensures r.Some? ==> r.value.name == name && 10 <= r.value.confidence <= 100
    ensures e.Exhausted? && FewDoubleBytes(e.counts) ==>
              r == (if e.counts.doubleByte == 0 && e.counts.total < 10 then None else Some(Match(name, 10)))
    ensures e.Exhausted? && !FewDoubleBytes(e.counts) && TooManyBad(e.counts) ==> r == None
    ensures e.Exhausted? && !FewDoubleBytes(e.counts) && !TooManyBad(e.counts) && commonChars.None? ==>
              r == Some(Match(name, Min(30 + e.counts.doubleByte - 20 * e.counts.bad, 100)))
    ensures e.Exhausted? && !FewDoubleBytes(e.counts) && !TooManyBad(e.counts) && commonChars.Some? ==>
              e.counts.doubleByte > 4 && r == Some(Match(name, LogScore(e.counts.common, e.counts.doubleByte)))
    ensures commonChars.None? && r.Some? ==> r.value.confidence == 10 || r.value.confidence >= 30
  {
    var confidence := Confidence(e, commonChars);
    if confidence == 0 then None else Some(Match(name, confidence))
  }

  /** What `matchMbcs(det, name, commonChars, nextChar)` answers. */
  function MbcsSpec(enc: Encoding, name: string, s: seq<byte>, commonChars: Option<seq<int>>): (r: Option<Match>)
    ensures r.Some? ==> r.value.name == name && 10 <= r.value.confidence <= 100
    ensures ScanFrom(enc, s, commonChars, 0, NoCounts).BailedOut? ==> r.None?
  {
    Conclude(name, ScanFrom(enc, s, commonChars, 0, NoCounts), commonChars)
  }

  // ------------------------------------------- properties of the scan

  /** Over ASCII bytes every step is a one-byte, well-formed, single-byte character. */
  lemma {:induction false} ScanAscii(enc: Encoding, s: seq<byte>, commonChars: Option<seq<int>>, pos: nat, c: Counts)
    requires pos <= |s| && forall i :: pos <= i < |s| ==> s[i] < 0x80
    requires c.bad == 0 && c.doubleByte == 0
    ensures ScanFrom(enc, s, commonChars, pos, c) == Exhausted(c.(total := c.total + |s| - pos))
    decreases |s| - pos
  {
    if pos < |s| {
      if enc == Gb18030 { Gb18030Classes(s, pos); }
      var st := Decode(enc, s, pos);
      assert st == Step(s[pos], false, false, pos + 1);
      ScanAscii(enc, s, commonChars, pos + 1, Tally(c, st, commonChars));
    }
  }

  /**
   * ASCII input never shows multi-byte evidence: fewer than ten
   * characters give no match, more give the floor confidence 10.
   */
  lemma MbcsAscii(enc: Encoding, name: string, s: seq<byte>, commonChars: Option<seq<int>>)
    requires forall i :: 0 <= i < |s| ==> s[i] < 0x80
    ensures MbcsSpec(enc, name, s, commonChars) == if |s| < 10 then None else Some(Match(name, 10))
  {
    ScanAscii(enc, s, commonChars, 0, NoCounts);
  }

  /** The bytes from pos on are a sequence of well-formed GB18030 four-byte characters. */
  predicate GbFourByteRun(s: seq<byte>, pos: nat)
    decreases |s| - pos
  {
    pos == |s| || (GbFourByteAt(s, pos) && GbFourByteRun(s, pos + 4))
  }

  /**
   * A four-byte GB18030 value has bit 31 set, so as a signed 32-bit
   * integer it is negative and never counts as double-byte: a run of them
   * only adds to the total.
   */
  lemma {:induction false} ScanGbFourByteRun(s: seq<byte>, commonChars: Option<seq<int>>, pos: nat, c: Counts)
    requires pos <= |s| && GbFourByteRun(s, pos) && c.bad == 0
    ensures ScanFrom(Gb18030, s, commonChars, pos, c) == Exhausted(c.(total := c.total + (|s| - pos) / 4))
    decreases |s| - pos
  {
    if pos < |s| {
      Gb18030Classes(s, pos);
      var st := Decode(Gb18030, s, pos);
      assert !st.error && !st.hitEnd && st.next == pos + 4 && !IsDoubleByte(st);
      ScanGbFourByteRun(s, commonChars, pos + 4, Tally(c, st, commonChars));
    }
  }

  /** Ten or more well-formed four-byte characters give GB18030 the confidence 10, fewer give no match. */
  lemma GbFourByteRunScore(name: string, s: seq<byte>, commonChars: Option<seq<int>>)
    requires GbFourByteRun(s, 0)
    ensures MbcsSpec(Gb18030, name, s, commonChars) == if |s| < 40 then None else Some(Match(name, 10))
  {
    ScanGbFourByteRun(s, commonChars, 0, NoCounts);
  }

  /** The scan stops at the first character after which the early-exit condition holds, and nothing is reported. */
  lemma BailOutIsNoMatch(enc: Encoding, name: string, s: seq<byte>, commonChars: Option<seq<int>>, pos: nat, c: Counts)
    requires pos <= |s|
    requires var st := Decode(enc, s, pos); !st.hitEnd && BailOut(Tally(c, st, commonChars))
    ensures ScanFrom(enc, s, commonChars, pos, c) == BailedOut(Tally(c, Decode(enc, s, pos), commonChars))
    ensures Conclude(name, ScanFrom(enc, s, commonChars, pos, c), commonChars) == None
  {
  }

  /** The `nextChar` argument of `matchMbcs`: one decode step of the chosen encoding on the iterator. */
  method NextChar(enc: Encoding, iter: CharIterator, det: Context) returns (more: bool)
    requires det.Valid() && iter.InBounds(det) && !iter.done
    modifies iter
    ensures var st := Decode(enc, det.rawInput, old(iter.nextIndex));
      && more == !st.hitEnd && iter.done == st.hitEnd
      && iter.charValue == st.charValue && iter.error == st.error
      && iter.nextIndex == st.next
      && old(iter.nextIndex) <= iter.nextIndex <= det.rawLen
      && (more ==> old(iter.nextIndex) < iter.nextIndex)
  {
    match enc
    case Big5 => more := Big5NextChar(iter, det);
    case Gb18030 => more := Gb18030NextChar(iter, det);
  }

  /** The body of the counting loop: the tallies after one more character, as `Tally` describes. */
  method CountChar(error: bool, charValue: int, commonChars: Option<seq<int>>, ghost st: Step,
                   total: nat, bad: nat, doubleByte: nat, common: nat)
    returns (totalCharCount: nat, badCharCount: nat, doubleByteCharCount: nat, commonCharCount: nat)
    requires st.error == error && st.charValue == charValue
    ensures Counts(totalCharCount, badCharCount, doubleByteCharCount, commonCharCount)
         == Tally(Counts(total, bad, doubleByte, common), st, commonChars)
  {
    totalCharCount, badCharCount, doubleByteCharCount, commonCharCount := total + 1, bad, doubleByte, common;
    if error {
      badCharCount := badCharCount + 1;
    } else {
      var cv := ToInt32(charValue);
      if cv > 0xFF {
        doubleByteCharCount := doubleByteCharCount + 1;
        if commonChars.Some? {
          // Only double-byte characters are looked up.
          if BinarySearch.Search(commonChars.value, cv) >= 0 {
            commonCharCount := commonCharCount + 1;
          }
        }
      }
    }
  }

  /**
   * The counting loop of `matchMbcs`: decodes characters until the input
   * is exhausted or the early exit fires, and reports which happened.
   */
  method CountChars(det: Context, commonChars: Option<seq<int>>, enc: Encoding)
    returns (totalCharCount: nat, badCharCount: nat, doubleByteCharCount: nat, commonCharCount: nat, bailed: bool)
    requires det.Valid()
    ensures var c := Counts(totalCharCount, badCharCount, doubleByteCharCount, commonCharCount);
      ScanFrom(enc, det.rawInput, commonChars, 0, NoCounts) == if bailed then BailedOut(c) else Exhausted(c)
  {
    doubleByteCharCount, commonCharCount, badCharCount, totalCharCount := 0, 0, 0, 0;
    ghost var s := det.rawInput;
    ghost var target := ScanFrom(enc, s, commonChars, 0, NoCounts);

    var iter := new CharIterator();
    iter.Reset();
    while true
      invariant iter.InBounds(det) && !iter.done
      invariant ScanFrom(enc, s, commonChars, iter.nextIndex,
                  Counts(totalCharCount, badCharCount, doubleByteCharCount, commonCharCount)) == target
      decreases det.rawLen - iter.nextIndex
    {
      ghost var pos := iter.nextIndex;
      ghost var before := Counts(totalCharCount, badCharCount, doubleByteCharCount, commonCharCount);
      var more := NextChar(enc, iter, det);
      ghost var st := Decode(enc, s, pos);
      if !more {
        return totalCharCount, badCharCount, doubleByteCharCount, commonCharCount, false;
      }

      totalCharCount, badCharCount, doubleByteCharCount, commonCharCount :=
        CountChar(iter.error, iter.charValue, commonChars, st,
                  totalCharCount, badCharCount, doubleByteCharCount, commonCharCount);
      if badCharCount >= 2 && badCharCount * 5 >= doubleByteCharCount {
        // Bail out early: the bytes do not follow the encoding's scheme.
        return totalCharCount, badCharCount, doubleByteCharCount, commonCharCount, true;
      }
    }
  }

  /** `matchMbcs`: counts the characters, then scores the tallies by the cascade. */
  method Mbcs(det: Context, name: string, commonChars: Option<seq<int>>, enc: Encoding)
    returns (r: Option<Match>)
    requires det.Valid()
    ensures r == MbcsSpec(enc, name, det.rawInput, commonChars)
  {
    var confidence := 0;
    var totalCharCount, badCharCount, doubleByteCharCount, commonCharCount, bailed :=
      CountChars(det, commonChars, enc);

    label detectBlock: {
      if bailed {
        break detectBlock;
      }

      if doubleByteCharCount <= 10 && badCharCount == 0 {
        if doubleByteCharCount == 0 && totalCharCount < 10 {
          confidence := 0;
        } else {
          confidence := 10;
        }
        break detectBlock;
      }

      if doubleByteCharCount < 20 * badCharCount {
        confidence := 0;
        break detectBlock;
      }

      if commonChars.None? {
        confidence := 30 + doubleByteCharCount - 20 * badCharCount;
        if confidence > 100 {
          confidence := 100;
        }
      } else {
        confidence := LogScore(commonCharCount, doubleByteCharCount);
      }
    }

    r := if confidence == 0 then None else Some(Match(name, confidence));
  }
}
