/**
 * The UTF-8 recogniser (src/chardet.ts:146-206). One pass over the raw
 * bytes classifies each byte with the high bit set as a lead byte by the
 * bit patterns of section 3 of RFC 3629 (no overlong or surrogate checks),
 * checks that its continuation bytes follow, counts valid and invalid
 * sequences, and maps the counts, together with the presence of a
 * byte-order mark, to a confidence.
 */
module Utf8 {
  import opened Types

  /** What a byte announces at the start of a sequence. */
  datatype Lead = Ascii | Lead(trail: nat) | BadLead

  /** The lead-byte masks of the source, `b & 0xE0 == 0xC0` and so on. */
  function LeadOf(b: byte): (l: Lead)
    ensures l == Ascii <==> b < 0x80
    ensures l == Lead(1) <==> 0xC0 <= b <= 0xDF
    ensures l == Lead(2) <==> 0xE0 <= b <= 0xEF
    ensures l == Lead(3) <==> 0xF0 <= b <= 0xF7
    ensures l == BadLead <==> (0x80 <= b <= 0xBF || 0xF8 <= b)
  {
    var x := b as bv8;
    if x & 0x80 == 0 then Ascii
    else if x & 0xE0 == 0xC0 then Lead(1)
    else if x & 0xF0 == 0xE0 then Lead(2)
    else if x & 0xF8 == 0xF0 then Lead(3)
    else BadLead
  }

  /** A byte of the form 10xxxxxx, `b & 0xC0 == 0x80`. */
  function IsContinuation(b: byte): (r: bool)
    ensures r <==> 0x80 <= b <= 0xBF
  {
    (b as bv8) & 0xC0 == 0x80
  }

  /** The number of consecutive continuation bytes starting at index j. */
  function ContRun(s: seq<byte>, j: nat): (k: nat)
    requires j <= |s|
    ensures j + k <= |s|
    decreases |s| - j
  {
    if j == |s| || !IsContinuation(s[j]) then 0 else 1 + ContRun(s, j + 1)
  }

  /** The run is determined by where the first non-continuation byte (or the end) is. */
  lemma {:induction false} ContRunIs(s: seq<byte>, j: nat, k: nat)
    requires j + k <= |s|
    requires forall i :: j <= i < j + k ==> IsContinuation(s[i])
    requires j + k == |s| || !IsContinuation(s[j + k])
    ensures ContRun(s, j) == k
    decreases k
  {
    if k > 0 {
      ContRunIs(s, j + 1, k - 1);
    }
  }

  /** t continuation bytes from j make the run at least t long. */
  lemma {:induction false} ContRunAtLeast(s: seq<byte>, j: nat, t: nat)
    requires j + t <= |s|
    requires forall i :: j <= i < j + t ==> IsContinuation(s[i])
    ensures ContRun(s, j) >= t
    decreases t
  {
    if t > 0 {
      ContRunAtLeast(s, j + 1, t - 1);
    }
  }

  datatype Utf8Counts = Utf8Counts(valid: nat, invalid: nat)

  /**
   * The scan from index i with the counts so far, described by runs of
   * continuation bytes:
   * - an ASCII byte is skipped;
   * - a lead byte that wants t continuation bytes and has them is one
   *   valid sequence, and the scan resumes after them;
   * - if the run is cut short by the end of the input, nothing is counted;
   * - if it is cut short by another byte, that is one invalid sequence,
   *   and the scan resumes after that byte, which is thereby skipped;
   * - a byte that cannot lead is invalid, and when it makes the invalid
   *   count exceed 5 the scan stops; otherwise every continuation byte
   *   after it is swallowed, and a second invalid sequence is counted at
   *   the byte that ends them, which is skipped too.
   */
  function ScanFrom(s: seq<byte>, i: nat, valid: nat, invalid: nat): (r: Utf8Counts)
    ensures valid <= r.valid && invalid <= r.invalid
    ensures i <= |s| ==> r.valid + r.invalid <= valid + invalid + |s| - i
    decreases |s| - i
  {
    if i >= |s| then Utf8Counts(valid, invalid)
    else
      match LeadOf(s[i])
      case Ascii => ScanFrom(s, i + 1, valid, invalid)
      case Lead(t) =>
        var k := ContRun(s, i + 1);
        if k >= t then ScanFrom(s, i + 1 + t, valid + 1, invalid)
        else if i + 1 + k == |s| then Utf8Counts(valid, invalid)
        else ScanFrom(s, i + 2 + k, valid, invalid + 1)
      case BadLead =>
        if invalid + 1 > 5 then Utf8Counts(valid, invalid + 1)
        else
          var k := ContRun(s, i + 1);
          if i + 1 + k == |s| then Utf8Counts(valid, invalid + 1)
          else ScanFrom(s, i + 2 + k, valid, invalid + 2)
  }

  const UTF8_BOM: seq<byte> := [0xEF, 0xBB, 0xBF]

  /** The confidence rules, in order, for the counts and the presence of a byte-order mark. */
  function Verdict(hasBom: bool, c: Utf8Counts): (r: Option<Match>)
    ensures r.Some? ==> r.value.name == UTF8_NAME && r.value.confidence in {10, 25, 80, 100}
    ensures !hasBom && c.valid == 0 && c.invalid == 0 ==> r == Some(Match(UTF8_NAME, 10))
    ensures c.invalid == 0 ==> r.Some? && (c.valid > 0 ==> r.value.confidence >= 80)
    ensures c.invalid == 0 && c.valid > 3 ==> r == Some(Match(UTF8_NAME, 100))
    ensures r.None? <==> c.invalid > 0 && c.valid <= c.invalid * 10
    ensures hasBom && c.invalid == 0 ==> r == Some(Match(UTF8_NAME, 100))
    ensures hasBom && c.invalid > 0 && c.valid > c.invalid * 10 ==> r == Some(Match(UTF8_NAME, 80))
    ensures !hasBom && c.invalid == 0 && 0 < c.valid <= 3 ==> r == Some(Match(UTF8_NAME, 80))
    ensures !hasBom && c.invalid > 0 && c.valid > c.invalid * 10 ==> r == Some(Match(UTF8_NAME, 25))
  {
    var confidence :=
      if hasBom && c.invalid == 0 then 100
      else if hasBom && c.valid > c.invalid * 10 then 80
      else if c.valid > 3 && c.invalid == 0 then 100
      else if c.valid > 0 && c.invalid == 0 then 80
      else if c.valid == 0 && c.invalid == 0 then 10
      else if c.valid > c.invalid * 10 then 25
      else 0;
    if confidence == 0 then None else Some(Match(UTF8_NAME, confidence))
  }

  /** What `UTF_8.match` answers for the input s. */
  function Utf8Spec(s: seq<byte>): (r: Option<Match>)
    ensures r.Some? ==> r.value.name == UTF8_NAME
    ensures ScanFrom(s, 0, 0, 0).invalid == 0 ==> r.Some? && (UTF8_BOM <= s ==> r.value.confidence == 100)
  {
    Verdict(UTF8_BOM <= s, ScanFrom(s, 0, 0, 0))
  }

  /** Bytes below 0x80 are skipped one by one, so they leave the counts as they are. */
  lemma {:induction false} ScanAscii(s: seq<byte>, i: nat, valid: nat, invalid: nat)
    requires forall k :: i <= k < |s| ==> s[k] < 0x80
    ensures ScanFrom(s, i, valid, invalid) == Utf8Counts(valid, invalid)
    decreases |s| - i
  {
    if i < |s| {
      ScanAscii(s, i + 1, valid, invalid);
    }
  }

  /** Plain ASCII text (the empty input included) is UTF-8 with confidence 10. */
  lemma AsciiIsUtf8(s: seq<byte>)
    requires forall k :: 0 <= k < |s| ==> s[k] < 0x80
    ensures Utf8Spec(s) == Some(Match(UTF8_NAME, 10))
  {
    ScanAscii(s, 0, 0, 0);
    if |s| > 0 {
      assert s[0] < 0x80;
    }
  }

  /**
   * The encoder side: a well-formed unit is one byte below 0x80, or a lead
   * byte that announces t continuation bytes followed by exactly t of them.
   */
  predicate WellFormedUnit(u: seq<byte>) {
    |u| >= 1 &&
    if |u| == 1 then u[0] < 0x80
    else LeadOf(u[0]) == Lead(|u| - 1) && forall k :: 1 <= k < |u| ==> IsContinuation(u[k])
  }

  /** A multi-byte unit with its last continuation bytes missing. */
  predicate TruncatedUnit(u: seq<byte>) {
    |u| >= 1 && LeadOf(u[0]).Lead? && |u| - 1 < LeadOf(u[0]).trail &&
    forall k :: 1 <= k < |u| ==> IsContinuation(u[k])
  }

  function Flatten(us: seq<seq<byte>>): seq<byte> {
    if |us| == 0 then [] else us[0] + Flatten(us[1..])
  }

  /** The number of multi-byte units. */
  function MultiCount(us: seq<seq<byte>>): nat {
    if |us| == 0 then 0 else (if |us[0]| > 1 then 1 else 0) + MultiCount(us[1..])
  }

  /** One well-formed unit at index i is one step of the scan. */
  lemma UnitStep(s: seq<byte>, i: nat, u: seq<byte>, valid: nat, invalid: nat)
    requires i + |u| <= |s| && s[i..i + |u|] == u
    requires WellFormedUnit(u)
    ensures ScanFrom(s, i, valid, invalid) == ScanFrom(s, i + |u|, valid + (if |u| > 1 then 1 else 0), invalid)
  {
    assert s[i] == u[0];
    if |u| > 1 {
      forall k | i + 1 <= k < i + |u|
        ensures IsContinuation(s[k])
      {
        assert s[k] == u[k - i];
      }
      ContRunAtLeast(s, i + 1, |u| - 1);
    }
  }

  /** A truncated unit at the end of the input ends the scan without counting. */
  lemma TailStep(s: seq<byte>, i: nat, valid: nat, invalid: nat)
    requires i < |s| && TruncatedUnit(s[i..])
    ensures ScanFrom(s, i, valid, invalid) == Utf8Counts(valid, invalid)
  {
    var tail := s[i..];
    assert s[i] == tail[0];
    forall k | i + 1 <= k < |s|
      ensures IsContinuation(s[k])
    {
      assert s[k] == tail[k - i];
    }
    ContRunIs(s, i + 1, |tail| - 1);
  }

  /** Where the first unit of a flattened run ends, the rest of the run starts. */
  lemma SplitFirstUnit(s: seq<byte>, i: nat, us: seq<seq<byte>>, tail: seq<byte>)
    requires i <= |s| && |us| > 0
    requires forall u :: u in us ==> WellFormedUnit(u)
    requires s[i..] == Flatten(us) + tail
    ensures WellFormedUnit(us[0])
    ensures i + |us[0]| <= |s| && s[i..i + |us[0]|] == us[0]
    ensures s[i + |us[0]|..] == Flatten(us[1..]) + tail
    ensures forall u :: u in us[1..] ==> WellFormedUnit(u)
  {
    var u := us[0];
    assert us[0] in us;
    assert s[i..] == u + (Flatten(us[1..]) + tail);
    assert s[i..][..|u|] == u;
    assert s[i..][|u|..] == Flatten(us[1..]) + tail;
    forall w | w in us[1..]
      ensures WellFormedUnit(w)
    {
      assert w in us;
    }
  }

  /**
   * A run of well-formed units, optionally followed by a unit that the end
   * of the input cuts short, adds one valid sequence per multi-byte unit and
   * no invalid one.
   */
  lemma {:induction false} ScanUnits(s: seq<byte>, i: nat, us: seq<seq<byte>>, tail: seq<byte>, valid: nat, invalid: nat)
    requires i <= |s|
    requires forall u :: u in us ==> WellFormedUnit(u)
    requires tail == [] || TruncatedUnit(tail)
    requires s[i..] == Flatten(us) + tail
    ensures ScanFrom(s, i, valid, invalid) == Utf8Counts(valid + MultiCount(us), invalid)
    decreases |us|
  {
    if |us| == 0 {
      assert s[i..] == tail;
      if tail != [] {
        TailStep(s, i, valid, invalid);
      }
    } else {
      var u := us[0];
      SplitFirstUnit(s, i, us, tail);
      UnitStep(s, i, u, valid, invalid);
      ScanUnits(s, i + |u|, us[1..], tail, valid + (if |u| > 1 then 1 else 0), invalid);
    }
  }

  /**
   * Well-formed UTF-8 text is recognised: with confidence 10 when it has
   * no multi-byte sequence, at least 80 when it has one, and 100 when it
   * has more than three.
   */
  lemma EncodedTextIsUtf8(us: seq<seq<byte>>)
    requires forall u :: u in us ==> WellFormedUnit(u)
    ensures var r := Utf8Spec(Flatten(us));
            r.Some? &&
            (MultiCount(us) == 0 ==> r.value.confidence == 10) &&
            (MultiCount(us) > 0 ==> r.value.confidence >= 80) &&
            (MultiCount(us) > 3 ==> r.value.confidence == 100)
  {
    var s := Flatten(us);
    ScanUnits(s, 0, us, [], 0, 0);
    assert s + [] == s;
    if MultiCount(us) == 0 && |us| > 0 {
      assert us[0] in us;
      assert s[0] == us[0][0];
    }
  }

  /** A sequence cut short by the end of the input changes neither count. */
  lemma TruncatedTailIgnored(us: seq<seq<byte>>, tail: seq<byte>)
    requires forall u :: u in us ==> WellFormedUnit(u)
    requires TruncatedUnit(tail)
    ensures ScanFrom(Flatten(us) + tail, 0, 0, 0) == ScanFrom(Flatten(us), 0, 0, 0)
  {
    ScanUnits(Flatten(us) + tail, 0, us, tail, 0, 0);
    assert Flatten(us) + [] == Flatten(us);
    ScanUnits(Flatten(us), 0, us, [], 0, 0);
  }

  /** An ASCII byte is passed over. */
  lemma AsciiStep(s: seq<byte>, i: nat, valid: nat, invalid: nat)
    requires i < |s| && LeadOf(s[i]) == Ascii
    ensures ScanFrom(s, i, valid, invalid) == ScanFrom(s, i + 1, valid, invalid)
  {
  }

  /** The scan stops as soon as a byte that cannot lead pushes the invalid count above 5. */
  lemma StopStep(s: seq<byte>, i: nat, valid: nat, invalid: nat)
    requires i < |s| && LeadOf(s[i]) == BadLead && invalid + 1 > 5
    ensures ScanFrom(s, i, valid, invalid) == Utf8Counts(valid, invalid + 1)
  {
  }

  /** How the check of the continuation bytes after a lead byte ended. */
  datatype Ending = EndOfInput | NotContinuation | Complete

  /**
   * One round of the outer loop, from the lead byte at i0 to index i where
   * the check of its continuation bytes ended (t0 is the number wanted, 0
   * after a byte that cannot lead), agrees with the reference scan: the
   * scan resumes after i with the counts v1 and n1.
   */
  lemma SequenceStep(s: seq<byte>, i0: nat, v0: nat, n0: nat, t0: nat, i: nat, ending: Ending, v1: nat, n1: nat)
    requires i0 < i <= |s|
    requires LeadOf(s[i0]) == (if t0 == 0 then BadLead else Lead(t0))
    requires t0 == 0 ==> n0 + 1 <= 5
    requires forall k :: i0 < k < i ==> IsContinuation(s[k])
    requires t0 >= 1 ==> i - i0 - 1 < t0
    requires ending == EndOfInput ==> i == |s| && v1 == v0 && n1 == n0 + (if t0 == 0 then 1 else 0)
    requires ending == NotContinuation ==>
               i < |s| && !IsContinuation(s[i]) && v1 == v0 && n1 == n0 + (if t0 == 0 then 2 else 1)
    requires ending == Complete ==>
               i < |s| && IsContinuation(s[i]) && t0 >= 1 && i - i0 == t0 && v1 == v0 + 1 && n1 == n0
    ensures ScanFrom(s, i0, v0, n0) == ScanFrom(s, i + 1, v1, n1)
  {
    if ending == Complete {
      CompleteStep(s, i0, v0, n0, t0);
    } else {
      ContRunIs(s, i0 + 1, i - i0 - 1);
      if t0 == 0 {
        BadLeadStep(s, i0, v0, n0, i);
      } else {
        CutStep(s, i0, v0, n0, t0, i);
      }
    }
  }

  /** A lead byte followed by all the continuation bytes it wants is one valid sequence. */
  lemma CompleteStep(s: seq<byte>, i0: nat, v0: nat, n0: nat, t0: nat)
    requires i0 + t0 < |s| && LeadOf(s[i0]) == Lead(t0)
    requires forall k :: i0 < k <= i0 + t0 ==> IsContinuation(s[k])
    ensures ScanFrom(s, i0, v0, n0) == ScanFrom(s, i0 + t0 + 1, v0 + 1, n0)
  {
    ContRunAtLeast(s, i0 + 1, t0);
  }

  /** A lead byte whose run of continuation bytes is too short: nothing at the end of the input, else one invalid. */
  lemma CutStep(s: seq<byte>, i0: nat, v0: nat, n0: nat, t0: nat, i: nat)
    requires i0 < i <= |s| && LeadOf(s[i0]) == Lead(t0) && i - i0 - 1 < t0
    requires ContRun(s, i0 + 1) == i - i0 - 1
    ensures ScanFrom(s, i0, v0, n0) ==
              if i == |s| then Utf8Counts(v0, n0) else ScanFrom(s, i + 1, v0, n0 + 1)
  {
  }

  /** A byte that cannot lead, with the invalid count still at most 5: its continuation bytes are swallowed. */
  lemma BadLeadStep(s: seq<byte>, i0: nat, v0: nat, n0: nat, i: nat)
    requires i0 < i <= |s| && LeadOf(s[i0]) == BadLead && n0 + 1 <= 5
    requires ContRun(s, i0 + 1) == i - i0 - 1
    ensures ScanFrom(s, i0, v0, n0) ==
              if i == |s| then Utf8Counts(v0, n0 + 1) else ScanFrom(s, i + 1, v0, n0 + 2)
  {
  }

  /**
   * The inner loop of `UTF_8.match`: from the lead byte at i0, which wants
   * trailBytes continuation bytes (0 after a byte that cannot lead), walk
   * the continuation bytes until the sequence is complete, a byte that is not
   * a continuation byte ends it, or the input ends. It returns the index where
   * the walk stopped, the updated counts and how the walk ended.
   */
  method CheckTrail(input: seq<byte>, i0: nat, trailBytes: nat, valid: nat, invalid: nat)
    returns (i: nat, numValid: nat, numInvalid: nat, ghost ending: Ending)
    requires i0 < |input|
    ensures i0 < i <= |input|
    ensures forall k :: i0 < k < i ==> IsContinuation(input[k])
    ensures trailBytes >= 1 ==> i - i0 - 1 < trailBytes
    ensures ending == EndOfInput ==> i == |input| && numValid == valid && numInvalid == invalid
    ensures ending == NotContinuation ==>
              i < |input| && !IsContinuation(input[i]) && numValid == valid && numInvalid == invalid + 1
    ensures ending == Complete ==>
              i < |input| && IsContinuation(input[i]) && trailBytes >= 1 && i - i0 == trailBytes &&
              numValid == valid + 1 && numInvalid == invalid
  {
    numValid, numInvalid := valid, invalid;
    var trail: int := trailBytes;
    ending := EndOfInput;
    i := i0 + 1;
    while i < |input|
      invariant i0 < i <= |input|
      invariant forall k :: i0 < k < i ==> IsContinuation(input[k])
      invariant trail == trailBytes - (i - i0 - 1)
      invariant trailBytes >= 1 ==> i - i0 - 1 < trailBytes
      decreases |input| - i
    {
      if !IsContinuation(input[i]) {
        numInvalid := numInvalid + 1;
        ending := NotContinuation;
        return;
      }
      trail := trail - 1;
      if trail == 0 {
        numValid := numValid + 1;
        ending := Complete;
        return;
      }
      i := i + 1;
    }
  }

  /** The scanning loop of `UTF_8.match`: the counts of valid and invalid multi-byte sequences. */
  method CountSequences(input: seq<byte>) returns (numValid: nat, numInvalid: nat)
    ensures Utf8Counts(numValid, numInvalid) == ScanFrom(input, 0, 0, 0)
  {
    numValid, numInvalid := 0, 0;
    var trailBytes: nat := 0;
    ghost var target := ScanFrom(input, 0, 0, 0);

    var i := 0;
    while i < |input|
      invariant 0 <= i <= |input| + 1
      invariant ScanFrom(input, i, numValid, numInvalid) == target
      decreases |input| + 1 - i
    {
      var b := input[i];
      var lead := LeadOf(b);
      if lead == Ascii {
        AsciiStep(input, i, numValid, numInvalid);
        i := i + 1;
        continue;
      }
      ghost var i0, v0, n0 := i, numValid, numInvalid;

      if lead == Lead(1) {
        trailBytes := 1;
      } else if lead == Lead(2) {
        trailBytes := 2;
      } else if lead == Lead(3) {
        trailBytes := 3;
      } else {
        numInvalid := numInvalid + 1;
        if numInvalid > 5 {
          StopStep(input, i, numValid, numInvalid - 1);
          break;
        }
        trailBytes := 0;
      }
      ghost var t0 := trailBytes;

      // Verify that the right number of continuation bytes follows.
      ghost var ending;
      i, numValid, numInvalid, ending := CheckTrail(input, i, trailBytes, numValid, numInvalid);
      SequenceStep(input, i0, v0, n0, t0, i, ending, numValid, numInvalid);
      i := i + 1;
    }
  }

  /** The confidence cascade of `UTF_8.match`, from the BOM test and the counts. */
  method Score(hasBOM: bool, numValid: nat, numInvalid: nat) returns (r: Option<Match>)
    ensures r == Verdict(hasBOM, Utf8Counts(numValid, numInvalid))
  {
    var confidence := 0;
    if hasBOM && numInvalid == 0 {
      confidence := 100;
    } else if hasBOM && numValid > numInvalid * 10 {
      confidence := 80;
    } else if numValid > 3 && numInvalid == 0 {
      confidence := 100;
    } else if numValid > 0 && numInvalid == 0 {
      confidence := 80;
    } else if numValid == 0 && numInvalid == 0 {
      confidence := 10;
    } else if numValid > numInvalid * 10 {
      confidence := 25;
    } else {
      return None;
    }
    r := Some(Match(UTF8_NAME, confidence));
  }

  /** `UTF_8.match`. */
  method Utf8Match(det: Context) returns (r: Option<Match>)
    requires det.Valid()
    ensures r == Utf8Spec(det.rawInput)
  {
    var input := det.rawInput;
    var hasBOM := det.rawLen >= 3 && input[0] == 0xEF && input[1] == 0xBB && input[2] == 0xBF;
    assert hasBOM == (UTF8_BOM <= input);
    var numValid, numInvalid := CountSequences(input);
    r := Score(hasBOM, numValid, numInvalid);
  }

}
