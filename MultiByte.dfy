/**
 * The Big5 and GB18030 recognisers' `match` (src/chardet.ts:11-14 and
 * 43-46): the shared scorer with the encoding's decode step and its table
 * of common characters.
 */
module MultiByte {
  import opened Types
  import opened MatchMbcs
  import opened CommonChars
  import opened Decoders

  /** What the Big5 recogniser answers for the input s. */
  function Big5Spec(s: seq<byte>): (r: Option<Match>)
    ensures r.Some? ==> r.value.name == BIG5_NAME && 10 <= r.value.confidence <= 100
  {
    MbcsSpec(Encoding.Big5, BIG5_NAME, s, Some(BIG5_COMMON_CHARS))
  }

  /** What the GB18030 recogniser answers for the input s. */
  function Gb18030Spec(s: seq<byte>): (r: Option<Match>)
    ensures r.Some? ==> r.value.name == GB18030_NAME && 10 <= r.value.confidence <= 100
  {
    MbcsSpec(Encoding.Gb18030, GB18030_NAME, s, Some(GB18030_COMMON_CHARS))
  }

  /**
   * Both tables are sorted, so with either of them a character adds to
   * the common count exactly when it is double-byte and in the table.
   */
  lemma TablesCountCommon(c: Counts, st: Step)
    ensures Tally(c, st, Some(BIG5_COMMON_CHARS)).common ==
            c.common + (if IsDoubleByte(st) && ToInt32(st.charValue) in BIG5_COMMON_CHARS then 1 else 0)
    ensures Tally(c, st, Some(GB18030_COMMON_CHARS)).common ==
            c.common + (if IsDoubleByte(st) && ToInt32(st.charValue) in GB18030_COMMON_CHARS then 1 else 0)
  {
    TablesSorted();
  }

  method Big5Match(det: Context) returns (r: Option<Match>)
    requires det.Valid()
    ensures r == Big5Spec(det.rawInput)
    ensures r.Some? ==> r.value.name == BIG5_NAME && 10 <= r.value.confidence <= 100
  {
    r := Mbcs(det, BIG5_NAME, Some(BIG5_COMMON_CHARS), Encoding.Big5);
  }

  method Gb18030Match(det: Context) returns (r: Option<Match>)
    requires det.Valid()
    ensures r == Gb18030Spec(det.rawInput)
    ensures r.Some? ==> r.value.name == GB18030_NAME && 10 <= r.value.confidence <= 100
  {
    r := Mbcs(det, GB18030_NAME, Some(GB18030_COMMON_CHARS), Encoding.Gb18030);
  }
}
