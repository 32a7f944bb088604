/**
 * The UTF-16 recognisers (src/chardet.ts:107-144): a byte-order mark at
 * the start of the input and nothing else.
 */
module Utf16 {
  import opened Types

  const BE_BOM: seq<byte> := [0xFE, 0xFF]
  const LE_BOM: seq<byte> := [0xFF, 0xFE]
  /** The UTF-32LE byte-order mark, which begins with the UTF-16LE one. */
  const UTF32_LE_BOM: seq<byte> := [0xFF, 0xFE, 0x00, 0x00]

  /** `UTF_16BE.match`. */
  function Utf16BeMatch(det: Context): (r: Option<Match>)
    ensures r.Some? <==> BE_BOM <= det.rawInput
    ensures r.Some? ==> r.value == Match(UTF16BE_NAME, 100)
  {
    var input := det.rawInput;
    if |input| >= 2 && input[0] == 0xFE && input[1] == 0xFF then Some(Match(UTF16BE_NAME, 100))
    else None
  }

  /** `UTF_16LE.match`: a UTF-16LE mark that is really a UTF-32LE mark is no match. */
  function Utf16LeMatch(det: Context): (r: Option<Match>)
    ensures r.Some? <==> LE_BOM <= det.rawInput && !(UTF32_LE_BOM <= det.rawInput)
    ensures r.Some? ==> r.value == Match(UTF16LE_NAME, 100)
  {
    var input := det.rawInput;
    if |input| >= 2 && input[0] == 0xFF && input[1] == 0xFE then
      if |input| >= 4 && input[2] == 0x00 && input[3] == 0x00 then None
      else Some(Match(UTF16LE_NAME, 100))
    else None
  }

  /** The two marks exclude each other: at most one of the recognisers matches. */
  lemma AtMostOneUtf16(det: Context)
    ensures !(Utf16BeMatch(det).Some? && Utf16LeMatch(det).Some?)
  {
  }

  /** The input FE FF alone is UTF-16BE and not UTF-16LE; FF FE 00 00 is not UTF-16LE. */
  lemma Utf16Samples(det: Context)
    ensures det.rawInput == [0xFE, 0xFF] ==>
              Utf16BeMatch(det) == Some(Match(UTF16BE_NAME, 100)) && Utf16LeMatch(det) == None
    ensures det.rawInput == [0xFF, 0xFE, 0x00, 0x00] ==> Utf16LeMatch(det) == None
    ensures det.rawInput == [0xFF, 0xFE] ==> Utf16LeMatch(det) == Some(Match(UTF16LE_NAME, 100))
  {
  }
}
