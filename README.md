# node-chardet detection engine in Dafny

node-chardet guesses the character encoding of a byte buffer. This project
models its detection engine and proves properties of the model.

- `analyse` builds a 256-bucket byte histogram and a flag for bytes in
  0x80..0x9F into a `Context`.
- It then runs five recognisers in a fixed order: GB18030, UTF-8, Big5,
  UTF-16LE, UTF-16BE.
- It drops the recognisers that answered null and sorts the rest stably by
  descending confidence.
- `chardet` answers the name of the first match.

The recognisers:

- **UTF-16.** Each looks for a byte-order mark.
- **UTF-8.** It classifies lead bytes by the bit patterns of section 3 of
  RFC 3629, with no overlong or surrogate checks. It counts valid and
  invalid sequences and maps the counts to a confidence.
- **Big5 and GB18030.** Both share `matchMbcs`, which decodes the input
  character by character through a byte cursor (`CharIterator`). It counts
  total, malformed, double-byte and common characters, and can bail out
  early. Common characters are found by binary search in a table. An
  ordered cascade of rules then picks the confidence.

Modules, one per source unit:

| module | models |
|---|---|
| `Types` | bytes, `Match`, `Context`, and the JavaScript conversion to a signed 32-bit integer used by `<<`, `\|` and `&` |
| `BinarySearch` | `binarySearch` and its recursive `find` |
| `CharIter` | the `CharIterator` class, with fields updated in place |
| `Decoders` | `Big5.nextChar` and `GB_18030.nextChar` |
| `CommonChars` | the two common-character tables, transcribed as constants, and the proof that both are ascending |
| `MatchMbcs` | `matchMbcs` |
| `MultiByte` | the `match` methods of Big5 and GB18030 |
| `Utf8` | `UTF_8.match` |
| `Utf16` | `UTF_16BE.match` and `UTF_16LE.match` |
| `Detector` | `analyse` and `chardet` |

Imperative code stays imperative:

- The iterator is a class with `modifies` clauses.
- The loops of `matchMbcs`, `UTF_8.match` and `analyse` are `while` and
  `for` loops with invariants.

Each such method is proved equal to a reference function on values:

| method | reference function |
|---|---|
| `MatchMbcs.Mbcs` | `MatchMbcs.MbcsSpec` |
| `Utf8.Utf8Match` | `Utf8.Utf8Spec` |
| `Detector.Analyse` | `Detector.AnalyseSpec` |
| `Detector.ByteStats` | `Detector.Histogram` |

The lemmas state what the source promises about these reference functions.

`analyse` of an empty buffer answers `[UTF-8 with confidence 10]`
(src/chardet.ts:200), as `Detector.EmptyAnalysis` states.

## Model

| member | source | states |
|---|---|---|
| Types.ToInt32 | src/chardet/match_mbcs.ts:31 | the result is a signed 32-bit integer congruent to the input modulo 2^32, and equals the input when the input already is one (JavaScript's `x & 0xffffffff`) |
| Types.ShiftOrByte | src/chardet.ts:31 | `(cv << 8) \| b`: the value -1 when the byte read is -1 (end of input); otherwise, for a small non-negative cv, cv*256 + b |
| Types.ShiftOrTwoBytes | src/chardet.ts:92-93 | `(cv << 16) \| (b2 << 8) \| b3` is congruent to cv*2^16 + b2*2^8 + b3 modulo 2^32 and is a signed 32-bit value |
| BinarySearch.MidAsWritten | src/chardet/binary_search.ts:15 | the midpoint as written, `(left + right) >>> 1`, always lies in [0, 2^31) whatever left and right are |
| BinarySearch.MidAsWrittenAgrees | src/chardet/binary_search.ts:15 | while left + right < 2^32, the midpoint as written equals the intended midpoint |
| BinarySearch.MidAsWrittenEscapesRange | src/chardet/binary_search.ts:15 | for left = 0xFFFFFFFD and right = 0xFFFFFFFE the midpoint as written is 0x7FFFFFFD, below left |
| BinarySearch.Mid | src/chardet/binary_search.ts:15 | the midpoint lies in [left, right], halfway rounded down |
| BinarySearch.Find | src/chardet/binary_search.ts:2-20 | -1, or an index in [left, right] holding the value; on a sorted array, -1 means that no index in [left, right] holds it; the range shrinks on every recursive call |
| BinarySearch.Search | src/chardet/binary_search.ts:1-24 | the result lies in [-1, length); a non-negative result indexes the value; an empty array gives -1; on a sorted array the result is non-negative exactly when the value occurs |
| BinarySearch.SearchSampleTable | src/chardet/binary_search.ts:1-24 | in [1, 5, 9, 20, 77], 9 is at index 2, 77 at index 4, 4 is absent; every value is absent from the empty array |
| CharIter.ByteAt | src/chardet/char_iterator.ts:37-44 | what `nextByte` answers at read index i: a value in 0..255, or -1 exactly when i is at or past the end |
| CharIter.CharIterator.constructor | src/chardet/char_iterator.ts:21-27 | every field starts at 0 or false |
| CharIter.CharIterator.Reset | src/chardet/char_iterator.ts:29-35 | charValue = 0, index = -1, nextIndex = 0, error = done = false, so the read index is within bounds for every input |
| CharIter.CharIterator.NextByte | src/chardet/char_iterator.ts:37-44 | at or past the end: answers -1, sets done and leaves nextIndex unchanged; otherwise answers rawInput[nextIndex] (0..255), advances nextIndex by exactly 1 and leaves done unchanged; it can change only nextIndex and done, so charValue, error and index are untouched; it preserves 0 <= nextIndex <= rawLen |
| Decoders.Big5Decode | src/chardet.ts:16-37 | a read runs off the end exactly when there is no byte left, or when the first byte begins a two-byte character and is the last byte; a byte <= 0x7F or == 0xFF is a one-byte character with that value; otherwise two bytes are consumed, the value is first*256 + second, and error is set exactly when the second byte is < 0x40, 0x7F or 0xFF |
| Decoders.Big5NextChar | src/chardet.ts:16-37 | the step performed on the iterator: it answers false exactly when a read ran off the end; charValue, error and nextIndex agree with Big5Decode; done is set when a read ran off the end; index becomes the old nextIndex |
| Decoders.Gb18030Decode | src/chardet.ts:54-104 | the next index is the start plus the number of bytes read, capped at the end of the input; a read runs off the end exactly when that number passes the end; a step that does not run off the end consumes 1 to 4 bytes |
| Decoders.Gb18030Classes | src/chardet.ts:54-104 | a byte <= 0x80 is a one-byte character; a lead 0x81..0xFE with a second byte in 0x40..0xFE is a two-byte character, value first*256 + second, no error; lead, digit, lead, digit is a four-byte character whose value is the packed bytes minus 2^32, negative, with no error; lead 0xFF takes two bytes without error; any other lead 0x81..0xFE combination that stays inside the input sets error |
| Decoders.Gb18030NextChar | src/chardet.ts:54-104 | the step performed on the iterator: done becomes set when a read ran off the end; the answer is exactly "not done"; charValue, error and nextIndex agree with Gb18030Decode; index becomes the old nextIndex |
| MatchMbcs.Decode | src/chardet/match_mbcs.ts:15 | the `nextChar` step handed to the scorer: every step stays inside the input, and a step that does not run off the end advances the read index, so the loop terminates |
| MatchMbcs.Tally | src/chardet/match_mbcs.ts:27-42 | each character adds 1 to total; a malformed one adds 1 to bad; it adds 1 to double-byte exactly when it has no error and its signed 32-bit value exceeds 0xFF; common stays or grows by exactly 1, grows only for such a character found in the table, and, on a sorted table, always does for one; the invariant bad + double-byte <= total, common <= double-byte is preserved |
| MatchMbcs.ScanFrom | src/chardet/match_mbcs.ts:26-48 | the scan keeps the counter invariant; it ends by early exit only when bad >= 2 and bad*5 >= double-byte; counters never decrease; total grows by at most the number of bytes left |
| MatchMbcs.LogScore | src/chardet/match_mbcs.ts:84-87 | the frequency rule in exact arithmetic: a confidence in [10, 100] that is the largest k the formula floor(10 + 90·ln(common+1)/ln(double-byte/4)) reaches, capped at 100 |
| MatchMbcs.LogScoreNoCommon | src/chardet/match_mbcs.ts:84-87 | with no common character the frequency rule gives exactly 10 |
| MatchMbcs.LogScoreSaturates | src/chardet/match_mbcs.ts:84-87 | when double-byte <= 4 * (common + 1), the frequency rule gives exactly 100 |
| MatchMbcs.Confidence | src/chardet/match_mbcs.ts:50-88 | the cascade gives 0 or a value in [10, 100]; 0 after the early exit; rule 1 (bad == 0, double-byte <= 10): 0 when double-byte == 0 and total < 10, else exactly 10; rule 2 (otherwise, double-byte < 20·bad): 0; rule 3 (otherwise, no table): min(30 + double-byte − 20·bad, 100), at least 30; rule 4 (otherwise, a table): double-byte > 4 and the frequency rule LogScore(common, double-byte) |
| MatchMbcs.Conclude | src/chardet/match_mbcs.ts:50-91 | no match after the early exit; every match has the recogniser's name and a confidence in [10, 100], so never 0; rule 1 gives null or confidence exactly 10, rule 2 null, rule 3 the confidence min(30 + double-byte − 20·bad, 100), rule 4 the confidence LogScore(common, double-byte) |
| MatchMbcs.MbcsSpec | src/chardet/match_mbcs.ts:11-92 | what `matchMbcs` answers: the cascade applied to the scan of the whole input; a match carries the given name and a confidence in [10, 100]; the early exit gives null |
| MatchMbcs.ScanAscii | src/chardet/match_mbcs.ts:26-48 | over bytes below 0x80 every character is a well-formed one-byte character: only total grows, by exactly the number of bytes |
| MatchMbcs.MbcsAscii | src/chardet/match_mbcs.ts:50-63 | ASCII input gives no match below 10 bytes and confidence 10 from 10 bytes on |
| MatchMbcs.ScanGbFourByteRun | src/chardet/match_mbcs.ts:31-34 | well-formed GB18030 four-byte characters have negative 32-bit values and are never double-byte; a run of them only adds to total |
| MatchMbcs.GbFourByteRunScore | src/chardet/match_mbcs.ts:50-63 | a text made only of well-formed GB18030 four-byte characters gives no match below 40 bytes and confidence 10 from 40 bytes on |
| MatchMbcs.BailOutIsNoMatch | src/chardet/match_mbcs.ts:43-46 | once a character makes bad >= 2 and bad*5 >= double-byte, the scan stops there and the result is null |
| MatchMbcs.NextChar | src/chardet/match_mbcs.ts:26 | the decode step of the chosen encoding on the iterator agrees with the decode function, keeps the read index within bounds, and advances it whenever it answers true |
| MatchMbcs.ScoreAtMost | src/chardet/match_mbcs.ts:84-87 | the largest k' in [10, k] that the frequency formula reaches (10 when none above 10 does): no value between it and k is reached |
| MatchMbcs.CountChar | src/chardet/match_mbcs.ts:27-42 | one round of the tallying if-chain (error check, `& 0xffffffff` above 0xFF, table search) updates the four counters exactly as Tally does |
| MatchMbcs.CountChars | src/chardet/match_mbcs.ts:23-48 | the counting loop ends with the counters of the reference scan, and reports whether the early exit was taken |
| MatchMbcs.Mbcs | src/chardet/match_mbcs.ts:11-92 | `matchMbcs` answers exactly the reference result MbcsSpec, whose properties are the lemmas above |
| CommonChars.TablesSorted | src/chardet/common_chars.ts:4-34 | both transcribed tables are in ascending order, so the binary search over them is exact |
| MultiByte.Big5Spec | src/chardet.ts:11-14 | what the Big5 recogniser answers: null, or "Big5" with a confidence in [10, 100] |
| MultiByte.Gb18030Spec | src/chardet.ts:43-46 | what the GB18030 recogniser answers: null, or "GB18030" with a confidence in [10, 100] |
| MultiByte.TablesCountCommon | src/chardet/match_mbcs.ts:34-38 | with either recogniser's table, a character adds to the common count exactly when it is double-byte and its value is in the table |
| MultiByte.Big5Match | src/chardet.ts:11-14 | the Big5 result is the reference scorer with the Big5 step and table: null, or "Big5" with a confidence in [10, 100] |
| MultiByte.Gb18030Match | src/chardet.ts:43-46 | the GB18030 result is the reference scorer with the GB18030 step and table: null, or "GB18030" with a confidence in [10, 100] |
| Utf16.Utf16BeMatch | src/chardet.ts:107-122 | a match exactly when the input starts FE FF, and then ("UTF-16BE", 100); otherwise null |
| Utf16.Utf16LeMatch | src/chardet.ts:124-143 | a match exactly when the input starts FF FE and does not start FF FE 00 00, and then ("UTF-16LE", 100); otherwise null |
| Utf16.AtMostOneUtf16 | src/chardet.ts:107-143 | the two UTF-16 recognisers never both match |
| Utf16.Utf16Samples | src/chardet.ts:107-143 | FE FF is UTF-16BE and not UTF-16LE; FF FE is UTF-16LE; FF FE 00 00 is not UTF-16LE |
| Utf8.LeadOf | src/chardet.ts:164-177 | the lead-byte masks as ranges: below 0x80 ASCII; C0..DF one trail byte; E0..EF two; F0..F7 three; 80..BF and F8..FF invalid leads |
| Utf8.IsContinuation | src/chardet.ts:181 | `b & 0xC0 == 0x80` exactly for 0x80..0xBF |
| Utf8.ContRun | src/chardet.ts:180-189 | the run of continuation bytes from j ends inside the input |
| Utf8.ContRunIs | src/chardet.ts:180-189 | the run from j has length k exactly when the k bytes from j are continuation bytes and the byte after them, if any, is not |
| Utf8.ContRunAtLeast | src/chardet.ts:180-189 | t continuation bytes from j make the run at least t long |
| Utf8.ScanFrom | src/chardet.ts:162-190 | the reference scan from index i: the counts never decrease, and together grow by at most the number of bytes left |
| Utf8.Verdict | src/chardet.ts:194-205 | null or ("UTF-8", c) with c in {10, 25, 80, 100}; null exactly when some sequence is invalid and valid <= 10 * invalid; a BOM with no invalid sequence gives 100, a BOM with valid > 10 * invalid > 0 gives 80; without a BOM and with no invalid sequence: 10 when there is no multi-byte sequence, 80 for 1 to 3 valid ones, 100 for more; without a BOM, valid > 10 * invalid > 0 gives 25 |
| Utf8.Utf8Spec | src/chardet.ts:146-206 | what `UTF_8.match` answers: the verdict on the BOM test and the reference scan; a match is named "UTF-8", and a scan with no invalid sequence always matches, with 100 after a BOM |
| Utf8.ScanAscii | src/chardet.ts:162-164 | bytes below 0x80 leave the counts unchanged |
| Utf8.AsciiIsUtf8 | src/chardet.ts:146-206 | input with no byte >= 0x80, the empty input included, is UTF-8 with confidence exactly 10 |
| Utf8.UnitStep | src/chardet.ts:164-189 | a lead byte followed by exactly its required count of continuation bytes adds 1 to numValid, and the scan resumes after it |
| Utf8.TailStep | src/chardet.ts:180-189 | a sequence cut off by the end of the input changes neither counter |
| Utf8.ScanUnits | src/chardet.ts:162-190 | a run of well-formed encoded characters, optionally cut off at the end of the input, adds one valid sequence per multi-byte character and no invalid one |
| Utf8.EncodedTextIsUtf8 | src/chardet.ts:146-206 | text encoded as well-formed UTF-8 always matches: confidence 10 without a multi-byte character, at least 80 with one, 100 with more than three |
| Utf8.TruncatedTailIgnored | src/chardet.ts:180-189 | appending a truncated sequence to well-formed text leaves both counts unchanged |
| Utf8.AsciiStep | src/chardet.ts:164 | an ASCII byte is passed over |
| Utf8.StopStep | src/chardet.ts:173-175 | the scan stops as soon as an invalid lead byte pushes numInvalid above 5 |
| Utf8.SequenceStep | src/chardet.ts:166-189 | one round of the outer loop agrees with the reference scan, including the invalid-lead case that swallows continuation bytes and counts a second invalid at the next byte, which is skipped |
| Utf8.CompleteStep | src/chardet.ts:166-189 | a lead byte followed by all the continuation bytes it wants counts one valid sequence and the scan resumes after the last of them |
| Utf8.CutStep | src/chardet.ts:180-189 | a lead byte whose run of continuation bytes is too short counts nothing when the run reaches the end of the input; otherwise it counts one invalid sequence and the byte that broke the run is skipped |
| Utf8.BadLeadStep | src/chardet.ts:166-189 | a byte that cannot lead counts one invalid sequence; its continuation bytes are swallowed; unless the end of the input is reached, the byte after them counts a second invalid and is skipped |
| Utf8.CheckTrail | src/chardet.ts:180-189 | the inner loop stops at the end of the input, at the first byte that is not a continuation byte (one more invalid), or when the last required continuation byte is read (one more valid); all bytes passed are continuation bytes |
| Utf8.CountSequences | src/chardet.ts:161-190 | the scanning loop ends with the counts of the reference scan |
| Utf8.Score | src/chardet.ts:192-205 | the confidence if-chain answers exactly the verdict |
| Utf8.Utf8Match | src/chardet.ts:146-206 | `UTF_8.match` answers exactly the reference result Utf8Spec: the verdict on the BOM test and the counts of the reference scan |
| Detector.OccurrencesIsMultiplicity | src/index.ts:17 | the count of b equals the multiplicity of b in the buffer |
| Detector.Histogram | src/index.ts:14-17 | the histogram has 256 buckets |
| Detector.HistogramSum | src/index.ts:14-17 | the 256 buckets add up to the buffer length |
| Detector.HistogramC1 | src/index.ts:19-25 | a C1 bucket (0x80..0x9F) of the histogram is nonzero exactly when a byte in 0x80..0x9F occurs in the buffer |
| Detector.ByteStats | src/index.ts:14-17 | the two counting loops fill byteStats[b] with the number of occurrences of byte b in the buffer |
| Detector.C1Scan | src/index.ts:19-25 | the C1 scan sets c1Bytes exactly when some bucket in 0x80..0x9F is nonzero |
| Detector.ContextOf | src/index.ts:27-34 | the Context built for a buffer has rawLen equal to the buffer length |
| Detector.BuildContext | src/index.ts:14-34 | byteStats counts every byte value; c1Bytes holds exactly when some byte in 0x80..0x9F occurs; rawInput is the buffer and rawLen its length |
| Detector.RunSpec | src/index.ts:36-39 | every recogniser's match carries that recogniser's name and a confidence in [10, 100] |
| Detector.Run | src/index.ts:36-39 | running a recogniser answers its reference result |
| Detector.Outputs | src/index.ts:36-39 | the map step yields one answer per recogniser |
| Detector.Present | src/index.ts:40-42 | the filter step keeps at most as many entries as there were answers |
| Detector.PresentMembers | src/index.ts:40-42 | a match survives the filter exactly when some answer held it |
| Detector.Insert | src/index.ts:43-45 | inserting into a list makes it one longer |
| Detector.SortByConfidence | src/index.ts:43-45 | the sort keeps the length of the list |
| Detector.SortedCons | src/index.ts:43-45 | a head whose confidence is at least every confidence of a sorted tail gives a sorted list |
| Detector.InsertPermutes | src/index.ts:43-45 | inserting adds exactly the inserted element: the multiset grows by it and the length by one |
| Detector.InsertKeepsOrder | src/index.ts:43-45 | inserting into a list sorted by non-increasing confidence keeps it sorted |
| Detector.InsertIsStable | src/index.ts:43-45 | an inserted element goes before the existing elements of equal confidence |
| Detector.SortIsStableSort | src/index.ts:43-45 | the sort is sorted by non-increasing confidence, is a permutation, and keeps the original order of every group of equal confidence |
| Detector.Names | src/index.ts:4-10 | one name per recogniser, the k-th being the k-th recogniser's, and the five pairwise different |
| Detector.OutputsNamed | src/index.ts:4-10 | the k-th answer carries the k-th recogniser's name |
| Detector.PresentDistinct | src/index.ts:36-42 | after the nulls are dropped, the answers still have pairwise different names, each a recogniser's name |
| Detector.PermutationKeepsDistinct | src/index.ts:43-45 | sorting cannot create two entries with the same name |
| Detector.SortedPresentMembers | src/index.ts:36-45 | a match is in the sorted list exactly when some answer held it |
| Detector.AnalyseIsStableSort | src/index.ts:36-47 | the result is a permutation of the non-null answers, sorted by non-increasing confidence, with ties in recogniser order (GB18030, UTF-8, Big5, UTF-16LE, UTF-16BE) |
| Detector.AnalyseMembers | src/index.ts:36-47 | a match is in the result exactly when some recogniser answered it |
| Detector.AnalyseBounds | src/index.ts:36-47 | the result has at most 5 entries with pairwise different recogniser names, each with a confidence in [10, 100] |
| Detector.AsciiAnalysis | src/index.ts:12-47 | ASCII text of 10 bytes or more gives [GB18030 10, UTF-8 10, Big5 10]; shorter ASCII text gives [UTF-8 10] |
| Detector.AsciiOutputs | src/index.ts:36-39 | on ASCII input of 10 bytes or more GB18030, UTF-8 and Big5 each answer confidence 10 and the UTF-16 recognisers answer null; on shorter ASCII input only UTF-8 answers, with 10 |
| Detector.AsciiOutputsSorted | src/index.ts:40-45 | the filter and the sort leave these two answer lists in recogniser order |
| Detector.EmptyAnalysis | src/index.ts:12-47 | the empty buffer gives [UTF-8 10] |
| Detector.AnalyseSpec | src/index.ts:12-47 | what `analyse` answers: at most one match per recogniser |
| Detector.Analyse | src/index.ts:12-48 | `analyse` answers exactly the reference result AnalyseSpec |
| Detector.Chardet | src/index.ts:50-53 | null exactly when `analyse` answers the empty list; otherwise the name of its first match, whose confidence is the largest in the list |

## Left out

- MatchMbcs.LogScore: the source computes its frequency rule in floating point. The model computes the exact real value with no rounding. Near an integer, the source's rounded logarithms can move the floored score by one either way.
- MatchMbcs.Tally: exactness of the common count needs a sorted table, so for an arbitrary table it is stated under that hypothesis; for the two tables the recognisers use, `CommonChars.TablesSorted` proves it and `MultiByte.TablesCountCommon` states the exact count.
- The common-character tables (src/chardet/common_chars.ts) appear only as data. Their debug `console.log` is a side effect and is left out.
- JavaScript's `map`, `filter` and `sort` are modelled by their results. `Detector.SortByConfidence` is an insertion sort with the stable descending order that the source's comparator requests; the engine's sort algorithm itself is not modelled.
- The `Recogniser` interface and its dynamic dispatch become the fixed enumeration `Detector.Recogniser`.
- Integers are unbounded in the model. The counters of `matchMbcs` and `UTF_8.match` never approach 2^53, where JavaScript numbers would stop being exact. Where the source takes a value through a 32-bit integer (`<<`, `|`, `>>>`, `& 0xffffffff`), the conversion is written out.
- Uint8Array becomes a sequence of bytes. `& 0xff` on its elements is the identity and is dropped.
- File and stream entry points, encoding conversion and language hints are not part of the engine; the source files modelled here have none.
- The Context fields inputBytes, inputLen, byteStats and c1Bytes are computed and kept, but no recogniser reads them.
- The `find` helper of the binary search uses the corrected midpoint `BinarySearch.Mid`; see Findings.

## Findings

| source | as written | input that shows it | evidently intended | confidence | as-written member | corrected member |
|---|---|---|---|---|---|---|
| src/chardet/binary_search.ts:15 | `(left + right) >>> 1` wraps the sum to 32 unsigned bits | left = 0xFFFFFFFD, right = 0xFFFFFFFE (searching an array of more than 2^31 elements) gives mid = 0x7FFFFFFD, below left | `floor((left + right) / 2)`, always within [left, right] | low: needs an array of more than 2^31 elements; not executed | BinarySearch.MidAsWritten | BinarySearch.Mid |
