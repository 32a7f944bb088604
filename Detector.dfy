/**
 * The detector's entry points (src/index.ts): `analyse` tallies a byte
 * histogram and the C1 flag into a Context, runs the five recognisers in
 * their fixed order, drops the ones that did not match and sorts the rest
 * by descending confidence, keeping the recogniser order among ties;
 * `chardet` answers the name of the first match.
 */
module Detector {
  import opened Types
  import opened MultiByte
  import Utf8
  import Utf16

  // ------------------------------------------------------- the histogram

  /** The number of times b occurs in s. */
  function Occurrences(s: seq<byte>, b: int): nat {
    if |s| == 0 then 0 else (if s[0] == b then 1 else 0) + Occurrences(s[1..], b)
  }

  /** Occurrences is the multiplicity of b in the multiset of s. */
  lemma {:induction false} OccurrencesIsMultiplicity(s: seq<byte>, b: byte)
    ensures Occurrences(s, b) == multiset(s)[b]
  {
    if |s| > 0 {
      assert s == [s[0]] + s[1..];
      OccurrencesIsMultiplicity(s[1..], b);
    }
  }

  /** What `byteStats` holds once it is filled: the count of every byte value. */
  function Histogram(s: seq<byte>): (h: seq<nat>)
    ensures |h| == 256
  {
    seq(256, b => Occurrences(s, b))
  }

  function Sum(h: seq<nat>): nat {
    if |h| == 0 then 0 else h[0] + Sum(h[1..])
  }

  lemma {:induction false} SumOfZeros(h: seq<nat>)
    requires forall k :: 0 <= k < |h| ==> h[k] == 0
    ensures Sum(h) == 0
  {
    if |h| > 0 {
      SumOfZeros(h[1..]);
    }
  }

  /** Adding one to an entry adds one to the sum. */
  lemma {:induction false} SumOfBump(h: seq<nat>, k: nat)
    requires k < |h|
    ensures Sum(h[k := h[k] + 1]) == Sum(h) + 1
  {
    if k > 0 {
      assert h[k := h[k] + 1][1..] == h[1..][k - 1 := h[k] + 1];
      SumOfBump(h[1..], k - 1);
    }
  }

  /** The 256 buckets of the histogram add up to the length of the input. */
  lemma {:induction false} HistogramSum(s: seq<byte>)
    ensures Sum(Histogram(s)) == |s|
  {
    if |s| == 0 {
      SumOfZeros(Histogram(s));
    } else {
      var h := Histogram(s[1..]);
      assert Histogram(s) == h[s[0] := h[s[0]] + 1];
      SumOfBump(h, s[0]);
      HistogramSum(s[1..]);
    }
  }

  /** Some byte in 0x80..0x9F (a C1 control in ISO 8859) occurs in s. */
  predicate HasC1(s: seq<byte>) {
    exists k :: 0 <= k < |s| && 0x80 <= s[k] <= 0x9F
  }

  /** A nonzero C1 bucket of the histogram is exactly a C1 byte in the input. */
  lemma HistogramC1(s: seq<byte>)
    ensures (exists b :: 0x80 <= b <= 0x9F && Histogram(s)[b] != 0) <==> HasC1(s)
  {
    if HasC1(s) {
      var k :| 0 <= k < |s| && 0x80 <= s[k] <= 0x9F;
      OccurrencesIsMultiplicity(s, s[k]);
      assert Histogram(s)[s[k]] != 0;
    }
    forall b | 0x80 <= b <= 0x9F && Histogram(s)[b] != 0
      ensures HasC1(s)
    {
      OccurrencesIsMultiplicity(s, b);
      assert b in multiset(s);
      var k :| 0 <= k < |s| && s[k] == b;
    }
  }

  /** The two counting loops of `analyse`: zero the 256 buckets, then count the buffer from its end. */
  method ByteStats(buffer: seq<byte>) returns (byteStats: seq<nat>)
    ensures byteStats == Histogram(buffer)
    ensures forall b: byte :: byteStats[b] == multiset(buffer)[b]
  {
    var stats := new nat[256];
    for i := 0 to 256
      invariant forall k :: 0 <= k < i ==> stats[k] == 0
    {
      stats[i] := 0;
    }
    var i := |buffer| - 1;
    while i >= 0
      invariant -1 <= i < |buffer|
      invariant forall b :: 0 <= b < 256 ==> stats[b] == Occurrences(buffer[i + 1..], b)
      decreases i + 1
    {
      assert buffer[i..][1..] == buffer[i + 1..];
      stats[buffer[i]] := stats[buffer[i]] + 1;
      i := i - 1;
    }
    assert buffer[0..] == buffer;
    byteStats := stats[..];
    forall b: byte
      ensures byteStats[b] == multiset(buffer)[b]
    {
      OccurrencesIsMultiplicity(buffer, b);
    }
  }

  /** The C1 scan of `analyse` over the buckets 0x80..0x9F, stopping at the first nonzero one. */
  method C1Scan(byteStats: seq<nat>) returns (c1Bytes: bool)
    requires |byteStats| == 256
    ensures c1Bytes <==> exists b :: 0x80 <= b <= 0x9F && byteStats[b] != 0
  {
    c1Bytes := false;
    var i := 0x80;
    while i <= 0x9F
      invariant 0x80 <= i <= 0xA0
      invariant !c1Bytes
      invariant forall b :: 0x80 <= b < i ==> byteStats[b] == 0
    {
      if byteStats[i] != 0 {
        c1Bytes := true;
        break;
      }
      i := i + 1;
    }
  }

  /** The Context that `analyse` builds for the buffer s. */
  function ContextOf(s: seq<byte>): (det: Context)
    ensures det.Valid()
  {
    Context(Histogram(s), HasC1(s), s, |s|, s, |s|)
  }

  /** The Context construction of `analyse`. */
  method BuildContext(buffer: seq<byte>) returns (det: Context)
    ensures det == ContextOf(buffer)
    ensures forall b: byte :: det.byteStats[b] == multiset(buffer)[b]
    ensures det.c1Bytes <==> HasC1(buffer)
    ensures det.rawInput == buffer && det.rawLen == |buffer|
  {
    var byteStats := ByteStats(buffer);
    var c1Bytes := C1Scan(byteStats);
    HistogramC1(buffer);
    det := Context(byteStats, c1Bytes, buffer, |buffer|, buffer, |buffer|);
  }

  // ------------------------------------------------------ the recognisers

  datatype Recogniser = Gb18030Rec | Utf8Rec | Big5Rec | Utf16LeRec | Utf16BeRec

  /** The recognisers in the order `analyse` runs them. */
  const RECOGNISERS: seq<Recogniser> := [Gb18030Rec, Utf8Rec, Big5Rec, Utf16LeRec, Utf16BeRec]

  /** The name each recogniser reports. */
  function NameOf(rec: Recogniser): string {
    match rec
    case Gb18030Rec => GB18030_NAME
    case Utf8Rec => UTF8_NAME
    case Big5Rec => BIG5_NAME
    case Utf16LeRec => UTF16LE_NAME
    case Utf16BeRec => UTF16BE_NAME
  }

  /** What `rec.match(det)` answers. */
  function RunSpec(rec: Recogniser, det: Context): (r: Option<Match>)
    ensures r.Some? ==> r.value.name == NameOf(rec) && 10 <= r.value.confidence <= 100
  {
    match rec
    case Gb18030Rec => Gb18030Spec(det.rawInput)
    case Utf8Rec => Utf8.Utf8Spec(det.rawInput)
    case Big5Rec => Big5Spec(det.rawInput)
    case Utf16LeRec => Utf16.Utf16LeMatch(det)
    case Utf16BeRec => Utf16.Utf16BeMatch(det)
  }

  /** `rec.match(det)`. */
  method Run(rec: Recogniser, det: Context) returns (r: Option<Match>)
    requires det.Valid()
    ensures r == RunSpec(rec, det)
  {
    match rec
    case Gb18030Rec => r := Gb18030Match(det);
    case Utf8Rec => r := Utf8.Utf8Match(det);
    case Big5Rec => r := Big5Match(det);
    case Utf16LeRec => r := Utf16.Utf16LeMatch(det);
    case Utf16BeRec => r := Utf16.Utf16BeMatch(det);
  }

  /** The `map` step: every recogniser's answer, in recogniser order. */
  function Outputs(det: Context): (os: seq<Option<Match>>)
    ensures |os| == |RECOGNISERS|
  {
    seq(|RECOGNISERS|, k requires 0 <= k < |RECOGNISERS| => RunSpec(RECOGNISERS[k], det))
  }

  // ------------------------------------------------ filter and stable sort

  /** The `filter` step: the answers that are not null. */
  function Present(os: seq<Option<Match>>): (ms: seq<Match>)
    ensures |ms| <= |os|
  {
    if |os| == 0 then []
    else if os[0].Some? then [os[0].value] + Present(os[1..])
    else Present(os[1..])
  }

  lemma {:induction false} PresentMembers(os: seq<Option<Match>>, m: Match)
    ensures m in Present(os) <==> Some(m) in os
  {
    if |os| > 0 {
      PresentMembers(os[1..], m);
      assert os == [os[0]] + os[1..];
    }
  }

  predicate SortedByConfidence(ms: seq<Match>) {
    forall i, j :: 0 <= i < j < |ms| ==> ms[i].confidence >= ms[j].confidence
  }

  /** Put x before the first element whose confidence is not above its own. */
  function Insert(x: Match, ms: seq<Match>): (r: seq<Match>)
    ensures |r| == |ms| + 1
  {
    if |ms| == 0 || ms[0].confidence <= x.confidence then [x] + ms
    else [ms[0]] + Insert(x, ms[1..])
  }

  /** The `sort` step: by descending confidence, earlier elements first among equals. */
  function SortByConfidence(ms: seq<Match>): (r: seq<Match>)
    ensures |r| == |ms|
  {
    if |ms| == 0 then [] else Insert(ms[0], SortByConfidence(ms[1..]))
  }

  /** The elements with confidence c, in order. */
  function WithConfidence(ms: seq<Match>, c: int): seq<Match> {
    if |ms| == 0 then []
    else if ms[0].confidence == c then [ms[0]] + WithConfidence(ms[1..], c)
    else WithConfidence(ms[1..], c)
  }

  /** A head no lower than every element of a sorted tail keeps the list sorted. */
  lemma SortedCons(h: Match, t: seq<Match>)
    requires SortedByConfidence(t)
    requires forall m :: m in t ==> m.confidence <= h.confidence
    ensures SortedByConfidence([h] + t)
  {
    forall i, j | 0 <= i < j < |t| + 1
      ensures ([h] + t)[i].confidence >= ([h] + t)[j].confidence
    {
      assert ([h] + t)[j] == t[j - 1];
      assert t[j - 1] in t;
      if i > 0 {
        assert ([h] + t)[i] == t[i - 1];
      }
    }
  }

  /** Insertion adds exactly the inserted element. */
  lemma {:induction false} InsertPermutes(x: Match, ms: seq<Match>)
    ensures multiset(Insert(x, ms)) == multiset(ms) + multiset{x}
    ensures |Insert(x, ms)| == |ms| + 1
    decreases |ms|
  {
    if |ms| > 0 && ms[0].confidence > x.confidence {
      InsertPermutes(x, ms[1..]);
      assert ms == [ms[0]] + ms[1..];
    }
  }

  /** Insertion into a list sorted by non-increasing confidence keeps it sorted. */
  lemma {:induction false} InsertKeepsOrder(x: Match, ms: seq<Match>)
    requires SortedByConfidence(ms)
    ensures SortedByConfidence(Insert(x, ms))
    decreases |ms|
  {
    if |ms| > 0 && ms[0].confidence > x.confidence {
      InsertKeepsOrder(x, ms[1..]);
      InsertPermutes(x, ms[1..]);
      var t := Insert(x, ms[1..]);
      forall m | m in t
        ensures m.confidence <= ms[0].confidence
      {
        assert m in multiset(t);
        if m != x {
          assert m in multiset(ms[1..]);
          var k :| 0 <= k < |ms[1..]| && ms[1..][k] == m;
          assert ms[k + 1] == m;
        }
      }
      SortedCons(ms[0], t);
    } else {
      forall m | m in ms
        ensures m.confidence <= x.confidence
      {
        var k :| 0 <= k < |ms| && ms[k] == m;
        assert ms[0].confidence >= ms[k].confidence;
      }
      SortedCons(x, ms);
    }
  }

  /** Among elements of one confidence, the inserted one comes first. */
  lemma {:induction false} InsertIsStable(x: Match, ms: seq<Match>, c: int)
    requires SortedByConfidence(ms)
    ensures WithConfidence(Insert(x, ms), c) ==
              if x.confidence == c then [x] + WithConfidence(ms, c) else WithConfidence(ms, c)
    decreases |ms|
  {
    if |ms| > 0 && ms[0].confidence > x.confidence {
      InsertIsStable(x, ms[1..], c);
      if x.confidence == c {
        assert ms[0].confidence != c;
      }
    }
  }

  /** The sort orders by confidence, permutes, and keeps ties in their original order. */
  lemma {:induction false} SortIsStableSort(ms: seq<Match>)
    ensures SortedByConfidence(SortByConfidence(ms))
    ensures multiset(SortByConfidence(ms)) == multiset(ms)
    ensures |SortByConfidence(ms)| == |ms|
    ensures forall c :: WithConfidence(SortByConfidence(ms), c) == WithConfidence(ms, c)
  {
    if |ms| > 0 {
      SortIsStableSort(ms[1..]);
      InsertKeepsOrder(ms[0], SortByConfidence(ms[1..]));
      InsertPermutes(ms[0], SortByConfidence(ms[1..]));
      assert ms == [ms[0]] + ms[1..];
      forall c
        ensures WithConfidence(SortByConfidence(ms), c) == WithConfidence(ms, c)
      {
        InsertIsStable(ms[0], SortByConfidence(ms[1..]), c);
      }
    }
  }

  // ------------------------------------------------------------- analyse

  /** What `analyse(s)` answers. */
  function AnalyseSpec(s: seq<byte>): (r: seq<Match>)
    ensures |r| <= |RECOGNISERS|
  {
    SortByConfidence(Present(Outputs(ContextOf(s))))
  }

  /** `analyse`. */
  method Analyse(buffer: seq<byte>) returns (matches: seq<Match>)
    ensures matches == AnalyseSpec(buffer)
  {
    var context := BuildContext(buffer);
    var outputs: seq<Option<Match>> := [];
    for i := 0 to |RECOGNISERS|
      invariant |outputs| == i
      invariant forall k :: 0 <= k < i ==> outputs[k] == RunSpec(RECOGNISERS[k], context)
    {
      var m := Run(RECOGNISERS[i], context);
      outputs := outputs + [m];
    }
    assert outputs == Outputs(context);
    matches := SortByConfidence(Present(outputs));
  }

  /** The names the recognisers report are pairwise different. */
  predicate DistinctNames(ms: seq<Match>) {
    forall i, j :: 0 <= i < j < |ms| ==> ms[i].name != ms[j].name
  }

  /** The names the recognisers report, in recogniser order. */
  function Names(): (names: seq<string>)
    ensures |names| == |RECOGNISERS|
    ensures forall k :: 0 <= k < |RECOGNISERS| ==> names[k] == NameOf(RECOGNISERS[k])
    ensures forall i, j :: 0 <= i < j < |names| ==> names[i] != names[j]
  {
    [GB18030_NAME, UTF8_NAME, BIG5_NAME, UTF16LE_NAME, UTF16BE_NAME]
  }

  /** Every answer carries the name of the recogniser that gave it. */
  lemma OutputsNamed(det: Context)
    ensures forall k :: 0 <= k < |RECOGNISERS| && Outputs(det)[k].Some? ==> Outputs(det)[k].value.name == Names()[k]
  {
  }

  /** Answers named by pairwise different names keep their names different once the nulls are dropped. */
  lemma {:induction false} PresentDistinct(os: seq<Option<Match>>, names: seq<string>)
    requires |os| == |names|
    requires forall k :: 0 <= k < |os| && os[k].Some? ==> os[k].value.name == names[k]
    requires forall i, j :: 0 <= i < j < |names| ==> names[i] != names[j]
    ensures DistinctNames(Present(os))
    ensures forall m :: m in Present(os) ==> m.name in names
  {
    if |os| > 0 {
      PresentDistinct(os[1..], names[1..]);
      assert names == [names[0]] + names[1..];
      var rest := Present(os[1..]);
      if os[0].Some? {
        assert names[0] !in names[1..];
        var p := Present(os);
        assert p == [os[0].value] + rest;
        forall i, j | 0 <= i < j < |p|
          ensures p[i].name != p[j].name
        {
          assert p[j] == rest[j - 1];
          assert p[j] in rest;
          if i > 0 {
            assert p[i] == rest[i - 1];
          }
        }
      }
    }
  }

  /** A permutation keeps names distinct. */
  lemma PermutationKeepsDistinct(a: seq<Match>, b: seq<Match>)
    requires multiset(a) == multiset(b) && DistinctNames(a)
    ensures DistinctNames(b)
  {
    forall i, j | 0 <= i < j < |b|
      ensures b[i].name != b[j].name
    {
      if b[i].name == b[j].name {
        assert b[i] in multiset(b) && b[j] in multiset(b);
        var p :| 0 <= p < |a| && a[p] == b[i];
        var q :| 0 <= q < |a| && a[q] == b[j];
        if p == q {
          TwiceAtTwoPlaces(b, i, j);
          OnceOnly(a, p);
        }
      }
    }
  }

  /** Two places holding the same element make its multiplicity at least two. */
  lemma TwiceAtTwoPlaces(b: seq<Match>, i: nat, j: nat)
    requires i < j < |b| && b[i] == b[j]
    ensures multiset(b)[b[i]] >= 2
  {
    assert b == b[..j] + [b[j]] + b[j + 1..];
    assert b[..j][i] == b[i];
  }

  /** In a sequence with distinct names every element occurs once. */
  lemma OnceOnly(a: seq<Match>, p: nat)
    requires p < |a| && DistinctNames(a)
    ensures multiset(a)[a[p]] == 1
  {
    assert a == a[..p] + [a[p]] + a[p + 1..];
    assert forall i :: 0 <= i < |a| && i != p ==> a[i] != a[p];
    assert a[p] !in a[..p];
    assert a[p] !in a[p + 1..];
  }

  /** `analyse` answers a stable sort of the non-null answers of the recognisers. */
  lemma AnalyseIsStableSort(s: seq<byte>)
    ensures var r := AnalyseSpec(s);
            var p := Present(Outputs(ContextOf(s)));
            multiset(r) == multiset(p) &&
            SortedByConfidence(r) &&
            forall c :: WithConfidence(r, c) == WithConfidence(p, c)
  {
    SortIsStableSort(Present(Outputs(ContextOf(s))));
  }

  /** Sorting the non-null answers keeps exactly the matches some answer holds. */
  lemma SortedPresentMembers(os: seq<Option<Match>>, m: Match)
    ensures m in SortByConfidence(Present(os)) <==> exists k :: 0 <= k < |os| && os[k] == Some(m)
  {
    SortIsStableSort(Present(os));
    assert m in SortByConfidence(Present(os)) <==> m in multiset(Present(os));
    PresentMembers(os, m);
  }

  /** A match is in the answer of `analyse` exactly when some recogniser gave it. */
  lemma AnalyseMembers(s: seq<byte>, m: Match)
    ensures m in AnalyseSpec(s) <==>
              exists k :: 0 <= k < |RECOGNISERS| && RunSpec(RECOGNISERS[k], ContextOf(s)) == Some(m)
  {
    var os := Outputs(ContextOf(s));
    SortedPresentMembers(os, m);
    assert forall k :: 0 <= k < |RECOGNISERS| ==> os[k] == RunSpec(RECOGNISERS[k], ContextOf(s));
  }

  /**
   * The answer of `analyse` has no nulls, at most one match per recogniser,
   * with pairwise different names, each with a confidence in [10, 100].
   */
  lemma AnalyseBounds(s: seq<byte>)
    ensures |AnalyseSpec(s)| <= |RECOGNISERS|
    ensures DistinctNames(AnalyseSpec(s))
    ensures forall m :: m in AnalyseSpec(s) ==> 10 <= m.confidence <= 100 && m.name in Names()
  {
    var det := ContextOf(s);
    var p := Present(Outputs(det));
    SortIsStableSort(p);
    OutputsNamed(det);
    PresentDistinct(Outputs(det), Names());
    PermutationKeepsDistinct(p, AnalyseSpec(s));
    forall m | m in AnalyseSpec(s)
      ensures 10 <= m.confidence <= 100 && m.name in Names()
    {
      AnalyseMembers(s, m);
      assert m in multiset(p);
    }
  }

  /**
   * Text of bytes below 0x80: ten bytes or more are GB18030, UTF-8 and Big5
   * with confidence 10 each, in that order; a shorter text (the empty one
   * included) is UTF-8 with confidence 10 and nothing else.
   */
  lemma AsciiAnalysis(s: seq<byte>)
    requires forall k :: 0 <= k < |s| ==> s[k] < 0x80
    ensures |s| >= 10 ==>
              AnalyseSpec(s) == [Match(GB18030_NAME, 10), Match(UTF8_NAME, 10), Match(BIG5_NAME, 10)]
    ensures |s| < 10 ==> AnalyseSpec(s) == [Match(UTF8_NAME, 10)]
  {
    AsciiOutputs(ContextOf(s));
    AsciiOutputsSorted();
  }

  /** What each recogniser answers for text of bytes below 0x80. */
  lemma AsciiOutputs(det: Context)
    requires forall k :: 0 <= k < |det.rawInput| ==> det.rawInput[k] < 0x80
    ensures Outputs(det) ==
              if |det.rawInput| >= 10
              then [Some(Match(GB18030_NAME, 10)), Some(Match(UTF8_NAME, 10)), Some(Match(BIG5_NAME, 10)), None, None]
              else [None, Some(Match(UTF8_NAME, 10)), None, None, None]
  {
    var s := det.rawInput;
    MatchMbcs.MbcsAscii(MatchMbcs.Gb18030, GB18030_NAME, s, Some(CommonChars.GB18030_COMMON_CHARS));
    MatchMbcs.MbcsAscii(MatchMbcs.Big5, BIG5_NAME, s, Some(CommonChars.BIG5_COMMON_CHARS));
    Utf8.AsciiIsUtf8(s);
    if |s| > 0 {
      assert s[0] < 0x80;
    }
  }

  /** The filter and the sort on the two answer lists that ASCII text produces. */
  lemma AsciiOutputsSorted()
    ensures var gb, u8, b5 := Match(GB18030_NAME, 10), Match(UTF8_NAME, 10), Match(BIG5_NAME, 10);
            SortByConfidence(Present([Some(gb), Some(u8), Some(b5), None, None])) == [gb, u8, b5] &&
            SortByConfidence(Present([None, Some(u8), None, None, None])) == [u8]
  {
    var gb, u8, b5 := Match(GB18030_NAME, 10), Match(UTF8_NAME, 10), Match(BIG5_NAME, 10);
    var p0: seq<Option<Match>> := [];
    var p1 := [None] + p0;
    var p2 := [None] + p1;
    var p3 := [Some(b5)] + p2;
    var p4 := [Some(u8)] + p3;
    var p5 := [Some(gb)] + p4;
    assert Present(p2) == [];
    assert Present(p3) == [b5];
    assert Present(p4) == [u8, b5];
    assert Present(p5) == [gb, u8, b5];
    var q3 := [None] + p2;
    var q4 := [Some(u8)] + q3;
    var q5 := [None] + q4;
    assert Present(q3) == [];
    assert Present(q4) == [u8];
    assert Present(q5) == [u8];
    assert [gb, u8, b5][1..] == [u8, b5];
    assert [u8, b5][1..] == [b5];
    assert SortByConfidence([b5]) == [b5];
    assert SortByConfidence([u8, b5]) == [u8, b5];
    assert SortByConfidence([gb, u8, b5]) == [gb, u8, b5];
    assert SortByConfidence([u8]) == [u8];
    assert p5 == [Some(gb), Some(u8), Some(b5), None, None];
    assert q5 == [None, Some(u8), None, None, None];
  }

  /** The empty buffer is reported as UTF-8 with confidence 10. */
  lemma EmptyAnalysis()
    ensures AnalyseSpec([]) == [Match(UTF8_NAME, 10)]
  {
    AsciiAnalysis([]);
  }

  // ------------------------------------------------------------- chardet

  /** `chardet`: the name of the first match, or null when nothing matched. */
  method Chardet(buffer: seq<byte>) returns (name: Option<string>)
    ensures name.None? <==> AnalyseSpec(buffer) == []
    ensures name.Some? ==> |AnalyseSpec(buffer)| > 0 && name.value == AnalyseSpec(buffer)[0].name
    ensures name.Some? ==>
              forall m :: m in AnalyseSpec(buffer) ==> m.confidence <= AnalyseSpec(buffer)[0].confidence
  {
    var matches := Analyse(buffer);
    AnalyseIsStableSort(buffer);
    name := if |matches| > 0 then Some(matches[0].name) else None;
  }
}
