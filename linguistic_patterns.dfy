/** Linguistic pattern counts: certainty and uncertainty phrases, filler words, and the
    mean sentence length, all read from the lower-cased text except the sentence split,
    which runs on the original text. */
module LinguisticPatterns {

  import opened Text
  import Seqs
  import Calibration

  const CertaintyPhrases: seq<string> := [
    "com certeza", "obviamente", "claramente", "sem dúvida",
    "definitivamente", "certamente", "claro que", "evidente",
    "tenho certeza", "absolutamente", "seguramente"
  ]

  const UncertaintyPhrases: seq<string> := [
    "talvez", "acho que", "não sei", "pode ser", "provavelmente",
    "me parece", "acredito que", "suponho", "imagino que",
    "não tenho certeza", "possivelmente", "quem sabe"
  ]

  const HesitationWords: seq<string> := ["né", "tipo", "assim", "então", "eh", "ah", "uhm", "ahn"]

  /** At most this many example phrases are reported per marker kind. */
  const ExampleLimit: nat := 5

  datatype MarkerSummary = MarkerSummary(count: nat, examples: seq<string>, percentage: real)

  /** One entry of the hesitation dictionary; the list keeps insertion order. */
  datatype HesitationEntry = HesitationEntry(word: string, count: nat, percentage: real)

  datatype Result = Result(
    certainty: MarkerSummary,
    uncertainty: MarkerSummary,
    hesitationPhrases: seq<HesitationEntry>,
    totalHesitations: nat,
    avgSentenceLength: real,
    calibration: Calibration.Params)

  /** count / total * 100, and 0 when the total is 0. */
  function Percentage(count: nat, total: nat): (r: real)
    ensures r >= 0.0
    ensures total > 0 && count <= total ==> r <= 100.0
  {
    if total > 0 then count as real / total as real * 100.0 else 0.0
  }

  /** Count, first examples and percentage of one phrase list. */
  function Markers(lower: string, phrases: seq<string>, fragments: nat): MarkerSummary {
    var c := TermsPresent(lower, phrases);
    MarkerSummary(c, Seqs.Take(PresentInOrder(lower, phrases), ExampleLimit), Percentage(c, fragments))
  }

  /** The hesitation dictionary: an entry per marker whose count is positive, in marker order. */
  function HesitationTable(lower: string, wordCount: nat, markers: seq<string>): seq<HesitationEntry> {
    if markers == [] then []
    else
      var c := Count(lower, markers[0]);
      (if c > 0 then [HesitationEntry(markers[0], c, Percentage(c, wordCount))] else [])
      + HesitationTable(lower, wordCount, markers[1..])
  }

  function EntryWords(entries: seq<HesitationEntry>): seq<string> {
    if entries == [] then [] else [entries[0].word] + EntryWords(entries[1..])
  }

  function EntryCounts(entries: seq<HesitationEntry>): nat {
    if entries == [] then 0 else entries[0].count + EntryCounts(entries[1..])
  }

  /** The hesitation loop: fills the dictionary and the running total marker by marker. */
  method CountHesitations(lower: string, wordCount: nat, markers: seq<string>)
    returns (byWord: seq<HesitationEntry>, total: nat)
    ensures byWord == HesitationTable(lower, wordCount, markers)
    ensures total == CountAll(lower, markers)
  {
    byWord := [];
    total := 0;
    var i := 0;
    assert markers[i..] == markers;
    while i < |markers|
      invariant 0 <= i <= |markers|
      invariant byWord + HesitationTable(lower, wordCount, markers[i..])
        == HesitationTable(lower, wordCount, markers)
      invariant total + CountAll(lower, markers[i..]) == CountAll(lower, markers)
    {
      var word := markers[i];
      var count := Count(lower, word);
      assert markers[i..][1..] == markers[i + 1..];
      if count > 0 {
        byWord := byWord + [HesitationEntry(word, count, Percentage(count, wordCount))];
        total := total + count;
      }
      i := i + 1;
    }
    assert markers[i..] == [];
  }

  /** Token counts of the non-blank fragments. */
  function FragmentLengths(fragments: seq<string>): seq<nat> {
    if fragments == [] then []
    else
      (if Strip(fragments[0]) != [] then [|Tokens(fragments[0])|] else [])
      + FragmentLengths(fragments[1..])
  }

  function SentenceLengths(text: string): seq<nat> {
    FragmentLengths(SplitSentences(text))
  }

  /** Mean of the sentence lengths, 0 when there is no non-blank fragment. */
  function AvgSentenceLength(text: string): real {
    var ls := SentenceLengths(text);
    if |ls| > 0 then Seqs.SumNat(ls) as real / |ls| as real else 0.0
  }

  function Linguistic(text: string): Result {
    var lower := Lower(text);
    var wordCount := |Tokens(lower)|;
    var fragments := |SplitSentences(text)|;
    Result(
      Markers(lower, CertaintyPhrases, fragments),
      Markers(lower, UncertaintyPhrases, fragments),
      HesitationTable(lower, wordCount, HesitationWords),
      CountAll(lower, HesitationWords),
      AvgSentenceLength(text),
      Calibration.ParamsFor(|text|))
  }

  /** The analyzer: the hesitation loop plus the phrase and sentence figures. */
  method Analyze(text: string) returns (r: Result)
    ensures r == Linguistic(text)
  {
    var lower := Lower(text);
    var words := Tokens(lower);
    var byWord, total := CountHesitations(lower, |words|, HesitationWords);
    var fragments := |SplitSentences(text)|;
    r := Result(
      Markers(lower, CertaintyPhrases, fragments),
      Markers(lower, UncertaintyPhrases, fragments),
      byWord, total,
      AvgSentenceLength(text),
      Calibration.ParamsFor(|text|));
  }

  // ---------------------------------------------------------------------------
  // Properties

  /** A marker count is the number of distinct phrases of the list present, so it never
      exceeds the list's length, and the examples are the present phrases in list order,
      at most five of them. */
  lemma MarkersFacts(lower: string, phrases: seq<string>, fragments: nat)
    requires Seqs.Distinct(phrases)
    ensures var m := Markers(lower, phrases, fragments);
      && m.count == |PresentTerms(lower, phrases)| <= |phrases|
      && |m.examples| == (if m.count < ExampleLimit then m.count else ExampleLimit)
      && (forall e :: e in m.examples ==> e in phrases && Contains(lower, e))
      && Seqs.IsSubsequence(m.examples, phrases)
      && (m.count <= ExampleLimit ==>
            forall p :: p in phrases && Contains(lower, p) ==> p in m.examples)
      && m.percentage == Percentage(m.count, fragments)
  {
    var present := PresentInOrder(lower, phrases);
    TermsPresentIsSetSize(lower, phrases);
    PresentInOrderCount(lower, phrases);
    PresentInOrderSubsequence(lower, phrases);
    var ex := Seqs.Take(present, ExampleLimit);
    Seqs.PrefixSubsequence(present, phrases, |ex|);
    assert present[..|ex|] == ex;
    forall p | p in phrases && Contains(lower, p) && |present| <= ExampleLimit
      ensures p in ex
    {
      PresentInOrderComplete(lower, phrases, p);
    }
  }

  /** certainty_count <= 11 and uncertainty_count <= 12, each the number of distinct
      phrases present. */
  lemma MarkerCountBounds(text: string)
    ensures var r := Linguistic(text);
      && r.certainty.count == |PresentTerms(Lower(text), CertaintyPhrases)| <= 11
      && r.uncertainty.count == |PresentTerms(Lower(text), UncertaintyPhrases)| <= 12
  {
    var fragments := |SplitSentences(text)|;
    assert Seqs.Distinct(CertaintyPhrases);
    assert Seqs.Distinct(UncertaintyPhrases);
    MarkersFacts(Lower(text), CertaintyPhrases, fragments);
    MarkersFacts(Lower(text), UncertaintyPhrases, fragments);
  }

  /** The hesitation dictionary holds exactly the markers with a positive count, each with
      that count, and its counts add up to the summed count of all markers. */
  lemma {:induction false} HesitationTableFacts(lower: string, wordCount: nat, markers: seq<string>)
    ensures var t := HesitationTable(lower, wordCount, markers);
      && (forall w :: w in EntryWords(t) <==> w in markers && Count(lower, w) > 0)
      && (forall e :: e in t ==>
            (e.count == Count(lower, e.word) > 0 && e.percentage == Percentage(e.count, wordCount)))
      && EntryCounts(t) == CountAll(lower, markers)
  {
    if markers != [] {
      HesitationTableFacts(lower, wordCount, markers[1..]);
      var rest := HesitationTable(lower, wordCount, markers[1..]);
      var c := Count(lower, markers[0]);
      assert markers == [markers[0]] + markers[1..];
      if c > 0 {
        var e := HesitationEntry(markers[0], c, Percentage(c, wordCount));
        var t := [e] + rest;
        assert HesitationTable(lower, wordCount, markers) == t;
        assert t[0] == e && t[1..] == rest;
        assert EntryWords(t) == [markers[0]] + EntryWords(rest);
        assert EntryCounts(t) == c + EntryCounts(rest);
      } else {
        assert HesitationTable(lower, wordCount, markers) == rest;
      }
      assert CountAll(lower, markers) == c + CountAll(lower, markers[1..]);
      forall w ensures w in markers <==> w == markers[0] || w in markers[1..] { }
    }
  }

  /** total_hesitations is the sum of the dictionary's counts. */
  lemma HesitationTotals(text: string)
    ensures var r := Linguistic(text);
      && r.totalHesitations == EntryCounts(r.hesitationPhrases)
      && (forall w :: w in EntryWords(r.hesitationPhrases) <==>
            w in HesitationWords && Count(Lower(text), w) > 0)
  {
    HesitationTableFacts(Lower(text), |Tokens(Lower(text))|, HesitationWords);
  }

  /** Every non-blank fragment has at least one token. */
  lemma NonBlankHasToken(s: string)
    requires Strip(s) != []
    ensures |Tokens(s)| >= 1
  {
    StripSpec(s);
    RunsSpec(s, NotSpace);
  }

  /** Each listed length is at least 1, so the lengths add up to at least their number. */
  lemma {:induction false} FragmentLengthsSum(fragments: seq<string>)
    ensures Seqs.SumNat(FragmentLengths(fragments)) >= |FragmentLengths(fragments)|
  {
    if fragments != [] {
      FragmentLengthsSum(fragments[1..]);
      var rest := FragmentLengths(fragments[1..]);
      if Strip(fragments[0]) != [] {
        NonBlankHasToken(fragments[0]);
        var r := [|Tokens(fragments[0])|] + rest;
        assert FragmentLengths(fragments) == r;
        assert r[1..] == rest;
      } else {
        assert FragmentLengths(fragments) == rest;
      }
    }
  }

  /** Every fragment strips to nothing. */
  predicate AllBlank(fragments: seq<string>) {
    forall k :: 0 <= k < |fragments| ==> Strip(fragments[k]) == []
  }

  /** There is no length exactly when every fragment is blank. */
  lemma {:induction false} FragmentLengthsEmpty(fragments: seq<string>)
    ensures FragmentLengths(fragments) == [] <==> AllBlank(fragments)
  {
    if fragments != [] {
      FragmentLengthsEmpty(fragments[1..]);
      forall k | 1 <= k < |fragments| ensures fragments[k] == fragments[1..][k - 1] { }
    }
  }

  /** A mean of values that are each at least 1 is at least 1. */
  lemma MeanAtLeastOne(ls: seq<nat>)
    requires 0 < |ls| <= Seqs.SumNat(ls)
    ensures Seqs.SumNat(ls) as real / |ls| as real >= 1.0
  {
    var n := |ls| as real;
    assert Seqs.SumNat(ls) as real >= n;
  }

  /** avg_sentence_length is 0 when every fragment is blank, and otherwise the mean token
      count of the non-blank fragments, which is at least 1. */
  lemma AvgSentenceLengthFacts(text: string)
    ensures AvgSentenceLength(text) == 0.0 <==> AllBlank(SplitSentences(text))
    ensures (SentenceLengths(text) != [] ==> AvgSentenceLength(text) >= 1.0)
  {
    var ls := SentenceLengths(text);
    var fs := SplitSentences(text);
    assert ls == FragmentLengths(fs);
    FragmentLengthsSum(fs);
    FragmentLengthsEmpty(fs);
    if |ls| > 0 {
      MeanAtLeastOne(ls);
      assert AvgSentenceLength(text) == Seqs.SumNat(ls) as real / |ls| as real;
      assert AvgSentenceLength(text) != 0.0;
    }
  }

  /** The marker percentages divide by the number of raw fragments, empty ones included,
      and there is always at least one fragment. */
  lemma PercentagesUseFragments(text: string)
    ensures var r := Linguistic(text);
      var n := |SplitSentences(text)|;
      && n >= 1
      && r.certainty.percentage == r.certainty.count as real / n as real * 100.0
      && r.uncertainty.percentage == r.uncertainty.count as real / n as real * 100.0
  {
  }
}
