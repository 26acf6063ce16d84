/** GlobalMetricsAnalyzer.analyze: whole-text figures drawn from the temporal segments
    (mean sentiment, population variance as "emotional openness") and from the text itself
    (hesitation markers, word repetition as "thematic coherence"). */
module GlobalMetrics {
  import opened Text
  import opened Wrappers
  import Seqs
  import Calibration
  import TemporalAnalysis

  /** The value used for emotional openness when there are fewer than two sentiments. */
  const DefaultOpenness: real := 0.1

  /** The value used for thematic coherence when the text has no words. */
  const DefaultCoherence: real := 0.5

  function Mean(xs: seq<real>): real
    requires |xs| > 0
  {
    Seqs.Sum(xs) / |xs| as real
  }

  /** Sum of squared deviations from m. */
  function SquaredDeviations(xs: seq<real>, m: real): real {
    if xs == [] then 0.0 else (xs[0] - m) * (xs[0] - m) + SquaredDeviations(xs[1..], m)
  }

  /** Population variance. */
  function Variance(xs: seq<real>): real
    requires |xs| > 0
  {
    SquaredDeviations(xs, Mean(xs)) / |xs| as real
  }

  lemma {:induction false} SquaredDeviationsNonNegative(xs: seq<real>, m: real)
    ensures SquaredDeviations(xs, m) >= 0.0
  {
    if xs != [] {
      SquaredDeviationsNonNegative(xs[1..], m);
      var d := xs[0] - m;
      if d < 0.0 {
        assert d * d == (-d) * (-d);
      }
      assert d * d >= 0.0;
    }
  }

  lemma {:induction false} SquaredDeviationsOfConstant(xs: seq<real>, c: real)
    requires forall i :: 0 <= i < |xs| ==> xs[i] == c
    ensures SquaredDeviations(xs, c) == 0.0
  {
    if xs != [] {
      SquaredDeviationsOfConstant(xs[1..], c);
    }
  }

  lemma {:induction false} SumBounds(xs: seq<real>, lo: real, hi: real)
    requires forall i :: 0 <= i < |xs| ==> lo <= xs[i] <= hi
    ensures lo * |xs| as real <= Seqs.Sum(xs) <= hi * |xs| as real
  {
    if xs != [] {
      SumBounds(xs[1..], lo, hi);
    }
  }

  lemma {:induction false} SumOfConstant(xs: seq<real>, c: real)
    requires forall i :: 0 <= i < |xs| ==> xs[i] == c
    ensures Seqs.Sum(xs) == c * |xs| as real
  {
    if xs != [] {
      SumOfConstant(xs[1..], c);
    }
  }

  /** The mean lies between any lower and upper bound of the values. */
  lemma MeanBounds(xs: seq<real>, lo: real, hi: real)
    requires |xs| > 0
    requires forall i :: 0 <= i < |xs| ==> lo <= xs[i] <= hi
    ensures lo <= Mean(xs) <= hi
  {
    SumBounds(xs, lo, hi);
    var n := |xs| as real;
    assert Mean(xs) * n == Seqs.Sum(xs);
  }

  /** The variance is never negative, and is zero when all values are equal. */
  lemma VarianceFacts(xs: seq<real>)
    requires |xs| > 0
    ensures Variance(xs) >= 0.0
    ensures (forall i :: 0 <= i < |xs| ==> xs[i] == xs[0]) ==> Variance(xs) == 0.0
  {
    SquaredDeviationsNonNegative(xs, Mean(xs));
    if forall i :: 0 <= i < |xs| ==> xs[i] == xs[0] {
      SumOfConstant(xs, xs[0]);
      assert Mean(xs) == xs[0];
      SquaredDeviationsOfConstant(xs, xs[0]);
    }
  }

  /** The segment sentiments, or [0] when there are no segments. */
  function Sentiments(segments: seq<TemporalAnalysis.Segment>): (r: seq<real>)
    ensures |r| == if segments == [] then 1 else |segments|
  {
    if segments == [] then [0.0]
    else seq(|segments|, k requires 0 <= k < |segments| => segments[k].sentiment)
  }

  function Openness(sentiments: seq<real>): real
    requires |sentiments| > 0
  {
    if |sentiments| > 1 then Variance(sentiments) else DefaultOpenness
  }

  /** The lower-cased whitespace tokens. */
  function LowerWords(text: string): seq<string> {
    Tokens(Lower(text))
  }

  /** 1 - distinct/total over the lower-cased tokens; DefaultCoherence for no tokens. */
  function Coherence(text: string): real {
    var words := LowerWords(text);
    var unique := |set w | w in words|;
    if |words| > 0 then 1.0 - unique as real / |words| as real else DefaultCoherence
  }

  function TotalHesitations(text: string): nat {
    var lower := Lower(text);
    Count(lower, "né") + Count(lower, "tipo") + Count(lower, "assim") + Count(lower, "então")
  }

  datatype Result = Result(
    globalSentiment: real,
    emotionalOpenness: real,
    thematicCoherence: real,
    totalHesitations: nat,
    segmentsAnalyzed: nat,
    calibration: Calibration.Params)

  /** `temporal` is the temporal_data argument; None means it is computed from the text. */
  function Analyze(text: string, temporal: Option<seq<TemporalAnalysis.Segment>>): Result {
    var segments := match temporal
      case Some(s) => s
      case None => TemporalAnalysis.Temporal(text).segments;
    var sentiments := Sentiments(segments);
    Result(Mean(sentiments), Openness(sentiments), Coherence(text), TotalHesitations(text),
      |segments|, Calibration.ParamsFor(|text|))
  }

  /** Coherence is DefaultCoherence without words and otherwise lies in [0, 1). */
  lemma CoherenceRange(text: string)
    ensures LowerWords(text) == [] ==> Coherence(text) == DefaultCoherence
    ensures LowerWords(text) != [] ==> 0.0 <= Coherence(text) < 1.0
  {
    var words := LowerWords(text);
    Seqs.SetSizeBounds(words);
    if |words| > 0 {
      var u := |set w | w in words| as real;
      var t := |words| as real;
      assert 1.0 <= u <= t;
      assert u / t <= 1.0 && u / t > 0.0;
    }
  }

  /** The global sentiment is the mean of the segment sentiments, so it lies between the
      smallest and largest of them (0 only matters when there is no segment); emotional
      openness is never negative. */
  lemma SentimentAndOpenness(text: string, temporal: Option<seq<TemporalAnalysis.Segment>>,
                             lo: real, hi: real)
    requires (match temporal case Some(t) => t case None => TemporalAnalysis.Temporal(text).segments) == [] ==>
               lo <= 0.0 <= hi
    requires forall s :: s in (match temporal case Some(t) => t case None => TemporalAnalysis.Temporal(text).segments)
               ==> lo <= s.sentiment <= hi
    ensures var r := Analyze(text, temporal);
      lo <= r.globalSentiment <= hi && r.emotionalOpenness >= 0.0
  {
    var segs := match temporal case Some(t) => t case None => TemporalAnalysis.Temporal(text).segments;
    var xs := Sentiments(segs);
    forall i | 0 <= i < |xs| ensures lo <= xs[i] <= hi {
      if segs != [] {
        assert xs[i] == segs[i].sentiment && segs[i] in segs;
      }
    }
    MeanBounds(xs, lo, hi);
    if |xs| > 1 {
      VarianceFacts(xs);
    }
  }

  /** With no segments the figures fall back to sentiment 0 and openness 0.1; with one
      segment the openness is 0.1 and the global sentiment is that segment's. */
  lemma FewSegments(text: string, segments: seq<TemporalAnalysis.Segment>)
    requires |segments| <= 1
    ensures var r := Analyze(text, Some(segments));
      && r.emotionalOpenness == DefaultOpenness
      && r.globalSentiment == (if segments == [] then 0.0 else segments[0].sentiment)
      && r.segmentsAnalyzed == |segments|
  {
    var xs := Sentiments(segments);
    assert Seqs.Sum(xs) == xs[0] by {
      assert xs[1..] == [];
    }
  }

  /** With two or more segments, equal sentiments give openness 0. */
  lemma EqualSentimentsNoOpenness(text: string, segments: seq<TemporalAnalysis.Segment>)
    requires |segments| > 1
    requires forall i :: 0 <= i < |segments| ==> segments[i].sentiment == segments[0].sentiment
    ensures Analyze(text, Some(segments)).emotionalOpenness == 0.0
  {
    VarianceFacts(Sentiments(segments));
  }

  /** Without temporal input the segments are those of the temporal analysis of the text. */
  lemma SegmentsFromTemporal(text: string)
    ensures Analyze(text, None).segmentsAnalyzed == TemporalAnalysis.Temporal(text).totalSegments
  {
  }

  /** Hesitations are counted on the whole text, whatever segments are given. */
  lemma HesitationsIgnoreSegments(text: string, a: Option<seq<TemporalAnalysis.Segment>>,
                                  b: Option<seq<TemporalAnalysis.Segment>>)
    ensures Analyze(text, a).totalHesitations == Analyze(text, b).totalHesitations
    ensures Analyze(text, a).thematicCoherence == Analyze(text, b).thematicCoherence
  {
  }
}
