/** The length calibration shared by all analyzers (BaseAnalyzer.get_calibration_params):
    the number of temporal segments, a smoothing factor and a minimum word frequency,
    chosen from the character length of the text in three bands. */
module Calibration {

  datatype Params = Params(segments: nat, smoothing: real, minFrequency: nat)

  /** Short texts are below 1000 characters, long ones above 10000; the bounds themselves
      belong to the middle band. */
  function ParamsFor(textLength: nat): (r: Params)
    ensures r.segments in {5, 10, 20}
    ensures textLength < 1000 <==> r.segments == 5
    ensures textLength > 10000 <==> r.segments == 20
  {
    if textLength < 1000 then Params(5, 0.1, 2)
    else if textLength > 10000 then Params(20, 0.3, 5)
    else Params(10, 0.2, 3)
  }

  /** Each band's three values, as one lemma per band. */
  lemma ShortBand(n: nat)
    requires n < 1000
    ensures ParamsFor(n) == Params(5, 0.1, 2)
  {
  }

  lemma LongBand(n: nat)
    requires n > 10000
    ensures ParamsFor(n) == Params(20, 0.3, 5)
  {
  }

  lemma MediumBand(n: nat)
    requires 1000 <= n <= 10000
    ensures ParamsFor(n) == Params(10, 0.2, 3)
  {
  }

  /** A longer text never gets fewer segments, less smoothing or a lower minimum frequency. */
  lemma Monotone(a: nat, b: nat)
    requires a <= b
    ensures ParamsFor(a).segments <= ParamsFor(b).segments
    ensures ParamsFor(a).smoothing <= ParamsFor(b).smoothing
    ensures ParamsFor(a).minFrequency <= ParamsFor(b).minFrequency
  {
  }
}
