/** WordFrequencyAnalyzer.analyze: lower-case the text, take the words of three or more
    letters of the Portuguese class, drop the listed stopwords, count them (Counter, whose
    keys are in first-occurrence order) and keep the 50 most common (most_common, stable
    on ties). */
module WordFrequency {
  import opened Text
  import Seqs
  import Sorting
  import Calibration

  /** The letter class [a-záàâãéèêíïóôõöúçñ] of the word pattern. */
  predicate InWordClass(c: char) {
    ('a' <= c <= 'z') || c in "áàâãéèêíïóôõöúçñ"
  }

  const Stopwords: set<string> := {"que", "para", "com", "uma", "por", "mas", "das", "dos",
    "como", "isso", "então", "muito", "mais", "também"}

  const TopN: nat := 50

  /** `\b[class]{3,}\b` matches exactly the maximal \w runs of length >= 3 made only of
      class letters: a run containing another word character has no boundary at which a
      shorter match could end or start. */
  predicate IsMatchedWord(w: string) {
    |w| >= 3 && All(w, InWordClass)
  }

  function KeepMatched(runs: seq<string>): (r: seq<string>)
    ensures forall k :: 0 <= k < |r| ==> IsMatchedWord(r[k])
    ensures forall w :: w in r <==> w in runs && IsMatchedWord(w)
    ensures |r| <= |runs|
  {
    if runs == [] then []
    else if IsMatchedWord(runs[0]) then [runs[0]] + KeepMatched(runs[1..])
    else KeepMatched(runs[1..])
  }

  function DropStopwords(ws: seq<string>): (r: seq<string>)
    ensures forall k :: 0 <= k < |r| ==> r[k] !in Stopwords
    ensures forall w :: w in r <==> w in ws && w !in Stopwords
    ensures forall w :: w !in Stopwords ==> multiset(r)[w] == multiset(ws)[w]
    ensures |r| <= |ws|
  {
    if ws == [] then []
    else
      var rest := DropStopwords(ws[1..]);
      assert ws == [ws[0]] + ws[1..];
      if ws[0] in Stopwords then rest else [ws[0]] + rest
  }

  /** re.findall of the word pattern on text.lower() */
  function Words(text: string): seq<string> {
    KeepMatched(WordRuns(Lower(text)))
  }

  function Filtered(text: string): seq<string> {
    DropStopwords(Words(text))
  }

  /** Counter(ws) as its items in insertion order. */
  function Counts(ws: seq<string>): (r: seq<(string, nat)>)
    ensures |r| == |Seqs.Dedup(ws)|
  {
    var d := Seqs.Dedup(ws);
    seq(|d|, k requires 0 <= k < |d| => (d[k], multiset(ws)[d[k]]))
  }

  function CountKey(p: (string, nat)): real {
    p.1 as real
  }

  function Keys(ps: seq<(string, nat)>): (r: seq<string>)
    ensures |r| == |ps|
    ensures forall k :: 0 <= k < |ps| ==> r[k] == ps[k].0
  {
    seq(|ps|, k requires 0 <= k < |ps| => ps[k].0)
  }

  /** dict(Counter(ws).most_common(50)) */
  function MostCommon(ws: seq<string>): seq<(string, nat)> {
    Sorting.TopK(Counts(ws), CountKey, TopN)
  }

  datatype Result = Result(
    totalWords: nat,
    uniqueWords: nat,
    frequencies: seq<(string, nat)>,
    calibration: Calibration.Params)

  function Analyze(text: string): (r: Result)
    ensures r.uniqueWords <= r.totalWords
    ensures |r.frequencies| == (if r.uniqueWords < TopN then r.uniqueWords else TopN)
  {
    var words := Words(text);
    var filtered := DropStopwords(words);
    Sorting.TopKFacts(Counts(filtered), CountKey, TopN);
    Result(|words|, |Counts(filtered)|, MostCommon(filtered), Calibration.ParamsFor(|text|))
  }

  /** most_common(50) keeps min(50, n) of the n distinct filtered words. */
  lemma KeptCount(text: string)
    ensures var n := |Seqs.Dedup(Filtered(text))|;
      |Analyze(text).frequencies| == (if n < TopN then n else TopN)
  {
    Sorting.TopKFacts(Counts(Filtered(text)), CountKey, TopN);
  }

  /** An entry of most_common(50) is a word of ws and its number of occurrences. */
  lemma MostCommonEntry(ws: seq<string>, i: nat)
    requires i < |MostCommon(ws)|
    ensures var e := MostCommon(ws)[i];
      e.0 in ws && e.1 == multiset(ws)[e.0] && e.1 >= 1
  {
    var c := Counts(ws);
    var s := Sorting.SortDesc(c, CountKey);
    Sorting.SortDescPermutation(c, CountKey);
    var e := s[i];
    assert e == MostCommon(ws)[i];
    assert e in multiset(c) by { assert e in s; }
    var k :| 0 <= k < |c| && c[k] == e;
    var d := Seqs.Dedup(ws);
    assert e.0 == d[k] && e.1 == multiset(ws)[d[k]];
    Seqs.DedupMembers(ws, d[k]);
  }

  /** Every kept word is a matched word of the text, no stopword, with count >= 1 equal
      to its number of occurrences among the filtered words. */
  lemma EntriesAreCounts(text: string, i: nat)
    requires i < |Analyze(text).frequencies|
    ensures var e := Analyze(text).frequencies[i];
      && IsMatchedWord(e.0)
      && e.0 !in Stopwords
      && e.1 == multiset(Filtered(text))[e.0]
      && e.1 >= 1
      && e.0 in Words(text)
  {
    var f := Filtered(text);
    assert Analyze(text).frequencies == MostCommon(f);
    MostCommonEntry(f, i);
  }

  /** The kept counts never increase along the result. */
  lemma FrequenciesSorted(text: string)
    ensures Sorting.SortedDesc(Analyze(text).frequencies, CountKey)
  {
    var s := Sorting.SortDesc(Counts(Filtered(text)), CountKey);
    Sorting.SortDescSorted(Counts(Filtered(text)), CountKey);
    assert Analyze(text).frequencies <= s;
  }

  /** The entries of one count appear in the order their words first occur in the text. */
  lemma TiesInFirstOccurrenceOrder(text: string, c: real)
    ensures Sorting.WithKey(Analyze(text).frequencies, CountKey, c)
         <= Sorting.WithKey(Counts(Filtered(text)), CountKey, c)
  {
    var s := Sorting.SortDesc(Counts(Filtered(text)), CountKey);
    Sorting.SortDescStable(Counts(Filtered(text)), CountKey, c);
    Sorting.WithKeyPrefix(Analyze(text).frequencies, s, CountKey, c);
  }

  /** A word of ws left out of most_common(50) occurs no more often than any kept word. */
  lemma MostCommonOmitted(ws: seq<string>, w: string, i: nat)
    requires w in ws
    requires w !in Keys(MostCommon(ws))
    requires i < |MostCommon(ws)|
    ensures multiset(ws)[w] <= MostCommon(ws)[i].1
  {
    var c := Counts(ws);
    var d := Seqs.Dedup(ws);
    var top := MostCommon(ws);
    Sorting.TopKFacts(c, CountKey, TopN);
    Seqs.DedupMembers(ws, w);
    var k :| 0 <= k < |d| && d[k] == w;
    var x := c[k];
    assert x == (w, multiset(ws)[w]);
    assert x !in top by {
      assert forall j :: 0 <= j < |top| ==> Keys(top)[j] == top[j].0;
    }
    assert x in c;
    assert multiset(top)[x] == 0 && multiset(c)[x] > 0;
    assert x in multiset(c) - multiset(top);
    assert top[i] in top;
  }

  /** A filtered word that did not make the top 50 occurs no more often than any kept word. */
  lemma OmittedNotMoreFrequent(text: string, w: string, i: nat)
    requires w in Filtered(text)
    requires w !in Keys(Analyze(text).frequencies)
    requires i < |Analyze(text).frequencies|
    ensures multiset(Filtered(text))[w] <= Analyze(text).frequencies[i].1
  {
    assert Analyze(text).frequencies == MostCommon(Filtered(text));
    MostCommonOmitted(Filtered(text), w, i);
  }

  /** Only the first 50 distinct words by count are kept, and none is lost below that. */
  lemma {:induction false} AllKeptWhenFew(text: string)
    requires |Seqs.Dedup(Filtered(text))| <= TopN
    ensures multiset(Analyze(text).frequencies) == multiset(Counts(Filtered(text)))
  {
    Sorting.SortDescPermutation(Counts(Filtered(text)), CountKey);
  }
}
