/** Contradiction detector.

    Three rules add findings to one list, which is then sorted by score (stable,
    highest first) and cut to five entries:
    - a phrase pattern `a.*b` matched in the lower-cased join of two sentences at most
      three apart (the first matching pattern only);
    - a negation mismatch between any two sentences sharing at least two words of four
      or more word characters;
    - a sentiment jump above 0.5 between adjacent temporal segments. */
module ContradictionDetection {

  import opened Text
  import opened Wrappers
  import Seqs
  import Sorting
  import Calibration
  import TemporalAnalysis

  const Window: nat := 3
  const MaxReported: nat := 5
  const MaxTopics: nat := 5
  const KeywordLength: nat := 4

  /** Each pattern `p0.*p1.*...` as its literal parts, with its description. */
  const Patterns: seq<(seq<string>, string)> := [
    (["não", "mas", "sim"], "negação seguida de afirmação"),
    (["nunca", "sempre"], "contradição temporal"),
    (["impossível", "possível"], "contradição de possibilidade"),
    (["certeza", "dúvida"], "contradição de certeza"),
    (["bom", "ruim"], "contradição de qualidade"),
    (["fácil", "difícil"], "contradição de dificuldade")
  ]

  const NegationWords: seq<string> := ["não", "nunca", "jamais"]

  const NegationKind: string := "negação conceitual"
  const ShiftKind: string := "mudança emocional extrema"
  const ShiftTopics: seq<string> := ["mudança emocional", "sentimento"]

  /** A finding's time: sentence index * 2.5 for text rules, the segment's "N%" for shifts. */
  datatype Stamp = Position(at: real) | Percent(percent: nat)

  datatype Contradiction = Contradiction(
    score: real,
    text1: string,
    text2: string,
    kind: string,
    topics: seq<string>,
    timestamp1: Stamp,
    timestamp2: Stamp)

  // ---------------------------------------------------------------------------
  // Regular-expression search for `p0.*p1.*...`

  predicate NoNewline(s: string) {
    forall k :: 0 <= k < |s| ==> s[k] != '\n'
  }

  /** The parts occur in t in order, each gap before a part free of newlines ('.' does
      not match a newline). */
  predicate FollowedBy(t: string, parts: seq<string>)
    decreases |parts|
  {
    parts == [] ||
    exists k | 0 <= k <= |t| - |parts[0]| ::
      NoNewline(t[..k]) && OccursAt(t, parts[0], k)
      && FollowedBy(t[k + |parts[0]|..], parts[1..])
  }

  /** re.search succeeds: the first part anywhere, then the others as above. */
  predicate ChainSearch(s: string, parts: seq<string>) {
    |parts| > 0 &&
    exists i | 0 <= i <= |s| - |parts[0]| ::
      OccursAt(s, parts[0], i) && FollowedBy(s[i + |parts[0]|..], parts[1..])
  }

  /** The index of the first pattern that matches, if any. */
  function FirstMatch(s: string, from: nat): (r: Option<nat>)
    requires from <= |Patterns|
    ensures r.Some? ==>
      (from <= r.value < |Patterns| && ChainSearch(s, Patterns[r.value].0)
       && forall m :: from <= m < r.value ==> !ChainSearch(s, Patterns[m].0))
    ensures r.None? ==> forall m :: from <= m < |Patterns| ==> !ChainSearch(s, Patterns[m].0)
    decreases |Patterns| - from
  {
    if from == |Patterns| then None
    else if ChainSearch(s, Patterns[from].0) then Some(from)
    else FirstMatch(s, from + 1)
  }

  // ---------------------------------------------------------------------------
  // Keywords

  /** re.findall(r'\b\w{4,}\b', s): the word-character runs of length at least 4. */
  function KeywordRuns(s: string): (r: seq<string>)
    ensures forall k :: 0 <= k < |r| ==> |r[k]| >= KeywordLength
  {
    LongRuns(WordRuns(s))
  }

  function LongRuns(runs: seq<string>): (r: seq<string>)
    ensures forall k :: 0 <= k < |r| ==> |r[k]| >= KeywordLength && r[k] in runs
  {
    if runs == [] then []
    else (if |runs[0]| >= KeywordLength then [runs[0]] else []) + LongRuns(runs[1..])
  }

  /** _extract_keywords: up to five distinct keywords of the lower-cased text. */
  function ExtractKeywords(s: string): seq<string> {
    Seqs.Take(Seqs.Dedup(KeywordRuns(Lower(s))), MaxTopics)
  }

  function KeywordSet(s: string): set<string> {
    set w | w in KeywordRuns(Lower(s))
  }

  /** The keywords two sentences share. */
  function CommonWords(s1: string, s2: string): set<string> {
    KeywordSet(s1) * KeywordSet(s2)
  }

  /** [x for x in xs if x in ys] */
  function KeepIn(xs: seq<string>, ys: set<string>): (r: seq<string>)
    ensures forall k :: 0 <= k < |r| ==> r[k] in xs && r[k] in ys
  {
    if xs == [] then []
    else (if xs[0] in ys then [xs[0]] else []) + KeepIn(xs[1..], ys)
  }

  /** list(common_words)[:5], listing the shared words in first-occurrence order. */
  function CommonTopics(s1: string, s2: string): seq<string> {
    Seqs.Take(KeepIn(Seqs.Dedup(KeywordRuns(Lower(s1))), KeywordSet(s2)), MaxTopics)
  }

  predicate HasNegation(s: string) {
    exists n :: n in NegationWords && Contains(Lower(s), n)
  }

  // ---------------------------------------------------------------------------
  // The rules, one sentence pair or segment pair at a time

  function Combined(s1: string, s2: string): string {
    Lower(s1) + " " + Lower(s2)
  }

  function Stamp2(i: nat): Stamp {
    Position(i as real * 2.5)
  }

  /** The phrase-pattern finding of sentences i < j: only within the window, and only
      for the first pattern that matches. */
  function PatternFinding(ss: seq<string>, i: nat, j: nat): seq<Contradiction>
    requires i < j < |ss|
  {
    var combined := Combined(ss[i], ss[j]);
    if j - i <= Window then
      match FirstMatch(combined, 0)
      case None => []
      case Some(k) =>
        [Contradiction(0.8 + |Tokens(combined)| as real * 0.01, Strip(ss[i]), Strip(ss[j]),
                       Patterns[k].1, ExtractKeywords(combined), Stamp2(i), Stamp2(j))]
    else []
  }

  /** The negation finding of sentences i < j, for any distance. */
  function NegationFinding(ss: seq<string>, i: nat, j: nat): seq<Contradiction>
    requires i < j < |ss|
  {
    var common := CommonWords(ss[i], ss[j]);
    if |common| >= 2 && HasNegation(ss[i]) != HasNegation(ss[j]) then
      [Contradiction(0.6 + |common| as real * 0.1, Strip(ss[i]), Strip(ss[j]),
                     NegationKind, CommonTopics(ss[i], ss[j]), Stamp2(i), Stamp2(j))]
    else []
  }

  /** The findings of sentences i < j, and none for any other index pair. */
  function PairFindings(ss: seq<string>, i: nat, j: nat): seq<Contradiction> {
    if i < j < |ss| then PatternFinding(ss, i, j) + NegationFinding(ss, i, j) else []
  }

  /** The sentence rules as a function of the index pair. */
  function PairRule(ss: seq<string>): (nat, nat) -> seq<Contradiction> {
    (i: nat, j: nat) => PairFindings(ss, i, j)
  }

  /** rule(i, i+1) + ... + rule(i, j-1): the inner loop's findings. */
  function RowUpTo<T>(rule: (nat, nat) -> seq<T>, i: nat, j: nat): seq<T>
    decreases j
  {
    if j <= i + 1 then [] else RowUpTo(rule, i, j - 1) + rule(i, j - 1)
  }

  /** The rows of first index 0 .. n-1, each running up to size: the outer loop's findings. */
  function PairsBefore<T>(rule: (nat, nat) -> seq<T>, n: nat, size: nat): seq<T> {
    if n == 0 then [] else PairsBefore(rule, n - 1, size) + RowUpTo(rule, n - 1, size)
  }

  function Abs(x: real): real {
    if x < 0.0 then -x else x
  }

  function SegmentLabel(s: TemporalAnalysis.Segment): string {
    "Segmento " + NatToString(s.number)
  }

  /** The sentiment-jump finding between segments i and i+1. */
  function ShiftFinding(segs: seq<TemporalAnalysis.Segment>, i: nat): seq<Contradiction>
    requires i + 1 < |segs|
  {
    var diff := Abs(segs[i].sentiment - segs[i + 1].sentiment);
    if diff > 0.5 then
      [Contradiction(0.4 + diff, SegmentLabel(segs[i]), SegmentLabel(segs[i + 1]), ShiftKind,
                     ShiftTopics, Percent(segs[i].timestampPercent),
                     Percent(segs[i + 1].timestampPercent))]
    else []
  }

  /** The jump findings between segments (0,1) .. (n-1,n). */
  function ShiftsUpTo(segs: seq<TemporalAnalysis.Segment>, n: nat): seq<Contradiction>
    requires n < |segs| || n == 0
  {
    if n == 0 then [] else ShiftsUpTo(segs, n - 1) + ShiftFinding(segs, n - 1)
  }

  function AllShifts(segs: seq<TemporalAnalysis.Segment>): seq<Contradiction> {
    if |segs| > 1 then ShiftsUpTo(segs, |segs| - 1) else []
  }

  // ---------------------------------------------------------------------------
  // The loops

  /** The nested sentence loops, visiting every pair i < j in order. */
  method CollectPairs<T>(rule: (nat, nat) -> seq<T>, size: nat) returns (found: seq<T>)
    ensures found == PairsBefore(rule, size, size)
  {
    found := [];
    var i := 0;
    while i < size
      invariant 0 <= i <= size
      invariant found == PairsBefore(rule, i, size)
    {
      var j := i + 1;
      while j < size
        invariant i + 1 <= j <= size
        invariant found == PairsBefore(rule, i, size) + RowUpTo(rule, i, j)
      {
        found := found + rule(i, j);
        j := j + 1;
      }
      i := i + 1;
    }
  }

  /** The segment loop. */
  method ShiftRule(segs: seq<TemporalAnalysis.Segment>) returns (found: seq<Contradiction>)
    ensures found == AllShifts(segs)
  {
    found := [];
    if |segs| > 1 {
      var i := 0;
      while i < |segs| - 1
        invariant 0 <= i <= |segs| - 1
        invariant found == ShiftsUpTo(segs, i)
      {
        found := found + ShiftFinding(segs, i);
        i := i + 1;
      }
    }
  }

  // ---------------------------------------------------------------------------
  // The analyzer

  datatype Result = Result(
    contradictions: seq<Contradiction>,
    totalFound: nat,
    sentencesAnalyzed: nat,
    calibration: Calibration.Params)

  function Score(c: Contradiction): real {
    c.score
  }

  /** [s.strip() for s in re.split(r'[.!?]+', text) if s.strip()] */
  function SentencesOf(text: string): seq<string> {
    NonBlankStripped(SplitSentences(text))
  }

  function SegmentsFor(text: string, temporal: Option<seq<TemporalAnalysis.Segment>>): seq<TemporalAnalysis.Segment> {
    match temporal
    case Some(segs) => segs
    case None => TemporalAnalysis.Temporal(text).segments
  }

  /** Every finding, in discovery order. */
  function Findings(text: string, temporal: Option<seq<TemporalAnalysis.Segment>>): seq<Contradiction> {
    var ss := SentencesOf(text);
    PairsBefore(PairRule(ss), |ss|, |ss|) + AllShifts(SegmentsFor(text, temporal))
  }

  function Ranked(text: string, temporal: Option<seq<TemporalAnalysis.Segment>>): seq<Contradiction> {
    Sorting.SortDesc(Findings(text, temporal), Score)
  }

  function Detect(text: string, temporal: Option<seq<TemporalAnalysis.Segment>>): Result {
    var found := Findings(text, temporal);
    Result(Seqs.Take(Ranked(text, temporal), MaxReported), |found|, |SentencesOf(text)|,
           Calibration.ParamsFor(|text|))
  }

  method Analyze(text: string, temporal: Option<seq<TemporalAnalysis.Segment>>) returns (r: Result)
    ensures r == Detect(text, temporal)
  {
    var segs := SegmentsFor(text, temporal);
    var ss := SentencesOf(text);
    var contradictions := CollectPairs(PairRule(ss), |ss|);
    var shifts := ShiftRule(segs);
    contradictions := contradictions + shifts;
    contradictions := Sorting.SortDesc(contradictions, Score);
    r := Result(Seqs.Take(contradictions, MaxReported), |contradictions|, |ss|,
                Calibration.ParamsFor(|text|));
  }

  // ---------------------------------------------------------------------------
  // Properties

  /** A row holds exactly the findings of its pairs. */
  lemma {:induction false} RowMembers<T>(rule: (nat, nat) -> seq<T>, i: nat, j: nat, e: T)
    ensures e in RowUpTo(rule, i, j) <==> exists m :: i < m < j && e in rule(i, m)
    decreases j
  {
    if j > i + 1 {
      RowMembers(rule, i, j - 1, e);
    }
  }

  /** The loops collect exactly the findings of the pairs i < j < size. */
  lemma {:induction false} PairsMembers<T>(rule: (nat, nat) -> seq<T>, n: nat, size: nat, e: T)
    ensures e in PairsBefore(rule, n, size) <==>
      exists i, j :: 0 <= i < n && i < j < size && e in rule(i, j)
  {
    if n > 0 {
      PairsMembers(rule, n - 1, size, e);
      RowMembers(rule, n - 1, size, e);
    }
  }

  /** At most one pattern finding per pair: within the window, for the first matching
      pattern, scored 0.8 + 0.01 per token of the joined pair. */
  lemma PatternFindingFacts(ss: seq<string>, i: nat, j: nat)
    requires i < j < |ss|
    ensures var f := PatternFinding(ss, i, j);
      var combined := Combined(ss[i], ss[j]);
      && |f| <= 1
      && (|f| == 1 <==> j - i <= Window && exists k :: 0 <= k < |Patterns| && ChainSearch(combined, Patterns[k].0))
      && (|f| == 1 ==> exists k :: (0 <= k < |Patterns|
            && ChainSearch(combined, Patterns[k].0)
            && (forall m :: 0 <= m < k ==> !ChainSearch(combined, Patterns[m].0))
            && f[0].kind == Patterns[k].1
            && f[0].score == 0.8 + |Tokens(combined)| as real * 0.01
            && f[0].timestamp1 == Position(i as real * 2.5)
            && f[0].timestamp2 == Position(j as real * 2.5)))
  {
  }

  /** A negation finding needs two shared keywords and exactly one negated sentence, and
      is scored 0.6 + 0.1 per shared keyword; its topics are at most five shared words. */
  lemma NegationFindingFacts(ss: seq<string>, i: nat, j: nat)
    requires i < j < |ss|
    ensures var f := NegationFinding(ss, i, j);
      var common := CommonWords(ss[i], ss[j]);
      && |f| <= 1
      && (|f| == 1 <==> |common| >= 2 && HasNegation(ss[i]) != HasNegation(ss[j]))
      && (|f| == 1 ==>
            && f[0].kind == NegationKind
            && f[0].score == 0.6 + |common| as real * 0.1
            && |f[0].topics| <= MaxTopics
            && (forall w :: w in f[0].topics ==> w in common))
  {
    var common := CommonWords(ss[i], ss[j]);
    var xs := KeepIn(Seqs.Dedup(KeywordRuns(Lower(ss[i]))), KeywordSet(ss[j]));
    forall w | w in CommonTopics(ss[i], ss[j]) ensures w in common {
      var k :| 0 <= k < |CommonTopics(ss[i], ss[j])| && CommonTopics(ss[i], ss[j])[k] == w;
      assert w in xs;
      var m :| 0 <= m < |xs| && xs[m] == w;
      Seqs.DedupMembers(KeywordRuns(Lower(ss[i])), w);
    }
  }

  /** Every pattern finding comes from two sentences at most three apart. */
  lemma PatternEntriesAreClose(text: string, temporal: Option<seq<TemporalAnalysis.Segment>>, e: Contradiction)
    requires e in PairsBefore(PairRule(SentencesOf(text)), |SentencesOf(text)|, |SentencesOf(text)|)
    requires e.kind != NegationKind
    ensures exists i, j :: (0 <= i < j < |SentencesOf(text)| && j - i <= Window
      && PatternFinding(SentencesOf(text), i, j) == [e])
  {
    var ss := SentencesOf(text);
    PairsMembers(PairRule(ss), |ss|, |ss|, e);
    var i, j :| 0 <= i < |ss| && i < j < |ss| && e in PairRule(ss)(i, j);
    assert e in PairFindings(ss, i, j);
    assert e in PatternFinding(ss, i, j);
  }

  /** A shift finding exists exactly for a jump above 0.5, scored 0.4 plus the jump. */
  lemma {:induction false} ShiftMembers(segs: seq<TemporalAnalysis.Segment>, n: nat, e: Contradiction)
    requires n < |segs| || n == 0
    ensures e in ShiftsUpTo(segs, n) <==> exists i :: 0 <= i < n && e in ShiftFinding(segs, i)
  {
    if n > 0 {
      ShiftMembers(segs, n - 1, e);
      var before := ShiftsUpTo(segs, n - 1);
      var last := ShiftFinding(segs, n - 1);
      assert ShiftsUpTo(segs, n) == before + last;
      if e in last {
        assert 0 <= n - 1 < n && e in ShiftFinding(segs, n - 1);
      }
      if exists i :: 0 <= i < n && e in ShiftFinding(segs, i) {
        var i :| 0 <= i < n && e in ShiftFinding(segs, i);
        assert i < n - 1 ==> e in before;
      }
    }
  }

  lemma ShiftFindingFacts(segs: seq<TemporalAnalysis.Segment>, i: nat)
    requires i + 1 < |segs|
    ensures var f := ShiftFinding(segs, i);
      var diff := Abs(segs[i].sentiment - segs[i + 1].sentiment);
      && (|f| == 1 <==> diff > 0.5)
      && (|f| == 0 <==> diff <= 0.5)
      && (|f| == 1 ==> f[0].score == 0.4 + diff && f[0].kind == ShiftKind && f[0].score > 0.9)
  {
  }

  /** The reported findings are the five best, or all of them when there are fewer. */
  lemma ReportSelection(text: string, temporal: Option<seq<TemporalAnalysis.Segment>>)
    ensures var r := Detect(text, temporal);
      var found := Findings(text, temporal);
      && |r.contradictions| == (if |found| < MaxReported then |found| else MaxReported)
      && multiset(r.contradictions) <= multiset(found)
      && (forall x, y :: x in multiset(found) - multiset(r.contradictions) && y in r.contradictions ==>
            Score(x) <= Score(y))
  {
    var found := Findings(text, temporal);
    assert Detect(text, temporal).contradictions == Sorting.TopK(found, Score, MaxReported);
    Sorting.TopKFacts(found, Score, MaxReported);
  }

  /** The report: the five best findings (all of them when there are fewer), highest score
      first, equal scores in discovery order, none left out scoring above one reported, and
      the total counted before the cut; no finding means an empty report. */
  lemma ReportFacts(text: string, temporal: Option<seq<TemporalAnalysis.Segment>>, c: real)
    ensures var r := Detect(text, temporal);
      var found := Findings(text, temporal);
      && |r.contradictions| == (if |found| < MaxReported then |found| else MaxReported)
      && multiset(r.contradictions) <= multiset(found)
      && (forall x, y :: x in multiset(found) - multiset(r.contradictions) && y in r.contradictions ==>
            Score(x) <= Score(y))
      && r.totalFound == |found|
      && (|found| <= MaxReported ==> multiset(r.contradictions) == multiset(found))
      && (forall i, j :: 0 <= i < j < |r.contradictions| ==>
            r.contradictions[i].score >= r.contradictions[j].score)
      && Sorting.WithKey(r.contradictions, Score, c) <= Sorting.WithKey(found, Score, c)
      && (found == [] ==> r.contradictions == [])
      && r.sentencesAnalyzed == |SentencesOf(text)|
  {
    var found := Findings(text, temporal);
    var s := Ranked(text, temporal);
    var r := Detect(text, temporal);
    Sorting.SortDescSorted(found, Score);
    Sorting.SortDescPermutation(found, Score);
    Sorting.SortDescStable(found, Score, c);
    Sorting.WithKeyPrefix(r.contradictions, s, Score, c);
    ReportSelection(text, temporal);
    forall i, j | 0 <= i < j < |r.contradictions|
      ensures r.contradictions[i].score >= r.contradictions[j].score
    {
      assert r.contradictions[i] == s[i] && r.contradictions[j] == s[j];
      assert Score(s[i]) >= Score(s[j]);
    }
  }

  /** The sentences compared are the non-blank stripped fragments. */
  lemma SentencesStripped(text: string)
    ensures forall k :: 0 <= k < |SentencesOf(text)| ==> IsStripped(SentencesOf(text)[k])
    ensures |SentencesOf(text)| <= |SplitSentences(text)|
  {
  }

  /** A match of a pattern needs every one of its parts in the text. */
  lemma {:induction false} FollowedByContains(t: string, parts: seq<string>, p: string)
    requires FollowedBy(t, parts) && p in parts
    ensures exists i :: OccursAt(t, p, i)
    decreases |parts|
  {
    var k :| 0 <= k <= |t| - |parts[0]| && NoNewline(t[..k]) && OccursAt(t, parts[0], k)
      && FollowedBy(t[k + |parts[0]|..], parts[1..]);
    if p == parts[0] {
      assert OccursAt(t, p, k);
    } else {
      var off := k + |parts[0]|;
      var rest := t[off..];
      assert p in parts[1..] by {
        assert parts == [parts[0]] + parts[1..];
      }
      FollowedByContains(rest, parts[1..], p);
      var i :| OccursAt(rest, p, i);
      assert rest[i..i + |p|] == t[off + i..off + i + |p|];
      assert OccursAt(t, p, off + i);
    }
  }

  lemma ChainSearchContains(s: string, parts: seq<string>, p: string)
    requires ChainSearch(s, parts) && p in parts
    ensures Contains(s, p)
  {
    var i :| 0 <= i <= |s| - |parts[0]| && OccursAt(s, parts[0], i)
      && FollowedBy(s[i + |parts[0]|..], parts[1..]);
    ContainsAt(s, p);
    if p == parts[0] {
      assert OccursAt(s, p, i);
    } else {
      var off := i + |parts[0]|;
      var rest := s[off..];
      FollowedByContains(rest, parts[1..], p);
      var m :| OccursAt(rest, p, m);
      assert rest[m..m + |p|] == s[off + m..off + m + |p|];
      assert OccursAt(s, p, off + m);
    }
  }
}
