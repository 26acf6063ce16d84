/** TemporalAnalysisAnalyzer.analyze: cut the text into paragraphs at blank lines, fall
    back to grouping sentences when the text is one long paragraph, downsample to the
    calibrated number of segments, and score every segment (lexicon sentiment, share of
    long words, hesitation markers, word count).

    Each step is specified by a function and implemented by a method with the loop of the
    original; Temporal(text) is the whole record, and Analyze computes it. */
module TemporalAnalysis {
  import opened Text
  import Seqs
  import Calibration

  const PositiveTerms: seq<string> := ["bom", "ótimo", "excelente", "feliz", "satisfeito",
    "gosto", "adoro", "maravilh", "incrível", "positiv", "melhor", "sucesso", "consegui",
    "aprendi", "entendi", "legal", "bacana", "top"]

  const NegativeTerms: seq<string> := ["ruim", "péssimo", "triste", "difícil", "problema",
    "erro", "não", "nunca", "medo", "preocup", "frustr", "chato", "cansado", "complicado",
    "confuso", "dúvida"]

  const HesitationMarkers: seq<string> := ["hmm", "ahh", "então", "né", "tipo", "assim"]

  /** A sentence block is closed before it would grow past this many characters. */
  const BlockLimit: nat := 800

  /** Only a single paragraph longer than this is regrouped by sentences. */
  const RunOnLimit: nat := 1000

  /** Words longer than this count towards the cognitive load. */
  const LongWordLength: nat := 7

  // ---------------------------------------------------------------- paragraphs

  /** The blocks of consecutive non-blank stripped lines; `cur` is the open block. */
  function BlocksFrom(lines: seq<string>, cur: seq<string>): seq<seq<string>>
    decreases |lines|
  {
    if lines == [] then (if cur == [] then [] else [cur])
    else
      var l := Strip(lines[0]);
      if l != [] then BlocksFrom(lines[1..], cur + [l])
      else if cur != [] then [cur] + BlocksFrom(lines[1..], [])
      else BlocksFrom(lines[1..], [])
  }

  /** strip() of each block's accumulated text. */
  function BlockTexts(blocks: seq<seq<string>>, sep: string): (r: seq<string>)
    ensures |r| == |blocks|
    ensures forall k :: 0 <= k < |blocks| ==> r[k] == Strip(Terminated(blocks[k], sep))
  {
    if blocks == [] then []
    else BlockTexts(blocks[..|blocks| - 1], sep) + [Strip(Terminated(blocks[|blocks| - 1], sep))]
  }

  function Lines(text: string): seq<string> {
    SplitOn(text, '\n')
  }

  /** The paragraphs of the blank-line split. */
  function LineParagraphs(text: string): seq<string> {
    BlockTexts(BlocksFrom(Lines(text), []), " ")
  }

  /** Every non-blank stripped line lands in exactly one block, in order. */
  lemma {:induction false} BlocksPartitionLines(lines: seq<string>, cur: seq<string>)
    ensures Seqs.Flatten(BlocksFrom(lines, cur)) == cur + NonBlankStripped(lines)
    decreases |lines|
  {
    if lines == [] {
      assert cur + [] == cur;
    } else {
      var l := Strip(lines[0]);
      var rest := NonBlankStripped(lines[1..]);
      if l != [] {
        assert NonBlankStripped(lines) == [l] + rest;
        BlocksPartitionLines(lines[1..], cur + [l]);
        assert cur + [l] + rest == cur + ([l] + rest);
      } else {
        assert NonBlankStripped(lines) == rest;
        BlocksPartitionLines(lines[1..], []);
        if cur != [] {
          FlattenCons(cur, BlocksFrom(lines[1..], []));
        }
      }
    }
  }

  lemma FlattenCons(b: seq<string>, bs: seq<seq<string>>)
    ensures Seqs.Flatten([b] + bs) == b + Seqs.Flatten(bs)
  {
    assert ([b] + bs)[1..] == bs;
  }

  /** Blocks are non-empty and hold only stripped lines. */
  lemma {:induction false} BlocksOfStripped(lines: seq<string>, cur: seq<string>, k: nat)
    requires forall i :: 0 <= i < |cur| ==> IsStripped(cur[i])
    requires k < |BlocksFrom(lines, cur)|
    ensures var b := BlocksFrom(lines, cur)[k];
      b != [] && forall i :: 0 <= i < |b| ==> IsStripped(b[i])
    decreases |lines|
  {
    if lines != [] {
      var l := Strip(lines[0]);
      StripSpec(lines[0]);
      if l != [] {
        BlocksOfStripped(lines[1..], cur + [l], k);
      } else if cur != [] {
        if k > 0 { BlocksOfStripped(lines[1..], [], k - 1); }
      } else {
        BlocksOfStripped(lines[1..], [], k);
      }
    }
  }

  /** Each blank-line paragraph is non-empty, unpadded, and the " "-join of its block. */
  lemma ParagraphsAreJoinedBlocks(text: string, k: nat)
    requires k < |LineParagraphs(text)|
    ensures var b := BlocksFrom(Lines(text), [])[k];
      && LineParagraphs(text)[k] == JoinWith(b, " ")
      && IsStripped(LineParagraphs(text)[k])
      && b != []
  {
    var bs := BlocksFrom(Lines(text), []);
    BlocksOfStripped(Lines(text), [], k);
    StripSpaceTerminated(bs[k]);
    JoinEnds(bs[k], " ");
  }

  lemma BlocksStep(lines: seq<string>, i: nat, cur: seq<string>)
    requires i < |lines|
    ensures var l := Strip(lines[i]);
      BlocksFrom(lines[i..], cur)
      == if l != [] then BlocksFrom(lines[i + 1..], cur + [l])
         else if cur != [] then [cur] + BlocksFrom(lines[i + 1..], [])
         else BlocksFrom(lines[i + 1..], [])
  {
    assert lines[i..][1..] == lines[i + 1..];
  }

  /** One line moves the blocks read so far and the open block forward. */
  lemma BlocksAdvance(lines: seq<string>, i: nat, blocks: seq<seq<string>>, cur: seq<string>)
    requires i < |lines|
    requires blocks + BlocksFrom(lines[i..], cur) == BlocksFrom(lines, [])
    ensures var l := Strip(lines[i]);
      if l != [] then blocks + BlocksFrom(lines[i + 1..], cur + [l]) == BlocksFrom(lines, [])
      else if cur != [] then (blocks + [cur]) + BlocksFrom(lines[i + 1..], []) == BlocksFrom(lines, [])
      else blocks + BlocksFrom(lines[i + 1..], cur) == BlocksFrom(lines, [])
  {
    BlocksStep(lines, i, cur);
    var rest := BlocksFrom(lines[i + 1..], []);
    assert blocks + [cur] + rest == blocks + ([cur] + rest);
  }

  lemma BlockTextsSnoc(bs: seq<seq<string>>, b: seq<string>, sep: string)
    ensures BlockTexts(bs + [b], sep) == BlockTexts(bs, sep) + [Strip(Terminated(b, sep))]
  {
    assert (bs + [b])[..|bs|] == bs;
  }

  method SplitParagraphs(text: string) returns (paragraphs: seq<string>)
    ensures paragraphs == LineParagraphs(text)
  {
    paragraphs := ParagraphsOfLines(Lines(text));
  }

  /** The loop over text.split('\n') that accumulates the open block in a string. */
  method ParagraphsOfLines(lines: seq<string>) returns (paragraphs: seq<string>)
    ensures paragraphs == BlockTexts(BlocksFrom(lines, []), " ")
  {
    paragraphs := [];
    var current := "";
    ghost var blocks: seq<seq<string>> := [];
    ghost var cur: seq<string> := [];
    var i := 0;
    assert lines[i..] == lines;
    assert blocks + BlocksFrom(lines[i..], cur) == BlocksFrom(lines, []);
    while i < |lines|
      invariant 0 <= i <= |lines|
      invariant blocks + BlocksFrom(lines[i..], cur) == BlocksFrom(lines, [])
      invariant paragraphs == BlockTexts(blocks, " ")
      invariant current == Terminated(cur, " ")
    {
      BlocksAdvance(lines, i, blocks, cur);
      var line := Strip(lines[i]);
      if line != [] {
        TerminatedSnoc(cur, line, " ");
        current := current + line + " ";
        cur := cur + [line];
      } else if current != [] {
        BlockTextsSnoc(blocks, cur, " ");
        paragraphs := paragraphs + [Strip(current)];
        blocks := blocks + [cur];
        current := "";
        cur := [];
      }
      i := i + 1;
    }
    assert lines[i..] == [];
    if current != [] {
      BlockTextsSnoc(blocks, cur, " ");
      paragraphs := paragraphs + [Strip(current)];
      blocks := blocks + [cur];
    } else {
      assert blocks + [] == blocks;
    }
  }

  // ---------------------------------------------------------------- sentence groups

  /** The sentences of a run-on paragraph: the stripped, non-blank [.!?]+ fragments. */
  function Sentences(paragraph: string): seq<string> {
    NonBlankStripped(SplitSentences(paragraph))
  }

  /** Sentence groups; `cur` is the open group. A sentence opens a new group exactly when
      the open group is non-empty and its text plus the sentence would pass BlockLimit. */
  function GroupsFrom(ss: seq<string>, cur: seq<string>): seq<seq<string>>
    decreases |ss|
  {
    if ss == [] then (if cur == [] then [] else [cur])
    else if |Terminated(cur, ". ")| + |ss[0]| > BlockLimit && cur != [] then
      [cur] + GroupsFrom(ss[1..], [ss[0]])
    else GroupsFrom(ss[1..], cur + [ss[0]])
  }

  /** A group in which no sentence took the text past BlockLimit when it was appended. */
  predicate WithinLimit(g: seq<string>) {
    forall j :: 0 < j < |g| ==> |Terminated(g[..j], ". ")| + |g[j]| <= BlockLimit
  }

  /** Every sentence lands in exactly one group, in order, and no group is empty. */
  lemma {:induction false} GroupsPartition(ss: seq<string>, cur: seq<string>)
    ensures var gs := GroupsFrom(ss, cur);
      Seqs.Flatten(gs) == cur + ss && forall g :: g in gs ==> g != []
    decreases |ss|
  {
    if ss == [] {
      assert cur + [] == cur;
    } else if |Terminated(cur, ". ")| + |ss[0]| > BlockLimit && cur != [] {
      GroupsPartition(ss[1..], [ss[0]]);
      assert [ss[0]] + ss[1..] == ss;
    } else {
      GroupsPartition(ss[1..], cur + [ss[0]]);
      assert cur + [ss[0]] + ss[1..] == cur + ss;
    }
  }

  /** The open group is the beginning of the first group. */
  lemma {:induction false} GroupsFirst(ss: seq<string>, cur: seq<string>)
    requires cur != []
    ensures var gs := GroupsFrom(ss, cur); |gs| > 0 && cur <= gs[0]
    decreases |ss|
  {
    if ss != [] && !(|Terminated(cur, ". ")| + |ss[0]| > BlockLimit) {
      GroupsFirst(ss[1..], cur + [ss[0]]);
    }
  }

  /** Inside a group, no appended sentence passed the limit. */
  lemma {:induction false} GroupsWithinLimit(ss: seq<string>, cur: seq<string>)
    requires WithinLimit(cur)
    ensures forall g :: g in GroupsFrom(ss, cur) ==> WithinLimit(g)
    decreases |ss|
  {
    if ss == [] {
    } else if |Terminated(cur, ". ")| + |ss[0]| > BlockLimit && cur != [] {
      GroupsWithinLimit(ss[1..], [ss[0]]);
    } else {
      var next := cur + [ss[0]];
      forall j | 0 < j < |next|
        ensures |Terminated(next[..j], ". ")| + |next[j]| <= BlockLimit
      {
        if j < |cur| {
          assert next[..j] == cur[..j];
        } else {
          assert next[..j] == cur;
        }
      }
      GroupsWithinLimit(ss[1..], next);
    }
  }

  /** Between two consecutive groups, the next sentence would have passed the limit. */
  lemma {:induction false} GroupsBoundary(ss: seq<string>, cur: seq<string>, k: nat)
    requires k + 1 < |GroupsFrom(ss, cur)|
    ensures var gs := GroupsFrom(ss, cur);
      gs[k + 1] != [] && |Terminated(gs[k], ". ")| + |gs[k + 1][0]| > BlockLimit
    decreases |ss|
  {
    var gs := GroupsFrom(ss, cur);
    if ss == [] {
    } else if |Terminated(cur, ". ")| + |ss[0]| > BlockLimit && cur != [] {
      var rest := GroupsFrom(ss[1..], [ss[0]]);
      if k == 0 {
        GroupsFirst(ss[1..], [ss[0]]);
        assert gs[1] == rest[0];
      } else {
        GroupsBoundary(ss[1..], [ss[0]], k - 1);
      }
    } else {
      GroupsBoundary(ss[1..], cur + [ss[0]], k);
    }
  }

  /** The paragraphs of the sentence grouping. */
  function SentenceParagraphs(paragraph: string): seq<string> {
    BlockTexts(GroupsFrom(Sentences(paragraph), []), ". ")
  }

  /** Each sentence-group paragraph is its sentences joined by ". " with a final full stop. */
  lemma SentenceParagraphText(paragraph: string, k: nat)
    requires k < |SentenceParagraphs(paragraph)|
    ensures var g := GroupsFrom(Sentences(paragraph), [])[k];
      g != [] && SentenceParagraphs(paragraph)[k] == JoinWith(g, ". ") + "."
  {
    var ss := Sentences(paragraph);
    var gs := GroupsFrom(ss, []);
    GroupsPartition(ss, []);
    assert gs[k] in gs;
    forall i | 0 <= i < |gs[k]| ensures IsStripped(gs[k][i]) {
      FlattenMember(gs, k, i);
    }
    StripDotTerminated(gs[k]);
  }

  lemma {:induction false} FlattenMember(gs: seq<seq<string>>, k: nat, i: nat)
    requires k < |gs| && i < |gs[k]|
    ensures gs[k][i] in Seqs.Flatten(gs)
  {
    if k > 0 {
      FlattenMember(gs[1..], k - 1, i);
    }
  }

  method GroupSentences(sentences: seq<string>) returns (paragraphs: seq<string>)
    ensures paragraphs == BlockTexts(GroupsFrom(sentences, []), ". ")
  {
    paragraphs := [];
    var current := "";
    ghost var groups: seq<seq<string>> := [];
    ghost var cur: seq<string> := [];
    var i := 0;
    while i < |sentences|
      invariant 0 <= i <= |sentences|
      invariant groups + GroupsFrom(sentences[i..], cur) == GroupsFrom(sentences, [])
      invariant paragraphs == BlockTexts(groups, ". ")
      invariant current == Terminated(cur, ". ")
    {
      assert sentences[i..][1..] == sentences[i + 1..];
      var sentence := sentences[i];
      if |current + sentence| > BlockLimit {
        if current != [] {
          paragraphs := paragraphs + [Strip(current)];
          groups := groups + [cur];
          TerminatedSnoc([], sentence, ". ");
          current := sentence + ". ";
          cur := [sentence];
        } else {
          TerminatedSnoc(cur, sentence, ". ");
          current := current + sentence + ". ";
          cur := cur + [sentence];
        }
      } else {
        TerminatedSnoc(cur, sentence, ". ");
        current := current + sentence + ". ";
        cur := cur + [sentence];
      }
      i := i + 1;
    }
    assert sentences[i..] == [];
    if current != [] {
      paragraphs := paragraphs + [Strip(current)];
      groups := groups + [cur];
    }
    assert groups == GroupsFrom(sentences, []);
  }

  // ---------------------------------------------------------------- downsampling

  /** With more paragraphs than maxSegments, segment k joins the paragraphs
      [k * step, k * step + step) with step = n / maxSegments; only maxSegments are kept. */
  function Downsampled(paragraphs: seq<string>, maxSegments: nat): (r: seq<string>)
    requires maxSegments > 0
  {
    var n := |paragraphs|;
    if n > maxSegments then
      var step := n / maxSegments;
      seq(maxSegments, k requires 0 <= k < maxSegments => SegmentOf(paragraphs, step, k))
    else paragraphs
  }

  /** ' '.join(paragraphs[k * step:k * step + step]) */
  function SegmentOf(paragraphs: seq<string>, step: nat, k: nat): string {
    JoinWith(Seqs.Slice(paragraphs, k * step, k * step + step), " ")
  }

  lemma MulMono(a: nat, b: nat, c: nat)
    requires a <= b
    ensures a * c <= b * c
  {
  }

  lemma MulSucc(a: nat, b: nat)
    ensures (a + 1) * b == a * b + b
  {
  }

  /** When t steps reach past maxSegments steps, there are at least maxSegments of them. */
  lemma MulCancel(a: nat, b: nat, c: nat)
    requires c >= 1 && a * c <= b * c
    ensures a <= b
  {
  }

  lemma StepFacts(n: nat, m: nat)
    requires 0 < m < n
    ensures n / m >= 1 && m * (n / m) <= n
  {
  }

  /** Downsampling keeps exactly maxSegments segments, each joining step whole paragraphs;
      the paragraphs from maxSegments * step on are dropped. */
  lemma DownsampledSlices(paragraphs: seq<string>, maxSegments: nat, k: nat)
    requires 0 < maxSegments < |paragraphs|
    requires k < maxSegments
    ensures var step := |paragraphs| / maxSegments;
      && step >= 1
      && |Downsampled(paragraphs, maxSegments)| == maxSegments
      && maxSegments * step <= |paragraphs|
      && k * step + step <= |paragraphs|
      && Downsampled(paragraphs, maxSegments)[k]
         == JoinWith(paragraphs[k * step..k * step + step], " ")
  {
    var n := |paragraphs|;
    var step := n / maxSegments;
    StepFacts(n, maxSegments);
    MulMono(k + 1, maxSegments, step);
    MulSucc(k, step);
    assert Downsampled(paragraphs, maxSegments)[k] == SegmentOf(paragraphs, step, k);
  }

  method Downsample(paragraphs: seq<string>, maxSegments: nat) returns (r: seq<string>)
    requires maxSegments > 0
    ensures r == Downsampled(paragraphs, maxSegments)
  {
    var n := |paragraphs|;
    if n > maxSegments {
      var step := n / maxSegments;
      StepFacts(n, maxSegments);
      var temp: seq<string> := [];
      var i := 0;
      while i < n
        invariant i == |temp| * step
        invariant forall k :: 0 <= k < |temp| ==> temp[k] == SegmentOf(paragraphs, step, k)
        decreases n - i
      {
        MulSucc(|temp|, step);
        temp := temp + [JoinWith(Seqs.Slice(paragraphs, i, i + step), " ")];
        i := i + step;
      }
      MulCancel(maxSegments, |temp|, step);
      r := Seqs.Take(temp, maxSegments);
      assert forall k :: 0 <= k < maxSegments ==> r[k] == temp[k];
    } else {
      r := paragraphs;
    }
  }

  // ---------------------------------------------------------------- scoring

  /** A blank paragraph has no token, so it cannot contain a lexicon term. */
  lemma {:induction false} BlankHasNoTerms(p: string, terms: seq<string>)
    requires Tokens(p) == []
    requires forall t :: t in terms ==> |t| > 0 && ('a' <= t[0] <= 'z' || 0xC0 <= t[0] as int <= 0xFF)
    ensures TermsPresent(Lower(p), terms) == 0
  {
    if terms != [] {
      LetterNotSpace(terms[0][0]);
      BlankHasNoWord(p, terms[0]);
      BlankHasNoTerms(p, terms[1..]);
    }
  }

  /** Every lexicon term starts with a letter. */
  lemma PositiveShape()
    ensures forall t :: t in PositiveTerms ==> |t| > 0 && ('a' <= t[0] <= 'z' || 0xC0 <= t[0] as int <= 0xFF)
  {
  }

  lemma NegativeShape()
    ensures forall t :: t in NegativeTerms ==> |t| > 0 && 'a' <= t[0] <= 'z'
  {
  }

  lemma HitNeedsToken(p: string)
    ensures TermsPresent(Lower(p), PositiveTerms) + TermsPresent(Lower(p), NegativeTerms) > 0
      ==> |Tokens(p)| > 0
  {
    if Tokens(p) == [] {
      PositiveShape();
      NegativeShape();
      BlankHasNoTerms(p, PositiveTerms);
      BlankHasNoTerms(p, NegativeTerms);
    }
  }

  /** (positive - negative) / word count once any lexicon term occurs, 0.0 otherwise;
      no clamping. */
  function Sentiment(p: string): real {
    var lower := Lower(p);
    var pos := TermsPresent(lower, PositiveTerms);
    var neg := TermsPresent(lower, NegativeTerms);
    if pos + neg > 0 then
      HitNeedsToken(p);
      (pos as real - neg as real) / |Tokens(p)| as real
    else 0.0
  }

  function LongWords(words: seq<string>): (r: seq<string>)
    ensures |r| <= |words|
    ensures forall k :: 0 <= k < |r| ==> |r[k]| > LongWordLength
  {
    if words == [] then []
    else (if |words[0]| > LongWordLength then [words[0]] else []) + LongWords(words[1..])
  }

  /** The share of tokens longer than seven characters; 0 for no tokens. */
  function CognitiveLoad(p: string): (r: real)
    ensures 0.0 <= r <= 1.0
  {
    var words := Tokens(p);
    if |words| > 0 then |LongWords(words)| as real / |words| as real else 0.0
  }

  function Hesitations(p: string): nat {
    CountAll(Lower(p), HesitationMarkers)
  }

  datatype Segment = Segment(
    number: nat,
    timestampPercent: nat,
    sentiment: real,
    cognitiveLoad: real,
    hesitations: nat,
    wordCount: nat)

  /** The record of the paragraph at index i. */
  function ScoreSegment(p: string, i: nat, maxSegments: nat): Segment
    requires maxSegments > 0
  {
    Segment(i + 1, i * 100 / maxSegments, Sentiment(p), CognitiveLoad(p), Hesitations(p),
      |Tokens(p)|)
  }

  /** The records of the paragraphs from index `start`, skipping empty ones. */
  function ScoreFrom(paragraphs: seq<string>, maxSegments: nat, start: nat): seq<Segment>
    requires maxSegments > 0
  {
    if paragraphs == [] then []
    else
      (if paragraphs[0] == [] then [] else [ScoreSegment(paragraphs[0], start, maxSegments)])
      + ScoreFrom(paragraphs[1..], maxSegments, start + 1)
  }

  lemma ScoreStep(paragraphs: seq<string>, maxSegments: nat, i: nat)
    requires maxSegments > 0 && i < |paragraphs|
    ensures ScoreFrom(paragraphs[i..], maxSegments, i)
      == (if paragraphs[i] == [] then [] else [ScoreSegment(paragraphs[i], i, maxSegments)])
         + ScoreFrom(paragraphs[i + 1..], maxSegments, i + 1)
  {
    assert paragraphs[i..][1..] == paragraphs[i + 1..];
  }

  method ScoreSegments(paragraphs: seq<string>, maxSegments: nat) returns (data: seq<Segment>)
    requires maxSegments > 0
    ensures data == ScoreFrom(paragraphs, maxSegments, 0)
  {
    data := [];
    var i := 0;
    assert paragraphs[i..] == paragraphs;
    while i < |paragraphs|
      invariant 0 <= i <= |paragraphs|
      invariant data + ScoreFrom(paragraphs[i..], maxSegments, i) == ScoreFrom(paragraphs, maxSegments, 0)
    {
      ScoreStep(paragraphs, maxSegments, i);
      ghost var rest := ScoreFrom(paragraphs[i + 1..], maxSegments, i + 1);
      var paragraph := paragraphs[i];
      if paragraph == [] {
        assert data + rest == ScoreFrom(paragraphs, maxSegments, 0);
        i := i + 1;
        continue;
      }
      var seg := ScoreSegment(paragraph, i, maxSegments);
      assert data + [seg] + rest == data + ([seg] + rest);
      data := data + [seg];
      assert data + rest == ScoreFrom(paragraphs, maxSegments, 0);
      i := i + 1;
    }
    assert paragraphs[i..] == [];
    assert data + [] == data;
  }

  // ---------------------------------------------------------------- the whole analysis

  function MaxSegments(text: string): (m: nat)
    ensures m > 0
  {
    Calibration.ParamsFor(|text|).segments
  }

  /** The paragraphs before downsampling. */
  function Paragraphs(text: string): seq<string> {
    var ps := LineParagraphs(text);
    if |ps| == 1 && |ps[0]| > RunOnLimit then SentenceParagraphs(ps[0]) else ps
  }

  function SegmentTexts(text: string): seq<string> {
    Downsampled(Paragraphs(text), MaxSegments(text))
  }

  datatype Result = Result(totalSegments: nat, segments: seq<Segment>, calibration: Calibration.Params)

  function Temporal(text: string): Result {
    var segs := ScoreFrom(SegmentTexts(text), MaxSegments(text), 0);
    Result(|segs|, segs, Calibration.ParamsFor(|text|))
  }

  method Analyze(text: string) returns (r: Result)
    ensures r == Temporal(text)
  {
    var calibration := Calibration.ParamsFor(|text|);
    var maxSegments := calibration.segments;
    var paragraphs := SplitParagraphs(text);
    if |paragraphs| == 1 && |paragraphs[0]| > RunOnLimit {
      var sentences := Sentences(paragraphs[0]);
      paragraphs := GroupSentences(sentences);
    }
    paragraphs := Downsample(paragraphs, maxSegments);
    var data := ScoreSegments(paragraphs, maxSegments);
    r := Result(|data|, data, calibration);
  }

  // ---------------------------------------------------------------- properties

  /** The positive and negative counts of a segment are the numbers of distinct lexicon
      terms found in its lower-cased text. */
  lemma LexiconCountsArePresentTerms(p: string)
    ensures TermsPresent(Lower(p), PositiveTerms) == |PresentTerms(Lower(p), PositiveTerms)|
    ensures TermsPresent(Lower(p), NegativeTerms) == |PresentTerms(Lower(p), NegativeTerms)|
  {
    assert Seqs.Distinct(PositiveTerms);
    assert Seqs.Distinct(NegativeTerms);
    TermsPresentIsSetSize(Lower(p), PositiveTerms);
    TermsPresentIsSetSize(Lower(p), NegativeTerms);
  }

  lemma HesitationsPositiveIff(p: string)
    ensures Hesitations(p) > 0 <==> exists m :: m in HesitationMarkers && Contains(Lower(p), m)
  {
    CountAllPositiveIff(Lower(p), HesitationMarkers);
  }

  /** Without a lexicon hit the sentiment is 0; with one it is the difference of positive
      and negative terms over a non-zero word count. */
  lemma SentimentCases(p: string)
    ensures var lower := Lower(p);
      var pos := TermsPresent(lower, PositiveTerms);
      var neg := TermsPresent(lower, NegativeTerms);
      && (pos + neg == 0 ==> Sentiment(p) == 0.0)
      && (pos + neg > 0 ==>
            (|Tokens(p)| > 0 && Sentiment(p) == (pos as real - neg as real) / |Tokens(p)| as real))
  {
    HitNeedsToken(p);
  }

  /** The records of non-empty paragraphs are numbered from start + 1 with no gap. */
  lemma {:induction false} ScoreFromAll(paragraphs: seq<string>, maxSegments: nat, start: nat)
    requires maxSegments > 0
    requires forall k :: 0 <= k < |paragraphs| ==> paragraphs[k] != []
    ensures var r := ScoreFrom(paragraphs, maxSegments, start);
      && |r| == |paragraphs|
      && forall k :: 0 <= k < |r| ==> r[k] == ScoreSegment(paragraphs[k], start + k, maxSegments)
  {
    if paragraphs != [] {
      ScoreFromAll(paragraphs[1..], maxSegments, start + 1);
      var r := ScoreFrom(paragraphs, maxSegments, start);
      var rest := ScoreFrom(paragraphs[1..], maxSegments, start + 1);
      assert r == [ScoreSegment(paragraphs[0], start, maxSegments)] + rest;
      forall k | 0 < k < |r| ensures r[k] == ScoreSegment(paragraphs[k], start + k, maxSegments) {
        assert r[k] == rest[k - 1] && paragraphs[1..][k - 1] == paragraphs[k];
      }
    }
  }

  /** No paragraph of either split is empty. */
  lemma ParagraphsNonEmpty(text: string, k: nat)
    requires k < |Paragraphs(text)|
    ensures Paragraphs(text)[k] != []
  {
    var ps := LineParagraphs(text);
    if |ps| == 1 && |ps[0]| > RunOnLimit {
      SentenceParagraphText(ps[0], k);
    } else {
      ParagraphsAreJoinedBlocks(text, k);
    }
  }

  /** A downsampled entry is the join of a non-empty run of paragraphs. */
  lemma DownsampledEntry(paragraphs: seq<string>, maxSegments: nat, k: nat) returns (a: nat, b: nat)
    requires maxSegments > 0
    requires k < |Downsampled(paragraphs, maxSegments)|
    ensures a < b <= |paragraphs|
    ensures Downsampled(paragraphs, maxSegments)[k] == JoinWith(paragraphs[a..b], " ")
  {
    if |paragraphs| > maxSegments {
      var step := |paragraphs| / maxSegments;
      DownsampledSlices(paragraphs, maxSegments, k);
      MulMono(0, k, step);
      a, b := k * step, k * step + step;
    } else {
      a, b := k, k + 1;
      assert paragraphs[a..b] == [paragraphs[k]];
    }
  }

  lemma DownsampledNonEmpty(paragraphs: seq<string>, maxSegments: nat, k: nat)
    requires maxSegments > 0
    requires forall i :: 0 <= i < |paragraphs| ==> paragraphs[i] != []
    requires k < |Downsampled(paragraphs, maxSegments)|
    ensures Downsampled(paragraphs, maxSegments)[k] != []
  {
    var a, b := DownsampledEntry(paragraphs, maxSegments, k);
    JoinedSliceNonEmpty(paragraphs, a, b);
  }

  /** Joining a non-empty run of non-empty paragraphs gives a non-empty text. */
  lemma JoinedSliceNonEmpty(paragraphs: seq<string>, a: nat, b: nat)
    requires forall i :: 0 <= i < |paragraphs| ==> paragraphs[i] != []
    requires a < b <= |paragraphs|
    ensures JoinWith(paragraphs[a..b], " ") != []
  {
    var part := paragraphs[a..b];
    forall i | 0 <= i < |part| ensures |part[i]| > 0 {
      assert part[i] == paragraphs[a + i];
    }
    JoinEnds(part, " ");
  }

  /** The segment records: one per segment text, numbered 1..n with no gap, at most the
      calibrated number, each scored from its own text. */
  lemma TemporalSegments(text: string)
    ensures var r := Temporal(text);
      var texts := SegmentTexts(text);
      var m := MaxSegments(text);
      && r.totalSegments == |r.segments| == |texts| <= m
      && (|Paragraphs(text)| > m ==> |r.segments| == m)
      && forall k :: 0 <= k < |r.segments| ==>
           && r.segments[k] == ScoreSegment(texts[k], k, m)
           && r.segments[k].number == k + 1
           && r.segments[k].timestampPercent < 100
           && r.segments[k].wordCount == |Tokens(texts[k])|
           && 0.0 <= r.segments[k].cognitiveLoad <= 1.0
  {
    var ps := Paragraphs(text);
    var m := MaxSegments(text);
    var texts := SegmentTexts(text);
    forall i | 0 <= i < |ps| ensures ps[i] != [] {
      ParagraphsNonEmpty(text, i);
    }
    forall i | 0 <= i < |texts| ensures texts[i] != [] {
      DownsampledNonEmpty(ps, m, i);
    }
    if |ps| > m {
      DownsampledSlices(ps, m, 0);
    }
    ScoreFromAll(texts, m, 0);
    forall k | 0 <= k < |texts| ensures k * 100 / m < 100 {
      MulMono(k + 1, m, 100);
    }
  }
}
