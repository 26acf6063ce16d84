/** The Markdown report of one analysis result: the interpretation bands of the global
    metrics, the section builders and the assembly of the sections into one document.
    Number formatting and the date are parameters (`Format`). */
module MarkdownGenerator {

  import opened Wrappers
  import Text
  import Seqs
  import Sorting
  import Dicts
  import GlobalMetrics

  /** How numbers are written: fixed(x, d) is x with d decimals (f"{x:.df}"), plain(x) is
      str(x); now is the formatted date of the report. */
  datatype Format = Format(fixed: (real, nat) -> string, plain: real -> string, now: string)

  // ---------------------------------------------------------------------------
  // Interpretation bands

  /** The number of thresholds strictly below v: the band v falls in. */
  function Band(cuts: seq<real>, v: real): (b: nat)
    ensures b <= |cuts|
  {
    if cuts == [] then 0 else (if v > cuts[0] then 1 else 0) + Band(cuts[1..], v)
  }

  /** A larger value never falls in a lower band. */
  lemma {:induction false} BandMonotone(cuts: seq<real>, v: real, w: real)
    requires v <= w
    ensures Band(cuts, v) <= Band(cuts, w)
  {
    if cuts != [] {
      BandMonotone(cuts[1..], v, w);
    }
  }

  lemma BandOfThree(a: real, b: real, c: real, v: real)
    ensures Band([a, b, c], v) == (if v > a then 1 else 0) + (if v > b then 1 else 0) + (if v > c then 1 else 0)
  {
    assert [a, b, c][1..] == [b, c] && [b, c][1..] == [c] && [c][1..] == [];
    assert Band([c], v) == (if v > c then 1 else 0);
    assert Band([b, c], v) == (if v > b then 1 else 0) + Band([c], v);
  }

  lemma BandOfFour(a: real, b: real, c: real, d: real, v: real)
    ensures Band([a, b, c, d], v) == (if v > a then 1 else 0) + Band([b, c, d], v)
  {
    assert [a, b, c, d][1..] == [b, c, d];
  }

  const VeryPositive: string := "😊 Muito positivo"
  const Positive: string := "🙂 Positivo"
  const Neutral: string := "😐 Neutro"
  const Negative: string := "😕 Negativo"
  const VeryNegative: string := "😔 Muito negativo"

  /** The sentiment labels from the lowest band up, and the thresholds between them. */
  const SentimentScale: seq<string> := [VeryNegative, Negative, Neutral, Positive, VeryPositive]
  const SentimentCuts: seq<real> := [-0.3, -0.1, 0.1, 0.3]

  /** _interpret_sentiment */
  function InterpretSentiment(value: real): string {
    if value > 0.3 then VeryPositive
    else if value > 0.1 then Positive
    else if value > -0.1 then Neutral
    else if value > -0.3 then Negative
    else VeryNegative
  }

  /** The label is the one of the band the value falls in, counting strict thresholds, so a
      larger value never gets a lower label; the five labels differ. */
  lemma SentimentBands(v: real, w: real)
    ensures InterpretSentiment(v) == SentimentScale[Band(SentimentCuts, v)]
    ensures v <= w ==> Band(SentimentCuts, v) <= Band(SentimentCuts, w)
    ensures Seqs.Distinct(SentimentScale)
  {
    BandOfFour(-0.3, -0.1, 0.1, 0.3, v);
    BandOfThree(-0.1, 0.1, 0.3, v);
    if v <= w {
      BandMonotone(SentimentCuts, v, w);
    }
    assert forall i :: 0 <= i < |SentimentScale| ==> SentimentScale[i][0] == "😔😕😐🙂😊"[i];
  }

  /** The thresholds themselves belong to the band below: exactly 0.1 is neutral. */
  lemma SentimentThresholds()
    ensures InterpretSentiment(0.1) == Neutral
    ensures InterpretSentiment(0.3) == Positive
    ensures InterpretSentiment(-0.1) == Negative
    ensures InterpretSentiment(-0.3) == VeryNegative
    ensures InterpretSentiment(0.0) == Neutral
  {
  }

  const Excellent: string := "🎯 Excelente foco"
  const Good: string := "✅ Boa estrutura"
  const Reasonable: string := "📊 Estrutura razoável"
  const Dispersed: string := "⚠️ Disperso"

  const CoherenceScale: seq<string> := [Dispersed, Reasonable, Good, Excellent]
  const CoherenceCuts: seq<real> := [0.4, 0.6, 0.8]

  /** _interpret_coherence */
  function InterpretCoherence(value: real): string {
    if value > 0.8 then Excellent
    else if value > 0.6 then Good
    else if value > 0.4 then Reasonable
    else Dispersed
  }

  lemma CoherenceBands(v: real, w: real)
    ensures InterpretCoherence(v) == CoherenceScale[Band(CoherenceCuts, v)]
    ensures v <= w ==> Band(CoherenceCuts, v) <= Band(CoherenceCuts, w)
    ensures Seqs.Distinct(CoherenceScale)
    ensures InterpretCoherence(0.8) == Good && InterpretCoherence(0.4) == Dispersed
  {
    BandOfThree(0.4, 0.6, 0.8, v);
    if v <= w {
      BandMonotone(CoherenceCuts, v, w);
    }
    assert forall i :: 0 <= i < |CoherenceScale| ==> CoherenceScale[i][0] == "⚠📊✅🎯"[i];
  }

  const VeryExpressive: string := "💖 Muito expressivo"
  const Expressive: string := "💬 Expressivo"
  const Moderate: string := "🔵 Moderado"
  const Reserved: string := "🔒 Reservado"

  const OpennessScale: seq<string> := [Reserved, Moderate, Expressive, VeryExpressive]
  const OpennessCuts: seq<real> := [0.5, 1.0, 2.0]

  /** _interpret_openness */
  function InterpretOpenness(value: real): string {
    if value > 2.0 then VeryExpressive
    else if value > 1.0 then Expressive
    else if value > 0.5 then Moderate
    else Reserved
  }

  lemma OpennessBands(v: real, w: real)
    ensures InterpretOpenness(v) == OpennessScale[Band(OpennessCuts, v)]
    ensures v <= w ==> Band(OpennessCuts, v) <= Band(OpennessCuts, w)
    ensures Seqs.Distinct(OpennessScale)
    ensures InterpretOpenness(2.0) == Expressive && InterpretOpenness(0.5) == Reserved
  {
    BandOfThree(0.5, 1.0, 2.0, v);
    if v <= w {
      BandMonotone(OpennessCuts, v, w);
    }
    assert forall i :: 0 <= i < |OpennessScale| ==> OpennessScale[i][0] == "🔒🔵💬💖"[i];
  }

  // ---------------------------------------------------------------------------
  // The analysis result as the report reads it

  /** One topic as the report reads it: its 'label' (topicLabel) and its 'words'. */
  datatype Topic = Topic(topicLabel: Option<string>, words: seq<string>)

  /** One entry of the concept network; isDict is false for an entry that is not a dict. */
  datatype Connection = Connection(isDict: bool, word1: Option<string>, word2: Option<string>, weight: Option<real>)

  /** One detected contradiction; isDict is false for an entry that is not a dict. */
  datatype Contradiction = Contradiction(isDict: bool, score: Option<real>, text1: Option<string>, text2: Option<string>)

  /** The linguistic patterns; hesitationPhrases is None when the key is missing or not a dict,
      the two counts are the 'count' fields of the marker dicts. */
  datatype Patterns = Patterns(
    hesitationPhrases: Option<Dicts.Dict<string, nat>>,
    totalHesitations: Option<nat>,
    uncertaintyCount: Option<nat>,
    certaintyCount: Option<nat>,
    avgSentenceLength: Option<real>)

  /** The keys of the result dict the report reads; None is a missing key. A temporal segment
      is its optional 'sentiment'. */
  datatype AnalysisResult = AnalysisResult(
    filename: Option<string>,
    globalMetrics: Option<Dicts.Dict<string, real>>,
    temporal: Option<seq<Option<real>>>,
    topics: Option<seq<Topic>>,
    topicDistribution: Option<seq<real>>,
    conceptNetwork: Option<seq<Connection>>,
    linguisticPatterns: Option<Patterns>,
    contradictions: Option<seq<Contradiction>>,
    wordFrequencies: Option<Dicts.Dict<string, nat>>)

  const NotAvailable: string := "N/A"

  function Metric(m: Dicts.Dict<string, real>, k: string): real {
    Dicts.GetOr(m, k, 0.0)
  }

  // ---------------------------------------------------------------------------
  // Header, executive summary, global metrics, footer

  /** _create_header */
  function Header(r: AnalysisResult, f: Format): string {
    var name := r.filename.GetOr("arquivo");
    "# 📊 Relatório de Análise - " + name + "\n\n**Data**: " + f.now + "  \n**Arquivo**: " + name + "\n"
  }

  const Footer: string :=
    "---\n\n" + "📊 *Relatório gerado automaticamente pelo Transcript Analyzer V2.0*  \n" +
    "🔍 *Para análises mais detalhadas, consulte as visualizações interativas*"

  const SummaryTitle: string := "## 📋 Resumo Executivo\n"
  const PositiveSummary: string := "✅ **Sentimento geral positivo**" + " - A transcrição apresenta tom otimista"
  const NegativeSummary: string := "⚠️ **Sentimento geral negativo**" + " - Tons de preocupação ou crítica detectados"
  const NeutralSummary: string := "🔵 **Sentimento neutro**" + " - Discurso equilibrado e objetivo"
  const HesitationSummary: string := "💭 **Alta hesitação detectada**" + " - Possível incerteza ou reflexão profunda"

  function SentimentSummary(sentiment: real): string {
    if sentiment > 0.1 then PositiveSummary
    else if sentiment < -0.1 then NegativeSummary
    else NeutralSummary
  }

  function TopTopicLine(t: Topic): string {
    "🎯 **Tópico principal**: " + t.topicLabel.GetOr(NotAvailable)
  }

  /** The lines of _create_executive_summary. */
  function SummaryLines(r: AnalysisResult): seq<string> {
    [SummaryTitle]
    + (if r.globalMetrics.Some? then [SentimentSummary(Metric(r.globalMetrics.value, "global_sentiment"))] else [])
    + (if r.topics.Some? && r.topics.value != [] then [TopTopicLine(r.topics.value[0])] else [])
    + (if r.linguisticPatterns.Some? && r.linguisticPatterns.value.totalHesitations.GetOr(0) > 5
       then [HesitationSummary] else [])
  }

  function ExecutiveSummary(r: AnalysisResult): string {
    Text.JoinWith(SummaryLines(r), "\n")
  }

  /** The title comes first; the sentiment line is there exactly when the metrics are, and is
      positive beyond 0.1, negative below -0.1 and neutral in between, the thresholds
      included; the main topic is named exactly when there are topics; the hesitation line is
      there exactly when more than five hesitations were counted. */
  lemma SummaryFacts(r: AnalysisResult)
    ensures SummaryLines(r)[0] == SummaryTitle
    ensures r.globalMetrics.None? ==>
      PositiveSummary !in SummaryLines(r) && NegativeSummary !in SummaryLines(r) && NeutralSummary !in SummaryLines(r)
    ensures r.globalMetrics.Some? ==>
      var s := Metric(r.globalMetrics.value, "global_sentiment");
      && (PositiveSummary in SummaryLines(r) <==> s > 0.1)
      && (NegativeSummary in SummaryLines(r) <==> s < -0.1)
      && (NeutralSummary in SummaryLines(r) <==> -0.1 <= s <= 0.1)
    ensures r.topics.Some? && r.topics.value != [] ==> TopTopicLine(r.topics.value[0]) in SummaryLines(r)
    ensures r.topics.None? || r.topics.value == [] ==> forall t :: TopTopicLine(t) !in SummaryLines(r)
    ensures HesitationSummary in SummaryLines(r) <==>
      r.linguisticPatterns.Some? && r.linguisticPatterns.value.totalHesitations.GetOr(0) > 5
  {
    var lines := SummaryLines(r);
    assert SummaryTitle[0] == '#' && PositiveSummary[0] == '✅' && NegativeSummary[0] == '⚠';
    assert NeutralSummary[0] == '🔵' && HesitationSummary[0] == '💭';
    forall t: Topic ensures TopTopicLine(t)[0] == '🎯' { }
  }

  const MetricsTitle: string := "## 📊 Métricas Globais\n\n"

  /** _create_global_metrics_section: each metric (0 when missing) with its label. */
  function GlobalMetricsSection(m: Dicts.Dict<string, real>, f: Format): string {
    var s := Metric(m, "global_sentiment");
    var c := Metric(m, "thematic_coherence");
    var o := Metric(m, "emotional_openness");
    MetricsTitle
    + "- **Sentimento Global**: " + f.fixed(s, 3) + " " + InterpretSentiment(s) + "\n"
    + "- **Coerência Temática**: " + f.fixed(c, 2) + " " + InterpretCoherence(c) + "\n"
    + "- **Abertura Emocional**: " + f.fixed(o, 2) + " " + InterpretOpenness(o) + "\n"
  }

  // ---------------------------------------------------------------------------
  // Temporal section

  /** The index of the first largest value: sentiments.index(max(sentiments)). */
  function FirstMaxIndex(s: seq<real>): (i: nat)
    requires s != []
    ensures i < |s|
    decreases |s|
  {
    if |s| == 1 then 0
    else
      var j := 1 + FirstMaxIndex(s[1..]);
      if s[0] >= s[j] then 0 else j
  }

  /** The index of the first smallest value: sentiments.index(min(sentiments)). */
  function FirstMinIndex(s: seq<real>): (i: nat)
    requires s != []
    ensures i < |s|
    decreases |s|
  {
    if |s| == 1 then 0
    else
      var j := 1 + FirstMinIndex(s[1..]);
      if s[0] <= s[j] then 0 else j
  }

  /** No value exceeds the one found, and every value before it is smaller. */
  lemma {:induction false} FirstMaxIndexSpec(s: seq<real>)
    requires s != []
    ensures var i := FirstMaxIndex(s);
      (forall k :: 0 <= k < |s| ==> s[k] <= s[i]) && (forall k :: 0 <= k < i ==> s[k] < s[i])
  {
    if |s| > 1 {
      var t := s[1..];
      FirstMaxIndexSpec(t);
      var j := 1 + FirstMaxIndex(t);
      assert s[j] == t[j - 1];
      forall k | 1 <= k < |s| ensures s[k] <= s[j] && (k < j ==> s[k] < s[j]) {
        assert s[k] == t[k - 1];
      }
    }
  }

  /** No value is below the one found, and every value before it is larger. */
  lemma {:induction false} FirstMinIndexSpec(s: seq<real>)
    requires s != []
    ensures var i := FirstMinIndex(s);
      (forall k :: 0 <= k < |s| ==> s[i] <= s[k]) && (forall k :: 0 <= k < i ==> s[i] < s[k])
  {
    if |s| > 1 {
      var t := s[1..];
      FirstMinIndexSpec(t);
      var j := 1 + FirstMinIndex(t);
      assert s[j] == t[j - 1];
      forall k | 1 <= k < |s| ensures s[j] <= s[k] && (k < j ==> s[j] < s[k]) {
        assert s[k] == t[k - 1];
      }
    }
  }

  /** [seg.get('sentiment', 0) for seg in temporal] */
  function Sentiments(temporal: seq<Option<real>>): (s: seq<real>)
    ensures |s| == |temporal|
  {
    seq(|temporal|, i requires 0 <= i < |temporal| => temporal[i].GetOr(0.0))
  }

  const TemporalTitle: string := "## 📈 Análise Temporal\n"

  function AverageLine(avg: real, f: Format): string {
    "**Sentimento médio ao longo do tempo**: " + f.fixed(avg, 3)
  }

  function SegmentCountLine(n: nat): string {
    "**Total de segmentos analisados**: " + Text.NatToString(n)
  }

  function PeakLine(i: nat, v: real, f: Format): string {
    "\n🔺 **Pico emocional**: Segmento " + Text.NatToString(i + 1) + " (sentimento: " + f.fixed(v, 3) + ")"
  }

  function ValleyLine(i: nat, v: real, f: Format): string {
    "🔻 **Vale emocional**: Segmento " + Text.NatToString(i + 1) + " (sentimento: " + f.fixed(v, 3) + ")"
  }

  /** The lines of a non-empty temporal section. */
  function TemporalLines(temporal: seq<Option<real>>, f: Format): seq<string>
    requires temporal != []
  {
    var s := Sentiments(temporal);
    var head := [TemporalTitle, AverageLine(GlobalMetrics.Mean(s), f), SegmentCountLine(|temporal|)];
    if |s| > 2 then
      var hi := FirstMaxIndex(s);
      var lo := FirstMinIndex(s);
      head + [PeakLine(hi, s[hi], f), ValleyLine(lo, s[lo], f)]
    else head
  }

  function TemporalSection(temporal: seq<Option<real>>, f: Format): string {
    if temporal == [] then "" else Text.JoinWith(TemporalLines(temporal, f), "\n")
  }

  /** _create_temporal_section, appending the lines one by one. */
  method CreateTemporalSection(temporal: seq<Option<real>>, f: Format) returns (section: string)
    ensures section == TemporalSection(temporal, f)
  {
    if temporal == [] {
      return "";
    }
    var content := [TemporalTitle];
    var sentiments := Sentiments(temporal);
    var avg := GlobalMetrics.Mean(sentiments);
    content := content + [AverageLine(avg, f)];
    content := content + [SegmentCountLine(|temporal|)];
    if |sentiments| > 2 {
      var maxIdx := FirstMaxIndex(sentiments);
      var minIdx := FirstMinIndex(sentiments);
      content := content + [PeakLine(maxIdx, sentiments[maxIdx], f)];
      content := content + [ValleyLine(minIdx, sentiments[minIdx], f)];
    }
    assert content == TemporalLines(temporal, f);
    section := Text.JoinWith(content, "\n");
  }

  /** Empty exactly for no segments; the average and the segment count always, the peak and
      the valley only beyond two segments, naming the first largest and the first smallest
      sentiment, a missing sentiment counting as 0; the average lies between the two. */
  lemma TemporalFacts(temporal: seq<Option<real>>, f: Format)
    ensures TemporalSection(temporal, f) == "" <==> temporal == []
    ensures temporal != [] ==>
      var s := Sentiments(temporal);
      var lines := TemporalLines(temporal, f);
      && |lines| == (if |temporal| > 2 then 5 else 3)
      && lines[2] == SegmentCountLine(|temporal|)
      && s[FirstMinIndex(s)] <= GlobalMetrics.Mean(s) <= s[FirstMaxIndex(s)]
      && (|temporal| > 2 ==>
        && lines[3] == PeakLine(FirstMaxIndex(s), s[FirstMaxIndex(s)], f)
        && lines[4] == ValleyLine(FirstMinIndex(s), s[FirstMinIndex(s)], f))
  {
    if temporal != [] {
      var s := Sentiments(temporal);
      var lines := TemporalLines(temporal, f);
      Text.JoinFirstLast(lines, "\n");
      assert TemporalTitle[0] == '#';
      FirstMaxIndexSpec(s);
      FirstMinIndexSpec(s);
      GlobalMetrics.MeanBounds(s, s[FirstMinIndex(s)], s[FirstMaxIndex(s)]);
    }
  }

  // ---------------------------------------------------------------------------
  // Topics section

  const TopicsTitle: string := "## 🎯 Tópicos Identificados\n"

  /** The two lines of the i-th topic (0-based); the share is shown when the distribution has
      an i-th entry. */
  function TopicBlock(i: nat, t: Topic, distribution: seq<real>, f: Format): seq<string> {
    var caption := t.topicLabel.GetOr("Tópico " + Text.NatToString(i + 1));
    var words := Text.JoinWith(Seqs.Take(t.words, 5), ", ");
    [if i < |distribution| then "### " + caption + " (" + f.fixed(distribution[i] * 100.0, 1) + "%)"
     else "### " + caption,
     "**Palavras-chave**: " + words + "\n"]
  }

  function TopicBlocks(topics: seq<Topic>, distribution: seq<real>, f: Format): (r: seq<string>)
    ensures |r| == 2 * |topics|
    decreases |topics|
  {
    if topics == [] then []
    else
      var n := |topics| - 1;
      TopicBlocks(topics[..n], distribution, f) + TopicBlock(n, topics[n], distribution, f)
  }

  /** _create_topics_section: the first five topics. */
  function TopicsSection(r: AnalysisResult, f: Format): string {
    var topics := r.topics.GetOr([]);
    var distribution := r.topicDistribution.GetOr([]);
    if topics == [] then ""
    else Text.JoinWith([TopicsTitle] + TopicBlocks(Seqs.Take(topics, 5), distribution, f), "\n")
  }

  /** _create_topics_section, appending two lines per topic among the first five. */
  method CreateTopicsSection(r: AnalysisResult, f: Format) returns (section: string)
    ensures section == TopicsSection(r, f)
  {
    var topics := r.topics.GetOr([]);
    var distribution := r.topicDistribution.GetOr([]);
    if topics == [] {
      return "";
    }
    var content := [TopicsTitle];
    var top := Seqs.Take(topics, 5);
    var i := 0;
    while i < |top|
      invariant 0 <= i <= |top|
      invariant content == [TopicsTitle] + TopicBlocks(top[..i], distribution, f)
    {
      var block := TopicBlock(i, top[i], distribution, f);
      content := content + [block[0]];
      content := content + [block[1]];
      assert top[..i + 1][..i] == top[..i];
      assert content == [TopicsTitle] + TopicBlocks(top[..i + 1], distribution, f);
      i := i + 1;
    }
    assert top[..|top|] == top;
    section := Text.JoinWith(content, "\n");
  }

  /** The i-th pair of lines belongs to the i-th topic. */
  lemma {:induction false} TopicBlocksAt(topics: seq<Topic>, distribution: seq<real>, f: Format, i: nat)
    requires i < |topics|
    ensures TopicBlocks(topics, distribution, f)[2 * i..2 * i + 2] == TopicBlock(i, topics[i], distribution, f)
    decreases |topics|
  {
    var n := |topics| - 1;
    var init := TopicBlocks(topics[..n], distribution, f);
    if i < n {
      TopicBlocksAt(topics[..n], distribution, f, i);
      assert topics[..n][i] == topics[i];
      assert TopicBlocks(topics, distribution, f)[2 * i..2 * i + 2] == init[2 * i..2 * i + 2];
    }
  }

  // ---------------------------------------------------------------------------
  // Concept network section

  const NetworkTitle: string := "## 🕸️ Rede de Conceitos\n"
  const StrongestConnections: string := "**Conexões mais fortes**:"
  const NoConnections: string := "*Nenhuma conexão válida encontrada*"

  predicate IsWeighted(c: Connection) {
    c.isDict && c.weight.Some?
  }

  function Weight(c: Connection): real {
    c.weight.GetOr(0.0)
  }

  function ConnectionLine(c: Connection, f: Format): string {
    "- " + c.word1.GetOr(NotAvailable) + " ↔️ " + c.word2.GetOr(NotAvailable) + " (força: " + f.plain(Weight(c)) + ")"
  }

  /** The ten heaviest of the dict entries that carry a weight. */
  function StrongestOf(network: seq<Connection>): seq<Connection> {
    Sorting.TopK(Seqs.Filter(network, IsWeighted), Weight, 10)
  }

  function NetworkLines(network: seq<Connection>, f: Format): seq<string> {
    var top := StrongestOf(network);
    [NetworkTitle] +
    if Seqs.Filter(network, IsWeighted) == [] then [NoConnections]
    else [StrongestConnections] + seq(|top|, k requires 0 <= k < |top| => ConnectionLine(top[k], f))
  }

  /** _create_network_section */
  function NetworkSection(network: seq<Connection>, f: Format): string {
    if network == [] then "" else Text.JoinWith(NetworkLines(network, f), "\n")
  }

  /** _create_network_section, appending one line per shown connection. */
  method CreateNetworkSection(network: seq<Connection>, f: Format) returns (section: string)
    ensures section == NetworkSection(network, f)
  {
    if network == [] {
      return "";
    }
    var content := [NetworkTitle];
    var valid := Seqs.Filter(network, IsWeighted);
    if valid != [] {
      var top := StrongestOf(network);
      ghost var lines := seq(|top|, k requires 0 <= k < |top| => ConnectionLine(top[k], f));
      content := content + [StrongestConnections];
      var i := 0;
      while i < |top|
        invariant 0 <= i <= |top|
        invariant content == [NetworkTitle, StrongestConnections] + lines[..i]
      {
        Seqs.PrefixSnoc(lines, i);
        content := content + [ConnectionLine(top[i], f)];
        i := i + 1;
      }
      assert lines[..i] == lines;
    } else {
      content := content + [NoConnections];
    }
    assert content == NetworkLines(network, f);
    section := Text.JoinWith(content, "\n");
  }

  /** At most ten connections, heaviest first, each a weighted dict entry of the network, and
      none left out heavier than one shown. */
  lemma NetworkFacts(network: seq<Connection>)
    ensures var top := StrongestOf(network); var valid := Seqs.Filter(network, IsWeighted);
      && |top| == (if |valid| < 10 then |valid| else 10)
      && Sorting.SortedDesc(top, Weight)
      && (forall c :: c in top ==> c in network && IsWeighted(c))
      && (forall x, y :: x in multiset(valid) - multiset(top) && y in top ==> Weight(x) <= Weight(y))
  {
    var valid := Seqs.Filter(network, IsWeighted);
    var top := StrongestOf(network);
    Sorting.TopKFacts(valid, Weight, 10);
    forall c | c in top ensures c in network && IsWeighted(c) {
      assert c in multiset(top);
      Seqs.FilterMultiset(network, IsWeighted, c);
    }
  }

  // ---------------------------------------------------------------------------
  // Linguistic patterns section

  const PatternsTitle: string := "## 💬 Padrões Linguísticos\n"
  const HesitationTypes: string := "**Tipos de hesitação**:"

  /** certainty / (certainty + uncertainty) * 100 */
  function CertaintyRatio(certainty: nat, uncertainty: nat): real
    requires certainty + uncertainty > 0
  {
    certainty as real / (certainty + uncertainty) as real * 100.0
  }

  function PhraseLine(e: (string, nat)): string {
    "- '" + e.0 + "': " + Text.NatToString(e.1) + " vezes"
  }

  /** The hesitation lines: the total when positive, then the first five phrases of a
      non-empty phrase dict. */
  function HesitationLines(p: Patterns): seq<string> {
    var total := p.totalHesitations.GetOr(0);
    var phrases := p.hesitationPhrases.GetOr([]);
    var shown := Seqs.Take(phrases, 5);
    if total == 0 then []
    else
      ["**Total de hesitações**: " + Text.NatToString(total)]
      + if phrases == [] then []
        else [HesitationTypes] + seq(|shown|, k requires 0 <= k < |shown| => PhraseLine(shown[k]))
  }

  function CertaintyLines(p: Patterns, f: Format): seq<string> {
    var u := p.uncertaintyCount.GetOr(0);
    var c := p.certaintyCount.GetOr(0);
    if u + c > 0 then ["\n**Índice de certeza**: " + f.fixed(CertaintyRatio(c, u), 1) + "%"] else []
  }

  function LengthLines(p: Patterns, f: Format): seq<string> {
    var avg := p.avgSentenceLength.GetOr(0.0);
    if avg > 0.0 then ["**Comprimento médio das sentenças**: " + f.fixed(avg, 1) + " palavras"] else []
  }

  /** _create_patterns_section */
  function PatternsSection(p: Patterns, f: Format): string {
    Text.JoinWith([PatternsTitle] + HesitationLines(p) + CertaintyLines(p, f) + LengthLines(p, f), "\n")
  }

  /** _create_patterns_section, appending the hesitation phrases one by one. */
  method CreatePatternsSection(p: Patterns, f: Format) returns (section: string)
    ensures section == PatternsSection(p, f)
  {
    var content := [PatternsTitle];
    var total := p.totalHesitations.GetOr(0);
    var phrases := p.hesitationPhrases.GetOr([]);
    if total > 0 {
      content := content + ["**Total de hesitações**: " + Text.NatToString(total)];
      if phrases != [] {
        content := content + [HesitationTypes];
        var shown := Seqs.Take(phrases, 5);
        ghost var start := content;
        ghost var lines := seq(|shown|, k requires 0 <= k < |shown| => PhraseLine(shown[k]));
        var i := 0;
        while i < |shown|
          invariant 0 <= i <= |shown|
          invariant content == start + lines[..i]
        {
          Seqs.PrefixSnoc(lines, i);
          content := content + [PhraseLine(shown[i])];
          i := i + 1;
        }
        assert lines[..i] == lines;
      }
    }
    assert content == [PatternsTitle] + HesitationLines(p);
    content := content + CertaintyLines(p, f) + LengthLines(p, f);
    section := Text.JoinWith(content, "\n");
  }

  /** The section always has its title. Hesitations are reported only when counted, with at
      most five phrases in dict order; the certainty index only when some marker was counted,
      as a percentage that is 100 without uncertainty and 0 without certainty; the sentence
      length only when positive. */
  lemma PatternsFacts(p: Patterns, f: Format)
    ensures PatternsSection(p, f) != ""
    ensures HesitationLines(p) == [] <==> p.totalHesitations.GetOr(0) == 0
    ensures |HesitationLines(p)| <= 7
    ensures var phrases := p.hesitationPhrases.GetOr([]);
      p.totalHesitations.GetOr(0) > 0 && phrases != [] ==>
        forall k :: 0 <= k < |phrases| && k < 5 ==> HesitationLines(p)[k + 2] == PhraseLine(phrases[k])
    ensures CertaintyLines(p, f) == [] <==> p.uncertaintyCount.GetOr(0) + p.certaintyCount.GetOr(0) == 0
    ensures var u := p.uncertaintyCount.GetOr(0); var c := p.certaintyCount.GetOr(0);
      u + c > 0 ==>
        && 0.0 <= CertaintyRatio(c, u) <= 100.0
        && (CertaintyRatio(c, u) == 100.0 <==> u == 0)
        && (CertaintyRatio(c, u) == 0.0 <==> c == 0)
    ensures LengthLines(p, f) == [] <==> p.avgSentenceLength.GetOr(0.0) <= 0.0
  {
    var parts := [PatternsTitle] + HesitationLines(p) + CertaintyLines(p, f) + LengthLines(p, f);
    Text.JoinFirstLast(parts, "\n");
    assert parts[0] == PatternsTitle;
    assert PatternsTitle[0] == '#';
    var u := p.uncertaintyCount.GetOr(0);
    var c := p.certaintyCount.GetOr(0);
    if u + c > 0 {
      RatioFacts(c, u);
    }
  }

  lemma RatioFacts(c: nat, u: nat)
    requires c + u > 0
    ensures 0.0 <= CertaintyRatio(c, u) <= 100.0
    ensures CertaintyRatio(c, u) == 100.0 <==> u == 0
    ensures CertaintyRatio(c, u) == 0.0 <==> c == 0
  {
    var q := c as real / (c + u) as real;
    assert q * (c + u) as real == c as real;
    assert 0.0 <= q <= 1.0;
    if q == 1.0 {
      assert (c + u) as real == c as real;
    }
  }

  // ---------------------------------------------------------------------------
  // Contradictions section

  const ContradictionsTitle: string := "## ⚡ Contradições Detectadas\n"
  const NoContradictions: string := "*Nenhuma contradição significativa detectada*"

  predicate IsScored(c: Contradiction) {
    c.isDict && c.score.Some?
  }

  function Score(c: Contradiction): real {
    c.score.GetOr(0.0)
  }

  /** [c for c in contradictions if isinstance(c, dict) and 'score' in c] */
  function Scored(cs: seq<Contradiction>): seq<Contradiction> {
    Seqs.Filter(cs, IsScored)
  }

  /** The five best-scored entries, the best first. */
  function ShownContradictions(cs: seq<Contradiction>): seq<Contradiction> {
    Sorting.TopK(Scored(cs), Score, 5)
  }

  /** The three lines of the contradiction numbered i. */
  function ContradictionBlock(i: nat, c: Contradiction, f: Format): seq<string> {
    ["### Contradição " + Text.NatToString(i) + " (confiança: " + f.fixed(Score(c), 2) + ")",
     "- **Afirmação 1**: \"" + c.text1.GetOr(NotAvailable) + "\"",
     "- **Afirmação 2**: \"" + c.text2.GetOr(NotAvailable) + "\"\n"]
  }

  /** The blocks of the shown contradictions, numbered from 1. */
  function ContradictionBlocks(shown: seq<Contradiction>, f: Format): (r: seq<string>)
    ensures |r| == 3 * |shown|
    decreases |shown|
  {
    if shown == [] then []
    else
      var n := |shown| - 1;
      ContradictionBlocks(shown[..n], f) + ContradictionBlock(n + 1, shown[n], f)
  }

  function ContradictionLines(cs: seq<Contradiction>, f: Format): seq<string> {
    [ContradictionsTitle] +
    if Scored(cs) == [] then [NoContradictions] else ContradictionBlocks(ShownContradictions(cs), f)
  }

  function ContradictionsSection(cs: seq<Contradiction>, f: Format): string {
    if cs == [] then "" else Text.JoinWith(ContradictionLines(cs, f), "\n")
  }

  /** _create_contradictions_section, appending three lines per shown contradiction. */
  method CreateContradictionsSection(contradictions: seq<Contradiction>, f: Format) returns (section: string)
    ensures section == ContradictionsSection(contradictions, f)
  {
    if contradictions == [] {
      return "";
    }
    var content := [ContradictionsTitle];
    var valid := Scored(contradictions);
    if valid != [] {
      var sorted := Sorting.SortDesc(valid, Score);
      var top := Seqs.Take(sorted, 5);
      var i := 0;
      while i < |top|
        invariant 0 <= i <= |top|
        invariant content == [ContradictionsTitle] + ContradictionBlocks(top[..i], f)
      {
        var c := top[i];
        var block := ContradictionBlock(i + 1, c, f);
        content := content + [block[0]];
        content := content + [block[1]];
        content := content + [block[2]];
        assert top[..i + 1][..i] == top[..i];
        assert content == [ContradictionsTitle] + ContradictionBlocks(top[..i + 1], f);
        i := i + 1;
      }
      assert top[..|top|] == top;
    } else {
      content := content + [NoContradictions];
    }
    section := Text.JoinWith(content, "\n");
  }

  /** The i-th block describes the i-th shown contradiction under the number i + 1. */
  lemma {:induction false} ContradictionBlocksAt(shown: seq<Contradiction>, f: Format, i: nat)
    requires i < |shown|
    ensures ContradictionBlocks(shown, f)[3 * i..3 * i + 3] == ContradictionBlock(i + 1, shown[i], f)
    decreases |shown|
  {
    var n := |shown| - 1;
    var init := ContradictionBlocks(shown[..n], f);
    if i < n {
      ContradictionBlocksAt(shown[..n], f, i);
      assert shown[..n][i] == shown[i];
      assert ContradictionBlocks(shown, f)[3 * i..3 * i + 3] == init[3 * i..3 * i + 3];
    }
  }

  /** Empty exactly for an empty list. At most five entries are shown, each a dict entry with
      a score, best first, and no scored entry left out beats one shown; with no scored entry
      the section says so. */
  lemma ContradictionsFacts(cs: seq<Contradiction>, f: Format)
    ensures ContradictionsSection(cs, f) == "" <==> cs == []
    ensures var shown := ShownContradictions(cs); var valid := Scored(cs);
      && |shown| == (if |valid| < 5 then |valid| else 5)
      && Sorting.SortedDesc(shown, Score)
      && (forall c :: c in shown ==> c in cs && IsScored(c))
      && (forall x, y :: x in multiset(valid) - multiset(shown) && y in shown ==> Score(x) <= Score(y))
      && |ContradictionLines(cs, f)| == (if valid == [] then 2 else 1 + 3 * |shown|)
      && (valid == [] ==> ContradictionLines(cs, f) == [ContradictionsTitle, NoContradictions])
  {
    var lines := ContradictionLines(cs, f);
    Text.JoinFirstLast(lines, "\n");
    assert ContradictionsTitle[0] == '#';
    var valid := Scored(cs);
    var shown := ShownContradictions(cs);
    Sorting.TopKFacts(valid, Score, 5);
    forall c | c in shown ensures c in cs && IsScored(c) {
      assert c in multiset(shown);
      Seqs.FilterMultiset(cs, IsScored, c);
    }
  }

  // ---------------------------------------------------------------------------
  // Word frequency section

  const FrequencyTitle: string := "## 📝 Palavras Mais Frequentes\n"

  function CountOf(e: (string, nat)): real {
    e.1 as real
  }

  /** The fifteen most frequent words, the most frequent first. */
  function TopWords(frequencies: Dicts.Dict<string, nat>): seq<(string, nat)> {
    Sorting.TopK(frequencies, CountOf, 15)
  }

  function WordLine(e: (string, nat)): string {
    "- **" + e.0 + "**: " + Text.NatToString(e.1) + " ocorrências"
  }

  function FrequencyLines(frequencies: Dicts.Dict<string, nat>): seq<string> {
    var top := TopWords(frequencies);
    [FrequencyTitle] + seq(|top|, k requires 0 <= k < |top| => WordLine(top[k]))
  }

  /** _create_frequency_section */
  function FrequencySection(frequencies: Dicts.Dict<string, nat>): string {
    if frequencies == [] then "" else Text.JoinWith(FrequencyLines(frequencies), "\n")
  }

  /** _create_frequency_section, appending one line per listed word. */
  method CreateFrequencySection(frequencies: Dicts.Dict<string, nat>) returns (section: string)
    ensures section == FrequencySection(frequencies)
  {
    if frequencies == [] {
      return "";
    }
    var top := TopWords(frequencies);
    ghost var lines := seq(|top|, k requires 0 <= k < |top| => WordLine(top[k]));
    var content := [FrequencyTitle];
    var i := 0;
    while i < |top|
      invariant 0 <= i <= |top|
      invariant content == [FrequencyTitle] + lines[..i]
    {
      Seqs.PrefixSnoc(lines, i);
      content := content + [WordLine(top[i])];
      i := i + 1;
    }
    assert lines[..i] == lines;
    section := Text.JoinWith(content, "\n");
  }

  /** Empty exactly for no words; otherwise one line per listed word, at most fifteen, drawn
      from the dict, by non-increasing count, none left out more frequent than one listed. */
  lemma FrequencyFacts(frequencies: Dicts.Dict<string, nat>)
    ensures FrequencySection(frequencies) == "" <==> frequencies == []
    ensures var top := TopWords(frequencies);
      && |top| == (if |frequencies| < 15 then |frequencies| else 15)
      && |FrequencyLines(frequencies)| == 1 + |top|
      && (forall k :: 0 <= k < |top| ==> FrequencyLines(frequencies)[k + 1] == WordLine(top[k]))
      && (forall i, j :: 0 <= i < j < |top| ==> top[i].1 >= top[j].1)
      && (forall e :: e in top ==> e in frequencies)
      && (forall x, y :: x in multiset(frequencies) - multiset(top) && y in top ==> x.1 <= y.1)
  {
    var top := TopWords(frequencies);
    assert FrequencySection(frequencies) == "" <==> frequencies == [] by {
      if frequencies != [] {
        var lines := FrequencyLines(frequencies);
        Text.JoinFirstLast(lines, "\n");
        assert lines[0] == FrequencyTitle && FrequencyTitle[0] == '#';
      }
    }
    Sorting.TopKFacts(frequencies, CountOf, 15);
    assert forall i, j :: 0 <= i < j < |top| ==> CountOf(top[i]) >= CountOf(top[j]);
    forall x, y | x in multiset(frequencies) - multiset(top) && y in top ensures x.1 <= y.1 {
      assert CountOf(x) <= CountOf(y);
    }
    forall e | e in top ensures e in frequencies {
      assert e in multiset(top);
    }
  }

  // ---------------------------------------------------------------------------
  // Assembly

  /** The sections of the report in their fixed order. */
  datatype SectionKind =
    | HeaderPart | SummaryPart | MetricsPart | TemporalPart | TopicsPart
    | NetworkPart | PatternsPart | ContradictionsPart | FrequenciesPart | FooterPart

  function Rank(k: SectionKind): nat {
    match k
    case HeaderPart => 0
    case SummaryPart => 1
    case MetricsPart => 2
    case TemporalPart => 3
    case TopicsPart => 4
    case NetworkPart => 5
    case PatternsPart => 6
    case ContradictionsPart => 7
    case FrequenciesPart => 8
    case FooterPart => 9
  }

  /** The sections in rank order. */
  const Order: seq<SectionKind> := [
    HeaderPart, SummaryPart, MetricsPart, TemporalPart, TopicsPart,
    NetworkPart, PatternsPart, ContradictionsPart, FrequenciesPart, FooterPart]

  lemma OrderRanks()
    ensures |Order| == 10
    ensures forall i :: 0 <= i < |Order| ==> Rank(Order[i]) == i
    ensures forall k :: Order[Rank(k)] == k
  {
  }

  /** Header, summary and footer are unconditional; the others need their key. */
  predicate Present(k: SectionKind, r: AnalysisResult) {
    match k
    case MetricsPart => r.globalMetrics.Some?
    case TemporalPart => r.temporal.Some?
    case TopicsPart => r.topics.Some?
    case NetworkPart => r.conceptNetwork.Some?
    case PatternsPart => r.linguisticPatterns.Some?
    case ContradictionsPart => r.contradictions.Some?
    case FrequenciesPart => r.wordFrequencies.Some?
    case _ => true
  }

  function IfPresent(k: SectionKind, r: AnalysisResult): seq<SectionKind> {
    if Present(k, r) then [k] else []
  }

  /** The sections of rank below n that _create_content appends, in its order. */
  function KindsUpTo(r: AnalysisResult, n: nat): seq<SectionKind>
    requires n <= |Order|
  {
    if n == 0 then [] else KindsUpTo(r, n - 1) + IfPresent(Order[n - 1], r)
  }

  function SectionKinds(r: AnalysisResult): seq<SectionKind> {
    KindsUpTo(r, |Order|)
  }

  /** The text each section would have; a section whose key is missing is empty and never
      appended. */
  datatype SectionTexts = SectionTexts(
    header: string, summary: string, metrics: string, temporal: string, topics: string,
    network: string, patterns: string, contradictions: string, frequencies: string, footer: string)

  function Pick(k: SectionKind, t: SectionTexts): string {
    match k
    case HeaderPart => t.header
    case SummaryPart => t.summary
    case MetricsPart => t.metrics
    case TemporalPart => t.temporal
    case TopicsPart => t.topics
    case NetworkPart => t.network
    case PatternsPart => t.patterns
    case ContradictionsPart => t.contradictions
    case FrequenciesPart => t.frequencies
    case FooterPart => t.footer
  }

  /** The section builders applied to one result. */
  function BuildTexts(r: AnalysisResult, f: Format): SectionTexts {
    SectionTexts(
      Header(r, f),
      ExecutiveSummary(r),
      if r.globalMetrics.Some? then GlobalMetricsSection(r.globalMetrics.value, f) else "",
      if r.temporal.Some? then TemporalSection(r.temporal.value, f) else "",
      TopicsSection(r, f),
      if r.conceptNetwork.Some? then NetworkSection(r.conceptNetwork.value, f) else "",
      if r.linguisticPatterns.Some? then PatternsSection(r.linguisticPatterns.value, f) else "",
      if r.contradictions.Some? then ContradictionsSection(r.contradictions.value, f) else "",
      if r.wordFrequencies.Some? then FrequencySection(r.wordFrequencies.value) else "",
      Footer)
  }

  function Texts(kinds: seq<SectionKind>, t: SectionTexts): (ts: seq<string>)
    ensures |ts| == |kinds|
  {
    seq(|kinds|, i requires 0 <= i < |kinds| => Pick(kinds[i], t))
  }

  predicate IsNonEmpty(s: string) {
    s != []
  }

  /** `if present: sections.append(text)` */
  function AppendIf(sections: seq<string>, present: bool, text: string): seq<string> {
    if present then sections + [text] else sections
  }

  lemma TextsAppend(kinds: seq<SectionKind>, extra: seq<SectionKind>, t: SectionTexts)
    ensures Texts(kinds + extra, t) == Texts(kinds, t) + Texts(extra, t)
  {
    assert forall i :: 0 <= i < |kinds| ==> (kinds + extra)[i] == kinds[i];
    assert forall i :: 0 <= i < |extra| ==> (kinds + extra)[|kinds| + i] == extra[i];
  }

  /** The texts of the sections up to rank n + 1 append the text of rank n when it is present. */
  lemma TextsStep(r: AnalysisResult, t: SectionTexts, n: nat)
    requires n < |Order|
    ensures Texts(KindsUpTo(r, n + 1), t) == AppendIf(Texts(KindsUpTo(r, n), t), Present(Order[n], r), Pick(Order[n], t))
  {
    TextsAppend(KindsUpTo(r, n), IfPresent(Order[n], r), t);
    if !Present(Order[n], r) {
      assert Texts(KindsUpTo(r, n), t) + [] == Texts(KindsUpTo(r, n), t);
    }
  }

  /** The appends of _create_content, one after the other, on the texts t. */
  function Assemble(r: AnalysisResult, t: SectionTexts): seq<string> {
    var s2 := AppendIf([t.header, t.summary], r.globalMetrics.Some?, t.metrics);
    var s3 := AppendIf(s2, r.temporal.Some?, t.temporal);
    var s4 := AppendIf(s3, r.topics.Some?, t.topics);
    var s5 := AppendIf(s4, r.conceptNetwork.Some?, t.network);
    var s6 := AppendIf(s5, r.linguisticPatterns.Some?, t.patterns);
    var s7 := AppendIf(s6, r.contradictions.Some?, t.contradictions);
    var s8 := AppendIf(s7, r.wordFrequencies.Some?, t.frequencies);
    s8 + [t.footer]
  }

  /** '\n\n'.join(filter(None, sections)) */
  function Joined(sections: seq<string>): string {
    Text.JoinWith(Seqs.Filter(sections, IsNonEmpty), "\n\n")
  }

  /** The report body of one result. */
  function Content(r: AnalysisResult, f: Format): string {
    Joined(Assemble(r, BuildTexts(r, f)))
  }

  /** The first six ranks: header, summary, then metrics, temporal, topics and network when
      present. */
  lemma FrontIsTexts(r: AnalysisResult, t: SectionTexts)
    ensures Texts(KindsUpTo(r, 6), t) ==
      AppendIf(AppendIf(AppendIf(AppendIf([t.header, t.summary], r.globalMetrics.Some?, t.metrics),
        r.temporal.Some?, t.temporal), r.topics.Some?, t.topics), r.conceptNetwork.Some?, t.network)
  {
    assert Texts(KindsUpTo(r, 0), t) == [];
    TextsStep(r, t, 0);
    TextsStep(r, t, 1);
    var s2 := Texts(KindsUpTo(r, 2), t);
    assert s2 == [t.header, t.summary];
    TextsStep(r, t, 2);
    var s3 := Texts(KindsUpTo(r, 3), t);
    assert s3 == AppendIf(s2, r.globalMetrics.Some?, t.metrics);
    TextsStep(r, t, 3);
    var s4 := Texts(KindsUpTo(r, 4), t);
    assert s4 == AppendIf(s3, r.temporal.Some?, t.temporal);
    TextsStep(r, t, 4);
    var s5 := Texts(KindsUpTo(r, 5), t);
    assert s5 == AppendIf(s4, r.topics.Some?, t.topics);
    TextsStep(r, t, 5);
  }

  /** The appends collect the texts of exactly the sections of SectionKinds, in order. */
  lemma AssembleIsTexts(r: AnalysisResult, t: SectionTexts)
    ensures Assemble(r, t) == Texts(SectionKinds(r), t)
  {
    FrontIsTexts(r, t);
    var s6 := Texts(KindsUpTo(r, 6), t);
    TextsStep(r, t, 6);
    var s7 := Texts(KindsUpTo(r, 7), t);
    assert s7 == AppendIf(s6, r.linguisticPatterns.Some?, t.patterns);
    TextsStep(r, t, 7);
    var s8 := Texts(KindsUpTo(r, 8), t);
    assert s8 == AppendIf(s7, r.contradictions.Some?, t.contradictions);
    TextsStep(r, t, 8);
    var s9 := Texts(KindsUpTo(r, 9), t);
    assert s9 == AppendIf(s8, r.wordFrequencies.Some?, t.frequencies);
    TextsStep(r, t, 9);
    assert Texts(KindsUpTo(r, 10), t) == s9 + [t.footer];
  }

  /** The sections list of _create_content: header and summary, then each section whose key
      is present, then the footer. */
  method CollectSections(r: AnalysisResult, f: Format) returns (sections: seq<string>)
    ensures sections == Assemble(r, BuildTexts(r, f))
  {
    sections := [Header(r, f), ExecutiveSummary(r)];
    if r.globalMetrics.Some? {
      sections := sections + [GlobalMetricsSection(r.globalMetrics.value, f)];
    }
    if r.temporal.Some? {
      var temporal := CreateTemporalSection(r.temporal.value, f);
      sections := sections + [temporal];
    }
    if r.topics.Some? {
      var topics := CreateTopicsSection(r, f);
      sections := sections + [topics];
    }
    if r.conceptNetwork.Some? {
      var network := CreateNetworkSection(r.conceptNetwork.value, f);
      sections := sections + [network];
    }
    if r.linguisticPatterns.Some? {
      var patterns := CreatePatternsSection(r.linguisticPatterns.value, f);
      sections := sections + [patterns];
    }
    if r.contradictions.Some? {
      var contradictions := CreateContradictionsSection(r.contradictions.value, f);
      sections := sections + [contradictions];
    }
    if r.wordFrequencies.Some? {
      var frequencies := CreateFrequencySection(r.wordFrequencies.value);
      sections := sections + [frequencies];
    }
    sections := sections + [Footer];
  }

  /** _create_content: the collected sections, the empty ones dropped, joined by blank lines. */
  method CreateContent(r: AnalysisResult, f: Format) returns (content: string)
    ensures content == Content(r, f)
  {
    var sections := CollectSections(r, f);
    content := Text.JoinWith(Seqs.Filter(sections, IsNonEmpty), "\n\n");
  }

  predicate RanksIncreasing(ks: seq<SectionKind>) {
    forall i, j :: 0 <= i < j < |ks| ==> Rank(ks[i]) < Rank(ks[j])
  }

  /** Below rank n, a section is there exactly when its key is present, and the ranks
      strictly increase. */
  lemma {:induction false} KindsUpToFacts(r: AnalysisResult, n: nat)
    requires n <= |Order|
    ensures forall k :: k in KindsUpTo(r, n) <==> Rank(k) < n && Present(k, r)
    ensures RanksIncreasing(KindsUpTo(r, n))
  {
    if n > 0 {
      KindsUpToFacts(r, n - 1);
      var ks := KindsUpTo(r, n - 1);
      var last := Order[n - 1];
      assert Rank(last) == n - 1 by {
        OrderRanks();
      }
      var kn := ks + IfPresent(last, r);
      assert KindsUpTo(r, n) == kn;
      forall k ensures k in kn <==> Rank(k) < n && Present(k, r) {
        if Rank(k) == n - 1 {
          assert last == k by {
            OrderRanks();
          }
        }
      }
      forall i, j | 0 <= i < j < |kn| ensures Rank(kn[i]) < Rank(kn[j]) {
        assert kn[i] == ks[i] && ks[i] in ks;
        if j >= |ks| {
          assert kn[j] == last;
        } else {
          assert kn[j] == ks[j];
        }
      }
    }
  }

  /** The sections follow the fixed order header, summary, metrics, temporal, topics,
      network, patterns, contradictions, frequencies, footer, each at most once; a section is
      there exactly when its key is present (header, summary and footer always), header and
      summary first and the footer last. */
  lemma SectionOrder(r: AnalysisResult)
    ensures RanksIncreasing(SectionKinds(r))
    ensures forall k :: k in SectionKinds(r) <==> Present(k, r)
    ensures var ks := SectionKinds(r);
      |ks| >= 3 && ks[0] == HeaderPart && ks[1] == SummaryPart && ks[|ks| - 1] == FooterPart
  {
    var ks := SectionKinds(r);
    KindsUpToFacts(r, |Order|);
    assert HeaderPart in ks && SummaryPart in ks && FooterPart in ks;
    var h :| 0 <= h < |ks| && ks[h] == HeaderPart;
    var s :| 0 <= s < |ks| && ks[s] == SummaryPart;
    var t :| 0 <= t < |ks| && ks[t] == FooterPart;
    assert h == 0 by { assert Rank(ks[0]) <= Rank(ks[h]); }
    assert s == 1 by { assert Rank(ks[0]) == 0 && Rank(ks[1]) <= Rank(ks[s]); }
    assert t == |ks| - 1 by { assert Rank(ks[t]) >= Rank(ks[|ks| - 1]); }
  }

  lemma AppendIfExtends(s: seq<string>, present: bool, text: string)
    ensures s <= AppendIf(s, present, text)
  {
  }

  /** The header and the summary open the sections and the footer closes them. */
  lemma AssembleEnds(r: AnalysisResult, t: SectionTexts)
    ensures var a := Assemble(r, t); |a| >= 3 && a[0] == t.header && a[1] == t.summary && a[|a| - 1] == t.footer
  {
    var s2 := AppendIf([t.header, t.summary], r.globalMetrics.Some?, t.metrics);
    var s3 := AppendIf(s2, r.temporal.Some?, t.temporal);
    var s4 := AppendIf(s3, r.topics.Some?, t.topics);
    var s5 := AppendIf(s4, r.conceptNetwork.Some?, t.network);
    var s6 := AppendIf(s5, r.linguisticPatterns.Some?, t.patterns);
    var s7 := AppendIf(s6, r.contradictions.Some?, t.contradictions);
    var s8 := AppendIf(s7, r.wordFrequencies.Some?, t.frequencies);
    AppendIfExtends([t.header, t.summary], r.globalMetrics.Some?, t.metrics);
    AppendIfExtends(s2, r.temporal.Some?, t.temporal);
    AppendIfExtends(s3, r.topics.Some?, t.topics);
    AppendIfExtends(s4, r.conceptNetwork.Some?, t.network);
    AppendIfExtends(s5, r.linguisticPatterns.Some?, t.patterns);
    AppendIfExtends(s6, r.contradictions.Some?, t.contradictions);
    AppendIfExtends(s7, r.wordFrequencies.Some?, t.frequencies);
    assert [t.header, t.summary] <= s8;
  }

  /** Joined sections start with a non-empty first section and end with a non-empty last
      one; the parts joined are the non-empty sections, and every non-empty section is one
      of them. */
  lemma JoinedFacts(sections: seq<string>)
    requires |sections| >= 1 && sections[0] != "" && sections[|sections| - 1] != ""
    ensures var j := Joined(sections); var last := sections[|sections| - 1];
      sections[0] <= j && |last| <= |j| && j[|j| - |last|..] == last
    ensures var parts := Seqs.Filter(sections, IsNonEmpty);
      && (forall p :: p in parts ==> p != "")
      && (forall k :: 0 <= k < |sections| && sections[k] != "" ==> sections[k] in parts)
  {
    var ts := sections;
    var n := |ts|;
    var parts := Seqs.Filter(ts, IsNonEmpty);
    if n == 1 {
      assert parts == [ts[0]];
    } else {
      var mid := ts[1..n - 1];
      assert ts == [ts[0]] + mid + [ts[n - 1]];
      Seqs.FilterAppend([ts[0]] + mid, [ts[n - 1]], IsNonEmpty);
      Seqs.FilterAppend([ts[0]], mid, IsNonEmpty);
      assert Seqs.Filter([ts[n - 1]], IsNonEmpty) == [ts[n - 1]];
      assert parts == [ts[0]] + Seqs.Filter(mid, IsNonEmpty) + [ts[n - 1]];
    }
    Text.JoinFirstLast(parts, "\n\n");
    forall p | p in parts ensures p != "" {
      assert p in multiset(parts);
      Seqs.FilterMultiset(ts, IsNonEmpty, p);
    }
    forall k | 0 <= k < |ts| && ts[k] != "" ensures ts[k] in parts {
      assert ts[k] in multiset(ts);
      Seqs.FilterMultiset(ts, IsNonEmpty, ts[k]);
    }
  }

  /** The report body starts with the header and ends with the footer. */
  lemma ContentFacts(r: AnalysisResult, f: Format)
    ensures Header(r, f) <= Content(r, f)
    ensures var c := Content(r, f); |Footer| <= |c| && c[|c| - |Footer|..] == Footer
  {
    var t := BuildTexts(r, f);
    AssembleEnds(r, t);
    assert Header(r, f)[0] == '#';
    assert Footer[0] == '-';
    JoinedFacts(Assemble(r, t));
  }
}
