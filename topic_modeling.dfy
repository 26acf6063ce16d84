/** Keyword topic scoring.

    Five fixed topics, each with ten keywords. A topic's score is the summed count of
    its keywords in the lower-cased text; topics scoring 0 are dropped, and when none
    is left a single 'Geral' topic is scored by the number of whitespace tokens. The
    distribution divides every score by their total, which is 0 (a division by zero)
    exactly when the text has neither keywords nor tokens. Each topic then gets up to
    eight related words from the word-frequency keys, and a two-level hierarchy links
    a central node to every topic. */
module TopicModeling {

  import opened Text
  import opened Wrappers
  import Seqs
  import Calibration
  import WordFrequency

  const TechnologyKeywords: seq<string> := ["sistema", "software", "código", "programa", "computador", "dados",
    "tecnologia", "digital", "internet", "aplicativo"]
  const EducationKeywords: seq<string> := ["curso", "aula", "professor", "aluno", "escola", "ensino", "aprendizagem",
    "estudo", "educação", "conhecimento"]
  const WorkKeywords: seq<string> := ["trabalho", "empresa", "projeto", "equipe", "cliente", "processo",
    "resultado", "meta", "objetivo", "prazo"]
  const PersonalKeywords: seq<string> := ["vida", "família", "casa", "tempo", "dia", "pessoa", "gente", "amigo",
    "momento", "experiência"]
  const AnalysisKeywords: seq<string> := ["problema", "solução", "questão", "situação", "caso", "exemplo", "forma",
    "maneira", "aspecto", "ponto"]

  /** The analyzer's keyword table, in dictionary order. */
  const TopicKeywords: seq<(string, seq<string>)> := [
    ("Tecnologia", TechnologyKeywords),
    ("Educação", EducationKeywords),
    ("Trabalho", WorkKeywords),
    ("Pessoal", PersonalKeywords),
    ("Análise", AnalysisKeywords)
  ]

  const GeneralTopic: string := "Geral"
  const WordsPerTopic: nat := 8
  const CentralId: string := "central"
  const CentralLabel: string := "TEMAS PRINCIPAIS"
  const CentralSize: int := 50
  const FallbackWeight: real := 0.1

  const DivisionByZero: string := "division by zero"

  /** topic_keywords.get(name, []) */
  function KeywordsOf(name: string, topics: seq<(string, seq<string>)>): seq<string> {
    if topics == [] then []
    else if topics[0].0 == name then topics[0].1
    else KeywordsOf(name, topics[1..])
  }

  // ---------------------------------------------------------------------------
  // Scores

  /** The topics whose keywords occur, with their summed keyword counts, in topic order. */
  function ScoresFrom(lower: string, topics: seq<(string, seq<string>)>): seq<(string, nat)> {
    if topics == [] then []
    else
      var score := CountAll(lower, topics[0].1);
      (if score > 0 then [(topics[0].0, score)] else []) + ScoresFrom(lower, topics[1..])
  }

  /** The entries from topic k on: topic k's entry, then those after it. */
  lemma ScoresFromStep(lower: string, topics: seq<(string, seq<string>)>, k: nat)
    requires k < |topics|
    ensures var score := CountAll(lower, topics[k].1);
      ScoresFrom(lower, topics[k..])
      == (if score > 0 then [(topics[k].0, score)] else []) + ScoresFrom(lower, topics[k + 1..])
  {
    assert topics[k..][0] == topics[k] && topics[k..][1..] == topics[k + 1..];
  }

  /** The scoring loop over the topics. */
  method CountTopics(lower: string, topics: seq<(string, seq<string>)>) returns (scores: seq<(string, nat)>)
    ensures scores == ScoresFrom(lower, topics)
  {
    scores := [];
    var k := 0;
    assert topics[k..] == topics;
    while k < |topics|
      invariant 0 <= k <= |topics|
      invariant scores + ScoresFrom(lower, topics[k..]) == ScoresFrom(lower, topics)
    {
      var score := CountAll(lower, topics[k].1);
      ScoresFromStep(lower, topics, k);
      if score > 0 {
        assert scores + ScoresFrom(lower, topics[k..])
          == (scores + [(topics[k].0, score)]) + ScoresFrom(lower, topics[k + 1..]);
        scores := scores + [(topics[k].0, score)];
      }
      k := k + 1;
    }
    assert topics[k..] == [];
  }

  /** topic_scores after the fallback to 'Geral'. */
  function TopicScores(text: string, table: seq<(string, seq<string>)>): (r: seq<(string, nat)>)
    ensures |r| >= 1
  {
    var scores := ScoresFrom(Lower(text), table);
    if scores == [] then [(GeneralTopic, |Tokens(text)|)] else scores
  }

  function Values(scores: seq<(string, nat)>): seq<nat> {
    if scores == [] then [] else [scores[0].1] + Values(scores[1..])
  }

  /** [score / total for score in values] */
  function Distribution(values: seq<nat>, total: nat): (r: seq<real>)
    requires total > 0
    ensures |r| == |values|
    ensures forall k :: 0 <= k < |r| ==> r[k] == values[k] as real / total as real
  {
    if values == [] then [] else [values[0] as real / total as real] + Distribution(values[1..], total)
  }

  // ---------------------------------------------------------------------------
  // Topics and hierarchy

  datatype Topic = Topic(id: string, words: seq<string>, weight: real, name: string)

  datatype Node = Node(id: string, title: string, level: nat, size: int)
  datatype Link = Link(source: string, target: string, weight: real)
  datatype Hierarchy = Hierarchy(centralTheme: string, nodes: seq<Node>, edges: seq<Link>)

  function TopicId(i: nat): string {
    "topic_" + NatToString(i)
  }

  predicate Related(word: string, keywords: seq<string>) {
    exists k :: k in keywords && Contains(word, k)
  }

  /** The keys that contain one of the keywords, in key order. */
  function RelevantWords(keys: seq<string>, keywords: seq<string>): (r: seq<string>)
    ensures forall k :: 0 <= k < |r| ==> r[k] in keys && Related(r[k], keywords)
  {
    if keys == [] then []
    else (if Related(keys[0], keywords) then [keys[0]] else []) + RelevantWords(keys[1..], keywords)
  }

  /** relevant_words[:8], falling back to the key slice [i*8:(i+1)*8]. */
  function TopicWords(keys: seq<string>, table: seq<(string, seq<string>)>, name: string, i: nat): seq<string> {
    var relevant := RelevantWords(keys, KeywordsOf(name, table));
    var chosen := if relevant == [] then Seqs.Slice(keys, i * WordsPerTopic, (i + 1) * WordsPerTopic) else relevant;
    Seqs.Take(chosen, WordsPerTopic)
  }

  function TopicAt(keys: seq<string>, table: seq<(string, seq<string>)>, scores: seq<(string, nat)>, dist: seq<real>, i: nat): Topic
    requires i < |scores|
  {
    Topic(TopicId(i), TopicWords(keys, table, scores[i].0, i),
          if i < |dist| then dist[i] else FallbackWeight, scores[i].0)
  }

  function Topics(keys: seq<string>, table: seq<(string, seq<string>)>, scores: seq<(string, nat)>, dist: seq<real>): (r: seq<Topic>)
    ensures |r| == |scores|
  {
    seq(|scores|, i requires 0 <= i < |scores| => TopicAt(keys, table, scores, dist, i))
  }

  /** The topics loop. */
  method BuildTopics(keys: seq<string>, table: seq<(string, seq<string>)>, scores: seq<(string, nat)>, dist: seq<real>) returns (topics: seq<Topic>)
    ensures topics == Topics(keys, table, scores, dist)
  {
    ghost var all := Topics(keys, table, scores, dist);
    topics := [];
    var i := 0;
    while i < |scores|
      invariant 0 <= i <= |scores|
      invariant topics == all[..i]
    {
      var topic := TopicAt(keys, table, scores, dist, i);
      assert topic == all[i];
      Seqs.PrefixSnoc(all, i);
      topics := topics + [topic];
      i := i + 1;
    }
    assert all[..i] == all;
  }

  /** Python's int() on a float: truncation toward zero. */
  function TruncToInt(x: real): (r: int)
    ensures 0.0 <= x ==> r as real <= x < r as real + 1.0
    ensures x < 0.0 ==> x <= r as real < x + 1.0
  {
    if 0.0 <= x then x.Floor else -((-x).Floor)
  }

  function NodeOf(t: Topic): Node {
    Node(t.id, t.name, 1, TruncToInt(t.weight * 100.0))
  }

  function LinkOf(t: Topic): Link {
    Link(CentralId, t.id, t.weight)
  }

  function CentralNode(): Node {
    Node(CentralId, CentralLabel, 0, CentralSize)
  }

  function HierarchyOf(topics: seq<Topic>): Hierarchy {
    Hierarchy(CentralLabel,
              [CentralNode()] + seq(|topics|, i requires 0 <= i < |topics| => NodeOf(topics[i])),
              seq(|topics|, i requires 0 <= i < |topics| => LinkOf(topics[i])))
  }

  /** The hierarchy loop: one node and one edge per topic. */
  method BuildHierarchy(topics: seq<Topic>) returns (h: Hierarchy)
    ensures h == HierarchyOf(topics)
  {
    var nodes := [CentralNode()];
    var edges: seq<Link> := [];
    var i := 0;
    while i < |topics|
      invariant 0 <= i <= |topics|
      invariant nodes == HierarchyOf(topics).nodes[..i + 1]
      invariant edges == HierarchyOf(topics).edges[..i]
    {
      nodes := nodes + [NodeOf(topics[i])];
      edges := edges + [LinkOf(topics[i])];
      i := i + 1;
      assert nodes == HierarchyOf(topics).nodes[..i + 1];
      assert edges == HierarchyOf(topics).edges[..i];
    }
    h := Hierarchy(CentralLabel, nodes, edges);
    assert nodes == HierarchyOf(topics).nodes[..i + 1];
  }

  // ---------------------------------------------------------------------------
  // The analyzer

  datatype TopicResult = TopicResult(
    topics: seq<Topic>,
    distribution: seq<real>,
    hierarchy: Hierarchy,
    calibration: Calibration.Params)

  function KeysFor(text: string, wordFrequencies: Option<seq<(string, nat)>>): seq<string> {
    match wordFrequencies
    case Some(f) => WordFrequency.Keys(f)
    case None => WordFrequency.Keys(WordFrequency.Analyze(text).frequencies)
  }

  /** The analysis of text against the word-frequency keys and a keyword table. */
  function Build(text: string, keys: seq<string>, table: seq<(string, seq<string>)>): Result<TopicResult, string> {
    var scores := TopicScores(text, table);
    var total := Seqs.SumNat(Values(scores));
    if total == 0 then Failure(DivisionByZero)
    else
      var dist := Distribution(Values(scores), total);
      var topics := Topics(keys, table, scores, dist);
      Success(TopicResult(topics, dist, HierarchyOf(topics), Calibration.ParamsFor(|text|)))
  }

  /** The analysis with a given keyword table; the analyzer uses TopicKeywords. */
  function Model(text: string, wordFrequencies: Option<seq<(string, nat)>>, table: seq<(string, seq<string>)>): Result<TopicResult, string> {
    Build(text, KeysFor(text, wordFrequencies), table)
  }

  method Analyze(text: string, wordFrequencies: Option<seq<(string, nat)>>) returns (r: Result<TopicResult, string>)
    ensures r == Model(text, wordFrequencies, TopicKeywords)
  {
    r := AnalyzeWith(text, wordFrequencies, TopicKeywords);
  }

  method AnalyzeWith(text: string, wordFrequencies: Option<seq<(string, nat)>>, table: seq<(string, seq<string>)>)
    returns (r: Result<TopicResult, string>)
    ensures r == Model(text, wordFrequencies, table)
  {
    var keys := KeysFor(text, wordFrequencies);
    r := BuildWith(text, keys, table);
  }

  method BuildWith(text: string, keys: seq<string>, table: seq<(string, seq<string>)>) returns (r: Result<TopicResult, string>)
    ensures r == Build(text, keys, table)
  {
    var scores := CountTopics(Lower(text), table);
    if scores == [] {
      scores := [(GeneralTopic, |Tokens(text)|)];
    }
    var total := Seqs.SumNat(Values(scores));
    if total == 0 {
      return Failure(DivisionByZero);
    }
    var dist := Distribution(Values(scores), total);
    var topics := BuildTopics(keys, table, scores, dist);
    var h := BuildHierarchy(topics);
    r := Success(TopicResult(topics, dist, h, Calibration.ParamsFor(|text|)));
  }

  // ---------------------------------------------------------------------------
  // Properties

  /** An entry is a topic with a positive summed keyword count, and every topic with a
      positive count has its entry. */
  lemma {:induction false} ScoresFromFacts(lower: string, topics: seq<(string, seq<string>)>)
    ensures var r := ScoresFrom(lower, topics);
      && (forall e :: e in r ==> e.1 > 0 && exists t :: t in topics && t.0 == e.0 && e.1 == CountAll(lower, t.1))
      && (forall t :: t in topics && CountAll(lower, t.1) > 0 ==> (t.0, CountAll(lower, t.1)) in r)
      && |r| <= |topics|
  {
    if topics != [] {
      ScoresFromFacts(lower, topics[1..]);
      var rest := ScoresFrom(lower, topics[1..]);
      var score := CountAll(lower, topics[0].1);
      assert topics == [topics[0]] + topics[1..];
      if score > 0 {
        assert ScoresFrom(lower, topics) == [(topics[0].0, score)] + rest;
      } else {
        assert ScoresFrom(lower, topics) == rest;
      }
    }
  }

  lemma {:induction false} SumDistribution(values: seq<nat>, total: nat)
    requires total > 0
    ensures Seqs.Sum(Distribution(values, total)) == Seqs.SumNat(values) as real / total as real
  {
    if values != [] {
      SumDistribution(values[1..], total);
      var d := Distribution(values, total);
      var rest := Seqs.SumNat(values[1..]);
      assert d[1..] == Distribution(values[1..], total);
      assert Seqs.Sum(d) == values[0] as real / total as real + rest as real / total as real;
      assert Seqs.SumNat(values) as real == values[0] as real + rest as real;
      DivAdd(values[0] as real, rest as real, total as real);
    }
  }

  lemma DivAdd(x: real, y: real, t: real)
    requires t != 0.0
    ensures x / t + y / t == (x + y) / t
  {
  }

  lemma {:induction false} ValuesFacts(scores: seq<(string, nat)>)
    ensures |Values(scores)| == |scores|
    ensures forall k :: 0 <= k < |scores| ==> Values(scores)[k] == scores[k].1
  {
    if scores != [] {
      ValuesFacts(scores[1..]);
    }
  }

  /** The distribution has one entry per topic, each its score over the total, and the
      entries add up to 1. */
  lemma DistributionFacts(text: string, keys: seq<string>, table: seq<(string, seq<string>)>)
    requires Build(text, keys, table).Success?
    ensures var r := Build(text, keys, table).value;
      var scores := TopicScores(text, table);
      var total := Seqs.SumNat(Values(scores));
      && total > 0
      && |r.distribution| == |scores|
      && (forall k :: 0 <= k < |scores| ==> r.distribution[k] == scores[k].1 as real / total as real)
      && Seqs.Sum(r.distribution) == 1.0
  {
    var scores := TopicScores(text, table);
    var total := Seqs.SumNat(Values(scores));
    ValuesFacts(scores);
    SumDistribution(Values(scores), total);
  }

  /** Blank text holds no keyword. */
  lemma {:induction false} BlankCountsZero(p: string, keywords: seq<string>)
    requires Tokens(p) == []
    requires forall t :: t in keywords ==> |t| > 0 && 'a' <= t[0] <= 'z'
    ensures CountAll(Lower(p), keywords) == 0
  {
    if keywords != [] {
      LetterNotSpace(keywords[0][0]);
      BlankHasNoWord(p, keywords[0]);
      CountPositiveIffContains(Lower(p), keywords[0]);
      BlankCountsZero(p, keywords[1..]);
    }
  }

  predicate LetterKeywords(table: seq<(string, seq<string>)>) {
    forall k :: 0 <= k < |table| ==> LetterWords(table[k].1)
  }

  lemma {:induction false} BlankScoresEmpty(p: string, table: seq<(string, seq<string>)>)
    requires Tokens(p) == []
    requires LetterKeywords(table)
    ensures ScoresFrom(Lower(p), table) == []
  {
    if table != [] {
      BlankCountsZero(p, table[0].1);
      BlankScoresEmpty(p, table[1..]);
    }
  }

  predicate LetterWords(keywords: seq<string>) {
    forall t :: t in keywords ==> |t| > 0 && 'a' <= t[0] <= 'z'
  }

  lemma TechnologyShape() ensures LetterWords(TechnologyKeywords) {}
  lemma EducationShape() ensures LetterWords(EducationKeywords) {}
  lemma WorkShape() ensures LetterWords(WorkKeywords) {}
  lemma PersonalShape() ensures LetterWords(PersonalKeywords) {}
  lemma AnalysisShape() ensures LetterWords(AnalysisKeywords) {}

  lemma LetterKeywordsOfFive(n0: string, k0: seq<string>, n1: string, k1: seq<string>, n2: string, k2: seq<string>,
                              n3: string, k3: seq<string>, n4: string, k4: seq<string>)
    requires LetterWords(k0) && LetterWords(k1) && LetterWords(k2) && LetterWords(k3) && LetterWords(k4)
    ensures LetterKeywords([(n0, k0), (n1, k1), (n2, k2), (n3, k3), (n4, k4)])
  {
  }

  /** Every keyword of the analyzer's table starts with an ASCII letter. */
  lemma KeywordShape()
    ensures LetterKeywords(TopicKeywords)
  {
    TechnologyShape();
    EducationShape();
    WorkShape();
    PersonalShape();
    AnalysisShape();
    LetterKeywordsOfFive("Tecnologia", TechnologyKeywords, "Educação", EducationKeywords, "Trabalho", WorkKeywords,
                         "Pessoal", PersonalKeywords, "Análise", AnalysisKeywords);
  }

  lemma {:induction false} PositiveTotal(scores: seq<(string, nat)>)
    requires scores != []
    requires forall e :: e in scores ==> e.1 > 0
    ensures Seqs.SumNat(Values(scores)) > 0
  {
    assert scores[0] in scores;
  }

  /** The distribution divides by zero exactly when no keyword occurs and the text has no
      token; with keywords that start with a letter, empty or whitespace-only text fails,
      and every text with a token succeeds, through 'Geral' if need be. */
  lemma DivisionByZeroCases(text: string, keys: seq<string>, table: seq<(string, seq<string>)>)
    ensures Build(text, keys, table).Failure? <==>
      ScoresFrom(Lower(text), table) == [] && Tokens(text) == []
    ensures ScoresFrom(Lower(text), table) == [] ==> TopicScores(text, table) == [(GeneralTopic, |Tokens(text)|)]
    ensures LetterKeywords(table) && Tokens(text) == [] ==> Build(text, keys, table).Failure?
  {
    var scores := ScoresFrom(Lower(text), table);
    ScoresFromFacts(Lower(text), table);
    if scores != [] {
      PositiveTotal(scores);
    } else {
      assert Values(TopicScores(text, table)) == [|Tokens(text)|];
    }
    if Tokens(text) == [] && LetterKeywords(table) {
      BlankScoresEmpty(text, table);
    }
  }

  /** The analyzer fails with a division by zero on empty or whitespace-only text. */
  lemma BlankTextFails(text: string, wordFrequencies: Option<seq<(string, nat)>>)
    requires Tokens(text) == []
    ensures Model(text, wordFrequencies, TopicKeywords).Failure?
  {
    KeywordShape();
    DivisionByZeroCases(text, KeysFor(text, wordFrequencies), TopicKeywords);
  }

  /** Topic i is named after the i-th score, identified as topic_i, weighted by the i-th
      share, and lists at most eight words: the keys containing one of its keywords, or,
      when there are none, the i-th block of eight keys. */
  lemma TopicFacts(text: string, keys: seq<string>, table: seq<(string, seq<string>)>, i: nat)
    requires Build(text, keys, table).Success?
    requires i < |TopicScores(text, table)|
    ensures var r := Build(text, keys, table).value;
      var t := r.topics[i];
      var relevant := RelevantWords(keys, KeywordsOf(t.name, table));
      && |r.topics| == |TopicScores(text, table)|
      && t.id == "topic_" + NatToString(i)
      && t.name == TopicScores(text, table)[i].0
      && i < |r.distribution| && t.weight == r.distribution[i]
      && |t.words| <= WordsPerTopic
      && (relevant != [] ==> t.words == Seqs.Take(relevant, WordsPerTopic)
                             && forall w :: w in t.words ==> w in keys && Related(w, KeywordsOf(t.name, table)))
      && (relevant == [] ==> t.words == Seqs.Take(Seqs.Slice(keys, i * WordsPerTopic, (i + 1) * WordsPerTopic), WordsPerTopic))
  {
    DistributionFacts(text, keys, table);
  }

  /** The hierarchy has the central node first and one node and one edge per topic, each
      edge from the central node to that topic; a topic's node carries its label and
      int(weight * 100) as its size. */
  lemma HierarchyFacts(topics: seq<Topic>)
    ensures var h := HierarchyOf(topics);
      && h.centralTheme == "TEMAS PRINCIPAIS"
      && |h.nodes| == |topics| + 1
      && h.nodes[0] == Node("central", "TEMAS PRINCIPAIS", 0, 50)
      && |h.edges| == |topics|
      && (forall k :: 0 <= k < |topics| ==>
            h.nodes[k + 1].id == topics[k].id && h.nodes[k + 1].level == 1
            && h.nodes[k + 1].title == topics[k].name
            && h.nodes[k + 1].size == TruncToInt(topics[k].weight * 100.0)
            && (0.0 <= topics[k].weight ==> h.nodes[k + 1].size == (topics[k].weight * 100.0).Floor)
            && h.edges[k].source == CentralId && h.edges[k].target == topics[k].id
            && h.edges[k].weight == topics[k].weight)
  {
  }
}
