/** Sentence co-occurrence network over the most frequent words.

    The candidates are the first 30 keys of the word-frequency table. Inside every
    sentence of the lower-cased text, each ordered position pair i < j of candidate
    tokens with different words adds one to the weight of the canonical (sorted) pair.
    The 20 heaviest pairs, ties in discovery order, become the edges. */
module ConceptNetwork {

  import opened Text
  import opened Wrappers
  import Seqs
  import Sorting
  import Calibration
  import WordFrequency

  const CandidateLimit: nat := 30
  const EdgeLimit: nat := 20

  type Pair = (string, string)

  /** tuple(sorted([a, b])) */
  function Canonical(a: string, b: string): (p: Pair)
    ensures p == (a, b) || p == (b, a)
    ensures a != b ==> StrLess(p.0, p.1)
  {
    StrLessTotal2(a, b);
    if StrLess(b, a) then (b, a) else (a, b)
  }

  lemma StrLessTotal2(a: string, b: string)
    ensures a != b ==> StrLess(a, b) || StrLess(b, a)
  {
    if a != b { StrLessTotal(a, b); }
  }

  // ---------------------------------------------------------------------------
  // The co-occurrence counter: a defaultdict(int) keeping insertion order

  datatype Tally = Tally(order: seq<Pair>, weights: map<Pair, nat>)

  const EmptyTally: Tally := Tally([], map[])

  /** cooccurrence[p] += 1 */
  function Bump(t: Tally, p: Pair): Tally {
    if p in t.weights then Tally(t.order, t.weights[p := t.weights[p] + 1])
    else Tally(t.order + [p], t.weights[p := 1])
  }

  function BumpAll(t: Tally, ps: seq<Pair>): Tally
    decreases |ps|
  {
    if ps == [] then t else BumpAll(Bump(t, ps[0]), ps[1..])
  }

  lemma {:induction false} BumpAllAppend(t: Tally, a: seq<Pair>, b: seq<Pair>)
    ensures BumpAll(t, a + b) == BumpAll(BumpAll(t, a), b)
    decreases |a|
  {
    if a == [] {
      assert a + b == b;
    } else {
      assert (a + b)[0] == a[0] && (a + b)[1..] == a[1..] + b;
      BumpAllAppend(Bump(t, a[0]), a[1..], b);
    }
  }

  /** Each pair of ps with its number of occurrences. */
  function Weights(ps: seq<Pair>): map<Pair, nat> {
    map p | p in ps :: multiset(ps)[p]
  }

  /** Reference definition of a counter over a sequence of occurrences: the distinct
      values in first-occurrence order, each with its number of occurrences. */
  function Counter(ps: seq<Pair>): Tally {
    Tally(Seqs.Dedup(ps), Weights(ps))
  }

  /** One more occurrence of p adds one to p's weight, starting from 0. */
  lemma WeightsSnoc(ps: seq<Pair>, p: Pair)
    ensures var w := Weights(ps);
      Weights(ps + [p]) == w[p := (if p in w then w[p] else 0) + 1]
  {
    var w := Weights(ps);
    var w' := Weights(ps + [p]);
    var b := w[p := (if p in w then w[p] else 0) + 1];
    assert multiset(ps + [p]) == multiset(ps) + multiset{p};
    forall q ensures q in w' <==> q in b {
      assert q in ps + [p] <==> q in ps || q == p;
    }
    forall q | q in b ensures w'[q] == b[q] {
      if q != p {
        assert q in ps;
      }
    }
    assert w' == b;
  }

  lemma BumpCounter(ps: seq<Pair>, p: Pair)
    ensures Bump(Counter(ps), p) == Counter(ps + [p])
  {
    Seqs.DedupSnoc(ps, p);
    Seqs.DedupMembers(ps, p);
    WeightsSnoc(ps, p);
    assert p in Weights(ps) <==> p in ps;
  }

  /** Bumping along a sequence from the empty counter counts that sequence. */
  lemma {:induction false} BumpAllCounter(done: seq<Pair>, ps: seq<Pair>)
    ensures BumpAll(Counter(done), ps) == Counter(done + ps)
    decreases |ps|
  {
    if ps == [] {
      assert done + ps == done;
    } else {
      var next := done + [ps[0]];
      calc {
        BumpAll(Counter(done), ps);
        BumpAll(Bump(Counter(done), ps[0]), ps[1..]);
        { BumpCounter(done, ps[0]); }
        BumpAll(Counter(next), ps[1..]);
        { BumpAllCounter(next, ps[1..]); }
        Counter(next + ps[1..]);
        { assert next + ps[1..] == done + ps; }
        Counter(done + ps);
      }
    }
  }

  lemma CountFromEmpty(ps: seq<Pair>)
    ensures BumpAll(EmptyTally, ps) == Counter(ps)
  {
    assert Counter([]) == EmptyTally;
    BumpAllCounter([], ps);
    assert [] + ps == ps;
  }

  // ---------------------------------------------------------------------------
  // Reference definition of the pair occurrences, in the loops' visiting order

  /** The pairs word1 forms with the later candidates of its sentence. */
  function RowPairs(w: string, later: seq<string>): seq<Pair> {
    if later == [] then []
    else
      (if w != later[0] then [Canonical(w, later[0])] else [])
      + RowPairs(w, later[1..])
  }

  function SentencePairs(ws: seq<string>): seq<Pair> {
    if ws == [] then [] else RowPairs(ws[0], ws[1..]) + SentencePairs(ws[1..])
  }

  /** [w for w in tokens if w in top] */
  function Candidates(tokens: seq<string>, top: seq<string>): (r: seq<string>)
    ensures forall k :: 0 <= k < |r| ==> r[k] in top && r[k] in tokens
  {
    if tokens == [] then []
    else (if tokens[0] in top then [tokens[0]] else []) + Candidates(tokens[1..], top)
  }

  function Occurrences(sentences: seq<string>, top: seq<string>): seq<Pair> {
    if sentences == [] then []
    else SentencePairs(Candidates(Tokens(sentences[0]), top)) + Occurrences(sentences[1..], top)
  }

  // ---------------------------------------------------------------------------
  // The counting loops

  method CountRow(t0: Tally, w: string, later: seq<string>) returns (t: Tally)
    ensures t == BumpAll(t0, RowPairs(w, later))
  {
    t := t0;
    var j := 0;
    assert later[j..] == later;
    while j < |later|
      invariant 0 <= j <= |later|
      invariant BumpAll(t, RowPairs(w, later[j..])) == BumpAll(t0, RowPairs(w, later))
    {
      assert later[j..][0] == later[j] && later[j..][1..] == later[j + 1..];
      if w != later[j] {
        var p := Canonical(w, later[j]);
        BumpAllAppend(t, [p], RowPairs(w, later[j + 1..]));
        t := Bump(t, p);
      } else {
        assert RowPairs(w, later[j..]) == RowPairs(w, later[j + 1..]);
      }
      j := j + 1;
    }
    assert later[j..] == [];
  }

  method CountSentence(t0: Tally, ws: seq<string>) returns (t: Tally)
    ensures t == BumpAll(t0, SentencePairs(ws))
  {
    t := t0;
    var i := 0;
    assert ws[i..] == ws;
    while i < |ws|
      invariant 0 <= i <= |ws|
      invariant BumpAll(t, SentencePairs(ws[i..])) == BumpAll(t0, SentencePairs(ws))
    {
      assert ws[i..][0] == ws[i] && ws[i..][1..] == ws[i + 1..];
      BumpAllAppend(t, RowPairs(ws[i], ws[i + 1..]), SentencePairs(ws[i + 1..]));
      t := CountRow(t, ws[i], ws[i + 1..]);
      i := i + 1;
    }
    assert ws[i..] == [];
  }

  /** The nested loops over sentences and token positions. */
  method CountCooccurrences(sentences: seq<string>, top: seq<string>) returns (t: Tally)
    ensures t == Counter(Occurrences(sentences, top))
  {
    t := EmptyTally;
    var s := 0;
    assert sentences[s..] == sentences;
    while s < |sentences|
      invariant 0 <= s <= |sentences|
      invariant BumpAll(t, Occurrences(sentences[s..], top)) == BumpAll(EmptyTally, Occurrences(sentences, top))
    {
      assert sentences[s..][0] == sentences[s] && sentences[s..][1..] == sentences[s + 1..];
      var ws := Candidates(Tokens(sentences[s]), top);
      BumpAllAppend(t, SentencePairs(ws), Occurrences(sentences[s + 1..], top));
      t := CountSentence(t, ws);
      s := s + 1;
    }
    assert sentences[s..] == [];
    CountFromEmpty(Occurrences(sentences, top));
  }

  // ---------------------------------------------------------------------------
  // Edge selection

  datatype Edge = Edge(word1: string, word2: string, weight: nat)

  /** cooccurrence.items() */
  function Items(t: Tally): seq<(Pair, nat)> {
    seq(|t.order|, k requires 0 <= k < |t.order| =>
      (t.order[k], if t.order[k] in t.weights then t.weights[t.order[k]] else 0))
  }

  function ItemWeight(e: (Pair, nat)): real {
    e.1 as real
  }

  /** sorted(items, key=weight, reverse=True)[:20] */
  function TopItems(t: Tally): seq<(Pair, nat)> {
    Seqs.Take(Sorting.SortDesc(Items(t), ItemWeight), EdgeLimit)
  }

  /** The edges of the items whose weight is at least 1, in order. */
  function Significant(items: seq<(Pair, nat)>): (r: seq<Edge>)
    ensures |r| <= |items|
  {
    if items == [] then []
    else
      (if items[0].1 >= 1 then [Edge(items[0].0.0, items[0].0.1, items[0].1)] else [])
      + Significant(items[1..])
  }

  /** The loop that appends the significant connections. */
  method Connections(items: seq<(Pair, nat)>) returns (edges: seq<Edge>)
    ensures edges == Significant(items)
  {
    edges := [];
    var k := 0;
    assert items[k..] == items;
    while k < |items|
      invariant 0 <= k <= |items|
      invariant edges + Significant(items[k..]) == Significant(items)
    {
      var item := items[k];
      assert items[k..][0] == item && items[k..][1..] == items[k + 1..];
      if item.1 >= 1 {
        edges := edges + [Edge(item.0.0, item.0.1, item.1)];
      }
      k := k + 1;
    }
    assert items[k..] == [];
  }

  datatype Result = Result(
    network: seq<Edge>,
    totalPairsAnalyzed: nat,
    significantConnections: nat,
    wordsAnalyzed: nat,
    calibration: Calibration.Params)

  /** list(word_frequencies.keys())[:30], computing the frequencies when none are given. */
  function TopWords(text: string, wordFrequencies: Option<seq<(string, nat)>>): seq<string> {
    var freqs := match wordFrequencies
      case Some(f) => f
      case None => WordFrequency.Analyze(text).frequencies;
    Seqs.Take(WordFrequency.Keys(freqs), CandidateLimit)
  }

  function SentencesOf(text: string): seq<string> {
    SplitSentences(Lower(text))
  }

  function AllOccurrences(text: string, wordFrequencies: Option<seq<(string, nat)>>): seq<Pair> {
    Occurrences(SentencesOf(text), TopWords(text, wordFrequencies))
  }

  function Network(text: string, wordFrequencies: Option<seq<(string, nat)>>): Result {
    var top := TopWords(text, wordFrequencies);
    var t := Counter(AllOccurrences(text, wordFrequencies));
    var edges := Significant(TopItems(t));
    Result(edges, |t.order|, |edges|, |top|, Calibration.ParamsFor(|text|))
  }

  method Analyze(text: string, wordFrequencies: Option<seq<(string, nat)>>) returns (r: Result)
    ensures r == Network(text, wordFrequencies)
  {
    var top := TopWords(text, wordFrequencies);
    var sentences := SentencesOf(text);
    var t := CountCooccurrences(sentences, top);
    var edges := Connections(TopItems(t));
    r := Result(edges, |t.order|, |edges|, |top|, Calibration.ParamsFor(|text|));
  }

  // ---------------------------------------------------------------------------
  // Properties

  /** Each row pair is canonical, of two different words: the row's word and a later one. */
  lemma {:induction false} RowPairsShape(w: string, later: seq<string>)
    ensures forall p :: p in RowPairs(w, later) ==>
      StrLess(p.0, p.1) && (p.0 == w || p.0 in later) && (p.1 == w || p.1 in later)
  {
    if later != [] {
      RowPairsShape(w, later[1..]);
      forall x | x in later[1..] ensures x in later { }
    }
  }

  lemma {:induction false} SentencePairsShape(ws: seq<string>)
    ensures forall p :: p in SentencePairs(ws) ==> StrLess(p.0, p.1) && p.0 in ws && p.1 in ws
  {
    if ws != [] {
      RowPairsShape(ws[0], ws[1..]);
      SentencePairsShape(ws[1..]);
      forall x | x in ws[1..] ensures x in ws { }
    }
  }

  /** Every counted pair is canonical and joins two candidate words. */
  lemma {:induction false} OccurrencesShape(sentences: seq<string>, top: seq<string>)
    ensures forall p :: p in Occurrences(sentences, top) ==> StrLess(p.0, p.1) && p.0 in top && p.1 in top
  {
    if sentences != [] {
      var ws := Candidates(Tokens(sentences[0]), top);
      SentencePairsShape(ws);
      OccurrencesShape(sentences[1..], top);
    }
  }

  /** The items of a counter are its distinct pairs, each with its positive count. */
  lemma CounterItems(ps: seq<Pair>, k: nat)
    requires k < |Items(Counter(ps))|
    ensures var e := Items(Counter(ps))[k];
      e.0 in ps && e.1 == multiset(ps)[e.0] && e.1 >= 1
  {
    var d := Seqs.Dedup(ps);
    Seqs.DedupMembers(ps, d[k]);
  }

  /** Every selected item is one of the counter's items. */
  lemma TopItemIsItem(t: Tally, k: nat)
    requires k < |TopItems(t)|
    ensures TopItems(t)[k] in Items(t)
  {
    var s := Sorting.SortDesc(Items(t), ItemWeight);
    Sorting.SortDescPermutation(Items(t), ItemWeight);
    assert TopItems(t)[k] == s[k];
    assert s[k] in multiset(Items(t)) by { assert s[k] in s; }
  }

  /** When every weight is at least 1, every item becomes an edge. */
  lemma {:induction false} SignificantAll(items: seq<(Pair, nat)>)
    requires forall k :: 0 <= k < |items| ==> items[k].1 >= 1
    ensures |Significant(items)| == |items|
    ensures forall k :: 0 <= k < |items| ==>
      Significant(items)[k] == Edge(items[k].0.0, items[k].0.1, items[k].1)
  {
    if items != [] {
      SignificantAll(items[1..]);
      var r := Significant(items);
      assert r == [Edge(items[0].0.0, items[0].0.1, items[0].1)] + Significant(items[1..]);
    }
  }

  /** Every item selected from a counted tally has a positive weight. */
  lemma TopItemsPositive(ps: seq<Pair>)
    ensures forall k :: 0 <= k < |TopItems(Counter(ps))| ==> TopItems(Counter(ps))[k].1 >= 1
  {
    var top := TopItems(Counter(ps));
    forall k | 0 <= k < |top| ensures top[k].1 >= 1 {
      TopItemIsItem(Counter(ps), k);
      var j :| 0 <= j < |Items(Counter(ps))| && Items(Counter(ps))[j] == top[k];
      CounterItems(ps, j);
    }
  }

  lemma EdgesAreTopItems(text: string, wordFrequencies: Option<seq<(string, nat)>>)
    ensures var top := TopItems(Counter(AllOccurrences(text, wordFrequencies)));
      var edges := Network(text, wordFrequencies).network;
      && |edges| == |top|
      && forall k :: 0 <= k < |top| ==> edges[k] == Edge(top[k].0.0, top[k].0.1, top[k].1)
  {
    TopItemsPositive(AllOccurrences(text, wordFrequencies));
    SignificantAll(TopItems(Counter(AllOccurrences(text, wordFrequencies))));
  }

  /** Each edge joins two different candidate words in sorted order, and its weight is
      the number of times the pair was counted, at least 1. */
  lemma EdgeFacts(text: string, wordFrequencies: Option<seq<(string, nat)>>, k: nat)
    requires k < |Network(text, wordFrequencies).network|
    ensures var e := Network(text, wordFrequencies).network[k];
      var top := TopWords(text, wordFrequencies);
      && StrLess(e.word1, e.word2) && e.word1 != e.word2
      && e.word1 in top && e.word2 in top
      && e.weight == multiset(AllOccurrences(text, wordFrequencies))[(e.word1, e.word2)]
      && e.weight >= 1
  {
    var ps := AllOccurrences(text, wordFrequencies);
    var t := Counter(ps);
    EdgesAreTopItems(text, wordFrequencies);
    TopItemIsItem(t, k);
    var j :| 0 <= j < |Items(t)| && Items(t)[j] == TopItems(t)[k];
    CounterItems(ps, j);
    OccurrencesShape(SentencesOf(text), TopWords(text, wordFrequencies));
    var e := Network(text, wordFrequencies).network[k];
    if e.word1 == e.word2 {
      StrLessIrreflexive(e.word1);
    }
  }

  /** No two edges share a pair, in either orientation. */
  lemma EdgesDistinct(text: string, wordFrequencies: Option<seq<(string, nat)>>, a: nat, b: nat)
    requires a < b < |Network(text, wordFrequencies).network|
    ensures var es := Network(text, wordFrequencies).network;
      && (es[a].word1, es[a].word2) != (es[b].word1, es[b].word2)
      && (es[a].word1, es[a].word2) != (es[b].word2, es[b].word1)
  {
    var ps := AllOccurrences(text, wordFrequencies);
    var t := Counter(ps);
    var items := Items(t);
    var s := Sorting.SortDesc(items, ItemWeight);
    EdgesAreTopItems(text, wordFrequencies);
    // the items' pairs are the distinct de-duplicated pairs
    assert Seqs.Distinct(items) by {
      forall i, j | 0 <= i < j < |items| ensures items[i] != items[j] {
        assert items[i].0 == t.order[i] && items[j].0 == t.order[j];
      }
    }
    Sorting.SortDescPermutation(items, ItemWeight);
    Seqs.DistinctPermutation(items, s);
    var top := TopItems(t);
    assert top[a] == s[a] && top[b] == s[b];
    assert s[a] != s[b];
    var es := Network(text, wordFrequencies).network;
    // equal pairs would mean equal weights, hence equal items
    TopItemIsItem(t, a);
    TopItemIsItem(t, b);
    var ia :| 0 <= ia < |items| && items[ia] == top[a];
    var ib :| 0 <= ib < |items| && items[ib] == top[b];
    CounterItems(ps, ia);
    CounterItems(ps, ib);
    EdgeFacts(text, wordFrequencies, a);
    EdgeFacts(text, wordFrequencies, b);
    if (es[a].word1, es[a].word2) == (es[b].word2, es[b].word1) {
      StrLessAsymmetric(es[a].word1, es[a].word2);
    }
  }

  /** The selected items are the 20 heaviest counter items, or all of them when there are
      fewer: no item left out is heavier than one kept. */
  lemma TopItemsSelection(t: Tally)
    ensures var top := TopItems(t);
      && |top| == (if |Items(t)| < EdgeLimit then |Items(t)| else EdgeLimit)
      && multiset(top) <= multiset(Items(t))
      && (forall x, y :: x in multiset(Items(t)) - multiset(top) && y in top ==> ItemWeight(x) <= ItemWeight(y))
  {
    assert TopItems(t) == Sorting.TopK(Items(t), ItemWeight, EdgeLimit);
    Sorting.TopKFacts(Items(t), ItemWeight, EdgeLimit);
  }

  /** The 20 heaviest pairs become the edges, all of them when there are fewer: no pair
      left out outweighs an edge. */
  lemma EdgesSelection(text: string, wordFrequencies: Option<seq<(string, nat)>>)
    ensures var r := Network(text, wordFrequencies);
      var t := Counter(AllOccurrences(text, wordFrequencies));
      && |r.network| == (if |Items(t)| < EdgeLimit then |Items(t)| else EdgeLimit)
      && multiset(TopItems(t)) <= multiset(Items(t))
      && (forall x, k :: x in multiset(Items(t)) - multiset(TopItems(t)) && 0 <= k < |r.network| ==>
            x.1 <= r.network[k].weight)
  {
    var t := Counter(AllOccurrences(text, wordFrequencies));
    var top := TopItems(t);
    var r := Network(text, wordFrequencies);
    EdgesAreTopItems(text, wordFrequencies);
    TopItemsSelection(t);
    forall x, k | x in multiset(Items(t)) - multiset(top) && 0 <= k < |r.network|
      ensures x.1 <= r.network[k].weight
    {
      assert top[k] in top;
      assert ItemWeight(x) <= ItemWeight(top[k]);
    }
  }

  /** At most 20 edges, heaviest first, with equal weights in discovery order, selected as
      EdgesSelection states. */
  lemma EdgesOrdered(text: string, wordFrequencies: Option<seq<(string, nat)>>, c: real)
    ensures var r := Network(text, wordFrequencies);
      var t := Counter(AllOccurrences(text, wordFrequencies));
      && |r.network| == (if |Items(t)| < EdgeLimit then |Items(t)| else EdgeLimit)
      && (forall i, j :: 0 <= i < j < |r.network| ==> r.network[i].weight >= r.network[j].weight)
      && Sorting.WithKey(TopItems(t), ItemWeight, c) <= Sorting.WithKey(Items(t), ItemWeight, c)
  {
    var t := Counter(AllOccurrences(text, wordFrequencies));
    var s := Sorting.SortDesc(Items(t), ItemWeight);
    EdgesAreTopItems(text, wordFrequencies);
    Sorting.SortDescSorted(Items(t), ItemWeight);
    Sorting.SortDescStable(Items(t), ItemWeight, c);
    Sorting.WithKeyPrefix(TopItems(t), s, ItemWeight, c);
    var top := TopItems(t);
    forall i, j | 0 <= i < j < |top| ensures top[i].1 >= top[j].1 {
      assert top[i] == s[i] && top[j] == s[j];
      assert ItemWeight(s[i]) >= ItemWeight(s[j]);
    }
    EdgesSelection(text, wordFrequencies);
  }

  /** words_analyzed <= 30, and total_pairs_analyzed counts the distinct pairs, which is
      at least the number of edges. */
  lemma Totals(text: string, wordFrequencies: Option<seq<(string, nat)>>)
    ensures var r := Network(text, wordFrequencies);
      && r.wordsAnalyzed <= CandidateLimit
      && r.totalPairsAnalyzed == |Seqs.Dedup(AllOccurrences(text, wordFrequencies))|
      && r.significantConnections == |r.network| <= r.totalPairsAnalyzed
  {
    var t := Counter(AllOccurrences(text, wordFrequencies));
    assert |TopItems(t)| <= |Items(t)|;
  }
}
