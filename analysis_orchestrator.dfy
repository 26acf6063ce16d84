/** The analysis orchestrator: analyzer keys derived from class names, a depth-first
    execution order over the declared dependencies, the run loop that merges every
    analyzer's record into one root record, and the enable/disable flags and statistics.
    The discovered analyzers and their dependency lists are inputs; each analyzer's outcome
    on the text is given as a function from its key to its result (None when it raised). */
module AnalysisOrchestrator {

  import opened Wrappers
  import opened PyValues
  import Dicts
  import Seqs
  import Text

  // ---------------------------------------------------------------------------
  // Analyzer keys

  /** str.replace(pat, rep): non-overlapping occurrences, left to right. */
  function ReplaceAll(s: string, pat: string, rep: string): string
    requires pat != []
    decreases |s|
  {
    if |s| < |pat| then s
    else if s[..|pat|] == pat then rep + ReplaceAll(s[|pat|..], pat, rep)
    else [s[0]] + ReplaceAll(s[1..], pat, rep)
  }

  predicate IsUpper(c: char) { 'A' <= c <= 'Z' }
  predicate IsLower(c: char) { 'a' <= c <= 'z' }
  predicate IsLowerOrDigit(c: char) { IsLower(c) || ('0' <= c <= '9') }

  /** re.sub('(.)([A-Z][a-z]+)', r'\1_\2', s): any character but a newline, then a capital
      followed by the longest run of small letters. */
  function SplitWords(s: string): string
    decreases |s|
  {
    if |s| < 3 then s
    else if s[0] != '\n' && IsUpper(s[1]) && IsLower(s[2]) then
      var n := 2 + Text.RunLen(s[2..], IsLower);
      [s[0]] + "_" + s[1..n] + SplitWords(s[n..])
    else [s[0]] + SplitWords(s[1..])
  }

  /** re.sub('([a-z0-9])([A-Z])', r'\1_\2', s) */
  function SplitCaps(s: string): string
    decreases |s|
  {
    if |s| < 2 then s
    else if IsLowerOrDigit(s[0]) && IsUpper(s[1]) then [s[0], '_', s[1]] + SplitCaps(s[2..])
    else [s[0]] + SplitCaps(s[1..])
  }

  const Suffix: string := "Analyzer"

  /** _get_analyzer_key */
  function AnalyzerKey(className: string): string {
    Text.Lower(SplitCaps(SplitWords(ReplaceAll(className, Suffix, ""))))
  }

  /** Drop the underscores. */
  function NoUnderscores(s: string): string {
    if s == [] then [] else (if s[0] == '_' then [] else [s[0]]) + NoUnderscores(s[1..])
  }

  lemma {:induction false} NoUnderscoresAppend(a: string, b: string)
    ensures NoUnderscores(a + b) == NoUnderscores(a) + NoUnderscores(b)
  {
    if a == [] {
      assert a + b == b;
    } else {
      var h := if a[0] == '_' then [] else [a[0]];
      assert (a + b)[0] == a[0] && (a + b)[1..] == a[1..] + b;
      NoUnderscoresAppend(a[1..], b);
      assert NoUnderscores(a + b) == h + NoUnderscores(a[1..] + b);
      assert NoUnderscores(a) == h + NoUnderscores(a[1..]);
    }
  }

  /** Inserting an underscore between a and b, and replacing c by a string with the same
      characters other than underscores, changes nothing once the underscores are gone. */
  lemma NoUnderscoresInsert(a: string, b: string, c: string, c': string)
    requires NoUnderscores(c') == NoUnderscores(c)
    ensures NoUnderscores(a + ("_" + (b + c'))) == NoUnderscores(a + (b + c))
  {
    var bc', bc := b + c', b + c;
    assert NoUnderscores(bc') == NoUnderscores(bc) by {
      NoUnderscoresAppend(b, c');
      NoUnderscoresAppend(b, c);
    }
    var u := "_" + bc';
    assert NoUnderscores(u) == NoUnderscores(bc') by {
      assert u[0] == '_' && u[1..] == bc';
    }
    NoUnderscoresAppend(a, u);
    NoUnderscoresAppend(a, bc);
  }

  /** One split step: the character, the underscore, the capitalised word and the rest. */
  lemma SplitWordsStep(s: string)
    requires |s| >= 3 && s[0] != '\n' && IsUpper(s[1]) && IsLower(s[2])
    requires var n := 2 + Text.RunLen(s[2..], IsLower);
      NoUnderscores(SplitWords(s[n..])) == NoUnderscores(s[n..])
    ensures NoUnderscores(SplitWords(s)) == NoUnderscores(s)
  {
    var n := 2 + Text.RunLen(s[2..], IsLower);
    var head := [s[0]];
    var word := s[1..n];
    var rest := s[n..];
    SplitWordsAt(s);
    Associate(head, "_", word, SplitWords(rest));
    Decompose(s, n);
    NoUnderscoresInsert(head, word, rest, SplitWords(rest));
  }

  /** No split at the first character. */
  lemma SplitWordsPass(s: string)
    requires |s| >= 3 && !(s[0] != '\n' && IsUpper(s[1]) && IsLower(s[2]))
    requires NoUnderscores(SplitWords(s[1..])) == NoUnderscores(s[1..])
    ensures NoUnderscores(SplitWords(s)) == NoUnderscores(s)
  {
    var head := [s[0]];
    var sw := SplitWords(s[1..]);
    assert SplitWords(s) == head + sw;
    NoUnderscoresAppend(head, sw);
    assert s == head + s[1..];
    NoUnderscoresAppend(head, s[1..]);
  }

  /** Both substitutions only insert underscores: removing them gives back their input's
      characters without underscores. */
  lemma {:induction false} SplitWordsInsertsOnly(s: string)
    ensures NoUnderscores(SplitWords(s)) == NoUnderscores(s)
    decreases |s|
  {
    if |s| >= 3 {
      if s[0] != '\n' && IsUpper(s[1]) && IsLower(s[2]) {
        var n := 2 + Text.RunLen(s[2..], IsLower);
        SplitWordsInsertsOnly(s[n..]);
        SplitWordsStep(s);
      } else {
        SplitWordsInsertsOnly(s[1..]);
        SplitWordsPass(s);
      }
    }
  }

  lemma {:induction false} SplitCapsInsertsOnly(s: string)
    ensures NoUnderscores(SplitCaps(s)) == NoUnderscores(s)
    decreases |s|
  {
    if |s| >= 2 {
      if IsLowerOrDigit(s[0]) && IsUpper(s[1]) {
        var pair := [s[0], s[1]];
        SplitCapsInsertsOnly(s[2..]);
        NoUnderscoresAppend([s[0], '_', s[1]], SplitCaps(s[2..]));
        assert s == pair + s[2..];
        NoUnderscoresAppend(pair, s[2..]);
        assert NoUnderscores([s[0], '_', s[1]]) == NoUnderscores(pair) by {
          assert [s[0], '_', s[1]][1..] == ['_', s[1]] && ['_', s[1]][1..] == [s[1]];
          assert pair[1..] == [s[1]];
        }
      } else {
        SplitCapsInsertsOnly(s[1..]);
        NoUnderscoresAppend([s[0]], SplitCaps(s[1..]));
        assert s == [s[0]] + s[1..];
        NoUnderscoresAppend([s[0]], s[1..]);
      }
    }
  }

  /** Characters that cannot start an occurrence of the pattern pass through. */
  lemma {:induction false} ReplaceSkip(u: string, t: string, pat: string, rep: string)
    requires pat != [] && pat[0] !in u
    ensures ReplaceAll(u + t, pat, rep) == u + ReplaceAll(t, pat, rep)
  {
    if u != [] {
      var s := u + t;
      assert s[0] == u[0] && s[1..] == u[1..] + t;
      if |s| >= |pat| {
        assert s[..|pat|][0] != pat[0];
      }
      ReplaceSkip(u[1..], t, pat, rep);
    } else {
      assert u + t == t;
    }
  }

  /** No capital right after h or inside r: nothing is split there. */
  lemma {:induction false} SplitWordsSkip(h: char, r: string, t: string)
    decreases |r|
    requires forall c :: c in r ==> !IsUpper(c)
    requires t == [] || !IsUpper(t[0])
    ensures SplitWords([h] + r + t) == [h] + r + SplitWords(t)
  {
    var s := [h] + r + t;
    if r == [] {
      assert s == [h] + t;
      if |s| >= 3 {
        assert s[1] == t[0] && s[1..] == t;
      }
    } else {
      assert r[0] in r;
      assert s[1] == r[0] && s[1..] == [r[0]] + r[1..] + t;
      assert forall c :: c in r[1..] ==> c in r;
      SplitWordsSkip(r[0], r[1..], t);
      assert [h] + r + SplitWords(t) == [h] + ([r[0]] + r[1..] + SplitWords(t));
    }
  }

  /** A capital followed by small letters, after any character but a newline, is split
      off. */
  lemma SplitWordsMatch(c: char, cap: char, lowers: string, t: string)
    requires c != '\n' && IsUpper(cap) && lowers != []
    requires forall ch :: ch in lowers ==> IsLower(ch)
    requires t == [] || !IsLower(t[0])
    ensures SplitWords([c] + [cap] + lowers + t) == [c] + "_" + [cap] + lowers + SplitWords(t)
  {
    var s := [c] + [cap] + lowers + t;
    var n := 2 + |lowers|;
    MatchPieces(c, cap, lowers, t);
    assert IsLower(s[2]) by {
      assert lowers[0] in lowers;
    }
    assert Text.RunLen(s[2..], IsLower) == |lowers| by {
      Text.RunLenPrefix(lowers, t, IsLower);
    }
    SplitWordsAt(s);
    Regroup([c], [cap], lowers, SplitWords(t));
  }

  /** Where the pieces of [c] + [cap] + lowers + t sit. */
  lemma MatchPieces(c: char, cap: char, lowers: string, t: string)
    requires lowers != []
    ensures var s := [c] + [cap] + lowers + t; var n := 2 + |lowers|;
      && |s| >= 3 && s[0] == c && s[1] == cap && s[2] == lowers[0]
      && s[2..] == lowers + t && s[1..n] == [cap] + lowers && s[n..] == t
  {
    var s := [c] + [cap] + lowers + t;
    var n := 2 + |lowers|;
    assert s[2..] == lowers + t;
    assert s[1..n] == [cap] + lowers;
    assert s[n..] == t;
  }

  lemma Regroup(a: string, b: string, c: string, d: string)
    ensures a + "_" + (b + c) + d == a + "_" + b + c + d
  {
  }

  lemma SplitWordsAt(s: string)
    requires |s| >= 3 && s[0] != '\n' && IsUpper(s[1]) && IsLower(s[2])
    ensures var n := 2 + Text.RunLen(s[2..], IsLower);
      SplitWords(s) == [s[0]] + "_" + s[1..n] + SplitWords(s[n..])
  {
  }

  lemma Associate(a: string, b: string, c: string, d: string)
    ensures a + b + c + d == a + (b + (c + d))
  {
  }

  lemma Decompose(s: string, n: nat)
    requires 1 <= n <= |s|
    ensures s == [s[0]] + (s[1..n] + s[n..])
  {
  }
  /** No capital after h or inside r: no underscore is inserted there. */
  lemma {:induction false} SplitCapsSkip(h: char, r: string, t: string)
    decreases |r|
    requires forall c :: c in r ==> !IsUpper(c)
    requires t == [] || !IsUpper(t[0])
    ensures SplitCaps([h] + r + t) == [h] + r + SplitCaps(t)
  {
    var s := [h] + r + t;
    if r == [] {
      assert s == [h] + t;
      if |s| >= 2 {
        assert s[1] == t[0] && s[1..] == t;
      }
    } else {
      assert r[0] in r;
      assert s[1] == r[0] && s[1..] == [r[0]] + r[1..] + t;
      assert forall c :: c in r[1..] ==> c in r;
      SplitCapsSkip(r[0], r[1..], t);
      assert [h] + r + SplitCaps(t) == [h] + ([r[0]] + r[1..] + SplitCaps(t));
    }
  }

  lemma ReplaceWhole(pat: string, rep: string)
    requires pat != []
    ensures ReplaceAll(pat, pat, rep) == rep
  {
    assert pat[..|pat|] == pat && pat[|pat|..] == [];
  }

  /** The suffix's shape: a capital, then seven small letters with 'z' fifth among them. */
  predicate SuffixShaped(pat: string) {
    |pat| == 8 && pat[0] == 'A' && pat[5] == 'z' && forall k :: 1 <= k < |pat| ==> IsLower(pat[k])
  }

  lemma AnalyzerShaped()
    ensures SuffixShaped(Suffix)
  {
    var pat := Suffix;
    assert pat[1] == 'n' && pat[2] == 'a' && pat[3] == 'l' && pat[4] == 'y';
    assert pat[5] == 'z' && pat[6] == 'e' && pat[7] == 'r';
  }

  lemma SuffixNotAtWord(c: char, l: string, pat: string)
    requires SuffixShaped(pat)
    requires IsUpper(c) && forall ch :: ch in l ==> IsLower(ch)
    requires c == 'A' ==> |l| < 7 || l[4] != 'z'
    ensures ([c] + l + pat)[..|pat|] != pat
  {
    var s := [c] + l + pat;
    if c == 'A' {
      if |l| >= 7 {
        assert s[5] == l[4];
      } else {
        assert s[|l| + 1] == 'A';
        assert IsLower(pat[|l| + 1]);
      }
    }
  }

  lemma ReplaceFirstKept(c: char, t: string, pat: string, rep: string)
    requires pat != [] && |[c] + t| >= |pat| && ([c] + t)[..|pat|] != pat
    ensures ReplaceAll([c] + t, pat, rep) == [c] + ReplaceAll(t, pat, rep)
  {
    assert ([c] + t)[1..] == t;
  }

  /** Text free of the pattern's first character, then the pattern: only the pattern is
      replaced. */
  lemma ReplaceThenSuffix(u: string, pat: string, rep: string)
    requires pat != [] && pat[0] !in u
    ensures ReplaceAll(u + pat, pat, rep) == u + rep
  {
    ReplaceSkip(u, pat, pat, rep);
    ReplaceWhole(pat, rep);
  }

  /** A character that does not start the pattern, then text free of the pattern's first
      character, then the pattern: only the pattern is replaced. */
  lemma ReplaceWordThenSuffix(c: char, l: string, pat: string)
    requires pat != [] && pat[0] !in l
    requires ([c] + l + pat)[..|pat|] != pat
    ensures ReplaceAll([c] + l + pat, pat, "") == [c] + l
  {
    var w := l + pat;
    assert [c] + l + pat == [c] + w;
    assert ReplaceAll([c] + w, pat, "") == [c] + ReplaceAll(w, pat, "") by {
      ReplaceFirstKept(c, w, pat, "");
    }
    assert ReplaceAll(w, pat, "") == l by {
      ReplaceThenSuffix(l, pat, "");
      assert l + "" == l;
    }
  }

  /** Where the suffix could start in two capitalised words and the suffix: nowhere but
      at its own place. */
  lemma NoEarlySuffix(c1: char, l1: string, c2: char, l2: string, pat: string)
    requires SuffixShaped(pat)
    requires IsUpper(c1) && IsUpper(c2)
    requires forall ch :: ch in l1 ==> IsLower(ch)
    requires forall ch :: ch in l2 ==> IsLower(ch)
    requires c1 != 'A'
    requires c2 == 'A' ==> |l2| < 7 || l2[4] != 'z'
    ensures pat != [] && pat[0] !in [c1] + l1 && pat[0] !in l2
    ensures ([c2] + l2 + pat)[..|pat|] != pat
  {
    assert !IsLower('A');
    assert forall ch :: ch in [c1] + l1 ==> ch == c1 || ch in l1;
    SuffixNotAtWord(c2, l2, pat);
  }

  /** str.replace on two capitalised words and the suffix removes just the suffix. */
  lemma KeyReplaceStage(w1: string, c2: char, l2: string, pat: string)
    requires pat != [] && pat[0] !in w1 && pat[0] !in l2
    requires ([c2] + l2 + pat)[..|pat|] != pat
    ensures ReplaceAll(w1 + [c2] + l2 + pat, pat, "") == w1 + [c2] + l2
  {
    var u := [c2] + l2;
    var t := u + pat;
    assert ReplaceAll(w1 + t, pat, "") == w1 + u by {
      ReplaceSkip(w1, t, pat, "");
      ReplaceWordThenSuffix(c2, l2, pat);
    }
    assert w1 + [c2] + l2 + pat == w1 + t && w1 + [c2] + l2 == w1 + u by {
      Associate(w1, [c2], l2, pat);
    }
  }

  /** The first substitution puts one underscore between the two words. */
  lemma KeySplitStage(c1: char, l1: string, c2: char, l2: string)
    requires IsUpper(c1) && IsUpper(c2) && l1 != [] && l2 != []
    requires forall ch :: ch in l1 ==> IsLower(ch)
    requires forall ch :: ch in l2 ==> IsLower(ch)
    ensures SplitWords([c1] + l1 + [c2] + l2) == [c1] + l1 + "_" + [c2] + l2
  {
    var last := l1[|l1| - 1];
    var init := l1[..|l1| - 1];
    assert IsLower(last) by {
      assert last in l1;
    }
    assert forall ch :: ch in init ==> !IsUpper(ch) by {
      assert forall ch :: ch in init ==> ch in l1;
    }
    var t := [last] + [c2] + l2 + [];
    assert [c1] + l1 + [c2] + l2 == [c1] + init + t;
    SplitWordsSkip(c1, init, t);
    SplitWordsMatch(last, c2, l2, []);
    assert [c1] + init + ([last] + "_" + [c2] + l2) == [c1] + l1 + "_" + [c2] + l2;
  }

  /** The second substitution finds no small letter or digit right before a capital. */
  lemma KeyCapsStage(c1: char, l1: string, c2: char, l2: string)
    requires IsUpper(c1) && IsUpper(c2) && l1 != []
    requires forall ch :: ch in l1 ==> IsLower(ch)
    requires forall ch :: ch in l2 ==> IsLower(ch)
    ensures SplitCaps([c1] + l1 + "_" + [c2] + l2) == [c1] + l1 + "_" + [c2] + l2
  {
    var last := l1[|l1| - 1];
    var init := l1[..|l1| - 1];
    assert IsLower(last) by {
      assert last in l1;
    }
    assert forall ch :: ch in init ==> !IsUpper(ch) by {
      assert forall ch :: ch in init ==> ch in l1;
    }
    assert forall ch :: ch in l2 ==> !IsUpper(ch);
    var tail := [last, '_', c2] + l2;
    assert [c1] + l1 + "_" + [c2] + l2 == [c1] + init + tail;
    SplitCapsSkip(c1, init, tail);
    SplitCapsSkip(c2, l2, []);
    assert [c2] + l2 + [] == [c2] + l2;
    assert tail[1..] == ['_', c2] + l2 && tail[1..][1..] == [c2] + l2;
    assert SplitCaps(tail[1..]) == ['_'] + SplitCaps([c2] + l2);
    assert SplitCaps(tail) == [last] + SplitCaps(tail[1..]);
    assert SplitCaps(tail) == tail;
  }

  /** The key of a class named by two capitalised words and "Analyzer" is the two words in
      small letters joined by an underscore (WordFrequencyAnalyzer gives word_frequency). */
  lemma TwoWordKey(c1: char, l1: string, c2: char, l2: string)
    requires IsUpper(c1) && IsUpper(c2) && l1 != [] && l2 != []
    requires forall ch :: ch in l1 ==> IsLower(ch)
    requires forall ch :: ch in l2 ==> IsLower(ch)
    requires c1 != 'A'
    requires c2 == 'A' ==> |l2| < 7 || l2[4] != 'z'
    ensures AnalyzerKey([c1] + l1 + [c2] + l2 + Suffix) ==
      Text.Lower([c1] + l1) + "_" + Text.Lower([c2] + l2)
  {
    var w1 := [c1] + l1;
    var w2 := [c2] + l2;
    var named := [c1] + l1 + [c2] + l2;
    var split := [c1] + l1 + "_" + [c2] + l2;
    assert ReplaceAll(named + Suffix, Suffix, "") == named by {
      AnalyzerShaped();
      NoEarlySuffix(c1, l1, c2, l2, Suffix);
      KeyReplaceStage(w1, c2, l2, Suffix);
    }
    assert SplitWords(named) == split by {
      KeySplitStage(c1, l1, c2, l2);
    }
    assert SplitCaps(split) == split by {
      KeyCapsStage(c1, l1, c2, l2);
    }
    assert Text.Lower(split) == Text.Lower(w1) + "_" + Text.Lower(w2) by {
      assert split == w1 + "_" + w2;
    }
  }

  /** The three keys named in the source's own comment, each by way of the two words. */
  lemma WordFrequencyWords()
    ensures AnalyzerKey(['W'] + "ord" + ['F'] + "requency" + Suffix) == "word_frequency"
  {
    TwoWordKey('W', "ord", 'F', "requency");
    assert Text.Lower(['W'] + "ord") == "word";
    assert Text.Lower(['F'] + "requency") == "frequency";
  }

  lemma WordFrequencyKey()
    ensures AnalyzerKey("WordFrequencyAnalyzer") == "word_frequency"
  {
    WordFrequencyWords();
    assert ['W'] + "ord" + ['F'] + "requency" + Suffix == "WordFrequencyAnalyzer";
  }

  lemma TemporalAnalysisWords()
    ensures AnalyzerKey(['T'] + "emporal" + ['A'] + "nalysis" + Suffix) == "temporal_analysis"
  {
    TwoWordKey('T', "emporal", 'A', "nalysis");
    assert Text.Lower(['T'] + "emporal") == "temporal";
    assert Text.Lower(['A'] + "nalysis") == "analysis";
  }

  lemma TemporalAnalysisKey()
    ensures AnalyzerKey("TemporalAnalysisAnalyzer") == "temporal_analysis"
  {
    TemporalAnalysisWords();
    assert ['T'] + "emporal" + ['A'] + "nalysis" + Suffix == "TemporalAnalysisAnalyzer";
  }

  lemma GlobalMetricsWords()
    ensures AnalyzerKey(['G'] + "lobal" + ['M'] + "etrics" + Suffix) == "global_metrics"
  {
    TwoWordKey('G', "lobal", 'M', "etrics");
    assert Text.Lower(['G'] + "lobal") == "global";
    assert Text.Lower(['M'] + "etrics") == "metrics";
  }

  lemma GlobalMetricsKey()
    ensures AnalyzerKey("GlobalMetricsAnalyzer") == "global_metrics"
  {
    GlobalMetricsWords();
    assert ['G'] + "lobal" + ['M'] + "etrics" + Suffix == "GlobalMetricsAnalyzer";
  }

  // ---------------------------------------------------------------------------
  // Execution order

  type Deps = Dicts.Dict<string, seq<string>>

  function DepsOf(deps: Deps, k: string): seq<string> {
    Dicts.GetOr(deps, k, [])
  }

  function Members(s: seq<string>): set<string> {
    set x | x in s
  }

  /** b is a registered dependency of a. */
  predicate Edge(keys: set<string>, deps: Deps, a: string, b: string) {
    b in keys && b in DepsOf(deps, a)
  }

  predicate IsPath(keys: set<string>, deps: Deps, p: seq<string>) {
    forall i :: 0 <= i < |p| - 1 ==> Edge(keys, deps, p[i], p[i + 1])
  }

  /** No chain of registered dependencies leads from an analyzer back to itself. */
  ghost predicate Acyclic(keys: set<string>, deps: Deps) {
    forall p :: NotACycle(keys, deps, p)
  }

  predicate NotACycle(keys: set<string>, deps: Deps, p: seq<string>) {
    |p| >= 2 && IsPath(keys, deps, p) ==> p[0] != p[|p| - 1]
  }

  /** Every registered dependency of an analyzer comes before it. */
  predicate DepsFirst(keys: set<string>, deps: Deps, order: seq<string>) {
    forall i :: 0 <= i < |order| ==> forall d :: d in DepsOf(deps, order[i]) && d in keys ==> d in order[..i]
  }

  /** Meeting an analyzer that is still on the stack closes a cycle. */
  lemma CycleFound(keys: set<string>, deps: Deps, stack: seq<string>, key: string, dep: string)
    requires IsPath(keys, deps, stack + [key])
    requires Edge(keys, deps, key, dep)
    requires dep in stack || dep == key
    ensures !Acyclic(keys, deps)
  {
    if dep == key {
      assert IsPath(keys, deps, [key, key]);
      assert !NotACycle(keys, deps, [key, key]);
    } else {
      var j :| 0 <= j < |stack| && stack[j] == dep;
      var full := stack + [key];
      var p := stack[j..] + [key, dep];
      forall i | 0 <= i < |p| - 1 ensures Edge(keys, deps, p[i], p[i + 1]) {
        if i < |stack| - j {
          assert p[i] == full[j + i] && p[i + 1] == full[j + i + 1];
        }
      }
      assert IsPath(keys, deps, p) && p[0] == dep && p[|p| - 1] == dep;
      assert !NotACycle(keys, deps, p);
    }
  }

  lemma DepsFirstSnoc(keys: set<string>, deps: Deps, order: seq<string>, key: string)
    requires DepsFirst(keys, deps, order)
    requires forall d :: d in DepsOf(deps, key) && d in keys ==> d in order
    ensures DepsFirst(keys, deps, order + [key])
  {
    var o := order + [key];
    forall i | 0 <= i < |o| ensures forall d :: d in DepsOf(deps, o[i]) && d in keys ==> d in o[..i] {
      if i < |order| {
        assert o[..i] == order[..i] && o[i] == order[i];
      } else {
        assert o[..i] == order;
      }
    }
  }

  /** A path to an analyzer followed by one of its registered dependencies is a path. */
  lemma PathExtend(keys: set<string>, deps: Deps, p: seq<string>, dep: string)
    requires p != [] && IsPath(keys, deps, p)
    requires Edge(keys, deps, p[|p| - 1], dep)
    ensures IsPath(keys, deps, p + [dep])
  {
    var q := p + [dep];
    forall i | 0 <= i < |q| - 1 ensures Edge(keys, deps, q[i], q[i + 1]) {
      if i < |p| - 1 {
        assert q[i] == p[i] && q[i + 1] == p[i + 1];
      }
    }
  }

  lemma PrefixOfPrefix<T>(a: seq<T>, b: seq<T>, c: seq<T>)
    requires |a| <= |b| && b[..|a|] == a
    requires |b| <= |c| && c[..|b|] == b
    ensures c[..|a|] == a
  {
    assert c[..|a|] == c[..|b|][..|a|];
  }

  /** The nested `visit`: temp holds the analyzers on the current path (the ghost stack),
      visited those already placed in the order. */
  method Visit(keys: set<string>, deps: Deps, key: string, visited: set<string>, temp: set<string>,
               order: seq<string>, ghost stack: seq<string>)
    returns (visited': set<string>, order': seq<string>)
    requires key in keys
    requires Seqs.Distinct(order) && Members(order) == visited && visited <= keys
    requires visited !! temp
    requires Members(stack) == temp
    requires IsPath(keys, deps, stack + [key])
    ensures Seqs.Distinct(order') && Members(order') == visited'
    ensures visited <= visited' <= keys
    ensures visited' !! temp
    ensures key in temp || key in visited'
    ensures |order| <= |order'| && order'[..|order|] == order
    ensures Acyclic(keys, deps) && DepsFirst(keys, deps, order) ==> DepsFirst(keys, deps, order')
    decreases keys - temp
  {
    if key in temp || key in visited {
      return visited, order;
    }
    var ds := DepsOf(deps, key);
    var tempK := temp + {key};
    ghost var stackK := stack + [key];
    assert Members(stackK) == tempK;
    visited', order' := visited, order;
    var j := 0;
    while j < |ds|
      invariant 0 <= j <= |ds|
      invariant Seqs.Distinct(order') && Members(order') == visited'
      invariant visited <= visited' <= keys
      invariant visited' !! tempK
      invariant |order| <= |order'| && order'[..|order|] == order
      invariant Acyclic(keys, deps) && DepsFirst(keys, deps, order) ==> DepsFirst(keys, deps, order')
      invariant Acyclic(keys, deps) ==> forall i :: 0 <= i < j && ds[i] in keys ==> ds[i] in visited'
    {
      var dep := ds[j];
      if dep in keys {
        ghost var before := order';
        PathExtend(keys, deps, stackK, dep);
        visited', order' := Visit(keys, deps, dep, visited', tempK, order', stackK);
        PrefixOfPrefix(order, before, order');
        if dep !in visited' {
          CycleFound(keys, deps, stack, key, dep);
        }
      }
      j := j + 1;
    }
    if Acyclic(keys, deps) && DepsFirst(keys, deps, order) {
      DepsFirstSnoc(keys, deps, order', key);
    }
    assert (order' + [key])[..|order|] == order'[..|order|];
    order' := order' + [key];
    visited' := visited' + {key};
  }

  datatype AnalyzerInfo = AnalyzerInfo(name: string, moduleName: string, enabled: Option<bool>)

  /** Each flag set or cleared by enable/disable, on a registered key only. */
  function WithEnabled(analyzers: Dicts.Dict<string, AnalyzerInfo>, key: string, flag: bool): Dicts.Dict<string, AnalyzerInfo> {
    match Dicts.Get(analyzers, key)
    case Some(info) => Dicts.Put(analyzers, key, info.(enabled := Some(flag)))
    case None => analyzers
  }

  /** Only the named entry's 'enabled' flag changes; the keys stay as they were. */
  lemma WithEnabledFacts(analyzers: Dicts.Dict<string, AnalyzerInfo>, key: string, flag: bool, k: string)
    ensures Dicts.Keys(WithEnabled(analyzers, key, flag)) == Dicts.Keys(analyzers)
    ensures Dicts.Get(WithEnabled(analyzers, key, flag), k) ==
      if k == key && Dicts.Get(analyzers, k).Some? then Some(Dicts.Get(analyzers, k).value.(enabled := Some(flag)))
      else Dicts.Get(analyzers, k)
  {
    if Dicts.Get(analyzers, key).Some? {
      Dicts.PutKeys(analyzers, key, Dicts.Get(analyzers, key).value.(enabled := Some(flag)));
      Dicts.GetPut(analyzers, key, Dicts.Get(analyzers, key).value.(enabled := Some(flag)), k);
    }
  }

  // ---------------------------------------------------------------------------
  // The run loop

  const SkippedKeys: seq<string> := ["analysis_type", "calibration_used"]

  /** The entries of a result that are copied to the root. */
  function Kept(entries: seq<(string, Value)>): seq<(string, Value)> {
    if entries == [] then []
    else
      var last := entries[|entries| - 1];
      Kept(entries[..|entries| - 1]) + (if last.0 in SkippedKeys then [] else [last])
  }

  /** `if result:` */
  predicate Produced(r: Option<Value>) {
    r.Some? && Truthy(r.value)
  }

  /** The root writes one analyzer makes: its key, then its inner keys when the result is a
      dict (for any other truthy value `.items()` raises after the key is written). */
  function WritesOf(key: string, r: Option<Value>): seq<(string, Value)> {
    if !Produced(r) then []
    else [(key, r.value)] + (if r.value.VDict? then Kept(r.value.entries) else [])
  }

  function Writes(order: seq<string>, run: string -> Option<Value>): seq<(string, Value)> {
    if order == [] then []
    else
      var last := order[|order| - 1];
      Writes(order[..|order| - 1], run) + WritesOf(last, run(last))
  }

  function CacheWrites(order: seq<string>, run: string -> Option<Value>): seq<(string, Value)> {
    if order == [] then []
    else
      var last := order[|order| - 1];
      CacheWrites(order[..|order| - 1], run) + (if Produced(run(last)) then [(last, run(last).value)] else [])
  }

  /** successful_analyses: results that are truthy dicts. */
  function Successes(order: seq<string>, run: string -> Option<Value>): nat {
    if order == [] then 0
    else
      var last := order[|order| - 1];
      Successes(order[..|order| - 1], run) + (if Produced(run(last)) && run(last).value.VDict? then 1 else 0)
  }

  function ProducedCount(order: seq<string>, run: string -> Option<Value>): nat {
    if order == [] then 0
    else
      var last := order[|order| - 1];
      ProducedCount(order[..|order| - 1], run) + (if Produced(run(last)) then 1 else 0)
  }

  /** The final root value of a key is the value of its last write. */
  lemma RootLastWrite(order: seq<string>, run: string -> Option<Value>, i: nat)
    requires i < |Writes(order, run)|
    requires forall j :: i < j < |Writes(order, run)| ==> Writes(order, run)[j].0 != Writes(order, run)[i].0
    ensures Dicts.Get(Dicts.PutAll([], Writes(order, run)), Writes(order, run)[i].0) == Some(Writes(order, run)[i].1)
  {
    Dicts.GetPutAllLast([], Writes(order, run), i);
  }

  lemma KeptKeys(entries: seq<(string, Value)>, k: string)
    requires k in SkippedKeys
    ensures k !in Dicts.Keys(Kept(entries))
  {
    if entries != [] {
      var last := entries[|entries| - 1];
      KeptKeys(entries[..|entries| - 1], k);
      Dicts.KeysAppend(Kept(entries[..|entries| - 1]), if last.0 in SkippedKeys then [] else [last]);
    }
  }

  /** Every root key is an executed analyzer's key or an inner key other than the two
      skipped ones, so those two never reach the root unless an analyzer bears the name. */
  lemma {:induction false} SkippedNeverAtRoot(order: seq<string>, run: string -> Option<Value>, k: string)
    requires k in SkippedKeys && k !in order
    ensures k !in Dicts.Keys(Writes(order, run))
    ensures Dicts.Get(Dicts.PutAll([], Writes(order, run)), k) == None
  {
    if order != [] {
      var init := order[..|order| - 1];
      var last := order[|order| - 1];
      assert order == init + [last];
      SkippedNeverAtRoot(init, run, k);
      var r := run(last);
      if Produced(r) {
        var inner := if r.value.VDict? then Kept(r.value.entries) else [];
        if r.value.VDict? {
          KeptKeys(r.value.entries, k);
        }
        Dicts.KeysAppend([(last, r.value)], inner);
      }
      var a := Writes(init, run);
      var b := WritesOf(last, r);
      assert k !in Dicts.Keys(b);
      Dicts.KeysAppend(a, b);
    }
    Dicts.GetPutAllUntouched([], Writes(order, run), k);
  }

  /** With each analyzer run once, the cache holds exactly the truthy results, under their
      own keys. */
  lemma {:induction false} CacheExact(order: seq<string>, run: string -> Option<Value>, k: string)
    requires Seqs.Distinct(order)
    ensures Dicts.Get(Dicts.PutAll([], CacheWrites(order, run)), k) ==
      if k in order && Produced(run(k)) then run(k) else None
  {
    if order != [] {
      var init := order[..|order| - 1];
      var last := order[|order| - 1];
      assert Seqs.Distinct(init);
      CacheExact(init, run, k);
      assert order == init + [last];
      if Produced(run(last)) {
        Dicts.PutAllSnoc([], CacheWrites(init, run), last, run(last).value);
        Dicts.GetPut(Dicts.PutAll([], CacheWrites(init, run)), last, run(last).value, k);
      } else {
        assert CacheWrites(order, run) == CacheWrites(init, run);
      }
      if k == last {
        assert last !in init;
      }
    }
  }

  /** Successes count the truthy dict results, so at most the truthy results, at most one
      per analyzer; when every truthy result is a dict they are all counted. */
  lemma {:induction false} SuccessBounds(order: seq<string>, run: string -> Option<Value>)
    ensures Successes(order, run) <= ProducedCount(order, run) <= |order|
    ensures (forall k :: k in order && Produced(run(k)) ==> run(k).value.VDict?) ==>
      Successes(order, run) == ProducedCount(order, run)
  {
    if order != [] {
      var init := order[..|order| - 1];
      SuccessBounds(init, run);
    }
  }

  /** One more analyzer run extends each of the run's records by that analyzer's part. */
  lemma RunSnoc(order: seq<string>, run: string -> Option<Value>, i: nat)
    requires i < |order|
    ensures Writes(order[..i + 1], run) == Writes(order[..i], run) + WritesOf(order[i], run(order[i]))
    ensures CacheWrites(order[..i + 1], run) ==
      CacheWrites(order[..i], run) + (if Produced(run(order[i])) then [(order[i], run(order[i]).value)] else [])
    ensures Successes(order[..i + 1], run) ==
      Successes(order[..i], run) + (if Produced(run(order[i])) && run(order[i]).value.VDict? then 1 else 0)
  {
    assert order[..i + 1][..i] == order[..i] && order[..i + 1][i] == order[i];
  }

  /** The root record after one more analyzer's writes. */
  lemma WritesStep(done: seq<(string, Value)>, key: string, r: Option<Value>)
    ensures Dicts.PutAll([], done + WritesOf(key, r)) ==
      if !Produced(r) then Dicts.PutAll([], done)
      else if r.value.VDict? then Dicts.PutAll(Dicts.Put(Dicts.PutAll([], done), key, r.value), Kept(r.value.entries))
      else Dicts.Put(Dicts.PutAll([], done), key, r.value)
  {
    if !Produced(r) {
      assert done + WritesOf(key, r) == done;
    } else {
      var v := r.value;
      Dicts.PutAllSnoc([], done, key, v);
      if v.VDict? {
        assert done + WritesOf(key, r) == done + [(key, v)] + Kept(v.entries);
        Dicts.PutAllAppend([], done + [(key, v)], Kept(v.entries));
      } else {
        assert done + WritesOf(key, r) == done + [(key, v)];
      }
    }
  }

  /** The cache after one more analyzer's result. */
  lemma CacheStep(done: seq<(string, Value)>, key: string, r: Option<Value>)
    ensures Dicts.PutAll([], done + (if Produced(r) then [(key, r.value)] else [])) ==
      if Produced(r) then Dicts.Put(Dicts.PutAll([], done), key, r.value) else Dicts.PutAll([], done)
  {
    if Produced(r) {
      Dicts.PutAllSnoc([], done, key, r.value);
    } else {
      assert done + [] == done;
    }
  }

  /** The inner loop of analyze: every entry but the two skipped keys is copied to the
      root, in order. */
  method MergeRecord(results: Dicts.Dict<string, Value>, entries: seq<(string, Value)>)
    returns (r: Dicts.Dict<string, Value>)
    ensures r == Dicts.PutAll(results, Kept(entries))
  {
    r := results;
    assert entries[..0] == [];
    for j := 0 to |entries|
      invariant r == Dicts.PutAll(results, Kept(entries[..j]))
    {
      var (k, v) := entries[j];
      assert entries[..j + 1][..j] == entries[..j] && entries[..j + 1][j] == (k, v);
      assert Kept(entries[..j + 1]) == Kept(entries[..j]) + (if k in SkippedKeys then [] else [(k, v)]);
      if k != "analysis_type" && k != "calibration_used" {
        Dicts.PutAllSnoc(results, Kept(entries[..j]), k, v);
        r := Dicts.Put(r, k, v);
      } else {
        assert Kept(entries[..j + 1]) == Kept(entries[..j]);
      }
    }
    assert entries[..|entries|] == entries;
  }

  /** The loop of analyze over the execution order: the root record, the cache (cleared
      first) and the success count. */
  method RunAll(order: seq<string>, run: string -> Option<Value>)
    returns (results: Dicts.Dict<string, Value>, cache: Dicts.Dict<string, Value>, successes: nat)
    ensures results == Dicts.PutAll([], Writes(order, run))
    ensures cache == Dicts.PutAll([], CacheWrites(order, run))
    ensures successes == Successes(order, run)
  {
    results := [];
    cache := [];
    successes := 0;
    for i := 0 to |order|
      invariant results == Dicts.PutAll([], Writes(order[..i], run))
      invariant cache == Dicts.PutAll([], CacheWrites(order[..i], run))
      invariant successes == Successes(order[..i], run)
    {
      var key := order[i];
      var result := run(key);
      RunSnoc(order, run, i);
      WritesStep(Writes(order[..i], run), key, result);
      CacheStep(CacheWrites(order[..i], run), key, result);
      if result.Some? && Truthy(result.value) {
        var v := result.value;
        results := Dicts.Put(results, key, v);
        cache := Dicts.Put(cache, key, v);
        if v.VDict? {
          results := MergeRecord(results, v.entries);
          successes := successes + 1;
        }
      }
    }
    assert order[..|order|] == order;
  }

  // ---------------------------------------------------------------------------
  // Statistics

  datatype Stats = Stats(totalAnalyzers: nat, analyzersWithDependencies: nat, totalDependencies: nat,
                         availableAnalyzers: seq<string>)

  function WithDependencies(deps: Deps): nat {
    if deps == [] then 0 else (if deps[0].1 != [] then 1 else 0) + WithDependencies(deps[1..])
  }

  function TotalDependencies(deps: Deps): nat {
    if deps == [] then 0 else |deps[0].1| + TotalDependencies(deps[1..])
  }

  /** analyzers_with_dependencies is at most the number of lists and at most the number of
      dependencies, and both are zero together. */
  lemma {:induction false} StatsFacts(deps: Deps)
    ensures WithDependencies(deps) <= |deps|
    ensures WithDependencies(deps) <= TotalDependencies(deps)
    ensures TotalDependencies(deps) == 0 <==> WithDependencies(deps) == 0
    ensures WithDependencies(deps) == |deps| <==> forall i :: 0 <= i < |deps| ==> deps[i].1 != []
  {
    if deps != [] {
      StatsFacts(deps[1..]);
      assert forall i :: 1 <= i < |deps| ==> deps[i] == deps[1..][i - 1];
    }
  }

  // ---------------------------------------------------------------------------
  // The orchestrator

  class Orchestrator {
    var analyzers: Dicts.Dict<string, AnalyzerInfo>
    var dependencies: Deps
    var resultsCache: Dicts.Dict<string, Value>

    /** The state after discovery and dependency mapping, both given as inputs. */
    constructor(discovered: Dicts.Dict<string, AnalyzerInfo>, deps: Deps)
      ensures analyzers == discovered && dependencies == deps && resultsCache == []
    {
      analyzers := discovered;
      dependencies := deps;
      resultsCache := [];
    }

    function Registered(): set<string>
      reads this
    {
      Members(Dicts.Keys(analyzers))
    }

    /** _resolve_execution_order */
    method ResolveExecutionOrder() returns (order: seq<string>)
      ensures Seqs.Distinct(order)
      ensures Members(order) == Registered()
      ensures Acyclic(Registered(), dependencies) ==> DepsFirst(Registered(), dependencies, order)
    {
      var keys := Registered();
      var ks := Dicts.Keys(analyzers);
      var visited: set<string> := {};
      order := [];
      for i := 0 to |ks|
        invariant Seqs.Distinct(order) && Members(order) == visited && visited <= keys
        invariant forall k :: k in ks[..i] ==> k in visited
        invariant Acyclic(keys, dependencies) ==> DepsFirst(keys, dependencies, order)
      {
        if ks[i] !in visited {
          assert IsPath(keys, dependencies, [] + [ks[i]]);
          visited, order := Visit(keys, dependencies, ks[i], visited, {}, order, []);
        }
        assert ks[..i + 1] == ks[..i] + [ks[i]];
      }
      assert ks[..|ks|] == ks;
    }

    /** analyze: clears the cache, runs the analyzers in execution order and merges their
        records; also returns the order used and the success count it reports. */
    method Analyze(run: string -> Option<Value>) returns (results: Dicts.Dict<string, Value>, executed: seq<string>, successes: nat)
      modifies this
      ensures analyzers == old(analyzers) && dependencies == old(dependencies)
      ensures Seqs.Distinct(executed) && Members(executed) == Registered()
      ensures Acyclic(Registered(), dependencies) ==> DepsFirst(Registered(), dependencies, executed)
      ensures results == Dicts.PutAll([], Writes(executed, run))
      ensures resultsCache == Dicts.PutAll([], CacheWrites(executed, run))
      ensures successes == Successes(executed, run)
    {
      executed := ResolveExecutionOrder();
      var cache;
      results, cache, successes := RunAll(executed, run);
      resultsCache := cache;
    }

    /** enable_analyzer */
    method EnableAnalyzer(key: string) returns (found: bool)
      modifies this
      ensures found <==> key in Dicts.Keys(old(analyzers))
      ensures analyzers == WithEnabled(old(analyzers), key, true)
      ensures dependencies == old(dependencies) && resultsCache == old(resultsCache)
    {
      found := key in Dicts.Keys(analyzers);
      analyzers := WithEnabled(analyzers, key, true);
    }

    /** disable_analyzer */
    method DisableAnalyzer(key: string) returns (found: bool)
      modifies this
      ensures found <==> key in Dicts.Keys(old(analyzers))
      ensures analyzers == WithEnabled(old(analyzers), key, false)
      ensures dependencies == old(dependencies) && resultsCache == old(resultsCache)
    {
      found := key in Dicts.Keys(analyzers);
      analyzers := WithEnabled(analyzers, key, false);
    }

    /** get_orchestration_stats */
    function OrchestrationStats(): Stats
      reads this
    {
      Stats(|analyzers|, WithDependencies(dependencies), TotalDependencies(dependencies), Dicts.Keys(analyzers))
    }
  }
}
