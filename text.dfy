/** Python string semantics used by the analyzers, on `string` = seq<char>.

    Character classes cover ASCII and Latin-1 (U+0000..U+00FF), which is
    where Portuguese text lives:
    - IsSpace is str.isspace() (the full Python whitespace list);
    - LowerChar is str.lower() for ASCII and Latin-1 capitals;
    - IsWordChar is the regular-expression class \w (letters, digits, '_').
 */
module Text {

  import Seqs

  predicate IsSpace(c: char) {
    var n := c as int;
    (9 <= n <= 13) || (28 <= n <= 32) || n == 0x85 || n == 0xA0 || n == 0x1680
    || (0x2000 <= n <= 0x200A) || n == 0x2028 || n == 0x2029 || n == 0x202F
    || n == 0x205F || n == 0x3000
  }

  predicate NotSpace(c: char) {
    !IsSpace(c)
  }

  function LowerChar(c: char): char {
    if 'A' <= c <= 'Z' then (c as int + 32) as char
    else if 0xC0 <= c as int <= 0xDE && c as int != 0xD7 then (c as int + 32) as char
    else c
  }

  /** lower() maps whitespace to whitespace and nothing else to whitespace. */
  lemma LowerCharSpace(c: char)
    ensures IsSpace(LowerChar(c)) <==> IsSpace(c)
  {
  }

  /** str.lower() */
  function Lower(s: string): (r: string)
    ensures |r| == |s|
  {
    seq(|s|, i requires 0 <= i < |s| => LowerChar(s[i]))
  }

  predicate IsWordChar(c: char) {
    var n := c as int;
    ('a' <= c <= 'z') || ('A' <= c <= 'Z') || ('0' <= c <= '9') || c == '_'
    || n == 0xAA || n == 0xB2 || n == 0xB3 || n == 0xB5 || n == 0xB9 || n == 0xBA
    || (0xBC <= n <= 0xBE) || (0xC0 <= n <= 0xFF && n != 0xD7 && n != 0xF7)
  }

  /** Lower-case ASCII letters and the upper half of Latin-1 are not whitespace. */
  lemma LetterNotSpace(c: char)
    requires ('a' <= c <= 'z') || (0xC0 <= c as int <= 0xFF)
    ensures NotSpace(c)
  {
  }

  /** The sentence terminators of the pattern [.!?]+ */
  predicate IsTerminator(c: char) {
    c == '.' || c == '!' || c == '?'
  }

  predicate All(s: string, p: char -> bool) {
    forall i :: 0 <= i < |s| ==> p(s[i])
  }

  predicate Any(s: string, p: char -> bool) {
    exists i :: 0 <= i < |s| && p(s[i])
  }

  /** Length of the longest prefix of s whose characters all satisfy p. */
  function RunLen(s: string, p: char -> bool): (n: nat)
    ensures n <= |s|
    ensures |s| > 0 && p(s[0]) ==> n > 0
  {
    if |s| == 0 || !p(s[0]) then 0 else 1 + RunLen(s[1..], p)
  }

  /** The run is maximal: every character in it satisfies p, and the next one does not. */
  lemma {:induction false} RunLenSpec(s: string, p: char -> bool)
    ensures var n := RunLen(s, p); All(s[..n], p) && (n < |s| ==> !p(s[n]))
    decreases |s|
  {
    if |s| > 0 && p(s[0]) {
      RunLenSpec(s[1..], p);
      var n := RunLen(s, p);
      assert forall i :: 1 <= i < n ==> s[..n][i] == s[1..][..n - 1][i - 1];
    }
  }

  /** A prefix all of whose characters satisfy p, followed by one that does not, is the
      run. */
  lemma {:induction false} RunLenPrefix(a: string, b: string, p: char -> bool)
    requires forall c :: c in a ==> p(c)
    requires b == [] || !p(b[0])
    ensures RunLen(a + b, p) == |a|
  {
    if a != [] {
      assert a[0] in a && (a + b)[0] == a[0] && (a + b)[1..] == a[1..] + b;
      assert forall c :: c in a[1..] ==> c in a;
      RunLenPrefix(a[1..], b, p);
    } else {
      assert a + b == b;
    }
  }

  /** The maximal runs of characters satisfying p, left to right. */
  function Runs(s: string, p: char -> bool): seq<string>
    decreases |s|
  {
    if |s| == 0 then []
    else if !p(s[0]) then Runs(s[1..], p)
    else
      var n := RunLen(s, p);
      [s[..n]] + Runs(s[n..], p)
  }

  /** Every run is non-empty and made of p-characters; there is no run exactly when no
      character satisfies p. */
  lemma {:induction false} RunsSpec(s: string, p: char -> bool)
    ensures var r := Runs(s, p);
      && (forall k :: 0 <= k < |r| ==> |r[k]| > 0 && All(r[k], p))
      && (r == [] <==> !Any(s, p))
    decreases |s|
  {
    if |s| == 0 {
    } else if !p(s[0]) {
      RunsSpec(s[1..], p);
      if Any(s, p) {
        var i :| 0 <= i < |s| && p(s[i]);
        assert i > 0 && s[1..][i - 1] == s[i];
      }
      if Any(s[1..], p) {
        var i :| 0 <= i < |s[1..]| && p(s[1..][i]);
        assert s[i + 1] == s[1..][i];
      }
    } else {
      var n := RunLen(s, p);
      RunLenSpec(s, p);
      RunsSpec(s[n..], p);
      assert s[..n][0] == s[0];
    }
  }

  /** str.split() with no argument: the runs of non-whitespace characters. */
  function Tokens(s: string): seq<string> {
    Runs(s, NotSpace)
  }

  /** The maximal runs of \w characters; `\b\w{n,}\b` matches exactly the runs of length >= n. */
  function WordRuns(s: string): seq<string> {
    Runs(s, IsWordChar)
  }

  function TrimStart(s: string): string {
    if |s| > 0 && IsSpace(s[0]) then TrimStart(s[1..]) else s
  }

  /** lstrip() removes exactly the leading whitespace. */
  lemma {:induction false} TrimStartSpec(s: string)
    ensures var r := TrimStart(s);
      && |r| <= |s| && r == s[|s| - |r|..]
      && All(s[..|s| - |r|], IsSpace)
      && (r == [] || !IsSpace(r[0]))
    decreases |s|
  {
    if |s| > 0 && IsSpace(s[0]) {
      TrimStartSpec(s[1..]);
      var r := TrimStart(s[1..]);
      var dropped := s[..|s| - |r|];
      assert forall i :: 1 <= i < |dropped| ==> dropped[i] == s[1..][..|s[1..]| - |r|][i - 1];
    }
  }

  function TrimEnd(s: string): string {
    if |s| > 0 && IsSpace(s[|s| - 1]) then TrimEnd(s[..|s| - 1]) else s
  }

  /** rstrip() removes exactly the trailing whitespace. */
  lemma {:induction false} TrimEndSpec(s: string)
    ensures var r := TrimEnd(s);
      && |r| <= |s| && r == s[..|r|]
      && All(s[|r|..], IsSpace)
      && (r == [] || !IsSpace(r[|r| - 1]))
    decreases |s|
  {
    if |s| > 0 && IsSpace(s[|s| - 1]) {
      TrimEndSpec(s[..|s| - 1]);
      var r := TrimEnd(s[..|s| - 1]);
      assert forall i :: |r| <= i < |s| - 1 ==> s[i] == s[..|s| - 1][i];
    }
  }

  /** str.strip() */
  function Strip(s: string): string {
    TrimEnd(TrimStart(s))
  }

  /** strip() leaves no whitespace at either end, and leaves nothing exactly when the
      string is all whitespace. */
  lemma StripSpec(s: string)
    ensures var r := Strip(s);
      && (r == [] || (NotSpace(r[0]) && NotSpace(r[|r| - 1])))
      && (r == [] <==> !Any(s, NotSpace))
  {
    var t := TrimStart(s);
    var r := TrimEnd(t);
    TrimStartSpec(s);
    TrimEndSpec(t);
    if r == [] {
      assert t == [];
      forall i | 0 <= i < |s| ensures IsSpace(s[i]) {
        assert s[..|s| - |t|][i] == s[i];
      }
    } else {
      var k := |s| - |t|;
      assert t[0] == r[0] && s[k] == t[0];
    }
  }

  /** A string that has no surrounding whitespace is unchanged by strip(). */
  lemma StripStripped(t: string)
    requires t == [] || (NotSpace(t[0]) && NotSpace(t[|t| - 1]))
    ensures Strip(t) == t
  {
  }

  /** strip() removes trailing padding from a string that has no surrounding whitespace. */
  lemma StripPadded(t: string, pad: string)
    requires |t| > 0 && NotSpace(t[0]) && NotSpace(t[|t| - 1])
    requires All(pad, IsSpace)
    ensures Strip(t + pad) == t
    decreases |pad|
  {
    if pad != [] {
      var u := t + pad;
      assert TrimStart(u) == u;
      assert u[..|u| - 1] == t + pad[..|pad| - 1];
      StripPadded(t, pad[..|pad| - 1]);
    } else {
      assert t + pad == t;
    }
  }

  /** str.split(d) for a one-character separator d. */
  function SplitOn(s: string, d: char): (r: seq<string>)
    ensures |r| >= 1
    ensures forall k :: 0 <= k < |r| ==> d !in r[k]
  {
    if |s| == 0 then [""]
    else if s[0] == d then [""] + SplitOn(s[1..], d)
    else
      var rest := SplitOn(s[1..], d);
      [[s[0]] + rest[0]] + rest[1..]
  }

  /** re.split(r'[.!?]+', s): the fragments between maximal runs of terminators;
      empty fragments are kept, so there is always at least one. */
  function SplitSentences(s: string): (r: seq<string>)
    ensures |r| >= 1
    ensures forall k :: 0 <= k < |r| ==> !Any(r[k], IsTerminator)
    decreases |s|
  {
    if |s| == 0 then [""]
    else if IsTerminator(s[0]) then
      var n := RunLen(s, IsTerminator);
      [""] + SplitSentences(s[n..])
    else
      var rest := SplitSentences(s[1..]);
      var first := [s[0]] + rest[0];
      assert !Any(first, IsTerminator) by {
        forall i | 0 <= i < |first| ensures !IsTerminator(first[i]) {
          if i > 0 { assert first[i] == rest[0][i - 1]; }
        }
      }
      [first] + rest[1..]
  }

  /** Python's `p in s` for strings: substring presence. */
  function Contains(s: string, p: string): bool
    decreases |s|
  {
    p <= s || (|s| > 0 && Contains(s[1..], p))
  }

  /** p occurs in s starting at offset i. */
  predicate OccursAt(s: string, p: string, i: int) {
    0 <= i <= |s| - |p| && s[i..i + |p|] == p
  }

  /** Contains is substring presence at some offset. */
  lemma {:induction false} ContainsAt(s: string, p: string)
    ensures Contains(s, p) <==> exists i :: OccursAt(s, p, i)
    decreases |s|
  {
    if p <= s {
      assert OccursAt(s, p, 0);
    } else if |s| == 0 {
    } else {
      ContainsAt(s[1..], p);
      if Contains(s[1..], p) {
        var i :| OccursAt(s[1..], p, i);
        assert s[1..][i..i + |p|] == s[i + 1..i + 1 + |p|];
        assert OccursAt(s, p, i + 1);
      }
      if exists i :: OccursAt(s, p, i) {
        var i :| OccursAt(s, p, i);
        assert i != 0;
        assert s[1..][i - 1..i - 1 + |p|] == s[i..i + |p|];
        assert OccursAt(s[1..], p, i - 1);
      }
    }
  }

  /** str.count(p): non-overlapping occurrences scanned left to right. */
  function Count(s: string, p: string): nat
    decreases |s|
  {
    if |p| == 0 then |s| + 1
    else if |s| < |p| then 0
    else if p <= s then 1 + Count(s[|p|..], p)
    else Count(s[1..], p)
  }

  /** A non-empty marker is counted at least once exactly when it occurs. */
  lemma {:induction false} CountPositiveIffContains(s: string, p: string)
    requires |p| > 0
    ensures Count(s, p) > 0 <==> Contains(s, p)
    decreases |s|
  {
    if |s| < |p| {
      ContainsAt(s, p);
    } else if p <= s {
    } else {
      CountPositiveIffContains(s[1..], p);
    }
  }

  lemma MulStep(c: nat, m: nat, a: nat)
    requires c * m <= a
    ensures (c + 1) * m <= a + m
  {
  }

  /** Non-overlapping occurrences are at most |s| / |p|. */
  lemma {:induction false} CountBound(s: string, p: string)
    requires |p| > 0
    ensures Count(s, p) * |p| <= |s|
    decreases |s|
  {
    if |s| < |p| {
    } else if p <= s {
      var rest := s[|p|..];
      CountBound(rest, p);
      MulStep(Count(rest, p), |p|, |rest|);
    } else {
      CountBound(s[1..], p);
      assert Count(s, p) == Count(s[1..], p);
    }
  }

  /** A string containing a word with a non-space character has a whitespace token. */
  lemma {:induction false} ContainsGivesToken(s: string, p: string)
    requires Contains(s, p)
    requires Any(p, NotSpace)
    ensures Tokens(s) != []
  {
    ContainsAt(s, p);
    RunsSpec(s, NotSpace);
    var i :| OccursAt(s, p, i);
    var j :| 0 <= j < |p| && NotSpace(p[j]);
    assert s[i + j] == p[j];
  }

  /** Python's `<` on str: lexicographic order on code points. */
  predicate StrLess(a: string, b: string)
    decreases |a|
  {
    if |a| == 0 then |b| > 0
    else if |b| == 0 then false
    else if a[0] != b[0] then a[0] < b[0]
    else StrLess(a[1..], b[1..])
  }

  lemma {:induction false} StrLessIrreflexive(a: string)
    ensures !StrLess(a, a)
    decreases |a|
  {
    if |a| > 0 { StrLessIrreflexive(a[1..]); }
  }

  lemma {:induction false} StrLessAsymmetric(a: string, b: string)
    requires StrLess(a, b)
    ensures !StrLess(b, a)
    decreases |a|
  {
    if |a| > 0 && |b| > 0 && a[0] == b[0] { StrLessAsymmetric(a[1..], b[1..]); }
  }

  lemma {:induction false} StrLessTotal(a: string, b: string)
    requires a != b
    ensures StrLess(a, b) || StrLess(b, a)
    decreases |a|
  {
    if |a| > 0 && |b| > 0 && a[0] == b[0] {
      assert a == [a[0]] + a[1..] && b == [b[0]] + b[1..];
      StrLessTotal(a[1..], b[1..]);
    }
  }

  lemma {:induction false} StrLessTransitive(a: string, b: string, c: string)
    requires StrLess(a, b) && StrLess(b, c)
    ensures StrLess(a, c)
    decreases |a|
  {
    if |a| > 0 && |b| > 0 && |c| > 0 && a[0] == b[0] && b[0] == c[0] {
      StrLessTransitive(a[1..], b[1..], c[1..]);
    }
  }

  /** sep.join(parts) */
  function JoinWith(parts: seq<string>, sep: string): string {
    if |parts| == 0 then ""
    else if |parts| == 1 then parts[0]
    else parts[0] + sep + JoinWith(parts[1..], sep)
  }

  /** Joining non-empty parts, the first non-blank at its start and the last at its end, with
      a separator gives a string with the same start and end characters. */
  lemma {:induction false} JoinEnds(parts: seq<string>, sep: string)
    requires |parts| > 0
    requires forall k :: 0 <= k < |parts| ==> |parts[k]| > 0
    ensures var j := JoinWith(parts, sep);
      |j| > 0 && j[0] == parts[0][0] && j[|j| - 1] == parts[|parts| - 1][|parts[|parts| - 1]| - 1]
  {
    if |parts| > 1 {
      JoinEnds(parts[1..], sep);
    }
  }
  /** The joined string starts with the first part and ends with the last. */
  lemma {:induction false} JoinFirstLast(parts: seq<string>, sep: string)
    requires |parts| > 0
    ensures var j := JoinWith(parts, sep); var last := parts[|parts| - 1];
      parts[0] <= j && |last| <= |j| && j[|j| - |last|..] == last
  {
    if |parts| > 1 {
      JoinFirstLast(parts[1..], sep);
      var rest := JoinWith(parts[1..], sep);
      var last := parts[|parts| - 1];
      assert parts[1..][|parts[1..]| - 1] == last;
      assert JoinWith(parts, sep) == (parts[0] + sep) + rest;
      assert rest[|rest| - |last|..] == last;
    }
  }

  /** A non-empty string with no whitespace at either end, as strip() leaves it. */
  predicate IsStripped(s: string) {
    |s| > 0 && NotSpace(s[0]) && NotSpace(s[|s| - 1])
  }

  /** [strip(x) for x in parts if strip(x)] */
  function NonBlankStripped(parts: seq<string>): (r: seq<string>)
    ensures forall k :: 0 <= k < |r| ==> IsStripped(r[k])
    ensures |r| <= |parts|
  {
    if parts == [] then []
    else
      var t := Strip(parts[0]);
      StripSpec(parts[0]);
      (if t == [] then [] else [t]) + NonBlankStripped(parts[1..])
  }

  /** The string built by `acc += part + sep` for each part in turn. */
  function Terminated(parts: seq<string>, sep: string): (r: string)
    ensures |sep| > 0 ==> (r == [] <==> parts == [])
  {
    if parts == [] then [] else parts[0] + sep + Terminated(parts[1..], sep)
  }

  lemma {:induction false} TerminatedSnoc(parts: seq<string>, x: string, sep: string)
    ensures Terminated(parts + [x], sep) == Terminated(parts, sep) + x + sep
  {
    if parts == [] {
      assert [] + [x] == [x];
    } else {
      assert (parts + [x])[1..] == parts[1..] + [x];
      TerminatedSnoc(parts[1..], x, sep);
    }
  }

  lemma {:induction false} TerminatedIsJoin(parts: seq<string>, sep: string)
    requires |parts| > 0
    ensures Terminated(parts, sep) == JoinWith(parts, sep) + sep
  {
    if |parts| > 1 {
      TerminatedIsJoin(parts[1..], sep);
    }
  }

  /** strip() of the space-terminated accumulation of stripped parts is their " "-join. */
  lemma StripSpaceTerminated(parts: seq<string>)
    requires |parts| > 0
    requires forall k :: 0 <= k < |parts| ==> IsStripped(parts[k])
    ensures Strip(Terminated(parts, " ")) == JoinWith(parts, " ")
  {
    TerminatedIsJoin(parts, " ");
    JoinEnds(parts, " ");
    StripPadded(JoinWith(parts, " "), " ");
  }

  /** strip() of the ". "-terminated accumulation of stripped parts is their ". "-join
      followed by a full stop. */
  lemma StripDotTerminated(parts: seq<string>)
    requires |parts| > 0
    requires forall k :: 0 <= k < |parts| ==> IsStripped(parts[k])
    ensures Strip(Terminated(parts, ". ")) == JoinWith(parts, ". ") + "."
  {
    TerminatedIsJoin(parts, ". ");
    JoinEnds(parts, ". ");
    var j0 := JoinWith(parts, ". ");
    var j := j0 + ".";
    assert j[0] == j0[0] && j[|j| - 1] == '.';
    assert NotSpace('.');
    assert j0 + ". " == j + " ";
    assert All(" ", IsSpace);
    StripPadded(j, " ");
  }

  /** A whitespace-only string contains no word that starts with a non-space character,
      even after lower(). */
  lemma BlankHasNoWord(s: string, t: string)
    requires Tokens(s) == []
    requires |t| > 0 && NotSpace(t[0])
    ensures !Contains(Lower(s), t)
  {
    var l := Lower(s);
    RunsSpec(s, NotSpace);
    forall i | 0 <= i <= |l| - |t|
      ensures !OccursAt(l, t, i)
    {
      assert l[i] == LowerChar(s[i]);
      LowerCharSpace(s[i]);
      assert l[i..i + |t|][0] == l[i];
    }
    ContainsAt(l, t);
  }

  /** How many of the terms occur in s as substrings; a term counts once however often it occurs. */
  function TermsPresent(s: string, terms: seq<string>): (r: nat)
    ensures r <= |terms|
  {
    if terms == [] then 0
    else (if Contains(s, terms[0]) then 1 else 0) + TermsPresent(s, terms[1..])
  }

  /** Sum of non-overlapping counts of each marker. */
  function CountAll(s: string, markers: seq<string>): nat {
    if markers == [] then 0 else Count(s, markers[0]) + CountAll(s, markers[1..])
  }

  /** The distinct terms that occur in s. */
  function PresentTerms(s: string, terms: seq<string>): set<string> {
    set t | t in terms && Contains(s, t)
  }

  /** Each term counts once however often it occurs: for distinct terms the count is the
      number of distinct terms present. */
  lemma {:induction false} TermsPresentIsSetSize(s: string, terms: seq<string>)
    requires Seqs.Distinct(terms)
    ensures TermsPresent(s, terms) == |PresentTerms(s, terms)|
  {
    if terms != [] {
      var rest := terms[1..];
      assert Seqs.Distinct(rest) by {
        forall i, j | 0 <= i < j < |rest| ensures rest[i] != rest[j] {
          assert rest[i] == terms[i + 1] && rest[j] == terms[j + 1];
        }
      }
      TermsPresentIsSetSize(s, rest);
      var later := PresentTerms(s, rest);
      assert terms[0] !in rest by {
        forall j | 0 <= j < |rest| ensures rest[j] != terms[0] {
          assert rest[j] == terms[j + 1];
        }
      }
      assert terms == [terms[0]] + rest;
      if Contains(s, terms[0]) {
        assert terms[0] !in later;
        assert PresentTerms(s, terms) == {terms[0]} + later;
      } else {
        assert PresentTerms(s, terms) == later;
      }
    }
  }

  /** The summed count is positive exactly when some (non-empty) marker occurs in s. */
  lemma {:induction false} CountAllPositiveIff(s: string, markers: seq<string>)
    requires forall m :: m in markers ==> |m| > 0
    ensures CountAll(s, markers) > 0 <==> exists m :: m in markers && Contains(s, m)
  {
    if markers != [] {
      CountPositiveIffContains(s, markers[0]);
      CountAllPositiveIff(s, markers[1..]);
      assert markers == [markers[0]] + markers[1..];
    }
  }

  /** The phrases that occur in s, in list order: [p for p in phrases if p in s]. */
  function PresentInOrder(s: string, phrases: seq<string>): (r: seq<string>)
    ensures |r| <= |phrases|
    ensures forall k :: 0 <= k < |r| ==> r[k] in phrases && Contains(s, r[k])
  {
    if phrases == [] then []
    else (if Contains(s, phrases[0]) then [phrases[0]] else []) + PresentInOrder(s, phrases[1..])
  }

  /** Counting the present phrases and listing them agree. */
  lemma {:induction false} PresentInOrderCount(s: string, phrases: seq<string>)
    ensures |PresentInOrder(s, phrases)| == TermsPresent(s, phrases)
  {
    if phrases != [] {
      PresentInOrderCount(s, phrases[1..]);
    }
  }

  /** Every present phrase is listed. */
  lemma {:induction false} PresentInOrderComplete(s: string, phrases: seq<string>, p: string)
    requires p in phrases && Contains(s, p)
    ensures p in PresentInOrder(s, phrases)
  {
    if phrases[0] != p {
      PresentInOrderComplete(s, phrases[1..], p);
    }
  }

  /** The listed phrases keep the order of the phrase list. */
  lemma {:induction false} PresentInOrderSubsequence(s: string, phrases: seq<string>)
    ensures Seqs.IsSubsequence(PresentInOrder(s, phrases), phrases)
  {
    if phrases != [] {
      var rest := PresentInOrder(s, phrases[1..]);
      PresentInOrderSubsequence(s, phrases[1..]);
      if Contains(s, phrases[0]) {
        var r := [phrases[0]] + rest;
        assert r[1..] == rest;
      } else {
        assert PresentInOrder(s, phrases) == rest;
        if rest != [] {
          assert Contains(s, rest[0]) && rest[0] != phrases[0];
        }
      }
    }
  }

  function DigitChar(d: nat): (c: char)
    requires d < 10
    ensures '0' <= c <= '9'
  {
    ('0' as int + d) as char
  }

  /** str(n) for a non-negative integer: its decimal digits, most significant first. */
  function NatToString(n: nat): (r: string)
    ensures |r| >= 1
    ensures forall k :: 0 <= k < |r| ==> '0' <= r[k] <= '9'
    decreases n
  {
    if n < 10 then [DigitChar(n)] else NatToString(n / 10) + [DigitChar(n % 10)]
  }
}
