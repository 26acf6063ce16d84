/** Project configuration records, resource-file lines, the stop-word list and the
    formula weights. Files are inputs: a file is its lines, or missing, and a parsed JSON
    document is given alongside. */
module ConfigLoader {

  import opened Wrappers
  import opened PyValues
  import Dicts
  import Seqs
  import Text

  const ValueError: string := "ValueError"
  const TypeError: string := "TypeError"
  const JsonDecodeError: string := "JSONDecodeError"

  /** The dataclass: the five main sections and the optional fields, each as loaded from
      JSON (None is VNone). */
  datatype ProjectConfig = ProjectConfig(
    projectName: Value,
    topicModeling: Value,
    emotion: Value,
    linguistic: Value,
    output: Value,
    description: Value,
    createdDate: Value,
    version: Value,
    analysis: Value,
    visualizations: Value,
    exportSettings: Value,
    qualityControl: Value,
    advanced: Value)

  /** The flags an old config without `advanced` receives. */
  const DefaultAdvanced: Value := VDict([
    ("contradiction_detection", VBool(true)),
    ("concept_network", VBool(true)),
    ("temporal_analysis", VBool(true)),
    ("comparative_mode", VBool(false))])

  /** __post_init__: a falsy project name is refused; a missing `advanced` is filled in. */
  function PostInit(c: ProjectConfig): Result<ProjectConfig, string> {
    if !Truthy(c.projectName) then Failure(ValueError)
    else if c.advanced == VNone then Success(c.(advanced := DefaultAdvanced))
    else Success(c)
  }

  lemma PostInitFacts(c: ProjectConfig)
    ensures PostInit(c).Failure? <==> !Truthy(c.projectName)
    ensures PostInit(c).Success? ==>
      && PostInit(c).value.advanced == (if c.advanced == VNone then DefaultAdvanced else c.advanced)
      && PostInit(c).value.(advanced := c.advanced) == c
  {
  }

  const Empty: Value := VDict([])

  /** from_dict: the main sections default to {}, the rest to None; other keys are
      ignored. */
  function FromDict(data: Dicts.Dict<string, Value>): Result<ProjectConfig, string> {
    PostInit(Fields(data))
  }

  /** The record of the dict's fields before __post_init__. */
  function Fields(data: Dicts.Dict<string, Value>): ProjectConfig {
    ProjectConfig(
      Dicts.GetOr(data, "project_name", VNone),
      Dicts.GetOr(data, "topic_modeling", Empty),
      Dicts.GetOr(data, "emotion", Empty),
      Dicts.GetOr(data, "linguistic", Empty),
      Dicts.GetOr(data, "output", Empty),
      Dicts.GetOr(data, "description", VNone),
      Dicts.GetOr(data, "created_date", VNone),
      Dicts.GetOr(data, "version", VNone),
      Dicts.GetOr(data, "analysis", VNone),
      Dicts.GetOr(data, "visualizations", VNone),
      Dicts.GetOr(data, "export", VNone),
      Dicts.GetOr(data, "quality_control", VNone),
      Dicts.GetOr(data, "advanced", VNone))
  }

  const KnownFields: seq<string> := [
    "project_name", "topic_modeling", "emotion", "linguistic", "output", "description",
    "created_date", "version", "analysis", "visualizations", "export", "quality_control",
    "advanced"]

  /** A missing or falsy project name raises ValueError; missing sections read as {}; a
      missing `advanced` gets the default flags. */
  lemma FromDictFacts(data: Dicts.Dict<string, Value>)
    ensures FromDict(data).Failure? <==> !Truthy(Dicts.GetOr(data, "project_name", VNone))
    ensures "project_name" !in Dicts.Keys(data) ==> FromDict(data) == Failure(ValueError)
    ensures FromDict(data).Success? ==>
      var c := FromDict(data).value;
      && ("topic_modeling" !in Dicts.Keys(data) ==> c.topicModeling == Empty)
      && ("emotion" !in Dicts.Keys(data) ==> c.emotion == Empty)
      && ("linguistic" !in Dicts.Keys(data) ==> c.linguistic == Empty)
      && ("output" !in Dicts.Keys(data) ==> c.output == Empty)
      && ("advanced" !in Dicts.Keys(data) ==> c.advanced == DefaultAdvanced)
  {
  }

  /** Adding a key that is not a field leaves the result unchanged. */
  lemma FromDictIgnoresUnknown(data: Dicts.Dict<string, Value>, k: string, v: Value)
    requires k !in KnownFields
    ensures FromDict(Dicts.Put(data, k, v)) == FromDict(data)
  {
    var put := Dicts.Put(data, k, v);
    assert Fields(put) == Fields(data) by {
      forall f | f != k
        ensures Dicts.Get(put, f) == Dicts.Get(data, f)
      {
        Dicts.GetPut(data, k, v, f);
      }
    }
  }

  // ---------------------------------------------------------------------------
  // Resource files

  function Stripped(lines: seq<string>): seq<string> {
    seq(|lines|, i requires 0 <= i < |lines| => Text.Strip(lines[i]))
  }

  /** The lines of a resource file, stripped, keeping the non-blank ones in order. */
  lemma {:induction false} ResourceLinesFacts(lines: seq<string>)
    ensures Seqs.IsSubsequence(Text.NonBlankStripped(lines), Stripped(lines))
    ensures forall k :: 0 <= k < |lines| && Text.Strip(lines[k]) != "" ==>
      Text.Strip(lines[k]) in Text.NonBlankStripped(lines)
  {
    if lines != [] {
      ResourceLinesFacts(lines[1..]);
      var t := Text.Strip(lines[0]);
      var rest := Text.NonBlankStripped(lines[1..]);
      var r := Text.NonBlankStripped(lines);
      var ys := Stripped(lines);
      assert ys[0] == t && ys[1..] == Stripped(lines[1..]);
      assert r == (if t == [] then [] else [t]) + rest;
      if t == [] {
        assert r == rest;
        if rest != [] {
          assert Text.IsStripped(rest[0]);
          assert rest[0] != ys[0];
        }
      } else {
        assert r[0] == t && r[1..] == rest;
      }
      forall k | 1 <= k < |lines| && Text.Strip(lines[k]) != ""
        ensures Text.Strip(lines[k]) in r
      {
        assert lines[k] == lines[1..][k - 1];
      }
    }
  }

  predicate EndsWith(s: string, suffix: string) {
    |suffix| <= |s| && s[|s| - |suffix|..] == suffix
  }

  /** load_resource_file: [] for a missing file, the parsed document for a .json file,
      otherwise the stripped non-blank lines. */
  function LoadResource(filename: string, file: Option<seq<string>>, parsed: Option<Value>): (r: Result<Value, string>)
    ensures file.None? ==> r == Success(VList([]))
  {
    match file
    case None => Success(VList([]))
    case Some(lines) =>
      if EndsWith(filename, ".json") then
        (match parsed
         case Some(v) => Success(v)
         case None => Failure(JsonDecodeError))
      else
        var kept := Text.NonBlankStripped(lines);
        Success(VList(seq(|kept|, i requires 0 <= i < |kept| => VStr(kept[i]))))
  }

  // ---------------------------------------------------------------------------
  // Stop words

  /** list(set(custom + extra)); the order of a Python set is not modelled, so the words
      are kept in first-occurrence order. */
  method GetStopwords(custom: seq<string>, extra: Option<seq<string>>) returns (r: seq<string>)
    ensures Seqs.Distinct(r)
    ensures forall w :: w in r <==> w in custom || (extra.Some? && w in extra.value)
  {
    var stopwords := custom;
    if extra.Some? && extra.value != [] {
      stopwords := stopwords + extra.value;
    }
    r := Seqs.Dedup(stopwords);
    forall w ensures w in r <==> w in stopwords {
      Seqs.DedupMembers(stopwords, w);
    }
  }

  // ---------------------------------------------------------------------------
  // Formula weights

  const WeightsFile: string := "pesos_formula_linguistica.json"

  const DefaultWeights: Dicts.Dict<string, Value> := [
    ("hesitation_penalty", VFloat(-0.1)),
    ("certainty_boost", VFloat(0.2)),
    ("emotional_intensity", VFloat(1.5)),
    ("topic_coherence", VFloat(0.3)),
    ("sentence_length_factor", VFloat(0.05))]

  /** get_formula_weights as written: {**defaults, **weights} raises TypeError when the
      loaded weights are not a dict, which includes the [] a missing file yields. */
  function FormulaWeightsAsWritten(loaded: Option<Value>): Result<Dicts.Dict<string, Value>, string> {
    match loaded.GetOr(Empty)
    case VDict(entries) => Success(Dicts.PutAll(DefaultWeights, entries))
    case _ => Failure(TypeError)
  }

  /** With the weights file missing, the lexicons hold [] under 'pesos_formula' and the
      defaults meant for that case are never returned. */
  lemma MissingWeightsFileRaises()
    ensures LoadResource(WeightsFile, None, None) == Success(VList([]))
    ensures FormulaWeightsAsWritten(Some(LoadResource(WeightsFile, None, None).value)) == Failure(TypeError)
  {
  }

  /** get_formula_weights as intended: anything but a dict counts as no weights. */
  function FormulaWeights(loaded: Option<Value>): Dicts.Dict<string, Value> {
    match loaded.GetOr(Empty)
    case VDict(entries) => Dicts.PutAll(DefaultWeights, entries)
    case _ => DefaultWeights
  }

  lemma DefaultWeightsWellFormed()
    ensures Dicts.WellFormed(DefaultWeights)
  {
    assert Dicts.Keys(DefaultWeights) == ["hesitation_penalty", "certainty_boost", "emotional_intensity",
                                          "topic_coherence", "sentence_length_factor"];
  }

  /** The five default keys are always there; a loaded weight overrides its default; a
      missing file gives exactly the defaults; where the original returns it agrees. */
  lemma FormulaWeightsFacts(loaded: Option<Value>, k: string)
    requires loaded.Some? && loaded.value.VDict? ==> Dicts.WellFormed(loaded.value.entries)
    ensures forall d :: d in Dicts.Keys(DefaultWeights) ==> d in Dicts.Keys(FormulaWeights(loaded))
    ensures Dicts.Get(FormulaWeights(loaded), k) ==
      if loaded.Some? && loaded.value.VDict? && k in Dicts.Keys(loaded.value.entries)
      then Dicts.Get(loaded.value.entries, k)
      else Dicts.Get(DefaultWeights, k)
    ensures Dicts.WellFormed(FormulaWeights(loaded))
    ensures loaded == Some(VList([])) ==> FormulaWeights(loaded) == DefaultWeights
    ensures FormulaWeightsAsWritten(loaded).Success? ==> FormulaWeightsAsWritten(loaded).value == FormulaWeights(loaded)
  {
    DefaultWeightsWellFormed();
    var w := loaded.GetOr(Empty);
    if w.VDict? {
      Dicts.GetPutAll(DefaultWeights, w.entries, k);
      Dicts.PutAllWellFormed(DefaultWeights, w.entries);
      forall d | d in Dicts.Keys(DefaultWeights)
        ensures d in Dicts.Keys(FormulaWeights(loaded))
      {
        Dicts.GetPutAll(DefaultWeights, w.entries, d);
      }
    }
  }
}
