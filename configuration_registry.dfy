/** The configuration registry: every analyzer's parameter schema, the three analysis
    profiles, the configuration resolved for a text size and a profile, and the
    validation of a configuration against a schema. */
module ConfigurationRegistry {

  import opened Wrappers
  import opened PyValues
  import opened BaseAnalyzer
  import Dicts
  import Text
  import Sorting

  /** One discovered analyzer: its class name, its schema and the schema's size. */
  datatype SchemaInfo = SchemaInfo(className: string, schema: Schema, paramCount: nat)

  datatype Profile = Profile(description: string, adjustments: Config)

  /** The registry's state once discovery has run; the discovered schemas are an input. */
  datatype Registry = Registry(analyzerSchemas: Dicts.Dict<string, SchemaInfo>, profiles: Dicts.Dict<string, Profile>)

  const Profiles: Dicts.Dict<string, Profile> := [
    ("academic", Profile("Perfil para análise de textos acadêmicos", [
      ("n_topics", VInt(10)),
      ("min_frequency", VInt(5)),
      ("stopwords_file", VStr("academic")),
      ("hesitation_markers", VStr("academic")),
      ("certainty_phrases", VStr("academic"))])),
    ("interview", Profile("Perfil para análise de entrevistas", [
      ("detect_hesitations", VBool(true)),
      ("segments", VInt(15)),
      ("window_size", VInt(3)),
      ("hesitation_markers", VStr("interview"))])),
    ("medical", Profile("Perfil para análise de textos médicos", [
      ("stopwords_file", VStr("medical")),
      ("lexicon_positive", VStr("medical")),
      ("lexicon_negative", VStr("medical")),
      ("topic_keywords", VStr("medical"))]))
  ]

  function NewRegistry(discovered: Dicts.Dict<string, SchemaInfo>): Registry {
    Registry(discovered, Profiles)
  }

  const ShortMaxWords: int := 500
  const MediumMaxWords: int := 5000

  // ---------------------------------------------------------------------------
  // Names, schemas and the parameter count

  function ParamCountSum(schemas: Dicts.Dict<string, SchemaInfo>): nat {
    if schemas == [] then 0 else schemas[0].1.paramCount + ParamCountSum(schemas[1..])
  }

  /** _count_total_parameters */
  method CountTotalParameters(reg: Registry) returns (total: nat)
    ensures total == ParamCountSum(reg.analyzerSchemas)
  {
    total := 0;
    var i := 0;
    var s := reg.analyzerSchemas;
    assert s[i..] == s;
    while i < |s|
      invariant 0 <= i <= |s|
      invariant total + ParamCountSum(s[i..]) == ParamCountSum(s)
    {
      assert s[i..][0] == s[i] && s[i..][1..] == s[i + 1..];
      total := total + s[i].1.paramCount;
      i := i + 1;
    }
    assert s[i..] == [];
  }

  /** The total is 0 exactly when no analyzer has a parameter, and it is at least any one
      analyzer's count. */
  lemma {:induction false} ParamCountSumFacts(schemas: Dicts.Dict<string, SchemaInfo>)
    ensures ParamCountSum(schemas) == 0 <==> forall k :: 0 <= k < |schemas| ==> schemas[k].1.paramCount == 0
    ensures forall k :: 0 <= k < |schemas| ==> schemas[k].1.paramCount <= ParamCountSum(schemas)
  {
    if schemas != [] {
      ParamCountSumFacts(schemas[1..]);
      assert forall k :: 1 <= k < |schemas| ==> schemas[k] == schemas[1..][k - 1];
    }
  }

  /** get_analyzer_names */
  function AnalyzerNames(reg: Registry): seq<string> {
    Sorting.SortStrings(Dicts.Keys(reg.analyzerSchemas))
  }

  /** The names come back in ascending order and are exactly the registered names. */
  lemma AnalyzerNamesFacts(reg: Registry)
    ensures Sorting.SortedStrings(AnalyzerNames(reg))
    ensures multiset(AnalyzerNames(reg)) == multiset(Dicts.Keys(reg.analyzerSchemas))
  {
    Sorting.SortStringsFacts(Dicts.Keys(reg.analyzerSchemas));
  }

  /** get_analyzer_schema: {} for an unknown analyzer. */
  function AnalyzerSchema(reg: Registry, name: string): (r: Schema)
    ensures name !in Dicts.Keys(reg.analyzerSchemas) ==> r == []
  {
    match Dicts.Get(reg.analyzerSchemas, name)
    case Some(info) => info.schema
    case None => []
  }

  // ---------------------------------------------------------------------------
  // The configuration for a text size and a profile

  /** The profile's name and adjustments when `profile and profile in self.profiles`. */
  function ActiveProfile(profile: Option<string>, profiles: Dicts.Dict<string, Profile>): Option<(string, Config)> {
    match profile
    case Some(p) =>
      if p != "" && p in Dicts.Keys(profiles) then Some((p, Dicts.Get(profiles, p).value.adjustments)) else None
    case None => None
  }

  /** One parameter's value, overwritten in the loop's order: the default, the text-size
      entry, the profile's adjustment, the schema's own profile entry. */
  function ParamValue(ps: ParamSchema, param: string, textSize: string, profile: Option<string>,
                      profiles: Dicts.Dict<string, Profile>): Value
  {
    var v0 := Dicts.GetOr(ps, "default", VNone);
    var v1 := if textSize in Dicts.Keys(ps) then Dicts.Get(ps, textSize).value else v0;
    match ActiveProfile(profile, profiles)
    case None => v1
    case Some(active) =>
      var v2 := if param in Dicts.Keys(active.1) then Dicts.Get(active.1, param).value else v1;
      if active.0 in Dicts.Keys(ps) then Dicts.Get(ps, active.0).value else v2
  }

  function ParamRule(textSize: string, profile: Option<string>, profiles: Dicts.Dict<string, Profile>)
    : (string, ParamSchema) -> Value
  {
    (param: string, ps: ParamSchema) => ParamValue(ps, param, textSize, profile, profiles)
  }

  function ConfigFor(reg: Registry, name: string, textSize: string, profile: Option<string>): Config {
    var schema := AnalyzerSchema(reg, name);
    if schema == [] then [] else Dicts.MapUpTo(schema, ParamRule(textSize, profile, reg.profiles), |schema|)
  }

  /** get_config_for_analyzer */
  method GetConfigForAnalyzer(reg: Registry, name: string, textSize: string, profile: Option<string>)
    returns (config: Config)
    ensures config == ConfigFor(reg, name, textSize, profile)
  {
    var schema := AnalyzerSchema(reg, name);
    if schema == [] {
      return [];
    }
    var rule := ParamRule(textSize, profile, reg.profiles);
    config := [];
    var i := 0;
    while i < |schema|
      invariant 0 <= i <= |schema|
      invariant config == Dicts.MapUpTo(schema, rule, i)
    {
      var param := schema[i].0;
      var ps := schema[i].1;
      var value := Dicts.GetOr(ps, "default", VNone);
      if textSize in Dicts.Keys(ps) {
        value := Dicts.Get(ps, textSize).value;
      }
      match ActiveProfile(profile, reg.profiles) {
        case Some(active) =>
          if param in Dicts.Keys(active.1) {
            value := Dicts.Get(active.1, param).value;
          }
          if active.0 in Dicts.Keys(ps) {
            value := Dicts.Get(ps, active.0).value;
          }
        case None =>
      }
      assert value == rule(param, ps);
      config := Dicts.Put(config, param, value);
      assert config == Dicts.MapUpTo(schema, rule, i + 1);
      i := i + 1;
    }
  }

  /** Precedence, highest first: the schema's entry for an active profile, the profile's
      adjustment, the text-size entry, the default, and None. */
  lemma ParamPrecedence(ps: ParamSchema, param: string, textSize: string, profile: Option<string>,
                        profiles: Dicts.Dict<string, Profile>)
    ensures var a := ActiveProfile(profile, profiles);
      ParamValue(ps, param, textSize, profile, profiles) ==
        if a.Some? && a.value.0 in Dicts.Keys(ps) then Dicts.Get(ps, a.value.0).value
        else if a.Some? && param in Dicts.Keys(a.value.1) then Dicts.Get(a.value.1, param).value
        else if textSize in Dicts.Keys(ps) then Dicts.Get(ps, textSize).value
        else if "default" in Dicts.Keys(ps) then Dicts.Get(ps, "default").value
        else VNone
  {
  }

  /** The resolved config has exactly the schema's keys, in order, each with its
      parameter's value; an unknown analyzer resolves to {}. */
  lemma ConfigForFacts(reg: Registry, name: string, textSize: string, profile: Option<string>, p: string)
    requires Dicts.WellFormed(AnalyzerSchema(reg, name))
    ensures var schema := AnalyzerSchema(reg, name);
      var config := ConfigFor(reg, name, textSize, profile);
      && Dicts.Keys(config) == Dicts.Keys(schema)
      && Dicts.Get(config, p) ==
           match Dicts.Get(schema, p)
           case Some(ps) => Some(ParamValue(ps, p, textSize, profile, reg.profiles))
           case None => None
    ensures name !in Dicts.Keys(reg.analyzerSchemas) ==> ConfigFor(reg, name, textSize, profile) == []
  {
    var schema := AnalyzerSchema(reg, name);
    if schema != [] {
      Dicts.MapFacts(schema, ParamRule(textSize, profile, reg.profiles), p);
    }
  }

  /** A profile that is empty or not registered changes nothing. */
  lemma UnknownProfileIgnored(reg: Registry, name: string, textSize: string, p: string)
    requires p == "" || p !in Dicts.Keys(reg.profiles)
    ensures ConfigFor(reg, name, textSize, Some(p)) == ConfigFor(reg, name, textSize, None)
  {
    var schema := AnalyzerSchema(reg, name);
    if schema != [] {
      Dicts.MapAgree(schema, ParamRule(textSize, Some(p), reg.profiles), ParamRule(textSize, None, reg.profiles), |schema|);
    }
  }

  // ---------------------------------------------------------------------------
  // Validation

  /** The reported problems; their message text is not modelled. */
  datatype ConfigError =
    | UnknownAnalyzer(analyzer: string)
    | UnknownParameter(param: string)
    | WrongType(param: string, expected: string, received: string)
    | OutOfRange(param: string, low: Value, high: Value, value: Value)
    | InvalidOption(param: string, item: Value)

  const TypeError: string := "TypeError"
  const UnpackError: string := "ValueError"

  /** The isinstance check for a declared 'type'; other or missing types accept anything. */
  predicate TypeOk(declared: Option<Value>, v: Value) {
    match declared
    case Some(VStr(t)) =>
      if t == "int" then IsInt(v)
      else if t == "float" then IsNumber(v)
      else if t == "bool" then v.VBool?
      else if t == "str" then v.VStr?
      else if t == "list" then v.VList?
      else if t == "dict" then v.VDict?
      else true
    case _ => true
  }

  function DeclaredName(declared: Option<Value>): string {
    if declared.Some? && declared.value.VStr? then declared.value.s else ""
  }

  /** `min_val, max_val = param_schema['range']`: any iterable of exactly two elements
      unpacks (a string into its characters, a dict into its keys); another length raises
      ValueError, and a value that is not iterable raises TypeError. */
  function UnpackRange(range: Value): Result<(Value, Value), string> {
    match range
    case VList(items) => if |items| == 2 then Success((items[0], items[1])) else Failure(UnpackError)
    case VStr(s) => if |s| == 2 then Success((VStr([s[0]]), VStr([s[1]]))) else Failure(UnpackError)
    case VDict(es) => if |es| == 2 then Success((VStr(es[0].0), VStr(es[1].0))) else Failure(UnpackError)
    case _ => Failure(TypeError)
  }

  /** The unpacking, then the comparisons, which short-circuit after a value below the
      minimum; comparing a number with a string raises TypeError. */
  function RangeErrors(param: string, range: Value, v: Value): Result<seq<ConfigError>, string>
    requires IsNumber(v)
  {
    match UnpackRange(range)
    case Failure(e) => Failure(e)
    case Success((lo, hi)) =>
      if !IsNumber(lo) then Failure(TypeError)
      else if Num(v) < Num(lo) then Success([OutOfRange(param, lo, hi, v)])
      else if !IsNumber(hi) then Failure(TypeError)
      else if Num(v) > Num(hi) then Success([OutOfRange(param, lo, hi, v)])
      else Success([])
  }

  /** `x in options` for the container kinds Python accepts. */
  function Member(x: Value, options: Value): Result<bool, string> {
    match options
    case VList(items) => Success(InList(x, items))
    case VStr(o) => if x.VStr? then Success(Text.Contains(o, x.s)) else Failure(TypeError)
    case VDict(es) =>
      if x.VList? || x.VDict? then Failure(TypeError) else Success(x.VStr? && x.s in Dicts.Keys(es))
    case _ => Failure(TypeError)
  }

  /** One InvalidOption per list item not among the options, in order. */
  function ItemErrors(param: string, items: seq<Value>, options: Value): Result<seq<ConfigError>, string> {
    if items == [] then Success([])
    else match Member(items[0], options)
      case Failure(e) => Failure(e)
      case Success(found) =>
        match ItemErrors(param, items[1..], options)
        case Failure(e) => Failure(e)
        case Success(rest) => Success((if found then [] else [InvalidOption(param, items[0])]) + rest)
  }

  function OptionErrors(param: string, declared: Option<Value>, options: Value, v: Value): Result<seq<ConfigError>, string> {
    if declared == Some(VStr("list")) && v.VList? then ItemErrors(param, v.items, options)
    else match Member(v, options)
      case Failure(e) => Failure(e)
      case Success(found) => Success(if found then [] else [InvalidOption(param, v)])
  }

  function Then(a: Result<seq<ConfigError>, string>, b: Result<seq<ConfigError>, string>): Result<seq<ConfigError>, string> {
    match a
    case Failure(e) => Failure(e)
    case Success(x) =>
      match b
      case Failure(e) => Failure(e)
      case Success(y) => Success(x + y)
  }

  /** The checks of one known parameter: its type, then, only when the type passed, the
      range of a number and the options. */
  function ParamErrors(ps: ParamSchema, param: string, v: Value): Result<seq<ConfigError>, string> {
    var declared := Dicts.Get(ps, "type");
    if !TypeOk(declared, v) then Success([WrongType(param, DeclaredName(declared), TypeName(v))])
    else
      var range := if "range" in Dicts.Keys(ps) && IsNumber(v) then RangeErrors(param, Dicts.Get(ps, "range").value, v) else Success([]);
      var options := if "options" in Dicts.Keys(ps) then OptionErrors(param, declared, Dicts.Get(ps, "options").value, v) else Success([]);
      Then(range, options)
  }

  function EntryErrors(schema: Schema, entry: (string, Value)): Result<seq<ConfigError>, string> {
    if entry.0 !in Dicts.Keys(schema) then Success([UnknownParameter(entry.0)])
    else ParamErrors(Dicts.Get(schema, entry.0).value, entry.0, entry.1)
  }

  function ConfigErrors(schema: Schema, config: Config): Result<seq<ConfigError>, string> {
    if config == [] then Success([]) else Then(EntryErrors(schema, config[0]), ConfigErrors(schema, config[1..]))
  }

  /** validate_config: (valid, errors), or the exception a malformed schema entry raises. */
  function Validate(reg: Registry, name: string, config: Config): Result<(bool, seq<ConfigError>), string> {
    var schema := AnalyzerSchema(reg, name);
    if schema == [] then Success((false, [UnknownAnalyzer(name)]))
    else match ConfigErrors(schema, config)
      case Failure(e) => Failure(e)
      case Success(errors) => Success((errors == [], errors))
  }

  lemma ThenEmpty(a: Result<seq<ConfigError>, string>)
    ensures Then(Success([]), a) == a && Then(a, Success([])) == a
  {
    if a.Success? {
      assert [] + a.value == a.value && a.value + [] == a.value;
    }
  }

  lemma ThenAssoc(a: Result<seq<ConfigError>, string>, b: Result<seq<ConfigError>, string>, c: Result<seq<ConfigError>, string>)
    ensures Then(Then(a, b), c) == Then(a, Then(b, c))
  {
    if a.Success? && b.Success? && c.Success? {
      assert (a.value + b.value) + c.value == a.value + (b.value + c.value);
    }
  }

  /** The validation loop: errors are appended entry by entry; an exception ends it. */
  method ValidateConfig(reg: Registry, name: string, config: Config) returns (r: Result<(bool, seq<ConfigError>), string>)
    ensures r == Validate(reg, name, config)
  {
    var schema := AnalyzerSchema(reg, name);
    if schema == [] {
      return Success((false, [UnknownAnalyzer(name)]));
    }
    var errors: seq<ConfigError> := [];
    var i := 0;
    assert config[i..] == config;
    ThenEmpty(ConfigErrors(schema, config));
    while i < |config|
      invariant 0 <= i <= |config|
      invariant ConfigErrors(schema, config) == Then(Success(errors), ConfigErrors(schema, config[i..]))
    {
      assert config[i..][0] == config[i] && config[i..][1..] == config[i + 1..];
      var e := EntryErrors(schema, config[i]);
      ThenAssoc(Success(errors), e, ConfigErrors(schema, config[i + 1..]));
      if e.Failure? {
        return Failure(e.error);
      }
      errors := errors + e.value;
      i := i + 1;
    }
    assert config[i..] == [];
    assert errors + [] == errors;
    r := Success((errors == [], errors));
  }

  /** The flag is true exactly when there is no error; an unknown analyzer (or one with
      an empty schema) gives false and the single not-found error. */
  lemma ValidateFacts(reg: Registry, name: string, config: Config)
    ensures Validate(reg, name, config).Success? ==>
      (Validate(reg, name, config).value.0 <==> Validate(reg, name, config).value.1 == [])
    ensures AnalyzerSchema(reg, name) == [] ==> Validate(reg, name, config) == Success((false, [UnknownAnalyzer(name)]))
  {
  }

  /** An unknown parameter adds exactly one error and none of the other checks run. */
  lemma UnknownParameterFact(schema: Schema, param: string, v: Value)
    requires param !in Dicts.Keys(schema)
    ensures EntryErrors(schema, (param, v)) == Success([UnknownParameter(param)])
  {
  }

  /** A failed type check is the only error for that parameter: range and options are
      skipped. */
  lemma WrongTypeSkipsRest(ps: ParamSchema, param: string, v: Value)
    requires !TypeOk(Dicts.Get(ps, "type"), v)
    ensures ParamErrors(ps, param, v) ==
      Success([WrongType(param, DeclaredName(Dicts.Get(ps, "type")), TypeName(v))])
  {
  }

  /** A bool passes the 'int' and 'float' checks, since bool is a subclass of int. */
  lemma BoolIsInt(b: bool)
    ensures TypeOk(Some(VStr("int")), VBool(b))
    ensures TypeOk(Some(VStr("float")), VBool(b))
    ensures !TypeOk(Some(VStr("str")), VBool(b))
  {
  }

  /** For an int parameter with an int range and no options, the range is inclusive at
      both ends. */
  lemma RangeInclusive(ps: ParamSchema, param: string, v: int, lo: int, hi: int)
    requires Dicts.Get(ps, "type") == Some(VStr("int"))
    requires Dicts.Get(ps, "range") == Some(VList([VInt(lo), VInt(hi)]))
    requires "options" !in Dicts.Keys(ps)
    ensures ParamErrors(ps, param, VInt(v)) ==
      Success(if lo <= v <= hi then [] else [OutOfRange(param, VInt(lo), VInt(hi), VInt(v))])
  {
    ThenEmpty(RangeErrors(param, VList([VInt(lo), VInt(hi)]), VInt(v)));
  }

  /** A range that is not a two-element list raises: ValueError when it is a string, list
      or dict of another length, TypeError when it is a two-character string or a two-key
      dict (a number compared with a string), or not iterable at all. */
  lemma RangeShapeErrors(param: string, range: Value, v: Value)
    requires IsNumber(v)
    ensures range.VList? && |range.items| != 2 ==> RangeErrors(param, range, v) == Failure(UnpackError)
    ensures range.VStr? ==>
      RangeErrors(param, range, v) == Failure(if |range.s| == 2 then TypeError else UnpackError)
    ensures range.VDict? ==>
      RangeErrors(param, range, v) == Failure(if |range.entries| == 2 then TypeError else UnpackError)
    ensures !range.VList? && !range.VStr? && !range.VDict? ==> RangeErrors(param, range, v) == Failure(TypeError)
  {
  }

  /** The items of a list value that are not among the listed options. */
  function NotListed(param: string, items: seq<Value>, opts: seq<Value>): seq<ConfigError> {
    if items == [] then []
    else (if InList(items[0], opts) then [] else [InvalidOption(param, items[0])]) + NotListed(param, items[1..], opts)
  }

  lemma {:induction false} ItemErrorsList(param: string, items: seq<Value>, opts: seq<Value>)
    ensures ItemErrors(param, items, VList(opts)) == Success(NotListed(param, items, opts))
  {
    if items != [] {
      ItemErrorsList(param, items[1..], opts);
    }
  }

  /** A list parameter with list options is checked item by item: one error per item that
      is not an option, in order. */
  lemma ListOptionsPerItem(ps: ParamSchema, param: string, items: seq<Value>, opts: seq<Value>)
    requires Dicts.Get(ps, "type") == Some(VStr("list"))
    requires Dicts.Get(ps, "options") == Some(VList(opts))
    ensures ParamErrors(ps, param, VList(items)) == Success(NotListed(param, items, opts))
  {
    ItemErrorsList(param, items, opts);
    assert [] + NotListed(param, items, opts) == NotListed(param, items, opts);
  }

  // ---------------------------------------------------------------------------
  // Text size

  /** get_text_size_category */
  function TextSizeCategory(wordCount: int): string {
    if wordCount <= ShortMaxWords then "short_text"
    else if wordCount <= MediumMaxWords then "medium"
    else "long_text"
  }

  function SizeRank(category: string): nat {
    if category == "short_text" then 0 else if category == "medium" then 1 else 2
  }

  /** Up to 500 words is short, up to 5000 medium, more is long; the category never gets
      smaller as the word count grows. */
  lemma TextSizeBands(a: int, b: int)
    ensures TextSizeCategory(a) == "short_text" <==> a <= 500
    ensures TextSizeCategory(a) == "medium" <==> 500 < a <= 5000
    ensures TextSizeCategory(a) == "long_text" <==> 5000 < a
    ensures a <= b ==> SizeRank(TextSizeCategory(a)) <= SizeRank(TextSizeCategory(b))
  {
  }
}
