/** The base class every analyzer derives from: the default configuration read off the
    analyzer's schema, and the check that a configuration names only schema parameters. */
module BaseAnalyzer {

  import opened Wrappers
  import opened PyValues
  import Dicts

  /** One parameter's schema entry: 'type', 'default', 'range', 'options', per-size and
      per-profile values. */
  type ParamSchema = Dicts.Dict<string, Value>

  /** get_config_schema(): parameter name to its entry. */
  type Schema = Dicts.Dict<string, ParamSchema>

  type Config = Dicts.Dict<string, Value>

  /** info.get('default') */
  function DefaultOf(info: ParamSchema): Value {
    Dicts.GetOr(info, "default", VNone)
  }

  function DefaultRule(param: string, info: ParamSchema): Value {
    DefaultOf(info)
  }

  function DefaultConfig(schema: Schema): Config {
    Dicts.MapUpTo(schema, DefaultRule, |schema|)
  }

  /** get_default_config */
  method GetDefaultConfig(schema: Schema) returns (config: Config)
    ensures config == DefaultConfig(schema)
  {
    config := [];
    var i := 0;
    while i < |schema|
      invariant 0 <= i <= |schema|
      invariant config == Dicts.MapUpTo(schema, DefaultRule, i)
    {
      config := Dicts.Put(config, schema[i].0, DefaultRule(schema[i].0, schema[i].1));
      assert config == Dicts.MapUpTo(schema, DefaultRule, i + 1);
      i := i + 1;
    }
  }

  /** The default config has exactly the schema's keys, in the schema's order, and each
      parameter's value is its entry's 'default', None where the entry has none. */
  lemma DefaultConfigFacts(schema: Schema, p: string)
    requires Dicts.WellFormed(schema)
    ensures Dicts.Keys(DefaultConfig(schema)) == Dicts.Keys(schema)
    ensures Dicts.Get(DefaultConfig(schema), p) ==
      match Dicts.Get(schema, p)
      case Some(info) => Some(Dicts.Get(info, "default").GetOr(VNone))
      case None => None
  {
    Dicts.MapFacts(schema, DefaultRule, p);
  }

  /** validate_config: False as soon as a config key is not a schema parameter. Values are
      not looked at. */
  function ValidateConfig(schema: Schema, config: Config): bool {
    if config == [] then true
    else if config[0].0 !in Dicts.Keys(schema) then false
    else ValidateConfig(schema, config[1..])
  }

  /** A config validates exactly when every key it names is a schema parameter; in
      particular the empty config validates. */
  lemma {:induction false} ValidateConfigIff(schema: Schema, config: Config)
    ensures ValidateConfig(schema, config) <==> forall k :: k in Dicts.Keys(config) ==> k in Dicts.Keys(schema)
    ensures config == [] ==> ValidateConfig(schema, config)
  {
    if config != [] {
      ValidateConfigIff(schema, config[1..]);
      Dicts.KeysCons(config);
    }
  }

  /** Only the keys matter: two configs with the same keys validate alike. */
  lemma {:induction false} ValidateIgnoresValues(schema: Schema, c1: Config, c2: Config)
    requires Dicts.Keys(c1) == Dicts.Keys(c2)
    ensures ValidateConfig(schema, c1) == ValidateConfig(schema, c2)
  {
    if c1 != [] {
      Dicts.KeysCons(c1);
      Dicts.KeysCons(c2);
      assert c1[0].0 == Dicts.Keys(c1)[0] == Dicts.Keys(c2)[0] == c2[0].0;
      assert Dicts.Keys(c1[1..]) == Dicts.Keys(c1)[1..] == Dicts.Keys(c2)[1..] == Dicts.Keys(c2[1..]);
      ValidateIgnoresValues(schema, c1[1..], c2[1..]);
    }
  }

  /** Every schema parameter has an entry in the default config, and the default config
      validates against its own schema. */
  lemma DefaultConfigValidates(schema: Schema)
    requires Dicts.WellFormed(schema)
    ensures forall p :: p in Dicts.Keys(schema) ==> p in Dicts.Keys(DefaultConfig(schema))
    ensures ValidateConfig(schema, DefaultConfig(schema))
  {
    DefaultConfigFacts(schema, "");
    ValidateConfigIff(schema, DefaultConfig(schema));
  }
}
