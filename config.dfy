/**
 * The configuration tree of the `org.rimasu.config` package: the same four
 * shapes as the node tree, without paths. Containers copy the map or list
 * they are given; values here are immutable, so the copy is the value.
 */
module Config {
  import opened Wrappers
  import Decimal

  datatype Config =
    | NullConfig
    | ConfigValue(data: string)
    | ConfigStruct(values: map<string, Config>)
    | ConfigList(items: seq<Config>)

  /** The errors as the accessors construct them. */
  datatype ConfigError =
    | UndefinedValue(key: string)
    | IncompatibleValue
    | InvalidIndex(index: int)

  /** `asString`: a value's data; anything else is incompatible. */
  function AsString(c: Config): (r: Result<string, ConfigError>)
    ensures r.Ok? <==> c.ConfigValue?
    ensures r.Ok? ==> r.value == c.data
    ensures r.Err? ==> r.error == IncompatibleValue
  {
    if c.ConfigValue? then Ok(c.data) else Err(IncompatibleValue)
  }

  /** `asInt`: the 32-bit number a value's data spells; anything else is incompatible. */
  function AsInt(c: Config): (r: Result<int, ConfigError>)
    ensures r.Ok? <==> c.ConfigValue? && Decimal.ParseInteger(c.data, Decimal.INT_MIN, Decimal.INT_MAX).Some?
    ensures r.Ok? ==> Decimal.INT_MIN <= r.value <= Decimal.INT_MAX
    ensures r.Ok? ==> Decimal.ParseInteger(c.data, Decimal.INT_MIN, Decimal.INT_MAX) == Some(r.value)
    ensures r.Err? ==> r.error == IncompatibleValue
  {
    if !c.ConfigValue? then Err(IncompatibleValue)
    else match Decimal.ParseInteger(c.data, Decimal.INT_MIN, Decimal.INT_MAX)
      case None => Err(IncompatibleValue)
      case Some(v) => Ok(v)
  }

  /** `asStruct`: a struct returns itself. */
  function AsStruct(c: Config): (r: Result<Config, ConfigError>)
    ensures r.Ok? <==> c.ConfigStruct?
    ensures r.Ok? ==> r.value == c
    ensures r.Err? ==> r.error == IncompatibleValue
  {
    if c.ConfigStruct? then Ok(c) else Err(IncompatibleValue)
  }

  /** `asList`: a list returns itself. */
  function AsList(c: Config): (r: Result<Config, ConfigError>)
    ensures r.Ok? <==> c.ConfigList?
    ensures r.Ok? ==> r.value == c
    ensures r.Err? ==> r.error == IncompatibleValue
  {
    if c.ConfigList? then Ok(c) else Err(IncompatibleValue)
  }

  /** `Int.asConfigValue()`: the decimal text of the number. */
  function FromInt(v: int): Config {
    ConfigValue(Decimal.IntToString(v))
  }

  /** A value made from a 32-bit number reads back as that number. */
  lemma FromIntRoundTrip(v: int)
    requires Decimal.INT_MIN <= v <= Decimal.INT_MAX
    ensures AsInt(FromInt(v)) == Ok(v)
  {
    Decimal.ParseIntToString(v, Decimal.INT_MIN, Decimal.INT_MAX);
  }

  /** `ConfigStruct[key]`: the value, or `UndefinedValue` naming the key. */
  function StructGet(c: Config, key: string): (r: Result<Config, ConfigError>)
    requires c.ConfigStruct?
    ensures r.Ok? <==> key in c.values
    ensures r.Ok? ==> r.value == c.values[key]
    ensures r.Err? ==> r.error == UndefinedValue(key)
  {
    if key in c.values then Ok(c.values[key]) else Err(UndefinedValue(key))
  }

  /** `ConfigList[index]`, counting from one: the element, or `InvalidIndex` naming the index. */
  function ListGet(c: Config, index: int): (r: Result<Config, ConfigError>)
    requires c.ConfigList?
    ensures r.Ok? <==> 1 <= index <= |c.items|
    ensures r.Ok? ==> r.value == c.items[index - 1]
    ensures r.Err? ==> r.error == InvalidIndex(index)
  {
    if index < 1 then Err(InvalidIndex(index))
    else if index > |c.items| then Err(InvalidIndex(index))
    else Ok(c.items[index - 1])
  }

  /** Reading indexes 1, 2, ... in turn yields the list in its original order, and nothing past its end. */
  lemma ListGetEnumerates(c: Config)
    requires c.ConfigList?
    ensures forall i :: 1 <= i <= |c.items| ==> ListGet(c, i) == Ok(c.items[i - 1])
    ensures ListGet(c, 0) == Err(InvalidIndex(0)) && ListGet(c, |c.items| + 1) == Err(InvalidIndex(|c.items| + 1))
  {
  }
}
