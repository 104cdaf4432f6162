/** Experiment configurations as the research engine sees them. */
module Configs {
  import opened Wrappers

  /** A configuration value; only equality between values matters here. */
  datatype Value = Int(i: int) | Str(s: string) | Bool(b: bool) | Null

  /** A parameter mapping, keyed by dotted option paths. */
  type Params = map<string, Value>

  /** A configuration: its full view (`config()`) and its alias view (`alias()`). */
  datatype Config = Config(full: Params, alias: Params)

  /** `Config()`: the empty configuration. */
  const EmptyConfig: Config := Config(map[], map[])

  /** The number a value stands for under Python's `==`: `True == 1` and
    * `False == 0`. */
  function Numeric(v: Value): Option<int> {
    match v
    case Int(i) => Some(i)
    case Bool(b) => Some(if b then 1 else 0)
    case _ => None
  }

  /** Python's `==` on values: numbers (booleans included) by value,
    * everything else structurally. */
  predicate Equal(a: Value, b: Value) {
    if Numeric(a).Some? && Numeric(b).Some? then Numeric(a) == Numeric(b) else a == b
  }

  /** `all(item in sup.items() for item in sub.items())`: every key of `sub`
    * is in `sup`, bound to a value equal to it under `==`. */
  predicate Contains(sup: Params, sub: Params) {
    forall k :: k in sub ==> k in sup && Equal(sup[k], sub[k])
  }

  /** A stored `1` matches a requested `True`, and an exact copy matches. */
  lemma ContainsLikePython(sup: Params, k: string)
    ensures Contains(map[k := Int(1)], map[k := Bool(true)])
    ensures !Contains(map[k := Int(2)], map[k := Bool(true)])
    ensures Contains(sup, sup)
  {
    assert k in map[k := Bool(true)] && !Equal(map[k := Int(2)][k], Bool(true));
  }
}
