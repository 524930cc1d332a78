/**
 * `parserStrategyManager`: the table from key name to the strategy the
 * parser runs for that key. A lookup that misses registers a default
 * strategy, whose eval sets the key as an attribute.
 */
module Strategies {
  import opened Wrappers

  /** The eval function a strategy carries. `AttrEval` is the prototype's: `element.attr(this.name, value)`. */
  datatype Handler = ClassEval | IdEval | ContentEval | AttrEval

  datatype Strategy = Strategy(name: string, eval: Handler)

  type Table = map<string, Strategy>

  /** `new this.strategy(name, evalFunction)`: without an eval function of its own a strategy keeps the prototype's. */
  function NewStrategy(name: string, evalFunction: Option<Handler>): Strategy
  {
    Strategy(name, if evalFunction.Some? then evalFunction.value else AttrEval)
  }

  /** The eval functions registered when the library loads. */
  function BuiltinEval(name: string): Option<Handler>
  {
    if name == "class" then Some(ClassEval)
    else if name == "id" then Some(IdEval)
    else if name == "content" then Some(ContentEval)
    else None
  }

  /** The entry a table that holds the built-ins holds, or will hold after a lookup, under `name`. */
  function Resolve(name: string): Strategy
  {
    NewStrategy(name, BuiltinEval(name))
  }

  /** The table right after the three built-in strategies are added. */
  function Builtins(): (t: Table)
    ensures Ready(t) && t.Keys == {"class", "id", "content"}
  {
    map["class" := Resolve("class"), "id" := Resolve("id"), "content" := Resolve("content")]
  }

  /** The built-ins are present and every entry is the one `Resolve` names. */
  predicate Ready(t: Table)
  {
    && "class" in t && "id" in t && "content" in t
    && forall k :: k in t ==> t[k] == Resolve(k)
  }

  /**
   * `getStrategy(name)`: the strategy returned and the table afterwards.
   * An empty (falsy) name yields the content strategy and changes nothing;
   * a missing name gets a fresh default entry; every existing entry stays.
   */
  function Lookup(t: Table, name: string): (r: (Strategy, Table))
    requires name == "" ==> "content" in t
    ensures name == "" ==> r == (t["content"], t)
    ensures name != "" ==> name in r.1 && r.0 == r.1[name]
    ensures name != "" ==> r.1.Keys == t.Keys + {name}
    ensures name != "" && name !in t ==> r.0 == Strategy(name, AttrEval)
    ensures forall k :: k in t ==> k in r.1 && r.1[k] == t[k]
    ensures Ready(t) ==> Ready(r.1) && r.0 == Resolve(if name == "" then "content" else name)
  {
    if name == "" then (t["content"], t)
    else if name in t then (t[name], t)
    else (NewStrategy(name, None), t[name := NewStrategy(name, None)])
  }

  class StrategyManager {
    /** `strategyCollection`. */
    var strategyCollection: Table

    constructor ()
      ensures strategyCollection == map[]
    {
      strategyCollection := map[];
    }

    /** `addStrategy(name, evalFunction)`: register a strategy, replacing any entry under that name. */
    method AddStrategy(name: string, evalFunction: Option<Handler>)
      modifies this
      ensures strategyCollection == old(strategyCollection)[name := NewStrategy(name, evalFunction)]
    {
      strategyCollection := strategyCollection[name := NewStrategy(name, evalFunction)];
    }

    /** `getStrategy(name)`. */
    method GetStrategy(name: string) returns (s: Strategy)
      requires name == "" ==> "content" in strategyCollection
      modifies this
      ensures (s, strategyCollection) == Lookup(old(strategyCollection), name)
    {
      if name == "" {
        return strategyCollection["content"];
      }
      if name !in strategyCollection {
        AddStrategy(name, None);
      }
      s := strategyCollection[name];
    }
  }

  /** Names every plain object inherits from `Object.prototype`; indexing any of them yields a value without an `eval`. */
  const Inherited: set<string> := {
    "constructor", "toString", "toLocaleString", "valueOf", "hasOwnProperty", "isPrototypeOf",
    "propertyIsEnumerable", "__proto__", "__defineGetter__", "__defineSetter__",
    "__lookupGetter__", "__lookupSetter__"
  }

  /**
   * `getStrategy(name)` as written: the test `!this.strategyCollection[name]`
   * also finds the inherited members of the plain-object table, so for those
   * names nothing is registered and the value returned has no `eval`, which
   * makes the caller's `.eval(element, value)` throw. `None` is that outcome.
   */
  function LookupAsWritten(t: Table, name: string): Option<(Strategy, Table)>
    requires name == "" ==> "content" in t
  {
    if name != "" && name !in t && name in Inherited then None else Some(Lookup(t, name))
  }
}
