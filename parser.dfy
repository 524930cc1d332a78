/**
 * `parser`: turns a declarative object into an element tree, sending every
 * key but `tagName` to the strategy the table gives for it.
 */
module Parsers {
  import opened Wrappers
  import opened JsonValues
  import opened Dom
  import opened Strategies
  import opened SsdgElements
  import opened Declarative

  class Parser {
    const strategyManager: StrategyManager

    ghost predicate Valid()
      reads this, strategyManager
    {
      Ready(strategyManager.strategyCollection)
    }

    /** The parser object with its strategy manager, and the registration of the `class`, `id` and `content` strategies. */
    constructor ()
      ensures Valid() && fresh(strategyManager)
      ensures strategyManager.strategyCollection == Builtins()
    {
      strategyManager := new StrategyManager();
      new;
      strategyManager.AddStrategy("class", Some(ClassEval));
      strategyManager.AddStrategy("id", Some(IdEval));
      strategyManager.AddStrategy("content", Some(ContentEval));
    }

    /**
     * `parse(object)`: create the element for the object's tag (`div` when
     * `tagName` is falsy), delete `tagName`, then hand every remaining key, in
     * enumeration order, to its strategy. `rest` is the caller's object
     * afterwards.
     */
    method Parse(obj: Json) returns (e: SsdgElement, rest: Json)
      requires Valid() && Parsable(obj)
      modifies strategyManager
      ensures Valid() && old(strategyManager.strategyCollection).Keys <= strategyManager.strategyCollection.Keys
      ensures fresh(e) && fresh(e.element.Repr) && e.element.Valid()
      ensures e.element.Model() == ParseTree(obj)
      ensures rest == Consumed(obj)
      decreases obj, 4
    {
      e := Create(TagName(TagOf(obj.members)));
      ghost var t0 := e.element.Model();
      var fields := Fields(obj);
      var left: seq<Member> := [];
      for i := 0 to |fields|
        invariant Valid() && old(strategyManager.strategyCollection).Keys <= strategyManager.strategyCollection.Keys
        invariant fresh(e) && fresh(e.element.Repr) && e.element.Valid()
        invariant e.element.Model() == ApplyMembers(t0, obj, i)
        invariant left == ConsumeMembers(obj, i)
      {
        var key := fields[i].key;
        var value := fields[i].value;
        WithoutIn(obj.members, "tagName", i);
        var v := DispatchKey(e, key, value);
        left := left + [Member(key, v)];
      }
      rest := JObject(left);
    }

    /** `this.strategyManager.getStrategy(key).eval(element, object[key])`: one step of the key loop of `parse`. */
    method DispatchKey(e: SsdgElement, key: string, value: Json) returns (left: Json)
      requires Valid() && e.element.Valid() && Accepts(Dispatch(key), value)
      modifies e.element, strategyManager
      ensures Valid() && old(strategyManager.strategyCollection).Keys <= strategyManager.strategyCollection.Keys
      ensures e.element.Valid() && fresh(e.element.Repr - old(e.element.Repr))
      ensures e.element.Model() == ApplyStrategy(old(e.element.Model()), Dispatch(key), value)
      ensures left == ConsumeBy(Dispatch(key), value)
      decreases value, 7
    {
      var s := strategyManager.GetStrategy(key);
      left := Eval(s, e, value);
    }

    /** `strategy.eval(element, value)`: run the strategy's eval function on the element. */
    method Eval(s: Strategy, e: SsdgElement, value: Json) returns (left: Json)
      requires Valid() && e.element.Valid() && Accepts(s, value)
      modifies e.element, strategyManager
      ensures Valid() && old(strategyManager.strategyCollection).Keys <= strategyManager.strategyCollection.Keys
      ensures e.element.Valid() && fresh(e.element.Repr - old(e.element.Repr))
      ensures e.element.Model() == ApplyStrategy(old(e.element.Model()), s, value)
      ensures left == ConsumeBy(s, value)
      decreases value, 6
    {
      left := value;
      match s.eval
      case ClassEval =>
        var _ := e.Class(value);
      case IdEval =>
        var _ := e.Id(value);
      case AttrEval =>
        var _ := e.Attr(s.name, value);
      case ContentEval =>
        left := EvalContent(e, value);
    }

    /**
     * The content strategy's eval: a string becomes a text child, an array
     * has each item handled in turn, an object is parsed and its element
     * appended; any other value is ignored.
     */
    method EvalContent(e: SsdgElement, value: Json) returns (left: Json)
      requires Valid() && e.element.Valid() && ContentArg(value)
      modifies e.element, strategyManager
      ensures Valid() && old(strategyManager.strategyCollection).Keys <= strategyManager.strategyCollection.Keys
      ensures e.element.Valid() && fresh(e.element.Repr - old(e.element.Repr))
      ensures e.element.Model() == ApplyContent(old(e.element.Model()), value)
      ensures left == ConsumeContent(value)
      decreases value, 5
    {
      left := value;
      match value {
        case JString(s) =>
          var _ := e.Append(Native(Text(s)));
        case JArray(items) =>
          var done: seq<Json> := [];
          for i := 0 to |items|
            invariant Valid() && old(strategyManager.strategyCollection).Keys <= strategyManager.strategyCollection.Keys
            invariant e.element.Valid() && fresh(e.element.Repr - old(e.element.Repr))
            invariant e.element.Model() == ApplyItems(old(e.element.Model()), value, i)
            invariant done == ConsumeItems(value, i)
          {
            var item := EvalContent(e, items[i]);
            done := done + [item];
          }
          left := JArray(done);
        case JObject(_) =>
          var child, rest := Parse(value);
          var _ := e.Append(Wrapped(child));
          left := rest;
        case _ =>
      }
    }
  }
}
