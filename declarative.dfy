/**
 * What parsing a declarative object means, as functions on values: the tree
 * `parse` builds, the strategy each key is sent to, the input it accepts and
 * the input object as `parse` leaves it.
 */
module Declarative {
  import opened Wrappers
  import opened JsonValues
  import opened Dom
  import opened Strategies
  import opened SsdgElements

  /** The strategy `getStrategy(key)` yields once the built-ins are registered. */
  function Dispatch(key: string): Strategy
  {
    Resolve(if key == "" then "content" else key)
  }

  /** `tagName` is absent, falsy, or a string: `create` is given a tag name. */
  predicate TagNameOk(ms: seq<Member>)
  {
    var t := Get(ms, "tagName");
    t.None? || !Truthy(t.value) || t.value.JString?
  }

  /** The tag `parse` creates: `tagName` when it is truthy, `div` otherwise. */
  function TagOf(ms: seq<Member>): string
  {
    var t := Get(ms, "tagName");
    if t.Some? && Truthy(t.value) && t.value.JString? then t.value.str else "div"
  }

  /** A value of strategy `s` that the model covers; the platform's own checks on names and values are not modelled. */
  predicate Accepts(s: Strategy, v: Json)
    decreases v, 2
  {
    match s.eval
    case ClassEval => ClassArg(v)
    case ContentEval => ContentArg(v)
    case _ => true
  }

  /** A value the content strategy handles: anything but `null`, checked through arrays and nested objects. */
  predicate ContentArg(v: Json)
    decreases v, 1
  {
    match v
    case JNull => false
    case JArray(items) => forall i :: 0 <= i < |items| ==> ContentArg(items[i])
    case JObject(_) => Parsable(v)
    case _ => true
  }

  /** An object `parse` handles: its tag name is usable and every other key's strategy accepts its value. */
  predicate Parsable(obj: Json)
    decreases obj, 0
  {
    && obj.JObject?
    && TagNameOk(obj.members)
    && forall m | m in obj.members && m.key != "tagName" :: Accepts(Dispatch(m.key), m.value)
  }

  /** The tree after strategy `s` has handled value `v`. */
  function ApplyStrategy(t: Tree, s: Strategy, v: Json): Tree
    decreases v, 5
  {
    match s.eval
    case ClassEval => t.(classes := t.classes + ClassNames(v))
    case IdEval => t.(id := Some(v))
    case ContentEval => ApplyContent(t, v)
    case AttrEval => t.(attrs := t.attrs[s.name := v])
  }

  /** The tree after the content strategy has handled `v`: text, each item in turn, one parsed child, or nothing. */
  function ApplyContent(t: Tree, v: Json): Tree
    decreases v, 4
  {
    match v
    case JString(s) => t.(kids := t.kids + [TText(s)])
    case JArray(items) => ApplyItems(t, v, |items|)
    case JObject(_) => t.(kids := t.kids + [TElem(ParseTree(v))])
    case _ => t
  }

  /** The tree after the content strategy has handled the first `n` items of an array. */
  function ApplyItems(t: Tree, v: Json, n: nat): Tree
    requires v.JArray? && n <= |v.items|
    decreases v, 0, n
  {
    if n == 0 then t else ApplyContent(ApplyItems(t, v, n - 1), v.items[n - 1])
  }

  /** The members `parse` dispatches: all but `tagName`, in enumeration order. */
  function Fields(obj: Json): seq<Member>
    requires obj.JObject?
  {
    Without(obj.members, "tagName")
  }

  /** The tree `parse(obj)` builds. */
  function ParseTree(obj: Json): Tree
    requires obj.JObject?
    decreases obj, 3
  {
    ApplyMembers(Fresh(TagOf(obj.members)), obj, |Fields(obj)|)
  }

  /** The tree after the first `n` dispatched members of `obj` have been handled. */
  function ApplyMembers(t: Tree, obj: Json, n: nat): Tree
    requires obj.JObject? && n <= |Fields(obj)|
    decreases obj, 2, n
  {
    if n == 0 then t
    else
      WithoutIn(obj.members, "tagName", n - 1);
      var m := Fields(obj)[n - 1];
      ApplyStrategy(ApplyMembers(t, obj, n - 1), Dispatch(m.key), m.value)
  }

  /** The value strategy `s` leaves behind: only content reaches nested objects, and `parse` deletes their `tagName`. */
  function ConsumeBy(s: Strategy, v: Json): Json
    decreases v, 5
  {
    if s.eval == ContentEval then ConsumeContent(v) else v
  }

  /** The value the content strategy leaves behind. */
  function ConsumeContent(v: Json): Json
    decreases v, 4
  {
    match v
    case JArray(items) => JArray(ConsumeItems(v, |items|))
    case JObject(_) => Consumed(v)
    case _ => v
  }

  /** The first `n` items of an array as the content strategy leaves them. */
  function ConsumeItems(v: Json, n: nat): seq<Json>
    requires v.JArray? && n <= |v.items|
    decreases v, 0, n
  {
    if n == 0 then [] else ConsumeItems(v, n - 1) + [ConsumeContent(v.items[n - 1])]
  }

  /** The caller's object once `parse` has run: `tagName` deleted, here and in every object content reaches. */
  function Consumed(obj: Json): Json
    requires obj.JObject?
    decreases obj, 3
  {
    JObject(ConsumeMembers(obj, |Fields(obj)|))
  }

  /** The first `n` dispatched members of `obj` as their strategies leave them. */
  function ConsumeMembers(obj: Json, n: nat): seq<Member>
    requires obj.JObject? && n <= |Fields(obj)|
    decreases obj, 2, n
  {
    if n == 0 then []
    else
      WithoutIn(obj.members, "tagName", n - 1);
      var m := Fields(obj)[n - 1];
      ConsumeMembers(obj, n - 1) + [Member(m.key, ConsumeBy(Dispatch(m.key), m.value))]
  }
}
