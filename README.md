# SSDG (Short-Syntax-Dom-Generator), modelled in Dafny

SSDG builds DOM elements in two ways. The first is through a fluent wrapper,
`SSDGElement`, whose `class`, `id`, `attr` and `append` methods change the
element it owns and return the wrapper itself. The second is through a
declarative parser: `parse(object)` turns a plain object into an element
tree. `tagName` picks the tag. Every other key is sent to a strategy looked
up by name in `parserStrategyManager`. `class`, `id` and `content` have
strategies of their own. Any other name gets a default strategy, registered
on first use, that sets an attribute of that name.

This project models that core and proves what it promises:

- `JsonValues` (`json.dfy`): the parser's input, a JSON-like value. An
  object is a sequence of members in `for..in` order. This file also holds
  property lookup (`object[key]`) and `delete`.
- `Dom` (`dom.dfy`): the platform element, reduced to the state the library
  touches (tag, id, class set, attributes, children). `Element` is a class
  whose ghost `Model()` gives the tree below it as a value while `Valid()`
  holds.
- `SsdgElements` (`ssdg_element.dfy`): `SSDGElement` as a class over an
  `Element`. It has one method per mutator, and each method states the
  element's new state.
- `Strategies` (`strategies.dfy`): the strategy table as a class holding a
  map. `Lookup` specifies `getStrategy`.
- `Declarative` (`declarative.dfy`): what `parse` means, as functions.
  - `ParseTree` is the tree it builds.
  - `Consumed` is the caller's object afterwards.
  - `Parsable` is the input the model covers (see "Left out").
- `Parsers` (`parser.dfy`): the parser object. `Parse` runs the key loop
  and is proved to build `ParseTree(obj)`. The content strategy recurses
  through arrays and nested objects.
- `Properties` (`properties.dfy`): lemmas about those functions. They cover
  the table, the effect of each key, the whole element `parse` builds and
  the object it leaves behind.

How the source is read:

- Several identifiers in the source are not in scope where they are used.
  - The constructor tests `typeof tagName` (SSDG.js:192) where its
    parameter is `element`.
  - `append` tests `instanceof element` (SSDG.js:283).
  - `create` calls `new element` (SSDG.js:324).
  - `parse` calls `ssdg.create` (SSDG.js:114) and the content strategy
    calls `ssdg.parse` (SSDG.js:146), both from inside the module that
    defines `SSDG`.

  The model gives each of these its evident meaning:
  - the constructor's source is a tag name or an existing element
    (`Source`);
  - `append` is given a wrapper or a raw node (`Appendable`);
  - `create` constructs an `SSDGElement`;
  - the nested calls go to the same parser.
- The tag comes from `tagName` only when `tagName` is truthy
  (SSDG.js:111-114). An empty string falls back to `div`, as an absent key
  does.
- The content strategy ignores numbers and booleans (SSDG.js:137-148).
  `null` reaches `parse` and throws, so `Parsable` excludes it.
- `parse` deletes `tagName` from the caller's object and from every object
  that content reaches. The model returns that object as `rest`, and
  `Consumed` states what it is.
- `getStrategy("")` returns the content strategy (SSDG.js:60-61). The empty
  string is the only falsy key, so the empty key is handled as content.

## Model

| member | source | states |
|---|---|---|
| `JsonValues.Get` | SSDG.js:111 | a value read from an object is stored there under the key asked for |
| `JsonValues.GetMisses` | SSDG.js:111 | reading a key finds nothing exactly when no property has that key |
| `JsonValues.Without` | SSDG.js:115 | `delete` never adds a property |
| `JsonValues.WithoutIn` | SSDG.js:115 | every property left after `delete object.tagName` was in the object and is not `tagName` |
| `JsonValues.WithoutMembers` | SSDG.js:115 | `delete` keeps exactly the properties under other keys |
| `JsonValues.WithoutUnique` | SSDG.js:115 | after `delete` the keys are still distinct |
| `JsonValues.WithoutAbsent` | SSDG.js:115 | `delete` of a key the object lacks leaves the object as it is |
| `JsonValues.WithoutAt` | SSDG.js:115 | with distinct keys, `delete` removes just the property at the key's position; the properties before and after it keep their order |
| `JsonValues.GetWithout` | SSDG.js:115-118 | after `delete object.tagName` every other key reads the same value |
| `Dom.Element.constructor` | SSDG.js:193 | a new element is valid, owns only itself and has the tree `Fresh(tag)` |
| `SsdgElements.Create` | SSDG.js:323-325 | `create` yields a new wrapper around a new element with the tag, or around the element given |
| `SsdgElements.SsdgElement.constructor` | SSDG.js:191-197 | from a tag name: a new valid element with that tag and nothing else; from an element: that very element, not a copy |
| `SsdgElements.SsdgElement.GetDom` | SSDG.js:204-206 | returns the wrapped element itself |
| `SsdgElements.SsdgElement.Class` | SSDG.js:217-227 | returns the wrapper; the class set grows by exactly the names in the string or (nested) array; tag, id, attributes and children unchanged |
| `SsdgElements.SsdgElement.Id` | SSDG.js:238-241 | returns the wrapper; the id becomes the value given, replacing any earlier one; nothing else changes |
| `SsdgElements.SsdgElement.Attr` | SSDG.js:253-256 | returns the wrapper; exactly one attribute is set; nothing else changes |
| `SsdgElements.SsdgElement.Append` | SSDG.js:282-289 | returns the wrapper; the node is added after the existing children, which keep their order; the tree stays valid |
| `Strategies.Builtins` | SSDG.js:127-148 | once loaded, the table holds exactly `class`, `id` and `content`, each with its own eval |
| `Strategies.Lookup` | SSDG.js:59-66 | an empty name gives the content strategy and changes nothing; a registered name gives its entry; a missing name is added with the attribute-setting eval; no entry is replaced; a ready table stays ready |
| `Strategies.StrategyManager.constructor` | SSDG.js:70 | the table starts empty |
| `Strategies.StrategyManager.AddStrategy` | SSDG.js:47-50 | the name is bound to a new strategy (`NewStrategy`, the `Strategy` constructor at SSDG.js:78-93, whose `eval` falls back to the prototype's attribute-setting eval) that carries the eval given, or the attribute-setting eval when none is given; other entries are kept |
| `Strategies.StrategyManager.GetStrategy` | SSDG.js:59-67 | returns the strategy and leaves the table as `Lookup` says |
| `Parsers.Parser.constructor` | SSDG.js:123-148 | the parser's table holds exactly the three built-in strategies |
| `Parsers.Parser.Parse` | SSDG.js:110-121 | the new element's tree is `ParseTree(obj)` and the caller's object becomes `Consumed(obj)`; the table keeps its entries and stays ready |
| `Parsers.Parser.DispatchKey` | SSDG.js:118 | looking up the key's strategy and running its eval does what the strategy for that key does |
| `Parsers.Parser.Eval` | SSDG.js:91-134 | the class, id, content and default evals each do their strategy's job on the element |
| `Parsers.Parser.EvalContent` | SSDG.js:137-148 | text becomes a text child, array items are handled in order, an object is parsed and its element appended, and other values are ignored |
| `Properties.LookupAllKeeps` | SSDG.js:59-66 | over any sequence of lookups no entry is replaced, so the built-ins survive; the table gains exactly the non-empty names looked up; readiness is kept |
| `Properties.LookupIdempotent` | SSDG.js:63-66 | a second lookup of a name returns the same strategy and leaves the table as it is |
| `Properties.AsWrittenDiverges` | SSDG.js:63-66 | for every ready table and name, the lookup as written fails exactly when the name is missing from the table but supplied by `Object.prototype`; otherwise it returns what `Lookup` returns; where it fails, `Lookup` would have registered the attribute strategy |
| `Properties.InheritedNameCounterexample` | SSDG.js:63-66 | with the built-ins only, `getStrategy("constructor")` as written has no eval, while the intended lookup returns the attribute strategy |
| `Properties.ContentAppends` | SSDG.js:137-148 | content only appends children that depend on the value alone; existing children keep their order; tag, id, classes and attributes are unchanged |
| `Properties.ItemsAppend` | SSDG.js:140-144 | array items are appended in array order |
| `Properties.ContentConcat` | SSDG.js:140-144 | splitting a content array in two, or nesting it in another array, gives the same children in the same order |
| `Properties.KeyEffect` | SSDG.js:91-148 | `class` adds class names, `id` sets the id, `content` and the empty key append children, and any other key sets that attribute; nothing else changes |
| `Properties.ClassIdempotent` | SSDG.js:217-227 | adding the same class value twice is the same as adding it once |
| `Properties.ClassNamesOfArray` | SSDG.js:217-227 | the names an array adds are exactly the names its items add, at any depth |
| `Properties.MembersSummary` | SSDG.js:115-119 | after the first n keys: the tag is kept; the last `id` wins; class names accumulate; each attribute holds its last value; content children are appended in key order |
| `Properties.ParseTreeSummary` | SSDG.js:110-121 | the tree `parse` builds, field by field, from the keys other than `tagName` |
| `Properties.ParsedElement` | SSDG.js:110-121 | for distinct keys: the tag is `tagName` when truthy, else `div`; id and classes come from the `id` and `class` keys; the attributes are exactly the other keys except `tagName`, with their values; the children are those of the content keys |
| `Properties.TagNameDeleted` | SSDG.js:115 | `tagName` is never among the keys the loop visits |
| `Properties.DispatchedKeys` | SSDG.js:115-119 | the loop visits exactly the object's keys other than `tagName`, each once when the keys are distinct; without `tagName` it visits every property in enumeration order, and with distinct keys it visits them in enumeration order with `tagName`'s property taken out |
| `Properties.ConsumeMembersShape` | SSDG.js:115-119 | the object left behind has the visited keys in order, each value as its strategy leaves it |
| `Properties.ConsumedObject` | SSDG.js:110-121 | after `parse` the caller's object has lost `tagName` and keeps its other keys in order; only content values change |
| `Properties.ParagraphExample` | SSDG.js:110-121 | `{tagName: 'p', content: 'hello'}` gives a `p` with one text child `hello` |
| `Properties.AttributeExample` | SSDG.js:110-121 | `{'data-foo': 'bar'}` gives a `div` whose attribute `data-foo` is `bar` |
| `Properties.NestedExample` | SSDG.js:110-148 | `{id: 'a', content: [{tagName: 'span', content: 'x'}, 'y']}` gives a `div` with id `a`, a `span` child holding `x`, then the text `y` |

## Left out

- Markup and placement: `html`, `getHTML` and `appendTo` (SSDG.js:268-313) work through `innerHTML` and the document. They have no part in building the tree.
- `SSDGElementCollection` (SSDG.js:150-184): its methods are written as calls followed by a block (`SSDGElementCollection.prototype.setCount(count) {` at SSDG.js:159), which is a syntax error, and every block is empty, so there is no behaviour to model. The same syntax error means the file as written does not load at all; the rest of the model reads the other definitions as their authors evidently meant them.
- The platform element is reduced to what the library changes.
  - Tag names are not validated or case-normalised.
  - Class order in `classList` is not kept: classes form a set.
  - `setAttribute` and the `id` property turn values into strings. The model stores the value itself.
- `SsdgElements.SsdgElement.Append`: does not model moving a node that already has a parent. There are no parent links. The appended element must not contain the element it is appended to, since the platform refuses such an append. The parent keeps the child's tree as it was when appended, not a live reference: changing the child afterwards (as in `p.append(c); c.class('x')`) leaves the parent's `Model()` out of date and its `Valid()` unprovable, so the model cannot follow further changes to the parent after that. `parse` builds each element before appending it and is not affected.
- `SsdgElements.SsdgElement.constructor`: the `instanceof HTMLElement` test (SSDG.js:194) is replaced by the `Source` variant. A source that is neither a string nor an element is not modelled.
- The module-level singleton is left out: the immediately invoked function, and the public `SSDG.create` and `SSDG.parse` that delegate to `create` and `parser.parse` (SSDG.js:36, 315-337). The model builds the `Parser` object explicitly, and `Create` stands for `create`.
- `Parsable` is the domain the model covers, not an exact list of the inputs on which the source fails. It excludes:
  - a `null` content value, which reaches `parse` and throws there;
  - class values that are not non-empty whitespace-free strings or arrays of them. Empty or spaced strings make `classList.add` throw. Numbers, booleans and `null` are not errors in the source: `classList.add` turns them into strings such as `"5"` or `"null"`. The model leaves those coercions out;
  - a truthy `tagName` that is not a string. This is not a platform error either: `create` then wraps nothing usable, so the parse goes wrong later.
- `Parsable` accepts member sequences with repeated keys, which a plain object cannot hold. On such sequences the model differs from what a JavaScript object would hold (one property, with the last value, at the first key's position): `TagOf` takes the first `tagName`; repeated `id` keys and attribute keys keep the last value; repeated `content` keys append every value's children and repeated `class` keys add every value's names. The lemmas about the whole element (`Properties.ParsedElement`) and about the visit order (`Properties.DispatchedKeys`) ask for distinct keys, where none of this arises.
- `SsdgElements.SsdgElement.Attr`: does not model attribute name validation (`setAttribute` throws for a name such as `data foo`, yet `Parsable` accepts that key), the lower-casing of attribute names in HTML documents, or the reflection of the `class` and `id` attributes onto the class set and the id. The model keeps attributes, classes and id apart, so "nothing else changes" holds of the model but not of those three cases on the platform.
- `SsdgElements.SsdgElement.Class`: numbers, booleans and `null`, which the platform coerces to class names, are outside `ClassArg` and so not modelled.
- Aliasing in the input is not modelled. The parser changes the caller's object in place, so an object reachable twice would lose its `tagName` on the first visit. The model reads the input as a tree of values and returns the changed object.
- Numbers are integers. The parser tests numbers for truthiness (`tagName`), ignores them (content) or stores them as they are (`id` and attribute values, as in `{id: 1.5}`); fractional values are not represented.
- `Parsers.Parser.Parse`: states that the table keeps its entries and stays ready, not which default entries the visited keys add. `Properties.LookupAllKeeps` states that for any sequence of lookups.
- `JsonValues.Without`: its own contract only bounds the length. What `delete` keeps is stated by `WithoutIn`, `WithoutMembers`, `WithoutUnique` and `GetWithout`, and the order it keeps by `WithoutAbsent` and `WithoutAt`.

## Findings

| source | as written | input that shows it | evidently intended | confidence | as-written member | corrected member |
|---|---|---|---|---|---|---|
| SSDG.js:63-66 | `getStrategy` checks `!this.strategyCollection[name]` on a plain `{}` table. For names inherited from `Object.prototype` the check finds the inherited value, registers nothing and returns a value with no `eval`, so `parse` throws at SSDG.js:118. The throw at 118 is reached once the identifiers that are out of scope on the way there (`ssdg` at SSDG.js:114, `element` at SSDG.js:324) are read as intended. As written, no line runs at all: the syntax error at SSDG.js:159 stops the file from loading, and `ssdg` at SSDG.js:114 would fail before 118 | `parse({constructor: 'x'})`, or any key such as `toString` or `valueOf` | every unregistered name gets the default attribute strategy | high for the lookup itself; not executed | `Strategies.LookupAsWritten`, with `Properties.AsWrittenDiverges` and `Properties.InheritedNameCounterexample` | `Strategies.Lookup`, which `Strategies.StrategyManager.GetStrategy` and `Parsers.Parser.Parse` use, with `Properties.LookupAllKeeps` |
