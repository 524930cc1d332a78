/**
 * `SSDGElement`: a wrapper that owns one platform element and offers
 * chainable mutators, each of which returns the wrapper itself.
 */
module SsdgElements {
  import opened Wrappers
  import opened JsonValues
  import opened Dom

  /** What the constructor is given: a tag name, or an existing element to wrap. */
  datatype Source = TagName(name: string) | Existing(node: Element)

  /** What `append` is given: another wrapper, or a raw platform node. */
  datatype Appendable = Wrapped(wrapper: SsdgElement) | Native(node: Node)

  /** The platform node that `append` attaches: a wrapper's element, or the raw node itself. */
  function NodeOf(sub: Appendable): Node
  {
    match sub
    case Wrapped(w) => Elem(w.element)
    case Native(node) => node
  }

  /** The abstract value of a child node. */
  ghost function Abstract(n: Node): Subtree
    reads if n.Elem? then {n.el} else {}
  {
    match n
    case Text(data) => TText(data)
    case Elem(c) => TElem(c.Model())
  }

  /** Whitespace as a class-token separator. */
  predicate IsSpace(c: char)
  {
    c == ' ' || c == '\t' || c == '\n' || c == '\r' || c == '\U{C}'
  }

  /** A name that `classList.add` accepts: non-empty and without whitespace. */
  predicate ValidToken(s: string)
  {
    s != [] && forall i :: 0 <= i < |s| ==> !IsSpace(s[i])
  }

  /** What `class` accepts: a valid class name, or an array (nested to any depth) of them. */
  predicate ClassArg(v: Json)
  {
    match v
    case JString(s) => ValidToken(s)
    case JArray(items) => forall i :: 0 <= i < |items| ==> ClassArg(items[i])
    case _ => false
  }

  /** The class names `class(v)` adds: the string itself, or those of every item of the array. */
  function ClassNames(v: Json): set<string>
    decreases v, 1
  {
    match v
    case JString(s) => {s}
    case JArray(items) => ClassNamesUpTo(v, |items|)
    case _ => {}
  }

  /** The class names the first `n` items of an array add. */
  function ClassNamesUpTo(v: Json, n: nat): set<string>
    requires v.JArray? && n <= |v.items|
    decreases v, 0, n
  {
    if n == 0 then {} else ClassNamesUpTo(v, n - 1) + ClassNames(v.items[n - 1])
  }

  /** `SSDG.create(tagName)`: a new wrapper, around a new element or an existing one. */
  method Create(source: Source) returns (e: SsdgElement)
    ensures fresh(e)
    ensures source.TagName? ==>
              fresh(e.element) && e.element.Valid() && fresh(e.element.Repr) && e.element.Model() == Fresh(source.name)
    ensures source.Existing? ==> e.element == source.node
  {
    e := new SsdgElement(source);
  }

  class SsdgElement {
    const element: Element

    /** `new SSDGElement(source)`: create an element from a tag name, or wrap an existing one without copying it. */
    constructor (source: Source)
      ensures source.TagName? ==>
                fresh(element) && element.Valid() && fresh(element.Repr) && element.Model() == Fresh(source.name)
      ensures source.Existing? ==> element == source.node
    {
      match source
      case TagName(name) =>
        element := new Element(name);
      case Existing(node) =>
        element := node;
    }

    /** `getDOM()`: the wrapped element. */
    method GetDom() returns (node: Element)
      ensures node == element
    {
      node := element;
    }

    /**
     * `class(className)`: add one class name, or every name of an array,
     * recursing into nested arrays. A name already present changes nothing.
     */
    method Class(className: Json) returns (self: SsdgElement)
      requires element.Valid() && ClassArg(className)
      modifies element
      ensures self == this
      ensures element.Valid() && element.Repr == old(element.Repr) && element.children == old(element.children)
      ensures element.Model() == old(element.Model()).(classes := old(element.classes) + ClassNames(className))
      decreases className
    {
      if className.JArray? {
        for i := 0 to |className.items|
          invariant element.Valid() && element.Repr == old(element.Repr) && element.children == old(element.children)
          invariant element.Model() == old(element.Model()).(classes := old(element.classes) + ClassNamesUpTo(className, i))
        {
          var _ := Class(className.items[i]);
        }
      } else {
        element.classes := element.classes + {className.str};
      }
      self := this;
    }

    /** `id(id)`: overwrite the element's id; the last write wins. */
    method Id(id: Json) returns (self: SsdgElement)
      requires element.Valid()
      modifies element
      ensures self == this
      ensures element.Valid() && element.Repr == old(element.Repr) && element.children == old(element.children)
      ensures element.Model() == old(element.Model()).(id := Some(id))
    {
      element.id := Some(id);
      self := this;
    }

    /** `attr(name, value)`: set one attribute and nothing else. */
    method Attr(name: string, value: Json) returns (self: SsdgElement)
      requires element.Valid()
      modifies element
      ensures self == this
      ensures element.Valid() && element.Repr == old(element.Repr) && element.children == old(element.children)
      ensures element.Model() == old(element.Model()).(attrs := old(element.attrs)[name := value])
    {
      element.attrs := element.attrs[name := value];
      self := this;
    }

    /**
     * `append(subElement)`: attach a wrapper's element or a raw node as the
     * last child; the children already there keep their order.
     */
    method Append(sub: Appendable) returns (self: SsdgElement)
      requires element.Valid()
      requires NodeOf(sub).Elem? ==> NodeOf(sub).el.Valid() && element !in NodeOf(sub).el.Repr
      modifies element
      ensures self == this && element.Valid()
      ensures element.children == old(element.children) + [NodeOf(sub)]
      ensures element.Model() == old(element.Model()).(kids := old(element.kids) + [Abstract(NodeOf(sub))])
      ensures element.Repr == old(element.Repr) + (if NodeOf(sub).Elem? then NodeOf(sub).el.Repr else {})
    {
      var node := NodeOf(sub);
      element.children := element.children + [node];
      match node {
        case Text(data) =>
          element.kids := element.kids + [TText(data)];
        case Elem(c) =>
          element.kids := element.kids + [TElem(c.Model())];
          element.Repr := element.Repr + c.Repr;
      }
      self := this;
    }
  }
}
