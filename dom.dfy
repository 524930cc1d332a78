/**
 * The platform element the wrapper owns, reduced to the state the library
 * touches: a tag, an optional id, a class set, an attribute map and an
 * ordered list of child nodes. Text nodes are values; element children are
 * references to other elements.
 */
module Dom {
  import opened Wrappers
  import opened JsonValues

  /** The abstract value of an element and everything below it. */
  datatype Tree = Tree(tag: string, id: Option<Json>, classes: set<string>, attrs: map<string, Json>, kids: seq<Subtree>)

  /** The abstract value of one child: a text node's data or a child element's tree. */
  datatype Subtree = TText(data: string) | TElem(tree: Tree)

  /** A child node as the platform holds it. */
  datatype Node = Text(data: string) | Elem(el: Element)

  /** What `document.createElement(tag)` yields: no id, no class, no attribute, no child. */
  function Fresh(tag: string): Tree
  {
    Tree(tag, None, {}, map[], [])
  }

  class Element {
    const tag: string
    var id: Option<Json>
    var classes: set<string>
    var attrs: map<string, Json>
    var children: seq<Node>

    /** The abstract values of `children`, one per child. */
    ghost var kids: seq<Subtree>
    /** This element and every element below it. */
    ghost var Repr: set<Element>

    ghost function Model(): Tree
      reads this
    {
      Tree(tag, id, classes, attrs, kids)
    }

    /**
     * `kids` mirrors `children`, and every child element is valid, lies
     * inside `Repr` and does not reach back to this element.
     */
    ghost predicate Valid()
      reads this, Repr
      decreases Repr
    {
      && this in Repr
      && |kids| == |children|
      && forall i :: 0 <= i < |children| ==>
           match children[i]
           case Text(s) => kids[i] == TText(s)
           case Elem(c) =>
             && c in Repr && c.Repr <= Repr && this !in c.Repr
             && c.Valid() && kids[i] == TElem(c.Model())
    }

    /** `document.createElement(tag)`. */
    constructor (tag: string)
      ensures Valid() && fresh(Repr) && Repr == {this}
      ensures Model() == Fresh(tag) && children == []
    {
      this.tag := tag;
      id, classes, attrs, children := None, {}, map[], [];
      kids, Repr := [], {this};
    }
  }
}
