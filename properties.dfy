/**
 * What the strategy table and the parser promise, proved about the
 * functions that specify them. `Parsers.Parser.Parse` ties the element it
 * builds to `ParseTree` and the object it leaves to `Consumed`, so every
 * lemma here is a statement about `parse` itself.
 */
module Properties {
  import opened Wrappers
  import opened JsonValues
  import opened Dom
  import opened Strategies
  import opened SsdgElements
  import opened Declarative

  // ---------------------------------------------------------------------
  // The strategy table
  // ---------------------------------------------------------------------

  /** The table after `getStrategy` has been called with each of `names` in turn. */
  function LookupAll(t: Table, names: seq<string>): Table
    requires "content" in t
    decreases |names|
  {
    if names == [] then t else LookupAll(Lookup(t, names[0]).1, names[1..])
  }

  /**
   * However many lookups run, no entry is ever replaced (so the built-ins
   * stay), the table gains exactly the non-empty names looked up, and a
   * ready table stays ready.
   */
  lemma {:induction false} LookupAllKeeps(t: Table, names: seq<string>)
    requires "content" in t
    ensures forall k :: k in t ==> k in LookupAll(t, names) && LookupAll(t, names)[k] == t[k]
    ensures LookupAll(t, names).Keys == t.Keys + (set n | n in names && n != "")
    ensures Ready(t) ==> Ready(LookupAll(t, names))
    decreases |names|
  {
    if names != [] {
      var t1 := Lookup(t, names[0]).1;
      LookupAllKeeps(t1, names[1..]);
      assert names == [names[0]] + names[1..];
      assert (set n | n in names && n != "") == (set n | n in names[1..] && n != "") + (if names[0] == "" then {} else {names[0]});
    }
  }

  /** Looking a name up a second time returns the same strategy and changes nothing. */
  lemma LookupIdempotent(t: Table, name: string)
    requires name == "" ==> "content" in t
    ensures Lookup(Lookup(t, name).1, name) == Lookup(t, name)
  {
  }

  /**
   * The counterexample of the inherited-name finding: with only the
   * built-ins registered, `getStrategy("constructor")` as written returns no
   * strategy with an `eval`, while the intended lookup registers and returns
   * the default attribute strategy.
   */
  lemma InheritedNameCounterexample()
    ensures LookupAsWritten(Builtins(), "constructor").None?
    ensures Lookup(Builtins(), "constructor").0 == Strategy("constructor", AttrEval)
  {
  }

  /**
   * The lookup as written fails exactly for a name that no entry holds and
   * that `Object.prototype` supplies; on every other name it agrees with the
   * intended lookup, and on those names the intended lookup registers the
   * default attribute strategy instead.
   */
  lemma AsWrittenDiverges(t: Table, name: string)
    requires Ready(t)
    ensures LookupAsWritten(t, name).None? <==> name in Inherited && name !in t
    ensures LookupAsWritten(t, name).Some? ==> LookupAsWritten(t, name).value == Lookup(t, name)
    ensures LookupAsWritten(t, name).None? ==>
              Lookup(t, name) == (Strategy(name, AttrEval), t[name := Strategy(name, AttrEval)])
  {
    assert "" !in Inherited;
  }

  // ---------------------------------------------------------------------
  // What one key does to the element
  // ---------------------------------------------------------------------

  /** The keys the content strategy handles: `content`, and the empty (falsy) key. */
  predicate IsContentKey(k: string)
  {
    k == "content" || k == ""
  }

  /** The keys the default strategy turns into attributes. */
  predicate IsAttrKey(k: string)
  {
    k != "class" && k != "id" && !IsContentKey(k)
  }

  /** The children the content strategy appends for `v`, independent of the element it is given. */
  function ContentKids(v: Json): seq<Subtree>
    decreases v, 1
  {
    match v
    case JString(s) => [TText(s)]
    case JArray(items) => ItemKids(v, |items|)
    case JObject(_) => [TElem(ParseTree(v))]
    case _ => []
  }

  /** The children the first `n` items of an array contribute, in order. */
  function ItemKids(v: Json, n: nat): seq<Subtree>
    requires v.JArray? && n <= |v.items|
    decreases v, 0, n
  {
    if n == 0 then [] else ItemKids(v, n - 1) + ContentKids(v.items[n - 1])
  }

  /** The content strategy only appends children: the children already there keep their order and nothing else changes. */
  lemma {:induction false} ContentAppends(t: Tree, v: Json)
    ensures ApplyContent(t, v) == t.(kids := t.kids + ContentKids(v))
    decreases v, 1
  {
    if v.JArray? {
      ItemsAppend(t, v, |v.items|);
    }
  }

  /** Array items are handled in order, each appending after the ones before. */
  lemma {:induction false} ItemsAppend(t: Tree, v: Json, n: nat)
    requires v.JArray? && n <= |v.items|
    ensures ApplyItems(t, v, n) == t.(kids := t.kids + ItemKids(v, n))
    decreases v, 0, n
  {
    if n > 0 {
      ItemsAppend(t, v, n - 1);
      ContentAppends(ApplyItems(t, v, n - 1), v.items[n - 1]);
      assert t.kids + ItemKids(v, n - 1) + ContentKids(v.items[n - 1]) == t.kids + ItemKids(v, n);
    }
  }

  /** The first items of an array contribute the same children whatever follows them. */
  lemma {:induction false} ItemKidsPrefix(a: seq<Json>, b: seq<Json>, n: nat)
    requires n <= |a|
    ensures ItemKids(JArray(a + b), n) == ItemKids(JArray(a), n)
    decreases n
  {
    if n > 0 {
      ItemKidsPrefix(a, b, n - 1);
      assert (a + b)[n - 1] == a[n - 1];
    }
  }

  /** Splitting an array in two, or nesting it, changes neither the children nor their order. */
  lemma {:induction false} ContentConcat(a: seq<Json>, b: seq<Json>)
    ensures ContentKids(JArray(a + b)) == ContentKids(JArray(a)) + ContentKids(JArray(b))
    ensures ContentKids(JArray([JArray(a)])) == ContentKids(JArray(a))
  {
    ItemKidsConcat(a, b, |b|);
    var nested := JArray([JArray(a)]);
    assert ItemKids(nested, 1) == ItemKids(nested, 0) + ContentKids(JArray(a));
  }

  lemma {:induction false} ItemKidsConcat(a: seq<Json>, b: seq<Json>, n: nat)
    requires n <= |b|
    ensures ItemKids(JArray(a + b), |a| + n) == ItemKids(JArray(a), |a|) + ItemKids(JArray(b), n)
    decreases n
  {
    if n == 0 {
      ItemKidsPrefix(a, b, |a|);
    } else {
      ItemKidsConcat(a, b, n - 1);
      assert (a + b)[|a| + n - 1] == b[n - 1];
    }
  }

  /** What handling member `m` does to the tree, by the kind of its key. */
  function KeyStep(t: Tree, m: Member): Tree
  {
    if m.key == "class" then t.(classes := t.classes + ClassNames(m.value))
    else if m.key == "id" then t.(id := Some(m.value))
    else if IsContentKey(m.key) then t.(kids := t.kids + ContentKids(m.value))
    else t.(attrs := t.attrs[m.key := m.value])
  }

  /** The strategy for key `k` changes the class names, the id, the children or the attribute `k`, and nothing else. */
  lemma KeyEffect(t: Tree, k: string, v: Json)
    ensures ApplyStrategy(t, Dispatch(k), v) == KeyStep(t, Member(k, v))
  {
    if IsContentKey(k) {
      ContentAppends(t, v);
    }
  }

  /** Adding the same class names twice is adding them once. */
  lemma ClassIdempotent(t: Tree, v: Json)
    ensures ApplyStrategy(ApplyStrategy(t, Dispatch("class"), v), Dispatch("class"), v) == ApplyStrategy(t, Dispatch("class"), v)
  {
  }

  /** The class names of an array are exactly those of its items, however deeply nested. */
  lemma ClassNamesOfArray(v: Json)
    requires v.JArray?
    ensures forall c :: c in ClassNames(v) <==> exists i :: 0 <= i < |v.items| && c in ClassNames(v.items[i])
  {
    ClassNamesUpToIn(v, |v.items|);
  }

  lemma {:induction false} ClassNamesUpToIn(v: Json, n: nat)
    requires v.JArray? && n <= |v.items|
    ensures forall c :: c in ClassNamesUpTo(v, n) <==> exists i :: 0 <= i < n && c in ClassNames(v.items[i])
    decreases n
  {
    if n > 0 {
      ClassNamesUpToIn(v, n - 1);
    }
  }

  // ---------------------------------------------------------------------
  // The whole key loop, summarised key by key
  // ---------------------------------------------------------------------

  /** The value of the last member stored under `key`: the write that wins. */
  function LastValue(fs: seq<Member>, key: string): (r: Option<Json>)
    ensures r.Some? ==> Member(key, r.value) in fs
  {
    if fs == [] then None
    else if fs[|fs| - 1].key == key then Some(fs[|fs| - 1].value)
    else LastValue(fs[..|fs| - 1], key)
  }

  /** Every class name the `class` members add. */
  function ClassesOf(fs: seq<Member>): set<string>
  {
    if fs == [] then {}
    else ClassesOf(fs[..|fs| - 1]) + (if fs[|fs| - 1].key == "class" then ClassNames(fs[|fs| - 1].value) else {})
  }

  /** The attributes the attribute members set, a later one overriding an earlier. */
  function AttrsOf(fs: seq<Member>): map<string, Json>
  {
    if fs == [] then map[]
    else
      var m := fs[|fs| - 1];
      if IsAttrKey(m.key) then AttrsOf(fs[..|fs| - 1])[m.key := m.value] else AttrsOf(fs[..|fs| - 1])
  }

  /** The children the content members append, in member order. */
  function KidsOf(fs: seq<Member>): seq<Subtree>
  {
    if fs == [] then []
    else KidsOf(fs[..|fs| - 1]) + (if IsContentKey(fs[|fs| - 1].key) then ContentKids(fs[|fs| - 1].value) else [])
  }

  /** Tree `t` once the members `fs` have been handled, stated field by field. */
  function Summary(t: Tree, fs: seq<Member>): Tree
  {
    var id := LastValue(fs, "id");
    Tree(t.tag, if id.Some? then id else t.id, t.classes + ClassesOf(fs), t.attrs + AttrsOf(fs), t.kids + KidsOf(fs))
  }

  /**
   * Handling the first `n` members keeps the tag, makes the last `id` win,
   * adds every class name, sets every attribute and appends the content of
   * the content members in their order.
   */
  lemma {:induction false} MembersSummary(t: Tree, obj: Json, n: nat)
    requires obj.JObject? && n <= |Fields(obj)|
    ensures ApplyMembers(t, obj, n) == Summary(t, Fields(obj)[..n])
    decreases n
  {
    if n > 0 {
      var m := Fields(obj)[n - 1];
      MembersSummary(t, obj, n - 1);
      KeyEffect(ApplyMembers(t, obj, n - 1), m.key, m.value);
      assert Fields(obj)[..n] == Fields(obj)[..n - 1] + [m];
      SummarySnoc(t, Fields(obj)[..n - 1], m);
    }
  }

  /** One more member changes the summary as handling that member changes the tree. */
  lemma SummarySnoc(t: Tree, fs: seq<Member>, m: Member)
    ensures Summary(t, fs + [m]) == KeyStep(Summary(t, fs), m)
  {
    var gs := fs + [m];
    assert gs[..|gs| - 1] == fs && gs[|gs| - 1] == m;
    if IsAttrKey(m.key) {
      assert (t.attrs + AttrsOf(fs))[m.key := m.value] == t.attrs + AttrsOf(gs);
    }
  }

  /** The tree `parse(obj)` builds, field by field. */
  lemma ParseTreeSummary(obj: Json)
    requires obj.JObject?
    ensures var fs := Fields(obj);
            ParseTree(obj) == Tree(TagOf(obj.members), LastValue(fs, "id"), ClassesOf(fs), AttrsOf(fs), KidsOf(fs))
  {
    var fs := Fields(obj);
    MembersSummary(Fresh(TagOf(obj.members)), obj, |fs|);
    assert fs[..|fs|] == fs;
    assert map[] + AttrsOf(fs) == AttrsOf(fs);
  }

  // ---------------------------------------------------------------------
  // From the members to the caller's object
  // ---------------------------------------------------------------------

  /** Looking up a key in an object with one more property at the end. */
  lemma {:induction false} GetSnoc(p: seq<Member>, l: Member, key: string)
    ensures Get(p + [l], key) == if key in Keys(p) then Get(p, key) else if l.key == key then Some(l.value) else None
    decreases |p|
  {
    if p != [] {
      GetSnoc(p[1..], l, key);
      assert (p + [l])[1..] == p[1..] + [l];
      assert key in Keys(p) <==> p[0].key == key || key in Keys(p[1..]) by {
        assert Keys(p) == [p[0].key] + Keys(p[1..]);
      }
    } else {
      assert [l][1..] == [];
    }
  }

  /** In an object whose keys are distinct, the last member under a key is the only one. */
  lemma {:induction false} LastValueGet(fs: seq<Member>, key: string)
    requires UniqueKeys(fs)
    ensures LastValue(fs, key) == Get(fs, key)
    decreases |fs|
  {
    if fs != [] {
      var p := fs[..|fs| - 1];
      var l := fs[|fs| - 1];
      assert fs == p + [l];
      LastValueGet(p, key);
      GetSnoc(p, l, key);
      if l.key == key {
        forall i | 0 <= i < |p|
          ensures Keys(p)[i] != key
        {
          assert fs[i].key != fs[|fs| - 1].key;
        }
      }
    }
  }

  /** With distinct keys at most one member adds class names: those of the `class` value. */
  lemma {:induction false} ClassesOfUnique(fs: seq<Member>)
    requires UniqueKeys(fs)
    ensures ClassesOf(fs) == if LastValue(fs, "class").Some? then ClassNames(LastValue(fs, "class").value) else {}
    decreases |fs|
  {
    if fs != [] {
      var p := fs[..|fs| - 1];
      ClassesOfUnique(p);
      if fs[|fs| - 1].key == "class" {
        forall i | 0 <= i < |p|
          ensures p[i].key != "class"
        {
          assert fs[i].key != fs[|fs| - 1].key;
        }
        assert LastValue(p, "class").None?;
      }
    }
  }

  /** An attribute is set exactly when an attribute member names it, to the last such member's value. */
  lemma {:induction false} AttrsOfLast(fs: seq<Member>, k: string)
    ensures k in AttrsOf(fs) <==> IsAttrKey(k) && LastValue(fs, k).Some?
    ensures k in AttrsOf(fs) ==> AttrsOf(fs)[k] == LastValue(fs, k).value
    decreases |fs|
  {
    if fs != [] {
      AttrsOfLast(fs[..|fs| - 1], k);
    }
  }

  /**
   * `parse(obj)` on an object with distinct keys: the tag is `tagName` when
   * that is a truthy string and `div` otherwise; the id, the class names and
   * every attribute come from the member of that name; `tagName` never
   * becomes an attribute; the children are those of the content members.
   */
  lemma ParsedElement(obj: Json)
    requires obj.JObject? && UniqueKeys(obj.members)
    ensures var tn := Get(obj.members, "tagName");
            ParseTree(obj).tag == if tn.Some? && Truthy(tn.value) && tn.value.JString? then tn.value.str else "div"
    ensures ParseTree(obj).id == Get(obj.members, "id")
    ensures var c := Get(obj.members, "class");
            ParseTree(obj).classes == if c.Some? then ClassNames(c.value) else {}
    ensures forall k :: k in ParseTree(obj).attrs <==> IsAttrKey(k) && k != "tagName" && Get(obj.members, k).Some?
    ensures forall k :: k in ParseTree(obj).attrs ==> ParseTree(obj).attrs[k] == Get(obj.members, k).value
    ensures ParseTree(obj).kids == KidsOf(Fields(obj))
  {
    var ms := obj.members;
    var fs := Fields(obj);
    ParseTreeSummary(obj);
    WithoutUnique(ms, "tagName");
    LastValueGet(fs, "id");
    GetWithout(ms, "tagName", "id");
    ClassesOfUnique(fs);
    LastValueGet(fs, "class");
    GetWithout(ms, "tagName", "class");
    forall k
      ensures k in AttrsOf(fs) <==> IsAttrKey(k) && k != "tagName" && Get(ms, k).Some?
      ensures k in AttrsOf(fs) ==> AttrsOf(fs)[k] == Get(ms, k).value
    {
      AttrsOfLast(fs, k);
      LastValueGet(fs, k);
      if k == "tagName" {
        TagNameDeleted(ms);
      } else {
        GetWithout(ms, "tagName", k);
      }
    }
  }

  /** `delete object.tagName` leaves no `tagName` among the members the loop visits. */
  lemma TagNameDeleted(ms: seq<Member>)
    ensures "tagName" !in Keys(Without(ms, "tagName"))
  {
    var fs := Without(ms, "tagName");
    forall i | 0 <= i < |fs|
      ensures Keys(fs)[i] != "tagName"
    {
      WithoutIn(ms, "tagName", i);
    }
  }

  /**
   * The loop visits every key of the object but `tagName`, and, the keys of
   * an object being distinct, each of them exactly once, in the object's
   * enumeration order: the members are the object's own with at most the
   * `tagName` member taken out.
   */
  lemma DispatchedKeys(obj: Json)
    requires obj.JObject?
    ensures forall k :: k in Keys(Fields(obj)) <==> k in Keys(obj.members) && k != "tagName"
    ensures UniqueKeys(obj.members) ==> UniqueKeys(Fields(obj))
    ensures "tagName" !in Keys(obj.members) ==> Fields(obj) == obj.members
    ensures UniqueKeys(obj.members) ==>
              forall p :: 0 <= p < |obj.members| && obj.members[p].key == "tagName" ==>
                Fields(obj) == obj.members[..p] + obj.members[p + 1..]
  {
    var ms := obj.members;
    var fs := Fields(obj);
    WithoutMembers(ms, "tagName");
    forall k
      ensures k in Keys(fs) <==> k in Keys(ms) && k != "tagName"
    {
      if k in Keys(fs) {
        var i :| 0 <= i < |fs| && Keys(fs)[i] == k;
        assert fs[i] in ms;
        var j :| 0 <= j < |ms| && ms[j] == fs[i];
        assert Keys(ms)[j] == k;
      }
      if k in Keys(ms) && k != "tagName" {
        var j :| 0 <= j < |ms| && Keys(ms)[j] == k;
        assert ms[j] in fs;
        var i :| 0 <= i < |fs| && fs[i] == ms[j];
        assert Keys(fs)[i] == k;
      }
    }
    if UniqueKeys(ms) {
      WithoutUnique(ms, "tagName");
      forall p | 0 <= p < |ms| && ms[p].key == "tagName"
        ensures fs == ms[..p] + ms[p + 1..]
      {
        WithoutAt(ms, "tagName", p);
      }
    }
    if "tagName" !in Keys(ms) {
      WithoutAbsent(ms, "tagName");
    }
  }

  /** The first `n` members as the loop leaves them: same keys, in order, each value as its strategy leaves it. */
  lemma {:induction false} ConsumeMembersShape(obj: Json, n: nat)
    requires obj.JObject? && n <= |Fields(obj)|
    ensures |ConsumeMembers(obj, n)| == n
    ensures forall i :: 0 <= i < n ==>
              ConsumeMembers(obj, n)[i] == Member(Fields(obj)[i].key, ConsumeBy(Dispatch(Fields(obj)[i].key), Fields(obj)[i].value))
    decreases n
  {
    if n > 0 {
      ConsumeMembersShape(obj, n - 1);
      var m := Fields(obj)[n - 1];
      assert ConsumeMembers(obj, n) == ConsumeMembers(obj, n - 1) + [Member(m.key, ConsumeBy(Dispatch(m.key), m.value))];
    }
  }

  /**
   * The caller's object after `parse`: `tagName` is gone, every other key
   * is still there in its place, and only content values change (nested
   * objects lose their own `tagName`).
   */
  lemma ConsumedObject(obj: Json)
    requires obj.JObject?
    ensures Keys(Consumed(obj).members) == Keys(Fields(obj))
    ensures "tagName" !in Keys(Consumed(obj).members)
    ensures forall i :: 0 <= i < |Fields(obj)| && !IsContentKey(Fields(obj)[i].key) ==>
              Consumed(obj).members[i].value == Fields(obj)[i].value
  {
    ConsumeMembersShape(obj, |Fields(obj)|);
    TagNameDeleted(obj.members);
  }

  // ---------------------------------------------------------------------
  // Worked inputs
  // ---------------------------------------------------------------------

  /** `{tagName: 'p', content: 'hello'}` builds a `p` element with one text child. */
  lemma ParagraphExample()
    ensures ParseTree(JObject([Member("tagName", JString("p")), Member("content", JString("hello"))]))
            == Tree("p", None, {}, map[], [TText("hello")])
  {
    var obj := JObject([Member("tagName", JString("p")), Member("content", JString("hello"))]);
    assert Fields(obj) == [Member("content", JString("hello"))];
  }

  /** `{'data-foo': 'bar'}` builds a `div` whose attribute `data-foo` is `'bar'`. */
  lemma AttributeExample()
    ensures ParseTree(JObject([Member("data-foo", JString("bar"))]))
            == Tree("div", None, {}, map["data-foo" := JString("bar")], [])
  {
    var obj := JObject([Member("data-foo", JString("bar"))]);
    assert Fields(obj) == obj.members;
  }

  /** `{id: 'a', content: [{tagName: 'span', content: 'x'}, 'y']}`: a `div` with id `a`, a `span` child holding `x`, then the text `y`. */
  lemma NestedExample()
    ensures var span := JObject([Member("tagName", JString("span")), Member("content", JString("x"))]);
            ParseTree(JObject([Member("id", JString("a")), Member("content", JArray([span, JString("y")]))]))
            == Tree("div", Some(JString("a")), {}, map[],
                    [TElem(Tree("span", None, {}, map[], [TText("x")])), TText("y")])
  {
    var span := JObject([Member("tagName", JString("span")), Member("content", JString("x"))]);
    var obj := JObject([Member("id", JString("a")), Member("content", JArray([span, JString("y")]))]);
    var items := JArray([span, JString("y")]);
    ParagraphLike(span);
    assert obj.members[1..] == [Member("content", items)] && obj.members[1..][1..] == [];
    assert Without(obj.members[1..], "tagName") == obj.members[1..];
    assert Fields(obj) == obj.members;
    ParseTreeSummary(obj);
    IdThenContent(Fields(obj), JString("a"), items);
    TwoItems(span, JString("y"));
  }

  /** The summary of an object holding an `id` and then a `content` member. */
  lemma IdThenContent(fs: seq<Member>, id: Json, content: Json)
    requires fs == [Member("id", id), Member("content", content)]
    ensures LastValue(fs, "id") == Some(id) && ClassesOf(fs) == {} && AttrsOf(fs) == map[]
    ensures KidsOf(fs) == ContentKids(content)
  {
    assert fs[..1] == [Member("id", id)] && fs[..1][..0] == [];
    assert KidsOf(fs[..1]) == [] && ClassesOf(fs[..1]) == {} && AttrsOf(fs[..1]) == map[];
  }

  /** A two-item content array contributes the first item's children, then the second's. */
  lemma TwoItems(a: Json, b: Json)
    ensures ContentKids(JArray([a, b])) == ContentKids(a) + ContentKids(b)
  {
    var items := JArray([a, b]);
    assert ItemKids(items, 1) == ItemKids(items, 0) + ContentKids(a);
  }

  lemma ParagraphLike(span: Json)
    requires span == JObject([Member("tagName", JString("span")), Member("content", JString("x"))])
    ensures ParseTree(span) == Tree("span", None, {}, map[], [TText("x")])
  {
    assert Fields(span) == [Member("content", JString("x"))];
  }
}
