/**
 * The plain data a caller hands to the declarative parser: JSON-like values
 * whose objects are sequences of members in `for..in` enumeration order.
 */
module JsonValues {
  import opened Wrappers

  /** A value of the declarative input. Numbers are integers here: fractional numbers are not represented. */
  datatype Json =
    | JNull
    | JBool(b: bool)
    | JNumber(n: int)
    | JString(str: string)
    | JArray(items: seq<Json>)
    | JObject(members: seq<Member>)

  /** One own enumerable property of an object. */
  datatype Member = Member(key: string, value: Json)

  /** JavaScript truthiness: `false`, `0`, `""` and `null` are falsy, every array and object is truthy. */
  predicate Truthy(v: Json)
  {
    match v
    case JNull => false
    case JBool(b) => b
    case JNumber(n) => n != 0
    case JString(s) => s != []
    case _ => true
  }

  /** The keys of an object, in enumeration order. */
  function Keys(ms: seq<Member>): (ks: seq<string>)
    ensures |ks| == |ms|
    ensures forall i :: 0 <= i < |ms| ==> ks[i] == ms[i].key
  {
    seq(|ms|, i requires 0 <= i < |ms| => ms[i].key)
  }

  /** A JavaScript object never holds two properties under one key. */
  predicate UniqueKeys(ms: seq<Member>)
  {
    forall i, j :: 0 <= i < j < |ms| ==> ms[i].key != ms[j].key
  }

  /** `object[key]`: the value stored under `key`, `None` when there is none. */
  function Get(ms: seq<Member>, key: string): (r: Option<Json>)
    ensures r.Some? ==> Member(key, r.value) in ms
  {
    if ms == [] then None
    else if ms[0].key == key then Some(ms[0].value)
    else Get(ms[1..], key)
  }

  /** `delete object[key]`: the object without that property, the others kept in their order. */
  function Without(ms: seq<Member>, key: string): (r: seq<Member>)
    ensures |r| <= |ms|
  {
    if ms == [] then []
    else if ms[0].key == key then Without(ms[1..], key)
    else [ms[0]] + Without(ms[1..], key)
  }

  /** Every member `Without` keeps comes from `ms` and is not stored under `key`. */
  lemma {:induction false} WithoutIn(ms: seq<Member>, key: string, i: nat)
    requires i < |Without(ms, key)|
    ensures Without(ms, key)[i] in ms && Without(ms, key)[i].key != key
    decreases |ms|
  {
    if ms[0].key == key {
      WithoutIn(ms[1..], key, i);
    } else if i > 0 {
      WithoutIn(ms[1..], key, i - 1);
    }
  }

  /** `Without` keeps exactly the members not stored under `key`. */
  lemma {:induction false} WithoutMembers(ms: seq<Member>, key: string)
    ensures forall m :: m in Without(ms, key) <==> m in ms && m.key != key
    decreases |ms|
  {
    if ms != [] {
      WithoutMembers(ms[1..], key);
      assert ms == [ms[0]] + ms[1..];
    }
  }

  /** Deleting a property from an object leaves its keys distinct. */
  lemma {:induction false} WithoutUnique(ms: seq<Member>, key: string)
    requires UniqueKeys(ms)
    ensures UniqueKeys(Without(ms, key))
    decreases |ms|
  {
    if ms != [] {
      WithoutUnique(ms[1..], key);
      WithoutMembers(ms[1..], key);
      var r := Without(ms, key);
      if ms[0].key != key {
        forall i, j | 0 <= i < j < |r|
          ensures r[i].key != r[j].key
        {
          if i == 0 {
            assert r[j] in ms[1..];
          }
        }
      }
    }
  }

  /** Deleting `key` leaves every other property's value where a lookup finds it. */
  lemma {:induction false} GetWithout(ms: seq<Member>, key: string, k: string)
    requires k != key
    ensures Get(Without(ms, key), k) == Get(ms, k)
    decreases |ms|
  {
    if ms != [] {
      GetWithout(ms[1..], key, k);
      if ms[0].key != key {
        var r := Without(ms[1..], key);
        assert ([ms[0]] + r)[1..] == r;
      }
    }
  }

  /** A lookup misses exactly when no property has that key. */
  lemma {:induction false} GetMisses(ms: seq<Member>, key: string)
    ensures Get(ms, key).None? <==> key !in Keys(ms)
    decreases |ms|
  {
    if ms != [] {
      GetMisses(ms[1..], key);
      assert Keys(ms) == [ms[0].key] + Keys(ms[1..]);
    }
  }

  /** Deleting a key the object does not have leaves every member in place. */
  lemma {:induction false} WithoutAbsent(ms: seq<Member>, key: string)
    requires key !in Keys(ms)
    ensures Without(ms, key) == ms
    decreases |ms|
  {
    if ms != [] {
      assert Keys(ms) == [ms[0].key] + Keys(ms[1..]);
      WithoutAbsent(ms[1..], key);
      assert ms == [ms[0]] + ms[1..];
    }
  }

  /** Deleting the key at position `p` of an object removes that one member; the others keep their order. */
  lemma {:induction false} WithoutAt(ms: seq<Member>, key: string, p: nat)
    requires UniqueKeys(ms) && p < |ms| && ms[p].key == key
    ensures Without(ms, key) == ms[..p] + ms[p + 1..]
    decreases p
  {
    if p == 0 {
      forall i | 0 <= i < |ms[1..]|
        ensures Keys(ms[1..])[i] != key
      {
        assert ms[1..][i] == ms[i + 1];
      }
      WithoutAbsent(ms[1..], key);
    } else {
      assert ms[0].key != key;
      assert UniqueKeys(ms[1..]) by {
        forall i, j | 0 <= i < j < |ms[1..]|
          ensures ms[1..][i].key != ms[1..][j].key
        {
          assert ms[1..][i] == ms[i + 1] && ms[1..][j] == ms[j + 1];
        }
      }
      WithoutAt(ms[1..], key, p - 1);
      assert ms[..p] == [ms[0]] + ms[1..][..p - 1];
      assert ms[p + 1..] == ms[1..][p..];
    }
  }
}
