/** Go's `range` over a map visits every key exactly once, in an order the language
    leaves unspecified. The model takes that order as a parameter: an enumerator
    that lists the keys of any key set, each exactly once. */
module MapOrder {

  predicate NoDuplicates<T(==)>(s: seq<T>) {
    forall i, j :: 0 <= i < j < |s| ==> s[i] != s[j]
  }

  /** `s` lists every element of `keys` exactly once and nothing else. */
  predicate Enumerates<T(==)>(s: seq<T>, keys: set<T>) {
    && NoDuplicates(s)
    && (forall x :: x in s ==> x in keys)
    && (forall x :: x in keys ==> x in s)
  }

  /** One possible iteration order for every map with string keys. */
  type Enumerator = set<string> -> seq<string>

  ghost predicate IsEnumerator(order: Enumerator) {
    forall keys :: Enumerates(order(keys), keys)
  }

  /** An enumeration holds each key once and every other value not at all. */
  lemma {:induction false} EnumerationCount<T>(s: seq<T>, keys: set<T>, x: T)
    requires Enumerates(s, keys)
    ensures multiset(s)[x] == if x in keys then 1 else 0
    decreases |s|
  {
    if s == [] {
      assert x !in keys;
    } else {
      var rest := s[1..];
      assert s == [s[0]] + rest;
      assert Enumerates(rest, keys - {s[0]}) by {
        forall y ensures y in rest <==> y in keys - {s[0]} {
          if y in rest {
            var k :| 0 <= k < |rest| && rest[k] == y;
            assert s[k + 1] == y;
          }
        }
      }
      EnumerationCount(rest, keys - {s[0]}, x);
    }
  }

  /** An enumeration, counted with multiplicity, is its key set. */
  lemma EnumerationKeys<T>(s: seq<T>, keys: set<T>)
    requires Enumerates(s, keys)
    ensures multiset(s) == multiset(keys)
  {
    forall x ensures multiset(s)[x] == multiset(keys)[x] {
      EnumerationCount(s, keys, x);
    }
  }
}
