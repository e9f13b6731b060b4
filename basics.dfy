/** Option and Result, and the facts about duplicate-free sequences that the
    assignee checks rely on. */
module Basics {

  datatype Option<+T> = None | Some(value: T)

  datatype Result<+R, +E> = Ok(value: R) | Err(error: E)

  /** No element occurs twice. */
  predicate NoDuplicates<T(==)>(s: seq<T>)
  {
    forall i, j :: 0 <= i < j < |s| ==> s[i] != s[j]
  }

  /** The set of elements of a sequence. */
  function Elems<T>(s: seq<T>): set<T>
  {
    set x | x in s
  }

  /** A sequence has at most as many distinct elements as positions, and
      exactly as many when it holds no duplicate. */
  lemma {:induction false} ElemsCardinality<T>(s: seq<T>)
    ensures |Elems(s)| <= |s|
    ensures |Elems(s)| == |s| <==> NoDuplicates(s)
  {
    if s == [] {
      assert Elems(s) == {};
    } else {
      var tail := s[1..];
      ElemsCardinality(tail);
      if s[0] in tail {
        assert Elems(s) == Elems(tail);
        var k :| 0 <= k < |tail| && tail[k] == s[0];
        assert s[0] == s[k + 1];
        assert !NoDuplicates(s);
      } else {
        assert Elems(s) == Elems(tail) + {s[0]};
        if NoDuplicates(tail) {
          forall i, j | 0 <= i < j < |s| ensures s[i] != s[j] {
            if i == 0 {
              assert s[j] == tail[j - 1];
            } else {
              assert s[i] == tail[i - 1] && s[j] == tail[j - 1];
            }
          }
        } else {
          var i, j :| 0 <= i < j < |tail| && tail[i] == tail[j];
          assert s[i + 1] == s[j + 1];
        }
      }
    }
  }

  /** A subset is no larger than its superset, and is the whole superset
      when it is as large. */
  lemma SubsetCardinality<T>(a: set<T>, b: set<T>)
    requires a <= b
    ensures |a| <= |b|
    ensures |a| == |b| ==> a == b
  {
    assert b == a + (b - a);
    assert |b - a| == |b| - |a|;
  }

  /** `order` lists every element of `keys` exactly once, as a query that
      returns every document of a collection does. */
  predicate Enumerates<K(==)>(order: seq<K>, keys: set<K>)
  {
    NoDuplicates(order) && Elems(order) == keys
  }

  lemma EnumerationSize<K>(order: seq<K>, keys: set<K>)
    requires Enumerates(order, keys)
    ensures |order| == |keys|
  {
    ElemsCardinality(order);
  }
}
