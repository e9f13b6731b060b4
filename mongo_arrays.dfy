/** The MongoDB array update operators the controllers use on reference
    lists, as functions on sequences: `$push` appends, `$pull` removes every
    occurrence, `$addToSet` appends only when the value is absent. */
module MongoArrays {

  /** `$push`: append one value at the end. */
  function Push<T>(s: seq<T>, x: T): (r: seq<T>)
    ensures |r| == |s| + 1 && r[..|s|] == s && r[|s|] == x
  {
    s + [x]
  }

  /** `$pull`: remove every occurrence of `x`, keeping the order of the rest. */
  function Pull<T(==,!new)>(s: seq<T>, x: T): (r: seq<T>)
    ensures forall y :: y in r <==> y in s && y != x
    ensures |r| <= |s|
    ensures x !in s ==> r == s
  {
    if s == [] then []
    else if s[0] == x then Pull(s[1..], x)
    else [s[0]] + Pull(s[1..], x)
  }

  /** `$addToSet`: append `x` unless it is already present. */
  function AddToSet<T(==,!new)>(s: seq<T>, x: T): (r: seq<T>)
    ensures x in s ==> r == s
    ensures x !in s ==> r == Push(s, x)
  {
    if x in s then s else s + [x]
  }

  /** `$pull` removes exactly the occurrences of `x`: every other value
      keeps its number of occurrences. */
  lemma {:induction false} PullCounts<T(!new)>(s: seq<T>, x: T)
    ensures multiset(Pull(s, x)) == multiset(s)[x := 0]
  {
    if s != [] {
      PullCounts(s[1..], x);
      assert s == [s[0]] + s[1..];
    }
  }

  /** `$pull` works element by element, keeping the order of what remains:
      pulling from a concatenation concatenates the pulled parts. */
  lemma {:induction false} PullConcat<T(!new)>(a: seq<T>, b: seq<T>, x: T)
    ensures Pull(a + b, x) == Pull(a, x) + Pull(b, x)
  {
    if a == [] {
      assert a + b == b;
    } else {
      PullConcat(a[1..], b, x);
      assert (a + b)[0] == a[0] && (a + b)[1..] == a[1..] + b;
    }
  }

  /** `$addToSet` is idempotent and leaves exactly one more element in the
      set of members. */
  lemma AddToSetIdempotent<T(!new)>(s: seq<T>, x: T)
    ensures AddToSet(AddToSet(s, x), x) == AddToSet(s, x)
    ensures forall y :: y in AddToSet(s, x) <==> y in s || y == x
  {
  }
}
