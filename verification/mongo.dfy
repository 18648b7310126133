/** The MongoDB/Mongoose operations the handlers rely on, as operations on
    sequences: the `$addToSet` and `$pull` array update operators, the
    `findOneAndDelete` removal of one matching document from a collection,
    the filtering a query performs, and `mongoose.isValidObjectId`. */
module Mongo {

  /** `$addToSet`: append `x` unless the array already holds it. */
  function AddToSet<T(==,!new)>(s: seq<T>, x: T): (r: seq<T>)
    ensures |s| <= |r| && r[..|s|] == s
    ensures forall y :: y in r <==> y in s || y == x
    ensures |r| == if x in s then |s| else |s| + 1
  {
    if x in s then s else s + [x]
  }

  /** `$pull`: remove every element equal to `x`, keeping the others in order. */
  function Pull<T(==,!new)>(s: seq<T>, x: T): (r: seq<T>)
    ensures x !in r
    ensures multiset(r) == multiset(s)[x := 0]
  {
    if s == [] then []
    else
      assert s == [s[0]] + s[1..];
      (if s[0] == x then [] else [s[0]]) + Pull(s[1..], x)
  }

  /** Pulling from a concatenation pulls from each part: `$pull` is the
      order-preserving filter. */
  lemma {:induction false} PullConcat<T(!new)>(a: seq<T>, b: seq<T>, x: T)
    ensures Pull(a + b, x) == Pull(a, x) + Pull(b, x)
  {
    if a != [] {
      var head := if a[0] == x then [] else [a[0]];
      var ab := a + b;
      assert ab[0] == a[0] && ab[1..] == a[1..] + b;
      PullConcat(a[1..], b, x);
      calc {
        Pull(ab, x);
        head + Pull(a[1..] + b, x);
        head + (Pull(a[1..], x) + Pull(b, x));
        (head + Pull(a[1..], x)) + Pull(b, x);
      }
    } else {
      assert a + b == b;
    }
  }

  /** Pulling a value the array does not hold leaves it as it is. */
  lemma {:induction false} PullAbsent<T(!new)>(s: seq<T>, x: T)
    requires x !in s
    ensures Pull(s, x) == s
  {
    if s != [] {
      assert x !in s[1..];
      PullAbsent(s[1..], x);
    }
  }

  /** `$addToSet` is idempotent. */
  lemma AddToSetIdempotent<T(!new)>(s: seq<T>, x: T)
    ensures AddToSet(AddToSet(s, x), x) == AddToSet(s, x)
  {
  }

  /** `$pull` undoes an `$addToSet` of a value the array did not hold. */
  lemma PullAfterAddToSet<T(!new)>(s: seq<T>, x: T)
    requires x !in s
    ensures Pull(AddToSet(s, x), x) == s
  {
    PullConcat(s, [x], x);
    PullAbsent(s, x);
    assert Pull([x], x) == [];
  }

  /** `findOneAndDelete` on a collection: remove the first document equal
      to `x`; a collection without one is left as it is. */
  function RemoveFirst<T(==,!new)>(s: seq<T>, x: T): (r: seq<T>)
    ensures x in s ==> |r| == |s| - 1 && multiset(r) == multiset(s) - multiset{x}
    ensures x !in s ==> r == s
  {
    if s == [] then []
    else
      assert s == [s[0]] + s[1..];
      if s[0] == x then s[1..] else [s[0]] + RemoveFirst(s[1..], x)
  }

  /** The removed document is the first match and the rest keep their order. */
  lemma {:induction false} RemoveFirstAt<T(!new)>(s: seq<T>, x: T, i: nat)
    requires i < |s| && s[i] == x && x !in s[..i]
    ensures RemoveFirst(s, x) == s[..i] + s[i + 1..]
  {
    if i > 0 {
      assert s[0] != x by { assert s[0] == s[..i][0]; }
      assert x !in s[1..][..i - 1] by { assert s[1..][..i - 1] == s[..i][1..]; }
      RemoveFirstAt(s[1..], x, i - 1);
      assert s[..i] == [s[0]] + s[1..][..i - 1];
    }
  }

  /** The documents of a collection that a query predicate selects, in
      collection order. */
  function Filter<T(!new)>(s: seq<T>, p: T -> bool): (r: seq<T>)
    ensures |r| <= |s|
    ensures forall y :: y in r <==> y in s && p(y)
  {
    if s == [] then []
    else
      assert s == [s[0]] + s[1..];
      (if p(s[0]) then [s[0]] else []) + Filter(s[1..], p)
  }

  /** Appending a document adds it to the selection exactly when it matches. */
  lemma {:induction false} FilterAppend<T(!new)>(s: seq<T>, x: T, p: T -> bool)
    ensures Filter(s + [x], p) == Filter(s, p) + (if p(x) then [x] else [])
  {
    if s != [] {
      assert (s + [x])[1..] == s[1..] + [x];
      FilterAppend(s[1..], x, p);
    }
  }

  /** Removing one document the query does not select leaves the selection
      unchanged. */
  lemma {:induction false} FilterRemoveUnselected<T(!new)>(s: seq<T>, x: T, p: T -> bool)
    requires !p(x)
    ensures Filter(RemoveFirst(s, x), p) == Filter(s, p)
  {
    if s != [] {
      var head := if p(s[0]) then [s[0]] else [];
      assert Filter(s, p) == head + Filter(s[1..], p);
      if s[0] != x {
        var rest := RemoveFirst(s[1..], x);
        FilterRemoveUnselected(s[1..], x, p);
        assert ([s[0]] + rest)[0] == s[0] && ([s[0]] + rest)[1..] == rest;
        assert Filter([s[0]] + rest, p) == head + Filter(rest, p);
      }
    }
  }

  /** Removing one document the query selects removes that document from
      the selection. */
  lemma {:induction false} FilterRemoveSelected<T(!new)>(s: seq<T>, x: T, p: T -> bool)
    requires p(x)
    ensures Filter(RemoveFirst(s, x), p) == RemoveFirst(Filter(s, p), x)
  {
    if s != [] {
      var fs := Filter(s[1..], p);
      if s[0] == x {
        assert Filter(s, p) == [x] + fs;
        assert ([x] + fs)[0] == x && ([x] + fs)[1..] == fs;
      } else {
        var rest := RemoveFirst(s[1..], x);
        FilterRemoveSelected(s[1..], x, p);
        assert RemoveFirst(s, x) == [s[0]] + rest;
        assert ([s[0]] + rest)[0] == s[0] && ([s[0]] + rest)[1..] == rest;
        if p(s[0]) {
          assert Filter(s, p) == [s[0]] + fs;
          assert Filter([s[0]] + rest, p) == [s[0]] + Filter(rest, p);
          assert ([s[0]] + fs)[0] == s[0] && ([s[0]] + fs)[1..] == fs;
        } else {
          assert Filter(s, p) == fs;
          assert Filter([s[0]] + rest, p) == Filter(rest, p);
        }
      }
    }
  }

  /** The number of selected documents after a `findOneAndDelete`: one fewer
      exactly when a matching document existed and the query selects it. */
  lemma FilterCountRemoveFirst<T(!new)>(s: seq<T>, x: T, p: T -> bool)
    ensures |Filter(RemoveFirst(s, x), p)| == |Filter(s, p)| - (if x in s && p(x) then 1 else 0)
  {
    if p(x) {
      FilterRemoveSelected(s, x, p);
    } else {
      FilterRemoveUnselected(s, x, p);
    }
  }

  predicate IsHexDigit(c: char) {
    '0' <= c <= '9' || 'a' <= c <= 'f' || 'A' <= c <= 'F'
  }

  /** `mongoose.isValidObjectId` on a string, by the BSON rule: twelve
      characters (raw bytes) or twenty-four hexadecimal digits. */
  predicate IsValidObjectId(s: string) {
    |s| == 12 || (|s| == 24 && forall i :: 0 <= i < |s| ==> IsHexDigit(s[i]))
  }
}
