/** The stable sort of `Array.prototype.sort`. */
module Sorting {
  ghost predicate TotalPreorder<T(!new)>(le: (T, T) -> bool) {
    && (forall a, b :: le(a, b) || le(b, a))
    && (forall a, b, c :: le(a, b) && le(b, c) ==> le(a, c))
  }

  predicate Ordered<T>(le: (T, T) -> bool, s: seq<T>) {
    forall i, j | 0 <= i < j < |s| :: le(s[i], s[j])
  }

  function Insert<T>(le: (T, T) -> bool, x: T, s: seq<T>): seq<T> {
    if s == [] || le(x, s[0]) then [x] + s else [s[0]] + Insert(le, x, s[1..])
  }

  function Sort<T>(le: (T, T) -> bool, s: seq<T>): seq<T> {
    if s == [] then [] else Insert(le, s[0], Sort(le, s[1..]))
  }

  /** The elements of `s` that compare equal to `a`, in their order. */
  function Ties<T>(le: (T, T) -> bool, a: T, s: seq<T>): seq<T> {
    if s == [] then []
    else if le(a, s[0]) && le(s[0], a) then [s[0]] + Ties(le, a, s[1..])
    else Ties(le, a, s[1..])
  }

  lemma {:induction false} InsertPermutes<T>(le: (T, T) -> bool, x: T, s: seq<T>)
    ensures multiset(Insert(le, x, s)) == multiset(s) + multiset{x}
    ensures |Insert(le, x, s)| == |s| + 1
  {
    if s != [] && !le(x, s[0]) {
      InsertPermutes(le, x, s[1..]);
      assert s == [s[0]] + s[1..];
    }
  }

  lemma {:induction false} InsertKeepsOrder<T(!new)>(le: (T, T) -> bool, x: T, s: seq<T>)
    requires TotalPreorder(le) && Ordered(le, s)
    ensures Ordered(le, Insert(le, x, s))
  {
    if s != [] && !le(x, s[0]) {
      InsertKeepsOrder(le, x, s[1..]);
      InsertPermutes(le, x, s[1..]);
      var t := Insert(le, x, s[1..]);
      forall j | 0 <= j < |t|
        ensures le(s[0], t[j])
      {
        assert t[j] in multiset(t);
        assert t[j] in multiset(s[1..]) + multiset{x};
      }
    }
  }

  lemma {:induction false} InsertKeepsTies<T(!new)>(le: (T, T) -> bool, a: T, x: T, s: seq<T>)
    requires TotalPreorder(le)
    ensures Ties(le, a, Insert(le, x, s)) == Ties(le, a, [x] + s)
  {
    assert ([x] + s)[1..] == s;
    if s != [] && !le(x, s[0]) {
      var t := Insert(le, x, s[1..]);
      InsertKeepsTies(le, a, x, s[1..]);
      assert ([x] + s[1..])[1..] == s[1..];
      assert ([s[0]] + t)[1..] == t;
    }
  }

  /** The result is a permutation of the input, in order, and elements that compare
      equal stay in the order they came in. */
  lemma {:induction false} SortIsStable<T(!new)>(le: (T, T) -> bool, s: seq<T>)
    requires TotalPreorder(le)
    ensures multiset(Sort(le, s)) == multiset(s) && |Sort(le, s)| == |s|
    ensures Ordered(le, Sort(le, s))
    ensures forall a :: Ties(le, a, Sort(le, s)) == Ties(le, a, s)
  {
    hide Insert, TotalPreorder;
    if s != [] {
      var rest := Sort(le, s[1..]);
      SortIsStable(le, s[1..]);
      InsertPermutes(le, s[0], rest);
      InsertKeepsOrder(le, s[0], rest);
      assert s == [s[0]] + s[1..];
      forall a
        ensures Ties(le, a, Sort(le, s)) == Ties(le, a, s)
      {
        InsertKeepsTies(le, a, s[0], rest);
        assert ([s[0]] + rest)[1..] == rest;
      }
    }
  }

  lemma SortKeepsMembers<T(!new)>(le: (T, T) -> bool, s: seq<T>)
    requires TotalPreorder(le)
    ensures forall x :: x in Sort(le, s) <==> x in s
  {
    SortIsStable(le, s);
    forall x
      ensures x in Sort(le, s) <==> x in s
    {
      assert x in Sort(le, s) <==> x in multiset(Sort(le, s));
      assert x in s <==> x in multiset(s);
    }
  }

  /** Every finite set can be read in some order, each element once. */
  ghost function Enumerated<T(!new)>(elements: set<T>): (r: seq<T>)
    ensures forall x :: x in r <==> x in elements
    ensures forall i, j | 0 <= i < j < |r| :: r[i] != r[j]
    ensures |r| == |elements|
  {
    if elements == {} then []
    else
      var x :| x in elements;
      [x] + Enumerated(elements - {x})
  }
}
