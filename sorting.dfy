/**
 * The stable ordering of `Array.prototype.sort` with a comparator on keys, as the reports use it:
 * descending by an optional integer key, where a missing key (an unparsable date, `NaN`) sorts last.
 */
module Sorting {
  import opened Wrappers

  /** `a` may stand before `b` in descending order; a missing key ranks below every present one. */
  predicate Ranks(a: Option<int>, b: Option<int>) {
    b.None? || (a.Some? && a.value >= b.value)
  }

  predicate SortedDesc<T>(xs: seq<T>, key: T -> Option<int>) {
    forall i, j :: 0 <= i < j < |xs| ==> Ranks(key(xs[i]), key(xs[j]))
  }

  /** Inserts `x` after every element that ranks at least as high, keeping equal keys in arrival order. */
  function Insert<T>(x: T, ys: seq<T>, key: T -> Option<int>): (r: seq<T>)
    ensures |r| == |ys| + 1
  {
    if ys == [] then [x]
    else if Ranks(key(ys[0]), key(x)) then [ys[0]] + Insert(x, ys[1..], key)
    else [x] + ys
  }

  /** The stable descending sort: insertion of each element, in input order. */
  function SortDesc<T>(xs: seq<T>, key: T -> Option<int>): (r: seq<T>)
    ensures |r| == |xs|
  {
    if xs == [] then [] else Insert(xs[|xs| - 1], SortDesc(xs[..|xs| - 1], key), key)
  }

  lemma {:induction false} InsertPermutes<T>(x: T, ys: seq<T>, key: T -> Option<int>)
    ensures multiset(Insert(x, ys, key)) == multiset(ys) + multiset{x}
  {
    if ys != [] && Ranks(key(ys[0]), key(x)) {
      InsertPermutes(x, ys[1..], key);
      assert ys == [ys[0]] + ys[1..];
    }
  }

  lemma {:induction false} InsertSorted<T>(x: T, ys: seq<T>, key: T -> Option<int>)
    requires SortedDesc(ys, key)
    ensures SortedDesc(Insert(x, ys, key), key)
  {
    if ys != [] && Ranks(key(ys[0]), key(x)) {
      var rest := Insert(x, ys[1..], key);
      InsertSorted(x, ys[1..], key);
      InsertPermutes(x, ys[1..], key);
      forall j | 0 <= j < |rest|
        ensures Ranks(key(ys[0]), key(rest[j]))
      {
        assert rest[j] in multiset(rest);
        if rest[j] != x {
          assert rest[j] in multiset(ys[1..]);
          var k :| 0 <= k < |ys[1..]| && ys[1..][k] == rest[j];
          assert ys[k + 1] == rest[j];
        }
      }
    }
  }

  /** The sort orders by descending key and only rearranges its input. */
  lemma {:induction false} SortDescSpec<T>(xs: seq<T>, key: T -> Option<int>)
    ensures SortedDesc(SortDesc(xs, key), key)
    ensures multiset(SortDesc(xs, key)) == multiset(xs)
  {
    if xs != [] {
      var init := xs[..|xs| - 1];
      SortDescSpec(init, key);
      InsertSorted(xs[|xs| - 1], SortDesc(init, key), key);
      InsertPermutes(xs[|xs| - 1], SortDesc(init, key), key);
      assert xs == init + [xs[|xs| - 1]];
    }
  }

  /** Elements with the same key keep their input order: an input already in order is left as it is. */
  lemma {:induction false} SortDescKeepsSorted<T>(xs: seq<T>, key: T -> Option<int>)
    requires SortedDesc(xs, key)
    ensures SortDesc(xs, key) == xs
  {
    if xs != [] {
      var init := xs[..|xs| - 1];
      var x := xs[|xs| - 1];
      assert SortedDesc(init, key);
      SortDescKeepsSorted(init, key);
      InsertAtEnd(x, init, key);
      assert xs == init + [x];
    }
  }

  lemma {:induction false} InsertAtEnd<T>(x: T, ys: seq<T>, key: T -> Option<int>)
    requires forall k :: 0 <= k < |ys| ==> Ranks(key(ys[k]), key(x))
    ensures Insert(x, ys, key) == ys + [x]
  {
    if ys != [] {
      InsertAtEnd(x, ys[1..], key);
      assert ys == [ys[0]] + ys[1..];
    }
  }

  ghost predicate NoDuplicates<T>(xs: seq<T>) {
    forall i, j :: 0 <= i < j < |xs| ==> xs[i] != xs[j]
  }

  /** Sorting a list without repeated elements repeats none. */
  lemma SortDescNoDuplicates<T>(xs: seq<T>, key: T -> Option<int>)
    requires NoDuplicates(xs)
    ensures NoDuplicates(SortDesc(xs, key))
  {
    var r := SortDesc(xs, key);
    SortDescSpec(xs, key);
    forall i, j | 0 <= i < j < |r|
      ensures r[i] != r[j]
    {
      if r[i] == r[j] {
        TwoPositions(r, i, j);
        AtMostOnce(xs, r[i]);
        assert false;
      }
    }
  }

  lemma TwoPositions<T>(s: seq<T>, i: nat, j: nat)
    requires i < j < |s| && s[i] == s[j]
    ensures multiset(s)[s[i]] >= 2
  {
    assert s == s[..j] + s[j..];
    assert s[i] == s[..j][i];
    assert s[j] == s[j..][0];
  }

  lemma {:induction false} AtMostOnce<T>(xs: seq<T>, x: T)
    requires NoDuplicates(xs)
    ensures multiset(xs)[x] <= 1
  {
    if xs != [] {
      var init := xs[..|xs| - 1];
      AtMostOnce(init, x);
      assert xs == init + [xs[|xs| - 1]];
      if x == xs[|xs| - 1] {
        assert x !in init;
      }
    }
  }

  /** Each position of the sorted list holds an element of the input. */
  lemma SortedFrom<T>(xs: seq<T>, key: T -> Option<int>, p: nat) returns (a: nat)
    requires p < |xs|
    ensures a < |xs| && SortDesc(xs, key)[p] == xs[a]
  {
    SortDescSpec(xs, key);
    assert SortDesc(xs, key)[p] in multiset(SortDesc(xs, key));
    a :| a < |xs| && xs[a] == SortDesc(xs, key)[p];
  }

  /** Each element of the input is somewhere in the sorted list. */
  lemma SortedHas<T>(xs: seq<T>, key: T -> Option<int>, a: nat) returns (p: nat)
    requires a < |xs|
    ensures p < |xs| && SortDesc(xs, key)[p] == xs[a]
  {
    SortDescSpec(xs, key);
    assert xs[a] in multiset(xs);
    p :| p < |xs| && SortDesc(xs, key)[p] == xs[a];
  }
}
