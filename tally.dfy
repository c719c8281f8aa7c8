/**
 * The counting dictionaries of the reports: a JavaScript object `counts` updated with
 * `counts[k] = (counts[k] || 0) + w` for each (key, weight) in turn, then listed with
 * `Object.entries`, which gives the keys in the order they were first set.
 */
module Tally {

  /** One update of the dictionary: add `weight` under `key`. */
  datatype Weighted<T> = Weighted(key: T, weight: nat)

  function Keys<T>(ps: seq<Weighted<T>>): (ks: seq<T>)
    ensures |ks| == |ps|
  {
    seq(|ps|, k requires 0 <= k < |ps| => ps[k].key)
  }

  /** The sum of the weights given under `key`. */
  function Total<T(==)>(ps: seq<Weighted<T>>, key: T): nat
  {
    if ps == [] then 0
    else Total(ps[..|ps| - 1], key) + (if ps[|ps| - 1].key == key then ps[|ps| - 1].weight else 0)
  }

  /** The dictionary after every update of `ps`, in order. */
  function Accumulate<T(==)>(ps: seq<Weighted<T>>): map<T, nat>
  {
    if ps == [] then map[]
    else
      var counts := Accumulate(ps[..|ps| - 1]);
      var p := ps[|ps| - 1];
      counts[p.key := (if p.key in counts then counts[p.key] else 0) + p.weight]
  }

  /** The elements of `xs` in the order of their first occurrence. */
  function Distinct<T(==)>(xs: seq<T>): (ds: seq<T>)
    ensures |ds| <= |xs|
  {
    if xs == [] then []
    else
      var init := xs[..|xs| - 1];
      if xs[|xs| - 1] in init then Distinct(init) else Distinct(init) + [xs[|xs| - 1]]
  }

  /** The dictionary holds exactly the keys given, each with the sum of its weights. */
  lemma {:induction false} AccumulateSpec<T>(ps: seq<Weighted<T>>)
    ensures forall key :: key in Accumulate(ps) <==> key in Keys(ps)
    ensures forall key :: key in Accumulate(ps) ==> Accumulate(ps)[key] == Total(ps, key)
    ensures forall key :: key !in Keys(ps) ==> Total(ps, key) == 0
  {
    if ps != [] {
      var init := ps[..|ps| - 1];
      AccumulateSpec(init);
      assert Keys(ps) == Keys(init) + [ps[|ps| - 1].key];
    }
  }

  /** `Object.entries` lists each distinct element once, and lists nothing else. */
  lemma {:induction false} DistinctSpec<T>(xs: seq<T>)
    ensures forall x :: x in Distinct(xs) <==> x in xs
    ensures forall i, j :: 0 <= i < j < |Distinct(xs)| ==> Distinct(xs)[i] != Distinct(xs)[j]
  {
    if xs != [] {
      var init := xs[..|xs| - 1];
      DistinctSpec(init);
      assert xs == init + [xs[|xs| - 1]];
    }
  }

  /** The tally of one more update, on the dictionary and on its key order. */
  lemma UpdateStep<T>(ps: seq<Weighted<T>>, p: Weighted<T>)
    ensures Keys(ps + [p]) == Keys(ps) + [p.key]
    ensures var counts := Accumulate(ps);
      Accumulate(ps + [p]) == counts[p.key := (if p.key in counts then counts[p.key] else 0) + p.weight]
    ensures Distinct(Keys(ps + [p]))
         == if p.key in Accumulate(ps) then Distinct(Keys(ps)) else Distinct(Keys(ps)) + [p.key]
  {
    assert (ps + [p])[..|ps|] == ps;
    assert Keys(ps + [p]) == Keys(ps) + [p.key];
    assert Keys(ps + [p])[..|ps|] == Keys(ps);
    AccumulateSpec(ps);
  }

  /** Updates of weight one count occurrences. */
  function Ones<T>(xs: seq<T>): (ps: seq<Weighted<T>>)
    ensures |ps| == |xs|
  {
    seq(|xs|, k requires 0 <= k < |xs| => Weighted(xs[k], 1))
  }

  lemma {:induction false} OnesCount<T>(xs: seq<T>, key: T)
    ensures Total(Ones(xs), key) == multiset(xs)[key]
    ensures Keys(Ones(xs)) == xs
  {
    if xs != [] {
      var init := xs[..|xs| - 1];
      OnesCount(init, key);
      assert Ones(xs)[..|xs| - 1] == Ones(init);
      assert xs == init + [xs[|xs| - 1]];
    }
  }
}
