/**
 * Global regular-expression scanning as `while ((match = re.exec(text)) !== null)` does it: each
 * search starts at `lastIndex`, takes the leftmost position where the pattern matches, and sets
 * `lastIndex` to the end of that match. A pattern is given by the match it makes at each position.
 */
module Scanning {
  import opened Wrappers

  /** One match: where it starts, where it ends, and what its groups captured. */
  datatype Hit<M> = Hit(start: nat, end: nat, data: M)

  /** `at(p)` is the match that starts exactly at `p`, if any; every match is non-empty and lies
      within a text of length `n`. */
  ghost predicate Matcher<M>(at: nat -> Option<Hit<M>>, n: nat) {
    forall p: nat :: at(p).Some? ==> at(p).value.start == p && p < at(p).value.end <= n
  }

  /** The leftmost position at or after `from` where the pattern matches. */
  function Next<M>(at: nat -> Option<Hit<M>>, n: nat, from: nat): (r: Option<nat>)
    ensures r.Some? ==> from <= r.value < n && at(r.value).Some?
    decreases n - from
  {
    if from >= n then None
    else if at(from).Some? then Some(from)
    else Next(at, n, from + 1)
  }

  /** The matches of the `exec` loop started with `lastIndex = from`, in order. */
  function Scan<M>(at: nat -> Option<Hit<M>>, n: nat, from: nat): seq<Hit<M>>
    requires Matcher(at, n) && from <= n
    decreases n - from
  {
    match Next(at, n, from)
    case None => []
    case Some(p) => [at(p).value] + Scan(at, n, at(p).value.end)
  }

  /** Next skips exactly the positions where the pattern does not match. */
  lemma {:induction false} NextSpec<M>(at: nat -> Option<Hit<M>>, n: nat, from: nat)
    ensures Next(at, n, from).None? <==> forall p :: from <= p < n ==> at(p).None?
    ensures Next(at, n, from).Some? ==> forall p :: from <= p < Next(at, n, from).value ==> at(p).None?
    decreases n - from
  {
    if from < n && at(from).None? {
      NextSpec(at, n, from + 1);
    }
  }

  /** The scan yields real matches, each starting at or after the previous one's end. */
  lemma {:induction false} ScanSound<M>(at: nat -> Option<Hit<M>>, n: nat, from: nat)
    requires Matcher(at, n) && from <= n
    ensures forall k :: 0 <= k < |Scan(at, n, from)| ==>
      from <= Scan(at, n, from)[k].start && at(Scan(at, n, from)[k].start) == Some(Scan(at, n, from)[k])
    ensures forall k :: 0 <= k < |Scan(at, n, from)| - 1 ==> Scan(at, n, from)[k].end <= Scan(at, n, from)[k + 1].start
    decreases n - from
  {
    match Next(at, n, from)
    case None =>
      assert Scan(at, n, from) == [];
    case Some(p) =>
      var h := at(p).value;
      var rest := Scan(at, n, h.end);
      ScanSound(at, n, h.end);
      var hs := Scan(at, n, from);
      assert hs == [h] + rest;
      assert h.start == p && at(p) == Some(h);
      forall k | 0 <= k < |hs|
        ensures from <= hs[k].start && at(hs[k].start) == Some(hs[k])
      {
        if k > 0 {
          assert hs[k] == rest[k - 1];
        }
      }
      forall k | 0 <= k < |hs| - 1
        ensures hs[k].end <= hs[k + 1].start
      {
        if k > 0 { assert hs[k] == rest[k - 1] && hs[k + 1] == rest[k]; }
      }
  }

  /** The scan misses no match: every position where the pattern matches is the start of a match
      of the scan or lies inside one (the scan's matches do not overlap). */
  lemma {:induction false} ScanComplete<M>(at: nat -> Option<Hit<M>>, n: nat, from: nat, p: nat)
    returns (k: nat)
    requires Matcher(at, n) && from <= p < n && at(p).Some?
    ensures k < |Scan(at, n, from)| && Scan(at, n, from)[k].start <= p < Scan(at, n, from)[k].end
    decreases n - from
  {
    NextSpec(at, n, from);
    var q := Next(at, n, from).value;
    var h := at(q).value;
    assert Scan(at, n, from) == [h] + Scan(at, n, h.end);
    if p < h.end {
      k := 0;
    } else {
      var k' := ScanComplete(at, n, h.end, p);
      k := k' + 1;
    }
  }

  /** The first match of a non-global search (`text.match(re)`): the match at Next. */
  function First<M>(at: nat -> Option<Hit<M>>, n: nat): (r: Option<Hit<M>>)
    ensures r.Some? ==> at(r.value.start) == r
    requires Matcher(at, n)
  {
    match Next(at, n, 0)
    case None => None
    case Some(p) => at(p)
  }

  /** A non-global search finds nothing exactly when the pattern matches nowhere, and otherwise
      finds the match at the leftmost position where there is one. */
  lemma FirstSpec<M>(at: nat -> Option<Hit<M>>, n: nat)
    requires Matcher(at, n)
    ensures First(at, n).None? <==> forall p :: 0 <= p < n ==> at(p).None?
    ensures First(at, n).Some? ==> forall p :: 0 <= p < First(at, n).value.start ==> at(p).None?
  {
    NextSpec(at, n, 0);
  }

  /** What the loop body pushes for each match, if anything. */
  function Pushes<M, R>(f: Hit<M> -> Option<R>, hs: seq<Hit<M>>): (os: seq<Option<R>>)
    ensures |os| == |hs|
  {
    seq(|hs|, k requires 0 <= k < |hs| => f(hs[k]))
  }

  /** Everything the `exec` loop pushes, from `lastIndex = 0` until no match remains. */
  function Gathered<M, R>(at: nat -> Option<Hit<M>>, n: nat, f: Hit<M> -> Option<R>): seq<R>
    requires Matcher(at, n)
  {
    Somes(Pushes(f, Scan(at, n, 0)))
  }

  /** The loop `while ((match = re.exec(text)) !== null) { ... push ... }`, appending to `found`. */
  method Gather<M, R>(at: nat -> Option<Hit<M>>, n: nat, f: Hit<M> -> Option<R>, found: seq<R>)
    returns (found': seq<R>)
    requires Matcher(at, n)
    ensures found' == found + Gathered(at, n, f)
  {
    found' := found;
    var last := 0;
    while true
      invariant last <= n
      invariant found' + Somes(Pushes(f, Scan(at, n, last))) == found + Gathered(at, n, f)
      decreases n - last
    {
      var next := Next(at, n, last);
      if next.None? {
        break;
      }
      var h := at(next.value).value;
      GatherStep(at, n, f, last);
      var pushed := f(h);
      ghost var later := Somes(Pushes(f, Scan(at, n, h.end)));
      if pushed.Some? {
        assert (found' + [pushed.value]) + later == found' + ([pushed.value] + later);
        found' := found' + [pushed.value];
      } else {
        assert ([] + later) == later;
      }
      last := h.end;
    }
  }

  /** One turn of the loop: what the body pushes for the match at Next comes before everything
      the rest of the scan pushes. */
  lemma GatherStep<M, R>(at: nat -> Option<Hit<M>>, n: nat, f: Hit<M> -> Option<R>, last: nat)
    requires Matcher(at, n) && last <= n
    ensures Next(at, n, last).None? ==> Somes(Pushes(f, Scan(at, n, last))) == []
    ensures Next(at, n, last).Some? ==>
      var h := at(Next(at, n, last).value).value;
      Somes(Pushes(f, Scan(at, n, last)))
        == f(h).ToSeq() + Somes(Pushes(f, Scan(at, n, h.end)))
  {
    if Next(at, n, last).Some? {
      var h := at(Next(at, n, last).value).value;
      var rest := Scan(at, n, h.end);
      assert Scan(at, n, last) == [h] + rest;
      assert Pushes(f, [h] + rest) == [f(h)] + Pushes(f, rest);
      SomesAppend([f(h)], Pushes(f, rest));
      assert Somes([f(h)]) == Somes([f(h)][..0]) + f(h).ToSeq();
    } else {
      assert Scan(at, n, last) == [];
    }
  }

  /** Every match whose body pushes a value contributes it. */
  lemma GatheredHas<M, R>(at: nat -> Option<Hit<M>>, n: nat, f: Hit<M> -> Option<R>, k: nat)
    requires Matcher(at, n) && k < |Scan(at, n, 0)| && f(Scan(at, n, 0)[k]).Some?
    ensures f(Scan(at, n, 0)[k]).value in Gathered(at, n, f)
  {
    SomesHas(Pushes(f, Scan(at, n, 0)), k);
  }

  /** Every value gathered was pushed for some match. */
  lemma GatheredFrom<M, R>(at: nat -> Option<Hit<M>>, n: nat, f: Hit<M> -> Option<R>, v: R) returns (k: nat)
    requires Matcher(at, n) && v in Gathered(at, n, f)
    ensures k < |Scan(at, n, 0)| && f(Scan(at, n, 0)[k]) == Some(v)
  {
    k := SomesFrom(Pushes(f, Scan(at, n, 0)), v);
  }

  /** A body that pushes for every match gathers one value per match, in order. */
  lemma GatheredAll<M, R>(at: nat -> Option<Hit<M>>, n: nat, f: Hit<M> -> Option<R>)
    requires Matcher(at, n) && forall h :: f(h).Some?
    ensures |Gathered(at, n, f)| == |Scan(at, n, 0)|
    ensures forall k :: 0 <= k < |Scan(at, n, 0)| ==> Some(Gathered(at, n, f)[k]) == f(Scan(at, n, 0)[k])
  {
    AllSome(Pushes(f, Scan(at, n, 0)));
  }

  lemma {:induction false} AllSome<R>(os: seq<Option<R>>)
    requires forall k :: 0 <= k < |os| ==> os[k].Some?
    ensures |Somes(os)| == |os| && forall k :: 0 <= k < |os| ==> Some(Somes(os)[k]) == os[k]
  {
    if os != [] {
      AllSome(os[..|os| - 1]);
      assert Somes(os) == Somes(os[..|os| - 1]) + [os[|os| - 1].value];
    }
  }
}
