/** The optional value used wherever the source writes `null`, `undefined` or `NaN`. */
module Wrappers {

  datatype Option<+T> = None | Some(value: T) {

    /** The carried value, or `default` when there is none (JavaScript's `x || default`). */
    function GetOr(default: T): T {
      match this
      case Some(v) => v
      case None => default
    }

    /** The carried value as a list of one, or the empty list. */
    function ToSeq(): seq<T>
    {
      match this
      case Some(v) => [v]
      case None => []
    }
  }

  /** The carried values of `xs`, in order: a loop that pushes only what it found. */
  function Somes<T>(xs: seq<Option<T>>): seq<T>
  {
    if xs == [] then []
    else Somes(xs[..|xs| - 1]) + xs[|xs| - 1].ToSeq()
  }

  /** Pushing one more optional value. */
  lemma SomesSnoc<T>(xs: seq<Option<T>>, x: Option<T>)
    ensures Somes(xs + [x]) == Somes(xs) + x.ToSeq()
  {
    assert (xs + [x])[..|xs|] == xs;
  }

  /** The values of two lists one after the other. */
  lemma {:induction false} SomesAppend<T>(xs: seq<Option<T>>, ys: seq<Option<T>>)
    ensures Somes(xs + ys) == Somes(xs) + Somes(ys)
  {
    if ys == [] {
      assert xs + ys == xs;
    } else {
      var init, last := ys[..|ys| - 1], ys[|ys| - 1];
      assert ys == init + [last];
      assert xs + ys == (xs + init) + [last];
      calc {
        Somes(xs + ys);
        { SomesSnoc(xs + init, last); }
        Somes(xs + init) + last.ToSeq();
        { SomesAppend(xs, init); }
        (Somes(xs) + Somes(init)) + last.ToSeq();
        Somes(xs) + (Somes(init) + last.ToSeq());
        { SomesSnoc(init, last); }
        Somes(xs) + Somes(ys);
      }
    }
  }

  /** A value is kept exactly when some position of `xs` carries it. */
  lemma SomesMember<T>(xs: seq<Option<T>>, v: T)
    ensures v in Somes(xs) <==> exists i :: 0 <= i < |xs| && xs[i] == Some(v)
  {
    if v in Somes(xs) {
      var i := SomesFrom(xs, v);
    }
    if exists i :: 0 <= i < |xs| && xs[i] == Some(v) {
      var i :| 0 <= i < |xs| && xs[i] == Some(v);
      SomesHas(xs, i);
    }
  }

  /** The position a kept value comes from. */
  lemma {:induction false} SomesFrom<T>(xs: seq<Option<T>>, v: T) returns (i: nat)
    requires v in Somes(xs)
    ensures i < |xs| && xs[i] == Some(v)
  {
    var init := xs[..|xs| - 1];
    if v in Somes(init) {
      i := SomesFrom(init, v);
      assert xs[i] == init[i];
    } else {
      i := |xs| - 1;
    }
  }

  lemma {:induction false} SomesHas<T>(xs: seq<Option<T>>, i: nat)
    requires i < |xs| && xs[i].Some?
    ensures xs[i].value in Somes(xs)
  {
    var init := xs[..|xs| - 1];
    if i < |init| {
      SomesHas(init, i);
      assert init[i] == xs[i];
    }
  }

  /** Only Some positions contribute: the length is at most that of `xs`. */
  lemma {:induction false} SomesLength<T>(xs: seq<Option<T>>)
    ensures |Somes(xs)| <= |xs|
  {
    if xs != [] { SomesLength(xs[..|xs| - 1]); }
  }
}
