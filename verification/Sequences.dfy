/** Projections of sequences, defined once and used for every trace of the model. */
module Sequences {

  /** The concatenation of f over xs, in order; it unfolds from the end, because traces grow there. */
  function Flat<T, U>(f: T -> seq<U>, xs: seq<T>): (r: seq<U>)
  {
    if |xs| == 0 then [] else Flat(f, xs[..|xs| - 1]) + f(xs[|xs| - 1])
  }

  lemma FlatAppend<T, U>(f: T -> seq<U>, xs: seq<T>, x: T)
    ensures Flat(f, xs + [x]) == Flat(f, xs) + f(x)
  {
    assert (xs + [x])[..|xs|] == xs;
  }

  lemma {:induction false} FlatConcat<T, U>(f: T -> seq<U>, xs: seq<T>, ys: seq<T>)
    ensures Flat(f, xs + ys) == Flat(f, xs) + Flat(f, ys)
  {
    if |ys| == 0 {
      assert xs + ys == xs;
    } else {
      var front, last := ys[..|ys| - 1], ys[|ys| - 1];
      assert xs + ys == (xs + front) + [last];
      FlatAppend(f, xs + front, last);
      FlatConcat(f, xs, front);
    }
  }

  lemma FlatSingle<T, U>(f: T -> seq<U>, x: T)
    ensures Flat(f, [x]) == f(x)
  {
    assert [x] == [] + [x];
    FlatAppend(f, [], x);
  }

  /** Projecting a prefix gives a prefix of the projection. */
  lemma FlatPrefix<T, U>(f: T -> seq<U>, xs: seq<T>, ys: seq<T>)
    requires xs <= ys
    ensures Flat(f, xs) <= Flat(f, ys)
  {
    assert ys == xs + ys[|xs|..];
    FlatConcat(f, xs, ys[|xs|..]);
  }

  /** A projection that keeps nothing of any element is empty. */
  lemma {:induction false} FlatNothing<T, U>(f: T -> seq<U>, xs: seq<T>)
    requires forall x :: x in xs ==> f(x) == []
    ensures Flat(f, xs) == []
  {
    if |xs| != 0 {
      assert xs[|xs| - 1] in xs;
      FlatNothing(f, xs[..|xs| - 1]);
    }
  }

  lemma {:induction false} FlatContains<T, U>(f: T -> seq<U>, xs: seq<T>, x: T, u: U)
    requires x in xs && u in f(x)
    ensures u in Flat(f, xs)
  {
    if xs[|xs| - 1] != x {
      FlatContains(f, xs[..|xs| - 1], x, u);
    }
  }

  lemma {:induction false} FlatSource<T, U>(f: T -> seq<U>, xs: seq<T>, u: U) returns (x: T)
    requires u in Flat(f, xs)
    ensures x in xs && u in f(x)
  {
    if u in f(xs[|xs| - 1]) {
      x := xs[|xs| - 1];
    } else {
      x := FlatSource(f, xs[..|xs| - 1], u);
    }
  }

  // ----- what comes before the first element that satisfies a test

  ghost predicate Stops<T>(stop: T -> bool, xs: seq<T>) {
    exists i :: 0 <= i < |xs| && stop(xs[i])
  }

  function Until<T>(stop: T -> bool, xs: seq<T>): (r: seq<T>)
    ensures r <= xs
  {
    if |xs| == 0 || stop(xs[0]) then [] else [xs[0]] + Until(stop, xs[1..])
  }

  lemma StopsSingle<T>(stop: T -> bool, x: T)
    ensures Stops(stop, [x]) <==> stop(x)
  {
    if stop(x) {
      assert stop([x][0]);
    }
  }

  lemma StopsConcat<T>(stop: T -> bool, xs: seq<T>, ys: seq<T>)
    ensures Stops(stop, xs + ys) <==> Stops(stop, xs) || Stops(stop, ys)
  {
    var all := xs + ys;
    if Stops(stop, xs) {
      var i :| 0 <= i < |xs| && stop(xs[i]);
      assert stop(all[i]);
    } else if Stops(stop, ys) {
      var i :| 0 <= i < |ys| && stop(ys[i]);
      assert stop(all[|xs| + i]);
    }
  }

  lemma StopsFirst<T>(stop: T -> bool, xs: seq<T>)
    requires xs != []
    ensures Stops(stop, xs) <==> stop(xs[0]) || Stops(stop, xs[1..])
  {
    hide Stops;
    assert xs == [xs[0]] + xs[1..];
    StopsConcat(stop, [xs[0]], xs[1..]);
    StopsSingle(stop, xs[0]);
  }

  lemma StopsNot<T>(stop: T -> bool)
    ensures !Stops(stop, [])
  {
  }

  /** Nothing behind the first such element matters. */
  lemma {:induction false} UntilStops<T>(stop: T -> bool, xs: seq<T>, ys: seq<T>)
    requires Stops(stop, xs)
    ensures Until(stop, xs + ys) == Until(stop, xs)
  {
    hide Stops;
    if xs == [] {
      StopsNot(stop);
    } else {
      StopsFirst(stop, xs);
      assert (xs + ys)[0] == xs[0] && (xs + ys)[1..] == xs[1..] + ys;
      if !stop(xs[0]) {
        UntilStops(stop, xs[1..], ys);
      }
    }
  }

  lemma {:induction false} UntilGoesOn<T>(stop: T -> bool, xs: seq<T>, ys: seq<T>)
    requires !Stops(stop, xs)
    ensures Until(stop, xs + ys) == xs + Until(stop, ys)
  {
    hide Stops;
    if |xs| == 0 {
      assert xs + ys == ys;
    } else {
      StopsFirst(stop, xs);
      assert (xs + ys)[0] == xs[0] && (xs + ys)[1..] == xs[1..] + ys;
      UntilGoesOn(stop, xs[1..], ys);
    }
  }
}
