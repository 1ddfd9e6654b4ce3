/** Optional values and results that carry an error. */
module Wrappers {

  datatype Option<+T> = None | Some(value: T)

  datatype Result<+T, +E> = Ok(value: T) | Err(error: E) {
    predicate IsFailure() { Err? }

    function PropagateFailure<U>(): Result<U, E>
      requires Err?
    {
      Err(error)
    }

    function Extract(): T
      requires Ok?
    {
      value
    }
  }

  /** Every element converted in order, or the error of the first one that cannot be. */
  function Traverse<A, B, E>(f: A -> Result<B, E>, xs: seq<A>): (r: Result<seq<B>, E>)
    ensures r.Ok? ==> |r.value| == |xs| && forall i :: 0 <= i < |xs| ==> f(xs[i]) == Ok(r.value[i])
    ensures r.Err? ==> exists i :: 0 <= i < |xs| && f(xs[i]) == Err(r.error)
  {
    if xs == [] then Ok([])
    else
      var before := Traverse(f, xs[..|xs| - 1]);
      if before.Err? then before
      else
        var last := f(xs[|xs| - 1]);
        if last.Err? then Err(last.error) else Ok(before.value + [last.value])
  }

  lemma {:induction false} TraverseFirstError<A, B, E>(f: A -> Result<B, E>, xs: seq<A>, i: nat)
    requires i < |xs| && Traverse(f, xs[..i]).Ok? && f(xs[i]).Err?
    ensures Traverse(f, xs) == Err(f(xs[i]).error)
  {
    var before := xs[..|xs| - 1];
    if i == |xs| - 1 {
      assert before == xs[..i];
    } else {
      assert before[..i] == xs[..i];
      TraverseFirstError(f, before, i);
    }
  }

  lemma TraverseSnoc<A, B, E>(f: A -> Result<B, E>, xs: seq<A>, x: A)
    requires Traverse(f, xs).Ok? && f(x).Ok?
    ensures Traverse(f, xs + [x]) == Ok(Traverse(f, xs).value + [f(x).value])
  {
    assert (xs + [x])[..|xs + [x]| - 1] == xs;
  }

  /** Keeps the first occurrence of every element. */
  function Distinct<T(==,!new)>(xs: seq<T>): (r: seq<T>)
    ensures forall x :: x in r <==> x in xs
    ensures forall i, j :: 0 <= i < j < |r| ==> r[i] != r[j]
    ensures |r| <= |xs|
    ensures |r| == |xs| ==> r == xs
  {
    if xs == [] then []
    else
      var before := Distinct(xs[..|xs| - 1]);
      assert xs == xs[..|xs| - 1] + [xs[|xs| - 1]];
      if xs[|xs| - 1] in before then before else before + [xs[|xs| - 1]]
  }

  lemma DistinctSnoc<T(!new)>(xs: seq<T>, x: T)
    ensures Distinct(xs + [x]) == if x in Distinct(xs) then Distinct(xs) else Distinct(xs) + [x]
  {
    assert (xs + [x])[..|xs + [x]| - 1] == xs;
  }

  lemma {:induction false} DistinctOfDistinct<T(!new)>(xs: seq<T>)
    requires forall i, j :: 0 <= i < j < |xs| ==> xs[i] != xs[j]
    ensures Distinct(xs) == xs
  {
    if xs != [] {
      var before := xs[..|xs| - 1];
      DistinctOfDistinct(before);
      assert xs == before + [xs[|xs| - 1]];
    }
  }

  /** The order of first occurrences is kept. */
  lemma {:induction false} DistinctKeepsOrder<T(!new)>(xs: seq<T>, i: nat, j: nat) returns (k: nat, l: nat)
    requires i < j < |xs|
    requires xs[i] !in xs[..i] && xs[j] !in xs[..j]
    ensures k < l < |Distinct(xs)| && Distinct(xs)[k] == xs[i] && Distinct(xs)[l] == xs[j]
  {
    var before := xs[..|xs| - 1];
    if j == |xs| - 1 {
      assert before[i] == xs[i];
      assert xs[i] in Distinct(before);
      k :| 0 <= k < |Distinct(before)| && Distinct(before)[k] == xs[i];
      l := |Distinct(before)|;
    } else {
      assert before[..i] == xs[..i] && before[..j] == xs[..j];
      k, l := DistinctKeepsOrder(before, i, j);
    }
  }
}
