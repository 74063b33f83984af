/**
  Calls that may throw, and loops of such calls. An exception leaves behind the
  state reached when it was thrown and ends every loop around it.
 */
module Outcomes {

  datatype Option<T> = None | Some(value: T)

  datatype Error =
    | KeyImageExists
    | TxExists
    | TxDne
    | BlockExists
    | BlockDne
    | BlockParentDne
    | OutputDne
    | DbError
    | SizeMismatch
    | Undefined  // the C++ code reads past the end of a vector or an unset value

  datatype Outcome<S, R> =
    | Done(state: S, value: R)
    | Threw(state: S, error: Error)

  type Step<!S, !I> = (S, I) -> Outcome<S, ()>

  /** `for (item : items) state = step(state, item);` */
  function Forward<S, I>(step: Step<S, I>, s: S, items: seq<I>): Outcome<S, ()> {
    if items == [] then Done(s, ())
    else
      var front := Forward(step, s, items[..|items| - 1]);
      if front.Threw? then front else step(front.state, items[|items| - 1])
  }

  /** `for (item : reverse(items)) state = step(state, item);` */
  function Backward<S, I>(step: Step<S, I>, s: S, items: seq<I>): Outcome<S, ()>
    decreases |items|
  {
    if items == [] then Done(s, ())
    else
      var last := step(s, items[|items| - 1]);
      if last.Threw? then last else Backward(step, last.state, items[..|items| - 1])
  }

  lemma SplitLast<T>(xs: seq<T>)
    requires xs != []
    ensures xs[..|xs| - 1] + [xs[|xs| - 1]] == xs
  {
  }

  lemma FrontOfConcat<T>(xs: seq<T>, ys: seq<T>)
    requires ys != []
    ensures var all := xs + ys;
            all[..|all| - 1] == xs + ys[..|ys| - 1] && all[|all| - 1] == ys[|ys| - 1]
  {
  }

  lemma FrontOfFront<T>(xs: seq<T>, k: nat)
    requires k < |xs|
    ensures xs[..|xs| - 1][..k] == xs[..k]
  {
  }

  /** What stopped a loop on its first `k` items stops it on all of them. */
  lemma {:induction false} ForwardThrowsOnce<S, I>(step: Step<S, I>, s: S, items: seq<I>, k: nat)
    requires k <= |items|
    requires Forward(step, s, items[..k]).Threw?
    ensures Forward(step, s, items) == Forward(step, s, items[..k])
  {
    var n := |items|;
    if k == n {
      assert items[..k] == items;
    } else {
      assert items[..n - 1][..k] == items[..k];
      ForwardThrowsOnce(step, s, items[..n - 1], k);
    }
  }

  /** One more round of a loop. */
  lemma ForwardNext<S, I>(step: Step<S, I>, s: S, items: seq<I>, i: nat, now: S)
    requires i < |items| && Forward(step, s, items[..i]) == Done(now, ())
    ensures Forward(step, s, items[..i + 1]) == step(now, items[i])
    ensures step(now, items[i]).Threw? ==> Forward(step, s, items) == step(now, items[i])
  {
    assert items[..i + 1][..i] == items[..i];
    if step(now, items[i]).Threw? {
      ForwardThrowsOnce(step, s, items, i + 1);
    }
  }

  lemma BackwardNext<S, I>(step: Step<S, I>, s: S, items: seq<I>, i: nat)
    requires i < |items|
    ensures var last := step(s, items[i]);
            Backward(step, s, items[..i + 1])
            == if last.Threw? then last else Backward(step, last.state, items[..i])
  {
    assert items[..i + 1][..i] == items[..i];
  }

  lemma BackwardOne<S, I>(step: Step<S, I>, s: S, item: I)
    ensures Backward(step, s, [item]) == step(s, item)
  {
    assert [item][..0] == [];
    var r := step(s, item);
    assert r.Done? ==> r.value == ();
  }

  lemma ForwardPrefix<S, I>(step: Step<S, I>, s: S, items: seq<I>, k: nat)
    requires k <= |items|
    requires Forward(step, s, items).Done?
    ensures Forward(step, s, items[..k]).Done?
  {
    if Forward(step, s, items[..k]).Threw? {
      ForwardThrowsOnce(step, s, items, k);
    }
  }

  /** The round on item `k` of a loop that completes. */
  lemma ForwardAt<S, I>(step: Step<S, I>, s: S, items: seq<I>, k: nat)
    requires k < |items| && Forward(step, s, items).Done?
    ensures Forward(step, s, items[..k]).Done? && Forward(step, s, items[..k + 1]).Done?
    ensures step(Forward(step, s, items[..k]).state, items[k]) == Forward(step, s, items[..k + 1])
  {
    ForwardPrefix(step, s, items, k);
    ForwardPrefix(step, s, items, k + 1);
    assert items[..k + 1][..k] == items[..k];
  }

  /** What every round keeps, the loop keeps. */
  lemma {:induction false} ForwardKeeps<S(!new), I(!new)>(step: Step<S, I>, s: S, items: seq<I>, inv: S -> bool)
    requires forall s, item | item in items && inv(s) && step(s, item).Done? :: inv(step(s, item).state)
    requires inv(s) && Forward(step, s, items).Done?
    ensures inv(Forward(step, s, items).state)
  {
    if items != [] {
      ForwardKeeps(step, s, items[..|items| - 1], inv);
    }
  }

  lemma {:induction false} BackwardKeeps<S(!new), I(!new)>(step: Step<S, I>, s: S, items: seq<I>, inv: S -> bool)
    requires forall s, item | item in items && inv(s) && step(s, item).Done? :: inv(step(s, item).state)
    requires inv(s) && Backward(step, s, items).Done?
    ensures inv(Backward(step, s, items).state)
    decreases |items|
  {
    if items != [] {
      var last := items[|items| - 1];
      BackwardKeeps(step, step(s, last).state, items[..|items| - 1], inv);
    }
  }

  /** A loop that throws does so as one of its rounds does, from a state that the rounds before it kept. */
  lemma {:induction false} BackwardThrows<S(!new), I(!new)>(
      step: Step<S, I>, s: S, items: seq<I>, inv: S -> bool, may: Error -> bool)
    requires forall s, item | item in items && inv(s) && step(s, item).Done? :: inv(step(s, item).state)
    requires forall s, item | item in items && inv(s) && step(s, item).Threw? :: may(step(s, item).error)
    requires inv(s) && Backward(step, s, items).Threw?
    ensures may(Backward(step, s, items).error)
    decreases |items|
  {
    var last := items[|items| - 1];
    if step(s, last).Done? {
      BackwardThrows(step, step(s, last).state, items[..|items| - 1], inv, may);
    }
  }

  function Sum<I>(weight: I -> int, items: seq<I>): int {
    if items == [] then 0 else Sum(weight, items[..|items| - 1]) + weight(items[|items| - 1])
  }

  /** A quantity that every round changes by the item's weight changes by the sum of the weights. */
  lemma {:induction false} ForwardCounts<S(!new), I(!new)>(
      step: Step<S, I>, s: S, items: seq<I>, measure: S -> int, weight: I -> int)
    requires forall s, item | item in items && step(s, item).Done? ::
               measure(step(s, item).state) == measure(s) + weight(item)
    requires Forward(step, s, items).Done?
    ensures measure(Forward(step, s, items).state) == measure(s) + Sum(weight, items)
  {
    if items != [] {
      ForwardCounts(step, s, items[..|items| - 1], measure, weight);
    }
  }

  lemma {:induction false} BackwardCounts<S(!new), I(!new)>(
      step: Step<S, I>, s: S, items: seq<I>, measure: S -> int, weight: I -> int)
    requires forall s, item | item in items && step(s, item).Done? ::
               measure(step(s, item).state) == measure(s) + weight(item)
    requires Backward(step, s, items).Done?
    ensures measure(Backward(step, s, items).state) == measure(s) + Sum(weight, items)
    decreases |items|
  {
    if items != [] {
      var last := items[|items| - 1];
      BackwardCounts(step, step(s, last).state, items[..|items| - 1], measure, weight);
    }
  }

  /** One sum bounds another term by term, and equal sums have equal terms. */
  lemma {:induction false} SumsCompare<I>(lower: I -> int, upper: I -> int, items: seq<I>)
    requires forall item | item in items :: lower(item) <= upper(item)
    ensures Sum(lower, items) <= Sum(upper, items)
    ensures Sum(lower, items) == Sum(upper, items) ==> forall item | item in items :: lower(item) == upper(item)
  {
    if items != [] {
      var n := |items|;
      SumsCompare(lower, upper, items[..n - 1]);
      assert items == items[..n - 1] + [items[n - 1]];
    }
  }
}
