/** Fail-fast, order-preserving concatenation: the shape shared by the line
    loop of `fetch` and by `getPrefixes`. Each item is turned into a list or
    an error; the lists are joined in item order, and the first error ends
    the whole run. */
module Collect {
  import opened Types

  /** Appends `b`'s list to `a`'s; an error in `a` wins over anything in `b`. */
  function Join<T>(a: Result<seq<T>>, b: Result<seq<T>>): Result<seq<T>>
  {
    match a
    case Err(_) => a
    case Ok(x) =>
      match b
      case Err(_) => b
      case Ok(y) => Ok(x + y)
  }

  /** Runs `f` over `xs` from first to last, joining the lists. */
  function CollectAll<X, T>(xs: seq<X>, f: X -> Result<seq<T>>): (r: Result<seq<T>>)
    ensures r.Ok? ==> forall i :: 0 <= i < |xs| ==> f(xs[i]).Ok?
    decreases |xs|
  {
    if xs == [] then Ok([])
    else Join(CollectAll(xs[..|xs| - 1], f), f(xs[|xs| - 1]))
  }

  /** A failed run fails with the error of one of its items. */
  lemma {:induction false} CollectAllErrFromItem<X, T>(xs: seq<X>, f: X -> Result<seq<T>>)
    ensures CollectAll(xs, f).Err? ==> exists i :: 0 <= i < |xs| && f(xs[i]) == CollectAll(xs, f)
    decreases |xs|
  {
    if xs != [] {
      var init := xs[..|xs| - 1];
      CollectAllErrFromItem(init, f);
      if CollectAll(init, f).Err? {
        var i :| 0 <= i < |init| && f(init[i]) == CollectAll(init, f);
        assert xs[i] == init[i];
      }
    }
  }

  /** One pass of a loop that runs `f` over `xs`, when the item succeeds:
      the joined list grows by the item's list. */
  lemma CollectAllStep<X, T>(xs: seq<X>, i: nat, f: X -> Result<seq<T>>, acc: seq<T>)
    requires i < |xs| && CollectAll(xs[..i], f) == Ok(acc) && f(xs[i]).Ok?
    ensures CollectAll(xs[..i + 1], f) == Ok(acc + f(xs[i]).value)
  {
    assert xs[..i + 1][..i] == xs[..i] && xs[..i + 1][i] == xs[i];
  }

  /** A loop that runs `f` over `xs` and stops at the first failure, item
      `i`: the failure is the run's result, and every item requested before
      it succeeded. */
  lemma CollectAllStopped<X, T>(xs: seq<X>, i: nat, f: X -> Result<seq<T>>, acc: seq<T>, requested: seq<X>)
    requires i < |xs| && CollectAll(xs[..i], f) == Ok(acc) && f(xs[i]).Err?
    requires requested == xs[..i + 1]
    ensures f(xs[i]) == CollectAll(xs, f)
    ensures requested <= xs && requested != [] && f(xs[i]) == f(requested[|requested| - 1])
    ensures forall j :: 0 <= j < |requested| - 1 ==> f(requested[j]).Ok?
  {
    assert xs[..i + 1][..i] == xs[..i] && xs[..i + 1][i] == xs[i];
    forall j | 0 <= j < |requested| - 1 ensures f(requested[j]).Ok? {
      assert requested[j] == xs[..i][j];
    }
    CollectAllErrPrefix(xs, f, i + 1);
  }

  ghost predicate AllOk<X, T>(xs: seq<X>, f: X -> Result<seq<T>>)
  {
    forall i :: 0 <= i < |xs| ==> f(xs[i]).Ok?
  }

  /** Reference definition of the joined list: the item lists, first to last. */
  function Flat<X, T>(xs: seq<X>, f: X -> Result<seq<T>>): seq<T>
    requires AllOk(xs, f)
    decreases |xs|
  {
    if xs == [] then []
    else
      assert AllOk(xs[1..], f) by {
        forall i | 0 <= i < |xs[1..]| ensures f(xs[1..][i]).Ok? { assert f(xs[i + 1]).Ok?; }
      }
      f(xs[0]).value + Flat(xs[1..], f)
  }

  lemma JoinAssociative<T>(a: Result<seq<T>>, b: Result<seq<T>>, c: Result<seq<T>>)
    ensures Join(Join(a, b), c) == Join(a, Join(b, c))
  {
    if a.Ok? && b.Ok? && c.Ok? {
      assert (a.value + b.value) + c.value == a.value + (b.value + c.value);
    }
  }

  lemma JoinEmpty<T>(a: Result<seq<T>>)
    ensures Join(a, Ok([])) == a && Join(Ok([]), a) == a
  {
    if a.Ok? { assert a.value + [] == a.value; assert [] + a.value == a.value; }
  }

  lemma PrefixOk<X, T>(xs: seq<X>, f: X -> Result<seq<T>>, k: nat)
    requires k <= |xs| && AllOk(xs, f)
    ensures AllOk(xs[..k], f)
  {
    forall i | 0 <= i < k ensures f(xs[..k][i]).Ok? { assert xs[..k][i] == xs[i]; }
  }

  /** The run succeeds exactly when every item succeeds. */
  lemma {:induction false} CollectAllOk<X, T>(xs: seq<X>, f: X -> Result<seq<T>>)
    ensures CollectAll(xs, f).Ok? <==> AllOk(xs, f)
  {
    if xs != [] {
      var init := xs[..|xs| - 1];
      CollectAllOk(init, f);
      if AllOk(xs, f) {
        PrefixOk(xs, f, |xs| - 1);
      }
      if CollectAll(xs, f).Ok? {
        forall i | 0 <= i < |xs| ensures f(xs[i]).Ok? {
          if i < |xs| - 1 { assert init[i] == xs[i]; }
        }
      }
    }
  }

  lemma {:induction false} FlatSnoc<X, T>(xs: seq<X>, f: X -> Result<seq<T>>)
    requires xs != [] && AllOk(xs, f)
    ensures AllOk(xs[..|xs| - 1], f)
    ensures Flat(xs, f) == Flat(xs[..|xs| - 1], f) + f(xs[|xs| - 1]).value
  {
    PrefixOk(xs, f, |xs| - 1);
    if |xs| > 1 {
      assert AllOk(xs[1..], f) by {
        forall i | 0 <= i < |xs[1..]| ensures f(xs[1..][i]).Ok? { assert f(xs[i + 1]).Ok?; }
      }
      FlatSnoc(xs[1..], f);
      assert xs[1..][..|xs| - 2] == xs[..|xs| - 1][1..];
      assert xs[1..][|xs| - 2] == xs[|xs| - 1];
    } else {
      assert xs[..0] == [];
    }
  }

  /** On success the result is the items' lists joined in item order. */
  lemma {:induction false} CollectAllValue<X, T>(xs: seq<X>, f: X -> Result<seq<T>>)
    requires AllOk(xs, f)
    ensures CollectAll(xs, f) == Ok(Flat(xs, f))
  {
    if xs != [] {
      FlatSnoc(xs, f);
      CollectAllValue(xs[..|xs| - 1], f);
    }
  }

  /** An error in a prefix of the items is the error of the whole run. */
  lemma {:induction false} CollectAllErrPrefix<X, T>(xs: seq<X>, f: X -> Result<seq<T>>, k: nat)
    requires k <= |xs| && CollectAll(xs[..k], f).Err?
    ensures CollectAll(xs, f) == CollectAll(xs[..k], f)
  {
    if k < |xs| {
      assert xs[..|xs| - 1][..k] == xs[..k];
      CollectAllErrPrefix(xs[..|xs| - 1], f, k);
    } else {
      assert xs[..k] == xs;
    }
  }

  /** The run returns the error of the first item that fails. */
  lemma {:induction false} CollectAllFirstError<X, T>(xs: seq<X>, f: X -> Result<seq<T>>, k: nat)
    requires k < |xs| && AllOk(xs[..k], f) && f(xs[k]).Err?
    ensures CollectAll(xs, f) == f(xs[k])
  {
    CollectAllOk(xs[..k], f);
    assert xs[..k + 1][..k] == xs[..k];
    assert CollectAll(xs[..k + 1], f) == f(xs[k]);
    CollectAllErrPrefix(xs, f, k + 1);
  }

  /** Items after the first failing one are never consulted: two item
      functions that agree up to and including it give the same run. */
  lemma CollectAllStopsAtFirstError<X, T>(xs: seq<X>, f: X -> Result<seq<T>>, g: X -> Result<seq<T>>, k: nat)
    requires k < |xs| && AllOk(xs[..k], f) && f(xs[k]).Err?
    requires forall i :: 0 <= i <= k ==> f(xs[i]) == g(xs[i])
    ensures CollectAll(xs, f) == CollectAll(xs, g)
  {
    forall i | 0 <= i < k ensures g(xs[..k][i]).Ok? { assert xs[..k][i] == xs[i]; }
    CollectAllFirstError(xs, f, k);
    CollectAllFirstError(xs, g, k);
  }

  /** Running over two lists one after the other is running over their
      concatenation. */
  lemma {:induction false} CollectAllAppend<X, T>(xs: seq<X>, ys: seq<X>, f: X -> Result<seq<T>>)
    ensures CollectAll(xs + ys, f) == Join(CollectAll(xs, f), CollectAll(ys, f))
    decreases |ys|
  {
    if ys == [] {
      assert xs + ys == xs;
      JoinEmpty(CollectAll(xs, f));
    } else {
      var n := |ys|;
      assert (xs + ys)[..|xs + ys| - 1] == xs + ys[..n - 1];
      assert (xs + ys)[|xs + ys| - 1] == ys[n - 1];
      CollectAllAppend(xs, ys[..n - 1], f);
      JoinAssociative(CollectAll(xs, f), CollectAll(ys[..n - 1], f), f(ys[n - 1]));
    }
  }
}
