/**
  The array operations the JavaScript code calls: `find`/`findIndex`
  (first position satisfying a predicate), `filter`, and `splice(i, 1)`.
 */
module JsArrays {
  import opened Wrappers

  /** `findIndex`, with `None` for -1: the first position whose element satisfies `p`. */
  function FindFirst<T>(xs: seq<T>, p: T -> bool): (r: Option<nat>)
    ensures r.Some? ==> r.value < |xs| && p(xs[r.value])
    ensures r.Some? ==> forall j :: 0 <= j < r.value ==> !p(xs[j])
    ensures r.None? <==> forall j :: 0 <= j < |xs| ==> !p(xs[j])
  {
    if |xs| == 0 then None
    else if p(xs[0]) then Some(0)
    else match FindFirst(xs[1..], p)
      case None => None
      case Some(i) => Some(i + 1)
  }

  /** `filter`: the elements satisfying `keep`, in their original order. */
  function Filter<T>(xs: seq<T>, keep: T -> bool): (ys: seq<T>)
    ensures |ys| <= |xs|
    ensures forall i :: 0 <= i < |ys| ==> keep(ys[i]) && ys[i] in xs
    ensures forall i :: 0 <= i < |xs| && keep(xs[i]) ==> xs[i] in ys
    ensures |ys| > 0 <==> FindFirst(xs, keep).Some?
    ensures |ys| > 0 ==> ys[0] == xs[FindFirst(xs, keep).value]
  {
    if |xs| == 0 then []
    else
      var rest := Filter(xs[1..], keep);
      assert forall i :: 1 <= i < |xs| ==> xs[i] == xs[1..][i - 1];
      if keep(xs[0]) then [xs[0]] + rest else rest
  }

  /** The `k`-th element of `ys` stands at position `i` of `xs`, and every element before `i` that passes `keep` is among the first `k` of `ys`. */
  ghost predicate KeptAt<T>(xs: seq<T>, keep: T -> bool, ys: seq<T>, k: nat, i: nat) {
    i < |xs| && k < |ys| && xs[i] == ys[k] &&
    forall j :: 0 <= j < i && keep(xs[j]) ==> xs[j] in ys[..k]
  }

  /** `filter` keeps the original order: an element that passes comes out after every earlier element that passes. */
  lemma {:induction false} FilterKeepsOrder<T>(xs: seq<T>, keep: T -> bool, k: nat)
    requires k < |Filter(xs, keep)|
    ensures exists i :: KeptAt(xs, keep, Filter(xs, keep), k, i)
  {
    var ys := Filter(xs, keep);
    var rest := Filter(xs[1..], keep);
    if !keep(xs[0]) {
      assert ys == rest;
      FilterKeepsOrder(xs[1..], keep, k);
      var i' :| KeptAt(xs[1..], keep, rest, k, i');
      KeptAfterFirst(xs, keep, ys, rest, k, k, i');
    } else if k == 0 {
      assert KeptAt(xs, keep, ys, 0, 0);
    } else {
      assert ys == [xs[0]] + rest;
      assert ys[..k] == [xs[0]] + rest[..k - 1];
      FilterKeepsOrder(xs[1..], keep, k - 1);
      var i' :| KeptAt(xs[1..], keep, rest, k - 1, i');
      KeptAfterFirst(xs, keep, ys, rest, k, k - 1, i');
    }
  }

  /** A witness in the tail, moved one place right, is a witness in the whole list. */
  lemma KeptAfterFirst<T>(xs: seq<T>, keep: T -> bool, ys: seq<T>, rest: seq<T>, k: nat, k': nat, i': nat)
    requires |xs| > 0 && KeptAt(xs[1..], keep, rest, k', i')
    requires k < |ys| && ys[k] == rest[k']
    requires keep(xs[0]) ==> ys[..k] == [xs[0]] + rest[..k']
    requires !keep(xs[0]) ==> ys[..k] == rest[..k']
    ensures KeptAt(xs, keep, ys, k, i' + 1)
  {
    forall j | 0 <= j < i' + 1 && keep(xs[j])
      ensures xs[j] in ys[..k]
    {
      if j > 0 {
        assert xs[j] == xs[1..][j - 1];
      }
    }
  }

  /** `splice(i, 1)`: the element at position `i` is taken out, the others keep their order. */
  function RemoveAt<T>(xs: seq<T>, i: nat): (ys: seq<T>)
    requires i < |xs|
    ensures |ys| == |xs| - 1
    ensures forall j :: 0 <= j < i ==> ys[j] == xs[j]
    ensures forall j :: i <= j < |ys| ==> ys[j] == xs[j + 1]
  {
    xs[..i] + xs[i + 1..]
  }
}
