/** What a loop that appends some values, computed from the elements of a slice, comes to. */
module Slices {
  import opened Options

  /** What `f` makes of every element it accepts, in order. */
  function Chosen<A, B>(xs: seq<A>, f: A -> Option<B>): seq<B> {
    if xs == [] then []
    else
      var n := |xs| - 1;
      var v := f(xs[n]);
      if v.Some? then Chosen(xs[..n], f) + [v.value] else Chosen(xs[..n], f)
  }

  /** One element gives its value or nothing. */
  lemma ChosenOne<A, B>(x: A, f: A -> Option<B>)
    ensures Chosen([x], f) == if f(x).Some? then [f(x).value] else []
  {
    assert [x][..0] == [];
  }

  /** Two slices in a row give their results in a row; with ChosenOne this leaves no other result. */
  lemma {:induction false} ChosenConcat<A, B>(xs: seq<A>, ys: seq<A>, f: A -> Option<B>)
    ensures Chosen(xs + ys, f) == Chosen(xs, f) + Chosen(ys, f)
  {
    if ys == [] {
      assert xs + ys == xs;
    } else {
      var n := |ys| - 1;
      assert (xs + ys)[..|xs + ys| - 1] == xs + ys[..n];
      ChosenConcat(xs, ys[..n], f);
    }
  }

  lemma {:induction false} ChosenAll<A>(xs: seq<A>, f: A -> Option<A>)
    requires forall i :: 0 <= i < |xs| ==> f(xs[i]) == Some(xs[i])
    ensures Chosen(xs, f) == xs
  {
    if xs != [] {
      var n := |xs| - 1;
      ChosenAll(xs[..n], f);
      assert xs == xs[..n] + [xs[n]];
    }
  }
}
