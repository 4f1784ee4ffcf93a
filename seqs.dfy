/** Concatenating the lists produced for each element of a list: the shape
    of every nested "for each ... append" loop of the move generator. */
module Seqs {

  function FlatMap<A, B(!new)>(xs: seq<A>, f: A -> seq<B>): (r: seq<B>)
    ensures forall b :: b in r <==> exists k :: 0 <= k < |xs| && b in f(xs[k])
  {
    if xs == [] then []
    else
      var n := |xs| - 1;
      var front := FlatMap(xs[..n], f);
      assert forall k :: 0 <= k < n ==> xs[..n][k] == xs[k];
      front + f(xs[n])
  }
}
