/**
 * Order-preserving filters over sequences. Every loop of the model that
 * appends to a list only on some iterations builds `Kept(marks)`, where
 * `marks[i]` is `Some(v)` when iteration `i` appends `v`.
 */
module Filtering {
  import opened Wrappers

  /** The values of the `Some` entries of `xs`, in order. */
  function Kept<T>(xs: seq<Option<T>>): (r: seq<T>)
    ensures |r| <= |xs|
  {
    if xs == [] then []
    else
      var n := |xs| - 1;
      match xs[n]
      case None => Kept(xs[..n])
      case Some(v) => Kept(xs[..n]) + [v]
  }

  /** The prefix of a sequence as long as the sequence is the sequence itself. */
  lemma WholePrefix<T>(xs: seq<T>)
    ensures xs[..|xs|] == xs
  {
  }

  /** Appending one element after a concatenation. */
  lemma AppendAfterConcat<T>(a: seq<T>, b: seq<T>, x: T)
    ensures a + b + [x] == a + (b + [x])
  {
  }

  /** A two-element sequence is the display of its elements. */
  lemma PairDisplay<T>(xs: seq<T>)
    requires |xs| == 2
    ensures xs == [xs[0], xs[1]]
  {
  }

  /** A three-element sequence is the display of its elements. */
  lemma TripleDisplay<T>(xs: seq<T>)
    requires |xs| == 3
    ensures xs == [xs[0], xs[1], xs[2]]
  {
  }

  /**
   * `Kept(xs)` lists the entries of `xs` at strictly increasing positions
   * `origin`, and every entry at any other position is `None`.
   */
  lemma {:induction false} KeptOrigins<T>(xs: seq<Option<T>>) returns (origin: seq<nat>)
    ensures |origin| == |Kept(xs)|
    ensures forall k :: 0 <= k < |origin| ==> origin[k] < |xs| && xs[origin[k]] == Some(Kept(xs)[k])
    ensures forall k, l :: 0 <= k < l < |origin| ==> origin[k] < origin[l]
    ensures forall i :: 0 <= i < |xs| && i !in origin ==> xs[i].None?
  {
    if xs == [] {
      origin := [];
    } else {
      var n := |xs| - 1;
      var init := xs[..n];
      var prev := KeptOrigins(init);
      assert forall k :: 0 <= k < |prev| ==> xs[prev[k]] == init[prev[k]];
      assert forall i :: 0 <= i < n ==> xs[i] == init[i];
      if xs[n].None? {
        origin := prev;
        assert Kept(xs) == Kept(init);
      } else {
        origin := prev + [n];
        OriginsSnoc(xs, init, prev, origin);
      }
    }
  }

  /** The origins of `Kept(xs)` when the last entry of `xs` is kept. */
  lemma OriginsSnoc<T>(xs: seq<Option<T>>, init: seq<Option<T>>, prev: seq<nat>, origin: seq<nat>)
    requires xs != [] && init == xs[..|xs| - 1] && xs[|xs| - 1].Some? && origin == prev + [|xs| - 1]
    requires |prev| == |Kept(init)|
    requires forall k :: 0 <= k < |prev| ==> prev[k] < |init| && xs[prev[k]] == Some(Kept(init)[k])
    requires forall k, l :: 0 <= k < l < |prev| ==> prev[k] < prev[l]
    requires forall i :: 0 <= i < |init| && i !in prev ==> xs[i].None?
    ensures |origin| == |Kept(xs)|
    ensures forall k :: 0 <= k < |origin| ==> origin[k] < |xs| && xs[origin[k]] == Some(Kept(xs)[k])
    ensures forall k, l :: 0 <= k < l < |origin| ==> origin[k] < origin[l]
    ensures forall i :: 0 <= i < |xs| && i !in origin ==> xs[i].None?
  {
    var n := |xs| - 1;
    var kept := Kept(xs);
    assert kept == Kept(init) + [xs[n].value];
    forall k | 0 <= k < |origin|
      ensures origin[k] < |xs| && xs[origin[k]] == Some(kept[k])
    {
      if k < |prev| {
        assert origin[k] == prev[k] && kept[k] == Kept(init)[k];
      }
    }
    forall k, l | 0 <= k < l < |origin|
      ensures origin[k] < origin[l]
    {
      assert origin[k] == prev[k];
      if l < |prev| {
        assert origin[l] == prev[l];
      }
    }
    forall i | 0 <= i < |xs| && i !in origin
      ensures xs[i].None?
    {
      assert i != n && i !in prev;
    }
  }

  /** Marking one more entry appends its value, if it has one. */
  lemma KeptSnoc<T>(xs: seq<Option<T>>, x: Option<T>)
    ensures Kept(xs + [x]) == match x case None => Kept(xs) case Some(v) => Kept(xs) + [v]
  {
    assert (xs + [x])[..|xs|] == xs;
  }

  /** The step a loop over `xs` takes at index `i`. */
  lemma KeptPrefixStep<T>(xs: seq<Option<T>>, i: nat)
    requires i < |xs|
    ensures Kept(xs[..i + 1]) == match xs[i] case None => Kept(xs[..i]) case Some(v) => Kept(xs[..i]) + [v]
  {
    assert xs[..i + 1] == xs[..i] + [xs[i]];
    KeptSnoc(xs[..i], xs[i]);
  }

  /**
   * Two markings of the same sequence that select complementary positions
   * keep, between them, one value per position.
   */
  lemma {:induction false} KeptComplementLength<A, B>(xs: seq<Option<A>>, ys: seq<Option<B>>)
    requires |xs| == |ys|
    requires forall i :: 0 <= i < |xs| ==> (xs[i].Some? <==> ys[i].None?)
    ensures |Kept(xs)| + |Kept(ys)| == |xs|
  {
    if xs != [] {
      var n := |xs| - 1;
      KeptComplementLength(xs[..n], ys[..n]);
    }
  }

  /** Applying `f` to every marked value commutes with keeping the marked values. */
  lemma {:induction false} KeptMap<A, B>(xs: seq<Option<A>>, ys: seq<Option<B>>, f: A -> B)
    requires |xs| == |ys|
    requires forall i :: 0 <= i < |xs| ==> ys[i] == (match xs[i] case None => None case Some(a) => Some(f(a)))
    ensures |Kept(ys)| == |Kept(xs)|
    ensures forall k :: 0 <= k < |Kept(xs)| ==> Kept(ys)[k] == f(Kept(xs)[k])
  {
    if xs != [] {
      var n := |xs| - 1;
      KeptMap(xs[..n], ys[..n], f);
    }
  }
}
