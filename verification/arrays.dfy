/** `Array.prototype.filter` and the facts about it the components rely on. */
module Arrays {

  /** `xs.filter(p)`. */
  function Filter<T(!new)>(xs: seq<T>, p: T -> bool): (r: seq<T>)
    ensures forall x :: x in r <==> x in xs && p(x)
    ensures |r| <= |xs|
  {
    if |xs| == 0 then []
    else
      var rest := Filter(xs[1..], p);
      if p(xs[0]) then [xs[0]] + rest else rest
  }

  /** `r` lists the elements of `xs` at the positions `idx`, in that order. */
  ghost predicate Picks<T>(xs: seq<T>, r: seq<T>, idx: seq<nat>) {
    && |idx| == |r|
    && (forall k | 0 <= k < |idx| :: idx[k] < |xs| && r[k] == xs[idx[k]])
  }

  ghost predicate StrictlyIncreasing(idx: seq<nat>) {
    forall k, l | 0 <= k < l < |idx| :: idx[k] < idx[l]
  }

  /** `idx` holds exactly the positions of `xs` whose elements satisfy `p`. */
  ghost predicate ExactlyPassing<T>(xs: seq<T>, p: T -> bool, idx: seq<nat>) {
    forall j | 0 <= j < |xs| :: j in idx <==> p(xs[j])
  }

  /** `idx` picks, in increasing order, exactly the positions of `xs` whose
      elements satisfy `p`, and `r` lists those elements in that order. */
  ghost predicate SelectsPositions<T>(xs: seq<T>, p: T -> bool, r: seq<T>, idx: seq<nat>) {
    Picks(xs, r, idx) && StrictlyIncreasing(idx) && ExactlyPassing(xs, p, idx)
  }

  /** Every position moved one place to the right. */
  function Shift(idx: seq<nat>): (r: seq<nat>)
    ensures |r| == |idx|
    ensures forall k | 0 <= k < |idx| :: r[k] == idx[k] + 1
  {
    seq(|idx|, k requires 0 <= k < |idx| => idx[k] + 1)
  }

  /** A shifted position list holds j exactly when the original holds j - 1. */
  lemma ShiftMembership(idx: seq<nat>)
    ensures 0 !in Shift(idx)
    ensures forall j: nat | 1 <= j :: j in Shift(idx) <==> j - 1 in idx
  {
    var shifted := Shift(idx);
    forall j: nat | 1 <= j
      ensures j in shifted <==> j - 1 in idx
    {
      if j in shifted {
        var k :| 0 <= k < |shifted| && shifted[k] == j;
        assert idx[k] == j - 1;
      }
    }
  }

  /** Positions picked from the tail, shifted, pick the same elements from the
      whole sequence. */
  lemma ShiftPicks<T>(xs: seq<T>, rest: seq<T>, tail: seq<nat>)
    requires |xs| > 0 && Picks(xs[1..], rest, tail)
    ensures Picks(xs, rest, Shift(tail))
    ensures Picks(xs, [xs[0]] + rest, [0] + Shift(tail))
  {
    forall k | 0 <= k < |tail|
      ensures Shift(tail)[k] < |xs| && rest[k] == xs[Shift(tail)[k]]
    {
      assert rest[k] == xs[1..][tail[k]];
    }
    var r, idx := [xs[0]] + rest, [0] + Shift(tail);
    forall k | 0 < k < |idx|
      ensures idx[k] < |xs| && r[k] == xs[idx[k]]
    {
      assert idx[k] == Shift(tail)[k - 1] && r[k] == rest[k - 1];
    }
  }

  /** Shifting keeps a position list increasing, and 0 may go in front. */
  lemma ShiftIncreasing(tail: seq<nat>)
    requires StrictlyIncreasing(tail)
    ensures StrictlyIncreasing(Shift(tail))
    ensures StrictlyIncreasing([0] + Shift(tail))
  {
    var idx := [0] + Shift(tail);
    forall k, l | 0 <= k < l < |idx|
      ensures idx[k] < idx[l]
    {
      assert idx[l] == tail[l - 1] + 1;
      if k > 0 {
        assert idx[k] == tail[k - 1] + 1;
      }
    }
  }

  /** The exact positions of the tail, shifted, are the exact positions of the
      whole sequence after its head, and the head is added iff it passes. */
  lemma ShiftExact<T>(xs: seq<T>, p: T -> bool, tail: seq<nat>)
    requires |xs| > 0 && ExactlyPassing(xs[1..], p, tail)
    ensures p(xs[0]) ==> ExactlyPassing(xs, p, [0] + Shift(tail))
    ensures !p(xs[0]) ==> ExactlyPassing(xs, p, Shift(tail))
  {
    ShiftMembership(tail);
    forall j | 1 <= j < |xs|
      ensures j in Shift(tail) <==> p(xs[j])
    {
      assert xs[j] == xs[1..][j - 1];
    }
    assert forall j | 1 <= j < |xs| :: j in [0] + Shift(tail) <==> j in Shift(tail);
  }

  /** The filtered list is the order-preserving subsequence made of exactly
      the elements that satisfy the predicate; `idx` gives their positions. */
  lemma {:induction false} FilterSelects<T(!new)>(xs: seq<T>, p: T -> bool) returns (idx: seq<nat>)
    ensures SelectsPositions(xs, p, Filter(xs, p), idx)
  {
    if |xs| == 0 {
      idx := [];
    } else {
      var tail := FilterSelects(xs[1..], p);
      ShiftPicks(xs, Filter(xs[1..], p), tail);
      ShiftIncreasing(tail);
      ShiftExact(xs, p, tail);
      idx := if p(xs[0]) then [0] + Shift(tail) else Shift(tail);
    }
  }

  /** Filtering with a predicate every element satisfies changes nothing. */
  lemma {:induction false} FilterKeepsAll<T(!new)>(xs: seq<T>, p: T -> bool)
    requires forall k | 0 <= k < |xs| :: p(xs[k])
    ensures Filter(xs, p) == xs
  {
    if |xs| > 0 {
      FilterKeepsAll(xs[1..], p);
    }
  }

  /** Filtering twice with the same predicate is filtering once. */
  lemma FilterIdempotent<T(!new)>(xs: seq<T>, p: T -> bool)
    ensures Filter(Filter(xs, p), p) == Filter(xs, p)
  {
    var r := Filter(xs, p);
    assert forall k | 0 <= k < |r| :: r[k] in r;
    FilterKeepsAll(r, p);
  }
}
