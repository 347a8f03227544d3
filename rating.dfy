/** The star row of the rating widget (src/components/ui/Rating.tsx). */
module Rating {
  import opened Seqs

  /** One button of the row: its 1-based rating and how it is drawn. */
  datatype Star = Star(starRating: nat, isFilled: bool, isHalfFilled: bool)

  /** `Array.from({ length: maxRating }, ...)`; a negative length gives no stars. */
  function Stars(rating: real, maxRating: int): (r: seq<Star>)
    ensures |r| == if maxRating > 0 then maxRating else 0
    ensures forall k :: 0 <= k < |r| ==> r[k].starRating == k + 1
    ensures forall k :: 0 <= k < |r| ==> (r[k].isFilled <==> (k + 1) as real <= rating)
    ensures forall k :: 0 <= k < |r| ==>
              (r[k].isHalfFilled <==> (k + 1) as real - 0.5 <= rating < (k + 1) as real)
  {
    var n := if maxRating > 0 then maxRating else 0;
    seq(n, index requires 0 <= index < n =>
      var starRating := index + 1;
      Star(starRating, starRating as real <= rating,
           starRating as real - 0.5 <= rating && starRating as real > rating))
  }

  /** No star is both filled and half filled, and at most one is half filled. */
  lemma AtMostOneHalfStar(rating: real, maxRating: int)
    ensures var r := Stars(rating, maxRating);
      && (forall k :: 0 <= k < |r| ==> !(r[k].isFilled && r[k].isHalfFilled))
      && (forall i, j :: 0 <= i < |r| && 0 <= j < |r| && r[i].isHalfFilled && r[j].isHalfFilled ==> i == j)
  {
    var r := Stars(rating, maxRating);
    forall i, j | 0 <= i < |r| && 0 <= j < |r| && r[i].isHalfFilled && r[j].isHalfFilled
      ensures i == j
    {
      assert (i + 1) as real - 0.5 <= rating < (j + 1) as real;
      assert (j + 1) as real - 0.5 <= rating < (i + 1) as real;
    }
  }

  /** The filled stars are a prefix of the row. */
  lemma FilledStarsArePrefix(rating: real, maxRating: int)
    ensures var r := Stars(rating, maxRating);
      forall i, j :: 0 <= i < j < |r| && r[j].isFilled ==> r[i].isFilled
  {
  }

  /** `handleStarClick(starRating)`: the rating reported to `onRatingChange`,
      if any. */
  function StarClick(starRating: nat, interactive: bool, hasCallback: bool): (r: Option<nat>)
    ensures r.Some? <==> interactive && hasCallback
    ensures r.Some? ==> r.value == starRating
  {
    if interactive && hasCallback then Some(starRating) else None
  }
}
