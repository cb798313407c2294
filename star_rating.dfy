/** The star bar of a product card (`getStars`): five slots, each full, half or empty, for a
    rating held in tenths of a star. */
module StarRating {
  datatype Star = Full | Half | Empty

  const SLOTS := 5

  /** Slot `i` (counted from 1): full when the rating reaches `i` stars, half when it reaches
      `i - 0.5` stars, empty otherwise. */
  function StarAt(rating: int, i: int): (r: Star)
    ensures r == Full <==> rating >= 10 * i
    ensures r == Half <==> 10 * i - 5 <= rating < 10 * i
    ensures r == Empty <==> rating < 10 * i - 5
  {
    if rating >= 10 * i then Full
    else if rating >= 10 * i - 5 then Half
    else Empty
  }

  /** The bar, slot 1 first. */
  function Stars(rating: int): (r: seq<Star>)
    ensures |r| == SLOTS
    ensures forall k :: 0 <= k < SLOTS ==> r[k] == StarAt(rating, k + 1)
  {
    [StarAt(rating, 1), StarAt(rating, 2), StarAt(rating, 3), StarAt(rating, 4), StarAt(rating, 5)]
  }

  /** `getStars`: builds the bar slot by slot. */
  method GetStars(rating: int) returns (stars: seq<Star>)
    ensures stars == Stars(rating)
    ensures |stars| == SLOTS
  {
    stars := [];
    for i := 1 to SLOTS + 1
      invariant |stars| == i - 1
      invariant forall k :: 0 <= k < i - 1 ==> stars[k] == StarAt(rating, k + 1)
    {
      if rating >= 10 * i {
        stars := stars + [Full];
      } else if rating >= 10 * i - 5 {
        stars := stars + [Half];
      } else {
        stars := stars + [Empty];
      }
    }
  }

  /** The full slots come first; there is at most one half slot, right after them; every slot
      after a half slot is empty. */
  lemma StarsShape(rating: int, i: int, j: int)
    requires 1 <= i < j <= SLOTS
    ensures StarAt(rating, j) == Full ==> StarAt(rating, i) == Full
    ensures StarAt(rating, i) == Half ==> StarAt(rating, j) == Empty
    ensures StarAt(rating, j) == Half ==> StarAt(rating, i) == Full
  {
  }

  /** The number of full slots is the number of whole stars, at most five. */
  lemma StarsFullCount(rating: int, i: int)
    requires 1 <= i <= SLOTS
    ensures StarAt(rating, i) == Full <==> i <= rating / 10
  {
  }

  /** 3.5 stars: three full, one half, one empty. */
  lemma StarsExample()
    ensures Stars(35) == [Full, Full, Full, Half, Empty]
  {
  }
}
