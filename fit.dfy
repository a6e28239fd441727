/**
 * updateMaxPreferredFont: the font of the labels shrinks one point at a time
 * until their texts fit the width left beside the left view. Font metrics
 * become a supplied width function of a text and an integer point size.
 */
module Fit {
  import opened Diff

  /** The width of a text drawn at a point size. */
  type Measure = (string, int) -> nat

  /**
   * Text at a point size of zero or less takes no width. This is an
   * assumption about the font metrics the view is given, not something the
   * view ensures; the loop modelled by `BestFit` ends only under it.
   */
  ghost predicate Vanishing(measure: Measure)
  {
    forall t, size :: size <= 0 ==> measure(t, size) == 0
  }

  /**
   * The summed width of the labels' texts at a size. A label without text
   * ("" in the model) is dropped by the `compactMap { $0.text }`.
   */
  function TotalWidth(measure: Measure, cs: seq<Cell>, size: int): nat
  {
    if cs == [] then 0
    else (if cs[0].text == "" then 0 else measure(cs[0].text, size)) + TotalWidth(measure, cs[1..], size)
  }

  /** Under `Vanishing`, labels of a non-positive size take no width at all. */
  lemma {:induction false} TotalWidthVanishes(measure: Measure, cs: seq<Cell>, size: int)
    requires Vanishing(measure) && size <= 0
    ensures TotalWidth(measure, cs, size) == 0
  {
    if cs != [] {
      TotalWidthVanishes(measure, cs[1..], size);
    }
  }

  /** The width limit is met at a size, or there is no positive width to meet. */
  predicate FitsAt(measure: Measure, cs: seq<Cell>, size: int, available: int)
  {
    TotalWidth(measure, cs, size) <= available || available <= 0
  }

  /** The size the loop stops at: the first size, counting down one point at a time from `size`, that fits. */
  function BestFit(measure: Measure, cs: seq<Cell>, size: int, available: int): int
    requires Vanishing(measure)
    decreases if size > 0 then size else 0
  {
    if FitsAt(measure, cs, size, available) then size
    else
      assert size > 0 by {
        if size <= 0 {
          TotalWidthVanishes(measure, cs, size);
        }
      }
      BestFit(measure, cs, size - 1, available)
  }

  /**
   * The loop never grows the font, stops on a size that fits, and every size
   * it passed over did not fit; a size that already fits is kept.
   */
  lemma {:induction false} BestFitIsLargest(measure: Measure, cs: seq<Cell>, size: int, available: int)
    requires Vanishing(measure)
    ensures var r := BestFit(measure, cs, size, available);
      && r <= size
      && FitsAt(measure, cs, r, available)
      && (forall s :: r < s <= size ==> !FitsAt(measure, cs, s, available))
      && (FitsAt(measure, cs, size, available) ==> r == size)
    decreases if size > 0 then size else 0
  {
    if !FitsAt(measure, cs, size, available) {
      if size <= 0 {
        TotalWidthVanishes(measure, cs, size);
      }
      BestFitIsLargest(measure, cs, size - 1, available);
    }
  }

  /** A label with text adds its own width to the total. */
  lemma {:induction false} TotalWidthCovers(measure: Measure, cs: seq<Cell>, size: int, j: nat)
    requires j < |cs| && cs[j].text != ""
    ensures measure(cs[j].text, size) <= TotalWidth(measure, cs, size)
  {
    if j > 0 {
      TotalWidthCovers(measure, cs[1..], size, j - 1);
    }
  }

  /**
   * Without `Vanishing` the loop need not stop: when no size brings a label
   * with text below a width w, and the width available is positive but
   * less than w, no size fits, so the loop counts the size down forever.
   */
  lemma NeverFits(measure: Measure, cs: seq<Cell>, available: int, w: nat, j: nat)
    requires forall t, size :: w <= measure(t, size)
    requires j < |cs| && cs[j].text != ""
    requires 0 < available < w
    ensures !Vanishing(measure)
    ensures forall size :: !FitsAt(measure, cs, size, available)
  {
    assert measure(cs[j].text, 0) != 0;
    forall size
      ensures !FitsAt(measure, cs, size, available)
    {
      TotalWidthCovers(measure, cs, size, j);
    }
  }

  /**
   * The loop with a smallest size: counting down from `size`, it stops on
   * the first size that fits, or at `floor`, whichever comes first.
   */
  function FloorFit(measure: Measure, cs: seq<Cell>, size: int, available: int, floor: int): int
    decreases if size > floor then size - floor else 0
  {
    if FitsAt(measure, cs, size, available) || size <= floor then size
    else FloorFit(measure, cs, size - 1, available, floor)
  }

  /**
   * The loop with a floor is defined for every width function. It never
   * grows the font and never goes below the floor (from a size at or above
   * it); it stops on a size that fits or on the floor, every size it passed
   * over did not fit, and a size that already fits is kept.
   */
  lemma {:induction false} FloorFitIsLargest(measure: Measure, cs: seq<Cell>, size: int, available: int, floor: int)
    ensures var r := FloorFit(measure, cs, size, available, floor);
      && r <= size
      && (floor <= size ==> floor <= r)
      && (FitsAt(measure, cs, r, available) || r <= floor)
      && (forall s :: r < s <= size ==> !FitsAt(measure, cs, s, available))
      && (FitsAt(measure, cs, size, available) ==> r == size)
    decreases if size > floor then size - floor else 0
  {
    if !FitsAt(measure, cs, size, available) && size > floor {
      FloorFitIsLargest(measure, cs, size - 1, available, floor);
    }
  }

  /** Under `Vanishing`, a floor of zero changes nothing: the loop with it is the source's loop. */
  lemma {:induction false} FloorFitAgrees(measure: Measure, cs: seq<Cell>, size: int, available: int)
    requires Vanishing(measure)
    ensures FloorFit(measure, cs, size, available, 0) == BestFit(measure, cs, size, available)
    decreases if size > 0 then size else 0
  {
    if size <= 0 {
      TotalWidthVanishes(measure, cs, size);
    } else if !FitsAt(measure, cs, size, available) {
      FloorFitAgrees(measure, cs, size - 1, available);
    }
  }
}
