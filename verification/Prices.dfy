/**
 * signald/order/prices.py: the venue's tick grid. Rounding is taken with any rule that picks a
 * nearest integer, so nothing below depends on how a tie is broken.
 */
module Prices {
  import opened Prelude

  const TICK_LARGE := 0.01
  const TICK_SMALL := 0.0001

  ghost predicate Nearest(rnd: real -> int) {
    forall y: real :: -0.5 <= rnd(y) as real - y <= 0.5
  }

  function TickFor(price: real): real {
    if RAbs(price) >= 1.0 then TICK_LARGE else TICK_SMALL
  }

  function RoundPrice(rnd: real -> int, price: real): real {
    if RAbs(price) >= 1.0 then rnd(price * 100.0) as real / 100.0 else rnd(price * 10000.0) as real / 10000.0
  }

  predicate Whole(y: real) {
    y == y.Floor as real
  }

  /** The grid itself: a whole number of the ticks its own magnitude prescribes. */
  predicate OnGrid(price: real) {
    if RAbs(price) >= 1.0 then Whole(price * 100.0) else Whole(price * 10000.0)
  }

  lemma NearestOfWhole(rnd: real -> int, y: real)
    requires Nearest(rnd) && Whole(y)
    ensures rnd(y) as real == y
  {
    assert -0.5 <= rnd(y) as real - y <= 0.5;
    var d := rnd(y) - y.Floor;
    assert -0.5 <= d as real <= 0.5;
  }

  lemma WholeOf(y: real, k: int)
    requires y == k as real
    ensures Whole(y)
  {
    assert (k as real).Floor == k;
  }

  lemma CentsAreSmallTicks(y: real)
    requires Whole(y * 100.0)
    ensures Whole(y * 10000.0)
  {
    var m := 100 * (y * 100.0).Floor;
    WholeOf(y * 10000.0, m);
  }

  /**
   * One rounding lands on the grid of the result, also where it crosses one dollar; it moves the
   * price by at most half the tick of the input.
   */
  lemma RoundedIsOnGrid(rnd: real -> int, price: real)
    requires Nearest(rnd)
    ensures OnGrid(RoundPrice(rnd, price))
    ensures RAbs(RoundPrice(rnd, price) - price) <= TickFor(price) / 2.0
    ensures TickFor(price) <= TickFor(RoundPrice(rnd, price))
  {
    if RAbs(price) >= 1.0 {
      var y := price * 100.0;
      assert -0.5 <= rnd(y) as real - y <= 0.5;
      assert rnd(y) >= 100 || rnd(y) <= -100;
      assert RoundPrice(rnd, price) * 100.0 == rnd(y) as real;
    } else {
      var y := price * 10000.0;
      assert -0.5 <= rnd(y) as real - y <= 0.5;
      assert -10000 <= rnd(y) <= 10000;
      var r := RoundPrice(rnd, price);
      assert r * 10000.0 == rnd(y) as real;
      if RAbs(r) >= 1.0 { assert r * 100.0 == 100.0 || r * 100.0 == -100.0; }
    }
  }

  /** `price_is_on_grid` compares a price with its own rounding; that decides the grid exactly. */
  lemma GridIsFixedPoint(rnd: real -> int, price: real)
    requires Nearest(rnd)
    ensures OnGrid(price) <==> RoundPrice(rnd, price) == price
  {
    RoundedIsOnGrid(rnd, price);
    if OnGrid(price) {
      if RAbs(price) >= 1.0 { NearestOfWhole(rnd, price * 100.0); } else { NearestOfWhole(rnd, price * 10000.0); }
    }
  }

  lemma RoundIdempotent(rnd: real -> int, price: real)
    requires Nearest(rnd)
    ensures RoundPrice(rnd, RoundPrice(rnd, price)) == RoundPrice(rnd, price)
  {
    RoundedIsOnGrid(rnd, price);
    GridIsFixedPoint(rnd, RoundPrice(rnd, price));
  }

  /** One tick off a grid price, in either direction, is a grid price, for every price above zero. */
  lemma StepStaysOnGrid(price: real)
    requires OnGrid(price) && price >= 0.0
    ensures OnGrid(price + TickFor(price)) && OnGrid(price - TickFor(price))
  {
    if price >= 1.0 {
      var k := (price * 100.0).Floor;
      var up, down := price + TICK_LARGE, price - TICK_LARGE;
      WholeOf(up * 100.0, k + 1);
      WholeOf(down * 100.0, k - 1);
      CentsAreSmallTicks(down);
    } else {
      var k := (price * 10000.0).Floor;
      var up, down := price + TICK_SMALL, price - TICK_SMALL;
      WholeOf(up * 10000.0, k + 1);
      WholeOf(down * 10000.0, k - 1);
      if up >= 1.0 { WholeOf(up * 100.0, 100); }
    }
  }
}
