/**
 amountToKoinu of internal/chain/corewatcher.go: a node reports DOGE as a decimal number,
 Go reads it into a double, multiplies by 1e8 and rounds. A double operation is modelled by
 its error bound alone: any result within one part in 2^53 of the exact one (section 4.3.1
 of IEEE 754-2019, no underflow at these magnitudes).
 */
module Money {

  const KOINU: real := 100_000_000.0
  const TWO53: real := 9007199254740992.0
  const LIMIT: nat := 2251799813685248  // 2^51 koinu

  /** A correctly rounded double operation whose exact result is x, x not negative. */
  ghost predicate Rounded(x: real, r: real) {
    x >= 0.0 && x - x / TWO53 <= r <= x + x / TWO53
  }

  /** math.Round: to the nearest integer, halves away from zero. */
  function Round(x: real): (r: int)
    ensures x >= 0.0 ==> r as real - 0.5 <= x < r as real + 0.5
    ensures x < 0.0 ==> r as real - 0.5 < x <= r as real + 0.5
  {
    if x >= 0.0 then (x + 0.5).Floor else -((-x + 0.5).Floor)
  }

  lemma RoundIsNearest(x: real, k: int)
    requires k as real - 0.5 < x < k as real + 0.5
    ensures Round(x) == k
  {
  }

  /** The double that was read for k koinu, and its product with 1e8. */
  ghost predicate Reading(k: nat, doge: real, product: real) {
    Rounded(k as real / KOINU, doge) && Rounded(doge * KOINU, product)
  }

  lemma ProductIsClose(k: nat, doge: real, product: real)
    requires Reading(k, doge, product)
    ensures -(k as real) * (2.0 / TWO53 + 1.0 / (TWO53 * TWO53)) <= product - k as real
         <= (k as real) * (2.0 / TWO53 + 1.0 / (TWO53 * TWO53))
  {
    var x := k as real;
    var y := doge * KOINU;
    assert x - x / TWO53 <= y <= x + x / TWO53;
    assert y / TWO53 <= x / TWO53 + x / (TWO53 * TWO53);
  }

  /**
   Every amount below 2^51 koinu survives both roundings, whatever the rounding; and 2^51 is
   the exact limit of this argument, since there two roundings up already reach the next koinu.
   */
  lemma MoneyIsExact(k: nat)
    ensures k < LIMIT <==> forall doge, product | Reading(k, doge, product) :: Round(product) == k
  {
    var e := 2.0 / TWO53 + 1.0 / (TWO53 * TWO53);
    var x := k as real;
    if k < LIMIT {
      assert k <= LIMIT - 1;
      assert x <= 2251799813685247.0;
      assert x * e < 0.5;
      forall doge, product | Reading(k, doge, product)
        ensures Round(product) == k
      {
        ProductIsClose(k, doge, product);
        RoundIsNearest(product, k);
      }
    } else {
      var doge := x / KOINU + x / KOINU / TWO53;
      var product := doge * KOINU + doge * KOINU / TWO53;
      assert Reading(k, doge, product);
      assert doge * KOINU == x + x / TWO53;
      assert product >= x + x / TWO53 + x / TWO53;
      assert x / TWO53 >= 0.25;
    }
  }
}
