/**
 * The rental price rule of FrontEnd/src/utils/priceCalculator.js: a subscription is a
 * flat monthly price; any other rental is basePrice per day with one duration-tier
 * discount, rounded to cents. Money is an exact real.
 */
module PriceCalculator {

  /** The price of a subscription when the caller gives none. */
  const DefaultSubscriptionMonthlyPrice: real := 50.0

  /** Whole cents: x * 100 is an integer. */
  predicate IsCents(x: real) {
    (x * 100.0).Floor as real == x * 100.0
  }

  /** `Math.round(x * 100) / 100`: to the nearest cent, halves rounded up. */
  function RoundCents(x: real): (r: real)
    ensures IsCents(r)
    ensures r - 0.005 <= x < r + 0.005
    ensures x >= 0.0 ==> r >= 0.0
  {
    var k := (x * 100.0 + 0.5).Floor;
    assert (k as real / 100.0) * 100.0 == k as real;
    k as real / 100.0
  }

  /** The single duration discount of the descending else-if chain (1.0: none). */
  function Multiplier(days: int): (m: real)
    ensures m == 0.7 || m == 0.85 || m == 0.9 || m == 1.0
    ensures m == 0.7 <==> days >= 30
    ensures m == 0.85 <==> 14 <= days < 30
    ensures m == 0.9 <==> 7 <= days < 14
    ensures m == 1.0 <==> days < 7
  {
    if days >= 30 then 0.7
    else if days >= 14 then 0.85
    else if days >= 7 then 0.9
    else 1.0
  }

  /** `calculateRentalPrice({rentalType, basePrice, days, subscriptionMonthlyPrice})`. */
  function CalculateRentalPrice(rentalType: string, basePrice: real, days: int,
                                subscriptionMonthlyPrice: real := DefaultSubscriptionMonthlyPrice): (r: real)
    ensures rentalType == "assinatura" ==> r == subscriptionMonthlyPrice
    ensures rentalType != "assinatura" && days >= 30 ==> r == RoundCents(basePrice * days as real * 0.7)
    ensures rentalType != "assinatura" && 14 <= days < 30 ==> r == RoundCents(basePrice * days as real * 0.85)
    ensures rentalType != "assinatura" && 7 <= days < 14 ==> r == RoundCents(basePrice * days as real * 0.9)
    ensures rentalType != "assinatura" && days < 7 ==> r == RoundCents(basePrice * days as real)
    ensures rentalType != "assinatura" ==> IsCents(r)
    ensures rentalType != "assinatura" && basePrice >= 0.0 && days >= 0 ==> r >= 0.0
  {
    if rentalType == "assinatura" then subscriptionMonthlyPrice
    else
      var total := basePrice * days as real;
      RoundCents(total * Multiplier(days))
  }

  /** The rounding is exact on a price that is already whole cents. */
  lemma RoundCentsOfCents(x: real)
    requires IsCents(x)
    ensures RoundCents(x) == x
  {
    var n := (x * 100.0).Floor;
    assert (x * 100.0 + 0.5).Floor == n;
  }

  /** The price the details page charges for an unpriced title: 10 per day for 30 days. */
  lemma UnitThirtyDaysAtTen()
    ensures CalculateRentalPrice("unitario", 10.0, 30) == 210.0
  {
    assert 10.0 * 30 as real * 0.7 == 210.0;
    assert IsCents(210.0);
    RoundCentsOfCents(210.0);
  }
}
