/** The discount calculator: a pure function of a coupon and a priced cart. */
module Discount {
  import opened Models

  /** A cart line resolved against its product: the price and the quantity
      that enter `price * quantity`. */
  datatype PricedLine = PricedLine(product: ProductId, price: real, quantity: nat)

  /** What the calculator reports for a coupon that applies. */
  datatype DiscountDetails = DiscountDetails(kind: DiscountKind, value: real, amount: real)

  function LineAmount(l: PricedLine): real
  {
    l.price * l.quantity as real
  }

  /** Sum of price times quantity over the lines, in order. */
  function CartTotal(lines: seq<PricedLine>): real
  {
    if lines == [] then 0.0
    else CartTotal(lines[..|lines| - 1]) + LineAmount(lines[|lines| - 1])
  }

  /** `calculate_discount`: None when the coupon does not apply. */
  function CalculateDiscount(c: Coupon, lines: seq<PricedLine>): (r: Option<DiscountDetails>)
    ensures r.Some? <==> (c.kind == Percentage || c.kind == Amount) && CartTotal(lines) >= c.minPurchase
    ensures r.Some? ==> r.value.kind == c.kind && r.value.value == c.value
    ensures r.Some? && c.kind == Percentage ==> r.value.amount == c.value / 100.0 * CartTotal(lines)
    ensures r.Some? && c.kind == Amount ==> r.value.amount == c.value
  {
    var total := CartTotal(lines);
    if c.kind == Percentage then
      if total >= c.minPurchase then Some(DiscountDetails(c.kind, c.value, (c.value / 100.0) * total)) else None
    else if c.kind == Amount then
      if total >= c.minPurchase then Some(DiscountDetails(c.kind, c.value, c.value)) else None
    else
      None
  }

  /** Non-negative prices give a non-negative total. */
  lemma {:induction false} CartTotalNonNegative(lines: seq<PricedLine>)
    requires forall i | 0 <= i < |lines| :: lines[i].price >= 0.0
    ensures CartTotal(lines) >= 0.0
  {
    if lines != [] {
      CartTotalNonNegative(lines[..|lines| - 1]);
    }
  }

  /** Below the minimum purchase no coupon kind applies; at the minimum
      exactly, a percentage or amount coupon does. */
  lemma MinimumPurchaseGate(c: Coupon, lines: seq<PricedLine>)
    ensures CartTotal(lines) < c.minPurchase ==> CalculateDiscount(c, lines) == None
    ensures CartTotal(lines) == c.minPurchase && (c.kind == Percentage || c.kind == Amount)
            ==> CalculateDiscount(c, lines).Some?
  {
  }

  /** A percentage of at most 100 on a non-negative total never discounts
      more than the total, nor less than nothing. */
  lemma PercentageWithinTotal(c: Coupon, lines: seq<PricedLine>)
    requires c.kind == Percentage && 0.0 <= c.value <= 100.0
    requires forall i | 0 <= i < |lines| :: lines[i].price >= 0.0
    requires CalculateDiscount(c, lines).Some?
    ensures 0.0 <= CalculateDiscount(c, lines).value.amount <= CartTotal(lines)
  {
    var t := CartTotal(lines);
    CartTotalNonNegative(lines);
    var f := c.value / 100.0;
    assert 0.0 <= f <= 1.0;
    assert t - f * t == (1.0 - f) * t;
    ProductNonNegative(1.0 - f, t);
    ProductNonNegative(f, t);
  }

  /** An amount coupon is not capped by the cart: whenever its value exceeds
      a total that reaches the minimum, the discounted price is negative. */
  lemma AmountUncapped(c: Coupon, lines: seq<PricedLine>)
    requires c.kind == Amount && c.minPurchase <= CartTotal(lines) < c.value
    ensures CalculateDiscount(c, lines).Some?
    ensures CartTotal(lines) - CalculateDiscount(c, lines).value.amount < 0.0
  {
  }

  lemma ProductNonNegative(x: real, y: real)
    requires x >= 0.0 && y >= 0.0
    ensures x * y >= 0.0
  {
  }
}
