/** Order placement and the coupon preview as pure functions of the store:
    what a checkout decides, and the state it leaves behind. */
module Checkout {
  import opened Models
  import opened Discount

  /** The request body of a checkout. */
  datatype OrderRequest = OrderRequest(couponCode: Option<string>, shippingAddress: string, paymentMethod: string)

  /** The priced order: `spent` is the coupon record written back after one
      use was taken from it, when a coupon was applied. */
  datatype Pricing = Pricing(subtotal: real, discount: real, total: real, spent: Option<Coupon>)

  /** The coupon preview's answer. */
  datatype Preview = Preview(originalTotal: real, details: DiscountDetails, finalPrice: real)

  /** The cart lines, each with its product's current price. */
  function Resolve(cart: seq<CartLine>, products: map<ProductId, Product>): seq<PricedLine>
    requires forall i | 0 <= i < |cart| :: cart[i].product in products
  {
    seq(|cart|, i requires 0 <= i < |cart| =>
      PricedLine(cart[i].product, products[cart[i].product].price, cart[i].quantity))
  }

  /** Order lines with the prices of the snapshot frozen into them. */
  function OrderLinesOf(lines: seq<PricedLine>): seq<OrderLine>
  {
    seq(|lines|, i requires 0 <= i < |lines| => OrderLine(lines[i].product, lines[i].quantity, lines[i].price))
  }

  /** Freezing one more line of the snapshot appends one order line. */
  lemma OrderLinesOfSnoc(lines: seq<PricedLine>, i: nat)
    requires i < |lines|
    ensures OrderLinesOf(lines[..i + 1])
            == OrderLinesOf(lines[..i]) + [OrderLine(lines[i].product, lines[i].quantity, lines[i].price)]
  {
  }

  /** Units of `p` in a cart. */
  function QtyIn(cart: seq<CartLine>, p: ProductId): nat
  {
    if cart == [] then 0
    else QtyIn(cart[..|cart| - 1], p) + (if cart[|cart| - 1].product == p then cart[|cart| - 1].quantity else 0)
  }

  /** Units of `p` in an order's lines. */
  function QtyOrdered(lines: seq<OrderLine>, p: ProductId): nat
  {
    if lines == [] then 0
    else QtyOrdered(lines[..|lines| - 1], p) + (if lines[|lines| - 1].product == p then lines[|lines| - 1].quantity else 0)
  }

  /** Sum of frozen price times quantity over an order's lines. */
  function LinesTotal(lines: seq<OrderLine>): real
  {
    if lines == [] then 0.0
    else LinesTotal(lines[..|lines| - 1]) + lines[|lines| - 1].priceAtOrder * lines[|lines| - 1].quantity as real
  }

  /** Every product's stock less the units the cart takes of it. */
  function Shipped(products: map<ProductId, Product>, cart: seq<CartLine>): map<ProductId, Product>
  {
    map p | p in products :: products[p].(quantity := products[p].quantity - QtyIn(cart, p))
  }

  /** Taking one more cart line's units keeps the stock equal to the
      original less the units of the lines taken so far. */
  lemma ShippedStep(base: map<ProductId, Product>, cart: seq<CartLine>, i: nat, cur: map<ProductId, Product>)
    requires i < |cart| && cart[i].product in cur && cur.Keys == base.Keys
    requires forall p | p in cur :: cur[p] == base[p].(quantity := base[p].quantity - QtyIn(cart[..i], p))
    ensures var l := cart[i];
            var next := cur[l.product := cur[l.product].(quantity := cur[l.product].quantity - l.quantity)];
            && next.Keys == base.Keys
            && forall p | p in next :: next[p] == base[p].(quantity := base[p].quantity - QtyIn(cart[..i + 1], p))
  {
    assert cart[..i + 1][..i] == cart[..i];
  }

  /** The tables checkout's loop writes, part way through it. */
  datatype Progress = Progress(products: map<ProductId, Product>, carts: map<UserId, seq<CartLine>>, orders: seq<Order>)

  /** The tables after the first `i` cart lines have been converted: their
      units taken from stock, their lines frozen into order `id`, and the
      lines deleted from the front of the user's cart. */
  function Converted(products: map<ProductId, Product>, carts: map<UserId, seq<CartLine>>, orders: seq<Order>,
                     user: UserId, cart: seq<CartLine>, lines: seq<PricedLine>, id: nat, i: nat): Progress
    requires i <= |cart| && i <= |lines| && id < |orders|
  {
    Progress(map p | p in products :: products[p].(quantity := products[p].quantity - QtyIn(cart[..i], p)),
             carts[user := cart[i..]],
             orders[id := orders[id].(lines := OrderLinesOf(lines[..i]))])
  }

  /** Converting line `i` takes the tables from `i` converted lines to
      `i + 1`, reading the price from the partly updated catalogue. */
  lemma ConvertedStep(products: map<ProductId, Product>, carts: map<UserId, seq<CartLine>>, orders: seq<Order>,
                      user: UserId, cart: seq<CartLine>, lines: seq<PricedLine>, id: nat, i: nat)
    requires forall k | 0 <= k < |cart| :: cart[k].product in products
    requires lines == Resolve(cart, products)
    requires i < |cart| && id < |orders|
    ensures var cur := Converted(products, carts, orders, user, cart, lines, id, i);
            var l := cart[i];
            && l.product in cur.products
            && user in cur.carts && |cur.carts[user]| > 0
            && Converted(products, carts, orders, user, cart, lines, id, i + 1)
               == Progress(cur.products[l.product := cur.products[l.product].(quantity := cur.products[l.product].quantity - l.quantity)],
                           cur.carts[user := cur.carts[user][1..]],
                           cur.orders[id := cur.orders[id].(lines := cur.orders[id].lines
                                             + [OrderLine(l.product, l.quantity, cur.products[l.product].price)])])
  {
    var cur := Converted(products, carts, orders, user, cart, lines, id, i);
    var next := Converted(products, carts, orders, user, cart, lines, id, i + 1);
    var l := cart[i];
    ShippedStep(products, cart, i, cur.products);
    var stepped := cur.products[l.product := cur.products[l.product].(quantity := cur.products[l.product].quantity - l.quantity)];
    assert next.products == stepped;
    assert cart[i..][1..] == cart[i + 1..];
    OrderLinesOfSnoc(lines, i);
  }

  /** With every line converted, the tables are those of a finished checkout. */
  lemma ConvertedAll(products: map<ProductId, Product>, carts: map<UserId, seq<CartLine>>, orders: seq<Order>,
                     user: UserId, cart: seq<CartLine>, lines: seq<PricedLine>, id: nat)
    requires |lines| == |cart| && id < |orders|
    ensures Converted(products, carts, orders, user, cart, lines, id, |cart|)
            == Progress(Shipped(products, cart), carts[user := []], orders[id := orders[id].(lines := OrderLinesOf(lines))])
  {
    assert cart[..|cart|] == cart && lines[..|lines|] == lines && cart[|cart|..] == [];
  }

  predicate InWindow(c: Coupon, today: Date)
  {
    c.startDate <= today <= c.endDate
  }

  /** The coupon with this code whose validity window contains `today`. */
  function ActiveCoupon(coupons: map<string, Coupon>, code: string, today: Date): Option<Coupon>
  {
    if code in coupons && InWindow(coupons[code], today) then Some(coupons[code]) else None
  }

  /** Some order already carries the code with its applied flag set. */
  predicate CouponUsed(orders: seq<Order>, code: string)
  {
    exists i | 0 <= i < |orders| :: orders[i].couponCode == Some(code) && orders[i].couponApplied
  }

  /** One use taken from a coupon: the counter drops by exactly one when it
      is set, a coupon without a counter is left as it is. */
  function Spend(c: Coupon): (r: Coupon)
    requires c.maxUsage != Some(0)
    ensures r.(maxUsage := c.maxUsage) == c
    ensures c.maxUsage.None? ==> r.maxUsage.None?
    ensures c.maxUsage.Some? ==> r.maxUsage.Some? && r.maxUsage.value + 1 == c.maxUsage.value
  {
    match c.maxUsage
    case None => c
    case Some(n) => c.(maxUsage := Some(n - 1))
  }

  /** The validation and pricing steps of checkout, in the order the view
      runs them. */
  function Price(lines: seq<PricedLine>, orders: seq<Order>, coupons: map<string, Coupon>,
                 code: Option<string>, today: Date): (r: Result<Pricing, Rejection>)
    ensures lines == [] ==> r == Failure(NoCartItems)
    ensures lines != [] && HasCode(code) && CouponUsed(orders, code.value) ==> r == Failure(CouponAlreadyUsed)
    ensures (lines != [] && HasCode(code) && !CouponUsed(orders, code.value)
             && ActiveCoupon(coupons, code.value, today).None?) ==> r == Failure(InvalidOrExpiredCoupon)
    ensures (lines != [] && HasCode(code) && !CouponUsed(orders, code.value) && ActiveCoupon(coupons, code.value, today).Some?
             && coupons[code.value].maxUsage == Some(0)) ==> r == Failure(UsageLimitReached)
    ensures (lines != [] && HasCode(code) && !CouponUsed(orders, code.value) && ActiveCoupon(coupons, code.value, today).Some?
             && coupons[code.value].maxUsage != Some(0) && CalculateDiscount(coupons[code.value], lines).None?)
            ==> r == Failure(CouponDoesNotApply)
    ensures r.Success? <==>
              && lines != []
              && (HasCode(code) ==>
                    && !CouponUsed(orders, code.value)
                    && ActiveCoupon(coupons, code.value, today).Some?
                    && coupons[code.value].maxUsage != Some(0)
                    && CalculateDiscount(coupons[code.value], lines).Some?)
    ensures r.Success? ==> r.value.subtotal == CartTotal(lines) && r.value.total == r.value.subtotal - r.value.discount
    ensures r.Success? && !HasCode(code) ==> r.value.discount == 0.0 && r.value.spent == None
    ensures r.Success? && HasCode(code) ==>
              && r.value.discount == CalculateDiscount(coupons[code.value], lines).value.amount
              && r.value.spent == Some(Spend(coupons[code.value]))
  {
    if lines == [] then Failure(NoCartItems)
    else if HasCode(code) && CouponUsed(orders, code.value) then Failure(CouponAlreadyUsed)
    else
      var subtotal := CartTotal(lines);
      if !HasCode(code) then Success(Pricing(subtotal, 0.0, subtotal, None))
      else match ActiveCoupon(coupons, code.value, today)
        case None => Failure(InvalidOrExpiredCoupon)
        case Some(c) =>
          if c.maxUsage.Some? && c.maxUsage.value <= 0 then Failure(UsageLimitReached)
          else match CalculateDiscount(c, lines)
            case None => Failure(CouponDoesNotApply)
            case Some(d) => Success(Pricing(subtotal, d.amount, subtotal - d.amount, Some(Spend(c))))
  }

  /** `PlaceOrderView.create`: the store after the request, and the new
      order's position or the rejection. */
  function PlaceOrder(s: StoreState, user: UserId, req: OrderRequest, today: Date): (out: (StoreState, Result<nat, Rejection>))
    requires s.Valid()
    ensures out.0.Valid()
    ensures out.1 == match Price(Resolve(s.CartOf(user), s.products), s.orders, s.coupons, req.couponCode, today)
                     case Success(_) => Success(|s.orders|)
                     case Failure(e) => Failure(e)
    ensures out.1.Failure? ==> out.0 == s
    ensures out.1.Success? ==>
              && out.1.value == |s.orders|
              && |out.0.orders| == |s.orders| + 1
              && out.0.orders[..|s.orders|] == s.orders
              && out.0.wishlists == s.wishlists
              && out.0.reviews == s.reviews
  {
    var cart := s.CartOf(user);
    var lines := Resolve(cart, s.products);
    match Price(lines, s.orders, s.coupons, req.couponCode, today)
    case Failure(e) => (s, Failure(e))
    case Success(p) =>
      var order := Order(user, OrderLinesOf(lines), p.total, p.subtotal, req.couponCode, true,
                         p.discount, req.shippingAddress, req.paymentMethod, Processing);
      var coupons := if p.spent.Some? then s.coupons[p.spent.value.code := p.spent.value] else s.coupons;
      (s.(products := Shipped(s.products, cart), carts := s.carts[user := []], coupons := coupons,
          orders := s.orders + [order]),
       Success(|s.orders|))
  }

  /** `ValidateCouponForCartView.create`: price the cart with a coupon
      without consuming it. */
  function PreviewCoupon(s: StoreState, user: UserId, code: Option<string>, today: Date): (r: Result<Preview, Rejection>)
    requires s.Valid()
    ensures !HasCode(code) ==> r == Failure(CouponCodeRequired)
    ensures HasCode(code) && ActiveCoupon(s.coupons, code.value, today).None? ==> r == Failure(InvalidOrExpiredCoupon)
    ensures (HasCode(code) && ActiveCoupon(s.coupons, code.value, today).Some?
             && CalculateDiscount(s.coupons[code.value], Resolve(s.CartOf(user), s.products)).None?)
            ==> r == Failure(CouponDoesNotApply)
    ensures r.Success? <==>
              && HasCode(code)
              && ActiveCoupon(s.coupons, code.value, today).Some?
              && CalculateDiscount(s.coupons[code.value], Resolve(s.CartOf(user), s.products)).Some?
    ensures r.Success? ==>
              && HasCode(code)
              && code.value in s.coupons && InWindow(s.coupons[code.value], today)
              && r.value.originalTotal == CartTotal(Resolve(s.CartOf(user), s.products))
              && r.value.finalPrice == r.value.originalTotal - r.value.details.amount
              && Some(r.value.details) == CalculateDiscount(s.coupons[code.value], Resolve(s.CartOf(user), s.products))
  {
    if !HasCode(code) then Failure(CouponCodeRequired)
    else match ActiveCoupon(s.coupons, code.value, today)
      case None => Failure(InvalidOrExpiredCoupon)
      case Some(c) =>
        var lines := Resolve(s.CartOf(user), s.products);
        match CalculateDiscount(c, lines)
        case None => Failure(CouponDoesNotApply)
        case Some(d) =>
          var total := CartTotal(lines);
          Success(Preview(total, d, total - d.amount))
  }
}
