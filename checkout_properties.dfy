/** What a checkout promises: its rejections, the order it records, the
    stock and cart it leaves, the coupon use it takes, and how it relates to
    the coupon preview and to later checkouts. */
module CheckoutProperties {
  import opened Models
  import opened Discount
  import opened Checkout

  /** A product that no cart line names contributes no units. */
  lemma {:induction false} QtyInAbsent(cart: seq<CartLine>, p: ProductId)
    requires forall i | 0 <= i < |cart| :: cart[i].product != p
    ensures QtyIn(cart, p) == 0
  {
    if cart != [] {
      QtyInAbsent(cart[..|cart| - 1], p);
    }
  }

  /** In a cart whose products are distinct, the units of a line's product
      are exactly that line's quantity. */
  lemma {:induction false} QtyInDistinct(cart: seq<CartLine>, k: nat)
    requires DistinctProducts(cart) && k < |cart|
    ensures QtyIn(cart, cart[k].product) == cart[k].quantity
  {
    var n := |cart| - 1;
    if k == n {
      QtyInAbsent(cart[..n], cart[k].product);
    } else {
      QtyInDistinct(cart[..n], k);
    }
  }

  /** The frozen order lines carry, product by product, the units of the cart. */
  lemma {:induction false} OrderedMatchesCart(cart: seq<CartLine>, products: map<ProductId, Product>, p: ProductId)
    requires forall i | 0 <= i < |cart| :: cart[i].product in products
    ensures QtyOrdered(OrderLinesOf(Resolve(cart, products)), p) == QtyIn(cart, p)
  {
    if cart != [] {
      var n := |cart| - 1;
      var lines := OrderLinesOf(Resolve(cart, products));
      assert lines[..n] == OrderLinesOf(Resolve(cart[..n], products));
      OrderedMatchesCart(cart[..n], products, p);
    }
  }

  /** Re-adding an order's frozen lines gives the cart total it was priced at. */
  lemma {:induction false} LinesTotalMatchesCartTotal(lines: seq<PricedLine>)
    ensures LinesTotal(OrderLinesOf(lines)) == CartTotal(lines)
  {
    if lines != [] {
      var n := |lines| - 1;
      assert OrderLinesOf(lines)[..n] == OrderLinesOf(lines[..n]);
      LinesTotalMatchesCartTotal(lines[..n]);
    }
  }

  /** Every rejection of checkout, in the order the view tests them; each
      leaves the whole store as it was. */
  lemma CheckoutRejections(s: StoreState, user: UserId, req: OrderRequest, today: Date)
    requires s.Valid()
    ensures var out := PlaceOrder(s, user, req, today);
            var cart := s.CartOf(user);
            var code := req.couponCode;
            && (cart == [] ==> out == (s, Failure(NoCartItems)))
            && (cart != [] && HasCode(code) && CouponUsed(s.orders, code.value)
                ==> out == (s, Failure(CouponAlreadyUsed)))
            && (cart != [] && HasCode(code) && !CouponUsed(s.orders, code.value)
                && (code.value !in s.coupons || !InWindow(s.coupons[code.value], today))
                ==> out == (s, Failure(InvalidOrExpiredCoupon)))
            && (cart != [] && HasCode(code) && !CouponUsed(s.orders, code.value)
                && code.value in s.coupons && InWindow(s.coupons[code.value], today)
                && s.coupons[code.value].maxUsage == Some(0)
                ==> out == (s, Failure(UsageLimitReached)))
            && (cart != [] && HasCode(code) && !CouponUsed(s.orders, code.value)
                && code.value in s.coupons && InWindow(s.coupons[code.value], today)
                && s.coupons[code.value].maxUsage != Some(0)
                && CalculateDiscount(s.coupons[code.value], Resolve(cart, s.products)).None?
                ==> out == (s, Failure(CouponDoesNotApply)))
  {
  }

  /** A checkout is accepted exactly when none of the rejections applies:
      the cart has items and, when a code is given, it is unused, its
      coupon is in its window with uses left, and the calculator applies. */
  lemma CheckoutAcceptance(s: StoreState, user: UserId, req: OrderRequest, today: Date)
    requires s.Valid()
    ensures var cart := s.CartOf(user);
            var code := req.couponCode;
            PlaceOrder(s, user, req, today).1 == Success(|s.orders|)
            <==> && cart != []
                 && (HasCode(code) ==>
                       && !CouponUsed(s.orders, code.value)
                       && code.value in s.coupons && InWindow(s.coupons[code.value], today)
                       && s.coupons[code.value].maxUsage != Some(0)
                       && CalculateDiscount(s.coupons[code.value], Resolve(cart, s.products)).Some?)
  {
    assert |Resolve(s.CartOf(user), s.products)| == |s.CartOf(user)|;
  }

  /** The order a successful checkout records: the user's order, marked as
      having a coupon applied whether or not one was, priced at the subtotal
      less the discount with no clamping at zero. */
  lemma CheckoutOrderRecord(s: StoreState, user: UserId, req: OrderRequest, today: Date)
    requires s.Valid() && PlaceOrder(s, user, req, today).1.Success?
    ensures var order := PlaceOrder(s, user, req, today).0.orders[|s.orders|];
            var lines := Resolve(s.CartOf(user), s.products);
            && order.user == user
            && order.status == Processing
            && order.couponApplied
            && order.couponCode == req.couponCode
            && order.shippingAddress == req.shippingAddress
            && order.paymentMethod == req.paymentMethod
            && order.totalWithoutCoupon == CartTotal(lines)
            && order.totalAmount == order.totalWithoutCoupon - order.discountedAmount
            && (!HasCode(req.couponCode) ==> order.discountedAmount == 0.0)
            && (HasCode(req.couponCode) ==>
                  && req.couponCode.value in s.coupons
                  && InWindow(s.coupons[req.couponCode.value], today)
                  && CalculateDiscount(s.coupons[req.couponCode.value], lines)
                     == Some(DiscountDetails(s.coupons[req.couponCode.value].kind,
                                             s.coupons[req.couponCode.value].value,
                                             order.discountedAmount)))
  {
  }

  /** An amount coupon worth more than the cart makes the order total negative. */
  lemma TotalNotClamped(s: StoreState, user: UserId, req: OrderRequest, today: Date)
    requires s.Valid() && PlaceOrder(s, user, req, today).1.Success?
    requires HasCode(req.couponCode) && req.couponCode.value in s.coupons
    requires s.coupons[req.couponCode.value].kind == Amount
    requires s.coupons[req.couponCode.value].value > CartTotal(Resolve(s.CartOf(user), s.products))
    ensures PlaceOrder(s, user, req, today).0.orders[|s.orders|].totalAmount < 0.0
  {
    CheckoutOrderRecord(s, user, req, today);
  }

  /** After a successful checkout every former cart line has left the cart,
      taken its units from the product's stock (however low that stock was)
      and become an order line at the product's price of that moment; other
      products and other users' carts are untouched. */
  lemma CheckoutShipsEachLine(s: StoreState, user: UserId, req: OrderRequest, today: Date)
    requires s.Valid() && PlaceOrder(s, user, req, today).1.Success?
    ensures var s' := PlaceOrder(s, user, req, today).0;
            var cart := s.CartOf(user);
            var order := s'.orders[|s.orders|];
            && s'.CartOf(user) == []
            && (forall u | u != user :: s'.CartOf(u) == s.CartOf(u))
            && s'.products.Keys == s.products.Keys
            && |order.lines| == |cart|
            && (forall i | 0 <= i < |cart| ::
                  && s'.products[cart[i].product].quantity == s.products[cart[i].product].quantity - cart[i].quantity
                  && order.lines[i] == OrderLine(cart[i].product, cart[i].quantity, s.products[cart[i].product].price))
            && (forall p | p in s.products :: s'.products[p].price == s.products[p].price)
            && (forall p | p in s.products && (forall i | 0 <= i < |cart| :: cart[i].product != p) ::
                  s'.products[p] == s.products[p])
  {
    var s' := PlaceOrder(s, user, req, today).0;
    var cart := s.CartOf(user);
    assert DistinctProducts(cart);
    forall i | 0 <= i < |cart|
      ensures s'.products[cart[i].product].quantity == s.products[cart[i].product].quantity - cart[i].quantity
    {
      QtyInDistinct(cart, i);
    }
    forall p | p in s.products && (forall i | 0 <= i < |cart| :: cart[i].product != p)
      ensures s'.products[p] == s.products[p]
    {
      QtyInAbsent(cart, p);
    }
  }

  /** Stock is conserved: what a product has left plus what the new order
      takes of it is what it had. */
  lemma StockConserved(s: StoreState, user: UserId, req: OrderRequest, today: Date)
    requires s.Valid() && PlaceOrder(s, user, req, today).1.Success?
    ensures var s' := PlaceOrder(s, user, req, today).0;
            forall p | p in s.products ::
              p in s'.products
              && s'.products[p].quantity + QtyOrdered(s'.orders[|s.orders|].lines, p) == s.products[p].quantity
  {
    var s' := PlaceOrder(s, user, req, today).0;
    var cart := s.CartOf(user);
    forall p | p in s.products
      ensures s'.products[p].quantity + QtyOrdered(s'.orders[|s.orders|].lines, p) == s.products[p].quantity
    {
      OrderedMatchesCart(cart, s.products, p);
    }
  }

  /** An order's recorded subtotal can be recomputed from its own lines,
      whatever happens to the catalogue prices afterwards. */
  lemma OrderLinesMatchSubtotal(s: StoreState, user: UserId, req: OrderRequest, today: Date)
    requires s.Valid() && PlaceOrder(s, user, req, today).1.Success?
    ensures var order := PlaceOrder(s, user, req, today).0.orders[|s.orders|];
            LinesTotal(order.lines) == order.totalWithoutCoupon
  {
    LinesTotalMatchesCartTotal(Resolve(s.CartOf(user), s.products));
  }

  /** Applying a coupon takes exactly one use from its counter when it has
      one and leaves it alone otherwise; a checkout without a coupon code
      leaves every coupon as it was. */
  lemma CheckoutCouponUse(s: StoreState, user: UserId, req: OrderRequest, today: Date)
    requires s.Valid() && PlaceOrder(s, user, req, today).1.Success?
    ensures var s' := PlaceOrder(s, user, req, today).0;
            var code := req.couponCode;
            && (!HasCode(code) ==> s'.coupons == s.coupons)
            && (HasCode(code) ==>
                  && code.value in s.coupons
                  && s.coupons[code.value].maxUsage != Some(0)
                  && s'.coupons == s.coupons[code.value := Spend(s.coupons[code.value])])
  {
  }

  /** A coupon code is consumed at most once across all orders: once one
      checkout has applied it, every checkout on a later store (one whose
      orders extend the orders then recorded) that names it is rejected,
      whoever places it and whatever uses its counter has left. */
  lemma CouponConsumedOnce(s: StoreState, u1: UserId, req1: OrderRequest, t1: Date,
                           later: StoreState, u2: UserId, req2: OrderRequest, t2: Date)
    requires s.Valid() && HasCode(req1.couponCode) && req2.couponCode == req1.couponCode
    requires PlaceOrder(s, u1, req1, t1).1.Success?
    requires later.Valid()
    requires var s1 := PlaceOrder(s, u1, req1, t1).0;
             |s1.orders| <= |later.orders| && later.orders[..|s1.orders|] == s1.orders
    ensures PlaceOrder(later, u2, req2, t2).1
              == Failure(if later.CartOf(u2) == [] then NoCartItems else CouponAlreadyUsed)
  {
    var s1 := PlaceOrder(s, u1, req1, t1).0;
    var k := |s.orders|;
    assert later.orders[k] == s1.orders[k];
    assert later.orders[k].couponCode == req1.couponCode && later.orders[k].couponApplied;
    assert CouponUsed(later.orders, req1.couponCode.value);
  }

  /** Checkout never looks at stock: changing only the quantities on hand
      changes neither whether it succeeds nor why it fails. */
  lemma StockNotChecked(s: StoreState, stock: map<ProductId, int>, user: UserId, req: OrderRequest, today: Date)
    requires s.Valid() && stock.Keys == s.products.Keys
    ensures var s2 := s.(products := map p | p in s.products :: s.products[p].(quantity := stock[p]));
            s2.Valid() && PlaceOrder(s2, user, req, today).1 == PlaceOrder(s, user, req, today).1
  {
    var s2 := s.(products := map p | p in s.products :: s.products[p].(quantity := stock[p]));
    var cart := s.CartOf(user);
    assert s2.CartOf(user) == cart;
    assert Resolve(cart, s2.products) == Resolve(cart, s.products);
  }

  /** The preview quotes what checkout charges: when checkout applies a
      coupon, the preview of the same cart and coupon succeeds with the same
      subtotal, discount and final price. */
  lemma PreviewMatchesCheckout(s: StoreState, user: UserId, req: OrderRequest, today: Date)
    requires s.Valid() && HasCode(req.couponCode) && PlaceOrder(s, user, req, today).1.Success?
    ensures var order := PlaceOrder(s, user, req, today).0.orders[|s.orders|];
            var pv := PreviewCoupon(s, user, req.couponCode, today);
            && pv.Success?
            && pv.value.originalTotal == order.totalWithoutCoupon
            && pv.value.details.amount == order.discountedAmount
            && pv.value.finalPrice == order.totalAmount
  {
    CheckoutOrderRecord(s, user, req, today);
  }

  /** The preview gate is weaker than checkout's: an exhausted coupon is
      still quoted whenever it applies to the cart, while checkout refuses it. */
  lemma PreviewIgnoresUsageLimit(s: StoreState, user: UserId, code: string, today: Date)
    requires s.Valid() && code != "" && s.CartOf(user) != []
    requires !CouponUsed(s.orders, code)
    requires code in s.coupons && InWindow(s.coupons[code], today) && s.coupons[code].maxUsage == Some(0)
    ensures PlaceOrder(s, user, OrderRequest(Some(code), "", ""), today).1 == Failure(UsageLimitReached)
    ensures PreviewCoupon(s, user, Some(code), today).Success?
            <==> CalculateDiscount(s.coupons[code], Resolve(s.CartOf(user), s.products)).Some?
  {
  }

  /** The preview does not require a non-empty cart: a coupon with no
      minimum purchase is quoted on an empty cart at a zero total, while
      checkout refuses that cart. */
  lemma PreviewEmptyCart(s: StoreState, user: UserId, code: string, today: Date)
    requires s.Valid() && code != "" && s.CartOf(user) == []
    requires code in s.coupons && InWindow(s.coupons[code], today)
    requires !s.coupons[code].kind.OtherKind? && s.coupons[code].minPurchase <= 0.0
    ensures PlaceOrder(s, user, OrderRequest(Some(code), "", ""), today).1 == Failure(NoCartItems)
    ensures var pv := PreviewCoupon(s, user, Some(code), today);
            && pv.Success?
            && pv.value.originalTotal == 0.0
            && pv.value.finalPrice == -pv.value.details.amount
  {
    assert Resolve(s.CartOf(user), s.products) == [];
  }
}
