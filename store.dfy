/** The persistent store as the views change it: one object whose tables are
    updated in place, each request a method proved against the function that
    specifies it. */
module Storefront {
  import opened Models
  import opened Discount
  import Checkout
  import Cart
  import Reviews

  class Store {
    var products: map<ProductId, Product>
    var carts: map<UserId, seq<CartLine>>
    var coupons: map<string, Coupon>
    var orders: seq<Order>
    var wishlists: map<UserId, set<ProductId>>
    var reviews: seq<Review>

    function State(): StoreState
      reads this
    {
      StoreState(products, carts, coupons, orders, wishlists, reviews)
    }

    predicate Valid()
      reads this
    {
      State().Valid()
    }

    constructor (init: StoreState)
      requires init.Valid()
      ensures Valid() && State() == init
    {
      products, carts, coupons := init.products, init.carts, init.coupons;
      orders, wishlists, reviews := init.orders, init.wishlists, init.reviews;
    }

    /** `PlaceOrderView.create`. */
    method PlaceOrder(user: UserId, req: Checkout.OrderRequest, today: Date) returns (r: Result<nat, Rejection>)
      requires Valid()
      modifies this
      ensures Valid()
      ensures (State(), r) == Checkout.PlaceOrder(old(State()), user, req, today)
    {
      var cart := if user in carts then carts[user] else [];
      if cart == [] {
        return Failure(NoCartItems);
      }
      var code := req.couponCode;
      if HasCode(code) && Checkout.CouponUsed(orders, code.value) {
        return Failure(CouponAlreadyUsed);
      }
      var lines := Checkout.Resolve(cart, products);
      var subtotal := CartTotal(lines);
      var discount := 0.0;
      var total: real;
      ghost var spent: Option<Coupon> := None;
      if HasCode(code) {
        var found := Checkout.ActiveCoupon(coupons, code.value, today);
        if found.None? {
          return Failure(InvalidOrExpiredCoupon);
        }
        var coupon := found.value;
        if coupon.maxUsage.Some? && coupon.maxUsage.value <= 0 {
          return Failure(UsageLimitReached);
        }
        var details := CalculateDiscount(coupon, lines);
        if details.None? {
          return Failure(CouponDoesNotApply);
        }
        discount := details.value.amount;
        total := subtotal - discount;
        spent := Some(Checkout.Spend(coupon));
        if coupon.maxUsage.Some? {
          coupons := coupons[coupon.code := coupon.(maxUsage := Some(coupon.maxUsage.value - 1))];
        }
      } else {
        total := subtotal;
      }
      assert Checkout.Price(lines, old(orders), old(coupons), code, today)
          == Success(Checkout.Pricing(subtotal, discount, total, spent));

      // The order row is created with the flag at its default, then flagged.
      var id := |orders|;
      orders := orders + [Order(user, [], total, subtotal, code, false, discount,
                                req.shippingAddress, req.paymentMethod, Processing)];
      orders := orders[id := orders[id].(couponApplied := true)];
      ghost var order := orders[id].(lines := Checkout.OrderLinesOf(lines));
      ghost var coupons1 := coupons;
      assert coupons1 == if spent.Some? then old(coupons)[spent.value.code := spent.value] else old(coupons);
      ConvertCartLines(user, cart, lines, id);
      assert State() == Checkout.PlaceOrder(old(State()), user, req, today).0 by {
        assert orders == old(orders) + [order];
        assert State() == old(State()).(products := Checkout.Shipped(old(products), cart), carts := old(carts)[user := []],
                                        coupons := coupons1, orders := old(orders) + [order]);
      }
      r := Success(id);
    }

    /** The loop of checkout over the cart: each line takes its units from
        the product's stock, becomes an order line at the product's current
        price, and is deleted from the cart. */
    method ConvertCartLines(user: UserId, cart: seq<CartLine>, lines: seq<PricedLine>, id: nat)
      requires user in carts && carts[user] == cart
      requires forall i | 0 <= i < |cart| :: cart[i].product in products
      requires lines == Checkout.Resolve(cart, products)
      requires id < |orders| && orders[id].lines == []
      modifies this
      ensures products == Checkout.Shipped(old(products), cart)
      ensures carts == old(carts)[user := []]
      ensures orders == old(orders)[id := old(orders)[id].(lines := Checkout.OrderLinesOf(lines))]
      ensures coupons == old(coupons) && wishlists == old(wishlists) && reviews == old(reviews)
    {
      var i := 0;
      assert Checkout.Converted(old(products), old(carts), old(orders), user, cart, lines, id, 0)
          == Checkout.Progress(products, carts, orders) by {
        assert Checkout.OrderLinesOf(lines[..0]) == [];
        assert cart[0..] == cart;
      }
      while i < |cart|
        invariant 0 <= i <= |cart|
        invariant Checkout.Progress(products, carts, orders)
                  == Checkout.Converted(old(products), old(carts), old(orders), user, cart, lines, id, i)
        invariant coupons == old(coupons) && wishlists == old(wishlists) && reviews == old(reviews)
      {
        Checkout.ConvertedStep(old(products), old(carts), old(orders), user, cart, lines, id, i);
        var line := cart[i];
        var product := products[line.product];
        var priceAtOrder := product.price;
        products := products[line.product := product.(quantity := product.quantity - line.quantity)];
        orders := orders[id := orders[id].(lines := orders[id].lines + [OrderLine(line.product, line.quantity, priceAtOrder)])];
        carts := carts[user := carts[user][1..]];
        i := i + 1;
      }
      Checkout.ConvertedAll(old(products), old(carts), old(orders), user, cart, lines, id);
    }

    /** `AddCartView.post`. */
    method AddToCart(user: UserId, product: ProductId, quantity: nat) returns (r: Result<CartLine, Rejection>)
      requires Valid()
      modifies this
      ensures Valid()
      ensures (State(), r) == Cart.AddToCart(old(State()), user, product, quantity)
    {
      if product !in products {
        return Failure(ProductNotFound);
      }
      ghost var s0 := old(State());
      if user !in carts {
        carts := carts[user := []];
      }
      var cart := carts[user];
      assert cart == s0.CartOf(user);
      var found := Cart.FindLine(cart, product);
      var i: nat;
      var q: nat;
      if found.Some? {
        i := found.value;
        q := cart[i].quantity + quantity;
      } else {
        // get-or-create saves the new line with the column default before the check
        carts := carts[user := cart + [CartLine(product, 1)]];
        i := |cart|;
        q := quantity;
      }
      if q > products[product].quantity {
        assert State() == Cart.AddToCart(s0, user, product, quantity).0 by {
          assert found.Some? ==> carts == s0.carts;
          assert found.None? ==> carts == s0.carts[user := cart + [CartLine(product, 1)]];
        }
        return Failure(ExceedsAvailableQuantity);
      }
      carts := carts[user := carts[user][i := CartLine(product, q)]];
      r := Success(CartLine(product, q));
      assert State() == Cart.AddToCart(s0, user, product, quantity).0 by {
        if found.Some? {
          assert carts == s0.carts[user := cart[i := CartLine(product, q)]];
        } else {
          assert (cart + [CartLine(product, 1)])[i := CartLine(product, q)] == cart + [CartLine(product, quantity)];
          assert carts == s0.carts[user := cart + [CartLine(product, quantity)]];
        }
      }
    }

    /** `WishlistMoveToCartView.post`. */
    method MoveToCart(user: UserId, product: ProductId) returns (r: Result<(), Rejection>)
      requires Valid()
      modifies this
      ensures Valid()
      ensures (State(), r) == Cart.MoveToCart(old(State()), user, product)
    {
      if user !in wishlists {
        wishlists := wishlists[user := {}];
      }
      assert wishlists == old(wishlists)[user := old(State()).WishlistOf(user)];
      if product !in wishlists[user] {
        return Failure(NotInWishlist);
      }
      var cart := if user in carts then carts[user] else [];
      if Cart.FindLine(cart, product).Some? {
        return Failure(AlreadyInCart);
      }
      carts := carts[user := cart + [CartLine(product, 1)]];
      wishlists := wishlists[user := wishlists[user] - {product}];
      r := Success(());
    }

    /** `ProductReviewCreateView.perform_create`. */
    method CreateReview(user: UserId, review: Review) returns (r: Result<(), Rejection>)
      requires Valid()
      modifies this
      ensures Valid()
      ensures (State(), r) == Reviews.CreateReview(old(State()), user, review)
    {
      if !Reviews.Purchased(orders, user, review.product) {
        return Failure(NotPurchased);
      }
      reviews := reviews + [review.(user := user)];
      r := Success(());
    }
  }
}
