# Storefront checkout and coupon engine

A Dafny model of the order-placement core of a Django storefront API
(`ecommerce_app/views.py`): the coupon discount calculator, checkout
(`PlaceOrderView.create`), add-to-cart (`AddCartView.post`), the coupon
preview (`ValidateCouponForCartView.create`), moving a wishlisted product to
the cart (`WishlistMoveToCartView.post`) and the purchase gate on reviews
(`ProductReviewCreateView.perform_create`).

Layout:

- `models.dfy` (module `Models`): the record shapes. `Product`, `CartLine`,
  `Order` and `OrderLine` follow `models.py`. `Coupon` follows the coupon
  migration (`migrations/0007_coupon.py:16-23`). The order fields
  `coupon_code`, `coupon_applied`, `discounted_amount` and
  `total_amount_without_coupon` are taken from where the view writes them.
  `StoreState` holds every table as one value. Its `Valid` predicate states
  four invariants. The database keeps three of them through its foreign
  keys and unique column: cart lines name existing products, wishlisted
  products exist (the wishlist's many-to-many link), and a coupon is keyed
  by its unique code. The fourth is at most one line per product in a cart. The cart-item table has no such
  constraint (models.py:67-70); the add-to-cart and move-to-cart views keep
  it by looking the product up before creating a line. `DiscountKind` maps
  each `discount_type` string to one kind, so an unrecognised kind never
  carries the names "percentage" or "amount".
- `discount.dfy` (module `Discount`): `calculate_discount`. Two view classes
  each define an identical copy: `ValidateCouponForCartView`
  (views.py:473-492) and `PlaceOrderView` (views.py:529-548). The model has
  one.
- `checkout.dfy` (module `Checkout`): checkout and the coupon preview as pure
  functions. Each returns the store it leaves behind and the outcome.
- `checkout_properties.dfy` (module `CheckoutProperties`): lemmas about
  checkout, the order it records, stock, coupon use and the preview.
- `cart.dfy` (module `Cart`): add-to-cart and wishlist-to-cart as functions.
- `reviews.dfy` (module `Reviews`): the review purchase gate.
- `store.dfy` (module `Storefront`): class `Store`. Its fields are the tables,
  and its methods change them step by step as the views do. Each method is
  proved to leave exactly the state, and return exactly the result, of its
  specification function.

Conventions:

- Money is `real`. Python's `Decimal` is exact at these magnitudes.
- A date is an `int` day number. The view's `timezone.now()` is the
  parameter `today`.
- Each client-visible error message is a `Rejection` value. HTTP status codes
  are not modelled.
- A coupon code counts as given when it is present and non-empty, as Python's
  truthiness test in the view decides.

The code's quirks are modelled as written:

- Checkout does not check stock before taking units from it
  (`StockNotChecked`). In the code, overdrawn stock would make
  `product.save()` fail on the non-negative column (models.py:46). The model
  leaves that column constraint out and lets stock go below zero (see "Stock
  constraint" under Left out).
- The order total is not clamped at zero.
- Every order is flagged `coupon_applied`, whether or not a coupon was used.
- The reuse check rejects a coupon code found on any flagged order. So a code
  is consumed at most once across all users, whatever its `max_usage`
  (`CouponConsumedOnce`).
- The preview endpoint checks neither `max_usage` nor earlier use
  (`PreviewIgnoresUsageLimit`), nor that the cart has items
  (`PreviewEmptyCart`). It is not routed in `urls.py`, but it is
  modelled as written.

## Model

| member | source | states |
|---|---|---|
| `Discount.CalculateDiscount` | ecommerce_app/views.py:529-548 | a coupon applies iff its kind is percentage or amount and the cart total reaches the minimum purchase; a percentage coupon discounts value/100 times the total, an amount coupon its value; the details carry the coupon's kind and value |
| `Discount.MinimumPurchaseGate` | ecommerce_app/views.py:535-548 | below the minimum no kind applies; a total exactly at the minimum applies |
| `Discount.PercentageWithinTotal` | ecommerce_app/views.py:536-540 | a percentage of at most 100 on non-negative prices discounts between zero and the cart total |
| `Discount.AmountUncapped` | ecommerce_app/views.py:542-546 | an amount coupon worth more than a qualifying cart applies in full and makes the discounted price negative |
| `Checkout.Spend` | ecommerce_app/views.py:586-589 | one use drops a set counter by exactly one and leaves an unset one null; nothing else in the coupon changes |
| `Checkout.Price` | ecommerce_app/views.py:549-595 | the validation order, each with its own reason: empty cart, then already-used code, then unknown or out-of-window coupon, then exhausted counter, then inapplicable coupon; success iff none holds; total is subtotal minus discount, with discount 0 and no coupon spent when no code is given |
| `Checkout.PlaceOrder` | ecommerce_app/views.py:549-621 | the outcome is the pricing's: accepted with the next order position exactly when the pricing succeeds, otherwise refused with the pricing's reason; a rejected checkout leaves the whole store unchanged; an accepted one appends exactly one order at the next position, keeps wishlists and reviews, and keeps the store's integrity |
| `Checkout.PreviewCoupon` | ecommerce_app/views.py:493-522 | succeeds iff the code is non-empty, its coupon is in its date window and the calculator applies to the cart; otherwise refuses with code required, invalid or expired, or does not apply, in that order; a success quotes the cart total, the calculator's discount and the total less that discount |
| `CheckoutProperties.CheckoutAcceptance` | ecommerce_app/views.py:551-610 | a checkout is accepted, at the next order position, iff the cart has items and, when a code is given, it is unused, its coupon is in its window with uses left, and the calculator applies |
| `CheckoutProperties.CheckoutRejections` | ecommerce_app/views.py:551-593 | each rejection condition of checkout yields its own error and leaves the store unchanged |
| `CheckoutProperties.CheckoutOrderRecord` | ecommerce_app/views.py:560-610 | the new order belongs to the user, is Processing, carries the request's code and addresses, is flagged coupon-applied even without a coupon, and charges the subtotal less the calculator's discount (0 without a code) |
| `CheckoutProperties.TotalNotClamped` | ecommerce_app/views.py:582-584 | an amount coupon larger than the cart total produces an order with a negative total |
| `CheckoutProperties.CheckoutShipsEachLine` | ecommerce_app/views.py:612-621 | after checkout every former cart line is gone from the cart, its product's stock has dropped by the line quantity with no availability check, and an order line holds that quantity at the product's price of that moment; other products and other carts are untouched |
| `CheckoutProperties.StockConserved` | ecommerce_app/views.py:612-619 | for every product, stock left plus the units on the new order equals the stock before |
| `CheckoutProperties.OrderLinesMatchSubtotal` | ecommerce_app/views.py:600-621 | the sum of an order's frozen line prices times quantities equals its recorded pre-discount total, independent of later catalogue prices |
| `CheckoutProperties.CheckoutCouponUse` | ecommerce_app/views.py:576-589 | with a code, the applied coupon was not exhausted and is replaced by its spent record; without one, coupons are unchanged |
| `CheckoutProperties.CouponConsumedOnce` | ecommerce_app/views.py:555-610 | once a checkout has applied a code, a checkout naming it on any store whose orders extend the orders then recorded is rejected (no items, or already used), by any user |
| `CheckoutProperties.StockNotChecked` | ecommerce_app/views.py:612-617 | changing only stock quantities changes neither acceptance nor the rejection reason of checkout |
| `CheckoutProperties.PreviewMatchesCheckout` | ecommerce_app/views.py:511-522 | when checkout applies a coupon, the preview of the same cart quotes the same subtotal, discount and final price |
| `CheckoutProperties.PreviewIgnoresUsageLimit` | ecommerce_app/views.py:499-514 | an exhausted coupon is refused by checkout but quoted by the preview whenever it applies to the cart |
| `CheckoutProperties.PreviewEmptyCart` | ecommerce_app/views.py:496-522 | with an empty cart, checkout refuses while the preview quotes an in-window coupon with no minimum purchase at a zero total |
| `Cart.FindLine` | ecommerce_app/views.py:200 | finds the position of the product's line, or reports that no line names it |
| `Cart.AddToCart` | ecommerce_app/views.py:189-213 | unknown product refused with no change; otherwise accepted iff existing quantity plus request is within stock, the line then holding that sum; the user's new cart is exactly the old one with that line updated or appended, or unchanged after a refusal on an existing line, or with a quantity-1 line appended after a refusal on a new one; other users' carts and all other tables are unchanged |
| `Cart.AddToCartIntended` | ecommerce_app/views.py:200-210 | the same decision as add-to-cart, but a refusal leaves the store exactly as it was |
| `Cart.AddToCartLine` | ecommerce_app/views.py:200-213 | after an accepted add, looking the product up finds the returned line, within stock, and every other product's lookup finds the same line as before, or none as before |
| `Cart.RefusedAddLeavesLine` | ecommerce_app/views.py:200-210 | a refused add of a product with no stock still leaves a quantity-1 line for it in the cart |
| `Cart.MoveToCart` | ecommerce_app/views.py:401-421 | accepted iff the product is wishlisted and not yet in the cart, whatever its stock; refused as not in the wishlist, then as already in the cart; on success it leaves the wishlist and joins the cart with quantity 1; a refusal changes no cart and no wishlist content |
| `Reviews.CreateReview` | ecommerce_app/views.py:429-438 | a review is saved under the requesting user iff that user has an order line for the product; otherwise nothing changes |
| `Reviews.CheckoutEnablesReview` | ecommerce_app/views.py:432-435 | after a successful checkout the user may review every product that was in the cart |
| `Storefront.Store.PlaceOrder` | ecommerce_app/views.py:549-621 | the imperative checkout leaves exactly the store and returns exactly the result of `Checkout.PlaceOrder`, keeping the store's integrity |
| `Storefront.Store.ConvertCartLines` | ecommerce_app/views.py:612-621 | the loop over cart lines leaves every stock reduced by the cart's units, the order holding the frozen lines, and the cart empty |
| `Storefront.Store.AddToCart` | ecommerce_app/views.py:189-213 | the imperative add-to-cart leaves exactly the store and result of `Cart.AddToCart` |
| `Storefront.Store.MoveToCart` | ecommerce_app/views.py:401-421 | the imperative move leaves exactly the store and result of `Cart.MoveToCart` |
| `Storefront.Store.CreateReview` | ecommerce_app/views.py:429-438 | the imperative review creation leaves exactly the store and result of `Reviews.CreateReview` |

## Left out

- Email: the order confirmation and the operator alert after checkout (views.py:623-635) are outbound I/O.
- Rounding: amounts saved to two-decimal columns are rounded by the database. The model keeps exact values.
- Stock constraint: the product quantity column rejects negative values. A checkout that overdraws stock would fail at `product.save()` partway through the loop. The view has no transaction, so earlier writes would stay. The model lets stock go negative.
- Request parsing: missing shipping address or payment method, non-integer or negative quantities, and malformed bodies. Quantities are `nat`, and the address and payment method are strings. In the code, a checkout without a shipping address fails at `Order.objects.create` (views.py:600), after the coupon's `max_usage` has already been decremented and saved (views.py:587-589). Such a request spends one coupon use and creates no order; the model does not capture this.
- Authentication, permissions, HTTP status codes and serializer output.
- `created_at`: the order timestamp. An order's id is its position in `orders`.
- Concurrency and transactions: the code has none, so the model is sequential.
- Duplicate products in one cart: the modelled views never create them, so `Valid` excludes them. The cart-item table has no uniqueness constraint, and the routed `CartItemDetailView` (views.py:215-218) can rewrite a line's `product` through the serializer's writable field (serializers.py:63). That view is outside this model. With duplicates, the checkout loop would lose a stock update, because each line holds its own copy of the product.
- `coupon_applied` default: the column's default is not part of the sources. The model creates the order with the flag false and then sets it, as the view does.
- Review fields other than user and product: carried as one opaque text.
- Reviews.CreateReview: the refusal is modelled as the `NotPurchased` rejection. The code raises `permissions.PermissionDenied` (views.py:438), but `permissions` is `rest_framework.permissions` (views.py:1), which evidently does not define that name. The refusal would then surface as a server error rather than the permission message. The store is unchanged either way, which is all the model promises about a refusal.
- Order lines are nested in their order rather than kept as a separate table.
- Other views (registration, login, catalogue CRUD, coupon listing and creation, wishlist add, order history, admin order status, custom email): thin wrappers over the ORM, outside this core.

## Findings

| source | as written | input that shows it | evidently intended | confidence | as-written member | corrected member |
|---|---|---|---|---|---|---|
| ecommerce_app/views.py:200-210 | `get_or_create` saves a new cart line with the column default quantity 1 before the stock check; the refusal then returns without removing it | product 7 with stock 0, empty cart, add 1 unit: refused, yet the cart holds 1 unit of product 7 | a refused add leaves the cart as it was | high, not executed | `Cart.RefusedAddLeavesLine` | `Cart.AddToCartIntended` |

`Cart.AddToCart` and `Storefront.Store.AddToCart` follow the code as written.
`Cart.AddToCartIntended` makes the same accept-or-refuse decision. Its
contract proves that a refusal leaves the store unchanged.
