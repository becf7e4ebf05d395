/** Record shapes of the storefront: products, cart lines, coupons, orders,
    wishlists and reviews, and the whole persistent store as one value. */
module Models {

  datatype Option<+T> = None | Some(value: T)

  datatype Result<+R, +E> = Success(value: R) | Failure(error: E)

  type ProductId = nat
  type UserId = nat

  /** A calendar day, counted from any fixed origin. */
  type Date = int

  /** Catalogue entry. `quantity` is the stock on hand. The column is
      non-negative, but the model leaves that constraint out and uses `int`:
      checkout subtracts ordered units without checking availability. */
  datatype Product = Product(price: real, quantity: int)

  /** One line of a user's cart. */
  datatype CartLine = CartLine(product: ProductId, quantity: nat)

  /** A `discount_type` string other than the two the calculator knows. */
  type OtherKindName = name: string | name != "percentage" && name != "amount" witness ""

  /** `discount_type`; the column lists two choices but stores any string,
      and each string maps to exactly one of these kinds. */
  datatype DiscountKind = Amount | Percentage | OtherKind(name: OtherKindName)

  /** A coupon; `maxUsage` is the nullable remaining-use counter. */
  datatype Coupon = Coupon(
    code: string,
    kind: DiscountKind,
    value: real,
    minPurchase: real,
    startDate: Date,
    endDate: Date,
    maxUsage: Option<nat>)

  datatype OrderStatus = Processing | Shipped | Delivered

  /** One purchased product with the unit price frozen at checkout. */
  datatype OrderLine = OrderLine(product: ProductId, quantity: nat, priceAtOrder: real)

  datatype Order = Order(
    user: UserId,
    lines: seq<OrderLine>,
    totalAmount: real,
    totalWithoutCoupon: real,
    couponCode: Option<string>,
    couponApplied: bool,
    discountedAmount: real,
    shippingAddress: string,
    paymentMethod: string,
    status: OrderStatus)

  /** A product review; its free-form fields are carried as one opaque text. */
  datatype Review = Review(user: UserId, product: ProductId, content: string)

  /** Why a request was turned down (one per client-visible error message). */
  datatype Rejection =
    | ProductNotFound
    | ExceedsAvailableQuantity
    | NotInWishlist
    | AlreadyInCart
    | NotPurchased
    | NoCartItems
    | CouponAlreadyUsed
    | CouponCodeRequired
    | InvalidOrExpiredCoupon
    | UsageLimitReached
    | CouponDoesNotApply

  /** Python truthiness of the optional coupon code of a request. */
  predicate HasCode(code: Option<string>)
  {
    code.Some? && code.value != ""
  }

  /** Cart lines whose products exist and appear at most once each. The
      table has no uniqueness constraint: the add-to-cart and move-to-cart
      views look the product up before creating a line, and the model
      assumes no other writer introduces a second line. */
  predicate LinesValid(lines: seq<CartLine>, products: map<ProductId, Product>)
  {
    && (forall i | 0 <= i < |lines| :: lines[i].product in products)
    && DistinctProducts(lines)
  }

  predicate DistinctProducts(lines: seq<CartLine>)
  {
    forall i, j | 0 <= i < j < |lines| :: lines[i].product != lines[j].product
  }

  /** The persistent store: every table the checkout engine touches. A user
      without a key in `carts` (or `wishlists`) has no cart (wishlist) row yet. */
  datatype StoreState = StoreState(
    products: map<ProductId, Product>,
    carts: map<UserId, seq<CartLine>>,
    coupons: map<string, Coupon>,
    orders: seq<Order>,
    wishlists: map<UserId, set<ProductId>>,
    reviews: seq<Review>)
  {
    /** Referential integrity kept by the database, coupon codes unique
        by their column, and at most one line per product in a cart as the
        modelled views keep it. */
    predicate Valid()
    {
      && (forall u | u in carts :: LinesValid(carts[u], products))
      && (forall c | c in coupons :: coupons[c].code == c)
      && (forall u | u in wishlists :: wishlists[u] <= products.Keys)
    }

    /** The user's cart lines; no cart row reads as an empty cart. */
    function CartOf(user: UserId): seq<CartLine>
    {
      if user in carts then carts[user] else []
    }

    /** The user's wishlisted products; no wishlist row reads as none. */
    function WishlistOf(user: UserId): set<ProductId>
    {
      if user in wishlists then wishlists[user] else {}
    }
  }
}
