/** Adding to the cart (`AddCartView.post`) and moving a wishlisted product
    into it (`WishlistMoveToCartView.post`), as functions of the store. */
module Cart {
  import opened Models

  /** Position of the product's line in a cart, if it has one: the lookup
      half of get-or-create. */
  function FindLine(cart: seq<CartLine>, product: ProductId): (r: Option<nat>)
    ensures r.Some? ==> r.value < |cart| && cart[r.value].product == product
    ensures r.None? <==> forall i | 0 <= i < |cart| :: cart[i].product != product
  {
    if cart == [] then None
    else if cart[0].product == product then Some(0)
    else match FindLine(cart[1..], product)
      case None => None
      case Some(k) => Some(k + 1)
  }

  /** The store as add-to-cart finds it after the get-or-create calls: the
      user's cart exists and, for a product not yet in it, a line with the
      column default quantity of 1 has already been saved. */
  function AfterGetOrCreate(s: StoreState, user: UserId, product: ProductId): StoreState
  {
    var cart := s.CartOf(user);
    if FindLine(cart, product).Some? then s
    else s.(carts := s.carts[user := cart + [CartLine(product, 1)]])
  }

  /** `AddCartView.post` as the code runs it. A new line is set to the
      requested quantity, an existing one grows by it; a result above the
      product's stock is refused. The refusal happens after get-or-create
      has saved a new line, so that line stays behind with quantity 1. */
  function AddToCart(s: StoreState, user: UserId, product: ProductId, quantity: nat): (out: (StoreState, Result<CartLine, Rejection>))
    requires s.Valid()
    ensures out.0.Valid()
    ensures product !in s.products ==> out == (s, Failure(ProductNotFound))
    ensures product in s.products ==>
              var cart := s.CartOf(user);
              var before := if FindLine(cart, product).Some? then cart[FindLine(cart, product).value].quantity else 0;
              && (out.1.Success? <==> before + quantity <= s.products[product].quantity)
              && (out.1.Success? ==> out.1.value == CartLine(product, before + quantity))
              && (out.1.Failure? ==> out.1.error == ExceedsAvailableQuantity)
    ensures out.1.Failure? && FindLine(s.CartOf(user), product).Some? ==> out.0 == s
    ensures product in s.products ==>
              var cart := s.CartOf(user);
              var f := FindLine(cart, product);
              out.0.CartOf(user)
                == if out.1.Success? then (if f.Some? then cart[f.value := out.1.value] else cart + [out.1.value])
                   else if f.Some? then cart else cart + [CartLine(product, 1)]
    ensures forall u | u != user :: out.0.CartOf(u) == s.CartOf(u)
    ensures out.0.products == s.products && out.0.coupons == s.coupons && out.0.orders == s.orders
    ensures out.0.wishlists == s.wishlists && out.0.reviews == s.reviews
  {
    if product !in s.products then (s, Failure(ProductNotFound))
    else
      var stock := s.products[product].quantity;
      var cart := s.CartOf(user);
      match FindLine(cart, product)
      case Some(i) =>
        var q := cart[i].quantity + quantity;
        if q > stock then (s, Failure(ExceedsAvailableQuantity))
        else (s.(carts := s.carts[user := cart[i := CartLine(product, q)]]), Success(CartLine(product, q)))
      case None =>
        if quantity > stock then (AfterGetOrCreate(s, user, product), Failure(ExceedsAvailableQuantity))
        else (s.(carts := s.carts[user := cart + [CartLine(product, quantity)]]), Success(CartLine(product, quantity)))
  }

  /** Add-to-cart as evidently intended: the same rule, but a refused
      request leaves the store exactly as it was. */
  function AddToCartIntended(s: StoreState, user: UserId, product: ProductId, quantity: nat): (out: (StoreState, Result<CartLine, Rejection>))
    requires s.Valid()
    ensures out.0.Valid()
    ensures out.1.Failure? ==> out.0 == s
    ensures out.1.Success? ==> out.0 == AddToCart(s, user, product, quantity).0
    ensures out.1 == AddToCart(s, user, product, quantity).1
  {
    var (s', r) := AddToCart(s, user, product, quantity);
    if r.Failure? then (s, r) else (s', r)
  }

  /** Editing or appending the line at position `j` of a cart of distinct
      products, keeping its product and every other line, changes no other
      product's lookup. */
  lemma FindLineAfterEdit(cart: seq<CartLine>, cart': seq<CartLine>, j: nat, product: ProductId)
    requires DistinctProducts(cart')
    requires j < |cart'| && cart'[j].product == product
    requires |cart'| == |cart| || (|cart'| == |cart| + 1 && j == |cart|)
    requires forall i | 0 <= i < |cart| && i != j :: cart'[i] == cart[i]
    requires j < |cart| ==> cart[j].product == product
    ensures FindLine(cart', product) == Some(j)
    ensures forall p | p != product ::
              && (FindLine(cart', p).Some? <==> FindLine(cart, p).Some?)
              && (FindLine(cart, p).Some? ==> cart'[FindLine(cart', p).value] == cart[FindLine(cart, p).value])
  {
    forall p | p != product
      ensures FindLine(cart', p).Some? <==> FindLine(cart, p).Some?
      ensures FindLine(cart, p).Some? ==> cart'[FindLine(cart', p).value] == cart[FindLine(cart, p).value]
    {
      if FindLine(cart, p).Some? {
        var i := FindLine(cart, p).value;
        assert cart'[i] == cart[i];
      }
    }
  }

  /** After an accepted add, looking the product up in the user's cart
      finds the returned line, within stock, and looking up any other
      product finds the line it found before, or none as before. */
  lemma AddToCartLine(s: StoreState, user: UserId, product: ProductId, quantity: nat)
    requires s.Valid() && AddToCart(s, user, product, quantity).1.Success?
    ensures var (s', r) := AddToCart(s, user, product, quantity);
            var cart := s.CartOf(user);
            var cart' := s'.CartOf(user);
            && FindLine(cart', product).Some?
            && cart'[FindLine(cart', product).value] == r.value
            && r.value.quantity <= s.products[product].quantity
            && forall p | p != product ::
                 && (FindLine(cart', p).Some? <==> FindLine(cart, p).Some?)
                 && (FindLine(cart, p).Some? ==> cart'[FindLine(cart', p).value] == cart[FindLine(cart, p).value])
  {
    var (s', r) := AddToCart(s, user, product, quantity);
    var cart := s.CartOf(user);
    var cart' := s'.CartOf(user);
    var j := if FindLine(cart, product).Some? then FindLine(cart, product).value else |cart|;
    assert cart'[j] == r.value;
    assert DistinctProducts(cart');
    FindLineAfterEdit(cart, cart', j, product);
  }

  /** The defect as written: asking for more than the stock of a product not
      yet in the cart is refused, yet the cart then holds that product. */
  lemma RefusedAddLeavesLine()
    ensures var s := StoreState(map[7 := Product(10.0, 0)], map[], map[], [], map[], []);
            var (s', r) := AddToCart(s, 1, 7, 1);
            && r == Failure(ExceedsAvailableQuantity)
            && s'.CartOf(1) == [CartLine(7, 1)]
            && s'.CartOf(1)[0].quantity > s'.products[7].quantity
  {
  }

  /** `WishlistMoveToCartView.post`: the product leaves the wishlist and
      enters the cart with quantity 1, whatever its stock, unless it is not
      wishlisted or already in the cart. The wishlist row is created on the
      way if the user had none. */
  function MoveToCart(s: StoreState, user: UserId, product: ProductId): (out: (StoreState, Result<(), Rejection>))
    requires s.Valid()
    ensures out.0.Valid()
    ensures out.1.Success? <==> product in s.WishlistOf(user) && FindLine(s.CartOf(user), product).None?
    ensures product !in s.WishlistOf(user) ==> out.1 == Failure(NotInWishlist)
    ensures product in s.WishlistOf(user) && FindLine(s.CartOf(user), product).Some? ==> out.1 == Failure(AlreadyInCart)
    ensures out.1.Failure? ==> out.0.carts == s.carts && out.0.WishlistOf(user) == s.WishlistOf(user)
    ensures out.1.Success? ==>
              && out.0.CartOf(user) == s.CartOf(user) + [CartLine(product, 1)]
              && out.0.WishlistOf(user) == s.WishlistOf(user) - {product}
    ensures forall u | u != user :: out.0.CartOf(u) == s.CartOf(u) && out.0.WishlistOf(u) == s.WishlistOf(u)
    ensures out.0.products == s.products && out.0.coupons == s.coupons && out.0.orders == s.orders
    ensures out.0.reviews == s.reviews
  {
    var wishlist := s.WishlistOf(user);
    var s1 := s.(wishlists := s.wishlists[user := wishlist]);
    if product !in wishlist then (s1, Failure(NotInWishlist))
    else
      var cart := s.CartOf(user);
      if FindLine(cart, product).Some? then (s1, Failure(AlreadyInCart))
      else (s1.(carts := s.carts[user := cart + [CartLine(product, 1)]],
                wishlists := s.wishlists[user := wishlist - {product}]),
            Success(()))
  }
}
