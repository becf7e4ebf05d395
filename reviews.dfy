/** The purchase gate on reviews (`ProductReviewCreateView.perform_create`). */
module Reviews {
  import opened Models
  import Checkout

  /** Some order of the user has a line for the product. */
  predicate Purchased(orders: seq<Order>, user: UserId, product: ProductId)
  {
    exists i, j | 0 <= i < |orders| && 0 <= j < |orders[i].lines| ::
      orders[i].user == user && orders[i].lines[j].product == product
  }

  /** A review is saved, under the requesting user, only for a product that
      user has ordered; otherwise the request is refused and nothing changes. */
  function CreateReview(s: StoreState, user: UserId, review: Review): (out: (StoreState, Result<(), Rejection>))
    ensures out.1.Success? <==> Purchased(s.orders, user, review.product)
    ensures out.1.Failure? ==> out.0 == s && out.1.error == NotPurchased
    ensures out.1.Success? ==> out.0 == s.(reviews := s.reviews + [review.(user := user)])
  {
    if Purchased(s.orders, user, review.product) then
      (s.(reviews := s.reviews + [review.(user := user)]), Success(()))
    else
      (s, Failure(NotPurchased))
  }

  /** A successful checkout entitles its user to review every product that
      was in the cart. */
  lemma CheckoutEnablesReview(s: StoreState, user: UserId, req: Checkout.OrderRequest, today: Date, k: nat)
    requires s.Valid() && Checkout.PlaceOrder(s, user, req, today).1.Success?
    requires k < |s.CartOf(user)|
    ensures var s' := Checkout.PlaceOrder(s, user, req, today).0;
            Purchased(s'.orders, user, s.CartOf(user)[k].product)
  {
    var s' := Checkout.PlaceOrder(s, user, req, today).0;
    var n := |s.orders|;
    assert s'.orders[n].user == user;
    assert s'.orders[n].lines[k].product == s.CartOf(user)[k].product;
  }
}
