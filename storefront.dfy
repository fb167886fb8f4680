/** The state the storefront's root component holds (src/App.tsx, `App`):
    the cart, the current page and the order-confirmed flag, and the handlers
    that overwrite them. Each cart handler replaces the cart with the result
    of the matching pure updater of module Cart. */
module Storefront {
  import opened Types
  import Cart
  import Checkout

  class App {
    var cart: seq<CartItem>
    var currentPage: string
    var orderSuccess: bool
    var isCartOpen: bool

    /** Keys are unique and quantities positive. */
    ghost predicate Valid()
      reads this
    {
      Cart.Valid(cart)
    }

    constructor ()
      ensures Valid()
      ensures cart == [] && currentPage == "home" && !orderSuccess && !isCartOpen
    {
      cart := [];
      currentPage := "home";
      orderSuccess := false;
      isCartOpen := false;
    }

    /** The navbar badge: the total number of units in the cart, never less
        than the number of lines. */
    function CartCount(): (n: int)
      reads this
      requires Valid()
      ensures n == Cart.Count(cart) && n >= |cart|
    {
      Cart.Count(cart)
    }

    /** `addToCart`: updates the cart and opens the drawer. */
    method AddToCart(product: Product, size: int)
      requires Valid()
      modifies this
      ensures Valid()
      ensures cart == Cart.AddToCart(old(cart), product, size) && isCartOpen
      ensures currentPage == old(currentPage) && orderSuccess == old(orderSuccess)
    {
      Cart.AddPreservesValid(cart, product, size);
      cart := Cart.AddToCart(cart, product, size);
      isCartOpen := true;
    }

    /** `updateCartQty`. */
    method UpdateCartQty(id: int, size: int, delta: int)
      requires Valid()
      modifies this
      ensures Valid()
      ensures cart == Cart.UpdateQuantity(old(cart), id, size, delta)
      ensures currentPage == old(currentPage) && orderSuccess == old(orderSuccess)
      ensures isCartOpen == old(isCartOpen)
    {
      Cart.UpdatePreservesValid(cart, id, size, delta);
      cart := Cart.UpdateQuantity(cart, id, size, delta);
    }

    /** `removeFromCart`. */
    method RemoveFromCart(id: int, size: int)
      requires Valid()
      modifies this
      ensures Valid()
      ensures cart == Cart.RemoveLines(old(cart), id, size)
      ensures currentPage == old(currentPage) && orderSuccess == old(orderSuccess)
      ensures isCartOpen == old(isCartOpen)
    {
      Cart.RemovePreservesValid(cart, id, size);
      cart := Cart.RemoveLines(cart, id, size);
    }

    /** `handleCheckoutComplete`: empty the cart and show the success page. */
    method HandleCheckoutComplete()
      modifies this
      ensures Valid()
      ensures cart == [] && orderSuccess && currentPage == "success"
      ensures isCartOpen == old(isCartOpen)
    {
      cart := [];
      orderSuccess := true;
      currentPage := "success";
    }

    /** The checkout page's submit: builds the body it posts from the cart
        as it is now, and changes nothing until the reply arrives. */
    method SubmitCheckout(form: Checkout.ShippingForm) returns (body: Json)
      ensures body == Checkout.ClientOrderBody(form, cart)
      ensures body.fields["items"] == JItems(cart)
      ensures body.fields["total_amount"] == JNum(Cart.Subtotal(cart) + Checkout.ShippingFee)
    {
      body := Checkout.ClientOrderBody(form, cart);
    }

    /** The reply to the posted order: an ok response completes the checkout,
        whatever the cart holds by then; a non-ok response or a thrown `fetch`
        leaves the cart and the page for a retry. */
    method CheckoutReplied(outcome: FetchOutcome)
      requires Valid()
      modifies this
      ensures Valid()
      ensures Checkout.Placed(outcome) ==> cart == [] && orderSuccess && currentPage == "success"
      ensures !Checkout.Placed(outcome) ==>
                cart == old(cart) && orderSuccess == old(orderSuccess) && currentPage == old(currentPage)
      ensures isCartOpen == old(isCartOpen)
    {
      if Checkout.Placed(outcome) {
        HandleCheckoutComplete();
      }
    }

    /** The cart drawer stays mounted while the order is in flight, and its
        plus button raises the quantity of a line that is in the cart. A
        unit added that way is in the cart when the reply lands (one unit
        more than the posted items), and an ok reply empties the cart: that
        unit ends up neither in the posted order nor in the cart. */
    method IncrementDuringCheckout(form: Checkout.ShippingForm, id: int, size: int, outcome: FetchOutcome)
      returns (body: Json, atReply: seq<CartItem>)
      requires Valid()
      requires !Cart.NoLine(cart, id, size)
      modifies this
      ensures body == Checkout.ClientOrderBody(form, old(cart))
      ensures body.fields["items"] == JItems(old(cart))
      ensures atReply == Cart.UpdateQuantity(old(cart), id, size, 1)
      ensures Cart.Count(atReply) == Cart.Count(old(cart)) + 1
      ensures Checkout.Placed(outcome) ==> cart == []
      ensures !Checkout.Placed(outcome) ==> cart == atReply
    {
      body := SubmitCheckout(form);
      var k :| 0 <= k < |cart| && Cart.Matches(cart[k], id, size);
      Cart.UpdateExisting(cart, id, size, 1, k);
      UpdateCartQty(id, size, 1);
      atReply := cart;
      CheckoutReplied(outcome);
    }
  }
}
