/** The checkout page's submission (src/App.tsx, CheckoutPage.handleSubmit):
    the total it sends, the request body it builds, and when the order
    counts as placed. The body's field names do not match what the server's
    `POST /api/orders` handler reads (server.ts); both the body as written
    and a corrected one are modelled. */
module Checkout {
  import opened Types
  import Cart
  import Catalog
  import Api

  /** The flat delivery charge added to every order. */
  const ShippingFee: int := 60

  /** The shipping form; `city` starts as "Dhaka" and is never sent. */
  datatype ShippingForm = ShippingForm(name: string, phone: string, address: string, city: string)

  /** The total the checkout page sends: the cart subtotal plus the flat fee. */
  function CheckoutTotal(items: seq<CartItem>): int
  {
    Cart.Subtotal(items) + ShippingFee
  }

  /** One line of 1050 with quantity two costs 2160 at checkout. */
  lemma CheckoutTotalExample(p: Product, size: int)
    requires p.price == 1050
    ensures CheckoutTotal([CartItem(p, size, 2)]) == 2160
    ensures CheckoutTotal([]) == ShippingFee
  {
    Cart.FoldSteps([], CartItem(p, size, 2));
    assert [] + [CartItem(p, size, 2)] == [CartItem(p, size, 2)];
  }

  /** Every catalog product costs 1050, so a cart of catalog products costs
      1050 per unit in the navbar count, plus the fee. */
  lemma {:induction false} CatalogCheckoutTotal(items: seq<CartItem>)
    requires forall i :: 0 <= i < |items| ==> items[i].product in Catalog.Products
    ensures CheckoutTotal(items) == 1050 * Cart.Count(items) + ShippingFee
  {
    if items != [] {
      var init, last := items[..|items| - 1], items[|items| - 1];
      CatalogCheckoutTotal(init);
      assert items == init + [last];
      Cart.FoldSteps(init, last);
      assert last.product.price == 1050;
    }
  }

  /** The body the client posts, with the keys as written in the client: the
      name and the total go under snake_case keys, the items are the cart's
      lines as they were when the form was submitted. */
  function ClientOrderBody(form: ShippingForm, items: seq<CartItem>): (r: Json)
    ensures r.JObject? && r.fields.Keys == {"customer_name", "phone", "address", "total_amount", "items"}
    ensures r.fields["items"] == JItems(items) && r.fields["total_amount"] == JNum(CheckoutTotal(items))
  {
    JObject(map[
      "customer_name" := JStr(form.name),
      "phone" := JStr(form.phone),
      "address" := JStr(form.address),
      "total_amount" := JNum(CheckoutTotal(items)),
      "items" := JItems(items)])
  }

  /** The server reads `customerName` and `totalAmount`, which the client
      never sends: both are undefined for every checkout, so the stored order
      gets neither the customer's name nor the total the client computed.
      Phone, address and the item snapshot do arrive. */
  lemma ServerMissesNameAndTotal(form: ShippingForm, items: seq<CartItem>)
    ensures var f := Api.ReadOrderFields(ClientOrderBody(form, items));
            && f.customerName == None
            && f.totalAmount == None
            && f.phone == Some(JStr(form.phone))
            && f.address == Some(JStr(form.address))
            && f.items == Some(JItems(items))
  {
  }

  /** The body with the keys the server reads. */
  function CorrectedOrderBody(form: ShippingForm, items: seq<CartItem>): Json
  {
    JObject(map[
      "customerName" := JStr(form.name),
      "phone" := JStr(form.phone),
      "address" := JStr(form.address),
      "totalAmount" := JNum(CheckoutTotal(items)),
      "items" := JItems(items)])
  }

  /** With the corrected keys the server receives every field the client
      means to send: the name, the contact fields, the checkout total and the
      cart snapshot. */
  lemma ServerReadsCorrectedBody(form: ShippingForm, items: seq<CartItem>)
    ensures Api.ReadOrderFields(CorrectedOrderBody(form, items))
            == Api.OrderFields(Some(JStr(form.name)), Some(JStr(form.phone)), Some(JStr(form.address)),
                               Some(JNum(CheckoutTotal(items))), Some(JItems(items)))
  {
  }

  /** The order counts as placed, and the checkout completes, only on a 2xx
      response; a non-2xx response or a thrown `fetch` does not. */
  predicate Placed(outcome: FetchOutcome)
  {
    IsOk(outcome)
  }

  /** When the server's reply reaches the client, the order counts as placed
      exactly when the server's insert succeeded. */
  lemma PlacedIffStored(insert: Result<int, string>)
    ensures Placed(Responded(Api.PlaceOrder(insert).status)) <==> insert.Ok?
    ensures !Placed(Threw)
  {
  }
}
