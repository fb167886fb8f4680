/** The records the storefront passes around (src/types.ts), and the wire
    values exchanged between the client and the server. */
module Types {

  datatype Option<+T> = None | Some(value: T)

  datatype Result<+T, +E> = Ok(value: T) | Err(error: E)

  /** A catalog product. The floating-point `rating` is not modelled. */
  datatype Product = Product(
    id: int,
    name: string,
    price: int,
    originalPrice: int,
    image: string,
    images: seq<string>,
    fabric: string,
    fit: string,
    description: string,
    sizes: seq<int>,
    reviews: int)

  /** A cart line: a snapshot of the product taken when the line was
      created, plus the chosen size and count. */
  datatype CartItem = CartItem(product: Product, selectedSize: int, quantity: int)

  /** An order as the admin panel lists it. `status` is free text: the server
      stores whatever string it is sent. */
  datatype Order = Order(
    id: int,
    customerName: string,
    phone: string,
    address: string,
    items: seq<CartItem>,
    status: string)

  /** JSON values as far as this model needs them. */
  datatype Json =
    | JNull
    | JBool(b: bool)
    | JNum(n: int)
    | JStr(s: string)
    | JProduct(p: Product)
    | JItems(items: seq<CartItem>)
    | JObject(fields: map<string, Json>)

  /** An HTTP reply: a status and a JSON body; a handler that sets no status replies 200. */
  datatype Reply = Reply(status: int, body: Json)

  function ErrorReply(status: int, message: string): Reply
  {
    Reply(status, JObject(map["error" := JStr(message)]))
  }

  /** What awaiting the client's `fetch` gives: a response, or a thrown error. */
  datatype FetchOutcome = Responded(status: int) | Threw

  /** `response.ok`: a response arrived with a 2xx status. */
  predicate IsOk(outcome: FetchOutcome)
  {
    outcome.Responded? && 200 <= outcome.status <= 299
  }
}
