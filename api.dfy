/** The replies of the server's write endpoints (server.ts): registration,
    order placement and the admin status update. Each handler runs one
    database statement; the statement's outcome (the new row id, or the
    message of the error it threw) is a parameter, since the database is not
    part of this model. */
module Api {
  import opened Types

  // ---------------------------------------------------------------------
  // message.includes(sub)
  // ---------------------------------------------------------------------

  /** `sub` occurs in `s` starting at index `i`. */
  predicate OccursAt(s: string, sub: string, i: int)
  {
    0 <= i && i + |sub| <= |s| && s[i..i + |sub|] == sub
  }

  /** `includes`, scanning from the front: it answers exactly whether `sub`
      occurs somewhere in `s`. */
  function Includes(s: string, sub: string): (r: bool)
    ensures r <==> exists i :: OccursAt(s, sub, i)
  {
    if |s| < |sub| then
      assert forall i :: !OccursAt(s, sub, i);
      false
    else if s[..|sub|] == sub then
      assert OccursAt(s, sub, 0);
      true
    else
      OccursAfterFirst(s, sub);
      Includes(s[1..], sub)
  }

  /** When `sub` does not start `s`, it occurs in `s` exactly when it occurs
      in `s` without its first character. */
  lemma OccursAfterFirst(s: string, sub: string)
    requires |sub| <= |s| && s[..|sub|] != sub
    ensures |s| > 0
    ensures (exists i :: OccursAt(s, sub, i)) <==> (exists i :: OccursAt(s[1..], sub, i))
  {
    if exists i :: OccursAt(s[1..], sub, i) {
      var i :| OccursAt(s[1..], sub, i);
      assert s[i + 1..i + 1 + |sub|] == s[1..][i..i + |sub|];
      assert OccursAt(s, sub, i + 1);
    }
    if exists i :: OccursAt(s, sub, i) {
      var i :| OccursAt(s, sub, i);
      assert i != 0;
      assert s[1..][i - 1..i - 1 + |sub|] == s[i..i + |sub|];
      assert OccursAt(s[1..], sub, i - 1);
    }
  }

  // ---------------------------------------------------------------------
  // POST /api/register
  // ---------------------------------------------------------------------

  const UniqueViolation: string := "UNIQUE constraint failed"

  /** The reply to a registration, given the outcome of the user insert. */
  function Register(insert: Result<int, string>): (r: Reply)
    ensures insert.Ok? ==>
              r == Reply(200, JObject(map["success" := JBool(true), "userId" := JNum(insert.value)]))
    ensures insert.Err? ==>
              (r == ErrorReply(400, "Email already exists") || r == ErrorReply(500, "Registration failed"))
    ensures insert.Err? ==>
              (r.status == 400 <==> exists i :: OccursAt(insert.error, UniqueViolation, i))
  {
    match insert
    case Ok(userId) => Reply(200, JObject(map["success" := JBool(true), "userId" := JNum(userId)]))
    case Err(message) =>
      if Includes(message, UniqueViolation) then ErrorReply(400, "Email already exists")
      else ErrorReply(500, "Registration failed")
  }

  /** The two ways a registration fails, on concrete messages of the kind
      the database driver produces. */
  lemma RegisterExamples()
    ensures Register(Err("UNIQUE constraint failed: users.email")) == ErrorReply(400, "Email already exists")
    ensures Register(Err("disk I/O error")) == ErrorReply(500, "Registration failed")
  {
    assert OccursAt("UNIQUE constraint failed: users.email", UniqueViolation, 0);
  }

  // ---------------------------------------------------------------------
  // POST /api/orders
  // ---------------------------------------------------------------------

  /** What the handler destructures from the request body; a missing key is
      `undefined`, written `None`. */
  datatype OrderFields = OrderFields(
    customerName: Option<Json>,
    phone: Option<Json>,
    address: Option<Json>,
    totalAmount: Option<Json>,
    items: Option<Json>)

  function Field(body: Json, key: string): Option<Json>
  {
    if body.JObject? && key in body.fields then Some(body.fields[key]) else None
  }

  /** The handler's destructuring of the request body into its five fields. */
  function ReadOrderFields(body: Json): (f: OrderFields)
    ensures f.totalAmount.Some? <==> body.JObject? && "totalAmount" in body.fields
    ensures f.customerName.Some? <==> body.JObject? && "customerName" in body.fields
  {
    OrderFields(Field(body, "customerName"), Field(body, "phone"), Field(body, "address"),
                Field(body, "totalAmount"), Field(body, "items"))
  }

  /** The reply to an order, given the outcome of the order insert. */
  function PlaceOrder(insert: Result<int, string>): (r: Reply)
    ensures r.status == 200 <==> insert.Ok?
    ensures insert.Ok? ==>
              r.body == JObject(map["success" := JBool(true), "orderId" := JNum(insert.value)])
    ensures insert.Err? ==> r == ErrorReply(500, "Failed to place order")
  {
    match insert
    case Ok(orderId) => Reply(200, JObject(map["success" := JBool(true), "orderId" := JNum(orderId)]))
    case Err(_) => ErrorReply(500, "Failed to place order")
  }

  // ---------------------------------------------------------------------
  // PATCH /api/admin/orders/:id/status
  // ---------------------------------------------------------------------

  /** The reply to a status update, given whether the UPDATE statement threw.
      Neither the id nor the status is inspected: an id that matches no order
      and a status outside pending/shipped/delivered/cancelled both succeed. */
  function UpdateOrderStatus(id: string, status: string, thrown: Option<string>): (r: Reply)
    ensures r.status == 200 <==> thrown.None?
    ensures thrown.None? ==> r.body == JObject(map["success" := JBool(true)])
    ensures thrown.Some? ==> r == ErrorReply(500, "Failed to update order status")
  {
    if thrown.None? then Reply(200, JObject(map["success" := JBool(true)]))
    else ErrorReply(500, "Failed to update order status")
  }
}
