/** The order-creation function: it turns the amount the client wants to pay into a
    gateway order, using the key id and key secret from the environment. */
module CreateOrder {
  import opened Wrappers
  import opened Strings

  /** The request body; the currency may be left out. Amounts are whole rupees. */
  datatype Request = Request(amount: int, currency: Option<string>)

  /** The order sent to the gateway: the amount in paise, the currency, a receipt
      name and the product note. */
  datatype OrderData = OrderData(amount: int, currency: string, receipt: string, product: string)

  /** The gateway's answer: whether it accepted, and the order it returned or the
      description of its error, which may be missing. */
  datatype GatewayReply = GatewayReply(ok: bool, id: string, amount: int, currency: string, errorDescription: Option<string>)

  datatype Body =
    | Created(orderId: string, amount: int, currency: string, keyId: string)
    | Failure(error: string)

  datatype Response = Response(status: nat, body: Body, sent: Option<OrderData>)

  const NoCredentials := "Razorpay credentials not configured"
  const GatewayFailed := "Failed to create Razorpay order"
  const Product := "SmartMail AI Pro"

  /** The currency of an order: the one requested, "INR" when none was. */
  function Currency(req: Request): (r: string)
    ensures req.currency.Some? ==> r == req.currency.value
    ensures req.currency.None? ==> r == "INR"
  {
    req.currency.GetOr("INR")
  }

  /** Rupees to paise. */
  function ToPaise(rupees: int): (r: int)
    ensures r % 100 == 0 && r / 100 == rupees
  {
    rupees * 100
  }

  /** The receipt name: the clock reading `now` in milliseconds after a fixed prefix. */
  function Receipt(now: nat): (r: string)
    ensures StartsWith(r, "receipt_")
    ensures forall k :: 8 <= k < |r| ==> '0' <= r[k] <= '9'
    ensures |r| > 8 && ParseDigits(r[8..]) == now
  {
    NatToStringRoundTrip(now);
    var r := "receipt_" + NatToString(now);
    assert r[8..] == NatToString(now);
    assert r[..8] == "receipt_";
    r
  }

  function Order(req: Request, now: nat): (r: OrderData)
    ensures r.amount == 100 * req.amount && r.currency == Currency(req)
    ensures r.product == Product
  {
    OrderData(ToPaise(req.amount), Currency(req), Receipt(now), Product)
  }

  /** The error reported for a refused order: the gateway's description when it gave
      a non-empty one, a fixed message otherwise. */
  function GatewayError(reply: GatewayReply): (r: string)
    ensures Present(reply.errorDescription) ==> r == reply.errorDescription.value
    ensures !Present(reply.errorDescription) ==> r == GatewayFailed
  {
    if Present(reply.errorDescription) then reply.errorDescription.value else GatewayFailed
  }

  /** The gateway's order endpoint: its reply to an order sent under a key id and key
      secret, which travel in the request's authorization header. */
  type Gateway = (string, string, OrderData) -> GatewayReply

  /** The function's answer for the two credentials, the clock reading `now` and the
      gateway, which is called at most once, with the order and both credentials. */
  function Create(req: Request, keyId: Option<string>, keySecret: Option<string>, now: nat,
                  gateway: Gateway): (r: Response)
    ensures r.status == 200 || r.status == 400
    ensures r.status == 200 <==> r.body.Created?
    ensures r.sent.Some? <==> Present(keyId) && Present(keySecret)
    ensures r.sent.Some? ==> r.sent.value == Order(req, now)
    ensures r.sent.None? ==> r.body == Failure(NoCredentials)
    ensures r.sent.Some? && !gateway(keyId.value, keySecret.value, r.sent.value).ok ==>
      r.body == Failure(GatewayError(gateway(keyId.value, keySecret.value, r.sent.value)))
    ensures r.body.Created? ==>
      var reply := gateway(keyId.value, keySecret.value, Order(req, now));
      && r.sent.Some? && reply.ok
      && r.body == Created(reply.id, reply.amount, reply.currency, keyId.value)
  {
    if !Present(keyId) || !Present(keySecret) then Response(400, Failure(NoCredentials), None)
    else
      var order := Order(req, now);
      var reply := gateway(keyId.value, keySecret.value, order);
      if !reply.ok then Response(400, Failure(GatewayError(reply)), Some(order))
      else Response(200, Created(reply.id, reply.amount, reply.currency, keyId.value), Some(order))
  }

  /** Missing credentials are reported before the gateway is called: the answer is the
      same whatever the gateway would say. */
  lemma CredentialsFirst(req: Request, keyId: Option<string>, keySecret: Option<string>, now: nat,
                         g1: Gateway, g2: Gateway)
    requires !Present(keyId) || !Present(keySecret)
    ensures Create(req, keyId, keySecret, now, g1) == Create(req, keyId, keySecret, now, g2)
  {
  }

  /** The order sent does not depend on the key pair. The pair reaches the answer
      only through the gateway's reply and the key id echoed in a created order: two
      pairs the gateway answers alike give the same status and body, up to that id. */
  lemma KeysOnlyReachGateway(req: Request, k1: Option<string>, s1: Option<string>,
                             k2: Option<string>, s2: Option<string>, now: nat, gateway: Gateway)
    requires Present(k1) && Present(s1) && Present(k2) && Present(s2)
    ensures var r1, r2 := Create(req, k1, s1, now, gateway), Create(req, k2, s2, now, gateway);
      r1.sent == r2.sent == Some(Order(req, now))
    ensures var r1, r2 := Create(req, k1, s1, now, gateway), Create(req, k2, s2, now, gateway);
      gateway(k1.value, s1.value, Order(req, now)) == gateway(k2.value, s2.value, Order(req, now)) ==>
        && r1.status == r2.status
        && (r1.body.Created? ==> r1.body.keyId == k1.value && r2.body == r1.body.(keyId := k2.value))
        && (r1.body.Failure? ==> r2.body == r1.body)
  {
  }
}
