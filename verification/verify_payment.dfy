/** The payment-verification function: after checkout, the client sends the order id,
    payment id and signature the gateway returned; the function checks the signature
    against the shared key secret and, for a signed-in caller, marks the caller's
    profile as pro. */
module VerifyPayment {
  import opened Wrappers
  import opened Strings

  /** HMAC-SHA256 (RFC 2104 over SHA-256 of FIPS 180-4) of a message under a key, as
      lower-case hex. Only its name matters here: the model never looks inside. */
  type Hmac = (string, string) -> string

  datatype Request = Request(orderId: string, paymentId: string, signature: string)

  /** What the function reads besides the request: the key secret from the
      environment, the Authorization header, the user the auth service resolves that
      header to, and the error the profile update reports, if any. */
  datatype Context = Context(
    secret: Option<string>, authHeader: Option<string>, user: Option<string>,
    updateError: Option<string>)

  /** The row update the function issues: it can only ever set the pro flag. */
  datatype ProUpgrade = ProUpgrade(userId: string, isPro: bool, upgradeDate: string)

  datatype Body = Success(message: string) | Failure(error: string)

  datatype Response = Response(status: nat, body: Body, update: Option<ProUpgrade>)

  const SecretMissing := "Razorpay key secret not configured"
  const BadSignature := "Invalid payment signature"
  const NoAuthHeader := "No authorization header"
  const NotAuthenticated := "User not authenticated"
  const UpdateFailed := "Failed to update user pro status"
  const Verified := "Payment verified and user upgraded to Pro"

  /** The text the gateway signs: order id and payment id joined by a bar. */
  function SignedMessage(orderId: string, paymentId: string): (r: string)
    ensures |r| == |orderId| + 1 + |paymentId|
    ensures r[..|orderId|] == orderId && r[|orderId|] == '|' && r[|orderId| + 1..] == paymentId
  {
    orderId + "|" + paymentId
  }

  /** Order ids without a bar are read back from the message, so a signature covers
      exactly one order and payment pair. */
  lemma SignedMessageInjective(o1: string, p1: string, o2: string, p2: string)
    requires '|' !in o1 && '|' !in o2
    requires SignedMessage(o1, p1) == SignedMessage(o2, p2)
    ensures o1 == o2 && p1 == p2
  {
  }

  /** The function's answer, checking in order: the key secret, the signature, the
      Authorization header, the user; then the pro upgrade of that user at `now`. */
  function Verify(req: Request, ctx: Context, hmac: Hmac, now: string): (r: Response)
    ensures r.status == 200 || r.status == 400
    ensures r.status == 200 <==> r.body.Success?
    ensures r.update.Some? <==>
      && Present(ctx.secret)
      && hmac(ctx.secret.value, SignedMessage(req.orderId, req.paymentId)) == req.signature
      && Present(ctx.authHeader)
      && ctx.user.Some?
    ensures r.update.Some? ==> r.update.value == ProUpgrade(ctx.user.value, true, now)
    ensures r.status == 200 <==> r.update.Some? && ctx.updateError.None?
    ensures !Present(ctx.secret) ==> r.body == Failure(SecretMissing)
    ensures Present(ctx.secret)
      && hmac(ctx.secret.value, SignedMessage(req.orderId, req.paymentId)) != req.signature
      ==> r.body == Failure(BadSignature)
  {
    if !Present(ctx.secret) then Response(400, Failure(SecretMissing), None)
    else if hmac(ctx.secret.value, SignedMessage(req.orderId, req.paymentId)) != req.signature then
      Response(400, Failure(BadSignature), None)
    else if !Present(ctx.authHeader) then Response(400, Failure(NoAuthHeader), None)
    else if ctx.user.None? then Response(400, Failure(NotAuthenticated), None)
    else
      var update := Some(ProUpgrade(ctx.user.value, true, now));
      if ctx.updateError.Some? then Response(400, Failure(UpdateFailed), update)
      else Response(200, Success(Verified), update)
  }

  /** No answer ever clears the pro flag. */
  lemma NeverDowngrades(req: Request, ctx: Context, hmac: Hmac, now: string)
    ensures Verify(req, ctx, hmac, now).update.Some? ==> Verify(req, ctx, hmac, now).update.value.isPro
  {
  }

  /** Without a key secret the signature is never computed: the answer is the same
      whatever the HMAC, and nothing after the secret is consulted. */
  lemma SecretCheckedFirst(req: Request, ctx: Context, h1: Hmac, h2: Hmac, now: string)
    requires !Present(ctx.secret)
    ensures Verify(req, ctx, h1, now) == Verify(req, ctx, h2, now)
    ensures Verify(req, ctx, h1, now) == Response(400, Failure(SecretMissing), None)
  {
  }

  /** A bad signature is reported whatever the caller's credentials, and the profile
      is left alone. */
  lemma SignatureBeforeAuth(req: Request, c1: Context, c2: Context, hmac: Hmac, now: string)
    requires Present(c1.secret) && c2.secret == c1.secret
    requires hmac(c1.secret.value, SignedMessage(req.orderId, req.paymentId)) != req.signature
    ensures Verify(req, c1, hmac, now) == Verify(req, c2, hmac, now)
    ensures Verify(req, c1, hmac, now).update.None?
  {
  }

  /** Among valid signatures, a missing header is reported before the user lookup is
      consulted. */
  lemma HeaderBeforeUser(req: Request, ctx: Context, hmac: Hmac, now: string, user: Option<string>)
    requires Present(ctx.secret)
    requires hmac(ctx.secret.value, SignedMessage(req.orderId, req.paymentId)) == req.signature
    requires !Present(ctx.authHeader)
    ensures Verify(req, ctx, hmac, now) == Verify(req, ctx.(user := user), hmac, now)
    ensures Verify(req, ctx, hmac, now).body == Failure(NoAuthHeader)
  {
  }
}
