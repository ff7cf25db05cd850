/** The subscription-check function: it reports the caller's plan from the pro flag of
    their profile, treating the profile's last update as the start of a 30-day term. */
module CheckSubscription {
  import opened Wrappers
  import V = VerifyPayment

  /** The profile fields read; `updatedAt` is in milliseconds since the epoch. */
  datatype ProfileRow = ProfileRow(isPro: bool, updatedAt: int)

  /** Start and end are milliseconds since the epoch. */
  datatype SubscriptionInfo = SubscriptionInfo(subscribed: bool, tier: Option<string>, start: Option<int>, end: Option<int>)

  datatype Body = Info(info: SubscriptionInfo) | Failure(error: string)

  datatype Response = Response(status: nat, body: Body)

  /** Thirty days in milliseconds. */
  const Term: int := 30 * 24 * 60 * 60 * 1000

  const NoAuthHeader := "No authorization header"
  const NotAuthenticated := "User not authenticated"
  const ProfileFailed := "Failed to fetch user profile"

  function Subscription(p: ProfileRow): (r: SubscriptionInfo)
    ensures r.subscribed == p.isPro
    ensures r.tier.Some? <==> p.isPro
    ensures r.tier.Some? ==> r.tier.value == "Pro"
    ensures r.start.Some? <==> p.isPro
    ensures r.end.Some? <==> p.isPro
    ensures p.isPro ==> r.start.value == p.updatedAt && r.end.value == p.updatedAt + 2592000000
  {
    if p.isPro then SubscriptionInfo(true, Some("Pro"), Some(p.updatedAt), Some(p.updatedAt + Term))
    else SubscriptionInfo(false, None, None, None)
  }

  /** The function's answer for the Authorization header, the user the auth service
      resolves it to, and the profile query's row or error. */
  function Check(authHeader: Option<string>, user: Option<string>, profile: Result<ProfileRow>): (r: Response)
    ensures r.status == 200 || r.status == 400
    ensures r.status == 200 <==> r.body.Info?
    ensures !Present(authHeader) ==> r == Response(400, Failure(NoAuthHeader))
    ensures Present(authHeader) && user.None? ==> r == Response(400, Failure(NotAuthenticated))
    ensures Present(authHeader) && user.Some? && profile.Err? ==> r == Response(400, Failure(ProfileFailed))
    ensures r.body.Info? <==> Present(authHeader) && user.Some? && profile.Ok?
    ensures r.body.Info? ==> r.body.info == Subscription(profile.value)
  {
    if !Present(authHeader) then Response(400, Failure(NoAuthHeader))
    else if user.None? then Response(400, Failure(NotAuthenticated))
    else if profile.Err? then Response(400, Failure(ProfileFailed))
    else Response(200, Info(Subscription(profile.value)))
  }

  /** After a verification that answered 200, a check by the same caller on the
      written pro flag reports the Pro plan for thirty days from the row's update. */
  lemma UpgradeThenSubscribed(req: V.Request, ctx: V.Context, hmac: V.Hmac, now: string, updatedAt: int)
    ensures var v := V.Verify(req, ctx, hmac, now);
      v.status == 200 ==>
        Check(ctx.authHeader, ctx.user, Ok(ProfileRow(v.update.value.isPro, updatedAt)))
          == Response(200, Info(SubscriptionInfo(true, Some("Pro"), Some(updatedAt), Some(updatedAt + Term))))
  {
  }
}
