/** The telegram-auth endpoint: a verified Telegram user who already has a
    `user_links` row gets a 30-day access token for the linked account. */
module SessionIssuer {
  import opened Options
  import opened Decimal
  import opened Verifier

  /** `await req.json()`: either it throws, or it yields a body whose
      `initData` may be missing (undefined, as falsy as ""). */
  datatype SessionRequest = Unreadable | Body(initData: Option<string>)

  /** The four environment variables, each "" when unset. */
  datatype SessionEnv = SessionEnv(botToken: string, supabaseUrl: string, serviceRoleKey: string, jwtSecret: string)

  /** The `user_links` query by `telegram_user_id` with `maybeSingle()`: an
      error, no row (or a null `supabase_user_id`), or the linked account id. */
  datatype Lookup = LookupError | NoRow | Row(supabaseUserId: string)

  /** The payload of the HS256 access token. */
  datatype Claims = Claims(aud: string, role: string, sub: string, exp: int)

  /** The JSON body: `{linked: false[, error]}` or the issued session. */
  datatype Reply =
    | NotLinked(error: Option<string>)
    | Linked(supabaseUserId: string, accessToken: string, refreshToken: string)

  datatype Response = Response(status: int, reply: Reply)

  const SessionSeconds: int := 60 * 60 * 24 * 30
  const Authenticated: string := "authenticated"
  const MissingEnv: string := "Missing env"

  predicate EnvComplete(env: SessionEnv) {
    env.botToken != "" && env.supabaseUrl != "" && env.serviceRoleKey != "" && env.jwtSecret != ""
  }

  function OrEmpty(s: Option<string>): string {
    match s case Some(v) => v case None => ""
  }

  /** The claim set signed for a linked account at time `nowSeconds`. */
  function SessionClaims(supabaseUserId: string, nowSeconds: int): (c: Claims)
    ensures c.sub == supabaseUserId && c.aud == Authenticated && c.role == Authenticated
    ensures c.exp - nowSeconds == 2592000
  {
    Claims(aud := Authenticated, role := Authenticated, sub := supabaseUserId, exp := nowSeconds + SessionSeconds)
  }

  /** The whole request handler. `lookup` is the `user_links` query, `sign`
      is djwt's `create` with HS256, `nowSeconds` the clock in seconds. */
  function HandleSession(req: SessionRequest, env: SessionEnv, p: Platform,
                         lookup: string -> Lookup, sign: (Claims, string) -> string,
                         nowSeconds: int): (r: Response)
    ensures r.status == 200 || r.status == 401 || r.status == 500
    ensures r.reply.Linked? <==>
      && req.Body? && EnvComplete(env)
      && Verify(OrEmpty(req.initData), env.botToken, p).Verified?
      && var key := IntString(Verify(OrEmpty(req.initData), env.botToken, p).user.id);
         lookup(key).Row? && lookup(key).supabaseUserId != ""
    ensures r.reply.Linked? ==> r.status == 200 && r.reply.refreshToken == ""
  {
    match req
    case Unreadable => Response(500, NotLinked(None))
    case Body(initData) =>
      if !EnvComplete(env) then Response(500, NotLinked(Some(MissingEnv)))
      else match Verify(OrEmpty(initData), env.botToken, p)
        case Threw => Response(500, NotLinked(None))
        case Rejected => Response(401, NotLinked(None))
        case Verified(user) =>
          var found := lookup(IntString(user.id));
          if found.Row? && found.supabaseUserId != "" then
            var token := sign(SessionClaims(found.supabaseUserId, nowSeconds), env.jwtSecret);
            Response(200, Linked(found.supabaseUserId, token, ""))
          else Response(200, NotLinked(None))
  }

  /** A missing variable answers 500 before the payload is looked at: the
      response is the same whatever verification, lookup or signing would do. */
  lemma MissingEnvIs500(req: SessionRequest, env: SessionEnv, p: Platform, q: Platform,
                        lookup: string -> Lookup, sign: (Claims, string) -> string, nowSeconds: int)
    requires req.Body? && !EnvComplete(env)
    ensures HandleSession(req, env, p, lookup, sign, nowSeconds) == Response(500, NotLinked(Some(MissingEnv)))
    ensures HandleSession(req, env, p, lookup, sign, nowSeconds) ==
            HandleSession(req, env, q, _ => LookupError, (_, _) => "", 0)
  {
  }

  /** A body `req.json()` cannot read answers 500, even before the environment is checked. */
  lemma UnreadableIs500(env: SessionEnv, p: Platform, lookup: string -> Lookup,
                        sign: (Claims, string) -> string, nowSeconds: int)
    ensures HandleSession(Unreadable, env, p, lookup, sign, nowSeconds) == Response(500, NotLinked(None))
  {
  }

  /** A payload that fails verification answers 401 without consulting
      `user_links`: any two lookups give the same response. */
  lemma RejectedIs401WithoutLookup(req: SessionRequest, env: SessionEnv, p: Platform,
                                   lookup: string -> Lookup, other: string -> Lookup,
                                   sign: (Claims, string) -> string, nowSeconds: int)
    requires req.Body? && EnvComplete(env)
    requires Verify(OrEmpty(req.initData), env.botToken, p) == Rejected
    ensures HandleSession(req, env, p, lookup, sign, nowSeconds) == Response(401, NotLinked(None))
    ensures HandleSession(req, env, p, lookup, sign, nowSeconds) ==
            HandleSession(req, env, p, other, sign, nowSeconds)
  {
  }

  /** An exception from `JSON.parse` of the user field answers 500. */
  lemma ThrownIs500(req: SessionRequest, env: SessionEnv, p: Platform,
                    lookup: string -> Lookup, sign: (Claims, string) -> string, nowSeconds: int)
    requires req.Body? && EnvComplete(env)
    requires Verify(OrEmpty(req.initData), env.botToken, p) == Threw
    ensures HandleSession(req, env, p, lookup, sign, nowSeconds) == Response(500, NotLinked(None))
  {
  }

  /** An authentic payload with no usable link (a lookup error, no row, an
      empty account id) is the ordinary 200 `{linked: false}`. */
  lemma UnlinkedIs200(req: SessionRequest, env: SessionEnv, p: Platform,
                      lookup: string -> Lookup, sign: (Claims, string) -> string, nowSeconds: int)
    requires req.Body? && EnvComplete(env)
    requires Verify(OrEmpty(req.initData), env.botToken, p).Verified?
    requires var found := lookup(IntString(Verify(OrEmpty(req.initData), env.botToken, p).user.id));
      found.LookupError? || found.NoRow? || found == Row("")
    ensures HandleSession(req, env, p, lookup, sign, nowSeconds) == Response(200, NotLinked(None))
  {
  }

  /** A linked user gets a token signed with the JWT secret over exactly
      sub = the linked account, aud = role = "authenticated" and an expiry
      thirty days (2592000 seconds) from now, and an empty refresh token. */
  lemma LinkedIssuesSession(req: SessionRequest, env: SessionEnv, p: Platform, user: TelegramUser,
                            supabaseUserId: string, lookup: string -> Lookup,
                            sign: (Claims, string) -> string, nowSeconds: int)
    requires req.Body? && EnvComplete(env)
    requires Verify(OrEmpty(req.initData), env.botToken, p) == Verified(user)
    requires lookup(IntString(user.id)) == Row(supabaseUserId) && supabaseUserId != ""
    ensures HandleSession(req, env, p, lookup, sign, nowSeconds) ==
      Response(200, Linked(supabaseUserId,
                           sign(Claims("authenticated", "authenticated", supabaseUserId, nowSeconds + 2592000),
                                env.jwtSecret),
                           ""))
  {
  }
}
