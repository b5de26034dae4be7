/** The two endpoints share `user_links`: link-telegram writes it and
    telegram-auth reads it. These lemmas follow one account through both. */
module EndToEnd {
  import opened Decimal
  import opened Verifier
  import opened SessionIssuer
  import opened LinkExchange

  /** The `user_links` query answered from the table. */
  function StoreLookup(userLinks: map<string, string>): string -> Lookup {
    k => if k in userLinks then Row(userLinks[k]) else NoRow
  }

  /** After a user redeems a code whose account id is non-empty, and the link
      write lands, that user's next session request issues a token for the account. */
  lemma RedeemedUserGetsSession(s: Stores, code: string, user: TelegramUser, now: int, stamp: bool,
                                req: SessionRequest, env: SessionEnv, p: Platform,
                                sign: (Claims, string) -> string, nowSeconds: int)
    requires code in s.linkCodes && Redeemable(s.linkCodes[code], now)
    requires s.linkCodes[code].supabaseUserId != ""
    requires req.Body? && SessionIssuer.EnvComplete(env)
    requires Verify(OrEmpty(req.initData), env.botToken, p) == Verified(user)
    ensures var account := s.linkCodes[code].supabaseUserId;
      var after := Redemption(s, code, user.id, now, Landed(true, stamp)).stores;
      HandleSession(req, env, p, StoreLookup(after.userLinks), sign, nowSeconds) ==
        SessionIssuer.Response(200, Linked(account, sign(SessionClaims(account, nowSeconds), env.jwtSecret), ""))
  {
  }

  /** A redemption by one Telegram user never changes what the session
      endpoint answers for a different Telegram user. */
  lemma OtherUsersUnaffected(s: Stores, code: string, user: TelegramUser, now: int, landed: Landed,
                             req: SessionRequest, env: SessionEnv, p: Platform, other: TelegramUser,
                             sign: (Claims, string) -> string, nowSeconds: int)
    requires req.Body? && SessionIssuer.EnvComplete(env)
    requires Verify(OrEmpty(req.initData), env.botToken, p) == Verified(other)
    requires other.id != user.id
    ensures var after := Redemption(s, code, user.id, now, landed).stores;
      HandleSession(req, env, p, StoreLookup(after.userLinks), sign, nowSeconds) ==
      HandleSession(req, env, p, StoreLookup(s.userLinks), sign, nowSeconds)
  {
    if IntString(other.id) == IntString(user.id) {
      IntStringInjective(other.id, user.id);
    }
  }
}
