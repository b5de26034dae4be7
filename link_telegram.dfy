/** The link-telegram endpoint: a verified Telegram user redeems a one-time
    code from `link_codes`, which records a `user_links` row pairing the code's
    account with the Telegram id and then stamps the code as used. */
module LinkExchange {
  import opened Options
  import opened Decimal
  import opened Verifier

  /** `await req.json()`: it throws, or yields `initData` (possibly missing) and `code`. */
  datatype LinkRequest = Unreadable | Body(initData: Option<string>, code: string)

  /** The three environment variables, each "" when unset. */
  datatype LinkEnv = LinkEnv(botToken: string, supabaseUrl: string, serviceRoleKey: string)

  /** A `link_codes` row; instants are milliseconds since the epoch. */
  datatype CodeRow = CodeRow(supabaseUserId: string, expiresAt: Option<int>, usedAt: Option<int>)

  /** The two tables: `link_codes` by code, `user_links` by telegram_user_id. */
  datatype Stores = Stores(linkCodes: map<string, CodeRow>, userLinks: map<string, string>)

  /** The JSON body `{ok[, error]}`. */
  datatype Reply = Reply(ok: bool, error: Option<string>)

  datatype Response = Response(status: int, reply: Reply)

  /** Whether the upsert and the update each took effect. The handler awaits
      both but inspects neither result. */
  datatype Landed = Landed(link: bool, stamp: bool)

  /** A write the handler issues, in the order it issues them. */
  datatype Write =
    | LinkWrite(supabaseUserId: string, telegramUserId: string)
    | StampWrite(code: string, usedAt: int)

  datatype Redeemed = Redeemed(status: int, stores: Stores)

  /** What the checks before the store is touched decide: an early response,
      or the code to redeem for a verified user. */
  datatype Gate = Answer(response: Response) | Proceed(code: string, user: TelegramUser)

  const MissingEnv: string := "Missing env"

  /** `new Date(expires_at)`: a null column reads as the epoch. */
  function ExpiryInstant(row: CodeRow): int {
    match row.expiresAt case Some(t) => t case None => 0
  }

  /** The negation of the rejection test: not used, and expiring strictly after now. */
  predicate Redeemable(row: CodeRow, now: int) {
    row.usedAt.None? && now < ExpiryInstant(row)
  }

  predicate EnvComplete(env: LinkEnv) {
    env.botToken != "" && env.supabaseUrl != "" && env.serviceRoleKey != ""
  }

  /** The handler up to the code lookup: body, environment, verification. */
  function Admit(req: LinkRequest, env: LinkEnv, p: Platform): Gate {
    match req
    case Unreadable => Answer(Response(500, Reply(false, None)))
    case Body(initData, code) =>
      if !EnvComplete(env) then Answer(Response(500, Reply(false, Some(MissingEnv))))
      else match Verify(match initData case Some(s) => s case None => "", env.botToken, p)
        case Threw => Answer(Response(500, Reply(false, None)))
        case Rejected => Answer(Response(401, Reply(false, None)))
        case Verified(user) => Proceed(code, user)
  }

  /** The stores after the redemption step and the status it answers with. */
  function Redemption(s: Stores, code: string, telegramUserId: int, now: int, landed: Landed): Redeemed {
    if code !in s.linkCodes || !Redeemable(s.linkCodes[code], now) then Redeemed(400, s)
    else
      var row := s.linkCodes[code];
      var links := if landed.link then s.userLinks[IntString(telegramUserId) := row.supabaseUserId] else s.userLinks;
      var codes := if landed.stamp then s.linkCodes[code := row.(usedAt := Some(now))] else s.linkCodes;
      Redeemed(200, Stores(codes, links))
  }

  /** The writes a redemption issues: both, link first, or none. */
  function RedemptionWrites(s: Stores, code: string, telegramUserId: int, now: int): seq<Write> {
    if code !in s.linkCodes || !Redeemable(s.linkCodes[code], now) then []
    else [LinkWrite(s.linkCodes[code].supabaseUserId, IntString(telegramUserId)), StampWrite(code, now)]
  }

  class LinkStore {
    var linkCodes: map<string, CodeRow>
    var userLinks: map<string, string>
    /** Every write issued so far, oldest first. */
    ghost var writes: seq<Write>

    function State(): Stores
      reads this
    {
      Stores(linkCodes, userLinks)
    }

    constructor (initial: Stores)
      ensures State() == initial && writes == []
    {
      linkCodes := initial.linkCodes;
      userLinks := initial.userLinks;
      writes := [];
    }

    /** Lines 54-74: read the row, reject it or issue the upsert and then the update. */
    method Redeem(code: string, telegramUserId: int, now: int, landed: Landed) returns (status: int)
      modifies this
      ensures Redeemed(status, State()) == Redemption(old(State()), code, telegramUserId, now, landed)
      ensures writes == old(writes) + RedemptionWrites(old(State()), code, telegramUserId, now)
    {
      if code !in linkCodes {
        return 400;
      }
      var row := linkCodes[code];
      if row.usedAt.Some? || ExpiryInstant(row) <= now {
        return 400;
      }
      var telegramKey := IntString(telegramUserId);
      writes := writes + [LinkWrite(row.supabaseUserId, telegramKey)];
      if landed.link {
        userLinks := userLinks[telegramKey := row.supabaseUserId];
      }
      writes := writes + [StampWrite(code, now)];
      if landed.stamp {
        linkCodes := linkCodes[code := row.(usedAt := Some(now))];
      }
      return 200;
    }

    /** The whole request handler; `now` is the clock in milliseconds. */
    method Handle(req: LinkRequest, env: LinkEnv, p: Platform, now: int, landed: Landed) returns (r: Response)
      modifies this
      ensures match Admit(req, env, p)
        case Answer(early) =>
          r == early && State() == old(State()) && writes == old(writes)
        case Proceed(code, user) =>
          var red := Redemption(old(State()), code, user.id, now, landed);
          && r == Response(red.status, Reply(red.status == 200, None))
          && State() == red.stores
          && writes == old(writes) + RedemptionWrites(old(State()), code, user.id, now)
    {
      match Admit(req, env, p)
      case Answer(early) =>
        r := early;
      case Proceed(code, user) =>
        var status := Redeem(code, user.id, now, landed);
        r := Response(status, Reply(status == 200, None));
    }
  }

  /** A missing variable answers 500 whatever the payload and verification would give. */
  lemma MissingEnvIs500(req: LinkRequest, env: LinkEnv, p: Platform)
    requires req.Body? && !EnvComplete(env)
    ensures Admit(req, env, p) == Answer(Response(500, Reply(false, Some(MissingEnv))))
  {
  }

  /** A payload that fails verification answers 401, so no code is read and nothing is written. */
  lemma RejectedIs401(req: LinkRequest, env: LinkEnv, p: Platform)
    requires req.Body? && EnvComplete(env)
    requires Verify(match req.initData case Some(s) => s case None => "", env.botToken, p) == Rejected
    ensures Admit(req, env, p) == Answer(Response(401, Reply(false, None)))
  {
  }

  /** An unreadable body or an exception from `JSON.parse` of the user field answers 500 `{ok: false}`. */
  lemma ThrownIs500(req: LinkRequest, env: LinkEnv, p: Platform)
    requires req.Unreadable? || (EnvComplete(env) &&
      Verify(match req.initData case Some(s) => s case None => "", env.botToken, p) == Threw)
    ensures Admit(req, env, p) == Answer(Response(500, Reply(false, None)))
  {
  }

  /** A redemption is rejected with 400 exactly when the row is absent, used,
      or expires at or before now; a rejection changes neither store. */
  lemma RejectionLeavesStores(s: Stores, code: string, telegramUserId: int, now: int, landed: Landed)
    ensures var r := Redemption(s, code, telegramUserId, now, landed);
      && (r.status == 400 <==>
            code !in s.linkCodes || s.linkCodes[code].usedAt.Some? || ExpiryInstant(s.linkCodes[code]) <= now)
      && (r.status == 400 ==> r.stores == s && RedemptionWrites(s, code, telegramUserId, now) == [])
      && (r.status == 200 || r.status == 400)
  {
  }

  /** A code whose expiry is exactly now is already expired. */
  lemma ExpiryIsExclusive(s: Stores, code: string, telegramUserId: int, now: int, landed: Landed)
    requires code in s.linkCodes && s.linkCodes[code].expiresAt == Some(now)
    ensures Redemption(s, code, telegramUserId, now, landed) == Redeemed(400, s)
  {
  }

  /** A successful redemption links the code's account to String(id), stamps
      that code with now, and leaves every other code and every other Telegram
      user's link as it was. */
  lemma SuccessWrites(s: Stores, code: string, telegramUserId: int, now: int)
    requires code in s.linkCodes && Redeemable(s.linkCodes[code], now)
    ensures var r := Redemption(s, code, telegramUserId, now, Landed(true, true));
      && r.status == 200
      && r.stores.userLinks[IntString(telegramUserId)] == s.linkCodes[code].supabaseUserId
      && r.stores.linkCodes[code] == s.linkCodes[code].(usedAt := Some(now))
      && (forall c :: c != code ==> (c in r.stores.linkCodes <==> c in s.linkCodes))
      && (forall c :: c != code && c in s.linkCodes ==> r.stores.linkCodes[c] == s.linkCodes[c])
      && (forall id :: id != telegramUserId ==>
            (IntString(id) in r.stores.userLinks <==> IntString(id) in s.userLinks))
      && (forall id :: id != telegramUserId && IntString(id) in s.userLinks ==>
            r.stores.userLinks[IntString(id)] == s.userLinks[IntString(id)])
      && RedemptionWrites(s, code, telegramUserId, now) ==
           [LinkWrite(s.linkCodes[code].supabaseUserId, IntString(telegramUserId)), StampWrite(code, now)]
  {
    forall id | id != telegramUserId ensures IntString(id) != IntString(telegramUserId) {
      if IntString(id) == IntString(telegramUserId) {
        IntStringInjective(id, telegramUserId);
      }
    }
  }

  /** Once a redemption has succeeded and its stamp has landed, the same code
      is rejected for every user at every later (or earlier) instant. */
  lemma SecondRedemptionRejected(s: Stores, code: string, firstUser: int, firstNow: int, first: Landed,
                                 secondUser: int, secondNow: int, second: Landed)
    requires first.stamp
    requires Redemption(s, code, firstUser, firstNow, first).status == 200
    ensures var after := Redemption(s, code, firstUser, firstNow, first).stores;
      Redemption(after, code, secondUser, secondNow, second) == Redeemed(400, after)
  {
  }

  /** If the update stamping `used_at` does not land, the handler still
      answers 200 and the code can be redeemed again. */
  lemma LostStampAllowsReplay(s: Stores, code: string, firstUser: int, now: int, link: bool,
                              secondUser: int, second: Landed)
    requires code in s.linkCodes && Redeemable(s.linkCodes[code], now)
    ensures var r := Redemption(s, code, firstUser, now, Landed(link, false));
      && r.status == 200
      && Redemption(r.stores, code, secondUser, now, second).status == 200
  {
  }
}
