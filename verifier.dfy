/** `verifyTelegram`: accepts a Telegram `initData` payload only when its tag is
    the HMAC-SHA-256 of the data-check string under the key SHA-256(bot token),
    and only when it carries a user with a truthy id. */
module Verifier {
  import opened Options
  import opened Hex
  import opened Canonical

  /** A SHA-256 or HMAC-SHA-256 output. */
  type Digest = d: seq<byte> | |d| == 32 witness seq(32, _ => 0)

  /** What parsing the user field as JSON yields, as far as the verifier looks at it:
      an exception, or a value whose `id` is absent (None) or an integer. */
  datatype UserJson = Unparseable | Parsed(id: Option<int>)

  datatype TelegramUser = TelegramUser(id: int)

  /** The outcome of verifyTelegram: the user, null, or an exception that
      propagates to the handler. */
  datatype Verdict = Verified(user: TelegramUser) | Rejected | Threw

  /** The runtime services the verifier calls but does not define. */
  datatype Platform = Platform(
    formFields: string -> seq<Pair>,              // new URLSearchParams(initData)
    compare: Comparator,                          // String.prototype.localeCompare
    utf8: string -> seq<byte>,                    // new TextEncoder().encode
    sha256: seq<byte> -> Digest,                  // crypto.subtle.digest("SHA-256", ·)
    hmacSha256: (Digest, seq<byte>) -> Digest,    // crypto.subtle.sign("HMAC", key, msg)
    parseUser: string -> UserJson)                // JSON.parse of the user field

  const UserKey: string := "user"

  /** The tag a genuine payload carries: lower-case hex of
      HMAC-SHA-256(key = SHA-256(botToken), message = dataCheck). */
  function ExpectedHash(dataCheck: string, botToken: string, p: Platform): string {
    Encode(p.hmacSha256(p.sha256(p.utf8(botToken)), p.utf8(dataCheck)))
  }

  /** What a JSON user value gives once the tag has matched. */
  function CheckUser(raw: Option<string>, p: Platform): (v: Verdict)
    ensures v == Threw <==> raw.Some? && raw.value != "" && p.parseUser(raw.value).Unparseable?
    ensures v.Verified? <==> raw.Some? && raw.value != "" && p.parseUser(raw.value).Parsed?
                             && p.parseUser(raw.value).id.Some? && p.parseUser(raw.value).id.value != 0
    ensures v.Verified? ==> v.user.id != 0 && p.parseUser(raw.value) == Parsed(Some(v.user.id))
  {
    match raw
    case None => Rejected
    case Some(r) =>
      if r == "" then Rejected
      else match p.parseUser(r)
        case Unparseable => Threw
        case Parsed(id) =>
          if id.None? || id.value == 0 then Rejected else Verified(TelegramUser(id.value))
  }

  /** verifyTelegram from the point where the form fields have been decoded. */
  function VerifyFields(fields: seq<Pair>, botToken: string, p: Platform): Verdict {
    var parsed := ParseInitData(fields, p.compare);
    if parsed.hash == "" then Rejected
    else if ExpectedHash(parsed.dataCheck, botToken, p) != parsed.hash then Rejected
    else CheckUser(FirstValue(parsed.params, UserKey), p)
  }

  function Verify(initData: string, botToken: string, p: Platform): Verdict {
    if initData == "" then Rejected else VerifyFields(p.formFields(initData), botToken, p)
  }

  /** An empty payload, or one whose tag is absent or empty, is rejected
      whatever the digest and HMAC primitives compute. */
  lemma RejectedBeforeDigest(initData: string, botToken: string, p: Platform,
                             sha: seq<byte> -> Digest, mac: (Digest, seq<byte>) -> Digest)
    requires initData == "" || FirstValue(p.formFields(initData), HashKey) in {None, Some("")}
    ensures Verify(initData, botToken, p) == Rejected
    ensures Verify(initData, botToken, p.(sha256 := sha, hmacSha256 := mac)) == Rejected
  {
  }

  /** An accepted tag is the expected one, and so is 64 lower-case hex digits. */
  lemma AcceptedHash(fields: seq<Pair>, botToken: string, p: Platform)
    requires VerifyFields(fields, botToken, p).Verified?
    ensures var h := ParseInitData(fields, p.compare).hash;
      && h == ExpectedHash(ParseInitData(fields, p.compare).dataCheck, botToken, p)
      && |h| == 64
      && forall i :: 0 <= i < |h| ==> IsLowerHexDigit(h[i])
  {
  }

  /** A tag of the wrong length or with any character outside 0-9a-f (an
      upper-case digit, say) is rejected. */
  lemma MalformedHashRejected(fields: seq<Pair>, botToken: string, p: Platform)
    requires var h := ParseInitData(fields, p.compare).hash;
      |h| != 64 || exists i :: 0 <= i < |h| && !IsLowerHexDigit(h[i])
    ensures VerifyFields(fields, botToken, p) == Rejected
  {
  }

  /** Two payloads with the same non-tag fields and different tags are never
      both accepted: the first `hash` is compared, in full, with one string. */
  lemma OtherHashRejected(fields: seq<Pair>, forged: seq<Pair>, botToken: string, p: Platform)
    requires VerifyFields(fields, botToken, p).Verified?
    requires RemoveKey(forged, HashKey) == RemoveKey(fields, HashKey)
    requires FirstValue(forged, HashKey) != FirstValue(fields, HashKey)
    ensures VerifyFields(forged, botToken, p) == Rejected
  {
    assert FirstValue(fields, HashKey).Some?;
  }

  /** Once the tag matches, the user field alone decides (see CheckUser): absent,
      empty, an absent id or id 0 reject, unparseable JSON throws, any other id
      is returned. */
  lemma UserDecides(fields: seq<Pair>, botToken: string, p: Platform)
    requires var parsed := ParseInitData(fields, p.compare);
      parsed.hash != "" && ExpectedHash(parsed.dataCheck, botToken, p) == parsed.hash
    ensures VerifyFields(fields, botToken, p) == CheckUser(FirstValue(fields, UserKey), p)
  {
    UserSurvivesDelete(fields);
  }

  /** Deleting the `hash` fields leaves `params.get("user")` as it was. */
  lemma {:induction false} UserSurvivesDelete(fields: seq<Pair>)
    ensures FirstValue(RemoveKey(fields, HashKey), UserKey) == FirstValue(fields, UserKey)
  {
    if fields != [] {
      UserSurvivesDelete(fields[1..]);
    }
  }

  /** A verdict never depends on the order of the payload's fields, provided
      no name carries two different values and the comparator is a strict
      total order. */
  lemma VerifyPermutationInvariant(xs: seq<Pair>, ys: seq<Pair>, botToken: string, p: Platform)
    requires Consistent(p.compare) && Discriminating(p.compare)
    requires multiset(xs) == multiset(ys) && KeyFunctional(xs)
    ensures VerifyFields(xs, botToken, p) == VerifyFields(ys, botToken, p)
  {
    ParsePermutationInvariant(xs, ys, p.compare);
    FirstValuePermutation(xs, ys, UserKey);
    UserSurvivesDelete(xs);
    UserSurvivesDelete(ys);
  }
}
