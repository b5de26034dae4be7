# Telegram mini-app sign-in: verified model

This project models the two Supabase edge functions of a Telegram mini app.

- `telegram-auth` checks the signed `initData` payload that Telegram hands to the mini app. When the
  Telegram user already has a row in `user_links`, it issues a 30-day Supabase access token for the
  linked account.
- `link-telegram` checks the same payload and then redeems a one-time code from `link_codes`. It
  records the pairing of the code's Supabase account with the Telegram id, and then stamps the
  code as used.

Both functions carry the same copy of `parseInitData` and `verifyTelegram`.
`link-telegram/index.ts:11-36` is `telegram-auth/index.ts:12-37` shifted by one line. One Dafny
module serves both, and the table cites the `telegram-auth` copy.

Modules, one per component:

- `Hex` (hex.dfy): the tag rendering: each byte in base 16, left-padded to two places, all bytes joined. It
  comes with a decoder, which is its inverse.
- `Decimal` (decimal.dfy): `String(tgUser.id)`, the key both endpoints use for `user_links`. It
  comes with a parser, which is its inverse.
- `Canonical` (canonical.dfy): `parseInitData`. It takes the first `hash` value as the tag, deletes
  every `hash` field, sorts the rest stably by name, renders each field as `k=v` and joins the
  lines with `"\n"`.
- `Verifier` (verifier.dfy): `verifyTelegram`. The tag must be the lowercase hex of
  HMAC-SHA-256(key = SHA-256(bot token), message = data-check string), compared by plain string
  equality. The `user` field must then be present, non-empty and carry a truthy id. This is the
  Login Widget key derivation, and it is what the code does.
- `SessionIssuer` (telegram_auth.dfy): the telegram-auth handler. It is a pure function from the
  request, the configuration and the `user_links` lookup to the status and the reply.
- `LinkExchange` (link_telegram.dfy): the link-telegram handler.
  - The class `LinkStore` keeps the two tables as `map` fields. `Redeem` and `Handle` change them
    in place.
  - A ghost `writes` log records the writes the handler issues, in order.
  - The methods' contracts tie the new state to the pure functions `Admit`, `Redemption` and
    `RedemptionWrites`. The lemmas are stated about those functions.
- `EndToEnd` (end_to_end.dfy): links the two endpoints through the shared `user_links` table.

Runtime services are fields of the `Verifier.Platform` datatype, so every lemma holds for every
implementation of them:

- `URLSearchParams` decoding;
- `localeCompare`;
- `TextEncoder`;
- SHA-256 and HMAC-SHA-256 (`crypto.subtle`);
- `JSON.parse` of the user field.

The clock is a parameter: seconds for the token expiry, milliseconds for the `Date` comparison of
`expires_at`. The token signer (`djwt` `create`) and the `user_links` query are also parameters of
the session handler.

In three places the intended design differs from the code. The model follows the code:

- The fields are sorted with `localeCompare`, not in byte order. The model takes the comparator as
  a parameter. Order-independence is proved for any comparator that is consistent and returns 0
  only for equal strings. `Canonical.CodePointOrder` shows that code-point order is such a
  comparator; it agrees with JavaScript's UTF-16 code-unit order only on names made of
  characters from the Basic Multilingual Plane. A locale collation that returns 0 for two different names is not covered.
- Invalid JSON in the `user` field makes `JSON.parse` throw. The handler's `catch` then answers
  500, not 401.
- The results of the upsert and of the `used_at` update are ignored. The model lets either write
  fail to land, and the handler still answers 200. The `Landed` parameter of `Redemption` says
  whether each write landed.

## Model

| member | source | states |
|---|---|---|
| `Hex.ByteHexDigits` | supabase/functions/telegram-auth/index.ts:29 | padding `toString(16)` to two places always gives the high-nibble digit and then the low-nibble digit |
| `Hex.Encode` | supabase/functions/telegram-auth/index.ts:28-30 | the rendering of n bytes has exactly 2·n characters, each a lowercase hex digit |
| `Hex.Decode` | supabase/functions/telegram-auth/index.ts:28-30 | the inverse reader accepts only lowercase digit pairs; a decoded string is twice as long as its bytes |
| `Hex.DigitValue` | supabase/functions/telegram-auth/index.ts:29 | a character has a digit value exactly when it is 0-9 or a-f, and that value renders back to the character |
| `Hex.DecodeEncode` | supabase/functions/telegram-auth/index.ts:28-30 | decoding the rendering of any byte string returns those bytes |
| `Hex.EncodeDecode` | supabase/functions/telegram-auth/index.ts:28-30 | any string that decodes is the rendering of what it decodes to |
| `Hex.EncodeInjective` | supabase/functions/telegram-auth/index.ts:28-31 | two different tags never render to the same hex string |
| `Decimal.NatString` | supabase/functions/telegram-auth/index.ts:59 | the rendering is all digits, non-empty, and starts with 0 only for zero |
| `Decimal.IntString` | supabase/functions/link-telegram/index.ts:66 | `String(id)` starts with a minus sign exactly for negative ids |
| `Decimal.ParseNatString` | supabase/functions/telegram-auth/index.ts:59 | reading back the digits of n gives n |
| `Decimal.ParseIntString` | supabase/functions/telegram-auth/index.ts:59 | reading back `String(id)` gives the id |
| `Decimal.IntStringInjective` | supabase/functions/link-telegram/index.ts:66 | two different Telegram ids never share a `telegram_user_id` key |
| `Canonical.FirstValue` | supabase/functions/telegram-auth/index.ts:14 | `params.get` finds a value only if a field with that name and value exists, and finds nothing exactly when no field has the name |
| `Canonical.FirstValueFirst` | supabase/functions/telegram-auth/index.ts:14 | `params.get` returns the value of the first field with the name, whatever fields with that name follow it |
| `Canonical.TagIsFirstHash` | supabase/functions/telegram-auth/index.ts:14 | the tag is the value of the first `hash` field even when several are present, and "" when there is none |
| `Canonical.RemoveKey` | supabase/functions/telegram-auth/index.ts:15 | `params.delete` removes every field with the name and keeps every other field with its multiplicity |
| `Canonical.Insert` | supabase/functions/telegram-auth/index.ts:16 | inserting adds exactly the one field |
| `Canonical.SortByKey` | supabase/functions/telegram-auth/index.ts:16 | the sorted fields are a permutation of the input |
| `Canonical.InsertSorted` | supabase/functions/telegram-auth/index.ts:16 | inserting into a name-sorted list keeps it sorted, given a consistent comparator |
| `Canonical.SortSorted` | supabase/functions/telegram-auth/index.ts:16 | the sort's output is ordered by name under a consistent comparator |
| `Canonical.SortedUnique` | supabase/functions/telegram-auth/index.ts:16-17 | fields with one value per name have exactly one name-sorted arrangement under an antisymmetric comparator that returns 0 only for equal names |
| `Canonical.CodePointOrder` | supabase/functions/telegram-auth/index.ts:16 | code-point lexicographic order is consistent and returns 0 only for equal names, so it meets what the order-independence lemmas require |
| `Canonical.EntriesSpec` | supabase/functions/telegram-auth/index.ts:14-17 | the entries under the data-check string are exactly the non-`hash` fields, none of them named `hash` even when several `hash` fields are present, sorted by name |
| `Canonical.SplitJoin` | supabase/functions/telegram-auth/index.ts:17 | joining with `"\n"` (no trailing separator) and splitting at newlines gives back the lines when none contains a newline |
| `Canonical.DataCheckLines` | supabase/functions/telegram-auth/index.ts:14-17 | the data-check string, split at newlines, is the sorted non-`hash` entries rendered `k=v` |
| `Canonical.FirstValuePermutation` | supabase/functions/telegram-auth/index.ts:14 | reordering fields that have one value per name does not change what `params.get` returns |
| `Canonical.ParsePermutationInvariant` | supabase/functions/telegram-auth/index.ts:12-18 | reordering the fields (one value per name, strict comparator) changes neither the tag nor the data-check string nor the remaining params' multiset |
| `Verifier.CheckUser` | supabase/functions/telegram-auth/index.ts:32-36 | after a tag match: a missing or empty `user` rejects, unparseable JSON throws, and an absent id or id 0 rejects; otherwise the user with that non-zero id is returned |
| `Verifier.RejectedBeforeDigest` | supabase/functions/telegram-auth/index.ts:22-24 | an empty `initData` or an absent or empty `hash` is rejected whatever the digest and HMAC compute |
| `Verifier.AcceptedHash` | supabase/functions/telegram-auth/index.ts:25-31 | an accepted tag equals the lowercase hex of HMAC(SHA-256(token), data-check) and is 64 lowercase hex characters |
| `Verifier.MalformedHashRejected` | supabase/functions/telegram-auth/index.ts:31 | a tag of any length other than 64, or with any character outside 0-9a-f (upper-case digits included), is rejected |
| `Verifier.OtherHashRejected` | supabase/functions/telegram-auth/index.ts:31 | if a payload is accepted, the same fields with any other first `hash` value are rejected |
| `Verifier.UserDecides` | supabase/functions/telegram-auth/index.ts:31-36 | once the tag matches, the verdict is the user check applied to the first `user` field |
| `Verifier.UserSurvivesDelete` | supabase/functions/telegram-auth/index.ts:15 | deleting `hash` fields does not change the `user` value that `params.get` finds |
| `Verifier.VerifyPermutationInvariant` | supabase/functions/telegram-auth/index.ts:21-37 | the verdict does not depend on field order when each name has one value and the comparator is strict |
| `SessionIssuer.SessionClaims` | supabase/functions/telegram-auth/index.ts:66-75 | the token's claims are sub = linked account, aud = role = "authenticated", exp = now + 2592000 s |
| `SessionIssuer.HandleSession` | supabase/functions/telegram-auth/index.ts:39-89 | the status is 200, 401 or 500; a session is issued exactly when the body is readable, all four variables are set, the payload verifies and the lookup yields a non-empty account id; an issued session has status 200 and an empty refresh token |
| `SessionIssuer.MissingEnvIs500` | supabase/functions/telegram-auth/index.ts:41-48 | any empty variable gives 500 `{linked:false, error:"Missing env"}`, the same whatever verification, lookup and signing would give |
| `SessionIssuer.UnreadableIs500` | supabase/functions/telegram-auth/index.ts:86-88 | a body that `req.json()` cannot read gives 500 `{linked:false}` |
| `SessionIssuer.RejectedIs401WithoutLookup` | supabase/functions/telegram-auth/index.ts:50-53 | a failed verification gives 401 and the response is the same for every `user_links` lookup |
| `SessionIssuer.ThrownIs500` | supabase/functions/telegram-auth/index.ts:86-88 | an exception from parsing the user JSON gives 500 `{linked:false}` |
| `SessionIssuer.UnlinkedIs200` | supabase/functions/telegram-auth/index.ts:62-64 | a verified user with a lookup error, no row or an empty account id gets 200 `{linked:false}` |
| `SessionIssuer.LinkedIssuesSession` | supabase/functions/telegram-auth/index.ts:66-85 | a linked user gets 200 with the account id, a token signed with the JWT secret over the fixed claims, and `refresh_token` "" |
| `LinkExchange.LinkStore.Redeem` | supabase/functions/link-telegram/index.ts:54-74 | the new stores and status are those of `Redemption` on the old stores, and the writes log grows by the upsert and then the stamp, or by nothing |
| `LinkExchange.LinkStore.Handle` | supabase/functions/link-telegram/index.ts:38-78 | an early answer (500, 401) leaves both stores and the writes log unchanged; otherwise the response is `{ok: status == 200}` with the redemption's status and stores |
| `LinkExchange.MissingEnvIs500` | supabase/functions/link-telegram/index.ts:41-46 | any empty variable gives 500 `{ok:false, error:"Missing env"}` before verification |
| `LinkExchange.RejectedIs401` | supabase/functions/link-telegram/index.ts:48-51 | a failed verification gives 401 before any code lookup or write |
| `LinkExchange.ThrownIs500` | supabase/functions/link-telegram/index.ts:75-77 | an unreadable body or invalid `user` JSON gives 500 `{ok:false}` |
| `LinkExchange.RejectionLeavesStores` | supabase/functions/link-telegram/index.ts:60-62 | the status is 400 exactly when the row is absent, already used, or expires at or before now; it is 200 otherwise; a 400 leaves both stores unchanged and issues no write |
| `LinkExchange.ExpiryIsExclusive` | supabase/functions/link-telegram/index.ts:60 | a code whose `expires_at` equals now is rejected |
| `LinkExchange.SuccessWrites` | supabase/functions/link-telegram/index.ts:64-72 | a success links `String(id)` to the code's account, then sets that code's `used_at` to now; no other code and no other Telegram user's link changes; the writes are the upsert then the update |
| `LinkExchange.SecondRedemptionRejected` | supabase/functions/link-telegram/index.ts:69-72 | once a redemption has succeeded and its stamp has landed, the same code is rejected for any user at any time |
| `LinkExchange.LostStampAllowsReplay` | supabase/functions/link-telegram/index.ts:69-74 | if the `used_at` update does not land, the handler still answers 200 and the code can be redeemed again |
| `EndToEnd.RedeemedUserGetsSession` | supabase/functions/telegram-auth/index.ts:55-83 | after a user redeems a code and the link write lands, that user's session request issues a token for the code's account |
| `EndToEnd.OtherUsersUnaffected` | supabase/functions/link-telegram/index.ts:64-67 | one user's redemption never changes the session answer for a different Telegram user |

## Left out

- Cryptography: SHA-256, HMAC import and signing are fields of `Platform`. Only the key derivation
  is modelled: the key is the digest of the token. The lemmas assume nothing about these
  functions. So the model cannot show that tampering with a field invalidates the tag, because
  that rests on HMAC being unforgeable.
- Form decoding: percent-decoding and `+` handling by `URLSearchParams`, and UTF-8 encoding by
  `TextEncoder`, are functions of `Platform`. The lemmas take the decoded field list as given.
- `localeCompare`: its collation is the `compare` field. The sort is modelled as a stable
  insertion sort, since `Array.prototype.sort` is stable. The model does not fix what an
  inconsistent comparator would produce.
- User JSON: only the outcome of `JSON.parse` is modelled: an exception, an absent id, or an
  integer id. Ids that are strings, booleans or fractions are not modelled. Neither are ids beyond
  2^53 (where a JavaScript number loses precision) or ids that `String` writes in exponent form.
  Neither handler uses the other user fields, so the model drops them.
- Request bodies: a `code` field that is missing or not a string is not modelled. Neither is an
  `initData` that is present but not a string. A missing `initData` is modelled and behaves as "".
- Supabase client: creating the client, network failures and the upsert's conflict key are left
  out. The `user_links` table is a map keyed by `telegram_user_id`, as the `maybeSingle()` lookup
  implies. An error reading `link_codes` yields no row, so the model treats it as an absent row.
- Token signing: djwt `create` is the `sign` parameter, and signing is assumed not to throw. `now`
  is already rounded to whole seconds.
- Dates: `expires_at` and `used_at` are millisecond instants. A null `expires_at` reads as the
  epoch. An `expires_at` that cannot be parsed (NaN) is not modelled. `used_at` is stored as the
  instant, not as its ISO string.
- Clock reads: the handler reads the clock twice, once for the expiry test and once for the
  `used_at` stamp. `Redemption` and `LinkStore.Redeem` use one `now` for both, so the model does
  not capture a stamp a few milliseconds later than the instant the expiry was checked against.
- Concurrency: two redemptions of one code racing each other, and the atomicity of the
  read-then-write, are not modelled. The code makes no conditional update.
- `Deno.serve`, `Deno.env`, `Response` construction and JSON serialisation are not modelled.
  Configuration and replies are datatypes.
- Comparison: the tag is compared with plain string equality. Timing behaviour is not modelled.
