# Stripe-to-GoHighLevel phone sync: a verified model of its decision rules

This Lambda receives Stripe `checkout.session.completed` webhooks. It copies the buyer's phone
number into GoHighLevel (the CRM) in two phases:

- **Phase 1.** It finds the contacts of a fixed default location whose email is exactly the
  customer's. A contact without a phone gets the customer's phone. Every contact still missing
  a `close` or `closed` tag gets both tags.
- **Phase 2.** It waits, with exponential backoff, for the sub-account locations that Stripe
  provisioning creates for the customer. In each such location, it gives the customer's phone to
  every user with the customer's exact email who has no phone yet.

This project models the decision rules of `update_ghl_phone_numbers.py` and proves them. The
rules are the Stripe signature check, the two retry loops, the contact search filter, the tag
merge, and the handler's guard sequence and two loops.

The CRM is a scripted remote side, `Http.Remote`:

- `pending` is a tape with one reply per HTTP request, in request order. Past its end, every
  request raises.
- `calls` logs each request made, with the ids and payloads that matter.
- `sleeps` logs each `time.sleep` value.

Each imperative operation is a `method` that takes that object and modifies it, following the
source's loops. Each
method is proved equal to a pure description. That description is a function from the replies
still to come to a `Run`, which holds:

- the result;
- the requests made;
- the sleeps;
- the unread replies.

The lemmas state what the source promises about those descriptions.

Modules:

- `Wrappers`: the `Option` type.
- `Text`: `str.split` and `join`.
- `StripeSignature`: the webhook signature check.
- `Http`: replies, requests and the scripted remote side.
- `TagMerge`: the tag merge.
- `GoHighLevel`: the CRM client.
- `Handler`: the handler and its phases.
- `HandlerProperties`: what the handler promises.

Inputs the model takes instead of computing them:

- HMAC-SHA256 is a parameter `mac: (key, message) -> hexdigest`.
- The result of `get_secret` is an input `agencySecret`: the secret, or the text of the exception
  it raised.
- `STRIPE_WEBHOOK_SECRET` is the parameter `webhookSecret`.
- What `json.loads` makes of the event body is a field of the event. It is either a decoded
  checkout or the exception's text.

Where the code and its description differ, the model follows the code:

- **The location retry never takes the announced 320 s wait.** It sleeps 310 s in all, not
  about 630 s. The docstring at `update_ghl_phone_numbers.py:102-105` announces waits of 10, 20,
  40, 80, 160 and 320 seconds, about ten minutes (630 s). The loop never sleeps after its last
  attempt. With the defaults (6 attempts, 10 s) it sleeps 10, 20, 40, 80 and 160 seconds, 310 in
  all (`GoHighLevel.DefaultRetrySchedule`).
- **A failed token request is not caught.** Every other client call wraps its request in
  `try`/`except` (`update_ghl_phone_numbers.py:152`, `:231`, `:270`, `:349`, `:382`) and turns a
  failure into its failure value, but `get_location_access_token` has no `try`. A raised
  request, or a 200/201 answer whose body is not JSON, propagates to the top-level handler. The
  invocation then answers 500 with the exception's text. The model carries this as
  `Outcome.Threw` (`GoHighLevel.TokenTransportFailureEscapes`,
  `GoHighLevel.TokenUnreadableBodyEscapes`).
- **A non-ASCII signature can hide a later match.** `hmac.compare_digest` on two `str` values
  raises `TypeError` when either is not ASCII. The `any(...)` over the `v1` values stops at that
  exception, and the `except` turns it into a rejection. A non-ASCII `v1` value before the
  matching one therefore rejects the header (`StripeSignature.AnyDigestMatchSpec`).

## Model

| member | source | states |
|---|---|---|
| Text.Split | update_ghl_phone_numbers.py:44 | `str.split(sep)`: at least one part, and no part holds the separator |
| Text.JoinSplit | update_ghl_phone_numbers.py:44 | joining the parts of a split back with the separator gives the original string |
| Text.SplitJoin | update_ghl_phone_numbers.py:44 | splitting a join of separator-free parts gives exactly those parts |
| StripeSignature.KeyValueExact | update_ghl_phone_numbers.py:49 | an element unpacks to `(key, value)` exactly when it is `key=value` with no `=` in either side |
| StripeSignature.Pairs | update_ghl_phone_numbers.py:44-53 | the header's elements unpack exactly when every element does, into one pair per element, in order |
| StripeSignature.LastValueSpec | update_ghl_phone_numbers.py:45-51 | the timestamp is absent exactly when no element has key `t`; otherwise it is the value of the last `t` element |
| StripeSignature.ValuesSpec | update_ghl_phone_numbers.py:46-53 | the collected signatures are exactly the values of the `v1` elements |
| StripeSignature.ValuesAppend | update_ghl_phone_numbers.py:48-53 | the signatures keep the header's order: the `v1` values of two runs of elements are those of the first, then those of the second |
| StripeSignature.ValuesCount | update_ghl_phone_numbers.py:48-53 | the signatures keep multiplicity: a value is collected once per `v1` element carrying it |
| StripeSignature.ValuesEmpty | update_ghl_phone_numbers.py:52-56 | no signature is collected exactly when no element has key `v1` |
| StripeSignature.AnyDigestMatchSpec | update_ghl_phone_numbers.py:69-71 | the `any(compare_digest)` loop answers true exactly when the digest is ASCII and some signature equals it with only ASCII signatures before it; a non-ASCII one first raises |
| StripeSignature.AnyDigestMatchAscii | update_ghl_phone_numbers.py:69-71 | with ASCII digest and signatures, the loop answers true exactly when the digest is among the signatures |
| StripeSignature.VerifyStripeSignature | update_ghl_phone_numbers.py:34-75 | the element loop (last `t`, every `v1` in order, a bad element failing closed) returns exactly the verdict `Accepts` |
| StripeSignature.EmptySecretAcceptsAll | update_ghl_phone_numbers.py:36-40 | with an empty secret every header, empty or malformed, is accepted |
| StripeSignature.MalformedElementRejected | update_ghl_phone_numbers.py:48-75 | with a secret, an element that does not split into exactly a key and a value rejects the header |
| StripeSignature.TimestampRequired | update_ghl_phone_numbers.py:50-56 | with a secret, a header with no `t`, or whose last `t` is empty, is rejected |
| StripeSignature.SignatureRequired | update_ghl_phone_numbers.py:52-56 | with a secret, a header with no `v1` element is rejected |
| StripeSignature.AcceptsIffSignatureMatches | update_ghl_phone_numbers.py:44-71 | with a non-empty secret, and with every `v1` value and the digest ASCII, a well-formed header whose last `t` is the non-empty `ts` is accepted exactly when some element is `v1=HMAC(secret, ts + "." + payload)` |
| StripeSignature.StripeHeaderAccepted | update_ghl_phone_numbers.py:44-71 | with a non-empty secret, a non-empty `ts`, `ts` and the signatures free of `,` and `=`, and the signatures and the digest ASCII, a header in Stripe's own format `t=ts,v1=s1,...` is accepted exactly when one of the `s_i` is the HMAC of `ts.payload` |
| TagMerge.SingleTagAsList | update_ghl_phone_numbers.py:287-300 | a single truthy tag merges exactly as the one-element list holding it, and is sent exactly when it is absent; None, `[]` and `""` never send a `tags` key |
| TagMerge.NewTagsSpec | update_ghl_phone_numbers.py:292-296 | the new tags are exactly the requested tags not already present, no more of them than requested, and duplicate-free when the request is |
| TagMerge.MergedTagsSpec | update_ghl_phone_numbers.py:284-303 | the `tags` key is left out exactly when every requested tag is present; otherwise the sent list starts with the existing tags, holds exactly the existing and the requested ones, and is duplicate-free when both inputs are |
| TagMerge.MergeIdempotent | update_ghl_phone_numbers.py:284-303 | merging the same request into an already merged list adds nothing, so no `tags` key is sent again |
| TagMerge.CloseTagsExample | update_ghl_phone_numbers.py:505-513 | merging `close`/`closed` into `["close"]` sends `["close", "closed"]` |
| GoHighLevel.Lead | update_ghl_phone_numbers.py:108-124 | the number of leading replies with a property: all of them have it, and the next one does not |
| GoHighLevel.LeadExact | update_ghl_phone_numbers.py:108-124 | any count with that characterisation is the lead |
| GoHighLevel.DelayIsPower | update_ghl_phone_numbers.py:106-125 | after `i` doublings the delay is `initial_delay * 2^i` |
| GoHighLevel.Doublings | update_ghl_phone_numbers.py:119-125 | the sleep schedule: its `i`-th sleep is the delay after `i` doublings |
| GoHighLevel.LocationsFoundAt | update_ghl_phone_numbers.py:106-124 | when attempt `k` is the first to find locations, the retry returns them after `k+1` requests, having slept `initial_delay * 2^i` for each `i < k` |
| GoHighLevel.LocationsExhausted | update_ghl_phone_numbers.py:106-130 | when no attempt finds locations, the retry makes exactly `max_retries` identical requests, sleeps the first `max_retries - 1` delays and returns `[]` |
| GoHighLevel.DefaultRetrySchedule | update_ghl_phone_numbers.py:98-130 | with the defaults and no locations, the sleeps are 10, 20, 40, 80 and 160 seconds, 310 in all |
| GoHighLevel.LocationsRetryFound | update_ghl_phone_numbers.py:106-117 | the whole run when attempt `k` is the first to find locations: its result, requests, sleeps and unread replies |
| GoHighLevel.LocationsRetryNone | update_ghl_phone_numbers.py:106-130 | the whole run when no attempt finds locations |
| GoHighLevel.GetLocationsByStripeCustomer | update_ghl_phone_numbers.py:132-170 | one request, with the subscription id only when it is truthy; the `data` list of a 200 answer, else `[]` |
| GoHighLevel.GetLocationsByStripeCustomerWithRetry | update_ghl_phone_numbers.py:98-130 | the loop, with its doubling delay and no sleep after the last attempt, makes the requests and sleeps of the retry description and returns its result |
| GoHighLevel.Backoffs | update_ghl_phone_numbers.py:191-197 | the token loop's waits: the `i`-th is `(i + 1) * 2` seconds |
| GoHighLevel.RateLimitedThrice | update_ghl_phone_numbers.py:187-213 | three 429 answers give three requests, sleeps `[2, 4, 6]` and no token |
| GoHighLevel.TokenGrantedAfter | update_ghl_phone_numbers.py:187-204 | after `k` 429s, a 200/201 answer gives its `access_token` (`""` when absent) after `k+1` requests and the first `k` backoffs |
| GoHighLevel.TokenRefusedAfter | update_ghl_phone_numbers.py:187-210 | after `k` 429s, any other status gives no token at once, with no further request |
| GoHighLevel.TokenTransportFailureEscapes | update_ghl_phone_numbers.py:187-189 | after `k` 429s, a request that raises is not caught: the token lookup throws that exception, after `k+1` requests and the first `k` backoffs |
| GoHighLevel.TokenUnreadableBodyEscapes | update_ghl_phone_numbers.py:199-200 | after `k` 429s, a 200/201 answer whose body is not JSON makes `response.json()` raise, and the token lookup throws that exception after `k+1` requests |
| GoHighLevel.GetLocationAccessToken | update_ghl_phone_numbers.py:172-213 | the loop, with `continue` on 429, makes the requests and sleeps of the token description and returns its outcome |
| GoHighLevel.ExactEmailMatches | update_ghl_phone_numbers.py:237-239 | a contact is kept exactly when it is in the search result and its email equals the customer's exactly |
| GoHighLevel.ExactEmailMatchesAppend | update_ghl_phone_numbers.py:237-239 | the filter keeps the server's order: filtering two runs of contacts gives the matches of the first, then those of the second |
| GoHighLevel.ExactEmailMatchesCount | update_ghl_phone_numbers.py:237-239 | the filter keeps multiplicity: a matching contact is kept as often as it occurs, any other never |
| GoHighLevel.ContactsFromReply | update_ghl_phone_numbers.py:231-253 | every contact the search returns has exactly the customer's email |
| GoHighLevel.SearchContactsByEmail | update_ghl_phone_numbers.py:215-253 | one search request; the exact matches of a 200 answer, else `[]` |
| GoHighLevel.ContactUpdateSpec | update_ghl_phone_numbers.py:255-329 | the update GETs the contact and then PUTs only when the GET answered a readable 200; it never sends a phone other than the one given; it reports success exactly when the GET and the PUT both answered 200 |
| GoHighLevel.UpdateContactPhoneAndTags | update_ghl_phone_numbers.py:255-329 | its GET, its merge loop over the requested tags and its PUT make the requests of the update description and return its verdict |
| GoHighLevel.UpdateContactPhone | update_ghl_phone_numbers.py:331-337 | the update with no tags requested |
| GoHighLevel.NoTagsNoTagKey | update_ghl_phone_numbers.py:331-337 | an update with no tags requested never sends a `tags` key |
| GoHighLevel.GetUsersByLocation | update_ghl_phone_numbers.py:339-366 | one request; the `users` list of a 200 answer, else `[]` |
| GoHighLevel.UpdateUserPhone | update_ghl_phone_numbers.py:368-397 | one PUT of the given phone; true exactly when it answered 200 |
| Handler.UpdateContact | update_ghl_phone_numbers.py:490-524 | the three cases for one contact make the requests of its step and raise the counter it names |
| Handler.UpdateContacts | update_ghl_phone_numbers.py:489-524 | the contact loop makes the requests of the contact description and ends with its two counters |
| Handler.UpdateDefaultLocation | update_ghl_phone_numbers.py:475-527 | phase 1: the token, the search only with a truthy token, then the contact loop; a token exception ends the phase |
| Handler.UpdateUsers | update_ghl_phone_numbers.py:557-573 | the user loop makes the requests of the user description and returns its count |
| Handler.UpdateLocation | update_ghl_phone_numbers.py:544-573 | one location: its token, and with a truthy one its users and their updates |
| Handler.LocationsPassStopsAt | update_ghl_phone_numbers.py:543-579 | once a location's token lookup has thrown, no later location is processed |
| Handler.UpdateSubaccounts | update_ghl_phone_numbers.py:533-579 | phase 2 makes the requests and sleeps of its description, and `total_users_updated` is the sum of the per-location counts |
| Handler.LambdaHandler | update_ghl_phone_numbers.py:398-606 | the handler makes exactly the requests and sleeps of the handler description and returns its response |
| HandlerProperties.PhasesStatus | update_ghl_phone_numbers.py:466-606 | once past the guards, the answer is 200 or 500 |
| HandlerProperties.SignatureFailureIs401 | update_ghl_phone_numbers.py:401-411 | the answer is 401 exactly when a secret is set and the header does not verify; it then says "Invalid webhook signature" and no request has been made |
| HandlerProperties.OtherEventTypesIgnored | update_ghl_phone_numbers.py:418-423 | an event of another type answers 200 "Event type not processed" with no request |
| HandlerProperties.MissingFieldsRejected | update_ghl_phone_numbers.py:435-455 | missing email, then phone, then Stripe customer id each give their own 400 message, with no request and before the secret is fetched |
| HandlerProperties.SecretFailureIs500 | update_ghl_phone_numbers.py:466-606 | a failing secret lookup answers 500 with its message and no CRM request |
| HandlerProperties.CallsOnlyAfterGuards | update_ghl_phone_numbers.py:398-467 | a request or a sleep happens only after the signature, body, type, field and secret guards have all passed |
| HandlerProperties.CloseTagUpdateCalls | update_ghl_phone_numbers.py:495-513 | an update with the close tags makes its GET, at most its PUT of the given phone, and any tag list it sends holds both tags |
| HandlerProperties.ContactStepCalls | update_ghl_phone_numbers.py:490-524 | a contact with a phone and both tags gets no request; any other gets only its own GET and PUT, with its own phone if it has one, else the customer's |
| HandlerProperties.ContactStepCounts | update_ghl_phone_numbers.py:493-517 | `contacts_updated` rises exactly for a contact without a phone whose update succeeded; `tags_added` rises exactly for a contact with a phone, missing a tag, whose update succeeded; never both |
| HandlerProperties.ContactsPassCalls | update_ghl_phone_numbers.py:489-524 | phase 1 only touches the matching contacts that are not settled, never overwrites a phone, and sends both close tags; each counted contact cost a GET and a PUT; when all contacts are settled it does nothing |
| HandlerProperties.DefaultLocationCalls | update_ghl_phone_numbers.py:475-527 | phase 1 starts with the token requests; with a falsy token it stops there with both counters 0; with a truthy one it searches next; a token exception ends it |
| HandlerProperties.TokenOnFirstAttempt | update_ghl_phone_numbers.py:187-204 | a 200 answer to the first token request gives its token after one request and no sleep |
| HandlerProperties.OneContactFound | update_ghl_phone_numbers.py:475-524 | with a token at once and one matching contact, phase 1 is the token, the search and that contact's step |
| HandlerProperties.UpdateBothAnswered | update_ghl_phone_numbers.py:255-320 | when the GET answers a readable 200 and the PUT answers 200, the update PUTs the close tags merged into the tags the GET returned, and succeeds |
| HandlerProperties.ScenarioMerge | update_ghl_phone_numbers.py:292-300 | close tags merged into tags holding neither are appended after the existing ones |
| HandlerProperties.UnsettledContactUpdated | update_ghl_phone_numbers.py:490-517 | a contact that is not settled, with a readable 200 to its GET and a 200 to its PUT, makes exactly its GET and its PUT of the merged tags, and raises the counter for its case |
| HandlerProperties.PhaseOneSingleContact | update_ghl_phone_numbers.py:475-524 | the whole of phase 1 when the search finds exactly one matching, unsettled contact and its GET (any readable body) and PUT answer 200: the calls are token, search, GET and the PUT of the contact's phone (or the customer's) with the body's tags merged with `close`/`closed`; the counter for its case is 1; nothing sleeps; the rest of the tape is untouched |
| HandlerProperties.ScenarioContactWithoutPhone | update_ghl_phone_numbers.py:493-503 | a matching contact with no phone and no tags gets the customer's phone and `["close", "closed"]`, and counts as updated |
| HandlerProperties.ScenarioContactMissingTag | update_ghl_phone_numbers.py:504-517 | a matching contact with its own phone and only `close` keeps its phone, gets `["close", "closed"]`, and counts under tags added |
| HandlerProperties.UserStepCounts | update_ghl_phone_numbers.py:558-566 | a user counts exactly when its email matches exactly, it has no phone, and its PUT answered 200 |
| HandlerProperties.UsersPassCalls | update_ghl_phone_numbers.py:557-573 | phase 2 PUTs only the customer's phone, only to users with the exact email and no phone, and counts no more than it PUT |
| HandlerProperties.LocationWithoutTokenSkipped | update_ghl_phone_numbers.py:546-551 | a location whose token is falsy is skipped with no request beyond the token's and no summary |
| HandlerProperties.LocationStepSummary | update_ghl_phone_numbers.py:553-579 | a location's summary names that location and counts no more users than requests made |
| HandlerProperties.LocationsPassSummaries | update_ghl_phone_numbers.py:543-579 | `processed_locations` has no more entries than discovered locations, each names a discovered location, and the total is bounded by the requests made |
| HandlerProperties.KeptDistinct | update_ghl_phone_numbers.py:543-579 | a sub-selection of a list of ids holds only ids of the list, and none twice when the list holds none twice |
| HandlerProperties.LocationsPassInOrder | update_ghl_phone_numbers.py:543-579 | the ids of `processed_locations` are a sub-selection of the discovered ids in discovery order: at most one entry per discovered location |
| HandlerProperties.LocationsPassDistinct | update_ghl_phone_numbers.py:543-579 | when the discovered locations are distinct, so are the entries of `processed_locations` |
| HandlerProperties.SuccessResponse | update_ghl_phone_numbers.py:581-599 | a success gives `total_users_updated` equal to the sum of the per-location counts; it echoes the customer's fields; the phase 1 counters together never exceed the matching contacts |

## Left out

- The HTTP plumbing (URLs, headers, query parameters, the company id, bearer tokens, the
  `isEjectedUser` flag, `limit: 100`) is not modelled: a request is recorded only by the ids and
  payloads that decide behaviour.
- `get_secret` (`update_ghl_phone_numbers.py:77-89`) is a foreign call into AWS Secrets Manager.
  It is the input `agencySecret`; a failure answers 500 with its message.
- HMAC-SHA256, the hex digest and UTF-8 encoding are foreign crypto. They are the parameter
  `mac`. `compare_digest` is string equality plus its `TypeError` on non-ASCII text. Its
  constant-time behaviour cannot be stated.
- `time.sleep` is only recorded as its value in the sleep log; no time passes.
- `json.loads` of the event, and JSON decoding of replies, are not modelled. The decoded values
  are inputs. A reply body that is not a JSON object is `Unreadable`. JSON values of an
  unexpected type (a non-string `email`, a non-list `tags`) are not represented.
- Logging has no behaviour and is left out.
- No timestamp freshness (replay window) is checked, because the code checks none.
- The environment lookups (`STRIPE_WEBHOOK_SECRET`, `GHL_SECRET_NAME`, `GHL_COMPANY_ID`,
  `REGION_NAME`) are parameters or plumbing.
- `test_lambda.py` and the `__main__` block are a driver that calls the live service. They are
  not part of this model.
- The Lambda envelope is reduced as follows. The event holds the `stripe-signature` header, the
  raw body and its decoded form. The response holds a status code and a structured body, not
  serialised JSON.
- An event whose `headers` is present but null is not represented: `Event.signature` is a plain
  string. At `update_ghl_phone_numbers.py:401` the code calls `.get` on that null, which raises
  inside the top-level `try`, so such an invocation answers 500 before any signature check.
- A `tags_to_add` that is neither a list nor a string (a tuple, a number) is not represented.
  `TagsArg` has no tags, a list, or one tag.
- Reading the event fields. A body that is not JSON, or not a JSON object, makes
  `json.loads` or `.get('type')` raise, and becomes `Malformed`. For a
  `checkout.session.completed` event, a non-object `data`, `object` or `customer_details` makes
  the `.get` at `update_ghl_phone_numbers.py:426-432` raise. That case is folded into `Malformed`
  too, since it also answers 500 with the exception's text. An event of another type is answered at
  lines 419-423, before those fields are read. It is therefore encoded as `Decoded` with its type,
  whatever its `data` holds, and answers 200.
- Contact and user ids are plain strings. `contact.get('id')` and `user.get('id')` can yield
  None for a record without an id. The model does not represent that; such a record's requests
  are recorded under its id as a string.
