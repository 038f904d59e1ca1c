/** The handler's CRM client (`GoHighLevelClient`): each operation as a pure description over
    the replies still to come, and as the method that performs it against `Remote`. */
module GoHighLevel {
  import opened Wrappers
  import opened Http
  import opened TagMerge

  /** Python truthiness of an optional string: None and "" are both false. */
  predicate Truthy(s: Option<string>) {
    s.Some? && s.value != ""
  }

  /** A reply that the client reads as success: an answer with status 200. */
  predicate Succeeded(r: Reply) {
    r.Answered? && r.status == 200
  }

  /** An answer with status 200 whose body is a JSON object. */
  predicate ReadableOk(r: Reply) {
    Succeeded(r) && r.body.JsonObject?
  }

  /** `n` copies of one request. */
  function Repeat(c: Call, n: nat): (cs: seq<Call>)
    ensures |cs| == n && forall i :: 0 <= i < n ==> cs[i] == c
  {
    seq(n, _ => c)
  }

  /** The number of leading replies, among the next `m`, that satisfy `p`. */
  function Lead(pending: seq<Reply>, m: nat, p: Reply -> bool): (k: nat)
    ensures k <= m
    ensures forall j :: 0 <= j < k ==> p(At(pending, j))
    ensures k < m ==> !p(At(pending, k))
  {
    if m == 0 then 0
    else
      var k := Lead(pending, m - 1, p);
      if k == m - 1 && p(At(pending, m - 1)) then m else k
  }

  /** Lead is the one count with its three properties. */
  lemma LeadExact(pending: seq<Reply>, m: nat, p: Reply -> bool, k: nat)
    requires k <= m
    requires forall j :: 0 <= j < k ==> p(At(pending, j))
    requires k < m ==> !p(At(pending, k))
    ensures Lead(pending, m, p) == k
  {
  }

  // ---------------------------------------------------------------------------------------
  // get_locations_by_stripe_customer and its retry loop

  /** The request for a customer's locations; the subscription id is sent only when truthy. */
  function LocationsRequest(customerId: string, subscriptionId: Option<string>): Call {
    GetLocations(customerId, if Truthy(subscriptionId) then subscriptionId else None)
  }

  /** `get_locations_by_stripe_customer`: the `data` list of a 200 answer; [] for any other
      status, an unreadable body or a transport failure. */
  function LocationsFromReply(r: Reply): seq<string> {
    if ReadableOk(r) then r.body.data else []
  }

  predicate NoLocations(r: Reply) {
    LocationsFromReply(r) == []
  }

  function Pow2(i: nat): nat {
    if i == 0 then 1 else 2 * Pow2(i - 1)
  }

  /** The delay after i doublings (`delay *= 2`). */
  function Delay(initial: nat, i: nat): nat {
    if i == 0 then initial else 2 * Delay(initial, i - 1)
  }

  /** Doubling i times multiplies by 2^i. */
  lemma {:induction false} DelayIsPower(initial: nat, i: nat)
    ensures Delay(initial, i) == initial * Pow2(i)
  {
    if i > 0 {
      DelayIsPower(initial, i - 1);
      calc {
        Delay(initial, i);
        2 * (initial * Pow2(i - 1));
        { assert 2 * (initial * Pow2(i - 1)) == initial * (2 * Pow2(i - 1)); }
        initial * Pow2(i);
      }
    }
  }

  /** The backoff schedule `initial, 2·initial, 4·initial, ...`, n entries. */
  function Doublings(initial: nat, n: nat): (ds: seq<nat>)
    ensures |ds| == n && forall i :: 0 <= i < n ==> ds[i] == Delay(initial, i)
  {
    if n == 0 then [] else Doublings(initial, n - 1) + [Delay(initial, n - 1)]
  }

  /** `get_locations_by_stripe_customer_with_retry`: with k the number of leading attempts
      that find nothing, the first non-empty result after k + 1 calls and k sleeps; or, when
      every attempt finds nothing, [] after `maxRetries` calls and one sleep fewer. */
  function LocationsRetry(customerId: string, subscriptionId: Option<string>,
                          pending: seq<Reply>, maxRetries: nat, initialDelay: nat)
    : Run<seq<string>>
  {
    var k := Lead(pending, maxRetries, NoLocations);
    var found := k < maxRetries;
    var attempts := if found then k + 1 else maxRetries;
    var slept := if found then k else if maxRetries == 0 then 0 else maxRetries - 1;
    Run(if found then LocationsFromReply(At(pending, k)) else [],
        Repeat(LocationsRequest(customerId, subscriptionId), attempts),
        Doublings(initialDelay, slept),
        Drop(pending, attempts))
  }

  /** The first non-empty answer, at attempt k, is returned after k + 1 calls and the sleeps
      `initial·2^i` for each i < k. */
  lemma LocationsFoundAt(customerId: string, subscriptionId: Option<string>,
                         pending: seq<Reply>, maxRetries: nat, initialDelay: nat, k: nat)
    requires k < maxRetries
    requires forall j :: 0 <= j < k ==> LocationsFromReply(At(pending, j)) == []
    requires LocationsFromReply(At(pending, k)) != []
    ensures var r := LocationsRetry(customerId, subscriptionId, pending, maxRetries, initialDelay);
            && r.value == LocationsFromReply(At(pending, k))
            && |r.calls| == k + 1
            && |r.sleeps| == k
            && forall i :: 0 <= i < k ==> r.sleeps[i] == initialDelay * Pow2(i)
  {
    LeadExact(pending, maxRetries, NoLocations, k);
    forall i | 0 <= i < k {
      DelayIsPower(initialDelay, i);
    }
  }

  /** When every attempt finds nothing: exactly `maxRetries` calls, `maxRetries - 1` sleeps
      (none after the last attempt) and the empty list. */
  lemma LocationsExhausted(customerId: string, subscriptionId: Option<string>,
                           pending: seq<Reply>, maxRetries: nat, initialDelay: nat)
    requires maxRetries > 0
    requires forall j :: 0 <= j < maxRetries ==> LocationsFromReply(At(pending, j)) == []
    ensures var r := LocationsRetry(customerId, subscriptionId, pending, maxRetries, initialDelay);
            && r.value == []
            && r.calls == Repeat(LocationsRequest(customerId, subscriptionId), maxRetries)
            && r.sleeps == Doublings(initialDelay, maxRetries - 1)
  {
    LeadExact(pending, maxRetries, NoLocations, maxRetries);
  }

  function Sum(s: seq<nat>): nat {
    if s == [] then 0 else s[0] + Sum(s[1..])
  }

  /** With the handler's defaults (6 attempts from 10 seconds) the waits are 10, 20, 40, 80
      and 160 seconds: 310 seconds in the worst case, as no wait follows the sixth attempt. */
  lemma DefaultRetrySchedule(customerId: string, subscriptionId: Option<string>, pending: seq<Reply>)
    requires forall j :: 0 <= j < 6 ==> LocationsFromReply(At(pending, j)) == []
    ensures LocationsRetry(customerId, subscriptionId, pending, 6, 10).sleeps == [10, 20, 40, 80, 160]
    ensures Sum(LocationsRetry(customerId, subscriptionId, pending, 6, 10).sleeps) == 310
  {
    LocationsExhausted(customerId, subscriptionId, pending, 6, 10);
    var ds := Doublings(10, 5);
    assert ds == [10, 20, 40, 80, 160];
  }

  /** The bookkeeping of one more attempt: its reply, the replies left, the calls made. */
  lemma NextAttempt(pending: seq<Reply>, n: nat, c: Call)
    ensures At(Drop(pending, n), 0) == At(pending, n)
    ensures Drop(Drop(pending, n), 1) == Drop(pending, n + 1)
    ensures Repeat(c, n) + [c] == Repeat(c, n + 1)
  {
    AtDrop(pending, n, 0);
    DropDrop(pending, n, 1);
  }

  /** The description when attempt k is the first to find locations. */
  lemma LocationsRetryFound(customerId: string, subscriptionId: Option<string>,
                            pending: seq<Reply>, maxRetries: nat, initialDelay: nat, k: nat)
    requires k < maxRetries
    requires forall j :: 0 <= j < k ==> NoLocations(At(pending, j))
    requires !NoLocations(At(pending, k))
    ensures LocationsRetry(customerId, subscriptionId, pending, maxRetries, initialDelay)
            == Run(LocationsFromReply(At(pending, k)),
                   Repeat(LocationsRequest(customerId, subscriptionId), k + 1),
                   Doublings(initialDelay, k), Drop(pending, k + 1))
  {
    LeadExact(pending, maxRetries, NoLocations, k);
  }

  /** The description when no attempt finds locations. */
  lemma LocationsRetryNone(customerId: string, subscriptionId: Option<string>,
                           pending: seq<Reply>, maxRetries: nat, initialDelay: nat, slept: nat)
    requires forall j :: 0 <= j < maxRetries ==> NoLocations(At(pending, j))
    requires slept == if maxRetries > 0 then maxRetries - 1 else 0
    ensures LocationsRetry(customerId, subscriptionId, pending, maxRetries, initialDelay)
            == Run([], Repeat(LocationsRequest(customerId, subscriptionId), maxRetries),
                   Doublings(initialDelay, slept), Drop(pending, maxRetries))
  {
    LeadExact(pending, maxRetries, NoLocations, maxRetries);
  }

  /** One location lookup. */
  method GetLocationsByStripeCustomer(net: Remote, customerId: string,
                                      subscriptionId: Option<string>)
    returns (locations: seq<string>)
    modifies net
    ensures locations == LocationsFromReply(At(old(net.pending), 0))
    ensures net.calls == old(net.calls) + [LocationsRequest(customerId, subscriptionId)]
    ensures net.sleeps == old(net.sleeps) && net.pending == Drop(old(net.pending), 1)
  {
    var r := net.Send(LocationsRequest(customerId, subscriptionId));
    locations := LocationsFromReply(r);
  }

  /** The polling loop: call, stop on a non-empty answer, otherwise sleep `delay` (unless this
      was the last attempt) and double it. */
  method GetLocationsByStripeCustomerWithRetry(net: Remote, customerId: string,
                                               subscriptionId: Option<string>,
                                               maxRetries: nat, initialDelay: nat)
    returns (locations: seq<string>)
    modifies net
    ensures var s := LocationsRetry(customerId, subscriptionId, old(net.pending), maxRetries,
                                    initialDelay);
            && locations == s.value
            && net.calls == old(net.calls) + s.calls
            && net.sleeps == old(net.sleeps) + s.sleeps
            && net.pending == s.rest
  {
    ghost var start, calls0, sleeps0 := net.pending, net.calls, net.sleeps;
    ghost var request := LocationsRequest(customerId, subscriptionId);
    ghost var slept := 0;
    var delay := initialDelay;
    var attempt := 0;
    while attempt < maxRetries
      invariant 0 <= attempt <= maxRetries
      invariant forall j :: 0 <= j < attempt ==> NoLocations(At(start, j))
      invariant net.pending == Drop(start, attempt)
      invariant net.calls == calls0 + Repeat(request, attempt)
      invariant slept == (if attempt == maxRetries && attempt > 0 then attempt - 1 else attempt)
      invariant net.sleeps == sleeps0 + Doublings(initialDelay, slept)
      invariant delay == Delay(initialDelay, slept)
    {
      locations := GetLocationsByStripeCustomer(net, customerId, subscriptionId);
      NextAttempt(start, attempt, request);
      if locations != [] {
        LocationsRetryFound(customerId, subscriptionId, start, maxRetries, initialDelay, attempt);
        return;
      }
      if attempt < maxRetries - 1 {
        net.Sleep(delay);
        slept := slept + 1;
        delay := delay * 2;
      }
      attempt := attempt + 1;
    }
    LocationsRetryNone(customerId, subscriptionId, start, maxRetries, initialDelay, slept);
    locations := [];
  }

  // ---------------------------------------------------------------------------------------
  // get_location_access_token

  /** The number of attempts at a location token. */
  const TokenAttempts: nat := 3

  predicate RateLimited(r: Reply) {
    r.Answered? && r.status == 429
  }

  /** The linear backoff `2, 4, 6, ...`: the wait after the i-th rate-limited attempt. */
  function Backoffs(n: nat): (ws: seq<nat>)
    ensures |ws| == n && forall i :: 0 <= i < n ==> ws[i] == (i + 1) * 2
  {
    if n == 0 then [] else Backoffs(n - 1) + [n * 2]
  }

  /** How a reply other than 429 ends the token loop: a transport failure, or an unreadable
      body on 200/201, escapes as an exception (nothing catches it); 200/201 gives the body's
      `access_token` ("" when absent); any other status gives None. */
  function TokenFromReply(r: Reply): Outcome<Option<string>> {
    match r
    case Raised(message) => Threw(message)
    case Answered(status, body) =>
      if status == 200 || status == 201 then
        match body
        case Unreadable(error) => Threw(error)
        case JsonObject(_, token, _, _, _) => Completed(Some(token))
      else Completed(None)
  }

  /** `get_location_access_token`: with k the number of leading 429 answers among the three
      attempts, sleep `2, 4, ...` once per 429; the first other reply decides after k + 1
      calls, and three 429s give None after three calls. */
  function LocationToken(locationId: string, pending: seq<Reply>): Run<Outcome<Option<string>>>
  {
    var k := Lead(pending, TokenAttempts, RateLimited);
    var attempts := if k < TokenAttempts then k + 1 else TokenAttempts;
    Run(if k < TokenAttempts then TokenFromReply(At(pending, k)) else Completed(None),
        Repeat(PostLocationToken(locationId), attempts),
        Backoffs(k),
        Drop(pending, attempts))
  }

  /** Three 429 answers: three calls, waits of 2, 4 and 6 seconds, and None. */
  lemma RateLimitedThrice(locationId: string, pending: seq<Reply>)
    requires forall j :: 0 <= j < 3 ==> RateLimited(At(pending, j))
    ensures var r := LocationToken(locationId, pending);
            r.value == Completed(None) && |r.calls| == 3 && r.sleeps == [2, 4, 6]
  {
    LeadExact(pending, TokenAttempts, RateLimited, 3);
    assert Backoffs(3) == [2, 4, 6];
  }

  /** After k 429 answers (k < 3), a 200/201 answer gives its token after k + 1 calls and the
      waits `2, ..., 2k`. */
  lemma TokenGrantedAfter(locationId: string, pending: seq<Reply>, k: nat)
    requires k < 3
    requires forall j :: 0 <= j < k ==> RateLimited(At(pending, j))
    requires var r := At(pending, k);
             r.Answered? && (r.status == 200 || r.status == 201) && r.body.JsonObject?
    ensures var r := LocationToken(locationId, pending);
            && r.value == Completed(Some(At(pending, k).body.accessToken))
            && |r.calls| == k + 1
            && r.sleeps == Backoffs(k)
  {
    LeadExact(pending, TokenAttempts, RateLimited, k);
  }

  /** Any status other than 429, 200 and 201 gives None at once: no further call, no wait
      after it. */
  lemma TokenRefusedAfter(locationId: string, pending: seq<Reply>, k: nat)
    requires k < 3
    requires forall j :: 0 <= j < k ==> RateLimited(At(pending, j))
    requires var r := At(pending, k);
             r.Answered? && r.status != 429 && r.status != 200 && r.status != 201
    ensures var r := LocationToken(locationId, pending);
            r.value == Completed(None) && |r.calls| == k + 1 && |r.sleeps| == k
  {
    LeadExact(pending, TokenAttempts, RateLimited, k);
  }

  /** A transport failure is not turned into None: it escapes with its message. */
  lemma TokenTransportFailureEscapes(locationId: string, pending: seq<Reply>, k: nat)
    requires k < 3
    requires forall j :: 0 <= j < k ==> RateLimited(At(pending, j))
    requires At(pending, k).Raised?
    ensures var r := LocationToken(locationId, pending);
            r.value == Threw(At(pending, k).message) && |r.calls| == k + 1 && r.sleeps == Backoffs(k)
  {
    LeadExact(pending, TokenAttempts, RateLimited, k);
  }

  /** Neither is a 200/201 answer whose body is not JSON: `response.json()` raises, and the
      exception escapes. */
  lemma TokenUnreadableBodyEscapes(locationId: string, pending: seq<Reply>, k: nat)
    requires k < 3
    requires forall j :: 0 <= j < k ==> RateLimited(At(pending, j))
    requires var r := At(pending, k);
             r.Answered? && (r.status == 200 || r.status == 201) && r.body.Unreadable?
    ensures var r := LocationToken(locationId, pending);
            r.value == Threw(At(pending, k).body.error) && |r.calls| == k + 1
            && r.sleeps == Backoffs(k)
  {
    LeadExact(pending, TokenAttempts, RateLimited, k);
  }

  /** The token loop: on 429 wait `(attempt + 1) * 2` and try again; otherwise stop. */
  method GetLocationAccessToken(net: Remote, locationId: string)
    returns (token: Outcome<Option<string>>)
    modifies net
    ensures var s := LocationToken(locationId, old(net.pending));
            && token == s.value
            && net.calls == old(net.calls) + s.calls
            && net.sleeps == old(net.sleeps) + s.sleeps
            && net.pending == s.rest
  {
    ghost var start := net.pending;
    var attempt := 0;
    while attempt < TokenAttempts
      invariant 0 <= attempt <= TokenAttempts
      invariant forall j :: 0 <= j < attempt ==> RateLimited(At(start, j))
      invariant net.pending == Drop(start, attempt)
      invariant net.calls == old(net.calls) + Repeat(PostLocationToken(locationId), attempt)
      invariant net.sleeps == old(net.sleeps) + Backoffs(attempt)
    {
      var response := net.Send(PostLocationToken(locationId));
      NextAttempt(start, attempt, PostLocationToken(locationId));
      if RateLimited(response) {
        var waitTime := (attempt + 1) * 2;
        net.Sleep(waitTime);
        attempt := attempt + 1;
        continue;
      }
      LeadExact(start, TokenAttempts, RateLimited, attempt);
      match response
      case Raised(message) =>
        // requests.post is outside any try block: the exception escapes
        return Threw(message);
      case Answered(status, body) =>
        if status == 200 || status == 201 {
          match body
          case Unreadable(error) =>
            return Threw(error);
          case JsonObject(_, accessToken, _, _, _) =>
            return Completed(Some(accessToken));
        } else {
          return Completed(None);
        }
    }
    LeadExact(start, TokenAttempts, RateLimited, TokenAttempts);
    token := Completed(None);
  }

  // ---------------------------------------------------------------------------------------
  // search_contacts_by_email

  /** The contacts whose email equals `email` exactly, in the server's order. */
  function ExactEmailMatches(contacts: seq<Contact>, email: string): (r: seq<Contact>)
    ensures forall c :: c in r <==> c in contacts && c.email == Some(email)
    ensures |r| <= |contacts|
  {
    if contacts == [] then []
    else
      (if contacts[0].email == Some(email) then [contacts[0]] else [])
      + ExactEmailMatches(contacts[1..], email)
  }

  /** The filter keeps the server's order: filtering a concatenation filters its parts one
      after the other. */
  lemma {:induction false} ExactEmailMatchesAppend(a: seq<Contact>, b: seq<Contact>, email: string)
    ensures ExactEmailMatches(a + b, email) == ExactEmailMatches(a, email) + ExactEmailMatches(b, email)
    decreases |a|
  {
    if a == [] {
      assert a + b == b;
    } else {
      ExactEmailMatchesAppend(a[1..], b, email);
      assert (a + b)[1..] == a[1..] + b;
    }
  }

  /** The filter keeps multiplicity: a matching contact is kept as often as it occurs, any
      other not at all. */
  lemma {:induction false} ExactEmailMatchesCount(contacts: seq<Contact>, email: string, c: Contact)
    ensures multiset(ExactEmailMatches(contacts, email))[c]
            == if c.email == Some(email) then multiset(contacts)[c] else 0
    decreases |contacts|
  {
    if contacts != [] {
      ExactEmailMatchesCount(contacts[1..], email, c);
      assert contacts == [contacts[0]] + contacts[1..];
    }
  }

  /** `search_contacts_by_email`: the exact matches among a 200 answer's contacts; [] otherwise. */
  function ContactsFromReply(r: Reply, email: string): (cs: seq<Contact>)
    ensures forall c :: c in cs ==> c.email == Some(email)
  {
    if ReadableOk(r) then ExactEmailMatches(r.body.contacts, email) else []
  }

  method SearchContactsByEmail(net: Remote, locationId: string, email: string)
    returns (contacts: seq<Contact>)
    modifies net
    ensures contacts == ContactsFromReply(At(old(net.pending), 0), email)
    ensures net.calls == old(net.calls) + [SearchContacts(locationId, email)]
    ensures net.sleeps == old(net.sleeps) && net.pending == Drop(old(net.pending), 1)
  {
    var response := net.Send(SearchContacts(locationId, email));
    contacts := [];
    if ReadableOk(response) {
      contacts := ExactEmailMatches(response.body.contacts, email);
    }
  }

  // ---------------------------------------------------------------------------------------
  // update_contact_phone_and_tags

  /** `update_contact_phone_and_tags`: GET the contact; on anything but a readable 200 answer,
      false with no PUT. Otherwise PUT the phone and, when some requested tag is new, the merged
      tags; true exactly when the PUT answers 200. */
  function ContactUpdate(contactId: string, phone: string, tagsToAdd: TagsArg,
                         pending: seq<Reply>): Run<bool>
  {
    var got := At(pending, 0);
    if !ReadableOk(got) then
      Run(false, [GetContact(contactId)], [], Drop(pending, 1))
    else
      var payload := ContactPayload(phone, MergedTags(got.body.tags, tagsToAdd));
      Run(Succeeded(At(pending, 1)), [GetContact(contactId), PutContact(contactId, payload)],
          [], Drop(pending, 2))
  }

  /** The update never changes the phone it is given, and it reports success only when both
      the GET and the PUT answered 200. */
  lemma ContactUpdateSpec(contactId: string, phone: string, tagsToAdd: TagsArg,
                          pending: seq<Reply>)
    ensures var r := ContactUpdate(contactId, phone, tagsToAdd, pending);
            && (r.value <==> ReadableOk(At(pending, 0)) && Succeeded(At(pending, 1)))
            && 1 <= |r.calls| <= 2 && r.calls[0] == GetContact(contactId)
            && (|r.calls| == 2 <==> ReadableOk(At(pending, 0)))
            && forall i :: 0 <= i < |r.calls| && r.calls[i].PutContact? ==>
                 r.calls[i].contactId == contactId && r.calls[i].payload.phone == phone
  {
  }

  method UpdateContactPhoneAndTags(net: Remote, contactId: string, phone: string,
                                   tagsToAdd: TagsArg)
    returns (ok: bool)
    modifies net
    ensures var s := ContactUpdate(contactId, phone, tagsToAdd, old(net.pending));
            && ok == s.value
            && net.calls == old(net.calls) + s.calls
            && net.sleeps == old(net.sleeps)
            && net.pending == s.rest
  {
    ghost var start := net.pending;
    var getResponse := net.Send(GetContact(contactId));
    if !ReadableOk(getResponse) {
      return false;
    }
    var existingTags := getResponse.body.tags;
    var tags: Option<seq<string>> := None;
    var tagsToAddList := TagsToAddList(tagsToAdd);
    if tagsToAddList != [] {
      var newTags: seq<string> := [];
      var i := 0;
      while i < |tagsToAddList|
        invariant 0 <= i <= |tagsToAddList|
        invariant newTags == NewTags(existingTags, tagsToAddList[..i])
      {
        var tag := tagsToAddList[i];
        if tag !in existingTags {
          newTags := newTags + [tag];
        }
        assert tagsToAddList[..i + 1][..i] == tagsToAddList[..i];
        i := i + 1;
      }
      assert tagsToAddList[..i] == tagsToAddList;
      if newTags != [] {
        tags := Some(existingTags + newTags);
      }
    }
    var response := net.Send(PutContact(contactId, ContactPayload(phone, tags)));
    AtDrop(start, 1, 0);
    DropDrop(start, 1, 1);
    ok := Succeeded(response);
  }

  /** `update_contact_phone`: the same update with no tags to add. */
  method UpdateContactPhone(net: Remote, contactId: string, phone: string) returns (ok: bool)
    modifies net
    ensures var s := ContactUpdate(contactId, phone, NoTags, old(net.pending));
            && ok == s.value
            && net.calls == old(net.calls) + s.calls
            && net.sleeps == old(net.sleeps)
            && net.pending == s.rest
  {
    ok := UpdateContactPhoneAndTags(net, contactId, phone, NoTags);
  }

  /** Without tags to add the payload never carries a `tags` key. */
  lemma NoTagsNoTagKey(contactId: string, phone: string, pending: seq<Reply>)
    ensures forall i :: 0 <= i < |ContactUpdate(contactId, phone, NoTags, pending).calls| ==>
              var c := ContactUpdate(contactId, phone, NoTags, pending).calls[i];
              c.PutContact? ==> c.payload.tags.None?
  {
  }

  // ---------------------------------------------------------------------------------------
  // get_users_by_location and update_user_phone

  /** `get_users_by_location`: the `users` list of a 200 answer, unfiltered; [] otherwise. */
  function UsersFromReply(r: Reply): seq<User> {
    if ReadableOk(r) then r.body.users else []
  }

  method GetUsersByLocation(net: Remote, locationId: string) returns (users: seq<User>)
    modifies net
    ensures users == UsersFromReply(At(old(net.pending), 0))
    ensures net.calls == old(net.calls) + [GetUsers(locationId)]
    ensures net.sleeps == old(net.sleeps) && net.pending == Drop(old(net.pending), 1)
  {
    var response := net.Send(GetUsers(locationId));
    users := UsersFromReply(response);
  }

  /** `update_user_phone`: true exactly when the PUT answers 200. */
  method UpdateUserPhone(net: Remote, userId: string, phone: string) returns (ok: bool)
    modifies net
    ensures ok == Succeeded(At(old(net.pending), 0))
    ensures net.calls == old(net.calls) + [PutUser(userId, phone)]
    ensures net.sleeps == old(net.sleeps) && net.pending == Drop(old(net.pending), 1)
  {
    var response := net.Send(PutUser(userId, phone));
    ok := Succeeded(response);
  }
}
