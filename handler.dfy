/** `lambda_handler`: the guard sequence in front of the work, phase 1 on the contacts of
    the default location, phase 2 on the users of the customer's new sub-accounts, and the
    response. Each part is a pure description over the replies still to come and a method
    that performs it against `Remote`. */
module Handler {
  import opened Wrappers
  import opened Http
  import opened TagMerge
  import opened StripeSignature
  import opened GoHighLevel

  /** The location whose contacts phase 1 updates. */
  const DefaultLocationId := "c2DjRsOo4e13Od6ZTU6S"
  /** The only event type that is processed. */
  const CheckoutCompleted := "checkout.session.completed"
  /** The tags phase 1 puts on the customer's contacts. */
  const CloseTags: seq<string> := ["close", "closed"]
  /** The defaults of the location lookup's retry loop. */
  const LocationRetries: nat := 6
  const LocationInitialDelay: nat := 10
  /** `str(KeyError('body'))`, raised by `event['body']` when the event has no body. */
  const MissingBodyMessage := "'body'"

  /** The fields read from the event's body (`type` and the checkout session object); a key
      that is absent is None. */
  datatype Checkout = Checkout(eventType: Option<string>, email: Option<string>,
                               phone: Option<string>, customer: Option<string>,
                               subscription: Option<string>)

  /** `json.loads(event['body'])` and the lookups into it: a decoded checkout, or the text of
      the exception raised on a body that is not JSON or not shaped as an object. */
  datatype Parsed = Malformed(error: string) | Decoded(checkout: Checkout)

  /** The Lambda event: the `stripe-signature` header ("" when absent), the raw body (None
      when the key is absent) and what the body decodes to. */
  datatype Event = Event(signature: string, body: Option<string>, parsed: Parsed)

  /** The phase 1 counters `contacts_updated_default` and `tags_added_default`. */
  datatype Tally = Tally(contactsUpdated: nat, tagsAdded: nat)

  /** One entry of `processed_locations`. */
  datatype LocationSummary = LocationSummary(locationId: string, usersUpdated: nat)

  /** The JSON body of the response. A `Summary` also carries the message "Phone numbers
      updated successfully" and the default location's id, both constants. */
  datatype ResponseBody =
    | ErrorBody(error: string)
    | MessageBody(message: string)
    | Summary(defaultLocation: Tally, totalUsersUpdated: nat, locations: seq<LocationSummary>,
              customerEmail: string, customerPhone: string, stripeCustomerId: string)

  datatype Response = Response(statusCode: int, body: ResponseBody)

  // ---------------------------------------------------------------------------------------
  // Phase 1: the contacts of the default location

  /** What phase 1 does to one matching contact. */
  datatype ContactPlan =
    | Untouched                 // phone and both tags present
    | SetPhone(phone: string)   // no phone: set the customer's phone, add the tags
    | RepairTags(phone: string) // a phone but a tag missing: resend its own phone, add the tags

  function PlanFor(c: Contact, customerPhone: string): ContactPlan {
    if !Truthy(c.phone) then SetPhone(customerPhone)
    else if "close" !in c.tags || "closed" !in c.tags then RepairTags(c.phone.value)
    else Untouched
  }

  /** One contact: the update its plan calls for, and which counter a successful update
      raises. */
  function ContactStep(c: Contact, customerPhone: string, pending: seq<Reply>): Run<Tally> {
    match PlanFor(c, customerPhone)
    case Untouched => Run(Tally(0, 0), [], [], pending)
    case SetPhone(phone) =>
      var u := ContactUpdate(c.id, phone, TagList(CloseTags), pending);
      Run(Tally(if u.value then 1 else 0, 0), u.calls, [], u.rest)
    case RepairTags(phone) =>
      var u := ContactUpdate(c.id, phone, TagList(CloseTags), pending);
      Run(Tally(0, if u.value then 1 else 0), u.calls, [], u.rest)
  }

  /** `r` followed by `s`, the counters added up. */
  function AddTally(r: Run<Tally>, s: Run<Tally>): Run<Tally> {
    Run(Tally(r.value.contactsUpdated + s.value.contactsUpdated,
              r.value.tagsAdded + s.value.tagsAdded),
        r.calls + s.calls, r.sleeps + s.sleeps, s.rest)
  }

  /** The contact loop, contact by contact in order. */
  function ContactsPass(contacts: seq<Contact>, customerPhone: string, pending: seq<Reply>)
    : Run<Tally>
    decreases |contacts|
  {
    if contacts == [] then Run(Tally(0, 0), [], [], pending)
    else
      var n := |contacts| - 1;
      var r := ContactsPass(contacts[..n], customerPhone, pending);
      AddTally(r, ContactStep(contacts[n], customerPhone, r.rest))
  }

  /** Phase 1: a token for the default location; with a truthy token, the contact search and
      the contact loop; with a falsy one, nothing more and both counters at 0. A token request
      that raises ends the invocation. */
  function DefaultLocationPass(email: string, customerPhone: string, pending: seq<Reply>)
    : Run<Outcome<Tally>>
  {
    var t := LocationToken(DefaultLocationId, pending);
    match t.value
    case Threw(m) => Run(Threw(m), t.calls, t.sleeps, t.rest)
    case Completed(token) =>
      if !Truthy(token) then Run(Completed(Tally(0, 0)), t.calls, t.sleeps, t.rest)
      else
        var contacts := ContactsFromReply(At(t.rest, 0), email);
        var p := ContactsPass(contacts, customerPhone, Drop(t.rest, 1));
        Run(Completed(p.value), t.calls + [SearchContacts(DefaultLocationId, email)] + p.calls,
            t.sleeps + p.sleeps, p.rest)
  }

  // ---------------------------------------------------------------------------------------
  // Phase 2: the users of the new sub-accounts

  /** A user phase 2 updates: its email is the customer's exactly and it has no phone. */
  predicate Eligible(u: User, email: string) {
    u.email == Some(email) && !Truthy(u.phone)
  }

  function UserStep(u: User, email: string, customerPhone: string, pending: seq<Reply>)
    : Run<nat>
  {
    if Eligible(u, email) then
      Run(if Succeeded(At(pending, 0)) then 1 else 0, [PutUser(u.id, customerPhone)], [],
          Drop(pending, 1))
    else Run(0, [], [], pending)
  }

  /** The user loop of one location: `users_updated`. */
  function UsersPass(users: seq<User>, email: string, customerPhone: string,
                     pending: seq<Reply>): Run<nat>
    decreases |users|
  {
    if users == [] then Run(0, [], [], pending)
    else
      var n := |users| - 1;
      var r := UsersPass(users[..n], email, customerPhone, pending);
      var s := UserStep(users[n], email, customerPhone, r.rest);
      Run(r.value + s.value, r.calls + s.calls, r.sleeps + s.sleeps, s.rest)
  }

  /** One discovered location: None when its token is falsy (the location is skipped),
      otherwise the user listing and the user loop. */
  function LocationStep(locationId: string, email: string, customerPhone: string,
                        pending: seq<Reply>): Run<Outcome<Option<LocationSummary>>>
  {
    var t := LocationToken(locationId, pending);
    match t.value
    case Threw(m) => Run(Threw(m), t.calls, t.sleeps, t.rest)
    case Completed(token) =>
      if !Truthy(token) then Run(Completed(None), t.calls, t.sleeps, t.rest)
      else
        var users := UsersFromReply(At(t.rest, 0));
        var u := UsersPass(users, email, customerPhone, Drop(t.rest, 1));
        Run(Completed(Some(LocationSummary(locationId, u.value))),
            t.calls + [GetUsers(locationId)] + u.calls, t.sleeps + u.sleeps, u.rest)
  }

  /** The location loop: `processed_locations`, one entry per location that got a token. */
  function LocationsPass(locationIds: seq<string>, email: string, customerPhone: string,
                         pending: seq<Reply>): Run<Outcome<seq<LocationSummary>>>
    decreases |locationIds|
  {
    if locationIds == [] then Run(Completed([]), [], [], pending)
    else
      var n := |locationIds| - 1;
      var r := LocationsPass(locationIds[..n], email, customerPhone, pending);
      match r.value
      case Threw(_) => r
      case Completed(done) =>
        var s := LocationStep(locationIds[n], email, customerPhone, r.rest);
        Run(match s.value
            case Threw(m) => Threw(m)
            case Completed(None) => Completed(done)
            case Completed(Some(summary)) => Completed(done + [summary]),
            r.calls + s.calls, r.sleeps + s.sleeps, s.rest)
  }

  /** Phase 2: the retrying location lookup with the default schedule, then the location loop. */
  function SubaccountsPass(customerId: string, subscriptionId: Option<string>, email: string,
                           customerPhone: string, pending: seq<Reply>)
    : Run<Outcome<seq<LocationSummary>>>
  {
    var l := LocationsRetry(customerId, subscriptionId, pending, LocationRetries,
                            LocationInitialDelay);
    var p := LocationsPass(l.value, email, customerPhone, l.rest);
    Run(p.value, l.calls + p.calls, l.sleeps + p.sleeps, p.rest)
  }

  /** The sum of the per-location counts. */
  function TotalUsers(summaries: seq<LocationSummary>): nat
    decreases |summaries|
  {
    if summaries == [] then 0
    else TotalUsers(summaries[..|summaries| - 1]) + summaries[|summaries| - 1].usersUpdated
  }

  // ---------------------------------------------------------------------------------------
  // The whole invocation

  function Stop(response: Response, pending: seq<Reply>): Run<Response> {
    Run(response, [], [], pending)
  }

  /** Both phases and the success response; an exception in either gives 500 with its text,
      after the calls made until then. */
  function Phases(email: string, customerPhone: string, customerId: string,
                  subscriptionId: Option<string>, pending: seq<Reply>): Run<Response>
  {
    var d := DefaultLocationPass(email, customerPhone, pending);
    match d.value
    case Threw(m) => Run(Response(500, ErrorBody(m)), d.calls, d.sleeps, d.rest)
    case Completed(tally) =>
      var s := SubaccountsPass(customerId, subscriptionId, email, customerPhone, d.rest);
      var response := match s.value
        case Threw(m) => Response(500, ErrorBody(m))
        case Completed(locations) =>
          Response(200, Summary(tally, TotalUsers(locations), locations, email, customerPhone,
                                customerId));
      Run(response, d.calls + s.calls, d.sleeps + s.sleeps, s.rest)
  }

  /** `lambda_handler(event, context)` with the webhook secret `webhookSecret`, the HMAC `mac`
      and `agencySecret`, what `get_secret` returns or raises. */
  function HandlerSpec(webhookSecret: string, mac: Mac, event: Event,
                       agencySecret: Outcome<string>, pending: seq<Reply>): Run<Response>
  {
    if webhookSecret != "" && !Accepts(event.body.GetOr(""), event.signature, webhookSecret, mac)
    then Stop(Response(401, ErrorBody("Invalid webhook signature")), pending)
    else if event.body.None? then Stop(Response(500, ErrorBody(MissingBodyMessage)), pending)
    else match event.parsed
      case Malformed(error) => Stop(Response(500, ErrorBody(error)), pending)
      case Decoded(c) =>
        if c.eventType != Some(CheckoutCompleted) then
          Stop(Response(200, MessageBody("Event type not processed")), pending)
        else if !Truthy(c.email) then
          Stop(Response(400, ErrorBody("No customer email found")), pending)
        else if !Truthy(c.phone) then
          Stop(Response(400, ErrorBody("No customer phone found")), pending)
        else if !Truthy(c.customer) then
          Stop(Response(400, ErrorBody("No Stripe customer ID found")), pending)
        else match agencySecret
          case Threw(error) => Stop(Response(500, ErrorBody(error)), pending)
          case Completed(_) =>
            Phases(c.email.value, c.phone.value, c.customer.value, c.subscription, pending)
  }

  // ---------------------------------------------------------------------------------------
  // The handler's code, against the remote side

  lemma ContactsPassNext(contacts: seq<Contact>, i: nat, customerPhone: string,
                         pending: seq<Reply>)
    requires i < |contacts|
    ensures var r := ContactsPass(contacts[..i], customerPhone, pending);
            ContactsPass(contacts[..i + 1], customerPhone, pending)
            == AddTally(r, ContactStep(contacts[i], customerPhone, r.rest))
  {
    assert contacts[..i + 1][..i] == contacts[..i];
  }

  /** The body of the contact loop: the update for one contact, and the counter it raises. */
  method UpdateContact(net: Remote, contact: Contact, customerPhone: string)
    returns (delta: Tally)
    modifies net
    ensures var s := ContactStep(contact, customerPhone, old(net.pending));
            && delta == s.value
            && net.calls == old(net.calls) + s.calls
            && net.sleeps == old(net.sleeps) + s.sleeps
            && net.pending == s.rest
  {
    delta := Tally(0, 0);
    if !Truthy(contact.phone) {
      var ok := UpdateContactPhoneAndTags(net, contact.id, customerPhone, TagList(CloseTags));
      if ok {
        delta := Tally(1, 0);
      }
    } else {
      var needsClose := "close" !in contact.tags;
      var needsClosed := "closed" !in contact.tags;
      if needsClose || needsClosed {
        var ok := UpdateContactPhoneAndTags(net, contact.id, contact.phone.value,
                                            TagList(CloseTags));
        if ok {
          delta := Tally(0, 1);
        }
      }
    }
  }

  /** The contact loop of phase 1. */
  method UpdateContacts(net: Remote, contacts: seq<Contact>, customerPhone: string)
    returns (tally: Tally)
    modifies net
    ensures var s := ContactsPass(contacts, customerPhone, old(net.pending));
            && tally == s.value
            && net.calls == old(net.calls) + s.calls
            && net.sleeps == old(net.sleeps) + s.sleeps
            && net.pending == s.rest
  {
    ghost var start, calls0, sleeps0 := net.pending, net.calls, net.sleeps;
    ghost var done := Run(Tally(0, 0), [], [], start);
    var contactsUpdatedDefault: nat := 0;
    var tagsAddedDefault: nat := 0;
    var i := 0;
    while i < |contacts|
      invariant 0 <= i <= |contacts|
      invariant done == ContactsPass(contacts[..i], customerPhone, start)
      invariant Tally(contactsUpdatedDefault, tagsAddedDefault) == done.value
      invariant net.calls == calls0 + done.calls && net.sleeps == sleeps0 + done.sleeps
      invariant net.pending == done.rest
    {
      ContactsPassNext(contacts, i, customerPhone, start);
      var delta := UpdateContact(net, contacts[i], customerPhone);
      ghost var step := ContactStep(contacts[i], customerPhone, done.rest);
      AppendAssoc(calls0, done.calls, step.calls);
      AppendAssoc(sleeps0, done.sleeps, step.sleeps);
      done := AddTally(done, step);
      contactsUpdatedDefault := contactsUpdatedDefault + delta.contactsUpdated;
      tagsAddedDefault := tagsAddedDefault + delta.tagsAdded;
      i := i + 1;
    }
    assert contacts[..i] == contacts;
    tally := Tally(contactsUpdatedDefault, tagsAddedDefault);
  }

  /** Phase 1 (the block under "STEP 1"). */
  method UpdateDefaultLocation(net: Remote, email: string, customerPhone: string)
    returns (result: Outcome<Tally>)
    modifies net
    ensures var s := DefaultLocationPass(email, customerPhone, old(net.pending));
            && result == s.value
            && net.calls == old(net.calls) + s.calls
            && net.sleeps == old(net.sleeps) + s.sleeps
            && net.pending == s.rest
  {
    ghost var start, calls0, sleeps0 := net.pending, net.calls, net.sleeps;
    var defaultLocationToken := GetLocationAccessToken(net, DefaultLocationId);
    if defaultLocationToken.Threw? {
      return Threw(defaultLocationToken.message);
    }
    if !Truthy(defaultLocationToken.value) {
      // "Failed to get token for default location": phase 1 is skipped
      return Completed(Tally(0, 0));
    }
    ghost var t := LocationToken(DefaultLocationId, start);
    var contacts := SearchContactsByEmail(net, DefaultLocationId, email);
    var tally := UpdateContacts(net, contacts, customerPhone);
    ghost var p := ContactsPass(contacts, customerPhone, Drop(t.rest, 1));
    AppendAssoc(calls0, t.calls, [SearchContacts(DefaultLocationId, email)]);
    AppendAssoc(calls0, t.calls + [SearchContacts(DefaultLocationId, email)], p.calls);
    AppendAssoc(sleeps0, t.sleeps, p.sleeps);
    result := Completed(tally);
  }

  lemma UsersPassNext(users: seq<User>, i: nat, email: string, customerPhone: string,
                      pending: seq<Reply>)
    requires i < |users|
    ensures var r := UsersPass(users[..i], email, customerPhone, pending);
            var s := UserStep(users[i], email, customerPhone, r.rest);
            UsersPass(users[..i + 1], email, customerPhone, pending)
            == Run(r.value + s.value, r.calls + s.calls, r.sleeps + s.sleeps, s.rest)
  {
    assert users[..i + 1][..i] == users[..i];
  }

  /** The user loop of one location. */
  method UpdateUsers(net: Remote, users: seq<User>, email: string, customerPhone: string)
    returns (usersUpdated: nat)
    modifies net
    ensures var s := UsersPass(users, email, customerPhone, old(net.pending));
            && usersUpdated == s.value
            && net.calls == old(net.calls) + s.calls
            && net.sleeps == old(net.sleeps) + s.sleeps
            && net.pending == s.rest
  {
    ghost var start, calls0, sleeps0 := net.pending, net.calls, net.sleeps;
    ghost var done := Run(0, [], [], start);
    usersUpdated := 0;
    var i := 0;
    while i < |users|
      invariant 0 <= i <= |users|
      invariant done == UsersPass(users[..i], email, customerPhone, start)
      invariant usersUpdated == done.value
      invariant net.calls == calls0 + done.calls && net.sleeps == sleeps0 + done.sleeps
      invariant net.pending == done.rest
    {
      UsersPassNext(users, i, email, customerPhone, start);
      var user := users[i];
      ghost var step := UserStep(user, email, customerPhone, done.rest);
      if user.email == Some(email) {
        if !Truthy(user.phone) {
          var ok := UpdateUserPhone(net, user.id, customerPhone);
          if ok {
            usersUpdated := usersUpdated + 1;
          }
        }
      }
      AppendAssoc(calls0, done.calls, step.calls);
      AppendAssoc(sleeps0, done.sleeps, step.sleeps);
      done := Run(done.value + step.value, done.calls + step.calls, done.sleeps + step.sleeps,
                  step.rest);
      i := i + 1;
    }
    assert users[..i] == users;
  }

  /** The body of the location loop: token, users, user loop; None when the location is
      skipped for want of a token. */
  method UpdateLocation(net: Remote, locationId: string, email: string, customerPhone: string)
    returns (result: Outcome<Option<LocationSummary>>)
    modifies net
    ensures var s := LocationStep(locationId, email, customerPhone, old(net.pending));
            && result == s.value
            && net.calls == old(net.calls) + s.calls
            && net.sleeps == old(net.sleeps) + s.sleeps
            && net.pending == s.rest
  {
    ghost var start, calls0, sleeps0 := net.pending, net.calls, net.sleeps;
    var locationAccessToken := GetLocationAccessToken(net, locationId);
    if locationAccessToken.Threw? {
      return Threw(locationAccessToken.message);
    }
    if !Truthy(locationAccessToken.value) {
      // "Failed to get token for <location>": continue with the next location
      return Completed(None);
    }
    ghost var t := LocationToken(locationId, start);
    var users := GetUsersByLocation(net, locationId);
    var usersUpdated := UpdateUsers(net, users, email, customerPhone);
    ghost var u := UsersPass(users, email, customerPhone, Drop(t.rest, 1));
    AppendAssoc(calls0, t.calls, [GetUsers(locationId)]);
    AppendAssoc(calls0, t.calls + [GetUsers(locationId)], u.calls);
    AppendAssoc(sleeps0, t.sleeps, u.sleeps);
    result := Completed(Some(LocationSummary(locationId, usersUpdated)));
  }

  lemma LocationsPassNext(locationIds: seq<string>, i: nat, email: string,
                          customerPhone: string, pending: seq<Reply>)
    requires i < |locationIds|
    requires LocationsPass(locationIds[..i], email, customerPhone, pending).value.Completed?
    ensures var r := LocationsPass(locationIds[..i], email, customerPhone, pending);
            var s := LocationStep(locationIds[i], email, customerPhone, r.rest);
            LocationsPass(locationIds[..i + 1], email, customerPhone, pending)
            == Run(match s.value
                   case Threw(m) => Threw(m)
                   case Completed(None) => r.value
                   case Completed(Some(summary)) => Completed(r.value.value + [summary]),
                   r.calls + s.calls, r.sleeps + s.sleeps, s.rest)
  {
    assert locationIds[..i + 1][..i] == locationIds[..i];
  }

  /** Once a location's token request raises, the rest of the loop does not run. */
  lemma {:induction false} LocationsPassStopsAt(locationIds: seq<string>, k: nat, email: string,
                                               customerPhone: string, pending: seq<Reply>)
    requires k <= |locationIds|
    requires LocationsPass(locationIds[..k], email, customerPhone, pending).value.Threw?
    ensures LocationsPass(locationIds, email, customerPhone, pending)
            == LocationsPass(locationIds[..k], email, customerPhone, pending)
    decreases |locationIds| - k
  {
    if k < |locationIds| {
      var n := |locationIds| - 1;
      assert locationIds[..n][..k] == locationIds[..k];
      LocationsPassStopsAt(locationIds[..n], k, email, customerPhone, pending);
    } else {
      assert locationIds[..k] == locationIds;
    }
  }

  lemma TotalUsersSnoc(summaries: seq<LocationSummary>, summary: LocationSummary)
    ensures TotalUsers(summaries + [summary]) == TotalUsers(summaries) + summary.usersUpdated
  {
    assert (summaries + [summary])[..|summaries|] == summaries;
  }

  /** Phase 2 (the block under "STEP 2"): the lookup, then the location loop, which keeps the
      running total next to `processed_locations`. */
  method UpdateSubaccounts(net: Remote, customerId: string, subscriptionId: Option<string>,
                           email: string, customerPhone: string)
    returns (result: Outcome<seq<LocationSummary>>, totalUsersUpdated: nat)
    modifies net
    ensures var s := SubaccountsPass(customerId, subscriptionId, email, customerPhone,
                                     old(net.pending));
            && result == s.value
            && net.calls == old(net.calls) + s.calls
            && net.sleeps == old(net.sleeps) + s.sleeps
            && net.pending == s.rest
    ensures result.Completed? ==> totalUsersUpdated == TotalUsers(result.value)
  {
    ghost var calls0, sleeps0 := net.calls, net.sleeps;
    var newLocationIds := GetLocationsByStripeCustomerWithRetry(
      net, customerId, subscriptionId, LocationRetries, LocationInitialDelay);
    ghost var start, calls1, sleeps1 := net.pending, net.calls, net.sleeps;
    ghost var l := LocationsRetry(customerId, subscriptionId, old(net.pending), LocationRetries,
                                  LocationInitialDelay);
    totalUsersUpdated := 0;
    var processedLocations: seq<LocationSummary> := [];
    ghost var done: Run<Outcome<seq<LocationSummary>>> := Run(Completed([]), [], [], start);
    var i := 0;
    while i < |newLocationIds|
      invariant 0 <= i <= |newLocationIds|
      invariant done == LocationsPass(newLocationIds[..i], email, customerPhone, start)
      invariant done.value == Completed(processedLocations)
      invariant totalUsersUpdated == TotalUsers(processedLocations)
      invariant net.calls == calls1 + done.calls && net.sleeps == sleeps1 + done.sleeps
      invariant net.pending == done.rest
    {
      LocationsPassNext(newLocationIds, i, email, customerPhone, start);
      var outcome := UpdateLocation(net, newLocationIds[i], email, customerPhone);
      ghost var step := LocationStep(newLocationIds[i], email, customerPhone, done.rest);
      AppendAssoc(calls1, done.calls, step.calls);
      AppendAssoc(sleeps1, done.sleeps, step.sleeps);
      if outcome.Threw? {
        done := Run(Threw(outcome.message), done.calls + step.calls, done.sleeps + step.sleeps,
                    step.rest);
        LocationsPassStopsAt(newLocationIds, i + 1, email, customerPhone, start);
        AppendAssoc(calls0, l.calls, done.calls);
        AppendAssoc(sleeps0, l.sleeps, done.sleeps);
        return Threw(outcome.message), totalUsersUpdated;
      }
      if outcome.value.Some? {
        var summary := outcome.value.value;
        TotalUsersSnoc(processedLocations, summary);
        totalUsersUpdated := totalUsersUpdated + summary.usersUpdated;
        processedLocations := processedLocations + [summary];
      }
      done := Run(Completed(processedLocations), done.calls + step.calls,
                  done.sleeps + step.sleeps, step.rest);
      i := i + 1;
    }
    assert newLocationIds[..i] == newLocationIds;
    AppendAssoc(calls0, l.calls, done.calls);
    AppendAssoc(sleeps0, l.sleeps, done.sleeps);
    result := Completed(processedLocations);
  }

  /** `lambda_handler`: the guards in order, then phase 1, phase 2 and the response. The
      top-level `except` is the 500 returned where an exception would escape. */
  method LambdaHandler(net: Remote, webhookSecret: string, mac: Mac, event: Event,
                       agencySecret: Outcome<string>)
    returns (response: Response)
    modifies net
    ensures var s := HandlerSpec(webhookSecret, mac, event, agencySecret, old(net.pending));
            && response == s.value
            && net.calls == old(net.calls) + s.calls
            && net.sleeps == old(net.sleeps) + s.sleeps
            && net.pending == s.rest
  {
    var stripeSignature := event.signature;
    if webhookSecret != "" {
      var valid := VerifyStripeSignature(event.body.GetOr(""), stripeSignature, webhookSecret, mac);
      if !valid {
        return Response(401, ErrorBody("Invalid webhook signature"));
      }
    }
    if event.body.None? {
      return Response(500, ErrorBody(MissingBodyMessage));
    }
    if event.parsed.Malformed? {
      return Response(500, ErrorBody(event.parsed.error));
    }
    var eventBody := event.parsed.checkout;
    if eventBody.eventType != Some(CheckoutCompleted) {
      return Response(200, MessageBody("Event type not processed"));
    }
    var customerEmail := eventBody.email;
    var customerPhone := eventBody.phone;
    var stripeCustomerId := eventBody.customer;
    var stripeSubscriptionId := eventBody.subscription;
    if !Truthy(customerEmail) {
      return Response(400, ErrorBody("No customer email found"));
    }
    if !Truthy(customerPhone) {
      return Response(400, ErrorBody("No customer phone found"));
    }
    if !Truthy(stripeCustomerId) {
      return Response(400, ErrorBody("No Stripe customer ID found"));
    }
    if agencySecret.Threw? {
      return Response(500, ErrorBody(agencySecret.message));
    }
    ghost var start, calls0, sleeps0 := net.pending, net.calls, net.sleeps;
    var email, phone, customerId := customerEmail.value, customerPhone.value, stripeCustomerId.value;
    var defaultLocation := UpdateDefaultLocation(net, email, phone);
    if defaultLocation.Threw? {
      return Response(500, ErrorBody(defaultLocation.message));
    }
    ghost var d := DefaultLocationPass(email, phone, start);
    var newSubaccounts, totalUsersUpdated :=
      UpdateSubaccounts(net, customerId, stripeSubscriptionId, email, phone);
    ghost var n := SubaccountsPass(customerId, stripeSubscriptionId, email, phone, d.rest);
    AppendAssoc(calls0, d.calls, n.calls);
    AppendAssoc(sleeps0, d.sleeps, n.sleeps);
    if newSubaccounts.Threw? {
      return Response(500, ErrorBody(newSubaccounts.message));
    }
    response := Response(200, Summary(defaultLocation.value, totalUsersUpdated,
                                      newSubaccounts.value, email, phone, customerId));
  }
}
