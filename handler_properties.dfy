/** What the handler promises: the order of its early exits, which records its two phases
    may touch and with what, and the two literal scenarios of phase 1. */
module HandlerProperties {
  import opened Wrappers
  import opened Http
  import opened TagMerge
  import opened StripeSignature
  import opened GoHighLevel
  import opened Handler

  /** The signature admits the event: no secret, or the header verifies. */
  predicate SignatureAdmits(webhookSecret: string, mac: Mac, event: Event) {
    webhookSecret == "" || Accepts(event.body.GetOr(""), event.signature, webhookSecret, mac)
  }

  /** Once the guards are passed, the answer is 200 or 500. */
  lemma PhasesStatus(email: string, customerPhone: string, customerId: string,
                     subscriptionId: Option<string>, pending: seq<Reply>)
    ensures var r := Phases(email, customerPhone, customerId, subscriptionId, pending).value;
            r.statusCode == 200 || r.statusCode == 500
  {
  }

  /** 401 exactly when a secret is configured and the signature fails, whatever the body
      holds (it is not parsed), and then nothing is called and nothing slept. */
  lemma SignatureFailureIs401(webhookSecret: string, mac: Mac, event: Event,
                              agencySecret: Outcome<string>, pending: seq<Reply>)
    ensures var r := HandlerSpec(webhookSecret, mac, event, agencySecret, pending);
            r.value.statusCode == 401 <==> !SignatureAdmits(webhookSecret, mac, event)
    ensures var r := HandlerSpec(webhookSecret, mac, event, agencySecret, pending);
            r.value.statusCode == 401 ==>
              r.value.body == ErrorBody("Invalid webhook signature") &&
              r.calls == [] && r.sleeps == [] && r.rest == pending
  {
    if SignatureAdmits(webhookSecret, mac, event) && event.body.Some? && event.parsed.Decoded? {
      var c := event.parsed.checkout;
      if c.eventType == Some(CheckoutCompleted) && Truthy(c.email) && Truthy(c.phone) &&
         Truthy(c.customer) && agencySecret.Completed? {
        PhasesStatus(c.email.value, c.phone.value, c.customer.value, c.subscription, pending);
      }
    }
  }

  /** An event of any other type is answered 200 "Event type not processed" with no call. */
  lemma OtherEventTypesIgnored(webhookSecret: string, mac: Mac, event: Event,
                               agencySecret: Outcome<string>, pending: seq<Reply>)
    requires SignatureAdmits(webhookSecret, mac, event) && event.body.Some?
    requires event.parsed.Decoded? && event.parsed.checkout.eventType != Some(CheckoutCompleted)
    ensures HandlerSpec(webhookSecret, mac, event, agencySecret, pending)
            == Run(Response(200, MessageBody("Event type not processed")), [], [], pending)
  {
  }

  /** Missing email, then phone, then customer id: each its own 400, checked in that order,
      before the agency secret is used (the answer is the same whatever it is) and with no
      call. */
  lemma MissingFieldsRejected(webhookSecret: string, mac: Mac, event: Event,
                              agencySecret: Outcome<string>, pending: seq<Reply>)
    requires SignatureAdmits(webhookSecret, mac, event) && event.body.Some?
    requires event.parsed.Decoded? && event.parsed.checkout.eventType == Some(CheckoutCompleted)
    ensures var c := event.parsed.checkout;
            var r := HandlerSpec(webhookSecret, mac, event, agencySecret, pending);
            && (!Truthy(c.email) ==>
                  r == Run(Response(400, ErrorBody("No customer email found")), [], [], pending))
            && (Truthy(c.email) && !Truthy(c.phone) ==>
                  r == Run(Response(400, ErrorBody("No customer phone found")), [], [], pending))
            && (Truthy(c.email) && Truthy(c.phone) && !Truthy(c.customer) ==>
                  r == Run(Response(400, ErrorBody("No Stripe customer ID found")), [], [],
                           pending))
  {
  }

  /** A failure to read the agency secret is the 500 carrying its message, with no call. */
  lemma SecretFailureIs500(webhookSecret: string, mac: Mac, event: Event, error: string,
                           pending: seq<Reply>)
    requires SignatureAdmits(webhookSecret, mac, event) && event.body.Some?
    requires event.parsed.Decoded?
    requires var c := event.parsed.checkout;
             c.eventType == Some(CheckoutCompleted) && Truthy(c.email) && Truthy(c.phone) &&
             Truthy(c.customer)
    ensures HandlerSpec(webhookSecret, mac, event, Threw(error), pending)
            == Run(Response(500, ErrorBody(error)), [], [], pending)
  {
  }

  /** The CRM is called, or the handler sleeps, only after every guard has passed. */
  lemma CallsOnlyAfterGuards(webhookSecret: string, mac: Mac, event: Event,
                             agencySecret: Outcome<string>, pending: seq<Reply>)
    requires var r := HandlerSpec(webhookSecret, mac, event, agencySecret, pending);
             r.calls != [] || r.sleeps != []
    ensures SignatureAdmits(webhookSecret, mac, event) && event.body.Some?
    ensures event.parsed.Decoded?
    ensures var c := event.parsed.checkout;
            c.eventType == Some(CheckoutCompleted) && Truthy(c.email) && Truthy(c.phone) &&
            Truthy(c.customer)
    ensures agencySecret.Completed?
  {
  }

  // ---------------------------------------------------------------------------------------
  // Phase 1

  /** A contact phase 1 leaves alone: it has a phone and both tags. */
  predicate Settled(c: Contact) {
    Truthy(c.phone) && "close" in c.tags && "closed" in c.tags
  }

  /** A request phase 1 may make for `c`: its GET, or its PUT with the customer's phone when
      it has none and its own phone otherwise, and tags that hold both close tags. */
  predicate ContactCallFor(call: Call, c: Contact, customerPhone: string) {
    !Settled(c) &&
    match call
    case GetContact(id) => id == c.id
    case PutContact(id, payload) =>
      && id == c.id
      && payload.phone == (if Truthy(c.phone) then c.phone.value else customerPhone)
      && (payload.tags.Some? ==> "close" in payload.tags.value && "closed" in payload.tags.value)
    case _ => false
  }

  predicate ContactCallAllowed(call: Call, contacts: seq<Contact>, customerPhone: string) {
    exists c :: c in contacts && ContactCallFor(call, c, customerPhone)
  }

  /** The requests of one contact update with the close tags: its GET, then at most its PUT
      of the given phone with tags that hold both close tags; a success made both. */
  lemma CloseTagUpdateCalls(contactId: string, phone: string, pending: seq<Reply>)
    ensures var u := ContactUpdate(contactId, phone, TagList(CloseTags), pending);
            && 1 <= |u.calls| <= 2 && u.calls[0] == GetContact(contactId)
            && (u.value ==> |u.calls| == 2)
            && (|u.calls| == 2 ==>
                  && u.calls[1].PutContact? && u.calls[1].contactId == contactId
                  && u.calls[1].payload.phone == phone
                  && (u.calls[1].payload.tags.Some? ==>
                        "close" in u.calls[1].payload.tags.value &&
                        "closed" in u.calls[1].payload.tags.value))
  {
    ContactUpdateSpec(contactId, phone, TagList(CloseTags), pending);
    var got := At(pending, 0);
    if ReadableOk(got) {
      MergedTagsSpec(got.body.tags, TagList(CloseTags));
      assert "close" in CloseTags && "closed" in CloseTags;
    }
  }

  lemma ContactStepCalls(c: Contact, customerPhone: string, pending: seq<Reply>)
    ensures var s := ContactStep(c, customerPhone, pending);
            && (Settled(c) ==> s == Run(Tally(0, 0), [], [], pending))
            && |s.calls| <= 2
            && 2 * (s.value.contactsUpdated + s.value.tagsAdded) <= |s.calls|
            && s.sleeps == []
            && forall call :: call in s.calls ==> ContactCallFor(call, c, customerPhone)
  {
    if !Settled(c) {
      var phone := if Truthy(c.phone) then c.phone.value else customerPhone;
      CloseTagUpdateCalls(c.id, phone, pending);
      var u := ContactUpdate(c.id, phone, TagList(CloseTags), pending);
      assert ContactStep(c, customerPhone, pending).calls == u.calls;
      forall call | call in u.calls ensures ContactCallFor(call, c, customerPhone) {
        if call != u.calls[0] {
          assert call == u.calls[1];
        }
      }
    }
  }

  /** A contact counts under `contacts_updated` exactly when it had no phone and both its
      GET and its PUT answered 200, and under `tags_added` exactly when it had a phone but
      lacked a close tag and both answered 200; never under both. */
  lemma ContactStepCounts(c: Contact, customerPhone: string, pending: seq<Reply>)
    ensures var s := ContactStep(c, customerPhone, pending);
            var answered := ReadableOk(At(pending, 0)) && Succeeded(At(pending, 1));
            && (s.value.contactsUpdated == 1 <==> !Truthy(c.phone) && answered)
            && (s.value.tagsAdded == 1 <==> !Settled(c) && Truthy(c.phone) && answered)
            && s.value.contactsUpdated + s.value.tagsAdded <= 1
  {
    if !Settled(c) {
      var phone := if Truthy(c.phone) then c.phone.value else customerPhone;
      ContactUpdateSpec(c.id, phone, TagList(CloseTags), pending);
    }
  }

  /** Phase 1 touches only matching contacts that are not settled: it never overwrites a
      phone, every tag list it sends holds both close tags, and each counted contact cost a
      GET and a PUT. A contact list of settled contacts costs no call at all, so a second run
      over contacts the first run settled does nothing. */
  lemma {:induction false} ContactsPassCalls(contacts: seq<Contact>, customerPhone: string,
                                             pending: seq<Reply>)
    ensures var r := ContactsPass(contacts, customerPhone, pending);
            && |r.calls| <= 2 * |contacts|
            && 2 * (r.value.contactsUpdated + r.value.tagsAdded) <= |r.calls|
            && r.sleeps == []
            && forall call :: call in r.calls ==> ContactCallAllowed(call, contacts, customerPhone)
    ensures (forall c :: c in contacts ==> Settled(c)) ==>
              ContactsPass(contacts, customerPhone, pending) == Run(Tally(0, 0), [], [], pending)
    decreases |contacts|
  {
    if contacts != [] {
      var n := |contacts| - 1;
      var front := contacts[..n];
      ContactsPassCalls(front, customerPhone, pending);
      var r := ContactsPass(front, customerPhone, pending);
      ContactStepCalls(contacts[n], customerPhone, r.rest);
      var s := ContactStep(contacts[n], customerPhone, r.rest);
      forall call | call in r.calls + s.calls
        ensures ContactCallAllowed(call, contacts, customerPhone)
      {
        if call in r.calls {
          var c :| c in front && ContactCallFor(call, c, customerPhone);
          assert c in contacts;
        } else {
          assert contacts[n] in contacts;
        }
      }
      if forall c :: c in contacts ==> Settled(c) {
        assert forall c :: c in front ==> c in contacts;
        assert contacts[n] in contacts;
      }
    }
  }

  /** Phase 1 calls nothing past its token request when the token is falsy; otherwise it
      searches the default location with the customer's email once and then runs the contact
      loop over the exact matches. */
  lemma DefaultLocationCalls(email: string, customerPhone: string, pending: seq<Reply>)
    ensures var t := LocationToken(DefaultLocationId, pending);
            var d := DefaultLocationPass(email, customerPhone, pending);
            && d.calls[..|t.calls|] == t.calls
            && (t.value.Completed? && !Truthy(t.value.value) ==>
                  d.calls == t.calls && d.value == Completed(Tally(0, 0)))
            && (t.value.Completed? && Truthy(t.value.value) ==>
                  |d.calls| > |t.calls| &&
                  d.calls[|t.calls|] == SearchContacts(DefaultLocationId, email))
            && (t.value.Threw? ==> d.value == Threw(t.value.message) && d.calls == t.calls)
  {
  }

  /** A token granted at the first attempt. */
  lemma TokenOnFirstAttempt(locationId: string, pending: seq<Reply>)
    requires var r := At(pending, 0); r.Answered? && r.status == 200 && r.body.JsonObject?
    ensures LocationToken(locationId, pending)
            == Run(Completed(Some(At(pending, 0).body.accessToken)), [PostLocationToken(locationId)],
                   [], Drop(pending, 1))
  {
    LeadExact(pending, TokenAttempts, RateLimited, 0);
  }

  /** Phase 1 over a search that finds exactly one contact, after a token granted at once. */
  lemma OneContactFound(email: string, customerPhone: string, contact: Contact,
                        pending: seq<Reply>)
    requires var r := At(pending, 0);
             r.Answered? && r.status == 200 && r.body.JsonObject? && r.body.accessToken != ""
    requires ContactsFromReply(At(pending, 1), email) == [contact]
    ensures var s := ContactStep(contact, customerPhone, Drop(pending, 2));
            DefaultLocationPass(email, customerPhone, pending)
            == Run(Completed(s.value),
                   [PostLocationToken(DefaultLocationId), SearchContacts(DefaultLocationId, email)]
                   + s.calls, s.sleeps, s.rest)
  {
    TokenOnFirstAttempt(DefaultLocationId, pending);
    AtDrop(pending, 1, 0);
    DropDrop(pending, 1, 1);
    var q := Drop(pending, 2);
    var st := ContactStep(contact, customerPhone, q);
    assert [contact][..0] == [];
    assert ContactsPass([contact], customerPhone, q) == AddTally(Run(Tally(0, 0), [], [], q), st);
    assert [] + st.calls == st.calls && [] + st.sleeps == st.sleeps;
    assert [PostLocationToken(DefaultLocationId)] + [SearchContacts(DefaultLocationId, email)]
           == [PostLocationToken(DefaultLocationId), SearchContacts(DefaultLocationId, email)];
  }

  /** The contact update when the GET answers a readable 200 and the PUT answers 200: the PUT
      carries the close tags merged into the tags the GET returned. */
  lemma UpdateBothAnswered(contactId: string, phone: string, pending: seq<Reply>)
    requires ReadableOk(At(pending, 0)) && Succeeded(At(pending, 1))
    ensures var existing := At(pending, 0).body.tags;
            ContactUpdate(contactId, phone, TagList(CloseTags), pending)
            == Run(true, [GetContact(contactId),
                          PutContact(contactId, ContactPayload(phone,
                                                               MergedTags(existing, TagList(CloseTags))))],
                   [], Drop(pending, 2))
  {
    AtDrop(pending, 1, 0);
  }

  /** `["close", "closed"]` merged into tags that hold neither gives both, after the
      existing ones. */
  lemma ScenarioMerge(existing: seq<string>)
    requires "close" !in existing && "closed" !in existing
    ensures MergedTags(existing, TagList(CloseTags)) == Some(existing + CloseTags)
  {
    var toAdd := CloseTags;
    assert toAdd[..1] == ["close"] && ["close"][..0] == [];
    assert NewTags(existing, toAdd) == ["close", "closed"];
  }

  /** The step for a contact that is not settled, when its GET answers a readable 200 and its
      PUT answers 200. */
  lemma UnsettledContactUpdated(contact: Contact, customerPhone: string, pending: seq<Reply>)
    requires !Settled(contact)
    requires ReadableOk(At(pending, 0)) && Succeeded(At(pending, 1))
    ensures var phone := if Truthy(contact.phone) then contact.phone.value else customerPhone;
            var existing := At(pending, 0).body.tags;
            ContactStep(contact, customerPhone, pending)
            == Run(if Truthy(contact.phone) then Tally(0, 1) else Tally(1, 0),
                   [GetContact(contact.id),
                    PutContact(contact.id,
                               ContactPayload(phone, MergedTags(existing, TagList(CloseTags))))],
                   [], Drop(pending, 2))
  {
    var phone := if Truthy(contact.phone) then contact.phone.value else customerPhone;
    UpdateBothAnswered(contact.id, phone, pending);
  }

  /** Phase 1 when the token is granted at once, the search finds one contact that is not
      settled, and its GET (with tags `existing`) and PUT both answer 200. */
  lemma PhaseOneSingleContact(email: string, customerPhone: string, contact: Contact,
                              pending: seq<Reply>)
    requires var r := At(pending, 0);
             r.Answered? && r.status == 200 && r.body.JsonObject? && r.body.accessToken != ""
    requires ContactsFromReply(At(pending, 1), email) == [contact]
    requires !Settled(contact)
    requires ReadableOk(At(pending, 2)) && Succeeded(At(pending, 3))
    ensures var phone := if Truthy(contact.phone) then contact.phone.value else customerPhone;
            var existing := At(pending, 2).body.tags;
            DefaultLocationPass(email, customerPhone, pending)
            == Run(Completed(if Truthy(contact.phone) then Tally(0, 1) else Tally(1, 0)),
                   [PostLocationToken(DefaultLocationId), SearchContacts(DefaultLocationId, email),
                    GetContact(contact.id),
                    PutContact(contact.id,
                               ContactPayload(phone, MergedTags(existing, TagList(CloseTags))))],
                   [], Drop(pending, 4))
  {
    var later := Drop(pending, 2);
    var st := ContactStep(contact, customerPhone, later);
    var head := [PostLocationToken(DefaultLocationId), SearchContacts(DefaultLocationId, email)];
    var phone := if Truthy(contact.phone) then contact.phone.value else customerPhone;
    var put := PutContact(contact.id,
                          ContactPayload(phone, MergedTags(At(pending, 2).body.tags,
                                                           TagList(CloseTags))));
    var tally := if Truthy(contact.phone) then Tally(0, 1) else Tally(1, 0);
    assert DefaultLocationPass(email, customerPhone, pending)
           == Run(Completed(st.value), head + st.calls, st.sleeps, st.rest) by {
      OneContactFound(email, customerPhone, contact, pending);
    }
    assert st == Run(tally, [GetContact(contact.id), put], [], Drop(pending, 4)) by {
      AtDrop(pending, 2, 0);
      AtDrop(pending, 2, 1);
      DropDrop(pending, 2, 2);
      UnsettledContactUpdated(contact, customerPhone, later);
    }
    assert head + [GetContact(contact.id), put]
           == [PostLocationToken(DefaultLocationId), SearchContacts(DefaultLocationId, email),
               GetContact(contact.id), put];
  }

  /** The first literal scenario: one matching contact with no phone and no tags gets the
      customer's phone and both tags, and is counted as updated. */
  lemma ScenarioContactWithoutPhone()
    ensures var email, phone := "a@example.com", "+15551234567";
            var contact := Contact("c1", Some(email), None, []);
            var pending := [Answered(200, JsonObject([], "tok", [], [], [])),
                            Answered(200, JsonObject([], "", [contact], [], [])),
                            Answered(200, JsonObject([], "", [], [], [])),
                            Answered(200, JsonObject([], "", [], [], []))];
            DefaultLocationPass(email, phone, pending)
            == Run(Completed(Tally(1, 0)),
                   [PostLocationToken(DefaultLocationId), SearchContacts(DefaultLocationId, email),
                    GetContact("c1"), PutContact("c1", ContactPayload(phone, Some(CloseTags)))],
                   [], [])
  {
    var email, phone := "a@example.com", "+15551234567";
    var contact := Contact("c1", Some(email), None, []);
    var pending := [Answered(200, JsonObject([], "tok", [], [], [])),
                    Answered(200, JsonObject([], "", [contact], [], [])),
                    Answered(200, JsonObject([], "", [], [], [])),
                    Answered(200, JsonObject([], "", [], [], []))];
    assert ExactEmailMatches([contact], email) == [contact];
    PhaseOneSingleContact(email, phone, contact, pending);
    ScenarioMerge([]);
    assert [] + CloseTags == CloseTags;
  }

  /** The second literal scenario: a contact with phone +15550000000 and only `close` keeps
      its phone, gets `["close", "closed"]`, and is counted under tags added. */
  lemma ScenarioContactMissingTag()
    ensures var email, phone := "a@example.com", "+15551234567";
            var contact := Contact("c1", Some(email), Some("+15550000000"), ["close"]);
            var pending := [Answered(200, JsonObject([], "tok", [], [], [])),
                            Answered(200, JsonObject([], "", [contact], [], [])),
                            Answered(200, JsonObject([], "", [], ["close"], [])),
                            Answered(200, JsonObject([], "", [], [], []))];
            DefaultLocationPass(email, phone, pending)
            == Run(Completed(Tally(0, 1)),
                   [PostLocationToken(DefaultLocationId), SearchContacts(DefaultLocationId, email),
                    GetContact("c1"),
                    PutContact("c1", ContactPayload("+15550000000", Some(CloseTags)))],
                   [], [])
  {
    var email, phone := "a@example.com", "+15551234567";
    var contact := Contact("c1", Some(email), Some("+15550000000"), ["close"]);
    var pending := [Answered(200, JsonObject([], "tok", [], [], [])),
                    Answered(200, JsonObject([], "", [contact], [], [])),
                    Answered(200, JsonObject([], "", [], ["close"], [])),
                    Answered(200, JsonObject([], "", [], [], []))];
    assert ExactEmailMatches([contact], email) == [contact];
    assert "closed" !in contact.tags by {
      assert |"closed"| != |"close"|;
    }
    PhaseOneSingleContact(email, phone, contact, pending);
    CloseTagsExample();
  }

  // ---------------------------------------------------------------------------------------
  // Phase 2

  /** A request phase 2 may make for user `u`: a PUT of the customer's phone, only when `u`
      matches the customer's email exactly and has no phone. */
  predicate UserCallAllowed(call: Call, users: seq<User>, email: string, customerPhone: string) {
    exists u :: u in users && Eligible(u, email) && call == PutUser(u.id, customerPhone)
  }

  /** A user counts exactly when it is eligible and its PUT answered 200. */
  lemma UserStepCounts(u: User, email: string, customerPhone: string, pending: seq<Reply>)
    ensures UserStep(u, email, customerPhone, pending).value == 1
            <==> Eligible(u, email) && Succeeded(At(pending, 0))
    ensures UserStep(u, email, customerPhone, pending).value <= 1
  {
  }

  /** The user loop updates only eligible users, with the customer's phone, and counts only
      updates that answered 200. */
  lemma {:induction false} UsersPassCalls(users: seq<User>, email: string, customerPhone: string,
                                          pending: seq<Reply>)
    ensures var r := UsersPass(users, email, customerPhone, pending);
            && r.value <= |r.calls| <= |users|
            && r.sleeps == []
            && forall call :: call in r.calls ==> UserCallAllowed(call, users, email, customerPhone)
    decreases |users|
  {
    if users != [] {
      var n := |users| - 1;
      var front := users[..n];
      UsersPassCalls(front, email, customerPhone, pending);
      var r := UsersPass(front, email, customerPhone, pending);
      var s := UserStep(users[n], email, customerPhone, r.rest);
      forall call | call in r.calls + s.calls
        ensures UserCallAllowed(call, users, email, customerPhone)
      {
        if call in r.calls {
          var u :| u in front && Eligible(u, email) && call == PutUser(u.id, customerPhone);
          assert u in users;
        } else {
          assert users[n] in users;
        }
      }
    }
  }

  /** A location whose token is falsy is skipped: no user listing, no entry. */
  lemma LocationWithoutTokenSkipped(locationId: string, email: string, customerPhone: string,
                                    pending: seq<Reply>)
    requires LocationToken(locationId, pending).value.Completed?
    requires !Truthy(LocationToken(locationId, pending).value.value)
    ensures var s := LocationStep(locationId, email, customerPhone, pending);
            s.value == Completed(None) && s.calls == LocationToken(locationId, pending).calls
  {
  }

  /** A location step that yields a summary names that location and counts at most as many
      users as it made calls. */
  lemma LocationStepSummary(locationId: string, email: string, customerPhone: string,
                            pending: seq<Reply>)
    ensures var s := LocationStep(locationId, email, customerPhone, pending);
            s.value.Completed? && s.value.value.Some? ==>
              && s.value.value.value.locationId == locationId
              && s.value.value.value.usersUpdated <= |s.calls|
  {
    var t := LocationToken(locationId, pending);
    UsersPassCalls(UsersFromReply(At(t.rest, 0)), email, customerPhone, Drop(t.rest, 1));
  }

  /** Every entry of `processed_locations` is a discovered location, there is at most one per
      discovered location, and each counts at most the users of that location it updated. */
  lemma {:induction false} LocationsPassSummaries(locationIds: seq<string>, email: string,
                                                  customerPhone: string, pending: seq<Reply>)
    ensures var r := LocationsPass(locationIds, email, customerPhone, pending);
            r.value.Completed? ==>
              && |r.value.value| <= |locationIds|
              && (forall x :: x in r.value.value ==> x.locationId in locationIds)
              && TotalUsers(r.value.value) <= |r.calls|
    decreases |locationIds|
  {
    if locationIds != [] {
      var n := |locationIds| - 1;
      var front := locationIds[..n];
      LocationsPassSummaries(front, email, customerPhone, pending);
      var r := LocationsPass(front, email, customerPhone, pending);
      assert forall x :: x in front ==> x in locationIds;
      if r.value.Completed? {
        var s := LocationStep(locationIds[n], email, customerPhone, r.rest);
        if s.value.Completed? && s.value.value.Some? {
          LocationStepSummary(locationIds[n], email, customerPhone, r.rest);
          TotalUsersSnoc(r.value.value, s.value.value.value);
          assert locationIds[n] in locationIds;
        }
      }
    }
  }

  /** The location ids of `processed_locations`, in order. */
  function SummaryIds(summaries: seq<LocationSummary>): (ids: seq<string>)
    ensures |ids| == |summaries| && forall i :: 0 <= i < |ids| ==> ids[i] == summaries[i].locationId
  {
    seq(|summaries|, i requires 0 <= i < |summaries| => summaries[i].locationId)
  }

  /** The ids whose flag in `mask` is set, in order: a sub-selection of `ids`. */
  function Kept(ids: seq<string>, mask: seq<bool>): seq<string>
    requires |mask| == |ids|
    decreases |ids|
  {
    if ids == [] then []
    else
      var n := |ids| - 1;
      Kept(ids[..n], mask[..n]) + (if mask[n] then [ids[n]] else [])
  }

  /** A sub-selection holds only ids of the list, and no id twice when the list holds none
      twice. */
  lemma {:induction false} KeptDistinct(ids: seq<string>, mask: seq<bool>)
    requires |mask| == |ids|
    ensures forall x :: x in Kept(ids, mask) ==> x in ids
    ensures NoDuplicates(ids) ==> NoDuplicates(Kept(ids, mask))
    decreases |ids|
  {
    if ids != [] {
      var n := |ids| - 1;
      var front := ids[..n];
      KeptDistinct(front, mask[..n]);
      var k := Kept(front, mask[..n]);
      assert forall x :: x in front ==> x in ids;
      if NoDuplicates(ids) {
        assert NoDuplicates(front) by {
          forall i, j | 0 <= i < j < |front| ensures front[i] != front[j] {
            assert front[i] == ids[i] && front[j] == ids[j];
          }
        }
        if mask[n] {
          assert ids[n] !in front by {
            forall i | 0 <= i < n ensures front[i] != ids[n] {
              assert front[i] == ids[i];
            }
          }
          var kk := k + [ids[n]];
          forall i, j | 0 <= i < j < |kk| ensures kk[i] != kk[j] {
            if j == |k| {
              assert kk[i] == k[i] && k[i] in front;
            } else {
              assert kk[i] == k[i] && kk[j] == k[j];
            }
          }
        }
      }
    }
  }

  /** One more location with a completed step appends its id to the entries' ids exactly
      when it yielded a summary. */
  lemma LocationsPassStepIds(locationIds: seq<string>, email: string, customerPhone: string,
                             pending: seq<Reply>)
    requires locationIds != []
    requires var n := |locationIds| - 1;
             var f := LocationsPass(locationIds[..n], email, customerPhone, pending);
             f.value.Completed? &&
             LocationStep(locationIds[n], email, customerPhone, f.rest).value.Completed?
    ensures var n := |locationIds| - 1;
            var f := LocationsPass(locationIds[..n], email, customerPhone, pending);
            var s := LocationStep(locationIds[n], email, customerPhone, f.rest);
            var r := LocationsPass(locationIds, email, customerPhone, pending);
            r.value.Completed? &&
            SummaryIds(r.value.value)
            == SummaryIds(f.value.value) + (if s.value.value.Some? then [locationIds[n]] else [])
  {
    var n := |locationIds| - 1;
    var f := LocationsPass(locationIds[..n], email, customerPhone, pending);
    var s := LocationStep(locationIds[n], email, customerPhone, f.rest);
    var r := LocationsPass(locationIds, email, customerPhone, pending);
    if s.value.value.Some? {
      LocationStepSummary(locationIds[n], email, customerPhone, f.rest);
      assert r.value.value == f.value.value + [s.value.value.value];
    } else {
      assert r.value.value == f.value.value;
    }
  }

  /** `processed_locations` follows the discovered locations: its ids are the discovered ids
      that got a token, in discovery order, each at most once per discovery. */
  lemma {:induction false} LocationsPassInOrder(locationIds: seq<string>, email: string,
                                                customerPhone: string, pending: seq<Reply>)
    ensures var r := LocationsPass(locationIds, email, customerPhone, pending);
            r.value.Completed? ==>
              exists mask :: |mask| == |locationIds| && SummaryIds(r.value.value) == Kept(locationIds, mask)
    decreases |locationIds|
  {
    var r := LocationsPass(locationIds, email, customerPhone, pending);
    if locationIds == [] {
      var mask: seq<bool> := [];
      assert SummaryIds(r.value.value) == Kept(locationIds, mask);
    } else {
      var n := |locationIds| - 1;
      var front := locationIds[..n];
      LocationsPassInOrder(front, email, customerPhone, pending);
      var f := LocationsPass(front, email, customerPhone, pending);
      if f.value.Completed? {
        var mask :| |mask| == |front| && SummaryIds(f.value.value) == Kept(front, mask);
        var s := LocationStep(locationIds[n], email, customerPhone, f.rest);
        if s.value.Completed? {
          LocationsPassStepIds(locationIds, email, customerPhone, pending);
          var mask' := mask + [s.value.value.Some?];
          assert mask'[..n] == mask;
          assert SummaryIds(r.value.value) == Kept(locationIds, mask');
        }
      }
    }
  }

  /** When the discovered locations are distinct, so are the entries of `processed_locations`. */
  lemma LocationsPassDistinct(locationIds: seq<string>, email: string, customerPhone: string,
                              pending: seq<Reply>)
    requires NoDuplicates(locationIds)
    ensures var r := LocationsPass(locationIds, email, customerPhone, pending);
            r.value.Completed? ==> NoDuplicates(SummaryIds(r.value.value))
  {
    LocationsPassInOrder(locationIds, email, customerPhone, pending);
    var r := LocationsPass(locationIds, email, customerPhone, pending);
    if r.value.Completed? {
      var mask :| |mask| == |locationIds| && SummaryIds(r.value.value) == Kept(locationIds, mask);
      KeptDistinct(locationIds, mask);
    }
  }

  /** The handler's success response: its total is the sum of the per-location counts, its
      entries are discovered locations, and it echoes the customer's fields. */
  lemma SuccessResponse(webhookSecret: string, mac: Mac, event: Event,
                        agencySecret: Outcome<string>, pending: seq<Reply>)
    requires HandlerSpec(webhookSecret, mac, event, agencySecret, pending).value.statusCode == 200
    requires HandlerSpec(webhookSecret, mac, event, agencySecret, pending).value.body.Summary?
    ensures event.parsed.Decoded?
    ensures var b := HandlerSpec(webhookSecret, mac, event, agencySecret, pending).value.body;
            var c := event.parsed.checkout;
            && b.totalUsersUpdated == TotalUsers(b.locations)
            && Some(b.customerEmail) == c.email && Some(b.customerPhone) == c.phone
            && Some(b.stripeCustomerId) == c.customer
            && b.defaultLocation.contactsUpdated + b.defaultLocation.tagsAdded
               <= |ContactsFromReply(At(LocationToken(DefaultLocationId, pending).rest, 0),
                                     b.customerEmail)|
  {
    var c := event.parsed.checkout;
    var t := LocationToken(DefaultLocationId, pending);
    var contacts := ContactsFromReply(At(t.rest, 0), c.email.value);
    ContactsPassCalls(contacts, c.phone.value, Drop(t.rest, 1));
  }
}
