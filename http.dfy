/** The remote side of the handler: the CRM's HTTP answers, the requests the handler makes,
    and the delays it sleeps. URLs, headers, bearer tokens and query plumbing are not modelled;
    each request is recorded with the values that decide its effect. */
module Http {
  import opened Wrappers

  /** A contact as the contact search returns it; absent keys are None (tags: empty). */
  datatype Contact = Contact(id: string, email: Option<string>, phone: Option<string>, tags: seq<string>)

  /** A user as the user listing returns it; absent keys are None. */
  datatype User = User(id: string, email: Option<string>, phone: Option<string>)

  /** The JSON body of an answer, as far as the client reads it. `Unreadable` is a body on
      which `response.json()` raises, or one that is not a JSON object (so `.get` raises),
      carrying the exception's text. The keys of a `JsonObject` stand at the default that
      `.get` supplies when the key is absent: `data`, `contacts`, `tags`, `users` at [],
      `access_token` at "". */
  datatype Body =
    | Unreadable(error: string)
    | JsonObject(data: seq<string>, accessToken: string, contacts: seq<Contact>,
                 tags: seq<string>, users: seq<User>)

  /** What one HTTP call gives back: `requests` raised (connection error, timeout), or the
      server answered with a status code and a body. */
  datatype Reply = Raised(message: string) | Answered(status: int, body: Body)

  /** The body of the contact update: `{"phone": ...}` plus `"tags"` only when some tag is new. */
  datatype ContactPayload = ContactPayload(phone: string, tags: Option<seq<string>>)

  /** The requests the handler makes, in the order it makes them. */
  datatype Call =
    | GetLocations(customerId: string, subscriptionId: Option<string>)
    | PostLocationToken(locationId: string)
    | SearchContacts(locationId: string, query: string)
    | GetContact(contactId: string)
    | PutContact(contactId: string, payload: ContactPayload)
    | GetUsers(locationId: string)
    | PutUser(userId: string, phone: string)

  /** The exception text of a call made after the scripted replies run out. */
  const ConnectionClosed := "Connection closed"

  /** The reply to the k-th call from now: a scripted reply, or a transport failure once the
      script is exhausted. */
  function At(pending: seq<Reply>, k: nat): Reply {
    if k < |pending| then pending[k] else Raised(ConnectionClosed)
  }

  /** The replies still to come after n more calls. */
  function Drop(pending: seq<Reply>, n: nat): (rest: seq<Reply>)
    ensures |rest| == if n <= |pending| then |pending| - n else 0
  {
    if n <= |pending| then pending[n..] else []
  }

  /** After n calls, the k-th reply from then on is the (n + k)-th from now. */
  lemma AtDrop(pending: seq<Reply>, n: nat, k: nat)
    ensures At(Drop(pending, n), k) == At(pending, n + k)
  {
  }

  lemma DropDrop(pending: seq<Reply>, a: nat, b: nat)
    ensures Drop(Drop(pending, a), b) == Drop(pending, a + b)
  {
  }

  /** Appending logs is associative. */
  lemma AppendAssoc<T>(a: seq<T>, b: seq<T>, c: seq<T>)
    ensures a + b + c == a + (b + c)
  {
  }

  /** A Python exception that escapes an operation (its `str(e)`), or a normal result. */
  datatype Outcome<T> = Completed(value: T) | Threw(message: string)

  /** What a pure description of an operation yields: its result, the calls it makes and the
      delays it sleeps, in order, and the replies left for the calls that follow. */
  datatype Run<T> = Run(value: T, calls: seq<Call>, sleeps: seq<nat>, rest: seq<Reply>)

  /** The simulated remote side and the logs of what the handler did to it. */
  class Remote {
    /** The replies still to come, one per call, in call order. */
    var pending: seq<Reply>
    /** Every request made so far, in order. */
    var calls: seq<Call>
    /** Every `time.sleep` delay so far, in seconds, in order. */
    var sleeps: seq<nat>

    constructor (script: seq<Reply>)
      ensures pending == script && calls == [] && sleeps == []
    {
      pending, calls, sleeps := script, [], [];
    }

    /** Make one request and take the next reply. */
    method Send(c: Call) returns (r: Reply)
      modifies this
      ensures r == At(old(pending), 0) && pending == Drop(old(pending), 1)
      ensures calls == old(calls) + [c] && sleeps == old(sleeps)
    {
      r := At(pending, 0);
      pending := Drop(pending, 1);
      calls := calls + [c];
    }

    /** `time.sleep(seconds)`: only the delay is recorded. */
    method Sleep(seconds: nat)
      modifies this
      ensures sleeps == old(sleeps) + [seconds]
      ensures pending == old(pending) && calls == old(calls)
    {
      sleeps := sleeps + [seconds];
    }
  }
}
