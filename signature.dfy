/** The Stripe webhook signature check of the handler (`verify_stripe_signature`). */
module StripeSignature {
  import opened Wrappers
  import opened Text

  /** HMAC-SHA256 of a message under a key, as a hex digest. The hash itself is not modelled:
      every lemma holds for any function in its place. */
  type Mac = (string, string) -> string

  /** `key, value = element.split('=')`: Some only when the element splits into exactly two
      pieces; any other count makes the unpacking raise. */
  function KeyValue(element: string): Option<(string, string)>
  {
    var parts := Split(element, '=');
    if |parts| == 2 then Some((parts[0], parts[1])) else None
  }

  /** An element unpacks to (key, value) exactly when it is `key=value` with no other `=`. */
  lemma KeyValueExact(element: string, key: string, value: string)
    ensures KeyValue(element) == Some((key, value))
            <==> element == key + "=" + value && '=' !in key && '=' !in value
  {
    if KeyValue(element) == Some((key, value)) {
      JoinSplit(element, '=');
      var parts := Split(element, '=');
      assert parts == [key, value];
      assert parts[1..] == [value];
    }
    if element == key + "=" + value && '=' !in key && '=' !in value {
      var parts := [key, value];
      assert parts[1..] == [value];
      assert Join(parts, '=') == element;
      SplitJoin(parts, '=');
    }
  }

  /** The (key, value) pairs of the header's elements, in order; None when some element
      does not unpack. */
  function Pairs(elements: seq<string>): (ps: Option<seq<(string, string)>>)
    ensures ps.Some? <==> forall i :: 0 <= i < |elements| ==> KeyValue(elements[i]).Some?
    ensures ps.Some? ==> |ps.value| == |elements|
    ensures ps.Some? ==> forall i :: 0 <= i < |elements| ==> KeyValue(elements[i]) == Some(ps.value[i])
    decreases |elements|
  {
    if elements == [] then Some([])
    else
      var front := elements[..|elements| - 1];
      match (Pairs(front), KeyValue(elements[|elements| - 1]))
      case (Some(ps), Some(kv)) =>
        assert forall i :: 0 <= i < |front| ==> front[i] == elements[i];
        Some(ps + [kv])
      case _ =>
        assert forall i :: 0 <= i < |front| ==> front[i] == elements[i];
        None
  }

  /** The value of the last pair whose key is `key` (the loop overwrites `timestamp`). */
  function LastValue(ps: seq<(string, string)>, key: string): Option<string>
    decreases |ps|
  {
    if ps == [] then None
    else if ps[|ps| - 1].0 == key then Some(ps[|ps| - 1].1)
    else LastValue(ps[..|ps| - 1], key)
  }

  /** Pair `i` is the last one with key `key`. */
  predicate LastWithKey(ps: seq<(string, string)>, key: string, i: int) {
    0 <= i < |ps| && ps[i].0 == key && forall j :: i < j < |ps| ==> ps[j].0 != key
  }

  /** LastValue finds nothing exactly when no pair has the key, and otherwise the value of
      the last such pair. */
  lemma {:induction false} LastValueSpec(ps: seq<(string, string)>, key: string)
    ensures LastValue(ps, key).None? <==> forall i :: 0 <= i < |ps| ==> ps[i].0 != key
    ensures LastValue(ps, key).Some? ==>
              exists i :: LastWithKey(ps, key, i) && ps[i].1 == LastValue(ps, key).value
    ensures forall i :: LastWithKey(ps, key, i) ==> LastValue(ps, key) == Some(ps[i].1)
    decreases |ps|
  {
    if ps != [] {
      var n := |ps| - 1;
      var front := ps[..n];
      LastValueSpec(front, key);
      assert forall i :: 0 <= i < n ==> front[i] == ps[i];
      if ps[n].0 == key {
        assert LastWithKey(ps, key, n);
      } else {
        if LastValue(front, key).Some? {
          var i :| LastWithKey(front, key, i) && front[i].1 == LastValue(front, key).value;
          assert LastWithKey(ps, key, i);
        }
        forall i | LastWithKey(ps, key, i) ensures LastValue(ps, key) == Some(ps[i].1) {
          assert LastWithKey(front, key, i);
        }
      }
    }
  }

  /** The values of all pairs whose key is `key`, in order (the loop appends to `signatures`). */
  function Values(ps: seq<(string, string)>, key: string): seq<string>
    decreases |ps|
  {
    if ps == [] then []
    else
      var last := ps[|ps| - 1];
      Values(ps[..|ps| - 1], key) + (if last.0 == key then [last.1] else [])
  }

  /** A value is collected exactly when some pair carries it under the key. */
  lemma {:induction false} ValuesSpec(ps: seq<(string, string)>, key: string)
    ensures forall v :: v in Values(ps, key) <==> exists i :: 0 <= i < |ps| && ps[i] == (key, v)
    decreases |ps|
  {
    if ps != [] {
      var n := |ps| - 1;
      var front := ps[..n];
      ValuesSpec(front, key);
      forall v ensures v in Values(ps, key) <==> exists i :: 0 <= i < |ps| && ps[i] == (key, v) {
        if v in Values(front, key) {
          var i :| 0 <= i < n && front[i] == (key, v);
          assert ps[i] == (key, v);
        } else if v in Values(ps, key) {
          assert ps[n] == (key, v);
        }
        if exists i :: 0 <= i < |ps| && ps[i] == (key, v) {
          var i :| 0 <= i < |ps| && ps[i] == (key, v);
          if i < n {
            assert front[i] == (key, v);
          }
        }
      }
    }
  }

  /** The collection keeps the pairs' order: the values of a concatenation are the values
      of its parts, one after the other. */
  lemma {:induction false} ValuesAppend(ps: seq<(string, string)>, qs: seq<(string, string)>,
                                        key: string)
    ensures Values(ps + qs, key) == Values(ps, key) + Values(qs, key)
    decreases |qs|
  {
    if qs == [] {
      assert ps + qs == ps;
    } else {
      var n := |qs| - 1;
      ValuesAppend(ps, qs[..n], key);
      assert (ps + qs)[..|ps + qs| - 1] == ps + qs[..n];
      assert (ps + qs)[|ps + qs| - 1] == qs[n];
    }
  }

  /** The collection keeps multiplicity: a value is collected once per pair that carries it
      under the key. */
  lemma {:induction false} ValuesCount(ps: seq<(string, string)>, key: string, v: string)
    ensures multiset(Values(ps, key))[v] == multiset(ps)[(key, v)]
    decreases |ps|
  {
    if ps != [] {
      var n := |ps| - 1;
      ValuesCount(ps[..n], key, v);
      assert ps == ps[..n] + [ps[n]];
    }
  }

  /** Nothing is collected exactly when no pair has the key. */
  lemma {:induction false} ValuesEmpty(ps: seq<(string, string)>, key: string)
    ensures Values(ps, key) == [] <==> forall i :: 0 <= i < |ps| ==> ps[i].0 != key
    decreases |ps|
  {
    if ps != [] {
      var n := |ps| - 1;
      ValuesEmpty(ps[..n], key);
      assert forall i :: 0 <= i < n ==> ps[..n][i] == ps[i];
    }
  }

  /** What the parsing loop leaves behind: the last `t` and every `v1`, in order. */
  datatype Header = Header(timestamp: Option<string>, signatures: seq<string>)

  /** The header as the parsing loop reads it; None when some element does not unpack. */
  function HeaderOf(header: string): Option<Header>
  {
    match Pairs(Split(header, ','))
    case None => None
    case Some(ps) => Some(Header(LastValue(ps, "t"), Values(ps, "v1")))
  }

  /** `f"{timestamp}.{payload}"` */
  function SignedPayload(timestamp: string, payload: string): string {
    timestamp + "." + payload
  }

  /** `hmac.compare_digest(a, b)` on two str: None when it raises because an argument holds
      a non-ASCII character. */
  function CompareDigest(a: string, b: string): Option<bool> {
    if IsAscii(a) && IsAscii(b) then Some(a == b) else None
  }

  /** `any(hmac.compare_digest(expected, sig) for sig in signatures)`, evaluated lazily from the
      front: None when a comparison raises before a match is found. */
  function AnyDigestMatch(expected: string, signatures: seq<string>): Option<bool>
    decreases |signatures|
  {
    if signatures == [] then Some(false)
    else
      match CompareDigest(expected, signatures[0])
      case None => None
      case Some(true) => Some(true)
      case Some(false) => AnyDigestMatch(expected, signatures[1..])
  }

  /** `any` is true exactly when some signature equals the (ASCII) expected digest and every
      signature before it is ASCII. */
  lemma {:induction false} AnyDigestMatchSpec(expected: string, signatures: seq<string>)
    ensures AnyDigestMatch(expected, signatures) == Some(true) <==>
              IsAscii(expected) &&
              exists k :: 0 <= k < |signatures| && signatures[k] == expected &&
                          forall j :: 0 <= j < k ==> IsAscii(signatures[j])
    decreases |signatures|
  {
    if signatures != [] {
      var rest := signatures[1..];
      AnyDigestMatchSpec(expected, rest);
      assert forall k :: 0 <= k < |rest| ==> rest[k] == signatures[k + 1];
      if AnyDigestMatch(expected, signatures) == Some(true) {
        if CompareDigest(expected, signatures[0]) == Some(false) {
          var k :| 0 <= k < |rest| && rest[k] == expected &&
                   forall j :: 0 <= j < k ==> IsAscii(rest[j]);
          assert forall j :: 0 <= j < k + 1 ==> IsAscii(signatures[j]) by {
            forall j | 0 <= j < k + 1 ensures IsAscii(signatures[j]) {
              if j > 0 { assert signatures[j] == rest[j - 1]; }
            }
          }
        }
      }
      if IsAscii(expected) &&
         exists k :: 0 <= k < |signatures| && signatures[k] == expected &&
                     forall j :: 0 <= j < k ==> IsAscii(signatures[j]) {
        var k :| 0 <= k < |signatures| && signatures[k] == expected &&
                 forall j :: 0 <= j < k ==> IsAscii(signatures[j]);
        if k > 0 {
          assert IsAscii(signatures[0]);
          if signatures[0] != expected {
            assert rest[k - 1] == expected;
            assert forall j :: 0 <= j < k - 1 ==> IsAscii(rest[j]) by {
              forall j | 0 <= j < k - 1 ensures IsAscii(rest[j]) {
                assert rest[j] == signatures[j + 1];
              }
            }
          }
        }
      }
    }
  }

  /** Among ASCII strings `any` is plain membership. */
  lemma {:induction false} AnyDigestMatchAscii(expected: string, signatures: seq<string>)
    requires IsAscii(expected) && forall s :: s in signatures ==> IsAscii(s)
    ensures AnyDigestMatch(expected, signatures) == Some(true) <==> expected in signatures
    decreases |signatures|
  {
    if signatures != [] {
      AnyDigestMatchAscii(expected, signatures[1..]);
      assert signatures == [signatures[0]] + signatures[1..];
    }
  }

  /** The verdict of `verify_stripe_signature(payload, header, secret)`. */
  function Accepts(payload: string, header: string, secret: string, mac: Mac): bool
  {
    if secret == "" then true
    else
      match HeaderOf(header)
      case None => false
      case Some(h) =>
        if h.timestamp.None? || h.timestamp.value == "" || h.signatures == [] then false
        else AnyDigestMatch(mac(secret, SignedPayload(h.timestamp.value, payload)), h.signatures)
               == Some(true)
  }

  /** One more element of the parsing loop: its pair is appended, `t` overwrites the
      timestamp and `v1` appends a signature. */
  lemma PairsStep(elements: seq<string>, i: nat, key: string, value: string)
    requires i < |elements| && Pairs(elements[..i]).Some?
    requires KeyValue(elements[i]) == Some((key, value))
    ensures Pairs(elements[..i + 1]) == Some(Pairs(elements[..i]).value + [(key, value)])
    ensures var ps := Pairs(elements[..i]).value;
            && LastValue(ps + [(key, value)], "t")
               == (if key == "t" then Some(value) else LastValue(ps, "t"))
            && Values(ps + [(key, value)], "v1")
               == Values(ps, "v1") + (if key == "v1" then [value] else [])
  {
    assert elements[..i + 1][..i] == elements[..i];
    var ps := Pairs(elements[..i]).value;
    assert (ps + [(key, value)])[..|ps|] == ps;
  }

  /** `verify_stripe_signature`: split the header on `,`, unpack each element on `=`, keep the
      last `t` and every `v1`, then compare each `v1` with the HMAC of `t.payload`. */
  method VerifyStripeSignature(payload: string, header: string, secret: string, mac: Mac)
    returns (ok: bool)
    ensures ok == Accepts(payload, header, secret, mac)
  {
    if secret == "" {
      return true;
    }
    var elements := Split(header, ',');
    var timestamp: Option<string> := None;
    var signatures: seq<string> := [];
    var i := 0;
    while i < |elements|
      invariant 0 <= i <= |elements|
      invariant Pairs(elements[..i]).Some?
      invariant timestamp == LastValue(Pairs(elements[..i]).value, "t")
      invariant signatures == Values(Pairs(elements[..i]).value, "v1")
    {
      var parts := Split(elements[i], '=');
      if |parts| != 2 {
        // the unpacking raises; the exception handler answers false
        assert KeyValue(elements[i]).None?;
        return false;
      }
      var key, value := parts[0], parts[1];
      PairsStep(elements, i, key, value);
      if key == "t" {
        timestamp := Some(value);
      } else if key == "v1" {
        signatures := signatures + [value];
      }
      i := i + 1;
    }
    assert elements[..i] == elements;
    if timestamp.None? || timestamp.value == "" || signatures == [] {
      return false;
    }
    var expected := mac(secret, SignedPayload(timestamp.value, payload));
    ok := AnyDigestMatch(expected, signatures) == Some(true);
  }

  // ---------------------------------------------------------------------------------------
  // What the verdict promises

  /** With no secret configured, every header passes, empty and malformed ones included. */
  lemma EmptySecretAcceptsAll(payload: string, header: string, mac: Mac)
    ensures Accepts(payload, header, "", mac)
  {
  }

  /** Fail closed: an element that does not split into exactly one key and one value rejects
      the header. */
  lemma MalformedElementRejected(payload: string, header: string, secret: string, mac: Mac, i: int)
    requires secret != ""
    requires 0 <= i < |Split(header, ',')|
    requires |Split(Split(header, ',')[i], '=')| != 2
    ensures !Accepts(payload, header, secret, mac)
  {
    assert KeyValue(Split(header, ',')[i]).None?;
  }

  /** Fail closed: a well-formed header with no `t`, or whose last `t` is empty, is rejected. */
  lemma TimestampRequired(payload: string, header: string, secret: string, mac: Mac)
    requires secret != ""
    requires Pairs(Split(header, ',')).Some?
    requires var ps := Pairs(Split(header, ',')).value;
             (forall i :: 0 <= i < |ps| ==> ps[i].0 != "t") ||
             (exists i :: LastWithKey(ps, "t", i) && ps[i].1 == "")
    ensures !Accepts(payload, header, secret, mac)
  {
    LastValueSpec(Pairs(Split(header, ',')).value, "t");
  }

  /** Fail closed: a well-formed header with no `v1` element is rejected. */
  lemma SignatureRequired(payload: string, header: string, secret: string, mac: Mac)
    requires secret != ""
    requires Pairs(Split(header, ',')).Some?
    requires var ps := Pairs(Split(header, ',')).value;
             forall i :: 0 <= i < |ps| ==> ps[i].0 != "v1"
    ensures !Accepts(payload, header, secret, mac)
  {
    ValuesEmpty(Pairs(Split(header, ',')).value, "v1");
  }

  /** A well-formed header whose last `t` is the non-empty `ts` is accepted exactly when some
      element reads `v1=<HMAC(secret, ts.payload)>` (all `v1` values and the digest being ASCII,
      as hex digests are). */
  lemma AcceptsIffSignatureMatches(payload: string, header: string, secret: string, mac: Mac,
                                   ts: string)
    requires secret != "" && ts != ""
    requires Pairs(Split(header, ',')).Some?
    requires var ps := Pairs(Split(header, ',')).value;
             exists i :: LastWithKey(ps, "t", i) && ps[i].1 == ts
    requires var ps := Pairs(Split(header, ',')).value;
             forall i :: 0 <= i < |ps| && ps[i].0 == "v1" ==> IsAscii(ps[i].1)
    requires IsAscii(mac(secret, SignedPayload(ts, payload)))
    ensures Accepts(payload, header, secret, mac) <==>
              var ps := Pairs(Split(header, ',')).value;
              exists i :: 0 <= i < |ps| && ps[i] == ("v1", mac(secret, SignedPayload(ts, payload)))
  {
    var ps := Pairs(Split(header, ',')).value;
    var expected := mac(secret, SignedPayload(ts, payload));
    LastValueSpec(ps, "t");
    ValuesSpec(ps, "v1");
    var sigs := Values(ps, "v1");
    forall v | v in sigs ensures IsAscii(v) {
      var i :| 0 <= i < |ps| && ps[i] == ("v1", v);
    }
    AnyDigestMatchAscii(expected, sigs);
  }

  /** The header Stripe sends: `t=<ts>` followed by one `v1=<sig>` per signing secret. */
  function StripeHeader(ts: string, sigs: seq<string>): string
  {
    Join(["t=" + ts] + V1Elements(sigs), ',')
  }

  function V1Elements(sigs: seq<string>): (es: seq<string>)
    ensures |es| == |sigs| && forall k :: 0 <= k < |sigs| ==> es[k] == "v1=" + sigs[k]
  {
    if sigs == [] then [] else ["v1=" + sigs[0]] + V1Elements(sigs[1..])
  }

  /** The pairs Stripe's header format unpacks to. */
  function StripePairs(ts: string, sigs: seq<string>): (ps: seq<(string, string)>)
    ensures |ps| == |sigs| + 1 && ps[0] == ("t", ts)
    ensures forall k :: 0 <= k < |sigs| ==> ps[k + 1] == ("v1", sigs[k])
  {
    [("t", ts)] + seq(|sigs|, k requires 0 <= k < |sigs| => ("v1", sigs[k]))
  }

  lemma NotInConcat(c: char, a: string, b: string)
    requires c !in a && c !in b
    ensures c !in a + b
  {
  }

  /** No element of Stripe's header holds a comma. */
  lemma StripeElementsCommaFree(ts: string, sigs: seq<string>)
    requires ',' !in ts
    requires forall k :: 0 <= k < |sigs| ==> ',' !in sigs[k]
    ensures forall i :: 0 <= i < |sigs| + 1 ==> ',' !in (["t=" + ts] + V1Elements(sigs))[i]
  {
    var es := ["t=" + ts] + V1Elements(sigs);
    forall i | 0 <= i < |es| ensures ',' !in es[i] {
      if i == 0 {
        NotInConcat(',', "t=", ts);
      } else {
        assert es[i] == "v1=" + sigs[i - 1];
        NotInConcat(',', "v1=", sigs[i - 1]);
      }
    }
  }

  /** Stripe's header splits back into its elements. */
  lemma StripeHeaderElements(ts: string, sigs: seq<string>)
    requires ',' !in ts
    requires forall k :: 0 <= k < |sigs| ==> ',' !in sigs[k]
    ensures Split(StripeHeader(ts, sigs), ',') == ["t=" + ts] + V1Elements(sigs)
  {
    StripeElementsCommaFree(ts, sigs);
    SplitJoin(["t=" + ts] + V1Elements(sigs), ',');
  }

  /** Elements that unpack one by one to the given pairs unpack to them all together. */
  lemma {:induction false} PairsOfElements(es: seq<string>, want: seq<(string, string)>)
    requires |es| == |want|
    requires forall i :: 0 <= i < |es| ==> KeyValue(es[i]) == Some(want[i])
    ensures Pairs(es) == Some(want)
    decreases |es|
  {
    if es != [] {
      var n := |es| - 1;
      PairsOfElements(es[..n], want[..n]);
      assert want == want[..n] + [want[n]];
    }
  }

  /** Each element of Stripe's header unpacks to its pair. */
  lemma StripeHeaderParses(ts: string, sigs: seq<string>)
    requires ',' !in ts && '=' !in ts
    requires forall k :: 0 <= k < |sigs| ==> ',' !in sigs[k] && '=' !in sigs[k]
    ensures Pairs(Split(StripeHeader(ts, sigs), ',')) == Some(StripePairs(ts, sigs))
  {
    StripeHeaderElements(ts, sigs);
    var es := ["t=" + ts] + V1Elements(sigs);
    var want := StripePairs(ts, sigs);
    forall i | 0 <= i < |es| ensures KeyValue(es[i]) == Some(want[i]) {
      if i == 0 {
        assert es[0] == "t" + "=" + ts;
        KeyValueExact(es[0], "t", ts);
      } else {
        assert es[i] == "v1" + "=" + sigs[i - 1];
        KeyValueExact(es[i], "v1", sigs[i - 1]);
      }
    }
    PairsOfElements(es, want);
  }

  /** In Stripe's pairs, `v1=x` occurs exactly when x is one of the signatures, and `t` only
      at the front. */
  lemma StripePairsShape(ts: string, sigs: seq<string>, x: string)
    ensures LastWithKey(StripePairs(ts, sigs), "t", 0)
    ensures (exists i :: 0 <= i < |StripePairs(ts, sigs)| && StripePairs(ts, sigs)[i] == ("v1", x))
            <==> x in sigs
  {
    var ps := StripePairs(ts, sigs);
    assert forall j :: 0 < j < |ps| ==> ps[j].0 == "v1";
    assert "v1" != "t" by { assert |"v1"| != |"t"|; }
    if x in sigs {
      var k :| 0 <= k < |sigs| && sigs[k] == x;
      assert ps[k + 1] == ("v1", x);
    }
    if exists i :: 0 <= i < |ps| && ps[i] == ("v1", x) {
      var i :| 0 <= i < |ps| && ps[i] == ("v1", x);
      assert i != 0 by {
        assert |ps[0].0| == 1 && |ps[i].0| == 2;
      }
      assert sigs[i - 1] == x;
    }
  }

  /** A header in Stripe's format, with a non-empty timestamp and ASCII signatures free of `,`
      and `=`, is accepted exactly when one of its signatures is the HMAC of `ts.payload`. */
  lemma StripeHeaderAccepted(payload: string, ts: string, sigs: seq<string>, secret: string,
                             mac: Mac)
    requires secret != "" && ts != "" && ',' !in ts && '=' !in ts
    requires forall k :: 0 <= k < |sigs| ==> ',' !in sigs[k] && '=' !in sigs[k] && IsAscii(sigs[k])
    requires IsAscii(mac(secret, SignedPayload(ts, payload)))
    ensures Accepts(payload, StripeHeader(ts, sigs), secret, mac) <==>
              mac(secret, SignedPayload(ts, payload)) in sigs
  {
    var header := StripeHeader(ts, sigs);
    StripeHeaderParses(ts, sigs);
    var ps := StripePairs(ts, sigs);
    var expected := mac(secret, SignedPayload(ts, payload));
    StripePairsShape(ts, sigs, expected);
    forall i | 0 <= i < |ps| && ps[i].0 == "v1" ensures IsAscii(ps[i].1) {
      assert i > 0 by { assert |ps[0].0| == 1; }
      assert ps[i] == ("v1", sigs[i - 1]);
    }
    AcceptsIffSignatureMatches(payload, header, secret, mac, ts);
  }
}
