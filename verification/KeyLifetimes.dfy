/**
  How long a published key may be used: what an accepted key owes to the requests that were made,
  with the lifetime written out (section 5.2.2.1 of RFC 9111).
 */
module KeyLifetimes {
  import opened Wrappers
  import opened KeyCache

  /** The answer may still be used: less than its own max-age has passed, or five minutes if it gave none. */
  predicate Fresh(r: Request, now: Time)
    requires r.answer.Fetched?
  {
    now < r.at + if r.answer.maxAge.None? then 300.0 else r.answer.maxAge.value as real
  }

  /** The published set gives `key` for the id; a repeated id stands for its last entry. */
  ghost predicate Lists(entries: seq<Entry>, kid: Kid, key: Key) {
    kid != "" && exists i :: LastFor(entries, i, kid, key)
  }

  /** Entry `i` is the last one for the id. */
  ghost predicate LastFor(entries: seq<Entry>, i: int, kid: Kid, key: Key) {
    && 0 <= i < |entries| && entries[i] == Entry(kid, key)
    && forall j :: i < j < |entries| ==> entries[j].kid != kid
  }

  /** The last request that succeeded. */
  ghost predicate IsLastSuccess(requests: seq<Request>, i: nat) {
    && i < |requests| && requests[i].answer.Fetched?
    && forall j :: i < j < |requests| ==> requests[j].answer.Unavailable?
  }

  ghost predicate NoneSucceeded(requests: seq<Request>) {
    forall j :: 0 <= j < |requests| ==> requests[j].answer.Unavailable?
  }

  // ------------------------------------------------------------------- the cache and its requests

  /** The cache holds the answer of request `i` and runs out when that answer does. */
  ghost predicate Holds(c: Cache, requests: seq<Request>, i: nat) {
    && IsLastSuccess(requests, i)
    && c.keys == KeyMap(requests[i].answer.entries)
    && forall now: Time :: now < c.expiresAt <==> Fresh(requests[i], now)
  }

  ghost predicate Mirrors(c: Cache, requests: seq<Request>) {
    (c.keys == map[] && c.expiresAt == 0.0 && NoneSucceeded(requests)) || exists i :: Holds(c, requests, i)
  }

  lemma FetchMirrors(c: Cache, requests: seq<Request>, fetch: Fetch, now: Time)
    requires Mirrors(c, requests)
    ensures Mirrors(FetchInto(c, fetch, now).0, requests + [Request(fetch, now)])
  {
    var r, after := FetchInto(c, fetch, now).0, requests + [Request(fetch, now)];
    if fetch.Fetched? {
      assert Holds(r, after, |requests|);
    } else if i :| Holds(c, requests, i) {
      assert Holds(r, after, i);
    }
  }

  lemma CallMirrors(c: Cache, requests: seq<Request>, call: Call)
    requires Mirrors(c, requests)
    ensures Mirrors(GetKey(c, call).0, requests + Requests(c, call))
  {
    var refreshed := Refreshed(c, call).0;
    var first := if Expired(c, call) then [Request(call.fetch, call.afterFetch)] else [];
    assert Mirrors(refreshed, requests + first) by {
      if Expired(c, call) {
        FetchMirrors(c, requests, call.fetch, call.afterFetch);
      } else {
        assert requests + first == requests;
      }
    }
    if Refetches(c, call) {
      var asking := refreshed.(lastRefetch := Some(call.atRefetch));
      if i :| Holds(refreshed, requests + first, i) {
        assert Holds(asking, requests + first, i);
      }
      FetchMirrors(asking, requests + first, call.refetch, call.afterRefetch);
      assert requests + Requests(c, call) == requests + first + [Request(call.refetch, call.afterRefetch)];
    } else {
      assert requests + Requests(c, call) == requests + first;
    }
  }

  /** After any calls the cache is the last answer, and runs out when that answer does. */
  lemma {:induction false} RunMirrors(calls: seq<Call>)
    ensures Mirrors(Run(EMPTY_CACHE, calls), AllRequests(EMPTY_CACHE, calls))
  {
    if calls != [] {
      var n := |calls| - 1;
      RunMirrors(calls[..n]);
      CallMirrors(Run(EMPTY_CACHE, calls[..n]), AllRequests(EMPTY_CACHE, calls[..n]), calls[n]);
    }
  }

  lemma ListsSnoc(before: seq<Entry>, last: Entry, kid: Kid, key: Key)
    requires kid != ""
    ensures Lists(before + [last], kid, key) <==> if last.kid == kid then last.key == key else Lists(before, kid, key)
  {
    var entries := before + [last];
    assert entries[|before|] == last && forall j :: 0 <= j < |before| ==> entries[j] == before[j];
    if last == Entry(kid, key) {
      assert LastFor(entries, |before|, kid, key);
    }
    forall i
      ensures last.kid != kid ==> (LastFor(entries, i, kid, key) <==> LastFor(before, i, kid, key))
      ensures last.kid == kid && LastFor(entries, i, kid, key) ==> last.key == key
    {
    }
  }

  lemma {:induction false} ListsIffMapped(entries: seq<Entry>, kid: Kid, key: Key)
    ensures Lists(entries, kid, key) <==> kid in KeyMap(entries) && KeyMap(entries)[kid] == key
  {
    if entries != [] {
      var n := |entries| - 1;
      ListsIffMapped(entries[..n], kid, key);
      if kid != "" {
        ListsSnoc(entries[..n], entries[n], kid, key);
        assert entries[..n] + [entries[n]] == entries;
      }
    }
  }

  lemma LastSuccessIsUnique(requests: seq<Request>, i: nat, j: nat)
    requires IsLastSuccess(requests, i) && IsLastSuccess(requests, j)
    ensures i == j
  {
  }

  lemma OneMoreCall(calls: seq<Call>, call: Call)
    ensures Run(EMPTY_CACHE, calls + [call]) == GetKey(Run(EMPTY_CACHE, calls), call).0
    ensures AllRequests(EMPTY_CACHE, calls + [call]) ==
            AllRequests(EMPTY_CACHE, calls) + Requests(Run(EMPTY_CACHE, calls), call)
  {
    assert (calls + [call])[..|calls|] == calls;
  }

  // ------------------------------------------------------------------- what a verdict owes to the requests

  /**
    An accepted key is listed by the last answer that came in; and this call asked for that answer
    itself, or the answer is still within its max-age, or the call asked again and got none.
   */
  lemma AcceptedKeyIsFresh(calls: seq<Call>, call: Call) returns (i: nat)
    requires GetKey(Run(EMPTY_CACHE, calls), call).1.Ok?
    ensures var before, all := AllRequests(EMPTY_CACHE, calls), AllRequests(EMPTY_CACHE, calls + [call]);
            && before <= all && IsLastSuccess(all, i)
            && Lists(all[i].answer.entries, call.kid, GetKey(Run(EMPTY_CACHE, calls), call).1.value)
            && (|before| <= i || Fresh(all[i], call.atExpiryCheck) || |before| < |all|)
  {
    var c := Run(EMPTY_CACHE, calls);
    var before, all := AllRequests(EMPTY_CACHE, calls), AllRequests(EMPTY_CACHE, calls + [call]);
    OneMoreCall(calls, call);
    RunMirrors(calls);
    RunMirrors(calls + [call]);
    i :| Holds(GetKey(c, call).0, all, i);
    ListsIffMapped(all[i].answer.entries, call.kid, GetKey(c, call).1.value);
    if |before| == |all| {
      assert GetKey(c, call).0 == c;
    }
  }

  /**
    For an id the last answer lists, a call asks again if and only if that answer has run out;
    until then the id resolves to the key listed.
   */
  lemma AsksIffRunOut(calls: seq<Call>, call: Call, i: nat, key: Key)
    requires var before := AllRequests(EMPTY_CACHE, calls);
             IsLastSuccess(before, i) && Lists(before[i].answer.entries, call.kid, key)
    ensures var before, all := AllRequests(EMPTY_CACHE, calls), AllRequests(EMPTY_CACHE, calls + [call]);
            && (all == before <==> Fresh(before[i], call.atExpiryCheck))
            && (all == before ==> GetKey(Run(EMPTY_CACHE, calls), call).1 == Ok(key))
  {
    var c, before := Run(EMPTY_CACHE, calls), AllRequests(EMPTY_CACHE, calls);
    OneMoreCall(calls, call);
    RunMirrors(calls);
    var h :| Holds(c, before, h);
    LastSuccessIsUnique(before, i, h);
    ListsIffMapped(before[i].answer.entries, call.kid, key);
    assert call.atExpiryCheck < c.expiresAt <==> Fresh(before[i], call.atExpiryCheck);
    assert |before + Requests(c, call)| == |before| + |Requests(c, call)|;
  }

  /** As long as no request has succeeded every call asks; time starts at zero. */
  lemma AsksUntilAnswered(calls: seq<Call>, call: Call)
    requires NoneSucceeded(AllRequests(EMPTY_CACHE, calls)) && call.atExpiryCheck >= 0.0
    ensures AllRequests(EMPTY_CACHE, calls) < AllRequests(EMPTY_CACHE, calls + [call])
  {
    OneMoreCall(calls, call);
    RunMirrors(calls);
  }

  lemma RefetchTimesSnoc(calls: seq<Call>, call: Call)
    ensures RefetchTimes(EMPTY_CACHE, calls + [call]) ==
            if Refetches(Run(EMPTY_CACHE, calls), call) then RefetchTimes(EMPTY_CACHE, calls) + [call.atRefetch]
            else RefetchTimes(EMPTY_CACHE, calls)
  {
    assert (calls + [call])[..|calls|] == calls;
  }

  lemma TurnedAway(c: Cache, call: Call)
    requires GetKey(c, call).1 == Err(UnknownKey) && !Refetches(c, call)
    ensures c.lastRefetch.Some? && call.atRefetchCheck - c.lastRefetch.value < 60.0
  {
  }

  /**
    An id is turned away as unknown only after asking: this call has just refetched, or a refetch was
    recorded less than a minute ago.
   */
  lemma UnknownOnlyAfterAsking(calls: seq<Call>, call: Call)
    requires InOrder(calls)
    requires GetKey(Run(EMPTY_CACHE, calls), call).1 == Err(UnknownKey)
    ensures var before, all := RefetchTimes(EMPTY_CACHE, calls), RefetchTimes(EMPTY_CACHE, calls + [call]);
            || all == before + [call.atRefetch]
            || (before != [] && call.atRefetchCheck - before[|before| - 1] < 60.0)
  {
    RefetchTimesSnoc(calls, call);
    if !Refetches(Run(EMPTY_CACHE, calls), call) {
      RefetchesAreSpaced(calls);
      TurnedAway(Run(EMPTY_CACHE, calls), call);
    }
  }

  /** No id resolves: nothing has been answered, or the last answer lists no key with an id. */
  ghost predicate NothingListed(requests: seq<Request>) {
    forall i: nat, kid, key | IsLastSuccess(requests, i) :: !Lists(requests[i].answer.entries, kid, key)
  }

  /** A call reports that keys cannot be had if and only if its last request failed and nothing usable is cached. */
  lemma UnavailableIff(calls: seq<Call>, call: Call)
    ensures var before, all := AllRequests(EMPTY_CACHE, calls), AllRequests(EMPTY_CACHE, calls + [call]);
            GetKey(Run(EMPTY_CACHE, calls), call).1 == Err(AuthUnavailable) <==>
            && |before| < |all| && all[|all| - 1].answer.Unavailable?
            && NothingListed(all)
  {
    var c, all := Run(EMPTY_CACHE, calls), AllRequests(EMPTY_CACHE, calls + [call]);
    var after := GetKey(c, call).0;
    OneMoreCall(calls, call);
    RunMirrors(calls + [call]);
    EmptyIffNothingListed(after, all);
    VerdictOfCall(c, call);
  }

  lemma EmptyIffNothingListed(c: Cache, requests: seq<Request>)
    requires Mirrors(c, requests)
    ensures c.keys == map[] <==> NothingListed(requests)
  {
    if h: nat :| Holds(c, requests, h) {
      forall kid, key
        ensures Lists(requests[h].answer.entries, kid, key) <==> kid in c.keys && c.keys[kid] == key
      {
        ListsIffMapped(requests[h].answer.entries, kid, key);
      }
      if c.keys != map[] {
        var kid :| kid in c.keys;
        assert Lists(requests[h].answer.entries, kid, c.keys[kid]);
      }
    }
  }

  lemma VerdictOfCall(c: Cache, call: Call)
    ensures var requests := Requests(c, call);
            GetKey(c, call).1 == Err(AuthUnavailable) <==>
            requests != [] && requests[|requests| - 1].answer.Unavailable? && GetKey(c, call).0.keys == map[]
  {
  }
}
