/**
  The process-level cache of published signing keys (sections 4.5 and 5 of RFC 7517), kept for
  as long as the response's max-age allows (section 5.2.2.1 of RFC 9111).
 */
module KeyCache {
  import opened Wrappers

  type Kid = string
  type Key = int
  type Time = real

  const DEFAULT_MAX_AGE: Time := 300.0
  const REFETCH_MIN_INTERVAL: Time := 60.0

  /** A published key; an entry without a key id has the empty one. */
  datatype Entry = Entry(kid: Kid, key: Key)

  /** The outcome of one request; no max-age means the header was absent or unreadable. */
  datatype Fetch = Unavailable | Fetched(entries: seq<Entry>, maxAge: Option<nat>)

  datatype Error = AuthUnavailable | UnknownKey

  /** The globals; no recorded refetch stands for minus infinity. */
  datatype Cache = Cache(keys: map<Kid, Key>, expiresAt: Time, lastRefetch: Option<Time>)

  const EMPTY_CACHE := Cache(map[], 0.0, None)

  /** The keys by id: entries without an id are dropped, a repeated id keeps its last key. */
  function KeyMap(entries: seq<Entry>): map<Kid, Key> {
    if entries == [] then map[]
    else
      var last := entries[|entries| - 1];
      var before := KeyMap(entries[..|entries| - 1]);
      if last.kid == "" then before else before[last.kid := last.key]
  }

  function Lifetime(maxAge: Option<nat>): Time {
    if maxAge.None? then DEFAULT_MAX_AGE else maxAge.value as real
  }

  /** A failed request is an error only when nothing is cached. */
  function FetchInto(c: Cache, fetch: Fetch, now: Time): (Cache, bool) {
    match fetch
    case Unavailable => (c, c.keys != map[])
    case Fetched(entries, maxAge) => (c.(keys := KeyMap(entries), expiresAt := now + Lifetime(maxAge)), true)
  }

  /** The clock readings of one call, in the order they are taken, and what its requests would return. */
  datatype Call = Call(kid: Kid, atExpiryCheck: Time, afterFetch: Time, atRefetchCheck: Time, atRefetch: Time,
                       afterRefetch: Time, fetch: Fetch, refetch: Fetch)

  predicate Ordered(call: Call) {
    call.atExpiryCheck <= call.afterFetch <= call.atRefetchCheck <= call.atRefetch <= call.afterRefetch
  }

  predicate Expired(c: Cache, call: Call) {
    call.atExpiryCheck >= c.expiresAt
  }

  /** The cache once expiry has been dealt with, and whether the call may go on. */
  function Refreshed(c: Cache, call: Call): (Cache, bool) {
    if Expired(c, call) then FetchInto(c, call.fetch, call.afterFetch) else (c, true)
  }

  predicate MayRefetch(c: Cache, call: Call) {
    c.lastRefetch.None? || call.atRefetchCheck - c.lastRefetch.value >= REFETCH_MIN_INTERVAL
  }

  predicate Refetches(c: Cache, call: Call) {
    var (renewed, ok) := Refreshed(c, call);
    ok && call.kid !in renewed.keys && MayRefetch(renewed, call)
  }

  function GetKey(c: Cache, call: Call): (Cache, Result<Key, Error>) {
    var (refreshed, ok) := Refreshed(c, call);
    if !ok then (refreshed, Err(AuthUnavailable))
    else if call.kid in refreshed.keys then (refreshed, Ok(refreshed.keys[call.kid]))
    else if !MayRefetch(refreshed, call) then (refreshed, Err(UnknownKey))
    else
      var asking := refreshed.(lastRefetch := Some(call.atRefetch));
      var (refetched, again) := FetchInto(asking, call.refetch, call.afterRefetch);
      if !again then (refetched, Err(AuthUnavailable))
      else if call.kid in refetched.keys then (refetched, Ok(refetched.keys[call.kid]))
      else (refetched, Err(UnknownKey))
  }

  /** The requests one call really makes, in order, each with the time its answer was in. */
  datatype Request = Request(answer: Fetch, at: Time)

  function Requests(c: Cache, call: Call): seq<Request> {
    (if Expired(c, call) then [Request(call.fetch, call.afterFetch)] else [])
    + (if Refetches(c, call) then [Request(call.refetch, call.afterRefetch)] else [])
  }

  /** The cache as the process holds it. */
  class Holder {
    var keys: map<Kid, Key>
    var expiresAt: Time
    var lastRefetch: Option<Time>
    /** Every request made so far. */
    ghost var made: seq<Request>

    ghost function Snapshot(): Cache
      reads this
    {
      Cache(keys, expiresAt, lastRefetch)
    }

    constructor ()
      ensures Snapshot() == EMPTY_CACHE && made == []
    {
      keys, expiresAt, lastRefetch, made := map[], 0.0, None, [];
    }

    method FetchIntoCache(fetch: Fetch, now: Time) returns (ok: bool)
      modifies this`keys, this`expiresAt, this`made
      ensures (Snapshot(), ok) == FetchInto(old(Snapshot()), fetch, now)
      ensures made == old(made) + [Request(fetch, now)]
    {
      made := made + [Request(fetch, now)];
      if fetch.Unavailable? {
        return keys != map[];
      }
      var byId: map<Kid, Key> := map[];
      for i := 0 to |fetch.entries|
        invariant keys == old(keys) && expiresAt == old(expiresAt) && made == old(made) + [Request(fetch, now)]
        invariant byId == KeyMap(fetch.entries[..i])
      {
        assert fetch.entries[..i + 1][..i] == fetch.entries[..i];
        if fetch.entries[i].kid != "" {
          byId := byId[fetch.entries[i].kid := fetch.entries[i].key];
        }
      }
      assert fetch.entries[..|fetch.entries|] == fetch.entries;
      keys := byId;
      expiresAt := now + Lifetime(fetch.maxAge);
      ok := true;
    }

    method Resolve(call: Call) returns (result: Result<Key, Error>)
      modifies this
      ensures (Snapshot(), result) == GetKey(old(Snapshot()), call)
      ensures made == old(made) + Requests(old(Snapshot()), call)
    {
      if call.atExpiryCheck >= expiresAt {
        var ok := FetchIntoCache(call.fetch, call.afterFetch);
        if !ok {
          return Err(AuthUnavailable);
        }
      }
      var key := if call.kid in keys then Some(keys[call.kid]) else None;
      if key.None? && (lastRefetch.None? || call.atRefetchCheck - lastRefetch.value >= REFETCH_MIN_INTERVAL) {
        lastRefetch := Some(call.atRefetch);
        var ok := FetchIntoCache(call.refetch, call.afterRefetch);
        if !ok {
          return Err(AuthUnavailable);
        }
        key := if call.kid in keys then Some(keys[call.kid]) else None;
      }
      result := if key.None? then Err(UnknownKey) else Ok(key.value);
    }
  }

  // ------------------------------------------------------------------------ runs

  function Run(c: Cache, calls: seq<Call>): Cache {
    if calls == [] then c else GetKey(Run(c, calls[..|calls| - 1]), calls[|calls| - 1]).0
  }

  /** Calls hold a lock, so each starts after the one before has taken its last reading. */
  ghost predicate InOrder(calls: seq<Call>) {
    && (forall i :: 0 <= i < |calls| ==> Ordered(calls[i]))
    && (forall i, j :: 0 <= i < j < |calls| ==> calls[i].afterRefetch <= calls[j].atExpiryCheck)
  }

  function AllRequests(c: Cache, calls: seq<Call>): seq<Request> {
    if calls == [] then []
    else
      var n := |calls| - 1;
      AllRequests(c, calls[..n]) + Requests(Run(c, calls[..n]), calls[n])
  }

  /** The key set of the last request that succeeded; `before` if none did. */
  function LastFetched(before: map<Kid, Key>, requests: seq<Request>): map<Kid, Key> {
    if requests == [] then before
    else
      match requests[|requests| - 1].answer
      case Unavailable => LastFetched(before, requests[..|requests| - 1])
      case Fetched(entries, _) => KeyMap(entries)
  }

  lemma {:induction false} LastFetchedAppend(before: map<Kid, Key>, a: seq<Request>, b: seq<Request>)
    ensures LastFetched(before, a + b) == LastFetched(LastFetched(before, a), b)
  {
    if b == [] {
      assert a + b == a;
    } else {
      assert (a + b)[..|a + b| - 1] == a + b[..|b| - 1];
      LastFetchedAppend(before, a, b[..|b| - 1]);
    }
  }

  lemma CallKeepsLastFetched(c: Cache, call: Call)
    ensures GetKey(c, call).0.keys == LastFetched(c.keys, Requests(c, call))
  {
    var first := if Expired(c, call) then [Request(call.fetch, call.afterFetch)] else [];
    var second := if Refetches(c, call) then [Request(call.refetch, call.afterRefetch)] else [];
    LastFetchedAppend(c.keys, first, second);
    assert forall r: Request :: [r][..0] == [];
  }

  /** The cache is always exactly the key set of the last request that succeeded. */
  lemma {:induction false} CacheIsLastFetched(calls: seq<Call>)
    ensures Run(EMPTY_CACHE, calls).keys == LastFetched(map[], AllRequests(EMPTY_CACHE, calls))
  {
    if calls != [] {
      var n := |calls| - 1;
      var c := Run(EMPTY_CACHE, calls[..n]);
      CacheIsLastFetched(calls[..n]);
      CallKeepsLastFetched(c, calls[n]);
      LastFetchedAppend(map[], AllRequests(EMPTY_CACHE, calls[..n]), Requests(c, calls[n]));
    }
  }

  /**
    A call accepts a key only if it is that set's key for the id, and refuses every id the set
    no longer lists.
   */
  lemma AcceptsOnlyLastFetched(calls: seq<Call>, call: Call)
    ensures var listed := LastFetched(map[], AllRequests(EMPTY_CACHE, calls + [call]));
            var result := GetKey(Run(EMPTY_CACHE, calls), call).1;
            && (result.Ok? ==> call.kid in listed && result.value == listed[call.kid])
            && (call.kid !in listed ==> result.Err?)
            && (result == Err(UnknownKey) ==> call.kid !in listed)
  {
    assert (calls + [call])[..|calls|] == calls;
    CacheIsLastFetched(calls + [call]);
  }

  /** What a key id stands for in a published set: its last entry. */
  lemma {:induction false} KeyMapEntry(entries: seq<Entry>, kid: Kid)
    ensures kid in KeyMap(entries) <==> kid != "" && exists i :: 0 <= i < |entries| && entries[i].kid == kid
    ensures forall i | 0 <= i < |entries| && entries[i].kid == kid && kid != "" ::
              (forall j :: i < j < |entries| ==> entries[j].kid != kid) ==> KeyMap(entries)[kid] == entries[i].key
  {
    if entries != [] {
      var n := |entries| - 1;
      var before := entries[..n];
      KeyMapEntry(before, kid);
      assert forall i :: 0 <= i < n ==> before[i] == entries[i];
    }
  }

  /** One call during an outage: a filled cache keeps its keys, and a known id resolves. */
  lemma OutageCall(c: Cache, call: Call)
    requires call.fetch.Unavailable? && call.refetch.Unavailable? && c.keys != map[]
    ensures GetKey(c, call).0.keys == c.keys && GetKey(c, call).0.expiresAt == c.expiresAt
    ensures call.kid in c.keys ==> GetKey(c, call) == (c, Ok(c.keys[call.kid]))
  {
  }

  /**
    However long an outage lasts and whatever tokens arrive, a filled cache keeps its keys: every
    known id resolves on every call, to the key it had, and no other id does.
   */
  lemma {:induction false} OutageIsSurvived(c: Cache, calls: seq<Call>, call: Call)
    requires forall i :: 0 <= i < |calls| ==> calls[i].fetch.Unavailable? && calls[i].refetch.Unavailable?
    requires call.fetch.Unavailable? && call.refetch.Unavailable? && c.keys != map[]
    ensures Run(c, calls).keys == c.keys && Run(c, calls).expiresAt == c.expiresAt
    ensures GetKey(Run(c, calls), call).1.Ok? <==> call.kid in c.keys
    ensures call.kid in c.keys ==> GetKey(Run(c, calls), call).1 == Ok(c.keys[call.kid])
    decreases |calls|
  {
    if calls != [] {
      var n := |calls| - 1;
      OutageIsSurvived(c, calls[..n], calls[n]);
      OutageCall(Run(c, calls[..n]), calls[n]);
    }
    OutageCall(Run(c, calls), call);
  }

  /**
    What an expired cache held is forgotten: if the request succeeds, the verdict and the new cache
    are those of any other expired cache, so no key it held is ever accepted again unless a request lists it.
   */
  lemma ExpiredKeysAreForgotten(c: Cache, d: Cache, call: Call)
    requires Expired(c, call) && Expired(d, call) && c.lastRefetch == d.lastRefetch && call.fetch.Fetched?
    ensures GetKey(c, call) == GetKey(d, call)
  {
  }

  // -------------------------------------------------------------------- refetches

  /** When refetches for unknown ids were recorded. */
  function RefetchTimes(c: Cache, calls: seq<Call>): seq<Time> {
    if calls == [] then []
    else
      var n := |calls| - 1;
      RefetchTimes(c, calls[..n]) + if Refetches(Run(c, calls[..n]), calls[n]) then [calls[n].atRefetch] else []
  }

  ghost predicate Spaced(times: seq<Time>) {
    forall i, j :: 0 <= i < j < |times| ==> times[i] + REFETCH_MIN_INTERVAL <= times[j]
  }

  /** A call either records a refetch, at least a minute after the one before, or leaves the record. */
  lemma RefetchStep(c: Cache, call: Call)
    requires Ordered(call)
    ensures GetKey(c, call).0.lastRefetch == if Refetches(c, call) then Some(call.atRefetch) else c.lastRefetch
    ensures Refetches(c, call) && c.lastRefetch.Some? ==> c.lastRefetch.value + REFETCH_MIN_INTERVAL <= call.atRefetch
  {
  }

  lemma SpacedSnoc(times: seq<Time>, t: Time)
    requires Spaced(times) && (times != [] ==> times[|times| - 1] + REFETCH_MIN_INTERVAL <= t)
    ensures Spaced(times + [t])
  {
    forall i, j | 0 <= i < j < |times + [t]|
      ensures (times + [t])[i] + REFETCH_MIN_INTERVAL <= (times + [t])[j]
    {
      if j == |times| && i < |times| - 1 {
        assert times[i] + REFETCH_MIN_INTERVAL <= times[|times| - 1];
      }
    }
  }

  lemma {:induction false} RefetchesAreSpaced(calls: seq<Call>)
    requires InOrder(calls)
    ensures var times := RefetchTimes(EMPTY_CACHE, calls);
            && Spaced(times)
            && Run(EMPTY_CACHE, calls).lastRefetch == if times == [] then None else Some(times[|times| - 1])
  {
    if calls != [] {
      var n := |calls| - 1;
      RefetchesAreSpaced(calls[..n]);
      RefetchStep(Run(EMPTY_CACHE, calls[..n]), calls[n]);
      if Refetches(Run(EMPTY_CACHE, calls[..n]), calls[n]) {
        SpacedSnoc(RefetchTimes(EMPTY_CACHE, calls[..n]), calls[n].atRefetch);
      }
    }
  }

  function CountWithin(times: seq<Time>, from: Time, to: Time): nat {
    if times == [] then 0
    else CountWithin(times[..|times| - 1], from, to) + if from <= times[|times| - 1] <= to then 1 else 0
  }

  lemma {:induction false} SpacedCount(times: seq<Time>, from: Time, to: Time)
    requires Spaced(times) && CountWithin(times, from, to) > 0
    ensures exists i :: 0 <= i < |times| && from <= times[i] <= to
                        && REFETCH_MIN_INTERVAL * (CountWithin(times, from, to) - 1) as real <= times[i] - from
  {
    var n := |times| - 1;
    var before := times[..n];
    assert forall i :: 0 <= i < n ==> before[i] == times[i];
    if CountWithin(before, from, to) > 0 {
      SpacedCount(before, from, to);
      var i :| 0 <= i < n && from <= before[i] <= to
               && REFETCH_MIN_INTERVAL * (CountWithin(before, from, to) - 1) as real <= before[i] - from;
      assert times[i] + REFETCH_MIN_INTERVAL <= times[n];
      if !(from <= times[n] <= to) {
        assert from <= times[i] <= to;
      }
    }
  }

  /** Any window of length `length` holds at most floor(length / 60) + 1 refetches, whatever tokens arrive. */
  lemma RefetchesAreRare(calls: seq<Call>, from: Time, length: Time)
    requires InOrder(calls) && length >= 0.0
    ensures CountWithin(RefetchTimes(EMPTY_CACHE, calls), from, from + length)
            <= (length / 60.0).Floor + 1
  {
    var times := RefetchTimes(EMPTY_CACHE, calls);
    RefetchesAreSpaced(calls);
    var count := CountWithin(times, from, from + length);
    if count > 0 {
      SpacedCount(times, from, from + length);
      assert (count - 1) as real <= length / REFETCH_MIN_INTERVAL;
    }
  }

  // --------------------------------------------------------------------- rotation

  /** Every request of this call that starts once `kid` is published, at `since`, succeeds and lists it. */
  ghost predicate Publishes(call: Call, kid: Kid, since: Time) {
    && (call.atExpiryCheck >= since ==> call.fetch.Fetched? && kid in KeyMap(call.fetch.entries))
    && (call.atRefetch >= since ==> call.refetch.Fetched? && kid in KeyMap(call.refetch.entries))
  }

  ghost predicate KeepsPublishing(calls: seq<Call>, kid: Kid, since: Time) {
    forall i :: 0 <= i < |calls| ==> Publishes(calls[i], kid, since)
  }

  /** A call after `since` keeps the id once cached, and a refetch after `since` caches it. */
  lemma PublishedStep(c: Cache, call: Call, kid: Kid, since: Time)
    requires Ordered(call) && Publishes(call, kid, since)
    ensures call.atExpiryCheck >= since && kid in c.keys ==> kid in GetKey(c, call).0.keys
    ensures call.atRefetch >= since && Refetches(c, call) ==> kid in GetKey(c, call).0.keys
  {
  }

  /** A refetch recorded since then has put the id in the cache, and no later request takes it out. */
  lemma {:induction false} RefetchLearns(calls: seq<Call>, kid: Kid, since: Time)
    requires InOrder(calls) && KeepsPublishing(calls, kid, since)
    ensures var c := Run(EMPTY_CACHE, calls);
            && (c.lastRefetch.Some? && c.lastRefetch.value >= since ==> kid in c.keys)
            && (c.lastRefetch.Some? ==> calls != [] && c.lastRefetch.value <= calls[|calls| - 1].afterRefetch)
  {
    if calls != [] {
      var n := |calls| - 1;
      var c := Run(EMPTY_CACHE, calls[..n]);
      RefetchLearns(calls[..n], kid, since);
      RefetchStep(c, calls[n]);
      PublishedStep(c, calls[n], kid, since);
      if n > 0 {
        assert calls[n - 1].afterRefetch <= calls[n].atExpiryCheck;
        assert calls[..n][n - 1] == calls[n - 1];
      }
    }
  }

  /** Rotation is seen within a minute: from `since` + 60 on, every call for the new id resolves. */
  lemma RotationIsSeen(calls: seq<Call>, call: Call, since: Time)
    requires InOrder(calls + [call]) && KeepsPublishing(calls + [call], call.kid, since)
    requires call.atExpiryCheck >= since + 60.0
    ensures GetKey(Run(EMPTY_CACHE, calls), call).1.Ok?
  {
    var all := calls + [call];
    assert forall i :: 0 <= i < |calls| ==> all[i] == calls[i];
    assert all[|calls|] == call;
    assert InOrder(calls);
    assert KeepsPublishing(calls, call.kid, since);
    RefetchLearns(calls, call.kid, since);
    assert Ordered(call);
  }
}
