/** app.py `handle_chat_query` with its idempotency cache. */
module Idempotency {
  import opened Text
  import opened Ordering

  const TTL := 60.0

  datatype Envelope = Envelope(code: string, traceId: string, body: string)

  datatype Payload = Payload(locale: string, question: string, role: string, sessionId: string, userId: string)

  /** `_fingerprint` lists all five fields, so two bodies have one fingerprint exactly when they are equal. */
  function Fingerprint(p: Payload): seq<(string, string)> {
    [("locale", p.locale), ("question", p.question), ("role", p.role), ("session_id", p.sessionId),
     ("user_id", p.userId)]
  }

  datatype Entry = Entry(fingerprint: seq<(string, string)>, envelope: Envelope, expiresAt: real)

  type CacheKey = (string, string)

  /** One call. `limited` is what the rate limiter said; `checkAt` and `storeAt` are the clock readings at the
      cache check and after the orchestrator; `answer` is what the orchestrator would give, None if it raises. */
  datatype Call = Call(
    payload: Payload,
    key: Option<string>,
    limited: Option<Envelope>,
    checkAt: real,
    storeAt: real,
    answer: Option<Envelope>)

  datatype Outcome = RateLimited(envelope: Envelope) | FromCache(envelope: Envelope) | Conflict(traceId: string)
                   | Answered(envelope: Envelope) | Raised

  /** The orchestrator was reached. */
  predicate Reached(o: Outcome) { o.Answered? || o.Raised? }

  function KeyOf(c: Call): CacheKey
    requires c.key.Some?
  {
    (c.payload.userId, c.key.value)
  }

  predicate Stores(c: Call, o: Outcome) { c.key.Some? && o.Answered? }

  function EntryOf(c: Call, o: Outcome): Entry
    requires Stores(c, o)
  {
    Entry(Fingerprint(c.payload), o.envelope, c.storeAt + TTL)
  }

  // ---- The simple form: a call is answered from the whole history ----

  /** The entry of the latest call that stored something under `k`. */
  function LastStored(calls: seq<Call>, outcomes: seq<Outcome>, k: CacheKey): Option<Entry>
    requires |calls| == |outcomes|
  {
    if calls == [] then None
    else
      var n := |calls| - 1;
      if Stores(calls[n], outcomes[n]) && KeyOf(calls[n]) == k then Some(EntryOf(calls[n], outcomes[n]))
      else LastStored(calls[..n], outcomes[..n], k)
  }

  function Fresh(c: Call): Outcome {
    if c.answer.Some? then Answered(c.answer.value) else Raised
  }

  function Expected(calls: seq<Call>, outcomes: seq<Outcome>, c: Call): Outcome
    requires |calls| == |outcomes|
  {
    if c.limited.Some? then RateLimited(c.limited.value)
    else if c.key.None? then Fresh(c)
    else
      match LastStored(calls, outcomes, KeyOf(c))
      case None => Fresh(c)
      case Some(e) =>
        if e.expiresAt < c.checkAt then Fresh(c)
        else if e.fingerprint != Fingerprint(c.payload) then Conflict(e.envelope.traceId)
        else FromCache(e.envelope)
  }

  ghost predicate Clocked(calls: seq<Call>) {
    && (forall i :: 0 <= i < |calls| ==> calls[i].checkAt <= calls[i].storeAt)
    && (forall i, j :: 0 <= i < j < |calls| ==> calls[i].storeAt <= calls[j].checkAt)
  }

  /** A run of the handler: every outcome is the expected one. */
  ghost predicate IsRun(calls: seq<Call>, outcomes: seq<Outcome>) {
    && |calls| == |outcomes| && Clocked(calls)
    && forall i :: 0 <= i < |calls| ==> outcomes[i] == Expected(calls[..i], outcomes[..i], calls[i])
  }

  // ---- The handler ----

  /** The cache may have dropped an entry only after that entry expired. */
  ghost predicate CacheAgrees(cache: map<CacheKey, Entry>, calls: seq<Call>, outcomes: seq<Outcome>, now: real) {
    && |calls| == |outcomes|
    && forall k :: if k in cache then LastStored(calls, outcomes, k) == Some(cache[k])
                   else LastStored(calls, outcomes, k) == None || LastStored(calls, outcomes, k).value.expiresAt < now
  }

  lemma HistoryGrows(calls: seq<Call>, outcomes: seq<Outcome>, c: Call, o: Outcome, k: CacheKey)
    requires |calls| == |outcomes|
    ensures LastStored(calls + [c], outcomes + [o], k)
         == if Stores(c, o) && KeyOf(c) == k then Some(EntryOf(c, o)) else LastStored(calls, outcomes, k)
  {
    assert (calls + [c])[..|calls + [c]| - 1] == calls;
    assert (outcomes + [o])[..|outcomes + [o]| - 1] == outcomes;
  }

  lemma RunGrows(calls: seq<Call>, outcomes: seq<Outcome>, c: Call)
    requires IsRun(calls, outcomes) && c.checkAt <= c.storeAt && (calls != [] ==> Last(calls).storeAt <= c.checkAt)
    ensures IsRun(calls + [c], outcomes + [Expected(calls, outcomes, c)])
  {
    var calls', outcomes' := calls + [c], outcomes + [Expected(calls, outcomes, c)];
    forall i | 0 <= i < |calls'| ensures outcomes'[i] == Expected(calls'[..i], outcomes'[..i], calls'[i]) {
      if i < |calls| {
        assert calls'[..i] == calls[..i] && outcomes'[..i] == outcomes[..i];
      } else {
        assert calls'[..i] == calls && outcomes'[..i] == outcomes;
      }
    }
    forall i, j | 0 <= i < j < |calls'| ensures calls'[i].storeAt <= calls'[j].checkAt {
      if j == |calls| && i < |calls| - 1 {
        assert calls[i].storeAt <= Last(calls).checkAt;
      }
    }
  }

  /** What the handler's cache operations do to the dictionary. */
  function CacheAfter(cache: map<CacheKey, Entry>, c: Call, o: Outcome): map<CacheKey, Entry> {
    if c.key.None? || o.RateLimited? || o.FromCache? || o.Conflict? then cache
    else if o.Answered? then cache[KeyOf(c) := EntryOf(c, o)]
    else cache - {KeyOf(c)}
  }

  lemma CacheStep(cache: map<CacheKey, Entry>, calls: seq<Call>, outcomes: seq<Outcome>, c: Call, before: real)
    requires CacheAgrees(cache, calls, outcomes, before) && before <= c.checkAt <= c.storeAt
    ensures CacheAgrees(CacheAfter(cache, c, Expected(calls, outcomes, c)), calls + [c],
                        outcomes + [Expected(calls, outcomes, c)], c.storeAt)
  {
    var o := Expected(calls, outcomes, c);
    forall k
      ensures var cache' := CacheAfter(cache, c, o);
              var last := LastStored(calls + [c], outcomes + [o], k);
              if k in cache' then last == Some(cache'[k]) else last == None || last.value.expiresAt < c.storeAt
    {
      HistoryGrows(calls, outcomes, c, o, k);
    }
  }

  class ChatHandler {
    var cache: map<CacheKey, Entry>
    ghost var calls: seq<Call>
    ghost var outcomes: seq<Outcome>

    ghost predicate Valid()
      reads this
    {
      && IsRun(calls, outcomes)
      && if calls == [] then cache == map[] else CacheAgrees(cache, calls, outcomes, Last(calls).storeAt)
    }

    constructor ()
      ensures Valid() && calls == [] && outcomes == []
    {
      cache, calls, outcomes := map[], [], [];
    }

    /** `_get_cached_query`: a missing or expired entry is popped; None means that there is nothing to return. */
    method GetCached(c: Call) returns (cached: Option<Outcome>)
      modifies this`cache
      ensures c.key.None? ==> cached == None && cache == old(cache)
      ensures c.key.Some? ==>
                var k := KeyOf(c);
                if k !in old(cache) || old(cache)[k].expiresAt < c.checkAt
                then cached == None && cache == old(cache) - {k}
                else cache == old(cache)
                     && cached == Some(if old(cache)[k].fingerprint != Fingerprint(c.payload)
                                       then Conflict(old(cache)[k].envelope.traceId)
                                       else FromCache(old(cache)[k].envelope))
    {
      if c.key.None? {
        return None;
      }
      var k := KeyOf(c);
      if k !in cache || cache[k].expiresAt < c.checkAt {
        cache := cache - {k};
        return None;
      }
      if cache[k].fingerprint != Fingerprint(c.payload) {
        return Some(Conflict(cache[k].envelope.traceId));
      }
      return Some(FromCache(cache[k].envelope));
    }

    method HandleChatQuery(c: Call) returns (o: Outcome)
      requires Valid() && c.checkAt <= c.storeAt && (calls != [] ==> Last(calls).storeAt <= c.checkAt)
      modifies this
      ensures Valid() && calls == old(calls) + [c] && outcomes == old(outcomes) + [o]
      ensures o == Expected(old(calls), old(outcomes), c)
      ensures cache == CacheAfter(old(cache), c, o)
    {
      RunGrows(calls, outcomes, c);
      assert CacheAgrees(cache, calls, outcomes, if calls == [] then c.checkAt else Last(calls).storeAt);
      CacheStep(cache, calls, outcomes, c, if calls == [] then c.checkAt else Last(calls).storeAt);
      ghost var before := cache;
      o := ServeCall(c);
      assert o == Expected(calls, outcomes, c);
      calls, outcomes := calls + [c], outcomes + [o];
    }

    /** The body of the handler, without the bookkeeping of the history. */
    method ServeCall(c: Call) returns (o: Outcome)
      modifies this`cache
      ensures c.limited.Some? ==> o == RateLimited(c.limited.value)
      ensures c.limited.None?
              && (c.key.None? || KeyOf(c) !in old(cache) || old(cache)[KeyOf(c)].expiresAt < c.checkAt) ==>
                o == Fresh(c)
      ensures c.limited.None? && c.key.Some? && KeyOf(c) in old(cache)
              && old(cache)[KeyOf(c)].expiresAt >= c.checkAt ==>
                o == if old(cache)[KeyOf(c)].fingerprint != Fingerprint(c.payload)
                     then Conflict(old(cache)[KeyOf(c)].envelope.traceId) else FromCache(old(cache)[KeyOf(c)].envelope)
      ensures cache == CacheAfter(old(cache), c, o)
    {
      if c.limited.Some? {
        return RateLimited(c.limited.value);
      }
      var cached := GetCached(c);
      if cached.Some? {
        return cached.value;
      }
      if c.answer.None? {
        return Raised;
      }
      o := Answered(c.answer.value);
      if c.key.Some? {
        cache := cache[KeyOf(c) := Entry(Fingerprint(c.payload), c.answer.value, c.storeAt + TTL)];
      }
    }
  }

  // ---- For a minute after an answer is stored, its key never reaches the orchestrator again ----

  lemma {:induction false} EntrySurvives(calls: seq<Call>, outcomes: seq<Outcome>, i: nat, m: nat)
    requires IsRun(calls, outcomes) && i < m <= |calls| && Stores(calls[i], outcomes[i])
    requires forall n :: i < n < m ==> calls[n].checkAt <= calls[i].storeAt + 60.0
    ensures LastStored(calls[..m], outcomes[..m], KeyOf(calls[i])) == Some(EntryOf(calls[i], outcomes[i]))
  {
    var n := m - 1;
    assert calls[..m][..n] == calls[..n] && outcomes[..m][..n] == outcomes[..n];
    if n > i {
      EntrySurvives(calls, outcomes, i, n);
      assert outcomes[n] == Expected(calls[..n], outcomes[..n], calls[n]);
    }
  }

  /** After call `i` stored an answer under (user, key), a later call `j` with the same user and key whose cache
      check falls within the next 60 seconds never reaches the orchestrator. If it is not rate limited it gets
      the identical envelope for the same body, and a conflict for any other body; and the entry, with its
      expiry, is still the one that call `i` stored. */
  lemma StoredAnswerIsReplayed(calls: seq<Call>, outcomes: seq<Outcome>, i: nat, j: nat)
    requires IsRun(calls, outcomes) && i < j < |calls| && Stores(calls[i], outcomes[i])
    requires calls[j].key == calls[i].key && calls[j].payload.userId == calls[i].payload.userId
    requires calls[j].checkAt <= calls[i].storeAt + 60.0
    ensures !Reached(outcomes[j])
    ensures calls[j].limited.None? ==>
              outcomes[j] == if calls[j].payload == calls[i].payload then FromCache(outcomes[i].envelope)
                             else Conflict(outcomes[i].envelope.traceId)
    ensures LastStored(calls[..j + 1], outcomes[..j + 1], KeyOf(calls[i])) == Some(EntryOf(calls[i], outcomes[i]))
    ensures EntryOf(calls[i], outcomes[i]).envelope == outcomes[i].envelope
            && EntryOf(calls[i], outcomes[i]).expiresAt == calls[i].storeAt + 60.0
  {
    forall n | i < n < j ensures calls[n].checkAt <= calls[i].storeAt + 60.0 {
      assert calls[n].checkAt <= calls[n].storeAt <= calls[j].checkAt;
    }
    EntrySurvives(calls, outcomes, i, j);
    EntrySurvives(calls, outcomes, i, j + 1);
    assert outcomes[j] == Expected(calls[..j], outcomes[..j], calls[j]);
    SameFingerprint(calls[i].payload, calls[j].payload);
  }

  lemma SameFingerprint(a: Payload, b: Payload)
    ensures Fingerprint(a) == Fingerprint(b) <==> a == b
  {
    if Fingerprint(a) == Fingerprint(b) {
      assert Fingerprint(a)[0] == Fingerprint(b)[0] && Fingerprint(a)[1] == Fingerprint(b)[1]
          && Fingerprint(a)[2] == Fingerprint(b)[2] && Fingerprint(a)[3] == Fingerprint(b)[3]
          && Fingerprint(a)[4] == Fingerprint(b)[4];
    }
  }

  /** The first call with that key after the minute is over reaches the orchestrator again, if it is not rate
      limited. */
  lemma ExpiredAnswerIsRecomputed(calls: seq<Call>, outcomes: seq<Outcome>, i: nat, j: nat)
    requires IsRun(calls, outcomes) && i < j < |calls| && Stores(calls[i], outcomes[i])
    requires calls[j].key == calls[i].key && calls[j].payload.userId == calls[i].payload.userId
    requires calls[j].checkAt > calls[i].storeAt + 60.0 && calls[j].limited.None?
    requires forall n :: i < n < j ==> !(Stores(calls[n], outcomes[n]) && KeyOf(calls[n]) == KeyOf(calls[i]))
    ensures Reached(outcomes[j])
  {
    LastStoredSkips(calls, outcomes, i, j);
    assert outcomes[j] == Expected(calls[..j], outcomes[..j], calls[j]);
  }

  lemma {:induction false} LastStoredSource(calls: seq<Call>, outcomes: seq<Outcome>, k: CacheKey) returns (i: nat)
    requires |calls| == |outcomes| && LastStored(calls, outcomes, k).Some?
    ensures i < |calls| && Stores(calls[i], outcomes[i]) && KeyOf(calls[i]) == k
    ensures LastStored(calls, outcomes, k) == Some(EntryOf(calls[i], outcomes[i]))
  {
    var n := |calls| - 1;
    if Stores(calls[n], outcomes[n]) && KeyOf(calls[n]) == k {
      i := n;
    } else {
      i := LastStoredSource(calls[..n], outcomes[..n], k);
    }
  }

  /** Nothing is replayed that was not stored: an answer from the cache is the envelope that an earlier call of the
      same user with the same key and the same body got from the orchestrator at most 60 seconds before, and a
      conflict names the trace of such a call with another body. */
  lemma CachedAnswerHasSource(calls: seq<Call>, outcomes: seq<Outcome>, j: nat) returns (i: nat)
    requires IsRun(calls, outcomes) && j < |calls| && (outcomes[j].FromCache? || outcomes[j].Conflict?)
    ensures i < j && calls[j].key.Some? && calls[i].key == calls[j].key
    ensures calls[i].payload.userId == calls[j].payload.userId
    ensures outcomes[i].Answered? && calls[j].checkAt <= calls[i].storeAt + 60.0
    ensures outcomes[j] == if calls[i].payload == calls[j].payload then FromCache(outcomes[i].envelope)
                           else Conflict(outcomes[i].envelope.traceId)
  {
    assert outcomes[j] == Expected(calls[..j], outcomes[..j], calls[j]);
    i := LastStoredSource(calls[..j], outcomes[..j], KeyOf(calls[j]));
    SameFingerprint(calls[i].payload, calls[j].payload);
  }

  /** A rate-limited call gets the limiter's envelope and nothing else does; a call without a key, or whose user never
      stored an answer under its key, gets what the orchestrator gives. */
  lemma UncachedCalls(calls: seq<Call>, outcomes: seq<Outcome>, j: nat)
    requires IsRun(calls, outcomes) && j < |calls|
    ensures outcomes[j].RateLimited? <==> calls[j].limited.Some?
    ensures calls[j].limited.Some? ==> outcomes[j] == RateLimited(calls[j].limited.value)
    ensures calls[j].limited == None
            && (calls[j].key == None
                || forall i :: 0 <= i < j && calls[i].key == calls[j].key && outcomes[i].Answered? ==>
                     calls[i].payload.userId != calls[j].payload.userId) ==>
              outcomes[j] == match calls[j].answer case Some(envelope) => Answered(envelope) case None => Raised
  {
    assert outcomes[j] == Expected(calls[..j], outcomes[..j], calls[j]);
    if calls[j].key.Some? && LastStored(calls[..j], outcomes[..j], KeyOf(calls[j])).Some? {
      var i := LastStoredSource(calls[..j], outcomes[..j], KeyOf(calls[j]));
    }
  }

  lemma {:induction false} LastStoredSkips(calls: seq<Call>, outcomes: seq<Outcome>, i: nat, m: nat)
    requires |calls| == |outcomes| && i < m <= |calls| && Stores(calls[i], outcomes[i])
    requires forall n :: i < n < m ==> !(Stores(calls[n], outcomes[n]) && KeyOf(calls[n]) == KeyOf(calls[i]))
    ensures LastStored(calls[..m], outcomes[..m], KeyOf(calls[i])) == Some(EntryOf(calls[i], outcomes[i]))
  {
    var n := m - 1;
    assert calls[..m][..n] == calls[..n] && outcomes[..m][..n] == outcomes[..n];
    if n > i {
      LastStoredSkips(calls, outcomes, i, n);
    }
  }
}
