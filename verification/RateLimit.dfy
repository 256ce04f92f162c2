/** rate_limit.py `InMemorySlidingWindowRateLimitStore` and app.py `_rate_limit_response`. */
module RateLimit {
  import opened Text

  const WINDOW := 60.0

  /** One call of `record_and_check_limited`. */
  datatype Call = Call(key: string, limit: int, now: real)

  /** The events of `events` less than 60 seconds older than `now`. */
  function Recent(events: seq<real>, now: real): seq<real> {
    if events == [] then []
    else (if now - events[0] < WINDOW then [events[0]] else []) + Recent(events[1..], now)
  }

  /** Every event ever recorded for `key`, never pruned: the simple form the store must agree with. */
  function FullHistory(calls: seq<Call>, key: string): seq<real> {
    if calls == [] then []
    else
      var n := |calls| - 1;
      var c, history := calls[n], FullHistory(calls[..n], key);
      if c.key == key && c.limit > 0 && |Recent(history, c.now)| < c.limit then history + [c.now] else history
  }

  /** Refused: a positive limit is already used up within the last 60 seconds. */
  predicate Limited(calls: seq<Call>, c: Call) {
    c.limit > 0 && |Recent(FullHistory(calls, c.key), c.now)| >= c.limit
  }

  /** Accepted and counted; a limit of 0 or less accepts without counting. */
  predicate Records(calls: seq<Call>, c: Call) {
    c.limit > 0 && |Recent(FullHistory(calls, c.key), c.now)| < c.limit
  }

  ghost predicate Monotone(calls: seq<Call>) {
    forall i, j :: 0 <= i <= j < |calls| ==> calls[i].now <= calls[j].now
  }

  // ---- Pruning loses nothing ----

  lemma {:induction false} RecentAppend(a: seq<real>, b: seq<real>, now: real)
    ensures Recent(a + b, now) == Recent(a, now) + Recent(b, now)
  {
    if a == [] {
      assert a + b == b;
    } else {
      assert (a + b)[1..] == a[1..] + b;
      RecentAppend(a[1..], b, now);
    }
  }

  lemma {:induction false} RecentOfRecent(events: seq<real>, earlier: real, now: real)
    requires earlier <= now
    ensures Recent(Recent(events, earlier), now) == Recent(events, now)
  {
    if events == [] {
    } else {
      RecentOfRecent(events[1..], earlier, now);
      RecentAppend(if earlier - events[0] < WINDOW then [events[0]] else [], Recent(events[1..], earlier), now);
    }
  }

  /** From `since` on, the pruned list and the full history have the same recent events. */
  ghost predicate Agrees(pruned: seq<real>, full: seq<real>, since: real) {
    forall now :: since <= now ==> Recent(pruned, now) == Recent(full, now)
  }

  lemma PruningAgrees(pruned: seq<real>, full: seq<real>, since: real, now: real)
    requires Agrees(pruned, full, since) && since <= now
    ensures Agrees(Recent(pruned, now), full, now)
  {
    forall later | now <= later ensures Recent(Recent(pruned, now), later) == Recent(full, later) {
      RecentOfRecent(pruned, now, later);
    }
  }

  lemma AppendingAgrees(pruned: seq<real>, full: seq<real>, since: real, event: real)
    requires Agrees(pruned, full, since)
    ensures Agrees(pruned + [event], full + [event], since)
  {
    forall now | since <= now ensures Recent(pruned + [event], now) == Recent(full + [event], now) {
      RecentAppend(pruned, [event], now);
      RecentAppend(full, [event], now);
    }
  }

  // ---- The store ----

  function EventsOf(eventsByKey: map<string, seq<real>>, key: string): seq<real> {
    if key in eventsByKey then eventsByKey[key] else []
  }

  /** What one call does to the dictionary. */
  function NextEvents(eventsByKey: map<string, seq<real>>, c: Call): map<string, seq<real>> {
    var recent := Recent(EventsOf(eventsByKey, c.key), c.now);
    if c.limit <= 0 then eventsByKey
    else eventsByKey[c.key := if |recent| >= c.limit then recent else recent + [c.now]]
  }

  /** The pruned dictionary is as good as the full histories, for every key, from `since` on. */
  ghost predicate Faithful(eventsByKey: map<string, seq<real>>, log: seq<Call>, since: real) {
    forall key :: Agrees(EventsOf(eventsByKey, key), FullHistory(log, key), since)
  }

  lemma SameRecent(eventsByKey: map<string, seq<real>>, log: seq<Call>, c: Call)
    requires Faithful(eventsByKey, log, c.now)
    ensures Recent(EventsOf(eventsByKey, c.key), c.now) == Recent(FullHistory(log, c.key), c.now)
  {
    assert Agrees(EventsOf(eventsByKey, c.key), FullHistory(log, c.key), c.now);
  }

  lemma FaithfulStep(eventsByKey: map<string, seq<real>>, log: seq<Call>, c: Call)
    requires Faithful(eventsByKey, log, c.now)
    ensures Faithful(NextEvents(eventsByKey, c), log + [c], c.now)
  {
    SameRecent(eventsByKey, log, c);
    var events, full := EventsOf(eventsByKey, c.key), FullHistory(log, c.key);
    PruningAgrees(events, full, c.now, c.now);
    AppendingAgrees(Recent(events, c.now), full, c.now, c.now);
    forall key ensures Agrees(EventsOf(NextEvents(eventsByKey, c), key), FullHistory(log + [c], key), c.now) {
      LogGrows(log, c, key);
      assert Agrees(EventsOf(eventsByKey, key), FullHistory(log, key), c.now);
    }
  }

  lemma MonotoneStep(log: seq<Call>, c: Call)
    requires Monotone(log) && (log != [] ==> log[|log| - 1].now <= c.now)
    ensures Monotone(log + [c])
  {
  }

  lemma FaithfulLater(eventsByKey: map<string, seq<real>>, log: seq<Call>, since: real, now: real)
    requires Faithful(eventsByKey, log, since) && since <= now
    ensures Faithful(eventsByKey, log, now)
  {
    forall key ensures Agrees(EventsOf(eventsByKey, key), FullHistory(log, key), now) {
      assert Agrees(EventsOf(eventsByKey, key), FullHistory(log, key), since);
    }
  }

  class SlidingWindowStore {
    var eventsByKey: map<string, seq<real>>
    ghost var log: seq<Call>

    ghost predicate AcceptsAt(now: real)
      reads this
    {
      log == [] || log[|log| - 1].now <= now
    }

    ghost predicate Valid()
      reads this
    {
      && Monotone(log)
      && (log == [] ==> eventsByKey == map[])
      && (log != [] ==> Faithful(eventsByKey, log, log[|log| - 1].now))
    }

    constructor ()
      ensures Valid() && log == [] && eventsByKey == map[]
    {
      eventsByKey, log := map[], [];
    }

    /** The pruned list decides exactly as the full, unpruned history would. */
    method RecordAndCheckLimited(key: string, limit: int, now: real) returns (limited: bool)
      requires Valid() && AcceptsAt(now)
      modifies this
      ensures Valid() && log == old(log) + [Call(key, limit, now)]
      ensures limited == Limited(old(log), Call(key, limit, now))
      ensures eventsByKey == NextEvents(old(eventsByKey), Call(key, limit, now))
    {
      ghost var call := Call(key, limit, now);
      if log != [] {
        FaithfulLater(eventsByKey, log, log[|log| - 1].now, now);
      }
      SameRecent(eventsByKey, log, call);
      FaithfulStep(eventsByKey, log, call);
      MonotoneStep(log, call);
      log := log + [call];
      if limit <= 0 {
        return false;
      }
      var recent := Recent(if key in eventsByKey then eventsByKey[key] else [], now);
      if |recent| >= limit {
        eventsByKey := eventsByKey[key := recent];
        return true;
      }
      eventsByKey := eventsByKey[key := recent + [now]];
      return false;
    }
  }

  lemma LogGrows(log: seq<Call>, c: Call, key: string)
    ensures FullHistory(log + [c], key)
         == if c.key == key && Records(log, c) then FullHistory(log, key) + [c.now] else FullHistory(log, key)
  {
    assert (log + [c])[..|log + [c]| - 1] == log;
  }

  // ---- What a refusal means ----

  /** The calls of `log` with this key that were accepted and counted less than 60 seconds before `now`. */
  ghost function Counted(log: seq<Call>, key: string, now: real): set<int> {
    set i | 0 <= i < |log| && log[i].key == key && log[i].limit > 0 && !Limited(log[..i], log[i])
            && now - 60.0 < log[i].now
  }

  lemma {:induction false} HistoryIsCounted(log: seq<Call>, key: string, now: real)
    ensures |Recent(FullHistory(log, key), now)| == |Counted(log, key, now)|
  {
    if log == [] {
      assert Counted(log, key, now) == {};
    } else {
      var n := |log| - 1;
      HistoryIsCounted(log[..n], key, now);
      assert log == log[..n] + [log[n]];
      LogGrows(log[..n], log[n], key);
      RecentAppend(FullHistory(log[..n], key), [log[n].now], now);
      CountedGrows(log, key, now);
    }
  }

  lemma CountedGrows(log: seq<Call>, key: string, now: real)
    requires log != []
    ensures var n := |log| - 1;
            var one := if log[n].key == key && Records(log[..n], log[n]) && now - 60.0 < log[n].now then {n} else {};
            Counted(log, key, now) == Counted(log[..n], key, now) + one && n !in Counted(log[..n], key, now)
  {
    var n := |log| - 1;
    forall i | 0 <= i < n ensures log[..n][..i] == log[..i] && log[..n][i] == log[i] {
    }
  }

  /** A call is refused exactly when its limit is positive and at least that many earlier calls with its key were
      accepted and counted in the last 60 seconds. */
  lemma RefusedExactly(log: seq<Call>, c: Call)
    ensures Limited(log, c) <==>
              c.limit > 0
              && |set i | 0 <= i < |log| && log[i].key == c.key && log[i].limit > 0 && !Limited(log[..i], log[i])
                          && c.now - 60.0 < log[i].now| >= c.limit
  {
    HistoryIsCounted(log, c.key, c.now);
    assert Counted(log, c.key, c.now)
        == set i | 0 <= i < |log| && log[i].key == c.key && log[i].limit > 0 && !Limited(log[..i], log[i])
                   && c.now - 60.0 < log[i].now;
  }

  /** So a call that comes a minute or more after all others with its key is never refused. */
  lemma NeverRefusedAfterAMinute(log: seq<Call>, c: Call)
    requires forall i :: 0 <= i < |log| && log[i].key == c.key ==> log[i].now + 60.0 <= c.now
    ensures !Limited(log, c)
  {
    RefusedExactly(log, c);
    assert (set i | 0 <= i < |log| && log[i].key == c.key && log[i].limit > 0 && !Limited(log[..i], log[i])
                    && c.now - 60.0 < log[i].now) == {};
  }

  // ---- No half-open 60-second window holds more accepted events than the limit ----

  /** The events in [start, start + 60). */
  function InWindow(events: seq<real>, start: real): seq<real> {
    if events == [] then []
    else (if start <= events[0] < start + 60.0 then [events[0]] else []) + InWindow(events[1..], start)
  }

  lemma {:induction false} InWindowAppend(a: seq<real>, b: seq<real>, start: real)
    ensures InWindow(a + b, start) == InWindow(a, start) + InWindow(b, start)
  {
    if a == [] {
      assert a + b == b;
    } else {
      assert (a + b)[1..] == a[1..] + b;
      InWindowAppend(a[1..], b, start);
    }
  }

  /** At a moment inside the window, everything in the window so far is recent. */
  lemma {:induction false} WindowIsRecent(events: seq<real>, start: real, now: real)
    requires start <= now < start + 60.0
    ensures |InWindow(events, start)| <= |Recent(events, now)|
  {
    if events == [] {
    } else {
      WindowIsRecent(events[1..], start, now);
    }
  }

  lemma {:induction false} WindowBound(calls: seq<Call>, key: string, limit: nat, start: real)
    requires forall c :: c in calls && c.key == key ==> c.limit <= limit
    ensures |InWindow(FullHistory(calls, key), start)| <= limit
  {
    if calls == [] {
    } else {
      var n := |calls| - 1;
      var before, c := calls[..n], calls[n];
      assert c in calls && forall d :: d in before ==> d in calls;
      WindowBound(before, key, limit, start);
      if c.key == key && Records(before, c) {
        InWindowAppend(FullHistory(before, key), [c.now], start);
        if start <= c.now < start + 60.0 {
          WindowIsRecent(FullHistory(before, key), start, c.now);
        }
      }
    }
  }

  // ---- Keys never interfere ----

  function OnlyKey(calls: seq<Call>, key: string): seq<Call> {
    if calls == [] then []
    else
      var n := |calls| - 1;
      if calls[n].key == key then OnlyKey(calls[..n], key) + [calls[n]] else OnlyKey(calls[..n], key)
  }

  lemma {:induction false} OtherKeysDoNotCount(calls: seq<Call>, key: string)
    ensures FullHistory(calls, key) == FullHistory(OnlyKey(calls, key), key)
  {
    if calls == [] {
    } else {
      var n := |calls| - 1;
      OtherKeysDoNotCount(calls[..n], key);
      var only := OnlyKey(calls[..n], key);
      if calls[n].key == key {
        LogGrows(only, calls[n], key);
      } else {
        assert OnlyKey(calls, key) == only;
      }
    }
  }

  /** A decision depends on the calls with its own key alone. */
  lemma DecisionsAreLocal(calls: seq<Call>, c: Call)
    ensures Limited(calls, c) == Limited(OnlyKey(calls, c.key), c)
  {
    OtherKeysDoNotCount(calls, c.key);
  }

  // ---- The user check followed by the organisation check ----

  datatype Request = Request(user: string, org: Option<string>, userNow: real, orgNow: real)

  datatype Outcome = Passed | RefusedUser | RefusedOrg

  function UserKey(user: string): string { "user:" + user }

  function OrgKey(org: string): string { "organization:" + org }

  /** The calls the two stores see during a run of requests, and the outcome of each request. */
  datatype Run = Run(userCalls: seq<Call>, orgCalls: seq<Call>, outcomes: seq<Outcome>)

  function After(requests: seq<Request>, userLimit: int, orgLimit: int): Run {
    if requests == [] then Run([], [], [])
    else
      var before := After(requests[..|requests| - 1], userLimit, orgLimit);
      Step(before, requests[|requests| - 1], userLimit, orgLimit)
  }

  function Step(run: Run, r: Request, userLimit: int, orgLimit: int): Run {
    var userCall := Call(UserKey(r.user), userLimit, r.userNow);
    var userCalls := if userLimit <= 0 then run.userCalls else run.userCalls + [userCall];
    if userLimit > 0 && Limited(run.userCalls, userCall) then
      Run(userCalls, run.orgCalls, run.outcomes + [RefusedUser])
    else if r.org.Some? && orgLimit > 0 then
      var orgCall := Call(OrgKey(r.org.value), orgLimit, r.orgNow);
      Run(userCalls, run.orgCalls + [orgCall],
          run.outcomes + [if Limited(run.orgCalls, orgCall) then RefusedOrg else Passed])
    else Run(userCalls, run.orgCalls, run.outcomes + [Passed])
  }

  lemma AfterOneMore(requests: seq<Request>, r: Request, userLimit: int, orgLimit: int)
    ensures After(requests + [r], userLimit, orgLimit)
         == Step(After(requests, userLimit, orgLimit), r, userLimit, orgLimit)
  {
    assert (requests + [r])[..|requests + [r]| - 1] == requests;
  }

  /** How many requests of `user` passed with the user check in [start, start + 60). */
  function PassedByUser(requests: seq<Request>, outcomes: seq<Outcome>, user: string, start: real): nat
    requires |outcomes| == |requests|
  {
    if requests == [] then 0
    else
      var n := |requests| - 1;
      var r := requests[n];
      PassedByUser(requests[..n], outcomes[..n], user, start)
      + if r.user == user && outcomes[n] == Passed && start <= r.userNow < start + 60.0 then 1 else 0
  }

  function PassedByOrg(requests: seq<Request>, outcomes: seq<Outcome>, org: string, start: real): nat
    requires |outcomes| == |requests|
  {
    if requests == [] then 0
    else
      var n := |requests| - 1;
      var r := requests[n];
      PassedByOrg(requests[..n], outcomes[..n], org, start)
      + if r.org == Some(org) && outcomes[n] == Passed && start <= r.orgNow < start + 60.0 then 1 else 0
  }

  /** Requests of `user` that only the organisation limit refused, with the user check in [start, start + 60). */
  function RefusedByOrg(requests: seq<Request>, outcomes: seq<Outcome>, user: string, start: real): nat
    requires |outcomes| == |requests|
  {
    if requests == [] then 0
    else
      var n := |requests| - 1;
      var r := requests[n];
      RefusedByOrg(requests[..n], outcomes[..n], user, start)
      + if r.user == user && outcomes[n] == RefusedOrg && start <= r.userNow < start + 60.0 then 1 else 0
  }

  lemma {:induction false} OneLimitPerStore(requests: seq<Request>, userLimit: int, orgLimit: int)
    ensures forall c :: c in After(requests, userLimit, orgLimit).userCalls ==> c.limit == userLimit
    ensures forall c :: c in After(requests, userLimit, orgLimit).orgCalls ==> c.limit == orgLimit
  {
    if requests != [] {
      OneLimitPerStore(requests[..|requests| - 1], userLimit, orgLimit);
    }
  }

  lemma KeysInjective(a: string, b: string)
    ensures UserKey(a) == UserKey(b) ==> a == b
    ensures OrgKey(a) == OrgKey(b) ==> a == b
  {
    assert UserKey(a)[5..] == a && UserKey(b)[5..] == b;
    assert OrgKey(a)[13..] == a && OrgKey(b)[13..] == b;
  }

  /** What one request adds to the history of `user` and to the history of `org`. */
  lemma StepHistories(run: Run, r: Request, userLimit: int, orgLimit: int, user: string, org: string)
    ensures var next := Step(run, r, userLimit, orgLimit);
            && |next.outcomes| == |run.outcomes| + 1 && next.outcomes[..|run.outcomes|] == run.outcomes
            && var o := next.outcomes[|run.outcomes|];
               var userBefore := FullHistory(run.userCalls, UserKey(user));
               var orgBefore := FullHistory(run.orgCalls, OrgKey(org));
               var userAfter := FullHistory(next.userCalls, UserKey(user));
               var orgAfter := FullHistory(next.orgCalls, OrgKey(org));
               && (userLimit > 0 ==>
                     userAfter == if r.user == user && o != RefusedUser then userBefore + [r.userNow] else userBefore)
               && (orgLimit > 0 ==>
                     orgAfter == if r.org == Some(org) && o == Passed then orgBefore + [r.orgNow] else orgBefore)
  {
    KeysInjective(r.user, user);
    LogGrows(run.userCalls, Call(UserKey(r.user), userLimit, r.userNow), UserKey(user));
    if r.org.Some? {
      KeysInjective(r.org.value, org);
      LogGrows(run.orgCalls, Call(OrgKey(r.org.value), orgLimit, r.orgNow), OrgKey(org));
    }
  }

  /** The requests of `user` that used one of its slots less than 60 seconds before `now`. */
  ghost function UserSlots(requests: seq<Request>, outcomes: seq<Outcome>, user: string, now: real): set<int>
    requires |outcomes| == |requests|
  {
    set i | 0 <= i < |requests| && requests[i].user == user && outcomes[i] != RefusedUser
            && now - 60.0 < requests[i].userNow
  }

  ghost function OrgSlots(requests: seq<Request>, outcomes: seq<Outcome>, org: string, now: real): set<int>
    requires |outcomes| == |requests|
  {
    set i | 0 <= i < |requests| && requests[i].org == Some(org) && outcomes[i] == Passed
            && now - 60.0 < requests[i].orgNow
  }

  lemma OneMoreMember<T>(before: set<T>, after: set<T>, n: T)
    requires n !in before && before <= after && after <= before + {n}
    ensures |after| == |before| + if n in after then 1 else 0
  {
    assert after == if n in after then before + {n} else before;
  }

  lemma UserSlotsGrow(requests: seq<Request>, outcomes: seq<Outcome>, user: string, now: real)
    requires |outcomes| == |requests| > 0
    ensures var n := |requests| - 1;
            var one :=
              if requests[n].user == user && outcomes[n] != RefusedUser && now - 60.0 < requests[n].userNow
              then 1 else 0;
            |UserSlots(requests, outcomes, user, now)| == |UserSlots(requests[..n], outcomes[..n], user, now)| + one
  {
    var n := |requests| - 1;
    var before, after := UserSlots(requests[..n], outcomes[..n], user, now), UserSlots(requests, outcomes, user, now);
    forall i | 0 <= i < n ensures i in before <==> i in after {
      assert requests[..n][i] == requests[i] && outcomes[..n][i] == outcomes[i];
    }
    OneMoreMember(before, after, n);
  }

  lemma OrgSlotsGrow(requests: seq<Request>, outcomes: seq<Outcome>, org: string, now: real)
    requires |outcomes| == |requests| > 0
    ensures var n := |requests| - 1;
            var one :=
              if requests[n].org == Some(org) && outcomes[n] == Passed && now - 60.0 < requests[n].orgNow
              then 1 else 0;
            |OrgSlots(requests, outcomes, org, now)| == |OrgSlots(requests[..n], outcomes[..n], org, now)| + one
  {
    var n := |requests| - 1;
    var before, after := OrgSlots(requests[..n], outcomes[..n], org, now), OrgSlots(requests, outcomes, org, now);
    forall i | 0 <= i < n ensures i in before <==> i in after {
      assert requests[..n][i] == requests[i] && outcomes[..n][i] == outcomes[i];
    }
    OneMoreMember(before, after, n);
  }

  lemma RecentGrows(events: seq<real>, event: real, now: real)
    ensures |Recent(events + [event], now)| == |Recent(events, now)| + if now - 60.0 < event then 1 else 0
  {
    RecentAppend(events, [event], now);
  }

  /** The recent events of a user's key are the user's slots ... */
  lemma {:induction false} UserSlotsAreRecent(requests: seq<Request>, userLimit: int, orgLimit: int, user: string,
                                              now: real)
    requires userLimit > 0
    ensures var run := After(requests, userLimit, orgLimit);
            |run.outcomes| == |requests|
            && |Recent(FullHistory(run.userCalls, UserKey(user)), now)|
               == |UserSlots(requests, run.outcomes, user, now)|
  {
    var run := After(requests, userLimit, orgLimit);
    if requests == [] {
      assert UserSlots(requests, run.outcomes, user, now) == {};
    } else {
      var n := |requests| - 1;
      var before := After(requests[..n], userLimit, orgLimit);
      UserSlotsAreRecent(requests[..n], userLimit, orgLimit, user, now);
      StepHistories(before, requests[n], userLimit, orgLimit, user, "");
      RecentGrows(FullHistory(before.userCalls, UserKey(user)), requests[n].userNow, now);
      UserSlotsGrow(requests, run.outcomes, user, now);
    }
  }

  /** ... and so for the organisation. */
  lemma {:induction false} OrgSlotsAreRecent(requests: seq<Request>, userLimit: int, orgLimit: int, org: string,
                                             now: real)
    requires orgLimit > 0
    ensures var run := After(requests, userLimit, orgLimit);
            |run.outcomes| == |requests|
            && |Recent(FullHistory(run.orgCalls, OrgKey(org)), now)| == |OrgSlots(requests, run.outcomes, org, now)|
  {
    var run := After(requests, userLimit, orgLimit);
    if requests == [] {
      assert OrgSlots(requests, run.outcomes, org, now) == {};
    } else {
      var n := |requests| - 1;
      var before := After(requests[..n], userLimit, orgLimit);
      OrgSlotsAreRecent(requests[..n], userLimit, orgLimit, org, now);
      StepHistories(before, requests[n], userLimit, orgLimit, "", org);
      RecentGrows(FullHistory(before.orgCalls, OrgKey(org)), requests[n].orgNow, now);
      OrgSlotsGrow(requests, run.outcomes, org, now);
    }
  }

  lemma {:induction false} OneOutcomeEach(requests: seq<Request>, userLimit: int, orgLimit: int)
    ensures |After(requests, userLimit, orgLimit).outcomes| == |requests|
  {
    if requests != [] {
      OneOutcomeEach(requests[..|requests| - 1], userLimit, orgLimit);
    }
  }

  /** The outcome of the next request, from the requests before it: refused by the user limit exactly when that many
      requests of the user got past the user check in the last 60 seconds; otherwise refused by the organisation limit
      exactly when that many requests of the organisation passed in the last 60 seconds; otherwise passed. */
  lemma OutcomeExactly(requests: seq<Request>, r: Request, userLimit: int, orgLimit: int)
    ensures var outcomes := After(requests, userLimit, orgLimit).outcomes;
            var next := After(requests + [r], userLimit, orgLimit).outcomes;
            && |outcomes| == |requests| && |next| == |requests| + 1 && next[..|requests|] == outcomes
            && next[|requests|] == ExpectedOutcome(requests, outcomes, r, userLimit, orgLimit)
  {
    var run := After(requests, userLimit, orgLimit);
    AfterOneMore(requests, r, userLimit, orgLimit);
    OneOutcomeEach(requests, userLimit, orgLimit);
    if userLimit > 0 {
      UserSlotsAreRecent(requests, userLimit, orgLimit, r.user, r.userNow);
    }
    if r.org.Some? && orgLimit > 0 {
      OrgSlotsAreRecent(requests, userLimit, orgLimit, r.org.value, r.orgNow);
    }
  }

  ghost function ExpectedOutcome(requests: seq<Request>, outcomes: seq<Outcome>, r: Request, userLimit: int,
                                 orgLimit: int): Outcome
    requires |outcomes| == |requests|
  {
    if userLimit > 0 && |UserSlots(requests, outcomes, r.user, r.userNow)| >= userLimit then RefusedUser
    else if r.org.Some? && orgLimit > 0 && |OrgSlots(requests, outcomes, r.org.value, r.orgNow)| >= orgLimit
    then RefusedOrg
    else Passed
  }

  lemma OneMore(events: seq<real>, event: real, start: real)
    ensures |InWindow(events + [event], start)|
         == |InWindow(events, start)| + if start <= event < start + 60.0 then 1 else 0
  {
    InWindowAppend(events, [event], start);
  }

  /** A user's slots are used by exactly the requests that passed and those only the organisation refused;
      an organisation's slots by exactly the requests that passed. */
  lemma {:induction false} SlotsUsed(requests: seq<Request>, userLimit: int, orgLimit: int, user: string, org: string,
                                     start: real)
    ensures var run := After(requests, userLimit, orgLimit);
            && |run.outcomes| == |requests|
            && var userSlots := |InWindow(FullHistory(run.userCalls, UserKey(user)), start)|;
               var orgSlots := |InWindow(FullHistory(run.orgCalls, OrgKey(org)), start)|;
               && (userLimit > 0 ==> userSlots == PassedByUser(requests, run.outcomes, user, start)
                                                  + RefusedByOrg(requests, run.outcomes, user, start))
               && (orgLimit > 0 ==> orgSlots == PassedByOrg(requests, run.outcomes, org, start))
  {
    if requests != [] {
      var n := |requests| - 1;
      var r := requests[n];
      SlotsUsed(requests[..n], userLimit, orgLimit, user, org, start);
      var before := After(requests[..n], userLimit, orgLimit);
      StepHistories(before, r, userLimit, orgLimit, user, org);
      OneMore(FullHistory(before.userCalls, UserKey(user)), r.userNow, start);
      OneMore(FullHistory(before.orgCalls, OrgKey(org)), r.orgNow, start);
    }
  }

  /** Over any run, the requests that pass obey both limits in every half-open 60-second window, and a request
      refused by the organisation has nevertheless used up one of its user's slots. */
  lemma PassedObeyBothLimits(requests: seq<Request>, userLimit: int, orgLimit: int, user: string, org: string,
                             start: real)
    ensures var run := After(requests, userLimit, orgLimit);
            && |run.outcomes| == |requests|
            && (userLimit > 0 ==> PassedByUser(requests, run.outcomes, user, start)
                                  + RefusedByOrg(requests, run.outcomes, user, start) <= userLimit)
            && (orgLimit > 0 ==> PassedByOrg(requests, run.outcomes, org, start) <= orgLimit)
  {
    var run := After(requests, userLimit, orgLimit);
    OneLimitPerStore(requests, userLimit, orgLimit);
    SlotsUsed(requests, userLimit, orgLimit, user, org, start);
    if userLimit > 0 {
      WindowBound(run.userCalls, UserKey(user), userLimit, start);
    }
    if orgLimit > 0 {
      WindowBound(run.orgCalls, OrgKey(org), orgLimit, start);
    }
  }

  /** `_rate_limit_response` of the application, over its two stores. */
  class RequestLimiter {
    const userStore: SlidingWindowStore
    const orgStore: SlidingWindowStore
    const userLimit: int
    const orgLimit: int
    /** every request checked so far */
    ghost var requests: seq<Request>
    /** the outcome of each of them */
    ghost var outcomes: seq<Outcome>

    /** The stores have seen exactly the calls of the run of these requests. */
    ghost predicate Valid()
      reads this, userStore, orgStore
    {
      && userStore != orgStore && userStore.Valid() && orgStore.Valid()
      && Run(userStore.log, orgStore.log, outcomes) == After(requests, userLimit, orgLimit)
    }

    constructor (userLimit: int, orgLimit: int)
      ensures Valid() && requests == [] && outcomes == []
      ensures this.userLimit == userLimit && this.orgLimit == orgLimit
      ensures fresh(userStore) && fresh(orgStore)
    {
      userStore := new SlidingWindowStore();
      orgStore := new SlidingWindowStore();
      this.userLimit, this.orgLimit := userLimit, orgLimit;
      requests, outcomes := [], [];
    }

    method Check(r: Request) returns (outcome: Outcome)
      requires Valid() && userStore.AcceptsAt(r.userNow) && orgStore.AcceptsAt(r.orgNow)
      modifies this, userStore, orgStore
      ensures Valid() && requests == old(requests) + [r] && outcomes == old(outcomes) + [outcome]
      ensures |old(outcomes)| == |old(requests)|
      ensures outcome == ExpectedOutcome(old(requests), old(outcomes), r, userLimit, orgLimit)
    {
      OutcomeExactly(requests, r, userLimit, orgLimit);
      AfterOneMore(requests, r, userLimit, orgLimit);
      ghost var next := Step(Run(userStore.log, orgStore.log, outcomes), r, userLimit, orgLimit);
      requests, outcomes := requests + [r], next.outcomes;
      if userLimit > 0 {
        var refused := userStore.RecordAndCheckLimited(UserKey(r.user), userLimit, r.userNow);
        if refused {
          return RefusedUser;
        }
      }
      if r.org.Some? && orgLimit > 0 {
        var refused := orgStore.RecordAndCheckLimited(OrgKey(r.org.value), orgLimit, r.orgNow);
        if refused {
          return RefusedOrg;
        }
      }
      return Passed;
    }

    /** So whatever this limiter has let through obeys both limits in every window. */
    lemma ObeysBothLimits(user: string, org: string, start: real)
      requires Valid()
      ensures |outcomes| == |requests|
      ensures userLimit > 0 ==>
                PassedByUser(requests, outcomes, user, start)
                + RefusedByOrg(requests, outcomes, user, start) <= userLimit
      ensures orgLimit > 0 ==> PassedByOrg(requests, outcomes, org, start) <= orgLimit
    {
      PassedObeyBothLimits(requests, userLimit, orgLimit, user, org, start);
    }
  }
}
