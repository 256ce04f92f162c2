/** auth.py: refresh-token rotation as a log of what happened, and the session table that must agree with it. */
module RefreshSessions {
  import opened Text
  import opened AuthStore

  // ---- The log ----

  /** Tokens are known by their keyed hashes alone, here as in the table. `Revoke` stands for a revocation that found
      the session unrevoked. */
  datatype SessionEvent =
    | SignUp(user: string, token: string, expiresAt: real)
    | SignIn(user: string, token: string, expiresAt: real)
    | Refresh(user: string, used: string, token: string, expiresAt: real)
    | Revoke(used: string)

  predicate Issues(e: SessionEvent, t: string) { !e.Revoke? && e.token == t }

  predicate Consumes(e: SessionEvent, t: string) { (e.Refresh? || e.Revoke?) && e.used == t }

  ghost predicate Issued(log: seq<SessionEvent>, t: string) {
    exists i :: 0 <= i < |log| && Issues(log[i], t)
  }

  ghost predicate IssuedTo(log: seq<SessionEvent>, t: string, user: string) {
    exists i :: 0 <= i < |log| && Issues(log[i], t) && log[i].user == user
  }

  ghost predicate IssuedUntil(log: seq<SessionEvent>, t: string, expiresAt: real) {
    exists i :: 0 <= i < |log| && Issues(log[i], t) && log[i].expiresAt == expiresAt
  }

  ghost predicate Consumed(log: seq<SessionEvent>, t: string) {
    exists i :: 0 <= i < |log| && Consumes(log[i], t)
  }

  /** Issued and neither refreshed nor revoked since. */
  ghost predicate Live(log: seq<SessionEvent>, t: string) { Issued(log, t) && !Consumed(log, t) }

  /** Tokens are issued once, only live ones are consumed, and a refresh stays with the user of the token it used. */
  ghost predicate LegalStep(log: seq<SessionEvent>, e: SessionEvent) {
    && (!e.Revoke? ==> !Issued(log, e.token))
    && (e.Refresh? || e.Revoke? ==> Live(log, e.used))
    && (e.Refresh? ==> IssuedTo(log, e.used, e.user))
  }

  ghost predicate Legal(log: seq<SessionEvent>) {
    forall i :: 0 <= i < |log| ==> LegalStep(log[..i], log[i])
  }

  lemma LegalGrows(log: seq<SessionEvent>, e: SessionEvent)
    requires Legal(log) && LegalStep(log, e)
    ensures Legal(log + [e])
  {
    var grown := log + [e];
    forall i | 0 <= i < |grown| ensures LegalStep(grown[..i], grown[i]) {
      assert grown[..i] == if i < |log| then log[..i] else log;
    }
  }

  lemma LogGrows(log: seq<SessionEvent>, e: SessionEvent, t: string)
    ensures Issued(log + [e], t) <==> Issued(log, t) || Issues(e, t)
    ensures Consumed(log + [e], t) <==> Consumed(log, t) || Consumes(e, t)
  {
    var grown := log + [e];
    assert grown[|log|] == e;
    assert forall i :: 0 <= i < |log| ==> grown[i] == log[i];
    if Issued(log, t) {
      var i :| 0 <= i < |log| && Issues(log[i], t);
      assert Issues(grown[i], t);
    }
    if Consumed(log, t) {
      var i :| 0 <= i < |log| && Consumes(log[i], t);
      assert Consumes(grown[i], t);
    }
  }

  lemma OwnerGrows(log: seq<SessionEvent>, e: SessionEvent, t: string, user: string, expiresAt: real)
    requires (IssuedTo(log, t, user) && IssuedUntil(log, t, expiresAt))
             || (Issues(e, t) && e.user == user && e.expiresAt == expiresAt)
    ensures IssuedTo(log + [e], t, user) && IssuedUntil(log + [e], t, expiresAt)
  {
    var grown := log + [e];
    assert grown[|log|] == e;
    if IssuedTo(log, t, user) && IssuedUntil(log, t, expiresAt) {
      var i :| 0 <= i < |log| && Issues(log[i], t) && log[i].user == user;
      assert grown[i] == log[i];
      var j :| 0 <= j < |log| && Issues(log[j], t) && log[j].expiresAt == expiresAt;
      assert grown[j] == log[j];
    }
  }

  lemma ConsumedWasIssued(log: seq<SessionEvent>, t: string)
    requires Legal(log) && Consumed(log, t)
    ensures Issued(log, t)
  {
    var i :| 0 <= i < |log| && Consumes(log[i], t);
    assert LegalStep(log[..i], log[i]);
    var k :| 0 <= k < |log[..i]| && Issues(log[..i][k], t);
    assert Issues(log[k], t);
  }

  // ---- What a legal log promises ----

  /** Every refresh token yields at most one successful refresh, and none after it was revoked. */
  lemma OneUsePerToken(log: seq<SessionEvent>, i: nat, j: nat, t: string)
    requires Legal(log) && i < |log| && j < |log| && Consumes(log[i], t) && Consumes(log[j], t)
    ensures i == j
  {
    if i < j {
      UsedEarlier(log, i, j, t);
    } else if j < i {
      UsedEarlier(log, j, i, t);
    }
  }

  lemma UsedEarlier(log: seq<SessionEvent>, i: nat, j: nat, t: string)
    requires Legal(log) && i < j < |log| && Consumes(log[i], t)
    ensures !Consumes(log[j], t)
  {
    assert log[..j][i] == log[i];
    assert Consumed(log[..j], t);
    assert LegalStep(log[..j], log[j]);
  }

  /** A token that has been used or revoked is not live at any later moment. */
  lemma RevocationIsPermanent(log: seq<SessionEvent>, i: nat, n: nat, t: string)
    requires i < n <= |log| && Consumes(log[i], t)
    ensures !Live(log[..n], t)
  {
    assert log[..n][i] == log[i];
  }

  lemma IssuedOnce(log: seq<SessionEvent>, i: nat, j: nat, t: string)
    requires Legal(log) && i < j < |log| && Issues(log[i], t)
    ensures !Issues(log[j], t)
  {
    assert log[..j][i] == log[i];
    assert Issued(log[..j], t);
    assert LegalStep(log[..j], log[j]);
  }

  /** A token belongs to one user, so rotation never moves a session to somebody else. */
  lemma OneOwner(log: seq<SessionEvent>, t: string, u: string, v: string)
    requires Legal(log) && IssuedTo(log, t, u) && IssuedTo(log, t, v)
    ensures u == v
  {
    var i :| 0 <= i < |log| && Issues(log[i], t) && log[i].user == u;
    var j :| 0 <= j < |log| && Issues(log[j], t) && log[j].user == v;
    if i < j {
      IssuedOnce(log, i, j, t);
    } else if j < i {
      IssuedOnce(log, j, i, t);
    }
  }

  /** ... and has one expiry. */
  lemma OneExpiry(log: seq<SessionEvent>, t: string, x: real, y: real)
    requires Legal(log) && IssuedUntil(log, t, x) && IssuedUntil(log, t, y)
    ensures x == y
  {
    var i :| 0 <= i < |log| && Issues(log[i], t) && log[i].expiresAt == x;
    var j :| 0 <= j < |log| && Issues(log[j], t) && log[j].expiresAt == y;
    if i < j {
      IssuedOnce(log, i, j, t);
    } else if j < i {
      IssuedOnce(log, j, i, t);
    }
  }

  /** A fresh token is live as soon as it is issued. */
  lemma FreshIsLive(log: seq<SessionEvent>, e: SessionEvent)
    requires Legal(log) && !e.Revoke? && !Issued(log, e.token) && (e.Refresh? ==> Issued(log, e.used))
    ensures Live(log + [e], e.token)
  {
    LogGrows(log, e, e.token);
    if Consumed(log, e.token) {
      ConsumedWasIssued(log, e.token);
    }
  }

  /** A refresh makes the new token live and ends the old one. */
  lemma RotationIsLive(log: seq<SessionEvent>, e: SessionEvent)
    requires Legal(log) && e.Refresh? && Live(log, e.used) && !Issued(log, e.token)
    ensures Live(log + [e], e.token) && !Live(log + [e], e.used)
  {
    FreshIsLive(log, e);
    LogGrows(log, e, e.used);
  }

  /** Sign-ups plus sign-ins minus effective revocations; a refresh revokes one session and creates one. */
  function Balance(log: seq<SessionEvent>): int {
    if log == [] then 0 else Balance(log[..|log| - 1]) + Change(log[|log| - 1])
  }

  function Change(e: SessionEvent): int {
    if e.SignUp? || e.SignIn? then 1 else if e.Revoke? then -1 else 0
  }

  lemma BalanceGrows(log: seq<SessionEvent>, e: SessionEvent)
    ensures Balance(log + [e]) == Balance(log) + Change(e)
  {
    assert (log + [e])[..|log + [e]| - 1] == log;
  }

  // ---- The session table ----

  predicate Usable(tab: SessionTable, tokenHash: string) {
    var s := SessionByHash(tab, tokenHash);
    s.Some? && s.value.revokedAt == None
  }

  function Unrevoked(tab: SessionTable): set<string> {
    set s | s in tab.sessions && tab.sessions[s].revokedAt == None
  }

  /** The two dicts are inverse to each other. */
  ghost predicate RowsConsistent(tab: SessionTable) {
    && (forall s :: s in tab.sessions ==>
          && tab.sessions[s].sessionId == s
          && tab.sessions[s].tokenHash in tab.idByHash && tab.idByHash[tab.sessions[s].tokenHash] == s)
    && (forall h :: h in tab.idByHash ==>
          tab.idByHash[h] in tab.sessions && tab.sessions[tab.idByHash[h]].tokenHash == h)
  }

  ghost predicate OwnersKnown(tab: SessionTable, users: map<string, UserRecord>) {
    forall s :: s in tab.sessions ==> tab.sessions[s].userId in users
  }

  lemma SessionAdded(tab: SessionTable, s: Session)
    requires RowsConsistent(tab) && s.sessionId !in tab.sessions && s.tokenHash !in tab.idByHash && s.revokedAt == None
    ensures RowsConsistent(WithSession(tab, s))
    ensures forall h :: SessionByHash(WithSession(tab, s), h)
                        == if h == s.tokenHash then Some(s) else SessionByHash(tab, h)
    ensures |Unrevoked(WithSession(tab, s))| == |Unrevoked(tab)| + 1
  {
    assert Unrevoked(WithSession(tab, s)) == Unrevoked(tab) + {s.sessionId};
  }

  lemma SessionRevoked(tab: SessionTable, tokenHash: string, now: real)
    requires RowsConsistent(tab) && Usable(tab, tokenHash)
    ensures var after := WithRevoked(tab, SessionByHash(tab, tokenHash).value.sessionId, now);
            && RowsConsistent(after)
            && (forall h :: h != tokenHash ==> SessionByHash(after, h) == SessionByHash(tab, h))
            && SessionByHash(after, tokenHash) == Some(SessionByHash(tab, tokenHash).value.(revokedAt := Some(now)))
            && |Unrevoked(after)| == |Unrevoked(tab)| - 1
  {
    var id := tab.idByHash[tokenHash];
    var after := WithRevoked(tab, id, now);
    assert Unrevoked(after) == Unrevoked(tab) - {id} && id in Unrevoked(tab);
    forall h | h != tokenHash && h in tab.idByHash ensures tab.idByHash[h] != id {
      assert tab.sessions[tab.idByHash[h]].tokenHash == h;
    }
  }

  // ---- Table and log agree ----

  /** The table knows a token exactly when it was issued, lets it through exactly while it is live, and files it
      under the user it was issued to. */
  ghost predicate TokenConsistent(tab: SessionTable, log: seq<SessionEvent>, t: string) {
    && (SessionByHash(tab, t).Some? <==> Issued(log, t))
    && (Usable(tab, t) <==> Live(log, t))
    && (SessionByHash(tab, t).Some? ==>
          && IssuedTo(log, t, SessionByHash(tab, t).value.userId)
          && IssuedUntil(log, t, SessionByHash(tab, t).value.expiresAt))
  }

  ghost predicate SessionsConsistent(tab: SessionTable, log: seq<SessionEvent>) {
    && Legal(log)
    && RowsConsistent(tab)
    && (forall t {:trigger TokenConsistent(tab, log, t)} :: TokenConsistent(tab, log, t))
    && |Unrevoked(tab)| == Balance(log)
  }

  /** One step for one token: what the table does to its row is what the event does to its standing in the log. */
  lemma TokenStep(before: SessionTable, after: SessionTable, log: seq<SessionEvent>, e: SessionEvent, t: string)
    requires Legal(log) && LegalStep(log, e) && TokenConsistent(before, log, t)
    requires var was, now := SessionByHash(before, t), SessionByHash(after, t);
             if Issues(e, t)
             then now.Some? && now.value.userId == e.user && now.value.expiresAt == e.expiresAt
                  && now.value.revokedAt == None
             else if Consumes(e, t)
             then was.Some? && now.Some? && now.value.userId == was.value.userId
                  && now.value.expiresAt == was.value.expiresAt && now.value.revokedAt != None
             else now == was
    ensures TokenConsistent(after, log + [e], t)
  {
    LogGrows(log, e, t);
    var was, now := SessionByHash(before, t), SessionByHash(after, t);
    if Consumed(log, t) {
      ConsumedWasIssued(log, t);
    }
    if now.Some? {
      OwnerGrows(log, e, t, now.value.userId, now.value.expiresAt);
    }
  }

  /** `_issue_pair` after a sign-up or a sign-in. */
  lemma IssueKeepsSessions(tab: SessionTable, log: seq<SessionEvent>, e: SessionEvent, s: Session)
    requires SessionsConsistent(tab, log)
    requires (e.SignUp? || e.SignIn?) && !Issued(log, e.token)
    requires s.sessionId !in tab.sessions && s == Session(s.sessionId, e.user, e.token, e.expiresAt, None)
    ensures SessionsConsistent(WithSession(tab, s), log + [e])
  {
    assert TokenConsistent(tab, log, e.token);
    SessionAdded(tab, s);
    LegalGrows(log, e);
    BalanceGrows(log, e);
    forall t ensures TokenConsistent(WithSession(tab, s), log + [e], t) {
      TokenStep(tab, WithSession(tab, s), log, e, t);
    }
  }

  /** `revoke_refresh_token` on a live token. */
  lemma RevokeKeepsSessions(tab: SessionTable, log: seq<SessionEvent>, used: string, now: real)
    requires SessionsConsistent(tab, log) && Usable(tab, used)
    ensures SessionsConsistent(WithRevoked(tab, SessionByHash(tab, used).value.sessionId, now), log + [Revoke(used)])
  {
    var e, after := Revoke(used), WithRevoked(tab, SessionByHash(tab, used).value.sessionId, now);
    assert TokenConsistent(tab, log, used);
    SessionRevoked(tab, used, now);
    LegalGrows(log, e);
    BalanceGrows(log, e);
    forall t ensures TokenConsistent(after, log + [e], t) {
      TokenStep(tab, after, log, e, t);
    }
  }

  /** `refresh`: the used session is revoked and a new one is created for the same user. */
  lemma RefreshKeepsSessions(tab: SessionTable, log: seq<SessionEvent>, e: SessionEvent, s: Session, now: real)
    requires SessionsConsistent(tab, log) && e.Refresh? && Usable(tab, e.used)
    requires !Issued(log, e.token) && SessionByHash(tab, e.used).value.userId == e.user
    requires s.sessionId !in tab.sessions && s == Session(s.sessionId, e.user, e.token, e.expiresAt, None)
    ensures SessionsConsistent(WithSession(WithRevoked(tab, SessionByHash(tab, e.used).value.sessionId, now), s),
                               log + [e])
  {
    var middle := WithRevoked(tab, SessionByHash(tab, e.used).value.sessionId, now);
    var after := WithSession(middle, s);
    assert TokenConsistent(tab, log, e.used) && TokenConsistent(tab, log, e.token);
    SessionRevoked(tab, e.used, now);
    SessionAdded(middle, s);
    LegalGrows(log, e);
    BalanceGrows(log, e);
    forall t ensures TokenConsistent(after, log + [e], t) {
      TokenStep(tab, after, log, e, t);
    }
  }
}
