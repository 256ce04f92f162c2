/** auth.py `InMemoryAuthStore`: organisations, users with their role audit trail, and refresh sessions. */
module AuthStore {
  import opened Text
  import opened Tags
  import opened Permissions

  datatype UserRecord = UserRecord(
    userId: string,
    email: string,
    displayName: string,
    passwordHash: string,
    orgId: string,
    roles: seq<string>,
    permissions: seq<string>,
    tokenVersion: int)

  datatype Session = Session(
    sessionId: string,
    userId: string,
    tokenHash: string,
    expiresAt: real,
    revokedAt: Option<real>)

  datatype AuditEvent = AuditEvent(
    orgId: string,
    actorUserId: string,
    targetUserId: string,
    rolesBefore: seq<string>,
    rolesAfter: seq<string>,
    permissionsBefore: seq<string>,
    permissionsAfter: seq<string>)

  datatype StoreError = BadEmail | DuplicateEmail | UnknownUser

  /** Who exists, and every role change so far. */
  datatype Directory = Directory(
    organizations: map<string, string>,
    users: map<string, UserRecord>,
    userIdByEmail: map<string, string>,
    events: seq<AuditEvent>)

  datatype SessionTable = SessionTable(sessions: map<string, Session>, idByHash: map<string, string>)

  /** `normalize_email`; None stands for the ValueError. */
  function NormalizeEmail(email: string): Option<string> {
    var normalized := Lower(Strip(email));
    if '@' in normalized then Some(normalized) else None
  }

  lemma {:induction false} MarkStays(s: string, c: char)
    requires !IsSpace(c)
    ensures c in s <==> c in Strip(s)
  {
    var left, right := StripTrims(s);
    assert c !in left && c !in right;
  }

  /** Exactly the texts with an '@' are addresses. Their normal form has no capital letter and no white space around it,
      is its own normal form, and is the same whatever the letter case and the white space around the address. */
  lemma NormalAddress(email: string, other: string)
    ensures NormalizeEmail(email).Some? <==> '@' in email
    ensures NormalizeEmail(email).Some? ==>
              var n := NormalizeEmail(email).value;
              && '@' in n && Strip(n) == n && NormalizeEmail(n) == Some(n)
              && forall i :: 0 <= i < |n| ==> n[i] !in "ABCDEFGHIJKLMNOPQRSTUVWXYZ"
    ensures Strip(Lower(email)) == Strip(Lower(other)) ==> NormalizeEmail(email) == NormalizeEmail(other)
  {
    var n := Lower(Strip(email));
    MarkStays(email, '@');
    LowerStripped(email);
    LowerStripped(other);
    forall i | 0 <= i < |n| ensures n[i] !in "ABCDEFGHIJKLMNOPQRSTUVWXYZ" && (n[i] == '@' <==> Strip(email)[i] == '@') {
      LowerCaseLetters(Strip(email)[i], 0);
    }
    if '@' in Strip(email) {
      var i :| 0 <= i < |Strip(email)| && Strip(email)[i] == '@';
      assert n[i] == '@';
    }
  }

  function OrganizationName(name: string): string {
    if Strip(name) == "" then "Default Organization" else Strip(name)
  }

  function WithOrganization(d: Directory, orgId: string, name: string): Directory {
    d.(organizations := d.organizations[orgId := OrganizationName(name)])
  }

  function WithUser(d: Directory, r: UserRecord): Directory {
    d.(users := d.users[r.userId := r], userIdByEmail := d.userIdByEmail[r.email := r.userId])
  }

  function Updated(r: UserRecord, roles: seq<string>, permissions: seq<string>): UserRecord {
    r.(roles := Dedup(roles), permissions := Dedup(permissions), tokenVersion := r.tokenVersion + 1)
  }

  function RoleChange(before: UserRecord, after: UserRecord, orgId: string, actorId: string): AuditEvent {
    AuditEvent(orgId, actorId, before.userId, before.roles, after.roles, before.permissions, after.permissions)
  }

  function WithRoles(d: Directory, orgId: string, actorId: string, target: string, roles: seq<string>,
                     permissions: seq<string>): Directory
    requires target in d.users
  {
    var before := d.users[target];
    var after := Updated(before, roles, permissions);
    d.(users := d.users[target := after],
       events := d.events + [RoleChange(before, after, orgId, actorId).(targetUserId := target)])
  }

  function WithSession(t: SessionTable, s: Session): SessionTable {
    t.(sessions := t.sessions[s.sessionId := s], idByHash := t.idByHash[s.tokenHash := s.sessionId])
  }

  /** `get_refresh_session_by_token_hash` */
  function SessionByHash(t: SessionTable, tokenHash: string): Option<Session> {
    if tokenHash in t.idByHash && t.idByHash[tokenHash] in t.sessions
    then Some(t.sessions[t.idByHash[tokenHash]])
    else None
  }

  /** `revoke_refresh_session`: nothing happens to a missing or already revoked session. */
  function WithRevoked(t: SessionTable, sessionId: string, now: real): SessionTable {
    if sessionId in t.sessions && t.sessions[sessionId].revokedAt == None
    then t.(sessions := t.sessions[sessionId := t.sessions[sessionId].(revokedAt := Some(now))])
    else t
  }

  /** A session is stamped with the time of its first revocation and with no later one; nothing else changes. */
  lemma RevokedOnce(t: SessionTable, sessionId: string, now: real, later: real, other: string)
    ensures var r := WithRevoked(t, sessionId, now);
            && WithRevoked(r, sessionId, later) == r && r.idByHash == t.idByHash
            && (other in r.sessions <==> other in t.sessions)
            && (other in t.sessions ==>
                  r.sessions[other] == if other == sessionId && t.sessions[other].revokedAt == None
                                       then t.sessions[other].(revokedAt := Some(now)) else t.sessions[other])
  {
  }

  class InMemoryAuthStore {
    var organizations: map<string, string>
    var users: map<string, UserRecord>
    var userIdByEmail: map<string, string>
    var sessions: map<string, Session>
    var sessionIdByHash: map<string, string>
    var events: seq<AuditEvent>

    function People(): Directory
      reads this
    {
      Directory(organizations, users, userIdByEmail, events)
    }

    function Sessions(): SessionTable
      reads this
    {
      SessionTable(sessions, sessionIdByHash)
    }

    constructor ()
      ensures People() == Directory(map[], map[], map[], []) && Sessions() == SessionTable(map[], map[])
    {
      organizations, users, userIdByEmail, sessions, sessionIdByHash, events := map[], map[], map[], map[], map[], [];
    }

    method CreateOrganization(orgId: string, name: string)
      modifies this
      ensures People() == WithOrganization(old(People()), orgId, name) && Sessions() == old(Sessions())
      ensures organizations
           == old(organizations)[orgId := if IsBlank(name) then "Default Organization" else Strip(name)]
      ensures users == old(users) && userIdByEmail == old(userIdByEmail) && events == old(events)
    {
      BlankIsStripped(name);
      organizations := organizations[orgId := OrganizationName(name)];
    }

    method CreateUser(userId: string, email: string, displayName: string, passwordHash: string, orgId: string,
                      roles: seq<string>, permissions: seq<string>) returns (r: Result<UserRecord, StoreError>)
      modifies this
      ensures Sessions() == old(Sessions())
      ensures r.Err? ==> People() == old(People())
      ensures NormalizeEmail(email) == None <==> r == Err(BadEmail)
      ensures NormalizeEmail(email).Some? ==>
                r == if NormalizeEmail(email).value in old(userIdByEmail) then Err(DuplicateEmail)
                     else Ok(UserRecord(userId, NormalizeEmail(email).value, Strip(displayName), passwordHash, orgId,
                                        Dedup(roles), Dedup(permissions), 1))
      ensures r.Ok? ==>
                && People() == WithUser(old(People()), r.value)
                && users == old(users)[userId := r.value]
                && userIdByEmail == old(userIdByEmail)[r.value.email := userId]
                && organizations == old(organizations) && events == old(events)
    {
      var normalized := NormalizeEmail(email);
      if normalized == None {
        return Err(BadEmail);
      }
      if normalized.value in userIdByEmail {
        return Err(DuplicateEmail);
      }
      var record := UserRecord(userId, normalized.value, Strip(displayName), passwordHash, orgId,
                               Dedup(roles), Dedup(permissions), 1);
      users := users[userId := record];
      userIdByEmail := userIdByEmail[normalized.value := userId];
      return Ok(record);
    }

    method UpdateUserRoles(orgId: string, actorId: string, target: string, roles: seq<string>, permissions: seq<string>)
      returns (r: Result<UserRecord, StoreError>)
      modifies this
      ensures Sessions() == old(Sessions())
      ensures r.Ok? <==> target in old(users) && old(users)[target].orgId == orgId
      ensures r.Err? ==> r.error == UnknownUser && People() == old(People())
      ensures r.Ok? ==> People() == WithRoles(old(People()), orgId, actorId, target, roles, permissions)
      ensures r.Ok? ==>
                var before := old(users)[target];
                && r.value == UserRecord(before.userId, before.email, before.displayName, before.passwordHash,
                                         before.orgId, Dedup(roles), Dedup(permissions), before.tokenVersion + 1)
                && users == old(users)[target := r.value]
                && events == old(events) + [AuditEvent(orgId, actorId, target, before.roles, Dedup(roles),
                                                       before.permissions, Dedup(permissions))]
    {
      if target !in users || users[target].orgId != orgId {
        return Err(UnknownUser);
      }
      var before := users[target];
      var after := Updated(before, roles, permissions);
      users := users[target := after];
      events :=
        events + [AuditEvent(orgId, actorId, target, before.roles, after.roles, before.permissions, after.permissions)];
      return Ok(after);
    }

    method CreateRefreshSession(sessionId: string, userId: string, tokenHash: string, expiresAt: real)
      modifies this
      ensures People() == old(People())
      ensures Sessions() == WithSession(old(Sessions()), Session(sessionId, userId, tokenHash, expiresAt, None))
      ensures sessions == old(sessions)[sessionId := Session(sessionId, userId, tokenHash, expiresAt, None)]
      ensures sessionIdByHash == old(sessionIdByHash)[tokenHash := sessionId]
    {
      sessions := sessions[sessionId := Session(sessionId, userId, tokenHash, expiresAt, None)];
      sessionIdByHash := sessionIdByHash[tokenHash := sessionId];
    }

    method GetRefreshSessionByTokenHash(tokenHash: string) returns (s: Option<Session>)
      ensures s == SessionByHash(Sessions(), tokenHash)
      ensures s.Some? <==> tokenHash in sessionIdByHash && sessionIdByHash[tokenHash] in sessions
      ensures s.Some? ==> s.value == sessions[sessionIdByHash[tokenHash]]
    {
      if tokenHash !in sessionIdByHash || sessionIdByHash[tokenHash] !in sessions {
        return None;
      }
      return Some(sessions[sessionIdByHash[tokenHash]]);
    }

    method RevokeRefreshSession(sessionId: string, now: real)
      modifies this
      ensures People() == old(People())
      ensures Sessions() == WithRevoked(old(Sessions()), sessionId, now)
    {
      if sessionId !in sessions || sessions[sessionId].revokedAt != None {
        return;
      }
      sessions := sessions[sessionId := sessions[sessionId].(revokedAt := Some(now))];
    }
  }
}
