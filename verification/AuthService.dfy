/** auth.py `AuthService`: sign-up, sign-in, refresh, revocation, access-token checks and role updates. */
module AuthService {
  import opened Text
  import opened TokenCodec
  import opened Permissions
  import opened AuthStore
  import opened AuditTrail
  import opened RefreshSessions

  datatype AuthFailure =
    | BadToken(error: TokenError)
    | StaleToken
    | PermissionDenied
    | StoreRefused(reason: StoreError)
    | ShortPassword
    | BadCredentials
    | BadRefreshToken

  datatype TokenPair = TokenPair(accessToken: string, refreshToken: string, expiresIn: int)

  function ContextOf(r: UserRecord): AuthContext {
    AuthContext(r.userId, r.orgId, r.roles, r.permissions, "", r.tokenVersion)
  }

  function Authenticate(d: Directory, c: Codec, token: string, traceId: string,
                        now: real): Result<AuthContext, AuthFailure>
  {
    match DecodeAccessToken(c, token, traceId, now)
    case Err(e) => Err(BadToken(e))
    case Ok(ctx) =>
      if ctx.userId !in d.users then Err(StaleToken)
      else
        var r := d.users[ctx.userId];
        if r.orgId != ctx.orgId || r.tokenVersion != ctx.tokenVersion then Err(StaleToken)
        else Ok(ContextOf(r).(traceId := traceId))
  }

  predicate Fresh(d: Directory, ctx: AuthContext) {
    && ctx.userId in d.users
    && d.users[ctx.userId].orgId == ctx.orgId && d.users[ctx.userId].tokenVersion == ctx.tokenVersion
  }

  lemma IssuedTokenOutcome(d: Directory, c: Codec, ctx: AuthContext, issuedAt: real, ttl: int, traceId: string,
                           now: real)
    requires JsonRoundTrips(c, AccessClaims(ctx, issuedAt, ttl))
    ensures Authenticate(d, c, IssueAccessToken(c, ctx, issuedAt, ttl), traceId, now)
         == if !Unexpired(issuedAt, ttl, now) then Err(BadToken(Expired))
            else if !Fresh(d, ctx) then Err(StaleToken)
            else Ok(ContextOf(d.users[ctx.userId]).(traceId := traceId))
  {
    AccessTokenRoundTrip(c, ctx, issuedAt, ttl, traceId, now);
  }

  /** An access token issued for user `u` authenticates at a later moment of the same run exactly when it has not
      expired and no role update of `u` was made in between; and then it carries the roles `u` had at issue. */
  lemma TokenValidUntilRoleUpdate(issue: Directory, later: Directory, c: Codec, u: string, issuedAt: real, ttl: int,
                                  traceId: string, now: real)
    requires DirectoryConsistent(issue) && DirectoryConsistent(later) && Extends(issue, later) && u in issue.users
    requires JsonRoundTrips(c, AccessClaims(ContextOf(issue.users[u]), issuedAt, ttl))
    ensures var token := IssueAccessToken(c, ContextOf(issue.users[u]), issuedAt, ttl);
            var answer := Authenticate(later, c, token, traceId, now);
            && (answer.Ok? <==> Unexpired(issuedAt, ttl, now) && NoUpdateSince(later.events, |issue.events|, u))
            && (answer.Ok? ==>
                  var r := issue.users[u];
                  answer.value == AuthContext(u, r.orgId, r.roles, r.permissions, traceId, r.tokenVersion))
  {
    IssuedTokenOutcome(later, c, ContextOf(issue.users[u]), issuedAt, ttl, traceId, now);
    SameVersionIffNoUpdate(issue, later, u);
    assert Registered(issue, u) && Registered(later, u);
  }

  /** A signed token that authenticates speaks for a user of the directory, in that user's organisation, with
      exactly the permissions of the user's current roles. */
  lemma AuthenticatedIsCurrent(d: Directory, c: Codec, token: string, traceId: string, now: real)
    requires DirectoryConsistent(d) && Authenticate(d, c, token, traceId, now).Ok?
    ensures var ctx := Authenticate(d, c, token, traceId, now).value;
            && ctx.userId in d.users && ctx.orgId == d.users[ctx.userId].orgId
            && ctx.roles == d.users[ctx.userId].roles && ctx.permissions == PermissionsFor(ctx.roles)
  {
    var u := DecodeAccessToken(c, token, traceId, now).value.userId;
    assert Registered(d, u) && VersionCounts(d.users[u], EventsOf(d.events, u));
  }

  /** Whoever authenticates may change roles exactly when the directory lists "admin" among their current roles. */
  lemma OnlyAdminsChangeRoles(d: Directory, c: Codec, token: string, traceId: string, now: real)
    requires DirectoryConsistent(d) && Authenticate(d, c, token, traceId, now).Ok?
    ensures var ctx := Authenticate(d, c, token, traceId, now).value;
            ctx.userId in d.users
            && ("admin:user:write" in ctx.permissions <==> "admin" in d.users[ctx.userId].roles)
  {
    AuthenticatedIsCurrent(d, c, token, traceId, now);
    AdminOnly(Authenticate(d, c, token, traceId, now).value.roles, "admin:user:write");
  }

  lemma InitialGrants()
    ensures Dedup(INITIAL_ROLES) == INITIAL_ROLES
    ensures Dedup(PermissionsFor(INITIAL_ROLES)) == PermissionsFor(INITIAL_ROLES)
    ensures INITIAL_ROLES == ["business_user"] && "admin:user:write" !in PermissionsFor(INITIAL_ROLES)
  {
    AdminOnly(INITIAL_ROLES, "admin:user:write");
    Snoc([], "business_user");
    DedupFixed(Flat(INITIAL_ROLES));
  }

  // ---- What every operation keeps, as a step on values ----

  ghost predicate Consistent(d: Directory, tab: SessionTable, log: seq<SessionEvent>) {
    && DirectoryConsistent(d)
    && SessionsConsistent(tab, log)
    && OwnersKnown(tab, d.users)
  }

  lemma PeopleStep(d: Directory, after: Directory, tab: SessionTable, log: seq<SessionEvent>)
    requires Consistent(d, tab, log) && DirectoryConsistent(after) && Extends(d, after)
    ensures Consistent(after, tab, log)
  {
  }

  lemma IssueStep(d: Directory, tab: SessionTable, log: seq<SessionEvent>, e: SessionEvent, s: Session)
    requires Consistent(d, tab, log) && (e.SignUp? || e.SignIn?) && !Issued(log, e.token) && e.user in d.users
    requires s.sessionId !in tab.sessions && s == Session(s.sessionId, e.user, e.token, e.expiresAt, None)
    ensures Consistent(d, WithSession(tab, s), log + [e])
  {
    IssueKeepsSessions(tab, log, e, s);
  }

  lemma OwnersStayKnown(tab: SessionTable, users: map<string, UserRecord>, id: string, now: real, s: Session)
    requires OwnersKnown(tab, users) && s.userId in users
    ensures OwnersKnown(WithSession(WithRevoked(tab, id, now), s), users)
  {
  }

  lemma RefreshStep(d: Directory, tab: SessionTable, log: seq<SessionEvent>, e: SessionEvent, u: Session, s: Session,
                    now: real)
    requires Consistent(d, tab, log) && e.Refresh? && !Issued(log, e.token) && Live(log, e.used)
    requires SessionByHash(tab, e.used) == Some(u) && u.revokedAt == None && u.userId == e.user && e.user in d.users
    requires s.sessionId !in tab.sessions && s == Session(s.sessionId, e.user, e.token, e.expiresAt, None)
    ensures Consistent(d, WithSession(WithRevoked(tab, u.sessionId, now), s), log + [e])
  {
    RefreshKeepsSessions(tab, log, e, s, now);
    OwnersStayKnown(tab, d.users, u.sessionId, now, s);
  }

  lemma RevokeStep(d: Directory, tab: SessionTable, log: seq<SessionEvent>, used: string, now: real)
    requires Consistent(d, tab, log) && Usable(tab, used)
    ensures Consistent(d, WithRevoked(tab, SessionByHash(tab, used).value.sessionId, now), log + [Revoke(used)])
    ensures !Live(log + [Revoke(used)], used)
  {
    RevokeKeepsSessions(tab, log, used, now);
    LogGrows(log, Revoke(used), used);
  }

  /** What the table says about one token. */
  lemma TableKnows(d: Directory, tab: SessionTable, log: seq<SessionEvent>, t: string)
    requires Consistent(d, tab, log)
    ensures Usable(tab, t) <==> Live(log, t)
    ensures SessionByHash(tab, t).Some? ==>
              var s := SessionByHash(tab, t).value;
              s.userId in d.users && d.users[s.userId].userId == s.userId
              && IssuedTo(log, t, s.userId) && IssuedUntil(log, t, s.expiresAt)
              && tab.sessions[s.sessionId] == s
  {
    assert TokenConsistent(tab, log, t);
    if SessionByHash(tab, t).Some? {
      assert Registered(d, SessionByHash(tab, t).value.userId);
    }
  }

  /** The expiry in the table is the one the token was issued with. */
  lemma ExpiryKnown(log: seq<SessionEvent>, t: string, expiresAt: real, now: real)
    requires Legal(log) && IssuedUntil(log, t, expiresAt)
    ensures expiresAt > now <==> exists i :: 0 <= i < |log| && Issues(log[i], t) && log[i].expiresAt > now
  {
    if i :| 0 <= i < |log| && Issues(log[i], t) && log[i].expiresAt > now {
      assert IssuedUntil(log, t, log[i].expiresAt);
      OneExpiry(log, t, expiresAt, log[i].expiresAt);
    }
  }

  /** Issued, not consumed, and not yet expired at `now`. */
  ghost predicate Refreshable(log: seq<SessionEvent>, t: string, now: real) {
    Live(log, t) && exists i :: 0 <= i < |log| && Issues(log[i], t) && log[i].expiresAt > now
  }

  /** What the table says decides exactly that. */
  lemma TableDecides(d: Directory, tab: SessionTable, log: seq<SessionEvent>, t: string, now: real)
    requires Consistent(d, tab, log)
    ensures var s := SessionByHash(tab, t);
            s.Some? && s.value.revokedAt == None && s.value.expiresAt > now <==> Refreshable(log, t, now)
  {
    TableKnows(d, tab, log, t);
    if SessionByHash(tab, t).Some? {
      ExpiryKnown(log, t, SessionByHash(tab, t).value.expiresAt, now);
    }
  }

  /** Revoking the session of a token, whatever its standing. */
  lemma RevokeOutcome(d: Directory, tab: SessionTable, log: seq<SessionEvent>, used: string, s: Session, now: real)
    returns (next: seq<SessionEvent>)
    requires Consistent(d, tab, log) && SessionByHash(tab, used) == Some(s)
    ensures next == if Live(log, used) then log + [Revoke(used)] else log
    ensures !Live(next, used)
    ensures Consistent(d, WithRevoked(tab, s.sessionId, now), next)
    ensures !Live(log, used) ==> WithRevoked(tab, s.sessionId, now) == tab
  {
    TableKnows(d, tab, log, used);
    next := log;
    if Live(log, used) {
      RevokeStep(d, tab, log, used, now);
      next := log + [Revoke(used)];
    }
  }

  /** What the directory says about one address. */
  lemma AddressKnown(d: Directory, email: string)
    requires DirectoryConsistent(d)
    ensures forall u :: u in d.users && d.users[u].email == email ==>
              email in d.userIdByEmail && d.userIdByEmail[email] == u
    ensures email in d.userIdByEmail ==>
              var u := d.userIdByEmail[email];
              u in d.users && d.users[u].email == email && d.users[u].userId == u
  {
    forall u | u in d.users && d.users[u].email == email
      ensures email in d.userIdByEmail && d.userIdByEmail[email] == u
    {
      assert Registered(d, u);
    }
    if email in d.userIdByEmail {
      assert Registered(d, d.userIdByEmail[email]);
    }
  }

  class AuthService {
    const store: InMemoryAuthStore
    const codec: Codec
    /** keyed hash of refresh tokens */
    const hash: string -> string
    /** password check against a stored hash */
    const verify: (string, string) -> bool
    const accessTtl: int
    const refreshTtl: int
    /** what happened to refresh tokens so far */
    ghost var log: seq<SessionEvent>

    ghost predicate Valid()
      reads this, store
    {
      Consistent(store.People(), store.Sessions(), log)
    }

    constructor (codec: Codec, hash: string -> string, verify: (string, string) -> bool, accessTtl: int,
                 refreshTtl: int)
      ensures Valid() && fresh(store) && log == []
      ensures this.codec == codec && this.hash == hash && this.verify == verify
      ensures this.accessTtl == accessTtl && this.refreshTtl == refreshTtl
    {
      store := new InMemoryAuthStore();
      this.codec, this.hash, this.verify := codec, hash, verify;
      this.accessTtl, this.refreshTtl := accessTtl, refreshTtl;
      log := [];
      new;
      assert Unrevoked(store.Sessions()) == {};
    }

    /** `_issue_pair` */
    method IssuePair(user: UserRecord, sessionId: string, token: string, now: real) returns (pair: TokenPair)
      modifies store
      ensures store.People() == old(store.People())
      ensures store.Sessions()
           == WithSession(old(store.Sessions()),
                          Session(sessionId, user.userId, hash(token), now + refreshTtl as real, None))
      ensures pair == TokenPair(IssueAccessToken(codec, ContextOf(user), now, accessTtl), token, accessTtl)
    {
      store.CreateRefreshSession(sessionId, user.userId, hash(token), now + refreshTtl as real);
      return TokenPair(IssueAccessToken(codec, ContextOf(user), now, accessTtl), token, accessTtl);
    }

    /** The end of `sign_up` and `sign_in`: a pair, and with it one more session in table and log. */
    method Welcome(user: UserRecord, ghost e: SessionEvent, sessionId: string, token: string, now: real)
      returns (pair: TokenPair)
      requires Valid() && user.userId in store.users && sessionId !in store.sessions && !Issued(log, hash(token))
      requires e == RefreshSessions.SignUp(user.userId, hash(token), now + refreshTtl as real)
               || e == RefreshSessions.SignIn(user.userId, hash(token), now + refreshTtl as real)
      modifies this, store
      ensures Valid() && store.People() == old(store.People()) && log == old(log) + [e]
      ensures store.Sessions()
           == WithSession(old(store.Sessions()),
                          Session(sessionId, user.userId, hash(token), now + refreshTtl as real, None))
      ensures pair == TokenPair(IssueAccessToken(codec, ContextOf(user), now, accessTtl), token, accessTtl)
    {
      ghost var people, sessions := store.People(), store.Sessions();
      ghost var session := Session(sessionId, user.userId, hash(token), now + refreshTtl as real, None);
      pair := IssuePair(user, sessionId, token, now);
      IssueStep(people, sessions, log, e, session);
      log := log + [e];
    }

    /** The end of `sign_up`: the organisation exists and the password is long enough. */
    method Register(email: string, passwordHash: string, displayName: string, orgId: string, userId: string,
                    sessionId: string, token: string, now: real)
      returns (r: Result<(UserRecord, TokenPair), AuthFailure>)
      requires Valid() && orgId in store.organizations
      requires userId !in store.users && sessionId !in store.sessions && !Issued(log, hash(token))
      modifies this, store
      ensures Valid() && Extends(old(store.People()), store.People())
      ensures r.Ok? <==> NormalizeEmail(email).Some? && NormalizeEmail(email).value !in old(store.userIdByEmail)
      ensures r.Err? ==> store.People() == old(store.People()) && store.Sessions() == old(store.Sessions())
                         && log == old(log)
      ensures r.Ok? ==>
                && r.value.0 == UserRecord(userId, NormalizeEmail(email).value, Strip(displayName), passwordHash, orgId,
                                           INITIAL_ROLES, PermissionsFor(INITIAL_ROLES), 1)
                && store.People() == WithUser(old(store.People()), r.value.0)
                && store.Sessions()
                   == WithSession(old(store.Sessions()),
                                  Session(sessionId, userId, hash(token), now + refreshTtl as real, None))
                && log == old(log) + [RefreshSessions.SignUp(userId, hash(token), now + refreshTtl as real)]
                && r.value.1
                   == TokenPair(IssueAccessToken(codec, ContextOf(r.value.0), now, accessTtl), token, accessTtl)
    {
      ghost var before := store.People();
      InitialGrants();
      var created := store.CreateUser(userId, email, displayName, passwordHash, orgId, INITIAL_ROLES,
                                      PermissionsFor(INITIAL_ROLES));
      if created.Err? {
        return Err(StoreRefused(created.error));
      }
      SignUpKeepsDirectory(before, created.value);
      SignUpExtends(before, created.value);
      PeopleStep(before, store.People(), store.Sessions(), log);
      ghost var e := RefreshSessions.SignUp(userId, hash(token), now + refreshTtl as real);
      var pair := Welcome(created.value, e, sessionId, token, now);
      return Ok((created.value, pair));
    }

    /** The organisation is created before anything is checked, so a refused sign-up still leaves one behind. A new
        user is a business user, and so may not change roles. */
    method SignUp(email: string, password: string, passwordHash: string, displayName: string, organizationName: string,
                  orgId: string, userId: string, sessionId: string, token: string, now: real)
      returns (r: Result<(UserRecord, TokenPair), AuthFailure>)
      requires Valid() && orgId !in store.organizations
      requires userId !in store.users && sessionId !in store.sessions && !Issued(log, hash(token))
      modifies this, store
      ensures Valid() && Extends(old(store.People()), store.People())
      ensures r.Ok? <==> |password| >= 8 && NormalizeEmail(email).Some?
                         && NormalizeEmail(email).value !in old(store.userIdByEmail)
      ensures |password| < 8 ==> r == Err(ShortPassword)
      ensures r.Err? ==> store.People() == WithOrganization(old(store.People()), orgId, organizationName)
                         && store.Sessions() == old(store.Sessions()) && log == old(log)
      ensures r.Ok? ==>
                && r.value.0 == UserRecord(userId, NormalizeEmail(email).value, Strip(displayName), passwordHash, orgId,
                                           r.value.0.roles, PermissionsFor(r.value.0.roles), 1)
                && r.value.0.roles == ["business_user"] && "admin:user:write" !in r.value.0.permissions
                && store.People() == WithUser(WithOrganization(old(store.People()), orgId, organizationName), r.value.0)
                && store.Sessions()
                   == WithSession(old(store.Sessions()),
                                  Session(sessionId, userId, hash(token), now + refreshTtl as real, None))
                && log == old(log) + [RefreshSessions.SignUp(userId, hash(token), now + refreshTtl as real)]
                && r.value.1
                   == TokenPair(IssueAccessToken(codec, ContextOf(r.value.0), now, accessTtl), token, accessTtl)
    {
      ghost var first := store.People();
      OrganizationKeepsDirectory(first, orgId, organizationName);
      store.CreateOrganization(orgId, organizationName);
      ghost var second := store.People();
      PeopleStep(first, second, store.Sessions(), log);
      if |password| < 8 {
        return Err(ShortPassword);
      }
      InitialGrants();
      r := Register(email, passwordHash, displayName, orgId, userId, sessionId, token, now);
      ExtendsTransitive(first, second, store.People());
    }

    method SignIn(email: string, password: string, sessionId: string, token: string, now: real)
      returns (r: Result<(UserRecord, TokenPair), AuthFailure>)
      requires Valid() && sessionId !in store.sessions && !Issued(log, hash(token))
      modifies this, store
      ensures Valid() && store.People() == old(store.People())
      ensures r.Err? ==> store.Sessions() == old(store.Sessions()) && log == old(log)
      ensures r == Err(StoreRefused(BadEmail)) <==> NormalizeEmail(email) == None
      ensures r.Ok? <==> exists u :: u in store.users && NormalizeEmail(email) == Some(store.users[u].email)
                                     && verify(password, store.users[u].passwordHash)
      ensures r.Ok? ==>
                && r.value.0.userId in store.users && r.value.0 == store.users[r.value.0.userId]
                && Some(r.value.0.email) == NormalizeEmail(email)
                && store.Sessions()
                   == WithSession(old(store.Sessions()),
                                  Session(sessionId, r.value.0.userId, hash(token), now + refreshTtl as real, None))
                && log == old(log) + [RefreshSessions.SignIn(r.value.0.userId, hash(token), now + refreshTtl as real)]
                && r.value.1
                   == TokenPair(IssueAccessToken(codec, ContextOf(r.value.0), now, accessTtl), token, accessTtl)
    {
      var normalized := NormalizeEmail(email);
      if normalized == None {
        return Err(StoreRefused(BadEmail));
      }
      AddressKnown(store.People(), normalized.value);
      if normalized.value !in store.userIdByEmail {
        return Err(BadCredentials);
      }
      var user := store.users[store.userIdByEmail[normalized.value]];
      if !verify(password, user.passwordHash) {
        return Err(BadCredentials);
      }
      ghost var e := RefreshSessions.SignIn(user.userId, hash(token), now + refreshTtl as real);
      var pair := Welcome(user, e, sessionId, token, now);
      return Ok((user, pair));
    }

    /** The two writes of a refresh: the old session is revoked, a new one is created. */
    method Exchange(session: Session, user: UserRecord, sessionId: string, token: string, now: real)
      returns (pair: TokenPair)
      modifies store
      ensures store.People() == old(store.People())
      ensures store.Sessions() == WithSession(WithRevoked(old(store.Sessions()), session.sessionId, now),
                                              Session(sessionId, user.userId, hash(token), now + refreshTtl as real,
                                                      None))
      ensures pair == TokenPair(IssueAccessToken(codec, ContextOf(user), now, accessTtl), token, accessTtl)
    {
      store.RevokeRefreshSession(session.sessionId, now);
      pair := IssuePair(user, sessionId, token, now);
    }

    /** The end of `refresh`: revoke the session of the used token and issue a pair to its user. */
    method Rotate(used: string, session: Session, user: UserRecord, sessionId: string, token: string, now: real)
      returns (pair: TokenPair)
      requires Valid() && sessionId !in store.sessions && !Issued(log, hash(token)) && Live(log, hash(used))
      requires SessionByHash(store.Sessions(), hash(used)) == Some(session) && session.revokedAt == None
      requires session.userId in store.users && user == store.users[session.userId] && user.userId == session.userId
      modifies this, store
      ensures Valid() && store.People() == old(store.People())
      ensures store.Sessions() == WithSession(WithRevoked(old(store.Sessions()), session.sessionId, now),
                                              Session(sessionId, user.userId, hash(token), now + refreshTtl as real,
                                                      None))
      ensures log
           == old(log) + [RefreshSessions.Refresh(user.userId, hash(used), hash(token), now + refreshTtl as real)]
      ensures pair == TokenPair(IssueAccessToken(codec, ContextOf(user), now, accessTtl), token, accessTtl)
    {
      ghost var e := RefreshSessions.Refresh(user.userId, hash(used), hash(token), now + refreshTtl as real);
      ghost var issued := Session(sessionId, user.userId, hash(token), now + refreshTtl as real, None);
      RefreshStep(store.People(), store.Sessions(), log, e, session, issued, now);
      pair := Exchange(session, user, sessionId, token, now);
      log := log + [e];
    }

    /** Succeeds exactly for a live token whose session has not expired, and then consumes it. */
    method Refresh(used: string, sessionId: string, token: string, now: real)
      returns (r: Result<(UserRecord, TokenPair), AuthFailure>)
      requires Valid() && sessionId !in store.sessions && !Issued(log, hash(token))
      modifies this, store
      ensures Valid() && store.People() == old(store.People())
      ensures r.Ok? <==> Refreshable(old(log), hash(used), now)
      ensures r.Err? ==> r.error == BadRefreshToken && store.Sessions() == old(store.Sessions()) && log == old(log)
      ensures r.Ok? ==>
                var consumed := SessionByHash(old(store.Sessions()), hash(used));
                consumed.Some?
                && store.Sessions()
                   == WithSession(WithRevoked(old(store.Sessions()), consumed.value.sessionId, now),
                                  Session(sessionId, r.value.0.userId, hash(token), now + refreshTtl as real, None))
      ensures r.Ok? ==>
                && r.value.0.userId in store.users && r.value.0 == store.users[r.value.0.userId]
                && IssuedTo(old(log), hash(used), r.value.0.userId)
                && log == old(log)
                   + [RefreshSessions.Refresh(r.value.0.userId, hash(used), hash(token), now + refreshTtl as real)]
                && r.value.1
                   == TokenPair(IssueAccessToken(codec, ContextOf(r.value.0), now, accessTtl), token, accessTtl)
    {
      TableKnows(store.People(), store.Sessions(), log, hash(used));
      var session := store.GetRefreshSessionByTokenHash(hash(used));
      TableDecides(store.People(), store.Sessions(), log, hash(used), now);
      if session == None || session.value.revokedAt != None || session.value.expiresAt <= now {
        return Err(BadRefreshToken);
      }
      var user := store.users[session.value.userId];
      var pair := Rotate(used, session.value, user, sessionId, token, now);
      return Ok((user, pair));
    }

    /** Revoking an unknown, used or already revoked token changes nothing. */
    method RevokeRefreshToken(used: string, now: real)
      requires Valid()
      modifies this, store
      ensures Valid() && store.People() == old(store.People())
      ensures log == if Live(old(log), hash(used)) then old(log) + [Revoke(hash(used))] else old(log)
      ensures !Live(old(log), hash(used)) ==> store.Sessions() == old(store.Sessions())
      ensures !Live(log, hash(used))
    {
      var session := store.GetRefreshSessionByTokenHash(hash(used));
      TableKnows(store.People(), store.Sessions(), log, hash(used));
      if session == None {
        return;
      }
      log := RevokeOutcome(store.People(), store.Sessions(), log, hash(used), session.value, now);
      store.RevokeRefreshSession(session.value.sessionId, now);
    }

    method AuthenticateAccessToken(token: string, traceId: string, now: real)
      returns (r: Result<AuthContext, AuthFailure>)
      ensures r == Authenticate(store.People(), codec, token, traceId, now)
    {
      var decoded := DecodeAccessToken(codec, token, traceId, now);
      if decoded.Err? {
        return Err(BadToken(decoded.error));
      }
      var ctx := decoded.value;
      if ctx.userId !in store.users {
        return Err(StaleToken);
      }
      var user := store.users[ctx.userId];
      if user.orgId != ctx.orgId || user.tokenVersion != ctx.tokenVersion {
        return Err(StaleToken);
      }
      return Ok(AuthContext(user.userId, user.orgId, user.roles, user.permissions, traceId, user.tokenVersion));
    }

    method UpdateUserRoles(actor: AuthContext, target: string, roles: seq<string>)
      returns (r: Result<UserRecord, AuthFailure>)
      requires Valid()
      modifies this, store
      ensures Valid() && Extends(old(store.People()), store.People())
      ensures log == old(log) && store.Sessions() == old(store.Sessions())
      ensures r.Ok? <==> "admin:user:write" in actor.permissions
                         && target in old(store.users) && old(store.users)[target].orgId == actor.orgId
      ensures "admin:user:write" !in actor.permissions ==> r == Err(PermissionDenied)
      ensures r.Err? ==> store.People() == old(store.People())
      ensures r.Ok? ==>
                && store.People()
                   == WithRoles(old(store.People()), actor.orgId, actor.userId, target, roles, PermissionsFor(roles))
                && r.value == store.users[target]
      ensures r.Ok? ==>
                var before := old(store.users)[target];
                && r.value == UserRecord(before.userId, before.email, before.displayName, before.passwordHash,
                                         before.orgId, Dedup(roles), PermissionsFor(roles), before.tokenVersion + 1)
                && store.users == old(store.users)[target := r.value]
                && store.events == old(store.events)
                   + [AuditEvent(actor.orgId, actor.userId, target, before.roles, Dedup(roles), before.permissions,
                                 PermissionsFor(roles))]
    {
      if "admin:user:write" !in actor.permissions {
        return Err(PermissionDenied);
      }
      var permissions := PermissionsForRoles(roles);
      DedupFixed(Flat(roles));
      ghost var before := store.People();
      var updated := store.UpdateUserRoles(actor.orgId, actor.userId, target, roles, permissions);
      if updated.Err? {
        return Err(StoreRefused(updated.error));
      }
      RoleUpdateKeepsDirectory(before, actor.orgId, actor.userId, target, roles);
      PeopleStep(before, store.People(), store.Sessions(), log);
      return Ok(updated.value);
    }
  }
}
