/** auth.py: what every operation keeps about users, token versions and the role audit trail. */
module AuditTrail {
  import opened Permissions
  import opened AuthStore

  function EventsOf(events: seq<AuditEvent>, user: string): seq<AuditEvent> {
    if events == [] then []
    else
      var n := |events| - 1;
      if events[n].targetUserId == user then EventsOf(events[..n], user) + [events[n]] else EventsOf(events[..n], user)
  }

  lemma EventsGrow(events: seq<AuditEvent>, e: AuditEvent, user: string)
    ensures EventsOf(events + [e], user)
         == if e.targetUserId == user then EventsOf(events, user) + [e] else EventsOf(events, user)
  {
    assert (events + [e])[..|events + [e]| - 1] == events;
  }

  /** Each event takes over the roles the one before it left, from `first` to `last`. */
  ghost predicate Chained(first: seq<string>, events: seq<AuditEvent>, last: seq<string>) {
    if events == [] then first == last
    else
      var n := |events| - 1;
      Chained(first, events[..n], events[n].rolesBefore) && events[n].rolesAfter == last
  }

  lemma ChainGrows(first: seq<string>, events: seq<AuditEvent>, middle: seq<string>, e: AuditEvent)
    requires Chained(first, events, middle) && e.rolesBefore == middle
    ensures Chained(first, events + [e], e.rolesAfter)
  {
    assert (events + [e])[..|events + [e]| - 1] == events;
  }

  /** Consecutive events of a user chain: what one leaves is what the next finds. */
  lemma {:induction false} ConsecutiveEventsChain(first: seq<string>, events: seq<AuditEvent>, last: seq<string>,
                                                  i: nat)
    requires Chained(first, events, last) && i < |events|
    ensures events[i].rolesBefore == if i == 0 then first else events[i - 1].rolesAfter
    ensures i == |events| - 1 ==> events[i].rolesAfter == last
    decreases |events|
  {
    var n := |events| - 1;
    if i < n {
      ConsecutiveEventsChain(first, events[..n], events[n].rolesBefore, i);
    } else if n > 0 {
      ConsecutiveEventsChain(first, events[..n], events[n].rolesBefore, n - 1);
    }
  }

  const INITIAL_ROLES := ["business_user"]

  /** The version counts the user's role changes, the changes chain from the first roles to the current ones,
      and the stored permissions are those of the current roles. */
  ghost predicate VersionCounts(r: UserRecord, mine: seq<AuditEvent>) {
    && r.tokenVersion == 1 + |mine|
    && Chained(INITIAL_ROLES, mine, r.roles)
    && r.permissions == PermissionsFor(r.roles)
  }

  ghost predicate Registered(d: Directory, u: string)
    requires u in d.users
  {
    var r := d.users[u];
    && r.userId == u && r.orgId in d.organizations
    && r.email in d.userIdByEmail && d.userIdByEmail[r.email] == u
  }

  ghost predicate AllRegistered(d: Directory) {
    && (forall u :: u in d.users ==> Registered(d, u))
    && (forall e :: e in d.userIdByEmail ==> d.userIdByEmail[e] in d.users && d.users[d.userIdByEmail[e]].email == e)
  }

  ghost predicate AllCounted(d: Directory) {
    && (forall u :: u in d.users ==> VersionCounts(d.users[u], EventsOf(d.events, u)))
    && (forall i :: 0 <= i < |d.events| ==> d.events[i].targetUserId in d.users)
  }

  ghost predicate DirectoryConsistent(d: Directory) { AllRegistered(d) && AllCounted(d) }

  /** `later` came from `earlier` by operations of this service: nobody vanished or moved to another
      organisation, and the audit trail only grew. */
  ghost predicate Extends(earlier: Directory, later: Directory) {
    && |earlier.events| <= |later.events| && later.events[..|earlier.events|] == earlier.events
    && forall u :: u in earlier.users ==> u in later.users && later.users[u].orgId == earlier.users[u].orgId
  }

  lemma ExtendsTransitive(a: Directory, b: Directory, c: Directory)
    requires Extends(a, b) && Extends(b, c)
    ensures Extends(a, c)
  {
    assert c.events[..|a.events|] == c.events[..|b.events|][..|a.events|];
  }

  /** No two users share an email address. */
  lemma EmailsAreUnique(d: Directory, u: string, v: string)
    requires DirectoryConsistent(d) && u in d.users && v in d.users && d.users[u].email == d.users[v].email
    ensures u == v
  {
    assert Registered(d, u) && Registered(d, v);
  }

  // ---- Every operation keeps the directory consistent ----

  lemma OrganizationKeepsDirectory(d: Directory, orgId: string, name: string)
    requires DirectoryConsistent(d)
    ensures DirectoryConsistent(WithOrganization(d, orgId, name)) && Extends(d, WithOrganization(d, orgId, name))
  {
    var after := WithOrganization(d, orgId, name);
    forall u | u in after.users ensures Registered(after, u) {
      assert Registered(d, u);
    }
  }

  lemma {:induction false} NoEventsYet(events: seq<AuditEvent>, user: string)
    requires forall i :: 0 <= i < |events| ==> events[i].targetUserId != user
    ensures EventsOf(events, user) == []
  {
    if events != [] {
      NoEventsYet(events[..|events| - 1], user);
    }
  }

  ghost predicate FreshUser(r: UserRecord) {
    r.roles == INITIAL_ROLES && r.permissions == PermissionsFor(r.roles) && r.tokenVersion == 1
  }

  lemma SignUpRegisters(d: Directory, r: UserRecord)
    requires AllRegistered(d) && r.userId !in d.users && r.email !in d.userIdByEmail && r.orgId in d.organizations
    ensures AllRegistered(WithUser(d, r))
  {
    var after := WithUser(d, r);
    forall u | u in after.users ensures Registered(after, u) {
      assert u == r.userId || Registered(d, u);
    }
  }

  lemma SignUpCounts(d: Directory, r: UserRecord)
    requires AllCounted(d) && FreshUser(r) && r.userId !in d.users
    ensures AllCounted(WithUser(d, r))
  {
    NoEventsYet(d.events, r.userId);
    assert Chained(INITIAL_ROLES, [], r.roles);
  }

  lemma SignUpKeepsDirectory(d: Directory, r: UserRecord)
    requires DirectoryConsistent(d) && FreshUser(r)
    requires r.userId !in d.users && r.email !in d.userIdByEmail && r.orgId in d.organizations
    ensures DirectoryConsistent(WithUser(d, r))
  {
    SignUpRegisters(d, r);
    SignUpCounts(d, r);
  }

  lemma SignUpExtends(d: Directory, r: UserRecord)
    requires r.userId !in d.users
    ensures Extends(d, WithUser(d, r))
  {
  }

  lemma UpdatedVersionCounts(r: UserRecord, mine: seq<AuditEvent>, e: AuditEvent, roles: seq<string>)
    requires VersionCounts(r, mine)
    requires e.rolesBefore == r.roles && e.rolesAfter == Dedup(roles)
    ensures VersionCounts(Updated(r, roles, PermissionsFor(roles)), mine + [e])
  {
    DedupFixed(Flat(roles));
    DuplicateRolesDoNotMatter(roles);
    ChainGrows(INITIAL_ROLES, mine, r.roles, e);
  }

  lemma RoleUpdateCounts(d: Directory, target: string, after: Directory, roles: seq<string>, e: AuditEvent)
    requires AllCounted(d) && target in d.users
    requires e.targetUserId == target && e.rolesBefore == d.users[target].roles && e.rolesAfter == Dedup(roles)
    requires after.users == d.users[target := Updated(d.users[target], roles, PermissionsFor(roles))]
    requires after.events == d.events + [e]
    ensures AllCounted(after)
  {
    forall u | u in after.users ensures VersionCounts(after.users[u], EventsOf(after.events, u)) {
      EventsGrow(d.events, e, u);
      if u == target {
        UpdatedVersionCounts(d.users[u], EventsOf(d.events, u), e, roles);
      }
    }
  }

  lemma RoleUpdateKeepsDirectory(d: Directory, orgId: string, actorId: string, target: string, roles: seq<string>)
    requires DirectoryConsistent(d) && target in d.users
    ensures DirectoryConsistent(WithRoles(d, orgId, actorId, target, roles, PermissionsFor(roles)))
    ensures Extends(d, WithRoles(d, orgId, actorId, target, roles, PermissionsFor(roles)))
  {
    var after := WithRoles(d, orgId, actorId, target, roles, PermissionsFor(roles));
    RoleUpdateCounts(d, target, after, roles, after.events[|d.events|]);
    forall u | u in after.users ensures Registered(after, u) {
      assert Registered(d, u);
    }
  }

  // ---- The trail between two moments ----

  lemma {:induction false} EventsSplit(a: seq<AuditEvent>, b: seq<AuditEvent>, user: string)
    ensures EventsOf(a + b, user) == EventsOf(a, user) + EventsOf(b, user)
  {
    if b == [] {
      assert a + b == a;
    } else {
      var m := |b| - 1;
      EventsSplit(a, b[..m], user);
      assert a + b == (a + b[..m]) + [b[m]];
      EventsGrow(a + b[..m], b[m], user);
    }
  }

  /** No event from position `n` on changes this user's roles. */
  ghost predicate NoUpdateSince(events: seq<AuditEvent>, n: nat, user: string) {
    forall i :: n <= i < |events| ==> events[i].targetUserId != user
  }

  lemma {:induction false} NoneIffEmpty(events: seq<AuditEvent>, user: string)
    ensures EventsOf(events, user) == [] <==> NoUpdateSince(events, 0, user)
  {
    if events != [] {
      var n := |events| - 1;
      NoneIffEmpty(events[..n], user);
      if NoUpdateSince(events[..n], 0, user) && events[n].targetUserId != user {
        forall i | 0 <= i < |events| ensures events[i].targetUserId != user {
          assert i < n ==> events[i] == events[..n][i];
        }
      }
    }
  }

  lemma TrailBetween(events: seq<AuditEvent>, n: nat, user: string)
    requires n <= |events|
    ensures EventsOf(events, user) == EventsOf(events[..n], user) + EventsOf(events[n..], user)
    ensures EventsOf(events[n..], user) == [] <==> NoUpdateSince(events, n, user)
  {
    assert events == events[..n] + events[n..];
    EventsSplit(events[..n], events[n..], user);
    NoneIffEmpty(events[n..], user);
    if NoUpdateSince(events[n..], 0, user) {
      forall i | n <= i < |events| ensures events[i].targetUserId != user {
        assert events[i] == events[n..][i - n];
      }
    }
  }

  lemma ChainEndUnique(first: seq<string>, events: seq<AuditEvent>, a: seq<string>, b: seq<string>)
    requires Chained(first, events, a) && Chained(first, events, b)
    ensures a == b
  {
  }

  lemma SameCount(r: UserRecord, s: UserRecord, before: seq<AuditEvent>, between: seq<AuditEvent>)
    requires VersionCounts(r, before) && VersionCounts(s, before + between)
    ensures r.tokenVersion == s.tokenVersion <==> between == []
    ensures between == [] ==> r.roles == s.roles && r.permissions == s.permissions
  {
    if between == [] {
      assert before + between == before;
      ChainEndUnique(INITIAL_ROLES, before, r.roles, s.roles);
    }
  }

  /** Between two moments of a run a user's version is the same exactly when no role update of that user came
      between them; and then the roles and permissions are the same too. */
  lemma SameVersionIffNoUpdate(earlier: Directory, later: Directory, u: string)
    requires DirectoryConsistent(earlier) && DirectoryConsistent(later) && Extends(earlier, later) && u in earlier.users
    ensures earlier.users[u].tokenVersion == later.users[u].tokenVersion
       <==> NoUpdateSince(later.events, |earlier.events|, u)
    ensures NoUpdateSince(later.events, |earlier.events|, u) ==>
              later.users[u].roles == earlier.users[u].roles
              && later.users[u].permissions == earlier.users[u].permissions
  {
    var n := |earlier.events|;
    TrailBetween(later.events, n, u);
    SameCount(earlier.users[u], later.users[u], EventsOf(earlier.events, u), EventsOf(later.events[n..], u));
  }
}
