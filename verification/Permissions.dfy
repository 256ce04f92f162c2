/** auth.py `permissions_for_roles` and its role table. */
module Permissions {
  const BUSINESS_USER := ["chat:query", "chat:history:read:self", "query:read:self", "files:upload", "files:read",
                          "files:delete", "files:share_requests:submit"]

  const ANALYST := ["chat:query", "chat:history:read:self", "query:read:self", "analytics:run", "eval:read:approved",
                    "files:upload", "files:read", "files:delete", "files:share", "files:share_requests:submit"]

  const ADMIN := ["chat:query", "chat:history:read:self", "query:read:self", "admin:trace:read", "admin:eval:read",
                  "admin:eval:write", "admin:release_gate:read", "admin:user:write", "admin:audit:read",
                  "documents:index", "analytics:run", "files:upload", "files:read", "files:delete", "files:share",
                  "files:share_requests:submit", "admin:knowledge:promote", "admin:knowledge:demote",
                  "admin:share_requests:review"]

  function RolePermissions(role: string): seq<string> {
    if role == "business_user" then BUSINESS_USER
    else if role == "analyst" then ANALYST
    else if role == "admin" then ADMIN
    else []
  }

  /** `tuple(dict.fromkeys(s))`: first occurrences, in order. */
  function Dedup(s: seq<string>): seq<string> {
    if s == [] then []
    else
      var before, x := Dedup(s[..|s| - 1]), s[|s| - 1];
      if x in before then before else before + [x]
  }

  function Flat(roles: seq<string>): seq<string> {
    if roles == [] then [] else Flat(roles[..|roles| - 1]) + RolePermissions(roles[|roles| - 1])
  }

  function PermissionsFor(roles: seq<string>): seq<string> { Dedup(Flat(roles)) }

  method PermissionsForRoles(roles: seq<string>) returns (permissions: seq<string>)
    ensures permissions == PermissionsFor(roles)
  {
    var all: seq<string> := [];
    for i := 0 to |roles|
      invariant all == Flat(roles[..i])
    {
      assert roles[..i + 1][..i] == roles[..i];
      all := all + RolePermissions(roles[i]);
    }
    assert roles[..|roles|] == roles;
    permissions := Dedup(all);
  }

  lemma Snoc(s: seq<string>, x: string)
    ensures Dedup(s + [x]) == if x in Dedup(s) then Dedup(s) else Dedup(s) + [x]
    ensures Flat(s + [x]) == Flat(s) + RolePermissions(x)
  {
    assert (s + [x])[..|s + [x]| - 1] == s;
  }

  lemma {:induction false} DedupMembers(s: seq<string>)
    ensures forall x :: x in Dedup(s) <==> x in s
    ensures forall i, j :: 0 <= i < j < |Dedup(s)| ==> Dedup(s)[i] != Dedup(s)[j]
  {
    if s == [] {
    } else {
      var n := |s| - 1;
      DedupMembers(s[..n]);
      assert s == s[..n] + [s[n]];
    }
  }

  /** Of two kept elements the one that comes first was met first. */
  lemma {:induction false} DedupOrder(s: seq<string>, i: nat, j: nat) returns (a: nat)
    requires i < j < |Dedup(s)|
    ensures a < |s| && s[a] == Dedup(s)[i] && forall b :: 0 <= b <= a ==> s[b] != Dedup(s)[j]
  {
    var n := |s| - 1;
    var before := Dedup(s[..n]);
    if j < |before| {
      a := DedupOrder(s[..n], i, j);
    } else {
      DedupMembers(s[..n]);
      assert before[i] in s[..n] && s[n] !in s[..n];
      a :| a < n && s[..n][a] == before[i];
    }
  }

  lemma {:induction false} DedupAppend(a: seq<string>, b: seq<string>, p: seq<string>)
    requires Dedup(a) == Dedup(b)
    ensures Dedup(a + p) == Dedup(b + p)
  {
    if p == [] {
      assert a + p == a && b + p == b;
    } else {
      var n := |p| - 1;
      DedupAppend(a, b, p[..n]);
      assert a + p == (a + p[..n]) + [p[n]] && b + p == (b + p[..n]) + [p[n]];
      Snoc(a + p[..n], p[n]);
      Snoc(b + p[..n], p[n]);
    }
  }

  lemma {:induction false} DedupKnown(a: seq<string>, p: seq<string>)
    requires forall x :: x in p ==> x in a
    ensures Dedup(a + p) == Dedup(a)
  {
    if p == [] {
      assert a + p == a;
    } else {
      var n := |p| - 1;
      assert p == p[..n] + [p[n]];
      DedupKnown(a, p[..n]);
      assert a + p == (a + p[..n]) + [p[n]];
      Snoc(a + p[..n], p[n]);
      DedupMembers(a);
      assert p[n] in p;
    }
  }

  lemma {:induction false} FlatMembers(roles: seq<string>, role: string)
    requires role in roles
    ensures forall x :: x in RolePermissions(role) ==> x in Flat(roles)
  {
    var n := |roles| - 1;
    assert roles == roles[..n] + [roles[n]];
    if role != roles[n] {
      FlatMembers(roles[..n], role);
    }
  }

  function FlatBy(table: string -> seq<string>, roles: seq<string>): seq<string> {
    if roles == [] then [] else FlatBy(table, roles[..|roles| - 1]) + table(roles[|roles| - 1])
  }

  lemma {:induction false} FlatIsByTable(roles: seq<string>)
    ensures Flat(roles) == FlatBy(RolePermissions, roles)
  {
    if roles != [] {
      FlatIsByTable(roles[..|roles| - 1]);
    }
  }

  lemma {:induction false} FlatByMembers(table: string -> seq<string>, roles: seq<string>, p: string)
    ensures p in FlatBy(table, roles) <==> exists r :: r in roles && p in table(r)
  {
    if roles != [] {
      var n := |roles| - 1;
      FlatByMembers(table, roles[..n], p);
      assert roles == roles[..n] + [roles[n]];
    }
  }

  /** A permission is granted exactly when one of the roles carries it. */
  lemma GrantedBySome(roles: seq<string>, p: string, carriers: set<string>)
    requires forall r :: p in RolePermissions(r) <==> r in carriers
    ensures p in PermissionsFor(roles) <==> exists r :: r in roles && r in carriers
  {
    DedupMembers(Flat(roles));
    FlatIsByTable(roles);
    FlatByMembers(RolePermissions, roles, p);
  }

  /** The ten administrative permissions are the admin's alone. */
  lemma AdminOnly(roles: seq<string>, p: string)
    requires p in ["admin:trace:read", "admin:eval:read", "admin:eval:write", "admin:release_gate:read",
                   "admin:user:write", "admin:audit:read", "documents:index", "admin:knowledge:promote",
                   "admin:knowledge:demote", "admin:share_requests:review"]
    ensures p in PermissionsFor(roles) <==> "admin" in roles
  {
    assert p in ADMIN && p !in ANALYST && p !in BUSINESS_USER;
    GrantedBySome(roles, p, {"admin"});
  }

  /** Approved evaluations are the analyst's alone; analytics and sharing are for analysts and admins. */
  lemma AnalystsMore(roles: seq<string>)
    ensures "eval:read:approved" in PermissionsFor(roles) <==> "analyst" in roles
    ensures "analytics:run" in PermissionsFor(roles) <==> "analyst" in roles || "admin" in roles
    ensures "files:share" in PermissionsFor(roles) <==> "analyst" in roles || "admin" in roles
  {
    AnalystTable();
    GrantedBySome(roles, "eval:read:approved", {"analyst"});
    GrantedBySome(roles, "analytics:run", {"analyst", "admin"});
    GrantedBySome(roles, "files:share", {"analyst", "admin"});
  }

  lemma AnalystTable()
    ensures forall r :: "eval:read:approved" in RolePermissions(r) <==> r in {"analyst"}
    ensures forall r :: "analytics:run" in RolePermissions(r) <==> r in {"analyst", "admin"}
    ensures forall r :: "files:share" in RolePermissions(r) <==> r in {"analyst", "admin"}
  {
    assert "analytics:run" == ANALYST[3] == ADMIN[10] && "files:share" == ANALYST[8] == ADMIN[14];
    assert "eval:read:approved" == ANALYST[4];
  }

  /** The basic permissions come with each of the three roles, and nothing comes with any other. */
  lemma BasicForAll(roles: seq<string>, p: string)
    requires p in ["chat:query", "chat:history:read:self", "query:read:self", "files:upload", "files:read",
                   "files:delete", "files:share_requests:submit"]
    ensures p in PermissionsFor(roles) <==> "business_user" in roles || "analyst" in roles || "admin" in roles
  {
    assert p in BUSINESS_USER && p in ANALYST && p in ADMIN;
    GrantedBySome(roles, p, {"business_user", "analyst", "admin"});
  }

  /** No permission outside these lists is ever granted. */
  lemma NothingElse(roles: seq<string>, p: string)
    requires p in PermissionsFor(roles)
    ensures p in ["admin:trace:read", "admin:eval:read", "admin:eval:write", "admin:release_gate:read",
                  "admin:user:write", "admin:audit:read", "documents:index", "admin:knowledge:promote",
                  "admin:knowledge:demote", "admin:share_requests:review", "eval:read:approved", "analytics:run",
                  "files:share", "chat:query", "chat:history:read:self", "query:read:self", "files:upload",
                  "files:read", "files:delete", "files:share_requests:submit"]
  {
    if p !in ADMIN && p !in ANALYST && p !in BUSINESS_USER {
      GrantedBySome(roles, p, {});
    } else {
      TableEntries(p);
    }
  }

  lemma TableEntries(p: string)
    requires p in ADMIN || p in ANALYST || p in BUSINESS_USER
    ensures p in ["admin:trace:read", "admin:eval:read", "admin:eval:write", "admin:release_gate:read",
                  "admin:user:write", "admin:audit:read", "documents:index", "admin:knowledge:promote",
                  "admin:knowledge:demote", "admin:share_requests:review", "eval:read:approved", "analytics:run",
                  "files:share", "chat:query", "chat:history:read:self", "query:read:self", "files:upload",
                  "files:read", "files:delete", "files:share_requests:submit"]
  {
  }

  /** Duplicate roles make no difference: the permissions of the stored roles are those of the requested ones. */
  lemma {:induction false} DuplicateRolesDoNotMatter(roles: seq<string>)
    ensures PermissionsFor(Dedup(roles)) == PermissionsFor(roles)
  {
    if roles == [] {
    } else {
      var n := |roles| - 1;
      var before, x := roles[..n], roles[n];
      DuplicateRolesDoNotMatter(before);
      DedupMembers(before);
      if x in Dedup(before) {
        FlatMembers(before, x);
        DedupKnown(Flat(before), RolePermissions(x));
      } else {
        Snoc(Dedup(before), x);
        DedupAppend(Flat(Dedup(before)), Flat(before), RolePermissions(x));
      }
    }
  }

  lemma {:induction false} DedupFixed(s: seq<string>)
    ensures Dedup(Dedup(s)) == Dedup(s)
  {
    if s == [] {
    } else {
      var n := |s| - 1;
      DedupFixed(s[..n]);
      Snoc(Dedup(s[..n]), s[n]);
    }
  }
}
