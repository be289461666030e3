/** The tables of flon.auth refine a plain relation between users, roles and permissions. */
module AuthRelation {
  import opened Eosio
  import opened AuthModel

  // ---------- Keys ----------

  lemma PackInjective(a: U64, b: U64, c: U64, d: U64)
    ensures Pack(a, b) == Pack(c, d) <==> a == c && b == d
  {
  }

  // ---------- Tables as sets ----------

  ghost predicate Distinct<T(!new), K(!new)>(rows: seq<T>, key: T -> K) {
    forall i, j | 0 <= i < j < |rows| :: key(rows[i]) != key(rows[j])
  }

  ghost predicate OneHit<T(!new)>(rows: seq<T>, hit: T -> bool) {
    forall i, j | 0 <= i < j < |rows| :: !(hit(rows[i]) && hit(rows[j]))
  }

  lemma Tail<T(!new), K(!new)>(rows: seq<T>, hit: T -> bool, key: T -> K)
    requires rows != [] && OneHit(rows, hit) && Distinct(rows, key)
    ensures var rest := rows[1..];
            && OneHit(rest, hit) && Distinct(rest, key)
            && (forall x: T :: x in rows <==> x == rows[0] || x in rest)
            && (forall x: T | x in rest :: key(x) != key(rows[0]) && (hit(rows[0]) ==> !hit(x)))
  {
    var rest := rows[1..];
    assert rows == [rows[0]] + rest;
    assert forall i | 0 <= i < |rest| :: rest[i] == rows[i + 1];
  }

  lemma Prepend<T(!new), K(!new)>(row: T, rows: seq<T>, key: T -> K)
    requires Distinct(rows, key) && forall x | x in rows :: key(x) != key(row)
    ensures Distinct([row] + rows, key)
  {
    assert forall i | 0 <= i < |rows| :: rows[i] in rows;
  }

  /** Where at most one row is found, erasing the first is erasing all, and no two rows come to share a key. */
  lemma {:induction false} EraseFirstFacts<T(!new), K(!new)>(rows: seq<T>, hit: T -> bool, key: T -> K)
    requires OneHit(rows, hit) && Distinct(rows, key)
    ensures forall x: T :: x in EraseFirst(rows, hit) <==> x in rows && !hit(x)
    ensures Distinct(EraseFirst(rows, hit), key)
  {
    hide Distinct, OneHit;
    if rows == [] {
      assert EraseFirst(rows, hit) == rows;
    } else {
      Tail(rows, hit, key);
      if !hit(rows[0]) {
        EraseFirstFacts(rows[1..], hit, key);
        Prepend(rows[0], EraseFirst(rows[1..], hit), key);
      }
    }
  }

  lemma {:induction false} EraseAllFacts<T(!new), K(!new)>(rows: seq<T>, hit: T -> bool, key: T -> K)
    requires Distinct(rows, key)
    ensures forall x: T :: x in EraseAll(rows, hit) <==> x in rows && !hit(x)
    ensures Distinct(EraseAll(rows, hit), key)
  {
    if rows != [] {
      var rest := rows[..|rows| - 1];
      assert rows == rest + [rows[|rows| - 1]];
      EraseAllFacts(rest, hit, key);
      var left := EraseAll(rest, hit);
      assert forall i | 0 <= i < |left| :: left[i] in rest;
    }
  }

  lemma AppendFacts<T(!new), K(!new)>(rows: seq<T>, row: T, key: T -> K)
    requires Distinct(rows, key) && forall x | x in rows :: key(x) != key(row)
    ensures Distinct(rows + [row], key)
    ensures forall x: T :: x in rows + [row] <==> x in rows || x == row
  {
    assert forall i | 0 <= i < |rows| :: rows[i] in rows;
  }

  // ---------- The invariant ----------

  function RoleKey(): RoleRow -> U64 { (r: RoleRow) => r.role }

  function GrantKey(): UserRole -> (U64, U64) { (r: UserRole) => (r.user, r.role) }

  function PermKey(prefix: string -> U64): RolePerm -> (U64, U64) { (r: RolePerm) => (r.role, prefix(r.perm)) }

  ghost function Roles(s: State): set<U64> { set r | r in s.roles :: r.role }

  ghost function Holds(s: State): set<(U64, U64)> { set r | r in s.userRoles :: (r.user, r.role) }

  ghost function Permits(s: State): set<(U64, string)> { set r | r in s.rolePerms :: (r.role, r.perm) }

  ghost function Abs(s: State): Relation { Relation(Roles(s), Holds(s), Permits(s)) }

  /** No duplicate roles, grants or role-permission keys, and every grant and permission refers to a role that exists. */
  ghost predicate WellFormed(prefix: string -> U64, s: State) {
    && Distinct(s.roles, RoleKey())
    && Distinct(s.userRoles, GrantKey())
    && Distinct(s.rolePerms, PermKey(prefix))
    && (forall h | h in Holds(s) :: h.1 in Roles(s))
    && (forall p | p in Permits(s) :: p.0 in Roles(s))
  }

  // ---------- Look-ups ----------

  lemma FindRole(s: State, role: U64)
    ensures Any(s.roles, RoleIs(role)) <==> role in Roles(s)
  {
    if role in Roles(s) {
      var r :| r in s.roles && r.role == role;
      var i :| 0 <= i < |s.roles| && s.roles[i] == r;
      assert RoleIs(role)(s.roles[i]);
    }
  }

  lemma FindGrant(s: State, user: U64, role: U64)
    ensures Any(s.userRoles, GrantIs(user, role)) <==> (user, role) in Holds(s)
  {
    forall r: UserRole
      ensures GrantIs(user, role)(r) <==> r.user == user && r.role == role
    {
      PackInjective(r.user, r.role, user, role);
    }
    if (user, role) in Holds(s) {
      var r :| r in s.userRoles && (r.user, r.role) == (user, role);
      var i :| 0 <= i < |s.userRoles| && s.userRoles[i] == r;
      assert GrantIs(user, role)(s.userRoles[i]);
    }
  }

  lemma FindHolder(s: State, role: U64)
    ensures Any(s.userRoles, HoldsRole(role)) <==> exists h | h in Holds(s) :: h.1 == role
  {
    if h :| h in Holds(s) && h.1 == role {
      var r :| r in s.userRoles && (r.user, r.role) == h;
      var i :| 0 <= i < |s.userRoles| && s.userRoles[i] == r;
      assert HoldsRole(role)(s.userRoles[i]);
    }
    if Any(s.userRoles, HoldsRole(role)) {
      var i :| 0 <= i < |s.userRoles| && HoldsRole(role)(s.userRoles[i]);
      assert (s.userRoles[i].user, s.userRoles[i].role) in Holds(s);
    }
  }

  /** A key is found when some permission of the role has the same prefix. */
  lemma FindKey(prefix: string -> U64, s: State, role: U64, perm: string)
    ensures Any(s.rolePerms, KeyIs(prefix, role, perm)) <==> exists p | p in Permits(s) :: p.0 == role && prefix(p.1) == prefix(perm)
  {
    forall r: RolePerm
      ensures KeyIs(prefix, role, perm)(r) <==> r.role == role && prefix(r.perm) == prefix(perm)
    {
      PackInjective(r.role, prefix(r.perm), role, prefix(perm));
    }
    if p :| p in Permits(s) && p.0 == role && prefix(p.1) == prefix(perm) {
      var r :| r in s.rolePerms && (r.role, r.perm) == p;
      var i :| 0 <= i < |s.rolePerms| && s.rolePerms[i] == r;
      assert KeyIs(prefix, role, perm)(s.rolePerms[i]);
    }
    if Any(s.rolePerms, KeyIs(prefix, role, perm)) {
      var i :| 0 <= i < |s.rolePerms| && KeyIs(prefix, role, perm)(s.rolePerms[i]);
      assert (s.rolePerms[i].role, s.rolePerms[i].perm) in Permits(s);
    }
  }

  // ---------- checkrole ----------

  /** `checkrole` passes exactly when some role of the user permits something with the same hash prefix. */
  lemma CheckRoleIff(prefix: string -> U64, s: State, user: U64, perm: string)
    requires user != 0 && perm != ""
    ensures CheckRoleSpec(prefix, s, user, perm).Some? <==>
            exists h, p | h in Holds(s) && p in Permits(s) :: h.0 == user && p.0 == h.1 && prefix(p.1) == prefix(perm)
  {
    if i :| 0 <= i < |s.userRoles| && s.userRoles[i].user == user && Any(s.rolePerms, KeyIs(prefix, s.userRoles[i].role, perm)) {
      var role := s.userRoles[i].role;
      FindKey(prefix, s, role, perm);
      var p :| p in Permits(s) && p.0 == role && prefix(p.1) == prefix(perm);
      assert (user, role) in Holds(s);
      assert (user, role).0 == user && p.0 == (user, role).1;
    }
    if h, p :| h in Holds(s) && p in Permits(s) && h.0 == user && p.0 == h.1 && prefix(p.1) == prefix(perm) {
      FindKey(prefix, s, h.1, perm);
      var r :| r in s.userRoles && (r.user, r.role) == h;
      var i :| 0 <= i < |s.userRoles| && s.userRoles[i] == r;
      assert s.userRoles[i].user == user && Any(s.rolePerms, KeyIs(prefix, s.userRoles[i].role, perm));
    }
  }

  /** No two different permissions of a vocabulary share a hash prefix. */
  ghost predicate Injective(prefix: string -> U64, words: set<string>) {
    forall p, q | p in words && q in words && prefix(p) == prefix(q) :: p == q
  }

  ghost predicate Within(r: Relation, words: set<string>) {
    forall p | p in r.permits :: p.1 in words
  }

  /** With such a vocabulary, it passes exactly when the user has a role with that very permission. */
  lemma CheckRoleIsRelation(prefix: string -> U64, s: State, user: U64, perm: string, words: set<string>)
    requires user != 0 && perm != "" && Injective(prefix, words) && Within(Abs(s), words) && perm in words
    ensures CheckRoleSpec(prefix, s, user, perm).Some? <==> exists h | h in Holds(s) :: h.0 == user && (h.1, perm) in Permits(s)
  {
    hide CheckRoleSpec;
    CheckRoleIff(prefix, s, user, perm);
    if h, p :| h in Holds(s) && p in Permits(s) && h.0 == user && p.0 == h.1 && prefix(p.1) == prefix(perm) {
      assert p in Abs(s).permits;
      assert p == (h.1, perm);
    }
    if h :| h in Holds(s) && h.0 == user && (h.1, perm) in Permits(s) {
      var p := (h.1, perm);
      assert p.0 == h.1 && prefix(p.1) == prefix(perm);
    }
  }

  // ---------- Steps ----------

  ghost predicate Speaks(act: Action, words: set<string>) {
    match act
    case AddPerms(_, perms) => forall p | p in perms :: p in words
    case DelPerms(_, perms) => forall p | p in perms :: p in words
    case _ => true
  }

  /** A step of the tables and the same step of the relation: both abort, or both commit and still agree. */
  ghost predicate Agrees(prefix: string -> U64, t: Option<State>, r: Option<Relation>) {
    match t
    case Abort => r.Abort?
    case Some(u) => r.Some? && WellFormed(prefix, u) && Abs(u) == r.value
  }

  lemma RoleStepRefines(prefix: string -> U64, s: State, act: Action, allowed: bool)
    requires WellFormed(prefix, s) && (act.AddRole? || act.DelRole?)
    ensures Agrees(prefix, Step(prefix, s, act, allowed), RelStep(Abs(s), act, allowed))
  {
    hide Distinct, Any;
    var role := act.role;
    FindRole(s, role);
    FindHolder(s, role);
    var r := Step(prefix, s, act, allowed);
    if r.Some? && (act.AddRole? <==> role !in Roles(s)) {
      var t := r.value;
      match act {
        case AddRole(_) =>
          var row := RoleRow(s.lastRole + 1, role);
          assert forall x | x in s.roles :: x.role in Roles(s);
          AppendFacts(s.roles, row, RoleKey());
          AddedRole(s, t, row);
        case DelRole(_) =>
          RolesOnce(s.roles, role);
          EraseFirstFacts(s.roles, RoleIs(role), RoleKey());
          EraseAllFacts(s.rolePerms, OfRole(role), PermKey(prefix));
          DeletedRole(s, t, role);
      }
    } else if act.AddRole? {
      assert role in Roles(s) ==> Roles(s) + {role} == Roles(s);
    }
  }

  lemma RolesOnce(rows: seq<RoleRow>, role: U64)
    requires Distinct(rows, RoleKey())
    ensures OneHit(rows, RoleIs(role))
  {
    forall i, j | 0 <= i < j < |rows|
      ensures !(RoleIs(role)(rows[i]) && RoleIs(role)(rows[j]))
    {
      assert RoleKey()(rows[i]) != RoleKey()(rows[j]);
    }
  }

  lemma AddedRole(s: State, t: State, row: RoleRow)
    requires t.roles == s.roles + [row] && t.userRoles == s.userRoles && t.rolePerms == s.rolePerms
    ensures Abs(t) == Abs(s).(roles := Abs(s).roles + {row.role})
  {
    assert row in t.roles;
    assert forall x | x in t.roles :: x in s.roles || x == row;
    assert forall x | x in s.roles :: x in t.roles;
  }

  lemma DeletedRole(s: State, t: State, role: U64)
    requires forall x: RoleRow :: x in t.roles <==> x in s.roles && !RoleIs(role)(x)
    requires forall x: RolePerm :: x in t.rolePerms <==> x in s.rolePerms && !OfRole(role)(x)
    requires t.userRoles == s.userRoles
    ensures Roles(t) == Roles(s) - {role} && Holds(t) == Holds(s) && Permits(t) == set p | p in Permits(s) && p.0 != role
  {
  }

  lemma GrantStepRefines(prefix: string -> U64, s: State, act: Action, allowed: bool)
    requires WellFormed(prefix, s) && (act.Grant? || act.Revoke?)
    ensures Agrees(prefix, Step(prefix, s, act, allowed), RelStep(Abs(s), act, allowed))
  {
    hide Distinct, Any;
    var user, role := act.user, act.role;
    FindRole(s, role);
    FindGrant(s, user, role);
    var r := Step(prefix, s, act, allowed);
    if r.Some? && (act.Grant? <==> (user, role) !in Holds(s)) {
      var t := r.value;
      match act {
        case Grant(_, _) =>
          var row := UserRole(s.lastUserRole + 1, user, role);
          assert forall x | x in s.userRoles :: (x.user, x.role) in Holds(s);
          AppendFacts(s.userRoles, row, GrantKey());
          assert row in t.userRoles;
          assert Holds(t) == Holds(s) + {(user, role)};
        case Revoke(_, _) =>
          GrantsOnce(s.userRoles, user, role);
          EraseFirstFacts(s.userRoles, GrantIs(user, role), GrantKey());
          Revoked(s, t, user, role);
      }
    } else if act.Grant? {
      assert (user, role) in Holds(s) ==> Holds(s) + {(user, role)} == Holds(s);
    }
  }

  lemma GrantsOnce(rows: seq<UserRole>, user: U64, role: U64)
    requires Distinct(rows, GrantKey())
    ensures OneHit(rows, GrantIs(user, role))
  {
    forall i, j | 0 <= i < j < |rows|
      ensures !(GrantIs(user, role)(rows[i]) && GrantIs(user, role)(rows[j]))
    {
      assert GrantKey()(rows[i]) != GrantKey()(rows[j]);
      PackInjective(rows[i].user, rows[i].role, user, role);
      PackInjective(rows[j].user, rows[j].role, user, role);
    }
  }

  lemma Revoked(s: State, t: State, user: U64, role: U64)
    requires forall x: UserRole :: x in t.userRoles <==> x in s.userRoles && !GrantIs(user, role)(x)
    ensures Holds(t) == Holds(s) - {(user, role)}
  {
    forall r: UserRole
      ensures GrantIs(user, role)(r) <==> r.user == user && r.role == role
    {
      PackInjective(r.user, r.role, user, role);
    }
  }

  // ---------- Permissions ----------

  ghost function Pairs(role: U64, perms: seq<string>): set<(U64, string)> {
    set p | p in perms :: (role, p)
  }

  /** What adding permissions one by one needs of the relation. */
  ghost predicate Addable(r: Relation, role: U64, perms: seq<string>) {
    && (forall i, j | 0 <= i < j < |perms| :: perms[i] != perms[j])
    && (forall p | p in perms :: p != "" && (role, p) !in r.permits)
  }

  lemma AddableStep(r: Relation, role: U64, perms: seq<string>)
    requires perms != []
    ensures var init, last := perms[..|perms| - 1], perms[|perms| - 1];
            && (Addable(r, role, perms) <==> Addable(r, role, init) && last != "" && (role, last) !in r.permits + Pairs(role, init))
            && Pairs(role, perms) == Pairs(role, init) + {(role, last)}
  {
    var init, last := perms[..|perms| - 1], perms[|perms| - 1];
    assert perms == init + [last];
    assert forall i | 0 <= i < |init| :: perms[i] == init[i] && init[i] in init;
    assert (role, last) in Pairs(role, init) <==> last in init;
  }

  /** A key look-up within the vocabulary is a look-up of the very permission. */
  lemma KeyIsPermission(prefix: string -> U64, s: State, role: U64, perm: string, words: set<string>)
    requires Injective(prefix, words) && Within(Abs(s), words) && perm in words
    ensures Any(s.rolePerms, KeyIs(prefix, role, perm)) <==> (role, perm) in Permits(s)
  {
    FindKey(prefix, s, role, perm);
    if p :| p in Permits(s) && p.0 == role && prefix(p.1) == prefix(perm) {
      assert p in Abs(s).permits;
      assert p == (role, perm);
    }
    if (role, perm) in Permits(s) {
      assert (role, perm).0 == role && prefix((role, perm).1) == prefix(perm);
    }
  }

  lemma {:induction false} AddEachRefines(prefix: string -> U64, s: State, role: U64, perms: seq<string>, words: set<string>)
    requires WellFormed(prefix, s) && Injective(prefix, words) && Within(Abs(s), words) && role in Roles(s)
    requires forall p | p in perms :: p in words
    ensures Agrees(prefix, AddEach(prefix, s, role, perms), if Addable(Abs(s), role, perms) then Some(Abs(s).(permits := Permits(s) + Pairs(role, perms))) else Abort)
  {
    hide Distinct, Any, Injective, Addable;
    if perms == [] {
      NothingToAdd(Abs(s), role);
      assert Pairs(role, []) == {};
    } else {
      var init, perm := perms[..|perms| - 1], perms[|perms| - 1];
      assert perm in perms;
      AddEachRefines(prefix, s, role, init, words);
      AddableStep(Abs(s), role, perms);
      if AddEach(prefix, s, role, init).Some? {
        var before := AddEach(prefix, s, role, init).value;
        assert Within(Abs(before), words);
        KeyIsPermission(prefix, before, role, perm, words);
        if (role, perm) !in Permits(before) && perm != "" {
          OnePermMore(prefix, before, role, perm, RolePerm(before.lastRolePerm + 1, role, perm));
          assert Permits(s) + Pairs(role, init) + {(role, perm)} == Permits(s) + Pairs(role, perms);
        }
      }
    }
  }

  lemma NothingToAdd(r: Relation, role: U64)
    ensures Addable(r, role, [])
  {
  }

  lemma OnePermMore(prefix: string -> U64, s: State, role: U64, perm: string, row: RolePerm)
    requires WellFormed(prefix, s) && role in Roles(s) && row.role == role && row.perm == perm
    requires !Any(s.rolePerms, KeyIs(prefix, role, perm))
    ensures var t := s.(lastRolePerm := s.lastRolePerm + 1, rolePerms := s.rolePerms + [row]);
            WellFormed(prefix, t) && Abs(t) == Abs(s).(permits := Permits(s) + {(role, perm)})
  {
    hide Distinct;
    var t := s.(lastRolePerm := s.lastRolePerm + 1, rolePerms := s.rolePerms + [row]);
    forall x | x in s.rolePerms
      ensures PermKey(prefix)(x) != PermKey(prefix)(row)
    {
      var i :| 0 <= i < |s.rolePerms| && s.rolePerms[i] == x;
      assert !KeyIs(prefix, role, perm)(s.rolePerms[i]);
      PackInjective(x.role, prefix(x.perm), role, prefix(perm));
    }
    AppendFacts(s.rolePerms, row, PermKey(prefix));
    assert row in t.rolePerms;
    assert Permits(t) == Permits(s) + {(role, perm)};
  }

  lemma {:induction false} EraseEachRefines(prefix: string -> U64, s: State, role: U64, perms: seq<string>, words: set<string>)
    requires WellFormed(prefix, s) && Injective(prefix, words) && Within(Abs(s), words)
    requires forall p | p in perms :: p in words
    ensures var t := s.(rolePerms := EraseEach(prefix, s.rolePerms, role, perms));
            WellFormed(prefix, t) && Abs(t) == Abs(s).(permits := Permits(s) - Pairs(role, perms))
  {
    hide Distinct, Injective;
    if perms == [] {
      assert Pairs(role, []) == {};
    } else {
      var init, perm := perms[..|perms| - 1], perms[|perms| - 1];
      assert perm in perms;
      EraseEachRefines(prefix, s, role, init, words);
      AddableStep(Abs(s), role, perms);
      var before := s.(rolePerms := EraseEach(prefix, s.rolePerms, role, init));
      OnePermLess(prefix, before, role, perm, words);
      assert Permits(s) - Pairs(role, init) - {(role, perm)} == Permits(s) - Pairs(role, perms);
    }
  }

  lemma OnePermLess(prefix: string -> U64, s: State, role: U64, perm: string, words: set<string>)
    requires WellFormed(prefix, s) && Injective(prefix, words) && Within(Abs(s), words) && perm in words
    ensures var t := s.(rolePerms := EraseFirst(s.rolePerms, KeyIs(prefix, role, perm)));
            WellFormed(prefix, t) && Abs(t) == Abs(s).(permits := Permits(s) - {(role, perm)})
  {
    var hit := KeyIs(prefix, role, perm);
    var t := s.(rolePerms := EraseFirst(s.rolePerms, hit));
    KeysOnce(prefix, s.rolePerms, role, perm);
    EraseFirstFacts(s.rolePerms, hit, PermKey(prefix));
    hide Distinct;
    forall x | x in s.rolePerms
      ensures hit(x) <==> (x.role, x.perm) == (role, perm)
    {
      PackInjective(x.role, prefix(x.perm), role, prefix(perm));
      assert (x.role, x.perm) in Abs(s).permits;
    }
    assert Permits(t) == Permits(s) - {(role, perm)};
  }

  lemma KeysOnce(prefix: string -> U64, rows: seq<RolePerm>, role: U64, perm: string)
    requires Distinct(rows, PermKey(prefix))
    ensures OneHit(rows, KeyIs(prefix, role, perm))
  {
    forall i, j | 0 <= i < j < |rows|
      ensures !(KeyIs(prefix, role, perm)(rows[i]) && KeyIs(prefix, role, perm)(rows[j]))
    {
      assert PermKey(prefix)(rows[i]) != PermKey(prefix)(rows[j]);
      PackInjective(rows[i].role, prefix(rows[i].perm), role, prefix(perm));
      PackInjective(rows[j].role, prefix(rows[j].perm), role, prefix(perm));
    }
  }

  lemma PermStepRefines(prefix: string -> U64, s: State, act: Action, allowed: bool, words: set<string>)
    requires WellFormed(prefix, s) && Injective(prefix, words) && Within(Abs(s), words) && Speaks(act, words)
    requires act.AddPerms? || act.DelPerms?
    ensures Agrees(prefix, Step(prefix, s, act, allowed), RelStep(Abs(s), act, allowed))
  {
    hide WellFormed, Injective, Any, Within, AddEach, EraseEach;
    FindRole(s, act.role);
    match act {
      case AddPerms(role, perms) =>
        if role in Roles(s) {
          AddEachRefines(prefix, s, role, perms, words);
        }
      case DelPerms(role, perms) => EraseEachRefines(prefix, s, role, perms, words);
    }
  }

  lemma StepRefines(prefix: string -> U64, s: State, act: Action, allowed: bool, words: set<string>)
    requires WellFormed(prefix, s) && Injective(prefix, words) && Within(Abs(s), words) && Speaks(act, words)
    ensures Agrees(prefix, Step(prefix, s, act, allowed), RelStep(Abs(s), act, allowed))
    ensures Within(Abs(After(Step(prefix, s, act, allowed), s)), words)
  {
    if act.AddRole? || act.DelRole? {
      RoleStepRefines(prefix, s, act, allowed);
    } else if act.Grant? || act.Revoke? {
      GrantStepRefines(prefix, s, act, allowed);
    } else {
      PermStepRefines(prefix, s, act, allowed, words);
    }
    hide WellFormed, Injective, Step, Abs;
  }

  /** Over every run whose permissions have distinct hash prefixes, the tables stand for exactly the relation that the actions
      describe: the same actions commit, every row refers to an existing role, and no key occurs twice. */
  lemma {:induction false} RunRefines(prefix: string -> U64, trace: Trace, words: set<string>)
    requires Injective(prefix, words)
    requires forall i | 0 <= i < |trace| :: Speaks(trace[i].0, words)
    ensures var s := Run(prefix, Start(), trace);
            WellFormed(prefix, s) && Within(Abs(s), words) && Abs(s) == RelRun(Relation({}, {}, {}), trace)
  {
    hide WellFormed, Injective, Step, RelStep, Speaks, Within, Abs;
    if trace == [] {
      StartIsEmpty(prefix, words);
    } else {
      var init, last := trace[..|trace| - 1], trace[|trace| - 1];
      RunRefines(prefix, init, words);
      assert Speaks(trace[|trace| - 1].0, words);
      StepRefines(prefix, Run(prefix, Start(), init), last.0, last.1, words);
    }
  }

  lemma StartIsEmpty(prefix: string -> U64, words: set<string>)
    ensures WellFormed(prefix, Start()) && Abs(Start()) == Relation({}, {}, {}) && Within(Abs(Start()), words)
  {
  }

  // ---------- Any hash prefix ----------

  /** Adding and erasing permissions one by one keeps the tables in order, whatever the prefixes do. */
  lemma {:induction false} AddEachKeeps(prefix: string -> U64, s: State, role: U64, perms: seq<string>)
    requires WellFormed(prefix, s) && role in Roles(s)
    ensures var r := AddEach(prefix, s, role, perms); r.Some? ==> WellFormed(prefix, r.value) && Roles(r.value) == Roles(s)
  {
    hide Distinct, Any;
    if perms != [] && AddEach(prefix, s, role, perms).Some? {
      var init, perm := perms[..|perms| - 1], perms[|perms| - 1];
      AddEachKeeps(prefix, s, role, init);
      var before := AddEach(prefix, s, role, init).value;
      OnePermMore(prefix, before, role, perm, RolePerm(before.lastRolePerm + 1, role, perm));
    }
  }

  lemma {:induction false} EraseEachKeeps(prefix: string -> U64, s: State, role: U64, perms: seq<string>)
    requires WellFormed(prefix, s)
    ensures WellFormed(prefix, s.(rolePerms := EraseEach(prefix, s.rolePerms, role, perms)))
  {
    hide Distinct;
    if perms != [] {
      var init, perm := perms[..|perms| - 1], perms[|perms| - 1];
      EraseEachKeeps(prefix, s, role, init);
      var before := s.(rolePerms := EraseEach(prefix, s.rolePerms, role, init));
      KeysOnce(prefix, before.rolePerms, role, perm);
      EraseFirstFacts(before.rolePerms, KeyIs(prefix, role, perm), PermKey(prefix));
    }
  }

  lemma StepKeepsWellFormed(prefix: string -> U64, s: State, act: Action, allowed: bool)
    requires WellFormed(prefix, s)
    ensures WellFormed(prefix, After(Step(prefix, s, act, allowed), s))
  {
    if act.AddRole? || act.DelRole? {
      RoleStepRefines(prefix, s, act, allowed);
    } else if act.Grant? || act.Revoke? {
      GrantStepRefines(prefix, s, act, allowed);
    } else {
      hide WellFormed, Any, AddEach, EraseEach;
      FindRole(s, act.role);
      if act.AddPerms? {
        if act.role in Roles(s) {
          AddEachKeeps(prefix, s, act.role, act.perms);
        }
      } else {
        EraseEachKeeps(prefix, s, act.role, act.perms);
      }
    }
  }

  /** In every reachable state, for every hash: each grant and each permission refers to an existing role, and no role, no
      (user, role) and no (role, hash prefix) occurs twice. */
  lemma {:induction false} RunKeepsWellFormed(prefix: string -> U64, trace: Trace)
    ensures WellFormed(prefix, Run(prefix, Start(), trace))
  {
    hide WellFormed, Step;
    if trace == [] {
      StartIsEmpty(prefix, {});
    } else {
      var init, last := trace[..|trace| - 1], trace[|trace| - 1];
      RunKeepsWellFormed(prefix, init);
      StepKeepsWellFormed(prefix, Run(prefix, Start(), init), last.0, last.1);
    }
  }

  // ---------- Colliding prefixes ----------

  /** The relation is what the tables stand for after every run that uses a vocabulary. */
  ghost predicate AlwaysRefines(prefix: string -> U64, words: set<string>) {
    forall trace: Trace | (forall i | 0 <= i < |trace| :: Speaks(trace[i].0, words)) ::
      Abs(Run(prefix, Start(), trace)) == RelRun(Relation({}, {}, {}), trace)
  }

  lemma OneMore(prefix: string -> U64, trace: Trace, act: Action)
    ensures var s, r := Run(prefix, Start(), trace), RelRun(Relation({}, {}, {}), trace);
            && Run(prefix, Start(), trace + [(act, true)]) == After(Step(prefix, s, act, true), s)
            && RelRun(Relation({}, {}, {}), trace + [(act, true)]) == After(RelStep(r, act, true), r)
  {
    assert (trace + [(act, true)])[..|trace|] == trace;
  }

  lemma OnePerm(prefix: string -> U64, s: State, role: U64, p: string)
    ensures AddEach(prefix, s, role, [p]) ==
            if p != "" && !Any(s.rolePerms, KeyIs(prefix, role, p)) then Some(s.(lastRolePerm := s.lastRolePerm + 1, rolePerms := s.rolePerms + [RolePerm(s.lastRolePerm + 1, role, p)]))
            else Abort
    ensures EraseEach(prefix, s.rolePerms, role, [p]) == EraseFirst(s.rolePerms, KeyIs(prefix, role, p))
  {
    hide Any, KeyIs, EraseFirst;
    assert [p][..0] == [];
    assert AddEach(prefix, s, role, []) == Some(s) && EraseEach(prefix, s.rolePerms, role, []) == s.rolePerms;
  }

  lemma OnePair(role: U64, p: string)
    ensures (set x | x in [p] :: (role, x)) == {(role, p)}
  {
    assert p in [p];
  }

  /** Role 1 with permission `p`. */
  function WithPermission(p: string): State { State(1, 0, 1, [RoleRow(1, 1)], [], [RolePerm(1, 1, p)]) }

  lemma Stands(p: string)
    ensures Abs(WithPermission(p)) == Relation({1}, {}, {(1, p)})
  {
    var s := WithPermission(p);
    assert RoleRow(1, 1) in s.roles && RolePerm(1, 1, p) in s.rolePerms;
  }

  lemma OnePermission(prefix: string -> U64, p: string) returns (trace: Trace)
    requires p != ""
    ensures trace == [(AddRole(1), true), (AddPerms(1, [p]), true)]
    ensures Run(prefix, Start(), trace) == WithPermission(p)
    ensures RelRun(Relation({}, {}, {}), trace) == Relation({1}, {}, {(1, p)})
  {
    hide Run, RelRun, Step, RelStep;
    var one: Trace := [] + [(AddRole(1), true)];
    trace := one + [(AddPerms(1, [p]), true)];
    NoActions(prefix);
    OneMore(prefix, [], AddRole(1));
    OneMore(prefix, one, AddPerms(1, [p]));
    FirstRole(prefix);
    FirstPermission(prefix, p);
  }

  lemma FirstRole(prefix: string -> U64)
    ensures Step(prefix, Start(), AddRole(1), true) == Some(State(1, 0, 0, [RoleRow(1, 1)], [], []))
    ensures RelStep(Relation({}, {}, {}), AddRole(1), true) == Some(Relation({1}, {}, {}))
  {
    assert [] + [RoleRow(1, 1)] == [RoleRow(1, 1)];
    assert AddRoleSpec(Start(), true, 1) == Some(State(1, 0, 0, [RoleRow(1, 1)], [], []));
    var none: set<U64> := {};
    assert none + {1} == {1};
  }

  lemma FirstPermission(prefix: string -> U64, p: string)
    requires p != ""
    ensures Step(prefix, State(1, 0, 0, [RoleRow(1, 1)], [], []), AddPerms(1, [p]), true) == Some(WithPermission(p))
    ensures RelStep(Relation({1}, {}, {}), AddPerms(1, [p]), true) == Some(Relation({1}, {}, {(1, p)}))
  {
    hide AddEach;
    var s := State(1, 0, 0, [RoleRow(1, 1)], [], []);
    assert RoleIs(1)(s.roles[0]);
    OnePerm(prefix, s, 1, p);
    assert [] + [RolePerm(1, 1, p)] == [RolePerm(1, 1, p)];
    assert AddPermsSpec(prefix, s, true, 1, [p]) == Some(WithPermission(p));
    OnePair(1, p);
    var none: set<(U64, string)> := {};
    assert none + {(1, p)} == {(1, p)};
    assert RelAddPerms(Relation({1}, {}, {}), true, 1, [p]) == Some(Relation({1}, {}, {(1, p)}));
  }

  lemma NoActions(prefix: string -> U64)
    ensures Run(prefix, Start(), []) == Start() && RelRun(Relation({}, {}, {}), []) == Relation({}, {}, {})
  {
  }

  /** Of two permissions with one prefix, a role that has the first is refused the second, and removing the second takes away the
      first. */
  lemma CollisionConfuses(prefix: string -> U64, p: string, q: string)
    requires p != "" && p != q && prefix(p) == prefix(q)
    ensures var s := Run(prefix, Start(), [(AddRole(1), true), (AddPerms(1, [p]), true)]);
            && Abs(s) == Relation({1}, {}, {(1, p)})
            && Step(prefix, s, AddPerms(1, [q]), true).Abort?
            && (q != "" ==> RelStep(Abs(s), AddPerms(1, [q]), true).Some?)
            && Step(prefix, s, DelPerms(1, [q]), true) == Some(s.(rolePerms := []))
            && RelStep(Abs(s), DelPerms(1, [q]), true) == Some(Abs(s))
  {
    var trace := OnePermission(prefix, p);
    Stands(p);
    hide Run, Abs, AddEach, EraseEach;
    var s := WithPermission(p);
    OnePerm(prefix, s, 1, q);
    OnePair(1, q);
    assert KeyIs(prefix, 1, q)(s.rolePerms[0]);
    assert s.rolePerms[1..] == [];
    assert {(1 as U64, p)} - {(1 as U64, q)} == {(1 as U64, p)};
  }

  /** So the tables stand for the relation after every run over a vocabulary if and only if no two of its words share a prefix. */
  lemma RefinesIffInjective(prefix: string -> U64, words: set<string>)
    ensures AlwaysRefines(prefix, words) <==> Injective(prefix, words)
  {
    hide Speaks, Run, RelRun, Abs;
    if Injective(prefix, words) {
      forall trace: Trace | forall i | 0 <= i < |trace| :: Speaks(trace[i].0, words)
        ensures Abs(Run(prefix, Start(), trace)) == RelRun(Relation({}, {}, {}), trace)
      {
        RunRefines(prefix, trace, words);
      }
    } else {
      var p, q :| p in words && q in words && prefix(p) == prefix(q) && p != q;
      if p == "" {
        NotRefined(prefix, words, q, p);
      } else {
        NotRefined(prefix, words, p, q);
      }
    }
  }

  lemma NotRefined(prefix: string -> U64, words: set<string>, p: string, q: string)
    requires p in words && q in words && p != "" && p != q && prefix(p) == prefix(q)
    ensures !AlwaysRefines(prefix, words)
  {
    hide Run, RelRun, Abs, Step, RelStep;
    var two := OnePermission(prefix, p);
    CollisionConfuses(prefix, p, q);
    var three: Trace := two + [(DelPerms(1, [q]), true)];
    OneMore(prefix, two, DelPerms(1, [q]));
    assert forall i | 0 <= i < |three| :: Speaks(three[i].0, words);
    NothingPermitted(Run(prefix, Start(), three));
  }

  lemma NothingPermitted(s: State)
    ensures s.rolePerms == [] ==> Abs(s).permits == {}
  {
  }
}
