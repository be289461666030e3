/** The contract object of flon.auth. */
module AuthContract {
  import opened Eosio
  import opened AuthModel
  import AuthRelation

  lemma {:induction false} AddEachStops(prefix: string -> U64, s: State, role: U64, perms: seq<string>, i: nat)
    requires i <= |perms| && AddEach(prefix, s, role, perms[..i]).Abort?
    ensures AddEach(prefix, s, role, perms).Abort?
  {
    hide Any;
    if i < |perms| {
      assert perms[..|perms| - 1][..i] == perms[..i];
      AddEachStops(prefix, s, role, perms[..|perms| - 1], i);
    } else {
      assert perms[..i] == perms;
    }
  }

  lemma NothingErased<T>(all: seq<T>, hit: T -> bool)
    ensures EraseAll(all[..0], hit) == [] && all[0..] == all
  {
  }

  lemma EraseTurn<T>(all: seq<T>, hit: T -> bool, k: nat)
    requires k < |all|
    ensures EraseAll(all[..k + 1], hit) == EraseAll(all[..k], hit) + if hit(all[k]) then [] else [all[k]]
  {
    assert all[..k + 1][..k] == all[..k];
  }

  /** Tables in order stay in order, for every hash. */
  ghost predicate StaysInOrder(before: State, after: State) {
    forall prefix: string -> U64 :: AuthRelation.WellFormed(prefix, before) ==> AuthRelation.WellFormed(prefix, after)
  }

  lemma GrantsStayInOrder(s: State, act: Action, allowed: bool)
    requires act.AddRole? || act.DelRole? || act.Grant? || act.Revoke?
    ensures forall prefix: string -> U64 :: AuthRelation.WellFormed(prefix, s) ==> AuthRelation.WellFormed(prefix, After(Step(prefix, s, act, allowed), s))
  {
    hide AuthRelation.WellFormed, Step;
    forall prefix: string -> U64 | AuthRelation.WellFormed(prefix, s)
      ensures AuthRelation.WellFormed(prefix, After(Step(prefix, s, act, allowed), s))
    {
      AuthRelation.StepKeepsWellFormed(prefix, s, act, allowed);
    }
  }

  class FlonAuth {
    var lastRole: nat
    var lastUserRole: nat
    var lastRolePerm: nat
    var roles: seq<RoleRow>
    var userRoles: seq<UserRole>
    var rolePerms: seq<RolePerm>

    ghost function Snapshot(): State
      reads this
    {
      State(lastRole, lastUserRole, lastRolePerm, roles, userRoles, rolePerms)
    }

    constructor ()
      ensures Snapshot() == Start()
    {
      lastRole, lastUserRole, lastRolePerm := 0, 0, 0;
      roles, userRoles, rolePerms := [], [], [];
    }

    method AddRole(allowed: bool, role: U64) returns (r: Option<()>)
      modifies this
      ensures Applied(r, AddRoleSpec(old(Snapshot()), allowed, role), old(Snapshot()), Snapshot())
      ensures StaysInOrder(old(Snapshot()), Snapshot())
    {
      hide Any, AuthRelation.WellFormed;
      GrantsStayInOrder(Snapshot(), Action.AddRole(role), allowed);
      var _ :- Check(allowed);
      var _ :- Check(role != 0);
      if !Any(roles, RoleIs(role)) {
        lastRole := lastRole + 1;
        roles := roles + [RoleRow(lastRole, role)];
      }
      return Some(());
    }

    method DelRole(allowed: bool, role: U64) returns (r: Option<()>)
      modifies this
      ensures Applied(r, DelRoleSpec(old(Snapshot()), allowed, role), old(Snapshot()), Snapshot())
      ensures StaysInOrder(old(Snapshot()), Snapshot())
    {
      hide Any, EraseFirst, AuthRelation.WellFormed;
      GrantsStayInOrder(Snapshot(), Action.DelRole(role), allowed);
      var _ :- Check(allowed);
      var _ :- Check(role != 0);
      if !Any(roles, RoleIs(role)) {
        return Some(());
      }
      var _ :- Check(!Any(userRoles, HoldsRole(role)));
      var kept := ClearPerms(rolePerms, role);
      rolePerms := kept;
      roles := EraseFirst(roles, RoleIs(role));
      return Some(());
    }

    /** Erases every permission of a role from the list that the loop walks. */
    method ClearPerms(all: seq<RolePerm>, role: U64) returns (rows: seq<RolePerm>)
      ensures rows == EraseAll(all, OfRole(role))
    {
      hide EraseAll;
      rows := all;
      var it := 0;
      ghost var seen := 0;
      NothingErased(all, OfRole(role));
      while it < |rows|
        invariant seen <= |all| && it == |EraseAll(all[..seen], OfRole(role))|
        invariant rows == EraseAll(all[..seen], OfRole(role)) + all[seen..]
        decreases |all| - seen
      {
        EraseTurn(all, OfRole(role), seen);
        assert rows[it] == all[seen] && rows[it + 1..] == all[seen + 1..];
        if rows[it].role == role {
          rows := rows[..it] + rows[it + 1..];
        } else {
          it := it + 1;
        }
        seen := seen + 1;
      }
      assert all[..seen] == all && all[seen..] == [];
    }

    method GrantRole(allowed: bool, user: U64, role: U64) returns (r: Option<()>)
      modifies this
      ensures Applied(r, GrantSpec(old(Snapshot()), allowed, user, role), old(Snapshot()), Snapshot())
      ensures StaysInOrder(old(Snapshot()), Snapshot())
    {
      hide Any, AuthRelation.WellFormed;
      GrantsStayInOrder(Snapshot(), Action.Grant(user, role), allowed);
      var _ :- Check(allowed && user != 0 && role != 0);
      var _ :- Check(Any(roles, RoleIs(role)));
      if !Any(userRoles, GrantIs(user, role)) {
        lastUserRole := lastUserRole + 1;
        userRoles := userRoles + [UserRole(lastUserRole, user, role)];
      }
      return Some(());
    }

    method RevokeRole(allowed: bool, user: U64, role: U64) returns (r: Option<()>)
      modifies this
      ensures Applied(r, RevokeSpec(old(Snapshot()), allowed, user, role), old(Snapshot()), Snapshot())
      ensures StaysInOrder(old(Snapshot()), Snapshot())
    {
      hide Any, EraseFirst, AuthRelation.WellFormed;
      GrantsStayInOrder(Snapshot(), Action.Revoke(user, role), allowed);
      var _ :- Check(allowed && user != 0 && role != 0);
      var _ :- Check(Any(userRoles, GrantIs(user, role)));
      userRoles := EraseFirst(userRoles, GrantIs(user, role));
      return Some(());
    }

    method AddRolePerm(prefix: string -> U64, allowed: bool, role: U64, perms: seq<string>) returns (r: Option<()>)
      modifies this
      ensures Applied(r, AddPermsSpec(prefix, old(Snapshot()), allowed, role, perms), old(Snapshot()), Snapshot())
      ensures AuthRelation.WellFormed(prefix, old(Snapshot())) ==> AuthRelation.WellFormed(prefix, Snapshot())
    {
      hide Any, KeyIs, AuthRelation.WellFormed;
      if AuthRelation.WellFormed(prefix, Snapshot()) {
        AuthRelation.StepKeepsWellFormed(prefix, Snapshot(), Action.AddPerms(role, perms), allowed);
      }
      var _ :- Check(allowed && role != 0);
      var _ :- Check(perms != []);
      var _ :- Check(Any(roles, RoleIs(role)));
      var rows, last := rolePerms, lastRolePerm;
      for i := 0 to |perms|
        invariant Snapshot() == old(Snapshot())
        invariant AddEach(prefix, Snapshot(), role, perms[..i]) == Some(Snapshot().(lastRolePerm := last, rolePerms := rows))
      {
        var p := perms[i];
        assert perms[..i + 1][..i] == perms[..i];
        if p == "" || Any(rows, KeyIs(prefix, role, p)) {
          AddEachStops(prefix, Snapshot(), role, perms, i + 1);
          return Abort;
        }
        last := last + 1;
        rows := rows + [RolePerm(last, role, p)];
      }
      assert perms[..|perms|] == perms;
      rolePerms, lastRolePerm := rows, last;
      return Some(());
    }

    method DelRolePerm(prefix: string -> U64, allowed: bool, role: U64, perms: seq<string>) returns (r: Option<()>)
      modifies this
      ensures Applied(r, DelPermsSpec(prefix, old(Snapshot()), allowed, role, perms), old(Snapshot()), Snapshot())
      ensures AuthRelation.WellFormed(prefix, old(Snapshot())) ==> AuthRelation.WellFormed(prefix, Snapshot())
    {
      hide EraseFirst, KeyIs, AuthRelation.WellFormed;
      if AuthRelation.WellFormed(prefix, Snapshot()) {
        AuthRelation.StepKeepsWellFormed(prefix, Snapshot(), Action.DelPerms(role, perms), allowed);
      }
      var _ :- Check(allowed && role != 0);
      var _ :- Check(perms != []);
      var rows := rolePerms;
      for i := 0 to |perms|
        invariant Snapshot() == old(Snapshot())
        invariant rows == EraseEach(prefix, rolePerms, role, perms[..i])
      {
        assert perms[..i + 1][..i] == perms[..i];
        rows := EraseFirst(rows, KeyIs(prefix, role, perms[i]));
      }
      assert perms[..|perms|] == perms;
      rolePerms := rows;
      return Some(());
    }

    method CheckRole(prefix: string -> U64, user: U64, perm: string) returns (r: Option<()>)
      ensures r == CheckRoleSpec(prefix, Snapshot(), user, perm)
    {
      hide Any, KeyIs;
      var _ :- Check(user != 0);
      var _ :- Check(perm != "");
      var ok := false;
      var i := 0;
      while i < |userRoles| && !ok
        invariant i <= |userRoles|
        invariant ok <==> exists j | 0 <= j < i :: userRoles[j].user == user && Any(rolePerms, KeyIs(prefix, userRoles[j].role, perm))
      {
        ok := userRoles[i].user == user && Any(rolePerms, KeyIs(prefix, userRoles[i].role, perm));
        i := i + 1;
      }
      r := Check(ok);
    }
  }
}
