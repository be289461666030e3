/** flon.auth: who has which role, and which role has which permission. Tables are found through packed 128-bit keys, and
    permissions through an eight-byte prefix of their hash. */
module AuthModel {
  import opened Eosio

  type U64 = n: nat | n < TWO_64

  datatype UserRole = UserRole(id: nat, user: U64, role: U64)

  datatype RolePerm = RolePerm(id: nat, role: U64, perm: string)

  datatype RoleRow = RoleRow(id: nat, role: U64)

  /** Rows are in primary-key order, which is the order of insertion. */
  datatype State = State(
    lastRole: nat, lastUserRole: nat, lastRolePerm: nat,
    roles: seq<RoleRow>, userRoles: seq<UserRole>, rolePerms: seq<RolePerm>)

  function Start(): State { State(0, 0, 0, [], [], []) }

  /** Two 64-bit values in one secondary key. */
  function Pack(high: U64, low: U64): nat { high * TWO_64 + low }

  // ---------- Tables ----------

  /** An index look-up. */
  predicate Any<T>(rows: seq<T>, hit: T -> bool) {
    exists i | 0 <= i < |rows| :: hit(rows[i])
  }

  /** Erasing the row a look-up finds. */
  function EraseFirst<T>(rows: seq<T>, hit: T -> bool): seq<T> {
    if rows == [] then []
    else if hit(rows[0]) then rows[1..]
    else [rows[0]] + EraseFirst(rows[1..], hit)
  }

  /** Erasing every row of an index range. */
  function EraseAll<T>(rows: seq<T>, hit: T -> bool): seq<T> {
    if rows == [] then []
    else EraseAll(rows[..|rows| - 1], hit) + if hit(rows[|rows| - 1]) then [] else [rows[|rows| - 1]]
  }

  function RoleIs(role: U64): RoleRow -> bool { (r: RoleRow) => r.role == role }

  function GrantIs(user: U64, role: U64): UserRole -> bool { (r: UserRole) => Pack(r.user, r.role) == Pack(user, role) }

  function HoldsRole(role: U64): UserRole -> bool { (r: UserRole) => r.role == role }

  function KeyIs(prefix: string -> U64, role: U64, perm: string): RolePerm -> bool {
    (r: RolePerm) => Pack(r.role, prefix(r.perm)) == Pack(role, prefix(perm))
  }

  function OfRole(role: U64): RolePerm -> bool { (r: RolePerm) => r.role == role }

  // ---------- Actions ----------

  function AddRoleSpec(s: State, allowed: bool, role: U64): Option<State> {
    var _ :- Check(allowed && role != 0);
    Some(if Any(s.roles, RoleIs(role)) then s
         else s.(lastRole := s.lastRole + 1, roles := s.roles + [RoleRow(s.lastRole + 1, role)]))
  }

  function DelRoleSpec(s: State, allowed: bool, role: U64): Option<State> {
    var _ :- Check(allowed && role != 0);
    if !Any(s.roles, RoleIs(role)) then Some(s)
    else
      var _ :- Check(!Any(s.userRoles, HoldsRole(role)));
      Some(s.(roles := EraseFirst(s.roles, RoleIs(role)), rolePerms := EraseAll(s.rolePerms, OfRole(role))))
  }

  function GrantSpec(s: State, allowed: bool, user: U64, role: U64): Option<State> {
    var _ :- Check(allowed && user != 0 && role != 0 && Any(s.roles, RoleIs(role)));
    Some(if Any(s.userRoles, GrantIs(user, role)) then s
         else s.(lastUserRole := s.lastUserRole + 1, userRoles := s.userRoles + [UserRole(s.lastUserRole + 1, user, role)]))
  }

  function RevokeSpec(s: State, allowed: bool, user: U64, role: U64): Option<State> {
    var _ :- Check(allowed && user != 0 && role != 0 && Any(s.userRoles, GrantIs(user, role)));
    Some(s.(userRoles := EraseFirst(s.userRoles, GrantIs(user, role))))
  }

  function AddEach(prefix: string -> U64, s: State, role: U64, perms: seq<string>): Option<State> {
    if perms == [] then Some(s)
    else
      var before :- AddEach(prefix, s, role, perms[..|perms| - 1]);
      var perm := perms[|perms| - 1];
      var _ :- Check(perm != "" && !Any(before.rolePerms, KeyIs(prefix, role, perm)));
      Some(before.(lastRolePerm := before.lastRolePerm + 1, rolePerms := before.rolePerms + [RolePerm(before.lastRolePerm + 1, role, perm)]))
  }

  function AddPermsSpec(prefix: string -> U64, s: State, allowed: bool, role: U64, perms: seq<string>): Option<State> {
    var _ :- Check(allowed && role != 0 && perms != [] && Any(s.roles, RoleIs(role)));
    AddEach(prefix, s, role, perms)
  }

  function EraseEach(prefix: string -> U64, rows: seq<RolePerm>, role: U64, perms: seq<string>): seq<RolePerm> {
    if perms == [] then rows
    else EraseFirst(EraseEach(prefix, rows, role, perms[..|perms| - 1]), KeyIs(prefix, role, perms[|perms| - 1]))
  }

  function DelPermsSpec(prefix: string -> U64, s: State, allowed: bool, role: U64, perms: seq<string>): Option<State> {
    var _ :- Check(allowed && role != 0 && perms != []);
    Some(s.(rolePerms := EraseEach(prefix, s.rolePerms, role, perms)))
  }

  /** `checkrole`: some role of the user stores a permission under the same key. */
  function CheckRoleSpec(prefix: string -> U64, s: State, user: U64, perm: string): Option<()> {
    var _ :- Check(user != 0 && perm != "");
    Check(exists i | 0 <= i < |s.userRoles| :: s.userRoles[i].user == user && Any(s.rolePerms, KeyIs(prefix, s.userRoles[i].role, perm)))
  }

  datatype Action =
    | AddRole(role: U64)
    | DelRole(role: U64)
    | Grant(user: U64, role: U64)
    | Revoke(user: U64, role: U64)
    | AddPerms(role: U64, perms: seq<string>)
    | DelPerms(role: U64, perms: seq<string>)

  function Step(prefix: string -> U64, s: State, act: Action, allowed: bool): Option<State> {
    match act
    case AddRole(role) => AddRoleSpec(s, allowed, role)
    case DelRole(role) => DelRoleSpec(s, allowed, role)
    case Grant(user, role) => GrantSpec(s, allowed, user, role)
    case Revoke(user, role) => RevokeSpec(s, allowed, user, role)
    case AddPerms(role, perms) => AddPermsSpec(prefix, s, allowed, role, perms)
    case DelPerms(role, perms) => DelPermsSpec(prefix, s, allowed, role, perms)
  }

  type Trace = seq<(Action, bool)>

  ghost function Run(prefix: string -> U64, s: State, trace: Trace): State {
    if trace == [] then s
    else
      var before := Run(prefix, s, trace[..|trace| - 1]);
      After(Step(prefix, before, trace[|trace| - 1].0, trace[|trace| - 1].1), before)
  }

  // ---------- The relation that the tables stand for ----------

  /** Roles, who has them, and what they permit, as plain sets. */
  datatype Relation = Relation(roles: set<U64>, holds: set<(U64, U64)>, permits: set<(U64, string)>)

  ghost function RelAddPerms(r: Relation, allowed: bool, role: U64, perms: seq<string>): Option<Relation> {
    if && allowed && role != 0 && perms != [] && role in r.roles
       && (forall i, j | 0 <= i < j < |perms| :: perms[i] != perms[j])
       && (forall p | p in perms :: p != "" && (role, p) !in r.permits)
    then Some(r.(permits := r.permits + set p | p in perms :: (role, p)))
    else Abort
  }

  ghost function RelStep(r: Relation, act: Action, allowed: bool): Option<Relation> {
    match act
    case AddRole(role) => if allowed && role != 0 then Some(r.(roles := r.roles + {role})) else Abort
    case DelRole(role) =>
      if !(allowed && role != 0) then Abort
      else if role !in r.roles then Some(r)
      else if exists h | h in r.holds :: h.1 == role then Abort
      else Some(r.(roles := r.roles - {role}, permits := set p | p in r.permits && p.0 != role))
    case Grant(user, role) =>
      if allowed && user != 0 && role != 0 && role in r.roles then Some(r.(holds := r.holds + {(user, role)})) else Abort
    case Revoke(user, role) =>
      if allowed && user != 0 && role != 0 && (user, role) in r.holds then Some(r.(holds := r.holds - {(user, role)})) else Abort
    case AddPerms(role, perms) => RelAddPerms(r, allowed, role, perms)
    case DelPerms(role, perms) =>
      if allowed && role != 0 && perms != [] then Some(r.(permits := r.permits - set p | p in perms :: (role, p))) else Abort
  }

  ghost function RelRun(r: Relation, trace: Trace): Relation {
    if trace == [] then r
    else
      var before := RelRun(r, trace[..|trace| - 1]);
      After(RelStep(before, trace[|trace| - 1].0, trace[|trace| - 1].1), before)
  }
}
