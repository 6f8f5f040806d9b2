/** The account directory and the atomic meaning of the four mutating commands.

    Every command is described here as one indivisible operation on the
    directory: which verdicts it may return (`Permits`) and what it leaves behind
    (`Effect`).  `AccountProtocol` describes the same commands step by step. */
module Accounts {
  import opened Text

  datatype Group =
    | Admins | Managers | Developers | QA | Support | DevOps | Customers
    | Services
    | Other(name: string)

  const HUMAN: set<Group> := {Admins, Managers, Developers, QA, Support, DevOps, Customers}

  datatype User = User(active: bool, groups: set<Group>)

  type Directory = map<string, User>

  datatype Command =
    | SetRole(username: string, target: Group)
    | Disable(username: string)
    | Enable(username: string)
    | Create(username: string, target: Group)

  datatype Reason = NoSuchUser | UserExists | ServiceIdentity | MissingGroup | LastAdministrator

  datatype Verdict = Accepted | Refused(reason: Reason)

  ghost function ActiveAdmins(db: Directory): set<string> {
    set u | u in db && db[u].active && Admins in db[u].groups
  }

  /** The user is an active administrator and there is no other. */
  ghost predicate OnlyAdmin(db: Directory, u: string) {
    u in ActiveAdmins(db) && |ActiveAdmins(db)| <= 1
  }

  /** Which verdicts an atomic execution of `cmd` may return in `db`. The first check that fails
      decides; only for a create may the name have been taken between its two checks. */
  ghost predicate Permits(provisioned: set<Group>, db: Directory, cmd: Command, verdict: Verdict) {
    var u := cmd.username;
    match cmd
    case SetRole(_, target) =>
      (match verdict
       case Accepted =>
         && {Admins, target} <= provisioned
         && u in db
         && Services !in db[u].groups
         && (target != Admins ==> !OnlyAdmin(db, u))
       case Refused(NoSuchUser) => Admins in provisioned && u !in db
       case Refused(ServiceIdentity) => Admins in provisioned && u in db && Services in db[u].groups
       case Refused(MissingGroup) =>
         Admins !in provisioned || (u in db && Services !in db[u].groups && target !in provisioned)
       case Refused(LastAdministrator) =>
         && {Admins, target} <= provisioned
         && u in db
         && Services !in db[u].groups
         && target != Admins && OnlyAdmin(db, u)
       case Refused(UserExists) => false)
    case Disable(_) =>
      (match verdict
       case Accepted => Admins in provisioned && u in db && !OnlyAdmin(db, u)
       case Refused(MissingGroup) => Admins !in provisioned
       case Refused(NoSuchUser) => Admins in provisioned && u !in db
       case Refused(LastAdministrator) => Admins in provisioned && u in db && OnlyAdmin(db, u)
       case Refused(_) => false)
    case Enable(_) =>
      (match verdict
       case Accepted => u in db
       case Refused(NoSuchUser) => u !in db
       case Refused(_) => false)
    case Create(_, target) =>
      (match verdict
       case Accepted => u !in db && target in provisioned
       case Refused(UserExists) => u in db
       case Refused(MissingGroup) => target !in provisioned
       case Refused(_) => false)
  }

  /** The directory an atomic execution with that verdict leaves behind. */
  ghost function Effect(db: Directory, cmd: Command, verdict: Verdict): Directory {
    var u := cmd.username;
    if verdict.Refused? then db
    else
      match cmd
      case SetRole(_, target) => if u in db then db[u := db[u].(groups := db[u].groups - HUMAN + {target})] else db
      case Disable(_) => if u in db then db[u := db[u].(active := false)] else db
      case Enable(_) => if u in db then db[u := db[u].(active := true)] else db
      case Create(_, target) => db[u := User(true, {target})]
  }

  /** The command line can only produce human target groups (see `NormalizeRole`). */
  ghost predicate WellFormed(cmd: Command) {
    cmd.SetRole? || cmd.Create? ==> cmd.target in HUMAN
  }

  /** At most one human group, and never a human group beside `BSYSTEM-Services`. */
  ghost predicate SingleRole(user: User) {
    && (forall g, h :: g in user.groups * HUMAN && h in user.groups * HUMAN ==> g == h)
    && (Services in user.groups ==> user.groups * HUMAN == {})
  }

  ghost predicate SingleRoles(db: Directory) {
    forall u :: u in db ==> SingleRole(db[u])
  }

  // ----- Properties of the atomic commands

  /** What each command returns when it runs alone. */
  ghost function VerdictAlone(provisioned: set<Group>, db: Directory, cmd: Command): Verdict {
    var u := cmd.username;
    match cmd
    case SetRole(_, target) =>
      if Admins !in provisioned then Refused(MissingGroup)
      else if u !in db then Refused(NoSuchUser)
      else if Services in db[u].groups then Refused(ServiceIdentity)
      else if target !in provisioned then Refused(MissingGroup)
      else if target != Admins && OnlyAdmin(db, u) then Refused(LastAdministrator)
      else Accepted
    case Disable(_) =>
      if Admins !in provisioned then Refused(MissingGroup)
      else if u !in db then Refused(NoSuchUser)
      else if OnlyAdmin(db, u) then Refused(LastAdministrator)
      else Accepted
    case Enable(_) => if u !in db then Refused(NoSuchUser) else Accepted
    case Create(_, target) =>
      if u in db then Refused(UserExists)
      else if target !in provisioned then Refused(MissingGroup)
      else Accepted
  }

  /** There is always one verdict, and only one, except that a create of an existing user
      with a missing group may be refused for either reason. */
  lemma VerdictIsDecided(provisioned: set<Group>, db: Directory, cmd: Command, verdict: Verdict)
    ensures Permits(provisioned, db, cmd, verdict) <==>
      || verdict == VerdictAlone(provisioned, db, cmd)
      || (cmd.Create? && cmd.username in db && cmd.target !in provisioned && verdict == Refused(MissingGroup))
  {
  }

  /** Everyone but `u` is as before, and nobody else came or went. */
  ghost predicate OnlyUserChanges(db: Directory, db': Directory, u: string) {
    && db'.Keys == db.Keys + {u}
    && forall v :: v in db && v != u ==> db'[v] == db[v]
  }

  /** What an accepted command has done to its user, and that it did nothing else. */
  ghost predicate DoneExactly(db: Directory, db': Directory, cmd: Command) {
    var u := cmd.username;
    && OnlyUserChanges(db, db', u)
    && match cmd
       case SetRole(_, target) =>
         && u in db
         && (forall g :: g in db'[u].groups <==> g == target || (g in db[u].groups && (g.Services? || g.Other?)))
         && db'[u].active == db[u].active
       case Disable(_) => u in db && db'[u].groups == db[u].groups && !db'[u].active
       case Enable(_) => u in db && db'[u].groups == db[u].groups && db'[u].active
       case Create(_, target) => u !in db && db'[u] == User(true, {target})
  }

  /** The roles the script manages; services and other groups are none of them. */
  lemma HumanGroups(g: Group)
    ensures g in HUMAN <==> !g.Services? && !g.Other?
  {
  }

  /** An accepted command does to the directory what it is for; a refused one does nothing. */
  lemma AtomicEffect(provisioned: set<Group>, db: Directory, cmd: Command, verdict: Verdict)
    requires Permits(provisioned, db, cmd, verdict)
    ensures verdict == Accepted ==> DoneExactly(db, Effect(db, cmd, verdict), cmd)
    ensures verdict.Refused? ==> Effect(db, cmd, verdict) == db
  {
    hide HUMAN, OnlyAdmin;
    forall g ensures g in HUMAN <==> !g.Services? && !g.Other? { HumanGroups(g); }
  }

  /** Whether `u` is an active administrator. */
  ghost predicate IsActiveAdmin(db: Directory, u: string) {
    u in db && db[u].active && Admins in db[u].groups
  }

  lemma OnlyAdminMeansNoOther(db: Directory, u: string)
    ensures OnlyAdmin(db, u) <==> IsActiveAdmin(db, u) && forall v :: IsActiveAdmin(db, v) ==> v == u
  {
    var admins := ActiveAdmins(db);
    assert forall v :: v in admins <==> IsActiveAdmin(db, v);
    if forall v :: v in admins ==> v == u {
      SubsetSize(admins, {u});
    }
    if v :| v in admins && v != u && u in admins {
      SubsetSize({u, v}, admins);
      assert |{u, v}| == 2;
    }
  }

  /** The guard refuses exactly to take the last active administrator away: to disable it,
      or to give it another role. */
  lemma GuardIsExact(provisioned: set<Group>, db: Directory, cmd: Command)
    ensures Permits(provisioned, db, cmd, Refused(LastAdministrator)) <==>
      && Admins in provisioned
      && (cmd.Disable? || (cmd.SetRole? && cmd.target != Admins && cmd.target in provisioned
                           && cmd.username in db && Services !in db[cmd.username].groups))
      && IsActiveAdmin(db, cmd.username)
      && forall v :: IsActiveAdmin(db, v) ==> v == cmd.username
  {
    hide OnlyAdmin, ActiveAdmins;
    OnlyAdminMeansNoOther(db, cmd.username);
  }

  lemma SomeoneElse<T>(s: set<T>, x: T)
    requires |s| >= 2
    ensures s - {x} != {}
  {
    if s - {x} == {} {
      assert s <= {x};
      SubsetSize(s, {x});
    }
  }

  lemma SubsetSize<T>(a: set<T>, b: set<T>)
    requires a <= b
    ensures |a| <= |b|
  {
    assert b == a + (b - a);
  }

  /** An accepted command never removes the last active administrator. */
  lemma AtomicKeepsAnAdmin(provisioned: set<Group>, db: Directory, cmd: Command, verdict: Verdict)
    requires WellFormed(cmd)
    requires Permits(provisioned, db, cmd, verdict)
    requires ActiveAdmins(db) != {}
    ensures ActiveAdmins(Effect(db, cmd, verdict)) != {}
  {
    var db' := Effect(db, cmd, verdict);
    var u := cmd.username;
    var admins := ActiveAdmins(db);
    var other: string :| other in admins;
    if verdict.Accepted? && (cmd.SetRole? || cmd.Disable?) && u in admins && !(cmd.SetRole? && cmd.target == Admins) {
      if |admins| >= 2 {
        SomeoneElse(admins, u);
        other :| other in admins - {u};
      }
    }
    assert other in ActiveAdmins(db');
  }

  lemma AtomicKeepsSingleRoles(provisioned: set<Group>, db: Directory, cmd: Command, verdict: Verdict)
    requires WellFormed(cmd)
    requires Permits(provisioned, db, cmd, verdict)
    requires SingleRoles(db)
    ensures SingleRoles(Effect(db, cmd, verdict))
  {
    var db' := Effect(db, cmd, verdict);
    forall u | u in db' ensures SingleRole(db'[u]) {
      if u == cmd.username && verdict.Accepted? && (cmd.SetRole? || cmd.Create?) {
        assert db'[u].groups * HUMAN == {cmd.target};
      }
    }
  }

  // ----- Role names on the command line

  /** The names each human role answers to; the last one is the group's own name in lower case. */
  function Aliases(g: Group): seq<string> {
    match g
    case Admins => ["admin", "admins", "administrator", "bsystem-admins"]
    case Managers => ["manager", "managers", "bsystem-managers"]
    case Developers => ["developer", "developers", "dev", "bsystem-developers"]
    case QA => ["qa", "bsystem-qa"]
    case Support => ["support", "bsystem-support"]
    case DevOps => ["devops", "bsystem-devops"]
    case Customers => ["customer", "customers", "client", "bsystem-customers"]
    case _ => []
  }

  function NormalizeRole(role: string): Option<Group> {
    var name := Lower(role);
    if name in Aliases(Admins) then Some(Admins)
    else if name in Aliases(Managers) then Some(Managers)
    else if name in Aliases(Developers) then Some(Developers)
    else if name in Aliases(QA) then Some(QA)
    else if name in Aliases(Support) then Some(Support)
    else if name in Aliases(DevOps) then Some(DevOps)
    else if name in Aliases(Customers) then Some(Customers)
    else None
  }

  /** The tables do not overlap: a name resolves to a group exactly when it is one
      of that group's aliases in any letter case, and that group is human. */
  lemma NormalizeRoleIsExact(role: string, g: Group)
    ensures NormalizeRole(role) == Some(g) <==> Lower(role) in Aliases(g)
    ensures NormalizeRole(role) == Some(g) ==> g in HUMAN
  {
    var name := Lower(role);
    if name in Aliases(g) {
      var k :| 0 <= k < |Aliases(g)| && name == Aliases(g)[k];
      AliasSignature(g, k);
      var found := NormalizeRole(role);
      if found.Some? {
        var j :| 0 <= j < |Aliases(found.value)| && name == Aliases(found.value)[j];
        AliasSignature(found.value, j);
      }
    }
  }

  /** The names themselves, in any letter case; no other name is a role. */
  lemma RoleNames(role: string)
    ensures var name, group := Lower(role), NormalizeRole(role);
      && (group == Some(Admins) <==> name in {"admin", "admins", "administrator", "bsystem-admins"})
      && (group == Some(Managers) <==> name in {"manager", "managers", "bsystem-managers"})
      && (group == Some(Developers) <==> name in {"developer", "developers", "dev", "bsystem-developers"})
      && (group == Some(QA) <==> name in {"qa", "bsystem-qa"})
      && (group == Some(Support) <==> name in {"support", "bsystem-support"})
      && (group == Some(DevOps) <==> name in {"devops", "bsystem-devops"})
      && (group == Some(Customers) <==> name in {"customer", "customers", "client", "bsystem-customers"})
      && (group.Some? ==> group.value in HUMAN)
  {
    hide NormalizeRole;
    forall g: Group ensures NormalizeRole(role) == Some(g) <==> Lower(role) in Aliases(g) {
      NormalizeRoleIsExact(role, g);
    }
    if NormalizeRole(role).Some? {
      NormalizeRoleIsExact(role, NormalizeRole(role).value);
    }
  }

  /** A few characters that tell every alias of one group from those of the others. */
  function Signature(name: string): Group
    requires |name| >= 2
  {
    var tail := if |name| > 8 && name[7] == '-' then name[8..] else name;
    if |tail| < 2 then Services
    else if tail[0] == 'a' then Admins
    else if tail[0] == 'm' then Managers
    else if tail[0] == 'q' then QA
    else if tail[0] == 's' then Support
    else if tail[0] == 'c' then Customers
    else if |tail| > 3 && tail[3] == 'o' then DevOps
    else Developers
  }

  lemma OwnNameSignature(g: Group)
    requires Aliases(g) != []
    ensures var name := Aliases(g)[|Aliases(g)| - 1]; |name| >= 2 && Signature(name) == g
  {
    var name := Aliases(g)[|Aliases(g)| - 1];
    assert name[8..][0] == name[8];
  }

  lemma ShortNameSignature(g: Group, k: nat)
    requires k + 1 < |Aliases(g)|
    ensures |Aliases(g)[k]| >= 2 && Signature(Aliases(g)[k]) == g
  {
  }

  lemma AliasSignature(g: Group, k: nat)
    requires k < |Aliases(g)|
    ensures |Aliases(g)[k]| >= 2 && Signature(Aliases(g)[k]) == g
  {
    hide Aliases, Signature;
    if k + 1 < |Aliases(g)| {
      ShortNameSignature(g, k);
    } else {
      OwnNameSignature(g);
    }
  }
}
