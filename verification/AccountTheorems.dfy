/** The account protocol over whole runs: any clients, any interleaving, any aborts. */
module AccountTheorems {
  import opened Text
  import opened Accounts
  import opened AccountProtocol
  import opened AccountInvariant
  import opened AccountHistory
  import opened AccountProgress

  type Schedule = seq<(nat, Action)>

  ghost predicate Admissible(s: State, sched: Schedule)
    decreases |sched|
  {
    sched == [] ||
    (Enabled(s, sched[0].0, sched[0].1) && Admissible(Fire(s, sched[0].0, sched[0].1), sched[1..]))
  }

  ghost function Run(s: State, sched: Schedule): State
    requires Admissible(s, sched)
    decreases |sched|
  {
    if sched == [] then s else Run(Fire(s, sched[0].0, sched[0].1), sched[1..])
  }

  /** The log of `s` is a linearization of the run that led to it. */
  ghost predicate Linearized(s: State, init: Directory) {
    // the logged commands, run one at a time from `init`, may return the logged verdicts ...
    && Legal(s.provisioned, init, s.log)
    // ... and leave exactly the committed directory;
    && Replay(init, s.log) == s.db
    // each finished command is logged once with the verdict it returned, an aborted one never;
    && OutcomesLogged(s)
    // a command that finished before another one started comes first.
    && RealTimeOrder(s)
  }

  lemma StepKeepsEverything(s: State, init: Directory, c: nat, a: Action)
    requires Enabled(s, c, a)
    requires Inv(s, init) && OutcomesLogged(s) && RealTimeOrder(s)
    ensures var s' := Fire(s, c, a); Inv(s', init) && OutcomesLogged(s') && RealTimeOrder(s')
  {
    hide Inv, OutcomesLogged, RealTimeOrder, Fire, LogStep, Local;
    StepKeepsInv(s, init, c, a);
    StepIsOwn(s, c, a);
    StepLogs(s, init, c, a);
    StepKeepsOutcomes(s, Fire(s, c, a), c);
    StepKeepsOrder(s, init, c, a);
  }

  lemma StepIsOwn(s: State, c: nat, a: Action)
    requires Enabled(s, c, a)
    ensures OnlyOwnClient(s, Fire(s, c, a), c)
  {
    StepIsLocal(s, c, a);
  }

  lemma {:induction false} RunKeepsEverything(s: State, init: Directory, sched: Schedule)
    requires Admissible(s, sched)
    requires Inv(s, init) && OutcomesLogged(s) && RealTimeOrder(s)
    ensures var s' := Run(s, sched); Inv(s', init) && OutcomesLogged(s') && RealTimeOrder(s')
    decreases |sched|
  {
    if sched != [] {
      var (c, a) := sched[0];
      StepKeepsEverything(s, init, c, a);
      RunKeepsEverything(Fire(s, c, a), init, sched[1..]);
    }
  }

  /** Every run has the committed effects and the verdicts of a serial execution of the
      atomic commands, in an order that respects real time. */
  lemma Linearizable(provisioned: set<Group>, init: Directory, cmds: seq<Command>, sched: Schedule)
    requires GroupsExist(provisioned, init)
    requires Admissible(Initial(provisioned, init, cmds), sched)
    ensures Linearized(Run(Initial(provisioned, init, cmds), sched), init)
  {
    InitialInv(provisioned, init, cmds);
    RunKeepsEverything(Initial(provisioned, init, cmds), init, sched);
  }

  ghost predicate AllWellFormed(s: State) {
    forall c :: 0 <= c < |s.clients| ==> WellFormed(s.clients[c].cmd)
  }

  /** The two things no committed state may lose. */
  lemma {:induction false} StepKeepsPolicy(s: State, init: Directory, c: nat, a: Action)
    requires Inv(s, init) && AllWellFormed(s) && Enabled(s, c, a)
    ensures AllWellFormed(Fire(s, c, a))
    ensures ActiveAdmins(s.db) != {} ==> ActiveAdmins(Fire(s, c, a).db) != {}
    ensures SingleRoles(s.db) ==> SingleRoles(Fire(s, c, a).db)
  {
    hide GoodHistory, ActiveAdmins, OnlyOwnLocks, SingleRoles, Permits;
    StepIsLocal(s, c, a);
    assert ClientOk(s, init, c);
    hide ClientOk, Fire;
    if a.Step? && s.clients[c].phase.Ready? {
      CommitIsAtomic(s, init, c);
      if ActiveAdmins(s.db) != {} {
        AtomicKeepsAnAdmin(s.provisioned, s.db, s.clients[c].cmd, Accepted);
      }
      if SingleRoles(s.db) {
        AtomicKeepsSingleRoles(s.provisioned, s.db, s.clients[c].cmd, Accepted);
      }
    } else {
      OnlyCommitsWrite(s, c, a);
    }
  }

  /** From any reachable state with an active administrator, every later committed state
      has one; and if every user has a single role there, every user keeps a single role. */
  lemma {:induction false} RunKeepsPolicy(s: State, init: Directory, sched: Schedule)
    requires Admissible(s, sched)
    requires Inv(s, init) && AllWellFormed(s)
    ensures ActiveAdmins(s.db) != {} ==> ActiveAdmins(Run(s, sched).db) != {}
    ensures SingleRoles(s.db) ==> SingleRoles(Run(s, sched).db)
    decreases |sched|
  {
    if sched != [] {
      var (c, a) := sched[0];
      StepKeepsInv(s, init, c, a);
      StepKeepsPolicy(s, init, c, a);
      RunKeepsPolicy(Fire(s, c, a), init, sched[1..]);
    }
  }

  /** The last active administrator survives any run of the four commands. */
  lemma AnAdminRemains(provisioned: set<Group>, init: Directory, cmds: seq<Command>, sched: Schedule)
    requires GroupsExist(provisioned, init)
    requires exists u :: u in init && init[u].active && Admins in init[u].groups
    requires forall c :: 0 <= c < |cmds| ==> WellFormed(cmds[c])
    requires Admissible(Initial(provisioned, init, cmds), sched)
    ensures var db := Run(Initial(provisioned, init, cmds), sched).db;
      exists u :: u in db && db[u].active && Admins in db[u].groups
  {
    var u :| u in init && init[u].active && Admins in init[u].groups;
    assert u in ActiveAdmins(init);
    InitialInv(provisioned, init, cmds);
    RunKeepsPolicy(Initial(provisioned, init, cmds), init, sched);
    var db := Run(Initial(provisioned, init, cmds), sched).db;
    var v :| v in ActiveAdmins(db);
  }

  /** At most one of the groups is a role, and none beside Services. */
  ghost predicate OneRole(groups: set<Group>) {
    && (forall g, h :: g in groups && h in groups && IsRole(g) && IsRole(h) ==> g == h)
    && (Services in groups ==> forall g :: g in groups ==> !IsRole(g))
  }

  predicate IsRole(g: Group) { !g.Services? && !g.Other? }

  lemma SingleRoleIsOneRole(user: User)
    ensures SingleRole(user) <==> OneRole(user.groups)
  {
    forall g ensures IsRole(g) <==> g in HUMAN { HumanGroups(g); }
    hide HUMAN, IsRole;
    assert forall g :: g in user.groups * HUMAN <==> g in user.groups && IsRole(g);
  }

  lemma RolesStaySingle(provisioned: set<Group>, init: Directory, cmds: seq<Command>, sched: Schedule)
    requires GroupsExist(provisioned, init)
    requires forall u :: u in init ==> OneRole(init[u].groups)
    requires forall c :: 0 <= c < |cmds| ==> WellFormed(cmds[c])
    requires Admissible(Initial(provisioned, init, cmds), sched)
    ensures var db := Run(Initial(provisioned, init, cmds), sched).db;
      forall u :: u in db ==> OneRole(db[u].groups)
  {
    hide OneRole, SingleRole;
    forall user: User ensures SingleRole(user) <==> OneRole(user.groups) { SingleRoleIsOneRole(user); }
    InitialInv(provisioned, init, cmds);
    RunKeepsPolicy(Initial(provisioned, init, cmds), init, sched);
  }

  // ----- What a commit has done

  /** A command about to commit does to the committed directory exactly what it is for; a
      disable may also find its user inactive already. */
  lemma CommitDoesItsJob(s: State, init: Directory, c: nat)
    requires Inv(s, init) && c < |s.clients| && s.clients[c].phase.Ready?
    ensures DoneExactly(s.db, Fire(s, c, Step).db, s.clients[c].cmd)
  {
    assert ClientOk(s, init, c);
    CommitIsAtomic(s, init, c);
    AtomicEffect(s.provisioned, s.db, s.clients[c].cmd, Accepted);
  }

  /** A committed set-role: exactly the target human group, every other group, the active
      flag and every other user as they were. */
  lemma CommittedSetRole(s: State, init: Directory, c: nat)
    requires Inv(s, init) && c < |s.clients| && s.clients[c].phase.Ready? && s.clients[c].cmd.SetRole?
    requires WellFormed(s.clients[c].cmd)
    ensures var u := s.clients[c].cmd.username;
      var db' := Fire(s, c, Step).db;
      && db'.Keys == s.db.Keys && u in s.db
      && db'[u].groups * HUMAN == {s.clients[c].cmd.target}
      && db'[u].groups - HUMAN == s.db[u].groups - HUMAN
      && db'[u].active == s.db[u].active
      && (forall v :: v in s.db && v != u ==> db'[v] == s.db[v])
  {
    assert ClientOk(s, init, c);
    CommitIsAtomic(s, init, c);
  }

  /** A committed disable: the user is inactive, with its groups; all others as they were. */
  lemma CommittedDisable(s: State, init: Directory, c: nat)
    requires Inv(s, init) && c < |s.clients| && s.clients[c].phase.Ready? && s.clients[c].cmd.Disable?
    ensures var u := s.clients[c].cmd.username;
      var db' := Fire(s, c, Step).db;
      && db'.Keys == s.db.Keys && u in s.db
      && !db'[u].active && db'[u].groups == s.db[u].groups
      && (forall v :: v in s.db && v != u ==> db'[v] == s.db[v])
  {
    CommitDoesItsJob(s, init, c);
  }

  /** A committed enable: the user is active, with its groups; all others as they were. */
  lemma CommittedEnable(s: State, init: Directory, c: nat)
    requires Inv(s, init) && c < |s.clients| && s.clients[c].phase.Ready? && s.clients[c].cmd.Enable?
    ensures var u := s.clients[c].cmd.username;
      var db' := Fire(s, c, Step).db;
      && db'.Keys == s.db.Keys && u in s.db
      && db'[u].active && db'[u].groups == s.db[u].groups
      && (forall v :: v in s.db && v != u ==> db'[v] == s.db[v])
  {
    CommitDoesItsJob(s, init, c);
  }

  /** A committed create: a new active user with the target group only; all others as they were. */
  lemma CommittedCreate(s: State, init: Directory, c: nat)
    requires Inv(s, init) && c < |s.clients| && s.clients[c].phase.Ready? && s.clients[c].cmd.Create?
    ensures var u := s.clients[c].cmd.username;
      var db' := Fire(s, c, Step).db;
      && u !in s.db && db'.Keys == s.db.Keys + {u}
      && db'[u].active && db'[u].groups == {s.clients[c].cmd.target}
      && (forall v :: v in s.db ==> db'[v] == s.db[v])
  {
    CommitDoesItsJob(s, init, c);
  }

  /** Nothing but a commit changes the committed directory. */
  lemma OnlyCommitsChange(s: State, c: nat, a: Action)
    requires Enabled(s, c, a) && !(a.Step? && s.clients[c].phase.Ready?)
    ensures Fire(s, c, a).db == s.db
  {
    OnlyCommitsWrite(s, c, a);
  }

  /** An enable that finds its user active has finished at that read, with nothing to write;
      otherwise it goes on to its write. */
  lemma EnableReads(s: State, init: Directory, c: nat)
    requires Inv(s, init) && c < |s.clients| && s.clients[c].phase.Peek?
    ensures var u := s.clients[c].cmd.username;
      && u in s.db
      && Fire(s, c, Step).db == s.db
      && Fire(s, c, Step).clients[c].phase ==
           if s.db[u].active then Phase.Done(Finished(Accepted)) else LockForUpdate
  {
    assert ClientOk(s, init, c);
  }

  /** No other step than a commit or that read accepts a command. */
  lemma NothingElseAccepts(s: State, init: Directory, c: nat, a: Action)
    requires Inv(s, init) && Enabled(s, c, a)
    requires Fire(s, c, a).clients[c].phase == Phase.Done(Finished(Accepted))
    ensures a.Step? && (s.clients[c].phase.Ready? || s.clients[c].phase.Peek?)
  {
    hide GoodHistory, Permits, Replay, OwnLocks, OwnersExist, DataInv, StepLocking, StepCreate, StepEnable;
    assert ClientOk(s, init, c);
    LockingGoesOn(s, c);
    if !s.clients[c].phase.Peek? {
      EnableGoesOn(s, c);
    }
    if s.clients[c].cmd.Create? {
      CreateGoesOn(s, c);
    }
  }

  lemma LockingGoesOn(s: State, c: nat)
    requires c < |s.clients| && !s.clients[c].phase.Done?
    ensures !StepLocking(s, c).clients[c].phase.Done?
  {
    hide ActiveAdmins, InsertAt;
  }

  lemma EnableGoesOn(s: State, c: nat)
    requires c < |s.clients| && !s.clients[c].phase.Done? && !s.clients[c].phase.Peek?
    ensures !StepEnable(s, c).clients[c].phase.Done?
  {
  }

  lemma CreateGoesOn(s: State, c: nat)
    requires c < |s.clients| && !s.clients[c].phase.Done? && s.clients[c].cmd.Create?
    ensures !StepCreate(s, c).clients[c].phase.Done?
  {
  }

  /** A running command may abort at any moment. It leaves the committed directory and the
      serial order as they were and gives back all its locks. */
  lemma AbortAnytime(s: State, init: Directory, c: nat)
    requires Inv(s, init) && c < |s.clients|
    requires var p := s.clients[c].phase; !p.Idle? && !p.Failing? && !p.Done?
    ensures Enabled(s, c, Abort)
    ensures var s' := Fire(s, c, Abort);
      && s'.clients[c].phase == Phase.Done(Aborted) && s'.db == s.db && s'.log == s.log
      && s'.group != Some(c) && c !in s'.rows.Values && c !in s'.names.Values
  {
  }

  // ----- Real time

  /** `d` has finished, and `c` had not started when it did. */
  ghost predicate FinishedBefore(s: State, d: nat, c: nat) {
    && d < |s.clients| && c < |s.clients|
    && s.clients[d].phase.Done?
    && (s.clients[c].phase.Idle? || d in s.clients[c].before)
  }

  lemma StepKeepsFinished(s: State, c: nat, a: Action, d: nat, e: nat)
    requires Enabled(s, c, a) && FinishedBefore(s, d, e)
    ensures FinishedBefore(Fire(s, c, a), d, e)
  {
    StepIsLocal(s, c, a);
    if c == e && s.clients[c].phase.Idle? && a.Step? {
      assert d in Finishers(s);
    }
  }

  /** Real time is respected: if at some moment of a run `d` has finished and `e` has not
      started, then at every later moment `d` comes before `e` in the serial order. */
  lemma {:induction false} FinishedComesFirst(s: State, init: Directory, sched: Schedule, d: nat, e: nat)
    requires Admissible(s, sched) && Inv(s, init) && OutcomesLogged(s) && RealTimeOrder(s)
    requires FinishedBefore(s, d, e)
    ensures var log := Run(s, sched).log;
      forall i, j :: 0 <= i < |log| && 0 <= j < |log| && log[i].client == d && log[j].client == e ==> i < j
    decreases |sched|
  {
    hide Inv, OutcomesLogged, RealTimeOrder, Fire, FinishedBefore;
    if sched == [] {
      FinishedIsLoggedFirst(s, d, e);
    } else {
      var (c, a) := sched[0];
      StepKeepsEverything(s, init, c, a);
      StepKeepsFinished(s, c, a, d, e);
      FinishedComesFirst(Fire(s, c, a), init, sched[1..], d, e);
      assert Run(s, sched) == Run(Fire(s, c, a), sched[1..]);
    }
  }

  lemma FinishedIsLoggedFirst(s: State, d: nat, e: nat)
    requires OutcomesLogged(s) && RealTimeOrder(s) && FinishedBefore(s, d, e)
    ensures Precedes(s.log, d, e)
  {
    if s.clients[e].phase.Idle? {
      forall j | 0 <= j < |s.log| ensures s.log[j].client != e { NoVerdictNoEvent(s.log, e, j); }
    } else {
      assert OrderedAfter(s, d, e);
    }
  }

  // ----- Draining

  lemma {:induction false} RunUsesUp(s: State, init: Directory, sched: Schedule, users: set<string>)
    requires Admissible(s, sched) && Inv(s, init) && NamesWithin(s, users)
    ensures |sched| + Remaining(Run(s, sched).clients, |users|) <= Remaining(s.clients, |users|)
    decreases |sched|
  {
    if sched != [] {
      var (c, a) := sched[0];
      StepUsesUp(s, init, c, a, users);
      StepKeepsInv(s, init, c, a);
      StepKeepsNames(s, c, a, users);
      RunUsesUp(Fire(s, c, a), init, sched[1..], users);
    }
  }

  lemma {:induction false} InitialRemaining(clients: seq<Client>, users: nat)
    requires forall c :: 0 <= c < |clients| ==> clients[c].phase.Idle?
    ensures Remaining(clients, users) == |clients| * (users + 20)
  {
    if clients != [] {
      InitialRemaining(clients[1..], users);
    }
  }

  ghost function Usernames(cmds: seq<Command>): set<string> {
    set c | 0 <= c < |cmds| :: cmds[c].username
  }

  /** No run is longer than (number of commands) * (number of user names + 20) actions,
      and a run that cannot go on without an abort has finished every command. */
  lemma EveryRunDrains(provisioned: set<Group>, init: Directory, cmds: seq<Command>, sched: Schedule)
    requires GroupsExist(provisioned, init)
    requires Admissible(Initial(provisioned, init, cmds), sched)
    ensures |sched| <= |cmds| * (|init.Keys + Usernames(cmds)| + 20)
    ensures var s := Run(Initial(provisioned, init, cmds), sched);
      (forall c, a: Action :: !a.Abort? ==> !Enabled(s, c, a)) ==>
        forall c :: 0 <= c < |s.clients| ==> s.clients[c].phase.Done?
  {
    var s0 := Initial(provisioned, init, cmds);
    var users := init.Keys + Usernames(cmds);
    InitialInv(provisioned, init, cmds);
    InitialRemaining(s0.clients, |users|);
    RunUsesUp(s0, init, sched, users);
    RunKeepsEverything(s0, init, sched);
    var s := Run(s0, sched);
    forall c | 0 <= c < |s.clients| && !s.clients[c].phase.Done?
      ensures exists m, a: Action :: !a.Abort? && Enabled(s, m, a)
    {
      var m, a := SomeoneMoves(s, init, c);
    }
  }
}
