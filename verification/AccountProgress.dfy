/** No deadlock, and every finite set of commands drains. */
module AccountProgress {
  import opened Text
  import opened Accounts
  import opened AccountProtocol
  import opened AccountInvariant

  /** Client `c` is blocked on a lock that client `d` holds. */
  ghost predicate WaitsFor(s: State, c: nat, d: nat) {
    c < |s.clients| && d < |s.clients| && d != c &&
    var u := s.clients[c].cmd.username;
    match s.clients[c].phase
    case LockGroup => Admins in s.provisioned && s.group == Some(d)
    case LockUser => u in s.rows && s.rows[u] == d
    case Scanning(_, todo, _, _) => exists v :: v in todo && v in s.rows && s.rows[v] == d
    case LockForUpdate => u in s.rows && s.rows[u] == d
    case InsertUser => u in s.names && s.names[u] == d
    case _ => false
  }

  /** The lock order: group, then the rows an UPDATE or INSERT needs, then the rows
      taken under the group lock, then clients that wait for nothing. */
  ghost function Rank(phase: Phase): nat {
    match phase
    case LockGroup => 0
    case LockForUpdate => 1
    case InsertUser => 1
    case LockUser => 2
    case Scanning(_, _, _, _) => 2
    case _ => 3
  }

  /** The wait-for relation climbs the lock order, so it has no cycle. */
  lemma WaitingClimbs(s: State, init: Directory, c: nat, d: nat)
    requires Inv(s, init) && WaitsFor(s, c, d)
    ensures Rank(s.clients[c].phase) < Rank(s.clients[d].phase)
  {
    assert ClientOk(s, init, c) && ClientOk(s, init, d);
  }

  /** `path` is a chain of clients, each waiting for the next. */
  ghost predicate WaitChain(s: State, path: seq<nat>) {
    forall i :: 0 <= i < |path| - 1 ==> WaitsFor(s, path[i], path[i + 1])
  }

  lemma {:induction false} ChainClimbs(s: State, init: Directory, path: seq<nat>)
    requires Inv(s, init) && |path| >= 2 && WaitChain(s, path)
    ensures path[0] < |s.clients| && path[|path| - 1] < |s.clients|
    ensures Rank(s.clients[path[0]].phase) < Rank(s.clients[path[|path| - 1]].phase)
    decreases |path|
  {
    assert WaitsFor(s, path[0], path[1]);
    WaitingClimbs(s, init, path[0], path[1]);
    if |path| > 2 {
      forall i | 0 <= i < |path[1..]| - 1 ensures WaitsFor(s, path[1..][i], path[1..][i + 1]) {
        assert WaitsFor(s, path[i + 1], path[i + 1 + 1]);
      }
      ChainClimbs(s, init, path[1..]);
    }
  }

  /** No chain of waiting clients closes on itself. */
  lemma NoDeadlockCycle(s: State, init: Directory, path: seq<nat>)
    requires Inv(s, init) && |path| >= 2 && WaitChain(s, path)
    ensures path[0] != path[|path| - 1]
  {
    ChainClimbs(s, init, path);
  }

  /** An unfinished client can move, or waits for another one. */
  lemma MovesOrWaits(s: State, init: Directory, c: nat) returns (d: nat, a: Action)
    requires Inv(s, init) && c < |s.clients| && !s.clients[c].phase.Done?
    ensures d < |s.clients|
    ensures if d == c then !a.Abort? && Enabled(s, c, a) else WaitsFor(s, c, d)
  {
    d, a := c, Step;
    var cl := s.clients[c];
    var u := cl.cmd.username;
    assert ClientOk(s, init, c);
    if cl.phase.Scanning? {
      if v :| v in cl.phase.todo {
        if v in s.rows && s.rows[v] != c { d := s.rows[v]; } else { a := LockRow(v); }
      }
    } else if !Enabled(s, c, Step) {
      d := if cl.phase.LockGroup? then s.group.value
           else if cl.phase.InsertUser? then s.names[u]
           else s.rows[u];
    }
  }

  /** Deadlock freedom: while some client is unfinished, some client can take a step
      of its command, without anyone aborting. */
  lemma SomeoneMoves(s: State, init: Directory, c: nat) returns (m: nat, a: Action)
    requires Inv(s, init) && c < |s.clients| && !s.clients[c].phase.Done?
    ensures !a.Abort? && Enabled(s, m, a)
    decreases 3 - Rank(s.clients[c].phase)
  {
    m, a := MovesOrWaits(s, init, c);
    if m != c {
      WaitingClimbs(s, init, c, m);
      assert ClientOk(s, init, m) && ClientOk(s, init, c);
      m, a := SomeoneMoves(s, init, m);
    }
  }

  // ----- Termination

  /** How many more actions a client can take at most, with `users` user names in all. */
  ghost function Cost(phase: Phase, users: nat): nat {
    match phase
    case Idle => users + 20
    case LockGroup => users + 19
    case CountUser => users + 18
    case LockUser => users + 17
    case Loaded(_) => users + 16
    case Vetted(_) => users + 15
    case Targeted(_) => users + 14
    case Scanning(_, todo, _, _) => |todo| + 13
    case Guarded(_) => 12
    case Stripped(_, _) => 11
    case Probe => 14
    case Peek => 13
    case LockForUpdate => 12
    case CheckName => 15
    case FindGroup => 14
    case InsertUser => 13
    case Inserted => 12
    case Ready(_, _) => 10
    case Failing(_) => 1
    case Done(_) => 0
  }

  ghost function Remaining(clients: seq<Client>, users: nat): nat {
    if clients == [] then 0 else Cost(clients[0].phase, users) + Remaining(clients[1..], users)
  }

  lemma {:induction false} RemainingUpdate(clients: seq<Client>, users: nat, c: nat, cl: Client)
    requires c < |clients|
    ensures Remaining(clients[c := cl], users)
         == Remaining(clients, users) - Cost(clients[c].phase, users) + Cost(cl.phase, users)
  {
    if c == 0 {
      assert clients[c := cl][1..] == clients[1..];
    } else {
      assert clients[c := cl][1..] == clients[1..][c - 1 := cl];
      RemainingUpdate(clients[1..], users, c - 1, cl);
    }
  }

  /** No user name outside `users` ever appears. */
  ghost predicate NamesWithin(s: State, users: set<string>) {
    && s.db.Keys <= users
    && (forall c :: 0 <= c < |s.clients| ==> s.clients[c].cmd.username in users)
  }

  lemma StepKeepsNames(s: State, c: nat, a: Action, users: set<string>)
    requires Enabled(s, c, a) && NamesWithin(s, users)
    ensures NamesWithin(Fire(s, c, a), users)
  {
    StepIsLocal(s, c, a);
    assert Fire(s, c, a).db.Keys <= s.db.Keys + {s.clients[c].cmd.username};
  }

  lemma VetCosts(s: State, c: nat, users: set<string>)
    requires c < |s.clients| && s.db.Keys <= users
    requires var p := s.clients[c].phase; p.Loaded? || p.Vetted? || p.Targeted?
    requires PhaseFits(s.clients[c]) && s.clients[c].cmd.username in s.db
    ensures Cost(StepVet(s, c).clients[c].phase, |users|) < Cost(s.clients[c].phase, |users|)
  {
    SubsetSize(ActiveAdmins(s.db), users);
  }

  lemma AcquireCosts(s: State, c: nat, users: nat)
    requires c < |s.clients|
    requires var p := s.clients[c].phase;
      p.LockGroup? || p.CountUser? || (p.LockUser? && s.clients[c].cmd.username in s.db)
    ensures Cost(StepAcquire(s, c).clients[c].phase, users) < Cost(s.clients[c].phase, users)
  {
  }

  lemma WriteCosts(s: State, c: nat, users: nat)
    requires c < |s.clients| && PhaseFits(s.clients[c])
    requires var p := s.clients[c].phase; p.Scanning? || p.Guarded? || p.Stripped?
    ensures Cost(StepWrite(s, c).clients[c].phase, users) < Cost(s.clients[c].phase, users)
  {
  }

  lemma EnableCosts(s: State, c: nat, users: nat)
    requires c < |s.clients|
    requires var p := s.clients[c].phase; p.Probe? || (p.Peek? && s.clients[c].cmd.username in s.db) || p.LockForUpdate?
    ensures Cost(StepEnable(s, c).clients[c].phase, users) < Cost(s.clients[c].phase, users)
  {
  }

  lemma CreateCosts(s: State, c: nat, users: nat)
    requires c < |s.clients| && s.clients[c].cmd.Create?
    requires var p := s.clients[c].phase; p.CheckName? || p.FindGroup? || p.InsertUser? || p.Inserted?
    ensures Cost(StepCreate(s, c).clients[c].phase, users) < Cost(s.clients[c].phase, users)
  {
  }

  /** A step of the client's own command costs it something, whatever the command. */
  lemma AdvanceCosts(s: State, init: Directory, c: nat, users: set<string>)
    requires Inv(s, init) && Enabled(s, c, Step) && s.db.Keys <= users
    requires var p := s.clients[c].phase; !p.Idle? && !p.Failing? && !p.Ready?
    ensures Cost(Fire(s, c, Step).clients[c].phase, |users|) < Cost(s.clients[c].phase, |users|)
  {
    var p := s.clients[c].phase;
    assert ClientOk(s, init, c);
    if p.LockGroup? || p.CountUser? || p.LockUser? {
      AcquireCosts(s, c, |users|);
    } else if p.Loaded? || p.Vetted? || p.Targeted? {
      VetCosts(s, c, users);
    } else if p.Scanning? || p.Guarded? || p.Stripped? {
      WriteCosts(s, c, |users|);
    } else if p.Probe? || p.Peek? || p.LockForUpdate? {
      EnableCosts(s, c, |users|);
    } else {
      CreateCosts(s, c, |users|);
    }
  }

  lemma EndCosts(s: State, c: nat, result: Result, users: nat)
    requires c < |s.clients| && !s.clients[c].phase.Done?
    ensures Cost(End(s, c, result).clients[c].phase, users) < Cost(s.clients[c].phase, users)
  {
  }

  lemma StepCosts(s: State, init: Directory, c: nat, a: Action, users: set<string>)
    requires Inv(s, init) && Enabled(s, c, a) && NamesWithin(s, users)
    ensures Cost(Fire(s, c, a).clients[c].phase, |users|) < Cost(s.clients[c].phase, |users|)
  {
    hide Inv, Permits, Replay;
    match a
    case Abort => EndCosts(s, c, Aborted, |users|);
    case LockRow(_) =>
    case Step =>
      match s.clients[c].phase {
        case Idle =>
        case Failing(reason) => EndCosts(s, c, Finished(Refused(reason)), |users|);
        case Ready(_, _) =>
        case _ => AdvanceCosts(s, init, c, users);
      }
  }

  /** Every action, an abort included, uses up at least one unit of what remains. */
  lemma StepUsesUp(s: State, init: Directory, c: nat, a: Action, users: set<string>)
    requires Inv(s, init) && Enabled(s, c, a) && NamesWithin(s, users)
    ensures Remaining(Fire(s, c, a).clients, |users|) < Remaining(s.clients, |users|)
  {
    var s' := Fire(s, c, a);
    StepIsLocal(s, c, a);
    StepCosts(s, init, c, a, users);
    assert s'.clients == s.clients[c := s'.clients[c]];
    RemainingUpdate(s.clients, |users|, c, s'.clients[c]);
  }
}
