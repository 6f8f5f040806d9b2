/** What every step of the account protocol keeps. */
module AccountInvariant {
  import opened Text
  import opened Accounts
  import opened AccountProtocol

  // ----- The serial history

  /** The directory after the logged commands, executed atomically in log order. */
  ghost function Replay(init: Directory, log: seq<Event>): Directory {
    if log == [] then init
    else
      var last := log[|log| - 1];
      Effect(Replay(init, log[..|log| - 1]), last.cmd, last.verdict)
  }

  /** Every logged verdict is one the atomic command may return at its place in the log. */
  ghost predicate Legal(provisioned: set<Group>, init: Directory, log: seq<Event>) {
    log == [] ||
    (var last := log[|log| - 1];
     var earlier := log[..|log| - 1];
     && Legal(provisioned, init, earlier)
     && Permits(provisioned, Replay(init, earlier), last.cmd, last.verdict))
  }

  /** A permitted refusal can be placed anywhere: what follows it is unaffected. */
  lemma {:induction false} InsertRefusal(
      provisioned: set<Group>, init: Directory, a: seq<Event>, e: Event, b: seq<Event>)
    requires e.verdict.Refused?
    requires Legal(provisioned, init, a + b)
    requires Permits(provisioned, Replay(init, a), e.cmd, e.verdict)
    ensures Replay(init, a + [e] + b) == Replay(init, a + b)
    ensures Legal(provisioned, init, a + [e] + b)
    decreases |b|
  {
    if b == [] {
      assert a + b == a && (a + [e] + b)[..|a|] == a;
    } else {
      var b' := b[..|b| - 1];
      assert (a + b)[..|a + b| - 1] == a + b';
      assert (a + [e] + b)[..|a + [e] + b| - 1] == a + [e] + b';
      InsertRefusal(provisioned, init, a, e, b');
    }
  }

  // ----- Locks

  ghost predicate HoldsGroup(cl: Client) {
    Locks(cl.cmd) &&
    match cl.phase
    case CountUser => true
    case LockUser => true
    case Loaded(_) => true
    case Vetted(_) => true
    case Targeted(_) => true
    case Scanning(_, _, _, _) => true
    case Guarded(_) => true
    case Stripped(_, _) => true
    case Ready(_, _) => true
    case _ => false
  }

  ghost function HeldRows(cl: Client): set<string> {
    var u := cl.cmd.username;
    match cl.phase
    case Loaded(_) => {u}
    case Vetted(_) => {u}
    case Targeted(_) => {u}
    case Scanning(snapshot, todo, _, _) => {u} + (snapshot - todo)
    case Guarded(snapshot) => {u} + snapshot
    case Stripped(snapshot, _) => {u} + snapshot
    case Ready(snapshot, _) => if cl.cmd.Create? then {} else {u} + snapshot
    case _ => {}
  }

  ghost predicate HoldsName(cl: Client) {
    cl.cmd.Create? && (cl.phase.Inserted? || cl.phase.Ready?)
  }

  /** The lock table and client `c` agree on what it holds. */
  ghost predicate OwnLocks(s: State, c: nat)
    requires c < |s.clients|
  {
    var cl := s.clients[c];
    && (HoldsGroup(cl) ==> s.group == Some(c))
    && (forall v :: v in HeldRows(cl) ==> v in s.rows && s.rows[v] == c)
    && (HoldsName(cl) ==> cl.cmd.username in s.names && s.names[cl.cmd.username] == c)
    && (s.group == Some(c) ==> Locks(cl.cmd) && (HoldsGroup(cl) || cl.phase.Failing?))
    && (forall v :: v in s.rows && s.rows[v] == c ==> s.group == Some(c) || (cl.cmd.Enable? && cl.phase.Ready?))
    && (forall v :: v in s.rows && s.rows[v] == c ==> v in HeldRows(cl) || cl.phase.Failing?)
    && (forall v :: v in s.names && s.names[v] == c ==> HoldsName(cl) && v == cl.cmd.username)
  }

  // ----- What each client may rely on

  ghost predicate PhaseFits(cl: Client) {
    match cl.phase
    case Idle => true
    case Failing(_) => true
    case Done(_) => true
    case Ready(snapshot, _) => cl.cmd.Enable? || cl.cmd.Create? ==> snapshot == {}
    case Probe => cl.cmd.Enable?
    case Peek => cl.cmd.Enable?
    case LockForUpdate => cl.cmd.Enable?
    case CheckName => cl.cmd.Create?
    case FindGroup => cl.cmd.Create?
    case InsertUser => cl.cmd.Create?
    case Inserted => cl.cmd.Create?
    case Vetted(_) => cl.cmd.SetRole?
    case Targeted(_) => cl.cmd.SetRole?
    case Stripped(_, _) => cl.cmd.SetRole?
    case _ => Locks(cl.cmd)
  }

  /** The user exists, and for set-role may take the target role. */
  ghost predicate Eligible(s: State, cl: Client) {
    && Admins in s.provisioned
    && cl.cmd.username in s.db
    && (cl.cmd.SetRole? ==> Services !in s.db[cl.cmd.username].groups && cl.cmd.target in s.provisioned)
  }

  /** Another active administrator exists, if the command takes one away. */
  ghost predicate PassedGuard(s: State, cl: Client, snapshot: set<string>) {
    && Eligible(s, cl)
    && snapshot <= ActiveAdmins(s.db)
    && (cl.cmd.username in ActiveAdmins(s.db) && !(cl.cmd.SetRole? && cl.cmd.target == Admins) ==> |snapshot| >= 2)
  }

  ghost predicate ReadyToCommit(s: State, cl: Client, snapshot: set<string>, w: Write) {
    var u := cl.cmd.username;
    match cl.cmd
    case SetRole(_, target) => PassedGuard(s, cl, snapshot) && w == Regroup(HUMAN * s.provisioned - {target}, target)
    case Disable(_) =>
      || (PassedGuard(s, cl, snapshot) && w == SetActive(false))
      || (Eligible(s, cl) && w == Nothing && snapshot == {} && !s.db[u].active)
    case Enable(_) => u in s.db && w == SetActive(true)
    case Create(_, target) => u !in s.db && target in s.provisioned && w == Insert(User(true, {target}))
  }

  ghost predicate DataInv(s: State, init: Directory, cl: Client) {
    var u := cl.cmd.username;
    match cl.phase
    case CountUser => Admins in s.provisioned
    case LockUser => Admins in s.provisioned && u in s.db
    case Loaded(active) => Admins in s.provisioned && u in s.db && s.db[u].active == active
    case Vetted(active) =>
      Admins in s.provisioned && u in s.db && s.db[u].active == active && Services !in s.db[u].groups
    case Targeted(active) => Eligible(s, cl) && s.db[u].active == active
    case Scanning(snapshot, todo, found, at) =>
      && (cl.cmd.SetRole? ==> Eligible(s, cl) && cl.cmd.target != Admins)
      && Admins in s.provisioned
      && u in snapshot
      && snapshot <= ActiveAdmins(s.db)
      && todo <= snapshot
      && found == snapshot - todo
      && at <= |s.log|
      && (|snapshot| <= 1 ==>
            Permits(s.provisioned, Replay(init, s.log[..at]), cl.cmd, Refused(LastAdministrator)))
    case Guarded(snapshot) => PassedGuard(s, cl, snapshot)
    case Stripped(snapshot, remove) =>
      && PassedGuard(s, cl, snapshot)
      && cl.cmd.SetRole? && remove == HUMAN * s.provisioned - {cl.cmd.target}
    case Peek => u in s.db
    case LockForUpdate => u in s.db
    case InsertUser => cl.cmd.Create? && cl.cmd.target in s.provisioned
    case Inserted => cl.cmd.Create? && cl.cmd.target in s.provisioned && u !in s.db
    case Ready(snapshot, w) => ReadyToCommit(s, cl, snapshot, w)
    case _ => true
  }

  /** Memberships point at existing groups. */
  ghost predicate GroupsExist(provisioned: set<Group>, db: Directory) {
    forall u :: u in db ==> db[u].groups <= provisioned
  }

  /** The history is a legal serial execution that ends in the committed directory. */
  ghost predicate GoodHistory(s: State, init: Directory) {
    && Replay(init, s.log) == s.db
    && Legal(s.provisioned, init, s.log)
    && GroupsExist(s.provisioned, s.db)
  }

  ghost predicate ClientOk(s: State, init: Directory, c: nat)
    requires c < |s.clients|
  {
    OwnLocks(s, c) && PhaseFits(s.clients[c]) && DataInv(s, init, s.clients[c])
  }

  /** Every lock is held by a client. */
  ghost predicate OwnersExist(s: State) {
    && (s.group.Some? ==> s.group.value < |s.clients|)
    && (forall v :: v in s.rows ==> s.rows[v] < |s.clients|)
    && (forall v :: v in s.names ==> s.names[v] < |s.clients|)
  }

  ghost predicate Inv(s: State, init: Directory) {
    && GoodHistory(s, init)
    && OwnersExist(s)
    && (forall c: nat :: c < |s.clients| ==> ClientOk(s, init, c))
  }

  lemma InitialInv(provisioned: set<Group>, init: Directory, cmds: seq<Command>)
    requires GroupsExist(provisioned, init)
    ensures Inv(Initial(provisioned, init, cmds), init)
  {
  }

  // ----- A step and the history

  lemma CommitIsPermitted(s: State, init: Directory, c: nat)
    requires c < |s.clients| && ClientOk(s, init, c) && s.clients[c].phase.Ready?
    ensures Permits(s.provisioned, s.db, s.clients[c].cmd, Accepted)
  {
    var cl := s.clients[c];
    if Locks(cl.cmd) && cl.cmd.username in ActiveAdmins(s.db) && !(cl.cmd.SetRole? && cl.cmd.target == Admins) {
      SubsetSize(cl.phase.snapshot, ActiveAdmins(s.db));
    }
  }

  /** The committed directory changes only at a commit, and then by the atomic effect
      of the command, which the specification accepts at that moment. */
  lemma CommitIsAtomic(s: State, init: Directory, c: nat)
    requires GoodHistory(s, init) && c < |s.clients| && ClientOk(s, init, c) && s.clients[c].phase.Ready?
    ensures Permits(s.provisioned, s.db, s.clients[c].cmd, Accepted)
    ensures Fire(s, c, Step).db == Effect(s.db, s.clients[c].cmd, Accepted)
    ensures GroupsExist(s.provisioned, Fire(s, c, Step).db)
  {
    hide Permits, PassedGuard, OwnLocks;
    CommitIsPermitted(s, init, c);
    var cmd := s.clients[c].cmd;
    assert Fire(s, c, Step).db == ApplyWrite(s.db, cmd.username, s.clients[c].phase.write);
    if cmd.SetRole? {
      var groups, target := s.db[cmd.username].groups, cmd.target;
      assert groups - (HUMAN * s.provisioned - {target}) + {target} == groups - HUMAN + {target};
    }
  }

  lemma OneEvent(provisioned: set<Group>, init: Directory, log: seq<Event>, e: Event)
    requires Legal(provisioned, init, log)
    requires Permits(provisioned, Replay(init, log), e.cmd, e.verdict)
    ensures InsertAt(log, |log|, e) == log + [e]
    ensures Legal(provisioned, init, log + [e])
    ensures Replay(init, log + [e]) == Effect(Replay(init, log), e.cmd, e.verdict)
  {
    assert (log + [e])[..|log|] == log;
  }

  lemma RecordKeepsHistory(s: State, init: Directory, c: nat, verdict: Verdict)
    requires GoodHistory(s, init) && c < |s.clients|
    requires Permits(s.provisioned, s.db, s.clients[c].cmd, verdict)
    requires Effect(s.db, s.clients[c].cmd, verdict) == s.db
    ensures GoodHistory(Record(s, c, |s.log|, verdict), init)
  {
    OneEvent(s.provisioned, init, s.log, Event(c, s.clients[c].cmd, verdict));
  }

  /** The guard refuses for what its count saw, even if an administrator was enabled
      since: the refusal takes its place in the log where the count statement ran. */
  lemma ScanKeepsHistory(s: State, init: Directory, c: nat)
    requires GoodHistory(s, init)
    requires Enabled(s, c, Step) && ClientOk(s, init, c) && s.clients[c].phase.Scanning?
    ensures GoodHistory(Fire(s, c, Step), init)
  {
    var cl := s.clients[c];
    assert cl.phase.found == cl.phase.snapshot;
    if |cl.phase.found| <= 1 {
      var at := cl.phase.at;
      assert s.log[..at] + s.log[at..] == s.log;
      InsertRefusal(s.provisioned, init, s.log[..at], Event(c, cl.cmd, Refused(LastAdministrator)), s.log[at..]);
    }
  }

  lemma RefusalKeepsHistory(s: State, init: Directory, c: nat, reason: Reason)
    requires GoodHistory(s, init) && c < |s.clients|
    requires Permits(s.provisioned, s.db, s.clients[c].cmd, Refused(reason))
    ensures GoodHistory(Refuse(s, c, |s.log|, reason), init)
  {
    hide Permits;
    RecordKeepsHistory(s, init, c, Refused(reason));
  }

  lemma MoveKeepsHistory(s: State, init: Directory, c: nat, phase: Phase)
    requires GoodHistory(s, init) && c < |s.clients|
    ensures GoodHistory(Move(s, c, phase), init)
  {
  }

  lemma AcquireKeepsHistory(s: State, init: Directory, c: nat)
    requires GoodHistory(s, init) && c < |s.clients| && Locks(s.clients[c].cmd) && ClientOk(s, init, c)
    ensures GoodHistory(StepAcquire(s, c), init)
  {
    hide OwnLocks, Replay, Legal, Refuse;
    var cl := s.clients[c];
    if cl.phase.LockGroup? && Admins !in s.provisioned {
      RefusalKeepsHistory(s, init, c, MissingGroup);
    } else if cl.phase.CountUser? && cl.cmd.username !in s.db {
      RefusalKeepsHistory(s, init, c, NoSuchUser);
    }
  }

  lemma VetKeepsHistory(s: State, init: Directory, c: nat)
    requires GoodHistory(s, init) && c < |s.clients| && Locks(s.clients[c].cmd) && ClientOk(s, init, c)
    ensures GoodHistory(StepVet(s, c), init)
  {
    hide OwnLocks, Replay, Legal, Refuse;
    var cl := s.clients[c];
    if cl.cmd.username in s.db && cl.cmd.SetRole? {
      if cl.phase.Loaded? && Services in s.db[cl.cmd.username].groups {
        RefusalKeepsHistory(s, init, c, ServiceIdentity);
      } else if cl.phase.Vetted? && cl.cmd.target !in s.provisioned {
        RefusalKeepsHistory(s, init, c, MissingGroup);
      }
    }
  }

  lemma WriteKeepsHistory(s: State, init: Directory, c: nat)
    requires GoodHistory(s, init) && c < |s.clients| && !s.clients[c].phase.Scanning?
    ensures GoodHistory(StepWrite(s, c), init)
  {
    hide GoodHistory;
    MoveKeepsHistory(s, init, c, StepWrite(s, c).clients[c].phase);
  }

  lemma LockingKeepsHistory(s: State, init: Directory, c: nat)
    requires GoodHistory(s, init)
    requires Enabled(s, c, Step) && ClientOk(s, init, c) && Locks(s.clients[c].cmd)
    requires !s.clients[c].phase.Scanning?
    ensures GoodHistory(StepLocking(s, c), init)
  {
    hide GoodHistory, ClientOk, StepAcquire, StepVet, StepWrite;
    AcquireKeepsHistory(s, init, c);
    VetKeepsHistory(s, init, c);
    WriteKeepsHistory(s, init, c);
  }

  lemma EnableKeepsHistory(s: State, init: Directory, c: nat)
    requires GoodHistory(s, init)
    requires Enabled(s, c, Step) && ClientOk(s, init, c) && s.clients[c].cmd.Enable?
    ensures GoodHistory(StepEnable(s, c), init)
  {
    var cl := s.clients[c];
    if cl.phase.Probe? && cl.cmd.username !in s.db {
      RecordKeepsHistory(s, init, c, Refused(NoSuchUser));
    } else if cl.phase.Peek? && s.db[cl.cmd.username].active {
      assert Effect(s.db, cl.cmd, Accepted) == s.db;
      RecordKeepsHistory(s, init, c, Accepted);
    }
  }

  lemma CreateKeepsHistory(s: State, init: Directory, c: nat)
    requires GoodHistory(s, init)
    requires Enabled(s, c, Step) && ClientOk(s, init, c) && s.clients[c].cmd.Create?
    ensures GoodHistory(StepCreate(s, c), init)
  {
    var cl := s.clients[c];
    var s' := StepCreate(s, c);
    if s'.clients[c].phase.Failing? && !cl.phase.Failing? {
      RecordKeepsHistory(s, init, c, Refused(s'.clients[c].phase.reason));
    }
  }

  /** The history stays a legal serial execution that ends in the committed directory. */
  lemma StepKeepsHistory(s: State, init: Directory, c: nat, a: Action)
    requires GoodHistory(s, init)
    requires Enabled(s, c, a) && ClientOk(s, init, c)
    ensures GoodHistory(Fire(s, c, a), init)
  {
    var cl := s.clients[c];
    if a.Step? && !cl.phase.Idle? && !cl.phase.Failing? {
      if cl.phase.Ready? {
        CommitIsAtomic(s, init, c);
        OneEvent(s.provisioned, init, s.log, Event(c, cl.cmd, Accepted));
      } else if cl.cmd.Enable? {
        EnableKeepsHistory(s, init, c);
      } else if cl.cmd.Create? {
        CreateKeepsHistory(s, init, c);
      } else if cl.phase.Scanning? {
        ScanKeepsHistory(s, init, c);
      } else {
        LockingKeepsHistory(s, init, c);
      }
    }
  }

  // ----- A step leaves the other clients alone

  /** Client `c` has touched no one else's locks. */
  ghost predicate OnlyOwnLocks(s: State, s': State, c: nat) {
    && (s'.group != s.group ==> s.group in {None, Some(c)} && s'.group in {None, Some(c)})
    && (forall v :: v in s.rows && s.rows[v] != c ==> v in s'.rows && s'.rows[v] == s.rows[v])
    && (forall v :: v in s'.rows && s'.rows[v] != c ==> v in s.rows && s'.rows[v] == s.rows[v])
    && (forall v :: v in s.names && s.names[v] != c ==> v in s'.names && s'.names[v] == s.names[v])
    && (forall v :: v in s'.names && s'.names[v] != c ==> v in s.names && s'.names[v] == s.names[v])
  }

  ghost predicate OnlyOwnClient(s: State, s': State, c: nat) {
    && |s'.clients| == |s.clients|
    && s'.provisioned == s.provisioned
    && (forall d :: 0 <= d < |s.clients| && d != c ==> s'.clients[d] == s.clients[d])
    && (c < |s.clients| ==> s'.clients[c].cmd == s.clients[c].cmd)
    && (c < |s.clients| && !s.clients[c].phase.Idle? ==> s'.clients[c].before == s.clients[c].before)
  }

  /** A step of client `c` changes nothing another client holds or is. */
  ghost predicate Local(s: State, s': State, c: nat) {
    OnlyOwnLocks(s, s', c) && OnlyOwnClient(s, s', c)
  }

  lemma MoveIsLocal(s: State, c: nat, phase: Phase)
    requires c < |s.clients|
    ensures Local(s, Move(s, c, phase), c)
  {
  }

  lemma NothingIsLocal(s: State, c: nat)
    ensures Local(s, s, c)
  {
  }

  lemma RefuseIsLocal(s: State, c: nat, at: nat, reason: Reason)
    requires c < |s.clients|
    ensures Local(s, Refuse(s, c, at, reason), c)
  {
  }

  lemma AcquireIsLocal(s: State, c: nat)
    requires Enabled(s, c, Step) && Locks(s.clients[c].cmd)
    ensures Local(s, StepAcquire(s, c), c)
  {
  }

  lemma VetIsLocal(s: State, c: nat)
    requires c < |s.clients|
    ensures Local(s, StepVet(s, c), c)
  {
    hide Local;
    NothingIsLocal(s, c);
    MoveIsLocal(s, c, StepVet(s, c).clients[c].phase);
    RefuseIsLocal(s, c, |s.log|, ServiceIdentity);
    RefuseIsLocal(s, c, |s.log|, MissingGroup);
  }

  lemma WriteIsLocal(s: State, c: nat)
    requires c < |s.clients|
    ensures Local(s, StepWrite(s, c), c)
  {
    hide Local;
    NothingIsLocal(s, c);
    var p := s.clients[c].phase;
    if p.Scanning? && |p.found| <= 1 {
      RefuseIsLocal(s, c, p.at, LastAdministrator);
    } else {
      MoveIsLocal(s, c, StepWrite(s, c).clients[c].phase);
    }
  }

  lemma EnableIsLocal(s: State, c: nat)
    requires Enabled(s, c, Step) && s.clients[c].cmd.Enable?
    ensures Local(s, StepEnable(s, c), c)
  {
  }

  lemma CreateIsLocal(s: State, c: nat)
    requires Enabled(s, c, Step) && s.clients[c].cmd.Create?
    ensures Local(s, StepCreate(s, c), c)
  {
    RefuseIsLocal(s, c, |s.log|, UserExists);
    RefuseIsLocal(s, c, |s.log|, MissingGroup);
  }

  lemma EndIsLocal(s: State, c: nat, result: Result)
    requires c < |s.clients|
    ensures Local(s, End(s, c, result), c)
  {
  }

  lemma CommitIsLocal(s: State, c: nat)
    requires c < |s.clients| && s.clients[c].phase.Ready?
    ensures Local(s, Commit(s, c), c)
  {
    var s1 := Record(s, c, |s.log|, Accepted);
    EndIsLocal(s1.(db := ApplyWrite(s.db, s.clients[c].cmd.username, s.clients[c].phase.write)), c, Finished(Accepted));
  }

  lemma LockNextIsLocal(s: State, c: nat, v: string)
    requires Enabled(s, c, LockRow(v))
    ensures Local(s, LockNext(s, c, v), c)
  {
  }

  lemma AdvanceIsLocal(s: State, c: nat)
    requires Enabled(s, c, Step)
    requires var p := s.clients[c].phase; !p.Idle? && !p.Failing? && !p.Ready?
    ensures Local(s, Fire(s, c, Step), c)
  {
    var cmd := s.clients[c].cmd;
    if Locks(cmd) {
      AcquireIsLocal(s, c);
      VetIsLocal(s, c);
      WriteIsLocal(s, c);
    } else if cmd.Enable? {
      EnableIsLocal(s, c);
    } else {
      CreateIsLocal(s, c);
    }
  }

  lemma StepIsLocal(s: State, c: nat, a: Action)
    requires Enabled(s, c, a)
    ensures Local(s, Fire(s, c, a), c)
  {
    match a
    case Abort => EndIsLocal(s, c, Aborted);
    case LockRow(v) => LockNextIsLocal(s, c, v);
    case Step =>
      match s.clients[c].phase {
        case Idle =>
        case Failing(reason) => EndIsLocal(s, c, Finished(Refused(reason)));
        case Ready(_, _) => CommitIsLocal(s, c);
        case _ => AdvanceIsLocal(s, c);
      }
  }

  // ----- A step and its own client

  /** A phase change that neither needs nor drops a lock. */
  lemma MoveKeepsOwnLocks(s: State, c: nat, phase: Phase)
    requires c < |s.clients| && OwnLocks(s, c) && Locks(s.clients[c].cmd)
    requires var cl := s.clients[c];
      HoldsGroup(cl) && HoldsGroup(cl.(phase := phase)) && HeldRows(cl.(phase := phase)) == HeldRows(cl)
    ensures OwnLocks(Move(s, c, phase), c)
  {
  }

  lemma RefusalKeepsOwnLocks(s: State, c: nat, at: nat, reason: Reason)
    requires c < |s.clients| && OwnLocks(s, c) && Locks(s.clients[c].cmd)
    ensures OwnLocks(Refuse(s, c, at, reason), c)
  {
  }

  lemma TakesTheGroup(s: State, c: nat)
    requires c < |s.clients| && OwnLocks(s, c) && Locks(s.clients[c].cmd)
    requires s.clients[c].phase.LockGroup? && s.group == None
    ensures OwnLocks(Move(s.(group := Some(c)), c, CountUser), c)
  {
  }

  lemma TakesTheRow(s: State, c: nat, active: bool)
    requires c < |s.clients| && OwnLocks(s, c) && Locks(s.clients[c].cmd) && s.clients[c].phase.LockUser?
    ensures var u := s.clients[c].cmd.username;
      u !in s.rows ==> OwnLocks(Move(s.(rows := s.rows[u := c]), c, Loaded(active)), c)
  {
  }

  lemma AcquireKeepsOwnLocks(s: State, init: Directory, c: nat)
    requires Enabled(s, c, Step) && ClientOk(s, init, c) && Locks(s.clients[c].cmd)
    requires var p := s.clients[c].phase; p.LockGroup? || p.CountUser? || p.LockUser?
    ensures OwnLocks(StepAcquire(s, c), c)
  {
    hide OwnLocks, Permits, Replay, Move, Refuse;
    match s.clients[c].phase
    case LockGroup =>
      RefusalKeepsOwnLocks(s, c, |s.log|, MissingGroup);
      if s.group == None { TakesTheGroup(s, c); }
    case CountUser =>
      RefusalKeepsOwnLocks(s, c, |s.log|, NoSuchUser);
      MoveKeepsOwnLocks(s, c, LockUser);
    case LockUser =>
      TakesTheRow(s, c, s.db[s.clients[c].cmd.username].active);
  }

  lemma AcquireKeepsOwn(s: State, init: Directory, c: nat)
    requires Enabled(s, c, Step) && ClientOk(s, init, c) && Locks(s.clients[c].cmd)
    requires var p := s.clients[c].phase; p.LockGroup? || p.CountUser? || p.LockUser?
    ensures ClientOk(StepAcquire(s, c), init, c)
  {
    hide Permits, Replay, OwnLocks;
    AcquireKeepsOwnLocks(s, init, c);
  }

  lemma VetKeepsOwnLocks(s: State, init: Directory, c: nat)
    requires Enabled(s, c, Step) && ClientOk(s, init, c)
    requires var p := s.clients[c].phase; p.Loaded? || p.Vetted? || p.Targeted?
    ensures OwnLocks(StepVet(s, c), c)
  {
    hide OwnLocks, Permits, Replay;
    RefusalKeepsOwnLocks(s, c, |s.log|, ServiceIdentity);
    RefusalKeepsOwnLocks(s, c, |s.log|, MissingGroup);
    var phase := StepVet(s, c).clients[c].phase;
    assert phase.Scanning? ==> phase.snapshot - phase.todo == {};
    if HoldsGroup(s.clients[c].(phase := phase)) {
      MoveKeepsOwnLocks(s, c, phase);
    }
  }

  /** The guard statement starts where the specification would still refuse, if at all. */
  lemma ScanStartsWell(s: State, init: Directory, c: nat)
    requires GoodHistory(s, init) && c < |s.clients| && Locks(s.clients[c].cmd)
    requires Admins in s.provisioned && s.clients[c].cmd.username in ActiveAdmins(s.db)
    requires s.clients[c].cmd.SetRole? ==> Eligible(s, s.clients[c]) && s.clients[c].cmd.target != Admins
    ensures DataInv(StartScan(s, c), init, StartScan(s, c).clients[c])
  {
    assert s.log[..|s.log|] == s.log;
  }

  lemma VetKeepsOwnData(s: State, init: Directory, c: nat)
    requires GoodHistory(s, init)
    requires Enabled(s, c, Step) && ClientOk(s, init, c)
    requires var p := s.clients[c].phase; p.Loaded? || p.Vetted? || p.Targeted?
    ensures var s' := StepVet(s, c); PhaseFits(s'.clients[c]) && DataInv(s', init, s'.clients[c])
  {
    hide GoodHistory, Permits, OwnLocks;
    var s' := StepVet(s, c);
    if s'.clients[c].phase.Scanning? {
      ScanStartsWell(s, init, c);
    }
  }

  lemma DecideKeepsOwnLocks(s: State, c: nat)
    requires c < |s.clients| && OwnLocks(s, c) && Locks(s.clients[c].cmd)
    requires s.clients[c].phase.Scanning? && s.clients[c].phase.todo == {}
    ensures OwnLocks(StepWrite(s, c), c)
  {
    hide OwnLocks;
    var p := s.clients[c].phase;
    assert p.snapshot - p.todo == p.snapshot;
    RefusalKeepsOwnLocks(s, c, p.at, LastAdministrator);
    MoveKeepsOwnLocks(s, c, Guarded(p.snapshot));
  }

  lemma WriteKeepsOwnLocks(s: State, c: nat)
    requires c < |s.clients| && OwnLocks(s, c) && Locks(s.clients[c].cmd)
    requires s.clients[c].phase.Guarded? || s.clients[c].phase.Stripped?
    ensures OwnLocks(StepWrite(s, c), c)
  {
    hide OwnLocks;
    MoveKeepsOwnLocks(s, c, StepWrite(s, c).clients[c].phase);
  }

  lemma DecideKeepsOwn(s: State, init: Directory, c: nat)
    requires Enabled(s, c, Step) && ClientOk(s, init, c) && s.clients[c].phase.Scanning?
    ensures ClientOk(StepWrite(s, c), init, c)
  {
    hide OwnLocks, Permits, Replay;
    DecideKeepsOwnLocks(s, c);
  }

  lemma WriteKeepsOwn(s: State, init: Directory, c: nat)
    requires Enabled(s, c, Step) && ClientOk(s, init, c)
    requires s.clients[c].phase.Guarded? || s.clients[c].phase.Stripped?
    ensures ClientOk(StepWrite(s, c), init, c)
  {
    hide OwnLocks, Permits, Replay;
    WriteKeepsOwnLocks(s, c);
  }

  /** Enable and create hold no lock before their write. */
  ghost predicate Free(s: State, c: nat) {
    && s.group != Some(c)
    && (forall v :: v in s.rows ==> s.rows[v] != c)
    && (forall v :: v in s.names ==> s.names[v] != c)
  }

  ghost predicate NeedsNothing(cl: Client) {
    !HoldsGroup(cl) && HeldRows(cl) == {} && !HoldsName(cl)
  }

  lemma FreeUntilTheWrite(s: State, c: nat)
    requires c < |s.clients| && OwnLocks(s, c) && !Locks(s.clients[c].cmd)
    requires !s.clients[c].phase.Failing? && !s.clients[c].phase.Ready? && NeedsNothing(s.clients[c])
    ensures Free(s, c)
  {
  }

  lemma FreeIsOk(s: State, c: nat)
    requires c < |s.clients| && Free(s, c) && NeedsNothing(s.clients[c])
    ensures OwnLocks(s, c)
  {
  }

  lemma EnableKeepsOwnLocks(s: State, init: Directory, c: nat)
    requires Enabled(s, c, Step) && ClientOk(s, init, c) && s.clients[c].cmd.Enable?
    requires var p := s.clients[c].phase; p.Probe? || p.Peek? || p.LockForUpdate?
    ensures OwnLocks(StepEnable(s, c), c)
  {
    hide Permits, Replay, OwnLocks;
    FreeUntilTheWrite(s, c);
    if s.clients[c].phase.LockForUpdate? {
      OwnsItsRow(s, c);
    } else {
      FreeIsOk(StepEnable(s, c), c);
    }
  }

  lemma OwnsItsRow(s: State, c: nat)
    requires c < |s.clients| && Free(s, c) && s.clients[c].cmd.Enable? && s.clients[c].phase.LockForUpdate?
    ensures OwnLocks(StepEnable(s, c), c)
  {
  }

  lemma EnableKeepsOwn(s: State, init: Directory, c: nat)
    requires Enabled(s, c, Step) && ClientOk(s, init, c) && s.clients[c].cmd.Enable?
    requires var p := s.clients[c].phase; p.Probe? || p.Peek? || p.LockForUpdate?
    ensures ClientOk(StepEnable(s, c), init, c)
  {
    hide Permits, Replay, OwnLocks;
    EnableKeepsOwnLocks(s, init, c);
  }

  lemma OwnsItsName(s: State, c: nat)
    requires c < |s.clients| && Free(s, c) && s.clients[c].cmd.Create? && s.clients[c].phase.InsertUser?
    ensures OwnLocks(StepCreate(s, c), c)
  {
  }

  lemma ProbeKeepsOwn(s: State, init: Directory, c: nat)
    requires Enabled(s, c, Step) && ClientOk(s, init, c) && s.clients[c].cmd.Create?
    requires s.clients[c].phase.CheckName? || s.clients[c].phase.FindGroup?
    ensures ClientOk(StepCreate(s, c), init, c)
  {
    hide Permits, Replay, OwnLocks;
    FreeUntilTheWrite(s, c);
    CreateKeepsFree(s, c);
    hide Free, NeedsNothing;
    FreeIsOk(StepCreate(s, c), c);
  }

  lemma CreateKeepsFree(s: State, c: nat)
    requires c < |s.clients| && Free(s, c) && s.clients[c].cmd.Create?
    requires s.clients[c].phase.CheckName? || s.clients[c].phase.FindGroup?
    ensures Free(StepCreate(s, c), c) && NeedsNothing(StepCreate(s, c).clients[c])
  {
  }

  lemma InsertKeepsOwn(s: State, init: Directory, c: nat)
    requires Enabled(s, c, Step) && ClientOk(s, init, c) && s.clients[c].cmd.Create?
    requires s.clients[c].phase.InsertUser?
    ensures ClientOk(StepCreate(s, c), init, c)
  {
    hide Permits, Replay, OwnLocks;
    FreeUntilTheWrite(s, c);
    OwnsItsName(s, c);
  }

  lemma InsertedKeepsOwnLocks(s: State, c: nat)
    requires c < |s.clients| && OwnLocks(s, c) && s.clients[c].cmd.Create? && s.clients[c].phase.Inserted?
    ensures OwnLocks(StepCreate(s, c), c)
  {
  }

  lemma InsertedKeepsOwn(s: State, init: Directory, c: nat)
    requires Enabled(s, c, Step) && ClientOk(s, init, c) && s.clients[c].cmd.Create?
    requires s.clients[c].phase.Inserted?
    ensures ClientOk(StepCreate(s, c), init, c)
  {
    hide Permits, Replay, OwnLocks;
    InsertedKeepsOwnLocks(s, c);
  }

  lemma LockNextKeepsOwn(s: State, init: Directory, c: nat, v: string)
    requires Enabled(s, c, LockRow(v)) && ClientOk(s, init, c)
    ensures ClientOk(LockNext(s, c, v), init, c)
  {
    var cl := s.clients[c];
    var p := cl.phase;
    assert p.snapshot - (p.todo - {v}) == (p.snapshot - p.todo) + {v};
  }

  lemma EndKeepsOwn(s: State, init: Directory, c: nat, result: Result)
    requires c < |s.clients|
    ensures ClientOk(End(s, c, result), init, c)
  {
  }

  lemma CommitKeepsOwn(s: State, init: Directory, c: nat)
    requires c < |s.clients| && s.clients[c].phase.Ready?
    ensures ClientOk(Commit(s, c), init, c)
  {
    var cl := s.clients[c];
    var s1 := Record(s, c, |s.log|, Accepted);
    EndKeepsOwn(s1.(db := ApplyWrite(s.db, cl.cmd.username, cl.phase.write)), init, c, Finished(Accepted));
  }

  lemma AdvanceKeepsOwn(s: State, init: Directory, c: nat)
    requires GoodHistory(s, init)
    requires Enabled(s, c, Step) && ClientOk(s, init, c)
    requires var p := s.clients[c].phase; !p.Idle? && !p.Failing? && !p.Ready?
    ensures ClientOk(Fire(s, c, Step), init, c)
  {
    hide Permits, Replay, OwnLocks, DataInv, GoodHistory;
    var p := s.clients[c].phase;
    if s.clients[c].cmd.Enable? {
      EnableKeepsOwn(s, init, c);
    } else if p.CheckName? || p.FindGroup? {
      ProbeKeepsOwn(s, init, c);
    } else if p.InsertUser? {
      InsertKeepsOwn(s, init, c);
    } else if p.Inserted? {
      InsertedKeepsOwn(s, init, c);
    } else if p.LockGroup? || p.CountUser? || p.LockUser? {
      AcquireKeepsOwn(s, init, c);
    } else if p.Loaded? || p.Vetted? || p.Targeted? {
      VetKeepsOwnLocks(s, init, c);
      VetKeepsOwnData(s, init, c);
    } else if p.Scanning? {
      DecideKeepsOwn(s, init, c);
    } else {
      WriteKeepsOwn(s, init, c);
    }
  }

  lemma BeginKeepsOwn(s: State, init: Directory, c: nat)
    requires c < |s.clients| && ClientOk(s, init, c) && s.clients[c].phase.Idle?
    ensures ClientOk(Begin(s, c), init, c)
  {
  }

  lemma StepKeepsOwn(s: State, init: Directory, c: nat, a: Action)
    requires GoodHistory(s, init)
    requires Enabled(s, c, a) && ClientOk(s, init, c)
    ensures ClientOk(Fire(s, c, a), init, c)
  {
    hide Permits, GoodHistory, Replay, OwnLocks, DataInv, End, LockNext, Commit;
    match a
    case Abort => EndKeepsOwn(s, init, c, Aborted);
    case LockRow(v) => LockNextKeepsOwn(s, init, c, v);
    case Step =>
      match s.clients[c].phase {
        case Idle => BeginKeepsOwn(s, init, c);
        case Failing(reason) => EndKeepsOwn(s, init, c, Finished(Refused(reason)));
        case Ready(_, w) => CommitKeepsOwn(s, init, c);
        case _ => AdvanceKeepsOwn(s, init, c);
      }
  }

  // ----- A step and the other clients

  /** What a commit of client `c` may do to the directory. */
  ghost predicate DirectoryStep(s: State, s': State, c: nat) {
    && (forall u :: u in s.db ==> u in s'.db)
    && (forall u :: u in s.db && s'.db[u].groups != s.db[u].groups ==> s.group == Some(c))
    && (forall u :: u in s.db && s.db[u].active && !s'.db[u].active ==> s.group == Some(c))
    && (forall u :: u in s.db && s'.db[u] != s.db[u] ==> u in s.rows && s.rows[u] == c)
    && (forall u :: u in s'.db && u !in s.db ==> u in s.names && s.names[u] == c)
  }

  /** Only a holder of the group lock writes anywhere but at the end of the log. */
  ghost predicate LogGrows(s: State, s': State, c: nat) {
    s.group == Some(c) || s.log <= s'.log
  }

  lemma CommitChangesLockedData(s: State, init: Directory, c: nat)
    requires Enabled(s, c, Step) && ClientOk(s, init, c) && s.clients[c].phase.Ready?
    ensures DirectoryStep(s, Commit(s, c), c)
  {
    hide Permits, Replay, PassedGuard;
    var cl := s.clients[c];
    CommitHolds(s, c);
    hide OwnLocks;
  }

  /** A commit writes where the client holds the row or the name. */
  lemma CommitHolds(s: State, c: nat)
    requires c < |s.clients| && OwnLocks(s, c) && s.clients[c].phase.Ready?
    ensures var cl := s.clients[c];
      var u := cl.cmd.username;
      && (Locks(cl.cmd) ==> s.group == Some(c))
      && (if cl.cmd.Create? then u in s.names && s.names[u] == c else u in s.rows && s.rows[u] == c)
  {
    var cl := s.clients[c];
    if !cl.cmd.Create? {
      assert cl.cmd.username in HeldRows(cl);
    }
  }

  lemma LockingLeavesDirectory(s: State, c: nat)
    requires c < |s.clients|
    ensures StepLocking(s, c).db == s.db
  {
    hide ActiveAdmins, InsertAt;
  }

  lemma EnableLeavesDirectory(s: State, c: nat)
    requires c < |s.clients|
    ensures StepEnable(s, c).db == s.db
  {
  }

  lemma CreateLeavesDirectory(s: State, c: nat)
    requires c < |s.clients| && s.clients[c].cmd.Create?
    ensures StepCreate(s, c).db == s.db
  {
  }

  /** Before its commit a command leaves the committed directory alone. */
  lemma OnlyCommitsWrite(s: State, c: nat, a: Action)
    requires Enabled(s, c, a) && !(a.Step? && s.clients[c].phase.Ready?)
    ensures Fire(s, c, a).db == s.db
  {
    hide StepLocking, StepEnable, StepCreate;
    LockingLeavesDirectory(s, c);
    EnableLeavesDirectory(s, c);
    if s.clients[c].cmd.Create? {
      CreateLeavesDirectory(s, c);
    }
  }

  lemma AppendOrHoldGroup(s: State, init: Directory, c: nat)
    requires Enabled(s, c, Step) && Locks(s.clients[c].cmd) && ClientOk(s, init, c)
    ensures LogGrows(s, StepLocking(s, c), c)
  {
  }

  lemma StepGrowsLog(s: State, init: Directory, c: nat, a: Action)
    requires Enabled(s, c, a) && ClientOk(s, init, c)
    ensures LogGrows(s, Fire(s, c, a), c)
  {
    if a.Step? && Locks(s.clients[c].cmd) {
      AppendOrHoldGroup(s, init, c);
    }
  }

  lemma StepKeepsOthersLocks(s: State, s': State, c: nat, d: nat)
    requires c < |s.clients| && d < |s.clients| && d != c
    requires OwnLocks(s, d) && Local(s, s', c)
    ensures OwnLocks(s', d)
  {
  }

  /** While `d` holds the group lock, no administrator is lost and its user stays as it is. */
  lemma GroupLockProtects(s: State, s': State, init: Directory, c: nat, d: nat)
    requires c < |s.clients| && d < |s.clients| && d != c && ClientOk(s, init, d)
    requires HoldsGroup(s.clients[d]) && DirectoryStep(s, s', c)
    ensures ActiveAdmins(s.db) <= ActiveAdmins(s'.db)
    ensures s.clients[d].cmd.username in HeldRows(s.clients[d]) && s.clients[d].cmd.username in s.db ==>
      s'.db[s.clients[d].cmd.username] == s.db[s.clients[d].cmd.username]
  {
  }

  lemma StepKeepsGuardedData(s: State, s': State, init: Directory, c: nat, d: nat)
    requires c < |s.clients| && d < |s.clients| && d != c && ClientOk(s, init, d)
    requires HoldsGroup(s.clients[d])
    requires OnlyOwnClient(s, s', c) && DirectoryStep(s, s', c) && LogGrows(s, s', c)
    ensures DataInv(s', init, s'.clients[d])
  {
    hide Permits, Replay;
    var cl := s.clients[d];
    GroupLockProtects(s, s', init, c, d);
    assert s.group == Some(d);
    hide OwnLocks;
    if cl.phase.Scanning? {
      assert s'.log[..cl.phase.at] == s.log[..cl.phase.at];
    }
  }

  lemma StepKeepsLooseData(s: State, s': State, init: Directory, c: nat, d: nat)
    requires c < |s.clients| && d < |s.clients| && d != c && ClientOk(s, init, d)
    requires !HoldsGroup(s.clients[d])
    requires OnlyOwnClient(s, s', c) && DirectoryStep(s, s', c)
    ensures DataInv(s', init, s'.clients[d])
  {
    hide Permits, Replay, ActiveAdmins, PassedGuard;
  }

  /** What client `d` relies on is protected by the locks it holds. */
  lemma StepKeepsOthersData(s: State, s': State, init: Directory, c: nat, d: nat)
    requires c < |s.clients| && d < |s.clients| && d != c && ClientOk(s, init, d)
    requires Local(s, s', c) && DirectoryStep(s, s', c) && LogGrows(s, s', c)
    ensures DataInv(s', init, s'.clients[d])
  {
    hide OnlyOwnLocks, OnlyOwnClient, DirectoryStep, LogGrows, ClientOk, DataInv;
    if HoldsGroup(s.clients[d]) {
      StepKeepsGuardedData(s, s', init, c, d);
    } else {
      StepKeepsLooseData(s, s', init, c, d);
    }
  }

  lemma StepKeepsOwners(s: State, s': State, c: nat)
    requires OwnersExist(s) && c < |s.clients| && Local(s, s', c)
    ensures OwnersExist(s')
  {
    forall v | v in s'.rows ensures s'.rows[v] < |s'.clients| {
      if s'.rows[v] != c { assert v in s.rows; }
    }
    forall v | v in s'.names ensures s'.names[v] < |s'.clients| {
      if s'.names[v] != c { assert v in s.names; }
    }
  }

  /** Whatever client `c` does, the committed directory changes only in what `c` has locked. */
  lemma StepChangesLockedData(s: State, init: Directory, c: nat, a: Action)
    requires Enabled(s, c, a) && ClientOk(s, init, c)
    ensures DirectoryStep(s, Fire(s, c, a), c)
  {
    hide Permits, Replay;
    if a.Step? && s.clients[c].phase.Ready? {
      CommitChangesLockedData(s, init, c);
    } else {
      OnlyCommitsWrite(s, c, a);
    }
  }

  lemma StepKeepsOther(s: State, s': State, init: Directory, c: nat, d: nat)
    requires c < |s.clients| && d < |s.clients| && d != c && ClientOk(s, init, d)
    requires Local(s, s', c) && DirectoryStep(s, s', c) && LogGrows(s, s', c)
    ensures ClientOk(s', init, d)
  {
    StepKeepsOthersLocks(s, s', c, d);
    StepKeepsOthersData(s, s', init, c, d);
    hide OwnLocks, DataInv, DirectoryStep, LogGrows, OnlyOwnLocks;
  }

  lemma StepKeepsInv(s: State, init: Directory, c: nat, a: Action)
    requires Inv(s, init) && Enabled(s, c, a)
    ensures Inv(Fire(s, c, a), init)
  {
    hide ClientOk, GoodHistory, DirectoryStep, LogGrows, Enabled, Local, OwnersExist, Fire;
    var s' := Fire(s, c, a);
    ClientExists(s, c, a);
    StepKeepsHistory(s, init, c, a);
    StepIsLocal(s, c, a);
    StepKeepsOwners(s, s', c);
    StepKeepsOwn(s, init, c, a);
    StepChangesLockedData(s, init, c, a);
    StepGrowsLog(s, init, c, a);
    forall d: nat | d < |s.clients| ensures ClientOk(s', init, d) {
      if d != c {
        StepKeepsOther(s, s', init, c, d);
      }
    }
  }

  lemma ClientExists(s: State, c: nat, a: Action)
    requires Enabled(s, c, a)
    ensures c < |s.clients|
  {
  }
}
