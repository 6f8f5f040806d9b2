/** Set-role, disable, enable and create as interleaved database transactions.

    Visibility is READ COMMITTED: a statement sees the committed directory, and a
    transaction's own writes stay in its client until it commits.  A row or the
    administrator group selected FOR UPDATE is locked until commit or rollback.
    Any client may abort at any step, and clients interleave arbitrarily. */
module AccountProtocol {
  import opened Text
  import opened Accounts

  /** What a transaction has written and not yet committed. */
  datatype Write =
    | Nothing
    | SetActive(active: bool)
    | Regroup(remove: set<Group>, add: Group)
    | Insert(user: User)

  datatype Phase =
    | Idle
      // set-role and disable
    | LockGroup                          // about to lock the administrator group
    | CountUser                          // holds the group; about to count the name
    | LockUser                           // exactly one such user; about to lock its row
    | Loaded(active: bool)               // holds the row and what it said
    | Vetted(active: bool)               // set-role: not a service identity
    | Targeted(active: bool)             // set-role: the target group exists
    | Scanning(snapshot: set<string>,    // the active administrators the count statement saw,
               todo: set<string>,        // those it has yet to lock,
               found: set<string>,       // those it locked and still found active,
               at: nat)                  // history: the length of the log when it started
    | Guarded(snapshot: set<string>)     // the last-administrator guard let it pass
    | Stripped(snapshot: set<string>, remove: set<Group>)
      // enable
    | Probe                              // about to count the name
    | Peek                               // about to read the row, without a lock
    | LockForUpdate                      // about to lock the row its UPDATE writes
      // create
    | CheckName
    | FindGroup
    | InsertUser                         // about to insert under the unique user name
    | Inserted
      // all commands
    | Ready(snapshot: set<string>, write: Write)   // about to commit
    | Failing(reason: Reason)                      // raised; about to roll back
    | Done(result: Result)

  datatype Result = Finished(verdict: Verdict) | Aborted

  /** `before` is history: the clients that had finished when this one started. */
  datatype Client = Client(cmd: Command, phase: Phase, before: set<nat>)

  /** One linearized command. */
  datatype Event = Event(client: nat, cmd: Command, verdict: Verdict)

  datatype State = State(
    provisioned: set<Group>,
    db: Directory,               // committed
    group: Option<nat>,          // who holds the administrator group row
    rows: map<string, nat>,      // who holds which user row
    names: map<string, nat>,     // who has an uncommitted insert of which user name
    clients: seq<Client>,
    log: seq<Event>)             // history: commands in their serial order

  datatype Action = Step | LockRow(row: string) | Abort

  ghost function Initial(provisioned: set<Group>, db: Directory, cmds: seq<Command>): State {
    State(provisioned, db, None, map[], map[],
          seq(|cmds|, i requires 0 <= i < |cmds| => Client(cmds[i], Idle, {})), [])
  }

  predicate Locks(cmd: Command) { cmd.SetRole? || cmd.Disable? }

  /** Whether client `c` can do `a` now, or would have to wait. */
  ghost predicate Enabled(s: State, c: nat, a: Action) {
    c < |s.clients| &&
    var cl := s.clients[c];
    var u := cl.cmd.username;
    match a
    case Abort => !cl.phase.Idle? && !cl.phase.Failing? && !cl.phase.Done?
    case LockRow(v) => cl.phase.Scanning? && v in cl.phase.todo && (v in s.rows ==> s.rows[v] == c)
    case Step =>
      (match cl.phase
       case LockGroup => Admins !in s.provisioned || s.group == None
       case LockUser => u !in s.rows
       case LockForUpdate => u !in s.rows
       case InsertUser => u !in s.names
       case Scanning(_, todo, _, _) => todo == {}
       case Done(_) => false
       case _ => true)
  }

  ghost function Move(s: State, c: nat, phase: Phase): (s': State)
    requires c < |s.clients|
    ensures |s'.clients| == |s.clients|
  {
    s.(clients := s.clients[c := s.clients[c].(phase := phase)])
  }

  ghost function InsertAt(log: seq<Event>, at: nat, e: Event): seq<Event> {
    if at <= |log| then log[..at] + [e] + log[at..] else log + [e]
  }

  /** Records the verdict of client `c` at position `at` of the serial order. */
  ghost function Record(s: State, c: nat, at: nat, verdict: Verdict): (s': State)
    requires c < |s.clients|
    ensures |s'.clients| == |s.clients|
  {
    s.(log := InsertAt(s.log, at, Event(c, s.clients[c].cmd, verdict)))
  }

  ghost function Refuse(s: State, c: nat, at: nat, reason: Reason): (s': State)
    requires c < |s.clients|
    ensures |s'.clients| == |s.clients|
  {
    Move(Record(s, c, at, Refused(reason)), c, Failing(reason))
  }

  /** Commit and rollback both release everything the client holds. */
  ghost function Release(s: State, c: nat): (s': State)
    ensures |s'.clients| == |s.clients|
  {
    s.(group := if s.group == Some(c) then None else s.group,
       rows := map v | v in s.rows && s.rows[v] != c :: s.rows[v],
       names := map v | v in s.names && s.names[v] != c :: s.names[v])
  }

  ghost function End(s: State, c: nat, result: Result): (s': State)
    requires c < |s.clients|
    ensures |s'.clients| == |s.clients|
  {
    Release(Move(s, c, Done(result)), c)
  }

  ghost function ApplyWrite(db: Directory, u: string, w: Write): Directory {
    match w
    case Nothing => db
    case SetActive(b) => if u in db then db[u := db[u].(active := b)] else db
    case Regroup(remove, add) => if u in db then db[u := db[u].(groups := db[u].groups - remove + {add})] else db
    case Insert(user) => db[u := user]
  }

  ghost function Commit(s: State, c: nat): (s': State)
    requires c < |s.clients| && s.clients[c].phase.Ready?
    ensures |s'.clients| == |s.clients|
  {
    var cl := s.clients[c];
    var s1 := Record(s, c, |s.log|, Accepted);
    End(s1.(db := ApplyWrite(s.db, cl.cmd.username, cl.phase.write)), c, Finished(Accepted))
  }

  ghost function StartPhase(cmd: Command): Phase {
    match cmd
    case SetRole(_, _) => LockGroup
    case Disable(_) => LockGroup
    case Enable(_) => Probe
    case Create(_, _) => CheckName
  }

  ghost function Finishers(s: State): set<nat> {
    set d | 0 <= d < |s.clients| && s.clients[d].phase.Done?
  }

  /** The guard statement: it sees the committed active administrators and locks
      them one at a time. The user's own row is locked already. */
  ghost function StartScan(s: State, c: nat): (s': State)
    requires c < |s.clients|
    ensures |s'.clients| == |s.clients|
  {
    var admins := ActiveAdmins(s.db);
    Move(s, c, Scanning(admins, admins, {}, |s.log|))
  }

  /** Taking the group lock, counting the user name and taking its row lock. */
  ghost function StepAcquire(s: State, c: nat): (s': State)
    requires c < |s.clients|
    ensures |s'.clients| == |s.clients|
  {
    var u := s.clients[c].cmd.username;
    match s.clients[c].phase
    case LockGroup =>
      if Admins !in s.provisioned then Refuse(s, c, |s.log|, MissingGroup)
      else Move(s.(group := Some(c)), c, CountUser)
    case CountUser =>
      if u !in s.db then Refuse(s, c, |s.log|, NoSuchUser) else Move(s, c, LockUser)
    case LockUser =>
      if u in s.db then Move(s.(rows := s.rows[u := c]), c, Loaded(s.db[u].active)) else s
    case _ => s
  }

  /** What disable and set-role check about the locked user. */
  ghost function StepVet(s: State, c: nat): (s': State)
    requires c < |s.clients|
    ensures |s'.clients| == |s.clients|
  {
    var cmd := s.clients[c].cmd;
    var u := cmd.username;
    if u !in s.db then s
    else if cmd.Disable? then
      match s.clients[c].phase
      case Loaded(active) =>
        if !active then Move(s, c, Ready({}, Nothing))
        else if Admins in s.db[u].groups then StartScan(s, c)
        else Move(s, c, Guarded({}))
      case _ => s
    else if cmd.SetRole? then
      match s.clients[c].phase
      case Loaded(active) =>
        if Services in s.db[u].groups then Refuse(s, c, |s.log|, ServiceIdentity)
        else Move(s, c, Vetted(active))
      case Vetted(active) =>
        if cmd.target !in s.provisioned then Refuse(s, c, |s.log|, MissingGroup)
        else Move(s, c, Targeted(active))
      case Targeted(active) =>
        if active && Admins in s.db[u].groups && cmd.target != Admins then StartScan(s, c)
        else Move(s, c, Guarded({}))
      case _ => s
    else s
  }

  /** The decision once every row of the guard statement is locked, and the writes. */
  ghost function StepWrite(s: State, c: nat): (s': State)
    requires c < |s.clients|
    ensures |s'.clients| == |s.clients|
  {
    var cmd := s.clients[c].cmd;
    match s.clients[c].phase
    case Scanning(snapshot, _, found, at) =>
      if |found| <= 1 then Refuse(s, c, at, LastAdministrator)
      else Move(s, c, Guarded(snapshot))
    case Guarded(snapshot) =>
      if cmd.SetRole? then Move(s, c, Stripped(snapshot, HUMAN * s.provisioned - {cmd.target}))
      else Move(s, c, Ready(snapshot, SetActive(false)))
    case Stripped(snapshot, remove) =>
      if cmd.SetRole? then Move(s, c, Ready(snapshot, Regroup(remove, cmd.target))) else s
    case _ => s
  }

  ghost function StepLocking(s: State, c: nat): (s': State)
    requires c < |s.clients|
    ensures |s'.clients| == |s.clients|
  {
    match s.clients[c].phase
    case LockGroup => StepAcquire(s, c)
    case CountUser => StepAcquire(s, c)
    case LockUser => StepAcquire(s, c)
    case Loaded(_) => StepVet(s, c)
    case Vetted(_) => StepVet(s, c)
    case Targeted(_) => StepVet(s, c)
    case _ => StepWrite(s, c)
  }

  ghost function StepEnable(s: State, c: nat): (s': State)
    requires c < |s.clients|
    ensures |s'.clients| == |s.clients|
  {
    var u := s.clients[c].cmd.username;
    match s.clients[c].phase
    case Probe =>
      if u !in s.db then Refuse(s, c, |s.log|, NoSuchUser) else Move(s, c, Peek)
    case Peek =>
      if u !in s.db then s
      else if s.db[u].active then Move(Record(s, c, |s.log|, Accepted), c, Done(Finished(Accepted)))
      else Move(s, c, LockForUpdate)
    case LockForUpdate => Move(s.(rows := s.rows[u := c]), c, Ready({}, SetActive(true)))
    case _ => s
  }

  ghost function StepCreate(s: State, c: nat): (s': State)
    requires c < |s.clients| && s.clients[c].cmd.Create?
    ensures |s'.clients| == |s.clients|
  {
    var u := s.clients[c].cmd.username;
    var target := s.clients[c].cmd.target;
    match s.clients[c].phase
    case CheckName =>
      if u in s.db then Refuse(s, c, |s.log|, UserExists) else Move(s, c, FindGroup)
    case FindGroup =>
      if target !in s.provisioned then Refuse(s, c, |s.log|, MissingGroup) else Move(s, c, InsertUser)
    case InsertUser =>
      if u in s.db then Refuse(s, c, |s.log|, UserExists)
      else Move(s.(names := s.names[u := c]), c, Inserted)
    case Inserted => Move(s, c, Ready({}, Insert(User(true, {target}))))
    case _ => s
  }

  ghost function Begin(s: State, c: nat): (s': State)
    requires c < |s.clients|
    ensures |s'.clients| == |s.clients|
  {
    var cmd := s.clients[c].cmd;
    s.(clients := s.clients[c := Client(cmd, StartPhase(cmd), Finishers(s))])
  }

  /** The guard statement locks one more of its rows and looks at it again. */
  ghost function LockNext(s: State, c: nat, v: string): (s': State)
    requires c < |s.clients| && s.clients[c].phase.Scanning?
    ensures |s'.clients| == |s.clients|
  {
    var p := s.clients[c].phase;
    var found := if v in ActiveAdmins(s.db) then p.found + {v} else p.found;
    Move(s.(rows := s.rows[v := c]), c, p.(todo := p.todo - {v}, found := found))
  }

  /** The state after client `c` does `a`. */
  ghost function Fire(s: State, c: nat, a: Action): (s': State)
    requires Enabled(s, c, a)
    ensures |s'.clients| == |s.clients|
  {
    var cmd := s.clients[c].cmd;
    match a
    case Abort => End(s, c, Aborted)
    case LockRow(v) => LockNext(s, c, v)
    case Step =>
      match s.clients[c].phase
      case Idle => Begin(s, c)
      case Failing(reason) => End(s, c, Finished(Refused(reason)))
      case Ready(_, _) => Commit(s, c)
      case _ =>
        if cmd.Enable? then StepEnable(s, c)
        else if cmd.Create? then StepCreate(s, c)
        else StepLocking(s, c)
  }
}
