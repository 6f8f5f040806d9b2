/** The serial order has one event for each command that finished, with the verdict
    that command returned, and respects the order in which commands ran. */
module AccountHistory {
  import opened Accounts
  import opened AccountProtocol
  import opened AccountInvariant

  /** The verdicts logged for client `c`. */
  ghost function Verdicts(log: seq<Event>, c: nat): seq<Verdict> {
    if log == [] then []
    else (if log[0].client == c then [log[0].verdict] else []) + Verdicts(log[1..], c)
  }

  lemma {:induction false} VerdictsConcat(a: seq<Event>, b: seq<Event>, c: nat)
    ensures Verdicts(a + b, c) == Verdicts(a, c) + Verdicts(b, c)
  {
    if a == [] {
      assert a + b == b;
    } else {
      VerdictsConcat(a[1..], b, c);
      assert (a + b)[1..] == a[1..] + b;
      var first := if a[0].client == c then [a[0].verdict] else [];
      assert first + (Verdicts(a[1..], c) + Verdicts(b, c)) == first + Verdicts(a[1..], c) + Verdicts(b, c);
    }
  }

  lemma VerdictsInsert(log: seq<Event>, at: nat, e: Event, c: nat)
    requires at <= |log|
    ensures e.client != c ==> Verdicts(InsertAt(log, at, e), c) == Verdicts(log, c)
    ensures e.client == c && Verdicts(log, c) == [] ==> Verdicts(InsertAt(log, at, e), c) == [e.verdict]
  {
    VerdictsConcat(log[..at], log[at..], c);
    assert log[..at] + log[at..] == log;
    VerdictsConcat(log[..at] + [e], log[at..], c);
    VerdictsConcat(log[..at], [e], c);
  }

  /** A client without a verdict has no event. */
  lemma {:induction false} NoVerdictNoEvent(log: seq<Event>, c: nat, i: nat)
    requires Verdicts(log, c) == [] && i < |log|
    ensures log[i].client != c
  {
    if i > 0 {
      NoVerdictNoEvent(log[1..], c, i - 1);
    }
  }

  /** The verdict a client has committed to: none while it can still go either way,
      and none ever if it aborted. */
  ghost function Decided(phase: Phase): seq<Verdict> {
    match phase
    case Failing(reason) => [Refused(reason)]
    case Done(Finished(verdict)) => [verdict]
    case _ => []
  }

  ghost predicate OutcomesLogged(s: State) {
    && (forall c: nat :: c < |s.clients| ==> Verdicts(s.log, c) == Decided(s.clients[c].phase))
    && (forall i :: 0 <= i < |s.log| ==>
          s.log[i].client < |s.clients| && s.log[i].cmd == s.clients[s.log[i].client].cmd)
  }

  ghost predicate Precedes(log: seq<Event>, d: nat, c: nat) {
    forall i, j :: 0 <= i < |log| && 0 <= j < |log| && log[i].client == d && log[j].client == c ==> i < j
  }

  ghost predicate OrderedAfter(s: State, d: nat, c: nat)
    requires c < |s.clients|
  {
    && d < |s.clients|
    && s.clients[d].phase.Done?
    && Precedes(s.log, d, c)
    && (s.clients[c].phase.Scanning? ==>
          forall i :: 0 <= s.clients[c].phase.at <= i < |s.log| ==> s.log[i].client != d)
  }

  /** Whatever had finished before a command started comes before it in the log. */
  ghost predicate RealTimeOrder(s: State) {
    forall c: nat, d: nat :: c < |s.clients| && d in s.clients[c].before ==> OrderedAfter(s, d, c)
  }

  /** A step either logs nothing and decides nothing, or decides its client's verdict and
      logs it: at the end, or for a guard's refusal where its count statement ran. */
  ghost predicate LogStep(s: State, s': State, c: nat)
    requires c < |s.clients| == |s'.clients|
  {
    var p := s.clients[c].phase;
    var p' := s'.clients[c].phase;
    || (s'.log == s.log && Decided(p') == Decided(p)
        && (p'.Scanning? ==> p'.at == if p.Scanning? then p.at else |s.log|))
    || (exists at: nat, verdict ::
          && at <= |s.log|
          && s'.log == InsertAt(s.log, at, Event(c, s.clients[c].cmd, verdict))
          && Decided(p) == [] && Decided(p') == [verdict] && !p'.Scanning?
          && (at < |s.log| ==> p.Scanning? && at == p.at))
  }

  lemma CommitLogs(s: State, c: nat)
    requires c < |s.clients| && s.clients[c].phase.Ready?
    ensures LogStep(s, Commit(s, c), c)
  {
    assert Commit(s, c).log == InsertAt(s.log, |s.log|, Event(c, s.clients[c].cmd, Accepted));
  }

  lemma RefuseLogs(s: State, c: nat, at: nat, reason: Reason)
    requires c < |s.clients| && Decided(s.clients[c].phase) == []
    requires at <= |s.log| && (at < |s.log| ==> s.clients[c].phase.Scanning? && at == s.clients[c].phase.at)
    ensures LogStep(s, Refuse(s, c, at, reason), c)
  {
    assert Refuse(s, c, at, reason).log == InsertAt(s.log, at, Event(c, s.clients[c].cmd, Refused(reason)));
  }

  lemma AcquireLogs(s: State, init: Directory, c: nat)
    requires ClientIn(s, init, c)
    ensures LogStep(s, StepAcquire(s, c), c)
  {
    RefuseLogs(s, c, |s.log|, MissingGroup);
    RefuseLogs(s, c, |s.log|, NoSuchUser);
  }

  lemma VetLogs(s: State, init: Directory, c: nat)
    requires ClientIn(s, init, c)
    ensures LogStep(s, StepVet(s, c), c)
  {
    RefuseLogs(s, c, |s.log|, ServiceIdentity);
    RefuseLogs(s, c, |s.log|, MissingGroup);
  }

  lemma WriteLogs(s: State, init: Directory, c: nat)
    requires ClientIn(s, init, c)
    ensures LogStep(s, StepWrite(s, c), c)
  {
    if s.clients[c].phase.Scanning? {
      RefuseLogs(s, c, s.clients[c].phase.at, LastAdministrator);
    }
  }

  lemma LockingLogs(s: State, init: Directory, c: nat)
    requires ClientIn(s, init, c)
    ensures LogStep(s, StepLocking(s, c), c)
  {
    hide LogStep;
    AcquireLogs(s, init, c);
    VetLogs(s, init, c);
    WriteLogs(s, init, c);
  }

  lemma EnableLogs(s: State, init: Directory, c: nat)
    requires ClientIn(s, init, c) && s.clients[c].cmd.Enable?
    ensures LogStep(s, StepEnable(s, c), c)
  {
    if s.clients[c].phase.Probe? {
      RefuseLogs(s, c, |s.log|, NoSuchUser);
    } else if s.clients[c].phase.Peek? {
      assert Record(s, c, |s.log|, Accepted).log == InsertAt(s.log, |s.log|, Event(c, s.clients[c].cmd, Accepted));
    }
  }

  lemma CreateLogs(s: State, init: Directory, c: nat)
    requires ClientIn(s, init, c) && s.clients[c].cmd.Create?
    ensures LogStep(s, StepCreate(s, c), c)
  {
    RefuseLogs(s, c, |s.log|, UserExists);
    RefuseLogs(s, c, |s.log|, MissingGroup);
  }

  /** A client in the middle of its command. */
  ghost predicate ClientIn(s: State, init: Directory, c: nat) {
    && c < |s.clients| && ClientOk(s, init, c)
    && var p := s.clients[c].phase; !p.Idle? && !p.Failing? && !p.Ready? && !p.Done?
  }

  lemma StepLogs(s: State, init: Directory, c: nat, a: Action)
    requires Inv(s, init) && Enabled(s, c, a)
    ensures LogStep(s, Fire(s, c, a), c)
  {
    hide GoodHistory, Permits, Replay, OwnLocks, OwnersExist;
    var p := s.clients[c].phase;
    assert c < |s.clients| && ClientOk(s, init, c);
    hide DataInv;
    if a.Step? && !p.Idle? && !p.Failing? {
      if p.Ready? {
        CommitLogs(s, c);
      } else if s.clients[c].cmd.Enable? {
        EnableLogs(s, init, c);
      } else if s.clients[c].cmd.Create? {
        CreateLogs(s, init, c);
      } else {
        LockingLogs(s, init, c);
      }
    }
  }

  lemma InsertKeepsOutcomes(s: State, s': State, c: nat, at: nat, e: Event)
    requires OutcomesLogged(s) && c < |s.clients| && OnlyOwnClient(s, s', c)
    requires at <= |s.log| && s'.log == InsertAt(s.log, at, e)
    requires e.client == c && e.cmd == s.clients[c].cmd
    requires Decided(s.clients[c].phase) == [] && Decided(s'.clients[c].phase) == [e.verdict]
    ensures OutcomesLogged(s')
  {
    hide Verdicts;
    forall d: nat | d < |s.clients| ensures Verdicts(s'.log, d) == Decided(s'.clients[d].phase) {
      VerdictsInsert(s.log, at, e, d);
    }
    assert s'.log == s.log[..at] + [e] + s.log[at..];
  }

  lemma StepKeepsOutcomes(s: State, s': State, c: nat)
    requires OutcomesLogged(s) && c < |s.clients| && OnlyOwnClient(s, s', c)
    requires LogStep(s, s', c)
    ensures OutcomesLogged(s')
  {
    if s'.log != s.log {
      var at: nat, verdict :|
        && at <= |s.log|
        && s'.log == InsertAt(s.log, at, Event(c, s.clients[c].cmd, verdict))
        && Decided(s'.clients[c].phase) == [verdict] && Decided(s.clients[c].phase) == [];
      InsertKeepsOutcomes(s, s', c, at, Event(c, s.clients[c].cmd, verdict));
    }
  }

  /** Inserting an event keeps the relative order of the others. */
  lemma InsertKeepsPrecedes(log: seq<Event>, at: nat, e: Event, d: nat, c: nat)
    requires at <= |log| && Precedes(log, d, c) && e.client != d
    requires e.client == c ==> forall i :: at <= i < |log| ==> log[i].client != d
    ensures Precedes(InsertAt(log, at, e), d, c)
  {
    var log' := InsertAt(log, at, e);
    forall i, j | 0 <= i < |log'| && 0 <= j < |log'| && log'[i].client == d && log'[j].client == c ensures i < j {
      assert i != at;
      var i0 := if i < at then i else i - 1;
      assert log[i0] == log'[i];
      if j != at {
        var j0 := if j < at then j else j - 1;
        assert log[j0] == log'[j];
      }
    }
  }

  lemma StepKeepsOrder(s: State, init: Directory, c: nat, a: Action)
    requires Inv(s, init) && OutcomesLogged(s) && RealTimeOrder(s) && Enabled(s, c, a)
    ensures RealTimeOrder(Fire(s, c, a))
  {
    var s' := Fire(s, c, a);
    StepIsLocal(s, c, a);
    StepLogs(s, init, c, a);
    forall e: nat, d: nat | e < |s'.clients| && d in s'.clients[e].before ensures OrderedAfter(s', d, e) {
      if a.Step? && s.clients[c].phase.Idle? && e == c {
        assert s'.log == s.log;
        forall j | 0 <= j < |s.log| ensures s.log[j].client != c { NoVerdictNoEvent(s.log, c, j); }
      } else {
        assert s'.clients[e].before == s.clients[e].before by {
          if !a.Step? { assert !s.clients[c].phase.Idle?; }
        }
        assert OrderedAfter(s, d, e);
        assert d != c;
        StepKeepsPair(s, s', init, c, d, e);
      }
    }
  }

  lemma StepKeepsPair(s: State, s': State, init: Directory, c: nat, d: nat, e: nat)
    requires Inv(s, init) && c < |s.clients| && e < |s.clients| && d != c
    requires OnlyOwnClient(s, s', c) && LogStep(s, s', c)
    requires OrderedAfter(s, d, e)
    ensures Precedes(s'.log, d, e)
    ensures e != c ==> OrderedAfter(s', d, e)
  {
    hide GoodHistory, Permits, Replay, OwnersExist;
    if s'.log != s.log {
      var at: nat, verdict :|
        && at <= |s.log|
        && s'.log == InsertAt(s.log, at, Event(c, s.clients[c].cmd, verdict))
        && (at < |s.log| ==> s.clients[c].phase.Scanning? && at == s.clients[c].phase.at);
      InsertKeepsPrecedes(s.log, at, Event(c, s.clients[c].cmd, verdict), d, e);
      if e != c && s.clients[e].phase.Scanning? {
        assert ClientOk(s, init, e) && ClientOk(s, init, c);
        assert at == |s.log|;
        assert s'.log == s.log + [Event(c, s.clients[c].cmd, verdict)];
      }
    }
  }
}
