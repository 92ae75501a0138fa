/** What every moment does to a supervised run, told from the log of the run instead of its counters. */
module SupervisorSteps {
  import opened Wrappers
  import opened Supervisor

  /** The child goes down: it exits, or it is stopped at its second failed check; then it has no exit code. */
  ghost predicate GoesDown(log: seq<Entry>, m: Moment, code: Option<int>) {
    || m.event == Exit(code)
    || (m.event == ControllerTick(Silence(true)) && SilentSince(log) == 1 && code == None)
  }

  /** The restart delays that still count when the child goes down; a minute of uptime forgives them. */
  ghost function Spent(start: nat, log: seq<Entry>, at: nat): nat {
    if at >= StartedAt(start, log) + 60 then 0 else |DelaysSince(start, log)|
  }

  ghost predicate CheckEnds(log: seq<Entry>, check: Check, cause: Cause) {
    match check
    case LockBroken => cause == SessionLock
    case RecordUnreadable => cause == SessionRead
    case RecordGone => cause == SessionNotRunning
    case RecordForeign => cause == InvalidSession
    case Silence(stops) => !stops && SilentSince(log) == 1 && cause == ProcessStatus
    case _ => false
  }

  /** The moment ends a run that is in `phase`, with this result. */
  ghost predicate Ends(start: nat, phase: Phase, log: seq<Entry>, m: Moment, result: Result<bool, Error>) {
    match phase
    case Ended(r) => r == result
    case Watching =>
      || (m.event.Signal? && result == Ok(true))
      || (m.event.WaitFails? && result == Err(Error.Failed(ProcessStatus)))
      || (m.event.ControllerTick? && exists cause :: CheckEnds(log, m.event.check, cause) && result == Err(Error.Failed(cause)))
      || (Spent(start, log, m.at) == 6 && exists code :: GoesDown(log, m, code) && result == Err(SupervisorRestartLimit(code)))
    case Restarting(code) =>
      match m.attempt
      case Interrupted => result == Ok(true)
      case NotReady => |DelaysSince(start, log)| == 5 && result == Err(SupervisorRestartLimit(code))
      case Ready(restoreFailure, updateFailure) =>
        || (restoreFailure.Some? && result == Err(Error.Failed(restoreFailure.value)))
        || (restoreFailure.None? && updateFailure.Some? && result == Err(Error.Failed(updateFailure.value)))
  }

  /** The moment leaves a run restarting a child that went down with this code. */
  ghost predicate Restarts(start: nat, phase: Phase, log: seq<Entry>, m: Moment, code: Option<int>) {
    || (phase.Watching? && GoesDown(log, m, code) && Spent(start, log, m.at) < 6)
    || (phase == Restarting(code) && m.attempt.NotReady? && |DelaysSince(start, log)| < 5)
  }

  /** What the moment adds to the log. */
  ghost function Added(start: nat, phase: Phase, log: seq<Entry>, m: Moment): seq<Entry> {
    match phase
    case Ended(_) => []
    case Watching =>
      (match m.event
       case Exit(_) => [Down(m.at)]
       case ControllerTick(LockHeld) => [Busy]
       case ControllerTick(Answers) => [Answered]
       case ControllerTick(Silence(stops)) =>
         if SilentSince(log) == 1 && stops then [Silent, Stopped, Down(m.at)] else [Silent]
       case _ => [])
    case Restarting(_) =>
      var done := |DelaysSince(start, log)|;
      [Delayed(if done < 6 then [1, 2, 4, 8, 16, 30][done] else 0)]
      + (match m.attempt
         case Ready(None, None) => [Restarted(m.at)]
         case NotReady => [Unready]
         case _ => [])
  }

  /** The phase after a moment: whether the run ends, and how, and whether it restarts. */
  ghost predicate PhaseExactly(start: nat, before: State, m: Moment, phase: Phase) {
    && (forall r :: phase == Ended(r) <==> Ends(start, before.phase, before.log, m, r))
    && (forall code :: phase == Restarting(code) <==> Restarts(start, before.phase, before.log, m, code))
  }

  /** One more moment of a run: its phase, and what it logs. */
  ghost predicate Exactly(start: nat, before: State, m: Moment, after: State) {
    PhaseExactly(start, before, m, after.phase) && after.log == before.log + Added(start, before.phase, before.log, m)
  }

  /** What a run has spent is what its counters say. */
  lemma CountersExactly(start: nat, s: State)
    requires Inv(start, s)
    ensures s.consecutive == |DelaysSince(start, s.log)| && s.failures == SilentSince(s.log) && s.startedAt == StartedAt(start, s.log)
    ensures forall at: nat :: SatSub(at, s.startedAt) >= 60 <==> at >= StartedAt(start, s.log) + 60
  {
    hide Sane;
  }

  lemma DownExactly(start: nat, s: State, at: nat, code: Option<int>)
    requires Inv(start, s) && s.phase.Watching?
    ensures GoneDown(s, at, code).phase ==
              if Spent(start, s.log, at) == 6 then Ended(Err(SupervisorRestartLimit(code))) else Restarting(code)
    ensures GoneDown(s, at, code).log == s.log + [Down(at)] && Spent(start, s.log, at) <= 6
  {
    CountersExactly(start, s);
    hide Sane, DelaysSince, StartedAt, SilentSince;
  }

  lemma ExitExactly(start: nat, s: State, m: Moment)
    requires Inv(start, s) && s.phase.Watching? && m.event.Exit?
    ensures Exactly(start, s, m, Watched(s, m))
  {
    DownExactly(start, s, m.at, m.event.code);
    hide Inv, GoneDown, Spent;
  }

  lemma HungExactly(start: nat, s: State, m: Moment)
    requires Inv(start, s) && s.phase.Watching? && m.event == ControllerTick(Silence(true)) && s.failures == 1
    ensures Exactly(start, s, m, Watched(s, m))
  {
    CountersExactly(start, s);
    DownExactly(start, s, m.at, None);
    var stopped := s.(failures := 2, log := s.log + [Silent, Stopped]);
    assert (s.log + [Silent]) + [Stopped] == s.log + [Silent, Stopped];
    assert stopped.log + [Down(m.at)] == s.log + [Silent, Stopped, Down(m.at)];
    assert GoneDown(stopped, m.at, None).phase == GoneDown(s, m.at, None).phase;
    assert GoneDown(stopped, m.at, None).log == stopped.log + [Down(m.at)];
    hide Inv, Spent, GoneDown, SilentSince;
  }

  lemma QuietExactly(start: nat, s: State, m: Moment)
    requires s.phase.Watching? && s.failures == SilentSince(s.log) && s.failures < 2
    requires !m.event.Exit? && !(m.event == ControllerTick(Silence(true)) && s.failures == 1)
    ensures Exactly(start, s, m, Watched(s, m))
  {
    hide Inv, Spent, SilentSince, GoneDown;
  }

  lemma WatchedExactly(start: nat, s: State, m: Moment)
    requires Inv(start, s) && s.phase.Watching?
    ensures Exactly(start, s, m, Watched(s, m))
  {
    hide Exactly, Watched;
    CountersExactly(start, s);
    if m.event.Exit? {
      ExitExactly(start, s, m);
    } else if m.event == ControllerTick(Silence(true)) && s.failures == 1 {
      HungExactly(start, s, m);
    } else {
      assert s.failures < 2;
      QuietExactly(start, s, m);
    }
  }

  lemma TriedPhase(start: nat, s: State, m: Moment, code: Option<int>)
    requires s.phase == Restarting(code) && s.consecutive < 6 && s.consecutive == |DelaysSince(start, s.log)|
    ensures PhaseExactly(start, s, m, Tried(s, code, m).phase)
  {
    hide DelaysSince;
  }

  lemma TriedLog(start: nat, s: State, m: Moment, code: Option<int>)
    requires s.phase == Restarting(code) && s.consecutive < 6 && s.consecutive == |DelaysSince(start, s.log)|
    ensures Tried(s, code, m).log == s.log + Added(start, s.phase, s.log, m)
  {
    hide DelaysSince;
    var delayed := Delayed([1, 2, 4, 8, 16, 30][s.consecutive]);
    assert s.log + [delayed] + [] == s.log + [delayed];
    assert forall e: Entry :: s.log + [delayed] + [e] == s.log + ([delayed] + [e]);
  }

  lemma TriedExactly(start: nat, s: State, m: Moment, code: Option<int>)
    requires Inv(start, s) && s.phase == Restarting(code)
    ensures Exactly(start, s, m, Tried(s, code, m))
  {
    CountersExactly(start, s);
    assert s.consecutive < 6;
    hide Inv, Tried, PhaseExactly, Added;
    TriedPhase(start, s, m, code);
    TriedLog(start, s, m, code);
  }

  /**
   After every run, one more moment does exactly this: it ends the run with the stated result, or starts
   or goes on restarting, and adds these entries to the log, whatever the counters are.
   */
  lemma MomentExactly(start: nat, script: seq<Moment>, m: Moment)
    ensures Exactly(start, Run(start, script), m, Run(start, script + [m]))
  {
    RunKeeps(start, script);
    assert (script + [m])[..|script|] == script;
    var s := Run(start, script);
    match s.phase {
      case Watching => WatchedExactly(start, s, m);
      case Restarting(code) => TriedExactly(start, s, m, code);
      case Ended(_) =>
    }
    hide Inv, Watched, Tried, DelaysSince, StartedAt, SilentSince;
  }

  /** The run starts watching, with nothing logged. */
  lemma StartExactly(start: nat)
    ensures Run(start, []).phase.Watching? && Run(start, []).log == []
  {
  }

  /** In this phase, the loop will report this code if it gives up. */
  predicate Reports(phase: Phase, code: Option<int>) {
    phase == Restarting(code) || phase == Ended(Err(SupervisorRestartLimit(code)))
  }

  /**
   The code reported when the restarts are used up is that of the last time the child went down: from
   then on, every attempt up to the last found no ready child.
   */
  lemma {:induction false} ReportedCode(start: nat, script: seq<Moment>, code: Option<int>) returns (i: nat)
    requires Reports(Run(start, script).phase, code)
    ensures i < |script| && Run(start, script[..i]).phase.Watching? && GoesDown(Run(start, script[..i]).log, script[i], code)
    ensures forall k :: i < k < |script| ==> Reports(Run(start, script[..k]).phase, code)
    ensures forall k :: i < k < |script| && Run(start, script[..k]).phase.Restarting? ==> script[k].attempt.NotReady?
  {
    var init, last := script[..|script| - 1], script[|script| - 1];
    assert script == init + [last];
    MomentExactly(start, init, last);
    var before := Run(start, init);
    hide Run, DelaysSince, StartedAt, SilentSince;
    if before.phase.Watching? {
      i := |init|;
      assert script[..i] == init;
    } else {
      i := ReportedCode(start, init, code);
      forall k | 0 <= k <= |init| ensures script[..k] == if k < |init| then init[..k] else init {
      }
    }
  }
}
