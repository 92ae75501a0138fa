/**
 The supervision loop: it waits for the child to exit or for its local controller to stop
 answering, and restarts it with a bounded backoff. A script says what happens at each wait.
 */
module Supervisor {
  import opened Wrappers

  const HEALTHY_UPTIME: nat := 60
  const MAX_CONSECUTIVE_RESTARTS: nat := 6
  const BACKOFF_SECONDS: seq<nat> := [1, 2, 4, 8, 16, 30]
  const CONTROLLER_FAILURE_LIMIT: nat := 2

  datatype Cause =
    | SessionLock | SessionRead | SessionNotRunning | InvalidSession | ProcessStatus
    | PersistentState | SessionReload | SessionWrite | ControllerUnavailable

  datatype Error = Failed(cause: Cause) | SupervisorRestartLimit(code: Option<int>)

  /** One controller tick, up to the first step that decides it. */
  datatype Check = LockHeld | LockBroken | RecordUnreadable | RecordGone | RecordForeign | Answers | Silence(stops: bool)

  datatype Event = Signal | Exit(code: Option<int>) | WaitFails | ControllerTick(check: Check)

  /** A child that is ready still has its selections restored and its record updated; either may fail. */
  datatype Attempt = Interrupted | NotReady | Ready(restoreFailure: Option<Cause>, updateFailure: Option<Cause>)

  /** What happens next: `event` if the loop is watching the child, `attempt` if it is restarting it. */
  datatype Moment = Moment(at: nat, event: Event, attempt: Attempt)

  datatype Entry = Answered | Busy | Silent | Stopped | Down(at: nat) | Delayed(seconds: nat) | Unready | Restarted(at: nat)

  datatype Phase = Watching | Restarting(code: Option<int>) | Ended(result: Result<bool, Error>)

  datatype State = State(phase: Phase, startedAt: nat, consecutive: nat, failures: nat, log: seq<Entry>)

  function Initial(start: nat): State { State(Watching, start, 0, 0, []) }

  function End(s: State, result: Result<bool, Error>): State { s.(phase := Ended(result)) }

  /** The head of the restart loop. */
  function Retry(s: State, code: Option<int>): State {
    if s.consecutive >= MAX_CONSECUTIVE_RESTARTS then End(s, Err(SupervisorRestartLimit(code)))
    else s.(phase := Restarting(code))
  }

  /** The child is down; a long enough uptime forgives the earlier restarts. */
  function GoneDown(s: State, at: nat, code: Option<int>): State {
    var consecutive := if SatSub(at, s.startedAt) >= HEALTHY_UPTIME then 0 else s.consecutive;
    Retry(s.(consecutive := consecutive, log := s.log + [Down(at)]), code)
  }

  function Checked(s: State, at: nat, check: Check): State {
    match check
    case LockHeld => s.(failures := 0, log := s.log + [Busy])
    case LockBroken => End(s, Err(Error.Failed(SessionLock)))
    case RecordUnreadable => End(s, Err(Error.Failed(SessionRead)))
    case RecordGone => End(s, Err(Error.Failed(SessionNotRunning)))
    case RecordForeign => End(s, Err(Error.Failed(InvalidSession)))
    case Answers => s.(failures := 0, log := s.log + [Answered])
    case Silence(stops) =>
      var silent := s.(failures := s.failures + 1, log := s.log + [Silent]);
      if silent.failures < CONTROLLER_FAILURE_LIMIT then silent
      else if !stops then End(silent, Err(Error.Failed(ProcessStatus)))
      else GoneDown(silent.(log := silent.log + [Stopped]), at, None)
  }

  function Watched(s: State, m: Moment): State {
    match m.event
    case Signal => End(s, Ok(true))
    case Exit(code) => GoneDown(s, m.at, code)
    case WaitFails => End(s, Err(Error.Failed(ProcessStatus)))
    case ControllerTick(check) => Checked(s, m.at, check)
  }

  /** The delay before a restart. */
  function Slept(s: State): State
    requires s.consecutive < MAX_CONSECUTIVE_RESTARTS
  {
    s.(consecutive := s.consecutive + 1, log := s.log + [Delayed(BACKOFF_SECONDS[s.consecutive])])
  }

  function Tried(s: State, code: Option<int>, m: Moment): State
    requires s.consecutive < MAX_CONSECUTIVE_RESTARTS
  {
    var slept := Slept(s);
    match m.attempt
    case Interrupted => End(slept, Ok(true))
    case NotReady => Retry(slept.(log := slept.log + [Unready]), code)
    case Ready(restoreFailure, updateFailure) =>
      if restoreFailure.Some? then End(slept, Err(Error.Failed(restoreFailure.value)))
      else if updateFailure.Some? then End(slept, Err(Error.Failed(updateFailure.value)))
      else slept.(phase := Watching, startedAt := m.at, failures := 0, log := slept.log + [Restarted(m.at)])
  }

  function Step(s: State, m: Moment): State {
    match s.phase
    case Watching => Watched(s, m)
    case Restarting(code) => if s.consecutive < MAX_CONSECUTIVE_RESTARTS then Tried(s, code, m) else s
    case Ended(_) => s
  }

  function Run(start: nat, script: seq<Moment>): State {
    if script == [] then Initial(start) else Step(Run(start, script[..|script| - 1]), script[|script| - 1])
  }

  lemma RunNext(start: nat, script: seq<Moment>, i: nat)
    requires i < |script|
    ensures Run(start, script[..i + 1]) == Step(Run(start, script[..i]), script[i])
  {
    assert script[..i + 1][..i] == script[..i];
  }

  lemma {:induction false} RunEnded(start: nat, script: seq<Moment>, i: nat)
    requires i <= |script| && Run(start, script[..i]).phase.Ended?
    ensures Run(start, script) == Run(start, script[..i])
    decreases |script| - i
  {
    if i < |script| {
      RunNext(start, script, i);
      RunEnded(start, script, i + 1);
    } else {
      assert script[..i] == script;
    }
  }

  lemma TriedNext(start: nat, script: seq<Moment>, i: nat, s: State, code: Option<int>)
    requires i < |script| && Run(start, script[..i]) == Retry(s, code) && s.consecutive < MAX_CONSECUTIVE_RESTARTS
    ensures Run(start, script[..i + 1]) == Tried(s.(phase := Restarting(code)), code, script[i])
  {
    RunNext(start, script, i);
  }

  // ---- the loop and its counters ----

  class Supervision {
    var startedAt: nat
    var consecutive: nat
    var failures: nat
    var log: seq<Entry>

    /** The counters, in a loop that is in `phase`. */
    function Value(phase: Phase): State
      reads this
    {
      State(phase, startedAt, consecutive, failures, log)
    }

    constructor (start: nat)
      ensures Value(Watching) == Initial(start)
    {
      startedAt, consecutive, failures, log := start, 0, 0, [];
    }

    /** One controller tick. `hung`: the child was stopped and has to be restarted. */
    method CheckController(at: nat, check: Check) returns (hung: bool, failure: Option<Cause>)
      modifies this
      ensures Checked(old(Value(Watching)), at, check)
           == if failure.Some? then Value(Ended(Err(Error.Failed(failure.value))))
              else if hung then GoneDown(Value(Watching), at, None)
              else Value(Watching)
      ensures startedAt == old(startedAt) && consecutive == old(consecutive)
    {
      match check {
        case LockHeld =>
          failures, log := 0, log + [Busy];
          return false, None;
        case LockBroken => return false, Some(SessionLock);
        case RecordUnreadable => return false, Some(SessionRead);
        case RecordGone => return false, Some(SessionNotRunning);
        case RecordForeign => return false, Some(InvalidSession);
        case Answers =>
          failures, log := 0, log + [Answered];
          return false, None;
        case Silence(stops) =>
          failures, log := failures + 1, log + [Silent];
          if failures < CONTROLLER_FAILURE_LIMIT {
            return false, None;
          }
          if !stops {
            return false, Some(ProcessStatus);
          }
          log := log + [Stopped];
          return true, None;
      }
    }

    /** The run when the restart loop has come to `outcome`. */
    function After(outcome: Option<Result<bool, Error>>, code: Option<int>): State
      reads this
    {
      match outcome
      case None => Retry(Value(Watching), code)
      case Some(Ok(true)) => Value(Watching)
      case Some(Ok(false)) => Value(Ended(Ok(true)))
      case Some(Err(e)) => Value(Ended(Err(e)))
    }

    /** One delay and one attempt: nothing yet, back to watching (`Ok(true)`), an interruption (`Ok(false)`), or an error. */
    method TryRestart(m: Moment, ghost code: Option<int>) returns (outcome: Option<Result<bool, Error>>)
      requires consecutive < MAX_CONSECUTIVE_RESTARTS
      modifies this
      ensures Tried(old(Value(Restarting(code))), code, m)
           == After(outcome, code)
    {
      var delay := BACKOFF_SECONDS[consecutive];
      log := log + [Delayed(delay)];
      consecutive := consecutive + 1;
      match m.attempt {
        case Interrupted => return Some(Ok(false));
        case NotReady =>
          log := log + [Unready];
          return None;
        case Ready(restoreFailure, updateFailure) =>
          if restoreFailure.Some? { return Some(Err(Error.Failed(restoreFailure.value))); }
          if updateFailure.Some? { return Some(Err(Error.Failed(updateFailure.value))); }
          startedAt, failures, log := m.at, 0, log + [Restarted(m.at)];
          return Some(Ok(true));
      }
    }

    /** The restart loop; `None` when the script ends while it still tries. */
    method RestartChild(start: nat, script: seq<Moment>, i: nat, code: Option<int>)
      returns (next: nat, outcome: Option<Result<bool, Error>>)
      requires i <= |script| && Run(start, script[..i]) == Retry(Value(Watching), code)
      modifies this
      ensures i <= next <= |script|
      ensures match outcome
              case None => next == |script| && Run(start, script) == Value(Restarting(code))
              case Some(Ok(true)) => Run(start, script[..next]) == Value(Watching)
              case Some(Ok(false)) => Run(start, script) == Value(Ended(Ok(true)))
              case Some(Err(e)) => Run(start, script) == Value(Ended(Err(e)))
    {
      hide Run, Step, Tried;
      next, outcome := i, None;
      while outcome.None?
        invariant i <= next <= |script|
        invariant Run(start, script[..next]) == After(outcome, code)
        decreases |script| - next, outcome.None?
      {
        if consecutive >= MAX_CONSECUTIVE_RESTARTS {
          outcome := Some(Err(SupervisorRestartLimit(code)));
        } else if next == |script| {
          assert script[..next] == script;
          return;
        } else {
          TriedNext(start, script, next, Value(Watching), code);
          outcome := TryRestart(script[next], code);
          next := next + 1;
        }
      }
      if outcome.value.Err? || !outcome.value.value {
        RunEnded(start, script, next);
      }
    }

    /** The whole loop; `None` when the script ends while the loop still runs. */
    method SupervisionLoop(start: nat, script: seq<Moment>) returns (result: Option<Result<bool, Error>>)
      requires Value(Watching) == Initial(start)
      modifies this
      ensures match Run(start, script).phase
              case Ended(r) => result == Some(r) && Run(start, script) == Value(Ended(r))
              case phase => result == None && Run(start, script) == Value(phase)
    {
      var i := 0;
      while i < |script|
        invariant 0 <= i <= |script|
        invariant Run(start, script[..i]) == Value(Watching)
      {
        var m := script[i];
        var exitCode := None;
        RunNext(start, script, i);
        hide Run, Checked, GoneDown;
        i := i + 1;
        match m.event {
          case Signal =>
            RunEnded(start, script, i);
            return Some(Ok(true));
          case WaitFails =>
            RunEnded(start, script, i);
            return Some(Err(Error.Failed(ProcessStatus)));
          case Exit(code) => exitCode := code;
          case ControllerTick(check) =>
            var hung, failure := CheckController(m.at, check);
            if failure.Some? {
              RunEnded(start, script, i);
              return Some(Err(Error.Failed(failure.value)));
            }
            if !hung {
              continue;
            }
        }
        assert Run(start, script[..i]) == GoneDown(Value(Watching), m.at, exitCode);
        GoDown(m.at, exitCode);
        var outcome;
        i, outcome := RestartChild(start, script, i, exitCode);
        if outcome.None? {
          return None;
        }
        if outcome.value.Err? || !outcome.value.value {
          return Some(if outcome.value.Err? then outcome.value else Ok(true));
        }
      }
      assert script[..i] == script;
      return None;
    }

    method GoDown(at: nat, ghost code: Option<int>)
      modifies this`consecutive, this`log
      ensures GoneDown(old(Value(Watching)), at, code) == Retry(Value(Watching), code)
    {
      log := log + [Down(at)];
      if SatSub(at, startedAt) >= HEALTHY_UPTIME {
        consecutive := 0;
      }
    }
  }

  // ---- the log read on its own ----

  /** When the running child was started. */
  function StartedAt(start: nat, log: seq<Entry>): nat {
    if log == [] then start
    else if log[|log| - 1].Restarted? then log[|log| - 1].at
    else StartedAt(start, log[..|log| - 1])
  }

  /** The delays since the child last went down after a healthy uptime. */
  function DelaysSince(start: nat, log: seq<Entry>): seq<nat> {
    if log == [] then []
    else
      var init, last := log[..|log| - 1], log[|log| - 1];
      match last
      case Delayed(seconds) => DelaysSince(start, init) + [seconds]
      case Down(at) => if SatSub(at, StartedAt(start, init)) >= HEALTHY_UPTIME then [] else DelaysSince(start, init)
      case _ => DelaysSince(start, init)
  }

  /** The failed checks since the last success, busy lock or successful restart. */
  function SilentSince(log: seq<Entry>): nat {
    if log == [] then 0
    else
      var init, last := log[..|log| - 1], log[|log| - 1];
      match last
      case Silent => SilentSince(init) + 1
      case Answered => 0
      case Busy => 0
      case Restarted(_) => 0
      case _ => SilentSince(init)
  }

  ghost predicate Sane(start: nat, log: seq<Entry>) {
    && (forall k :: 0 <= k <= |log| ==> DelaysSince(start, log[..k]) <= BACKOFF_SECONDS)
    && (forall k :: 0 <= k < |log| && log[k].Stopped? ==> SilentSince(log[..k]) == CONTROLLER_FAILURE_LIMIT)
    && (forall k :: 0 <= k < |log| && (log[k].Unready? || log[k].Restarted?) ==> k > 0 && log[k - 1].Delayed?)
  }

  ghost predicate Inv(start: nat, s: State) {
    && Sane(start, s.log)
    && s.startedAt == StartedAt(start, s.log)
    && s.failures == SilentSince(s.log)
    && s.consecutive <= MAX_CONSECUTIVE_RESTARTS
    && DelaysSince(start, s.log) == BACKOFF_SECONDS[..s.consecutive]
    && (s.phase.Watching? ==> s.failures < CONTROLLER_FAILURE_LIMIT)
    && (s.phase.Restarting? ==> s.consecutive < MAX_CONSECUTIVE_RESTARTS)
    && (s.phase.Ended? && s.phase.result.Err? && s.phase.result.error.SupervisorRestartLimit? ==>
          s.consecutive == MAX_CONSECUTIVE_RESTARTS)
  }

  /** One more entry that leaves the log sane. */
  lemma SaneSnoc(start: nat, log: seq<Entry>, e: Entry)
    requires Sane(start, log)
    requires DelaysSince(start, log + [e]) <= BACKOFF_SECONDS
    requires e.Stopped? ==> SilentSince(log) == CONTROLLER_FAILURE_LIMIT
    requires e.Unready? || e.Restarted? ==> log != [] && log[|log| - 1].Delayed?
    ensures Sane(start, log + [e])
  {
    var longer := log + [e];
    hide DelaysSince, SilentSince;
    forall k | 0 <= k <= |longer| ensures DelaysSince(start, longer[..k]) <= BACKOFF_SECONDS {
      assert longer[..k] == if k <= |log| then log[..k] else longer;
    }
    forall k | 0 <= k < |longer| && longer[k].Stopped? ensures SilentSince(longer[..k]) == CONTROLLER_FAILURE_LIMIT {
      assert longer[..k] == if k < |log| then log[..k] else log;
    }
  }

  lemma Unfold(start: nat, log: seq<Entry>, e: Entry)
    ensures StartedAt(start, log + [e]) == if e.Restarted? then e.at else StartedAt(start, log)
    ensures DelaysSince(start, log + [e])
         == if e.Delayed? then DelaysSince(start, log) + [e.seconds]
            else if e.Down? && SatSub(e.at, StartedAt(start, log)) >= HEALTHY_UPTIME then []
            else DelaysSince(start, log)
    ensures SilentSince(log + [e])
         == if e.Silent? then SilentSince(log) + 1 else if e.Answered? || e.Busy? || e.Restarted? then 0 else SilentSince(log)
  {
    assert (log + [e])[..|log|] == log;
  }

  /** The log after one more entry, all at once. */
  lemma Note(start: nat, log: seq<Entry>, e: Entry)
    requires Sane(start, log)
    requires e.Delayed? ==> DelaysSince(start, log) + [e.seconds] <= BACKOFF_SECONDS
    requires e.Stopped? ==> SilentSince(log) == CONTROLLER_FAILURE_LIMIT
    requires e.Unready? || e.Restarted? ==> log != [] && log[|log| - 1].Delayed?
    ensures Sane(start, log + [e])
    ensures StartedAt(start, log + [e]) == if e.Restarted? then e.at else StartedAt(start, log)
    ensures DelaysSince(start, log + [e])
         == if e.Delayed? then DelaysSince(start, log) + [e.seconds]
            else if e.Down? && SatSub(e.at, StartedAt(start, log)) >= HEALTHY_UPTIME then []
            else DelaysSince(start, log)
    ensures SilentSince(log + [e])
         == if e.Silent? then SilentSince(log) + 1 else if e.Answered? || e.Busy? || e.Restarted? then 0 else SilentSince(log)
  {
    Unfold(start, log, e);
    assert log[..|log|] == log;
    SaneSnoc(start, log, e);
  }

  lemma GoneDownKeeps(start: nat, s: State, at: nat, code: Option<int>)
    requires Inv(start, s.(phase := Ended(Ok(true))))
    ensures Inv(start, GoneDown(s, at, code))
  {
    Note(start, s.log, Down(at));
    hide Sane, StartedAt, DelaysSince, SilentSince;
  }

  lemma SilenceKeeps(start: nat, s: State, at: nat, stops: bool)
    requires Inv(start, s) && s.phase.Watching?
    ensures Inv(start, Checked(s, at, Silence(stops)))
  {
    Note(start, s.log, Silent);
    var silent := s.(failures := s.failures + 1, log := s.log + [Silent]);
    hide Sane, StartedAt, DelaysSince, SilentSince, GoneDown;
    assert Inv(start, End(silent, Ok(true)));
    if silent.failures == CONTROLLER_FAILURE_LIMIT {
      Note(start, silent.log, Stopped);
      GoneDownKeeps(start, silent.(log := silent.log + [Stopped]), at, None);
    }
  }

  lemma CheckedKeeps(start: nat, s: State, at: nat, check: Check)
    requires Inv(start, s) && s.phase.Watching?
    ensures Inv(start, Checked(s, at, check))
  {
    match check {
      case LockHeld => Note(start, s.log, Busy);
      case Answers => Note(start, s.log, Answered);
      case Silence(stops) => SilenceKeeps(start, s, at, stops);
      case _ =>
    }
    hide Sane, StartedAt, DelaysSince, SilentSince, GoneDown;
  }

  lemma BackoffGrows(n: nat)
    requires n < MAX_CONSECUTIVE_RESTARTS
    ensures BACKOFF_SECONDS[..n] + [BACKOFF_SECONDS[n]] == BACKOFF_SECONDS[..n + 1] <= BACKOFF_SECONDS
  {
  }

  lemma SleptKeeps(start: nat, s: State, code: Option<int>)
    requires Inv(start, s) && s.phase == Restarting(code)
    ensures Inv(start, End(Slept(s), Ok(true)))
  {
    BackoffGrows(s.consecutive);
    Note(start, s.log, Delayed(BACKOFF_SECONDS[s.consecutive]));
    hide Sane, StartedAt, DelaysSince, SilentSince;
  }

  lemma TriedKeeps(start: nat, s: State, code: Option<int>, m: Moment)
    requires Inv(start, s) && s.phase == Restarting(code)
    ensures Inv(start, Tried(s, code, m))
  {
    SleptKeeps(start, s, code);
    var slept := Slept(s);
    assert slept.log[|slept.log| - 1].Delayed?;
    hide Slept;
    match m.attempt {
      case NotReady => Note(start, slept.log, Unready);
      case Ready(_, _) => Note(start, slept.log, Restarted(m.at));
      case _ =>
    }
    hide Sane, StartedAt, DelaysSince, SilentSince;
  }

  lemma StepKeeps(start: nat, s: State, m: Moment)
    requires Inv(start, s)
    ensures Inv(start, Step(s, m))
  {
    match s.phase {
      case Watching =>
        match m.event {
          case Exit(code) => GoneDownKeeps(start, s, m.at, code);
          case ControllerTick(check) => CheckedKeeps(start, s, m.at, check);
          case _ =>
        }
      case Restarting(code) => TriedKeeps(start, s, code, m);
      case Ended(_) =>
    }
    hide Sane, StartedAt, DelaysSince, SilentSince, GoneDown, Checked, Tried;
  }

  lemma {:induction false} RunKeeps(start: nat, script: seq<Moment>)
    ensures Inv(start, Run(start, script))
  {
    if script != [] {
      RunKeeps(start, script[..|script| - 1]);
      StepKeeps(start, Run(start, script[..|script| - 1]), script[|script| - 1]);
    }
  }

  // ---- what the supervisor promises ----

  predicate IsAttempt(e: Entry) { e.Unready? || e.Restarted? }

  /** The restart attempts since the child last went down after a healthy uptime. */
  function AttemptsSince(start: nat, log: seq<Entry>): nat {
    if log == [] then 0
    else
      var init, last := log[..|log| - 1], log[|log| - 1];
      if last.Down? && SatSub(last.at, StartedAt(start, init)) >= HEALTHY_UPTIME then 0
      else AttemptsSince(start, init) + (if IsAttempt(last) then 1 else 0)
  }

  lemma {:induction false} AttemptsWaited(start: nat, log: seq<Entry>)
    requires forall k :: 0 <= k < |log| && IsAttempt(log[k]) ==> k > 0 && log[k - 1].Delayed?
    ensures AttemptsSince(start, log) <= |DelaysSince(start, log)|
    ensures log != [] && log[|log| - 1].Delayed? ==> AttemptsSince(start, log) < |DelaysSince(start, log)|
  {
    if log != [] {
      AttemptsWaited(start, log[..|log| - 1]);
    }
  }

  /**
   At every moment of every run: the delays since the last healthy uptime are a prefix of the
   backoff, and no more than six restarts were attempted.
   */
  lemma RestartsBounded(start: nat, script: seq<Moment>, k: nat)
    requires k <= |Run(start, script).log|
    ensures var log := Run(start, script).log[..k];
      DelaysSince(start, log) <= BACKOFF_SECONDS && AttemptsSince(start, log) <= MAX_CONSECUTIVE_RESTARTS
  {
    RunKeeps(start, script);
    var log := Run(start, script).log[..k];
    AttemptsWaited(start, log);
    hide DelaysSince, AttemptsSince;
  }

  /** The supervisor gives up for want of restarts exactly with the whole backoff spent. */
  lemma GivesUpExactly(start: nat, script: seq<Moment>)
    ensures var s := Run(start, script);
      && (s.phase.Ended? && s.phase.result.Err? && s.phase.result.error.SupervisorRestartLimit? ==>
            DelaysSince(start, s.log) == BACKOFF_SECONDS)
      && (s.phase.Restarting? ==> |DelaysSince(start, s.log)| < MAX_CONSECUTIVE_RESTARTS)
  {
    RunKeeps(start, script);
    assert BACKOFF_SECONDS[..6] == BACKOFF_SECONDS;
    hide DelaysSince, Run, Sane;
  }

  lemma {:induction false} SilentWitness(log: seq<Entry>) returns (i: nat)
    requires SilentSince(log) > 0
    ensures i < |log| && log[i].Silent? && SilentSince(log[..i]) == SilentSince(log) - 1
    ensures forall n :: i < n < |log| ==> !log[n].Silent? && !log[n].Answered? && !log[n].Busy? && !log[n].Restarted?
  {
    var init, last := log[..|log| - 1], log[|log| - 1];
    if last.Silent? {
      i := |log| - 1;
    } else {
      i := SilentWitness(init);
      assert init[..i] == log[..i];
    }
  }

  /**
   The child is stopped as hung only after two failed controller checks with no success, busy
   lock or restart between them or since; and two such checks are never left standing.
   */
  lemma HangNeedsTwoFailures(start: nat, script: seq<Moment>, k: nat) returns (i: nat, j: nat)
    requires k < |Run(start, script).log| && Run(start, script).log[k].Stopped?
    ensures var log := Run(start, script).log;
      && i < j < k && log[i].Silent? && log[j].Silent?
      && forall n :: i < n < k && n != j ==> !log[n].Silent? && !log[n].Answered? && !log[n].Busy? && !log[n].Restarted?
  {
    RunKeeps(start, script);
    var log := Run(start, script).log;
    hide Run;
    j := SilentWitness(log[..k]);
    assert log[..k][..j] == log[..j];
    i := SilentWitness(log[..j]);
    assert forall n :: i < n < j ==> log[..j][n] == log[n];
    assert forall n :: j < n < k ==> log[..k][n] == log[n];
    assert log[..k][j] == log[j] && log[..j][i] == log[i];
  }

  lemma TwoFailuresActed(start: nat, script: seq<Moment>)
    requires Run(start, script).phase.Watching?
    ensures SilentSince(Run(start, script).log) < CONTROLLER_FAILURE_LIMIT
  {
    RunKeeps(start, script);
  }
}
