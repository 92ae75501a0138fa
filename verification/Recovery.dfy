/**
 The scoped recovery state machine. Every answer of the controller, the log and the
 file system is part of an `Observation`, so a tick is a function of the saved state and
 one observation. The class below is the state that the tick updates in place; each of its
 methods is proved equal to the function of the same stage.
 */
module Recovery {
  import opened Wrappers
  import opened Sequences
  import opened Names
  import opened PointerWalk
  import opened LogScan

  const CHECK_INTERVAL: nat := 60
  const SWITCH_COOLDOWN: nat := 300
  const QUARANTINE_SECONDS: nat := 1800
  const SWITCH_WINDOW: nat := 3600
  const MAX_AUTOMATIC_SWITCHES: nat := 2
  const MAX_EVENTS: nat := 32

  datatype Reason = SelectionChange | StreamSwitch | ProbeFailover | NoCandidate | ControllerOrState

  datatype Event = Event(at: nat, reason: Reason, from: Option<string>, to: Option<string>)

  datatype State = State(
    profile: string, group: string, activeNode: Option<string>,
    checkedAt: nat, switchedAt: nat, events: seq<Event>,
    failures: nat, failureSince: Option<nat>,
    feedbackCount: nat, feedbackSince: nat, feedbackFirst: nat, feedbackLast: nat,
    cursor: Option<int>, databaseIdentity: Option<(nat, nat)>,
    switchHistory: seq<nat>, quarantine: map<string, nat>)

  function Initial(profile: string, group: string): State {
    State(profile, group, None, 0, 0, [], 0, None, 0, 0, 0, 0, None, None, [], map[])
  }

  datatype Policy = Policy(group: string, watchesLog: bool)

  datatype Probe = Healthy | Challenge | TransportFailed | Unexpected | Unavailable | ClientInitialization

  /**
   Everything one tick learns from outside. `good` holds the positions in the eligible list
   whose two probes both succeed; `latest` is the snapshot taken before a selection;
   `confirmed` is the verdict of the two probes after it.
   */
  datatype Observation = Observation(
    lockBusy: bool, readable: bool, saved: Written, now: nat, force: bool,
    mode: Option<Option<string>>, proxies: Option<Proxies>, log: Option<LogView>, probe: Probe,
    good: set<nat>, latest: Option<Proxies>, selectOk: bool, confirmed: bool, recordOk: bool, restoreOk: bool)

  datatype Outcome = Cooldown | NotApplicable | Degraded | AlreadyHealthy | RecoveredByKnownGood

  datatype Error = ControllerUnavailable | SessionReload | PersistentState

  /** A selection request sent to the controller, and whether it was acknowledged. */
  datatype Call = Call(group: string, node: string, ok: bool)

  /**
   What happened, in order: the unbounded log against which the bounded state is judged.
   Nothing in the machine reads it.
   */
  datatype Mark =
    | Adopted(at: nat, adopted: Option<string>)
    | Signal(ts: nat)
    | Probed(at: nat, node: string, healthy: bool)
    | Attempted(at: nat, forced: bool, trial: bool, candidate: string)
    | Quarantined(at: nat, left: string)

  datatype Step = Step(state: State, outcome: Result<Outcome, Error>, calls: seq<Call>, marks: seq<Mark>)

  // ---- stages ----

  function Record(s: State, now: nat, reason: Reason, to: Option<string>): State {
    var grown := s.events + [Event(now, reason, s.activeNode, to)];
    s.(events := if |grown| > MAX_EVENTS then grown[1..] else grown)
  }

  function Observe(s: State, now: nat, node: Option<string>): State {
    if node == s.activeNode then s
    else
      Record(s, now, SelectionChange, node).(
        activeNode := node, failures := 0, failureSince := None,
        feedbackCount := 0, feedbackSince := now, feedbackFirst := 0, feedbackLast := 0,
        cursor := None)
  }

  function ReaderOf(s: State): Reader {
    Reader(s.cursor, s.databaseIdentity, Episode(s.feedbackFirst, s.feedbackLast, s.feedbackCount))
  }

  function WithReader(s: State, r: Reader): State {
    s.(cursor := r.cursor, databaseIdentity := r.identity, feedbackFirst := r.episode.first,
       feedbackLast := r.episode.last, feedbackCount := r.episode.count)
  }

  function Since(s: State, now: nat): nat {
    Max(SatSub(now, SIGNAL_WINDOW), s.switchedAt)
  }

  function AddFeedback(s: State, now: nat, count: nat): State {
    var expired := now < s.feedbackSince || now - s.feedbackSince > SIGNAL_WINDOW;
    var windowed := if expired then s.(feedbackSince := now, feedbackCount := 0) else s;
    windowed.(feedbackCount := SatAdd(windowed.feedbackCount, count))
  }

  function Listen(s: State, policy: Policy, log: Option<LogView>, now: nat): State {
    if !policy.watchesLog || log.None? then s
    else
      var scan := ScanLog(ReaderOf(s), log.value, Since(s, now));
      var read := WithReader(s, scan.reader);
      if scan.count.Some? then AddFeedback(read, now, scan.count.value) else read
  }

  function Signals(rows: seq<Row>): seq<Mark> {
    if rows == [] then []
    else
      var last := rows[|rows| - 1];
      Signals(rows[..|rows| - 1]) + (if last.signal then [Signal(last.ts)] else [])
  }

  function Heard(s: State, policy: Policy, log: Option<LogView>, now: nat): seq<Mark> {
    if !policy.watchesLog || log.None? then []
    else Signals(ScanLog(ReaderOf(s), log.value, Since(s, now)).consumed)
  }

  function Judge(s: State, now: nat, healthy: bool): State {
    if healthy then s.(failures := 0, failureSince := None)
    else
      s.(failures := SatAdd(s.failures, 1),
         failureSince := if s.failureSince.None? then Some(now) else s.failureSince)
  }

  predicate StreamFailurePersisted(s: State, now: nat) {
    && s.feedbackFirst != 0
    && SatSub(s.feedbackLast, s.feedbackFirst) >= FAILURE_DURATION
    && now >= s.feedbackLast
    && now - s.feedbackLast <= FAILURE_DURATION
  }

  function SwitchTimes(events: seq<Event>): seq<nat> {
    if events == [] then []
    else
      var last := events[|events| - 1];
      SwitchTimes(events[..|events| - 1])
      + (if last.reason.StreamSwitch? || last.reason.ProbeFailover? then [last.at] else [])
  }

  function Recent(now: nat): nat -> bool {
    (at: nat) => at <= now && now - at < SWITCH_WINDOW
  }

  /** Migration from the events when the history is empty, then pruning to the window. */
  function PruneHistory(s: State, now: nat): State {
    var history := if s.switchHistory == [] then SwitchTimes(s.events) else s.switchHistory;
    s.(switchHistory := Filter(history, Recent(now)))
  }

  predicate EvidenceTooWeak(s: State, now: nat) {
    s.failures < 2 || s.failureSince.None? || SatSub(now, s.failureSince.value) < FAILURE_DURATION
  }

  predicate Cooling(s: State, now: nat) {
    s.switchedAt != 0 && now >= s.switchedAt && now - s.switchedAt < SWITCH_COOLDOWN
  }

  /** The three automatic gates; a forced tick passes all of them untouched. */
  function Gate(s: State, now: nat, force: bool, trial: bool): (State, Option<Outcome>) {
    if force then (s, None)
    else if !trial && EvidenceTooWeak(s, now) then (s, Some(Degraded))
    else if Cooling(s, now) then (s, Some(Cooldown))
    else
      var pruned := PruneHistory(s, now);
      (pruned, if |pruned.switchHistory| < MAX_AUTOMATIC_SWITCHES then None else Some(Degraded))
  }

  function KeepQuarantine(q: map<string, nat>, now: nat): map<string, nat> {
    map n | n in q && now < q[n] <= now + QUARANTINE_SECONDS :: q[n]
  }

  function Eligible(node: string, quarantine: map<string, nat>): string -> bool {
    n => n != node && n !in quarantine
  }

  function FirstGood(eligible: seq<string>, good: set<nat>, from: nat): Option<string>
    decreases |eligible| - from
  {
    if from >= |eligible| then None
    else if from in good then Some(eligible[from])
    else FirstGood(eligible, good, from + 1)
  }

  function NowOf(p: Proxies, name: string): Option<string> {
    if name in p then p[name].now else None
  }

  function AllOf(p: Proxies, name: string): seq<string> {
    if name in p then p[name].all else []
  }

  /** The user's choices as seen just before the selection still allow it. */
  predicate StillApplies(latest: Proxies, group: string, node: string, candidate: string) {
    && SelectedLeaf(latest, group) == Some(node)
    && NowOf(latest, "GLOBAL") == Some(group)
    && candidate in AllOf(latest, AutoName(group))
  }

  function Restore(group: string, previous: Option<string>, ok: bool): seq<Call> {
    if previous.Some? then [Call(group, previous.value, ok)] else []
  }

  function Adopting(s: State, now: nat, candidate: string, trial: bool): State {
    Record(s, now, if trial then StreamSwitch else ProbeFailover, Some(candidate)).(
      activeNode := Some(candidate), switchedAt := now, failures := 0, failureSince := None,
      feedbackCount := 0, feedbackSince := now, feedbackFirst := 0, feedbackLast := 0)
  }

  /** The selection request and what follows from its confirmation. */
  function Settle(tried: State, group: string, obs: Observation, previous: Option<string>,
                  node: string, candidate: string, trial: bool): Step
  {
    var until := obs.now + QUARANTINE_SECONDS;
    var selected := [Call(group, candidate, obs.selectOk)];
    var undone := selected + Restore(group, previous, obs.restoreOk);
    if !obs.selectOk then Step(tried, Err(SessionReload), selected, [])
    else if !obs.confirmed then
      Step(tried.(quarantine := tried.quarantine[candidate := until]), Ok(Degraded), undone,
           [Quarantined(obs.now, candidate)])
    else if !obs.recordOk then Step(tried, Err(PersistentState), undone, [])
    else
      var left := tried.(quarantine := tried.quarantine[node := until]);
      Step(Adopting(left, obs.now, candidate, trial), Ok(RecoveredByKnownGood), selected,
           [Quarantined(obs.now, node), Adopted(obs.now, Some(candidate))])
  }

  function Attempt(s: State, policy: Policy, obs: Observation, nodes: seq<string>, node: string, trial: bool): Step {
    var now := obs.now;
    var kept := s.(quarantine := KeepQuarantine(s.quarantine, now));
    var first := FirstGood(Filter(nodes, Eligible(node, kept.quarantine)), obs.good, 0);
    if first.None? then Step(Record(kept, now, NoCandidate, None), Ok(Degraded), [], [])
    else if obs.latest.None? then Step(kept, Err(ControllerUnavailable), [], [])
    else if !StillApplies(obs.latest.value, policy.group, node, first.value) then Step(kept, Ok(NotApplicable), [], [])
    else
      var candidate := first.value;
      var tried := kept.(switchHistory := kept.switchHistory + [now], switchedAt := now);
      WithMarks([Attempted(now, obs.force, trial, candidate)],
                Settle(tried, policy.group, obs, NowOf(obs.latest.value, policy.group), node, candidate, trial))
  }

  function WithMarks(before: seq<Mark>, step: Step): Step {
    step.(marks := before + step.marks)
  }

  function Adoption(s: State, now: nat, node: Option<string>): seq<Mark> {
    if node == s.activeNode then [] else [Adopted(now, node)]
  }

  function Decide(s: State, policy: Policy, obs: Observation, nodes: seq<string>, node: string): Step {
    var healthy := obs.probe.Healthy?;
    var judged := Judge(s, obs.now, healthy);
    var probed := [Probed(obs.now, node, healthy)];
    var trial := healthy && StreamFailurePersisted(judged, obs.now);
    if healthy && !trial then Step(judged, Ok(AlreadyHealthy), [], probed)
    else
      var gated := Gate(judged, obs.now, obs.force, trial);
      if gated.1.Some? then Step(gated.0, Ok(gated.1.value), [], probed)
      else WithMarks(probed, Attempt(gated.0, policy, obs, nodes, node, trial))
  }

  predicate Usable(probe: Probe) {
    !probe.Unavailable? && !probe.ClientInitialization?
  }

  /** One look at the current node: selection, log, probe, decision. */
  function Examine(s: State, policy: Policy, obs: Observation, nodes: seq<string>, node: Option<string>): Step {
    var observed := Observe(s, obs.now, node);
    var listened := Listen(observed, policy, obs.log, obs.now);
    var marks := Adoption(s, obs.now, node) + Heard(observed, policy, obs.log, obs.now);
    if node.None? || !Usable(obs.probe) then Step(listened, Ok(Degraded), [], marks)
    else WithMarks(marks, Decide(listened, policy, obs, nodes, node.value))
  }

  function Recover(s: State, policy: Policy, obs: Observation): Step {
    if obs.mode.None? || obs.proxies.None? then Step(s, Err(ControllerUnavailable), [], [])
    else
      var p := obs.proxies.value;
      var nodes := AllOf(p, AutoName(policy.group));
      if obs.mode.value != Some("global") || NowOf(p, "GLOBAL") != Some(policy.group) then
        Step(s, Ok(NotApplicable), [], [])
      else if nodes == [] || policy.group !in p then Step(s, Ok(Degraded), [], [])
      else Examine(s, policy, obs, nodes, SelectedLeaf(p, policy.group))
  }

  function Opened(disk: State, profile: string, policy: Policy): State {
    if disk.profile != profile || disk.group != policy.group then Initial(profile, policy.group) else disk
  }

  predicate TooSoon(s: State, now: nat, force: bool) {
    !force && now >= s.checkedAt && now - s.checkedAt < CHECK_INTERVAL - 1
  }

  /** One tick, from saved state to saved state. */
  function Tick(disk: State, profile: string, policy: Policy, obs: Observation): Step {
    if obs.lockBusy then Step(disk, Ok(Cooldown), [], [])
    else if !obs.readable then Step(disk, Err(PersistentState), [], [])
    else
      var s := Opened(disk, profile, policy);
      if TooSoon(s, obs.now, obs.force) then Step(disk, Ok(Cooldown), [], [])
      else
        var r := Recover(s.(checkedAt := obs.now), policy, obs);
        var ended := if r.outcome.Err? then Record(r.state, obs.now, ControllerOrState, None) else r.state;
        var left := if obs.saved == Failed(false) then disk else ended;
        Step(left, if obs.saved.Complete? then r.outcome else Err(PersistentState), r.calls, r.marks)
  }

  // ---- the state updated in place ----

  class RecoveryState {
    var profile: string
    var group: string
    var activeNode: Option<string>
    var checkedAt: nat
    var switchedAt: nat
    var events: seq<Event>
    var failures: nat
    var failureSince: Option<nat>
    var feedbackCount: nat
    var feedbackSince: nat
    var feedbackFirst: nat
    var feedbackLast: nat
    var cursor: Option<int>
    var databaseIdentity: Option<(nat, nat)>
    var switchHistory: seq<nat>
    var quarantine: map<string, nat>

    function Value(): State
      reads this
    {
      State(profile, group, activeNode, checkedAt, switchedAt, events, failures, failureSince,
            feedbackCount, feedbackSince, feedbackFirst, feedbackLast, cursor, databaseIdentity,
            switchHistory, quarantine)
    }

    constructor (s: State)
      ensures Value() == s
    {
      profile, group, activeNode := s.profile, s.group, s.activeNode;
      checkedAt, switchedAt, events := s.checkedAt, s.switchedAt, s.events;
      failures, failureSince := s.failures, s.failureSince;
      feedbackCount, feedbackSince := s.feedbackCount, s.feedbackSince;
      feedbackFirst, feedbackLast := s.feedbackFirst, s.feedbackLast;
      cursor, databaseIdentity := s.cursor, s.databaseIdentity;
      switchHistory, quarantine := s.switchHistory, s.quarantine;
    }

    /** `event`: append, then drop the oldest entry beyond 32. */
    method AddEvent(now: nat, reason: Reason, to: Option<string>)
      modifies this`events
      ensures Value() == Record(old(Value()), now, reason, to)
    {
      events := events + [Event(now, reason, activeNode, to)];
      if |events| > MAX_EVENTS {
        events := events[1..];
      }
    }

    /** The row loop of `feedback`: stops at the first row that does not decode. */
    method AbsorbRows(rows: seq<Row>, readable: nat) returns (scanned: nat, local: nat)
      modifies this`cursor, this`feedbackFirst, this`feedbackLast, this`feedbackCount
      ensures scanned == |Take(rows, readable)|
      ensures cursor == if scanned == 0 then old(cursor) else Some(rows[scanned - 1].id)
      ensures Acc(Episode(feedbackFirst, feedbackLast, feedbackCount), local)
              == Absorb(Acc(old(Episode(feedbackFirst, feedbackLast, feedbackCount)), 0), Take(rows, readable))
    {
      ghost var start := Episode(feedbackFirst, feedbackLast, feedbackCount);
      local, scanned := 0, 0;
      while scanned < |rows| && scanned < readable
        invariant scanned <= |rows| && scanned <= readable
        invariant cursor == if scanned == 0 then old(cursor) else Some(rows[scanned - 1].id)
        invariant Acc(Episode(feedbackFirst, feedbackLast, feedbackCount), local)
                  == Absorb(Acc(start, 0), rows[..scanned])
      {
        var row := rows[scanned];
        assert rows[..scanned + 1][..scanned] == rows[..scanned];
        cursor := Some(row.id);
        scanned := scanned + 1;
        if row.signal {
          if StartsEpisode(Episode(feedbackFirst, feedbackLast, feedbackCount), row.ts) {
            feedbackFirst := row.ts;
            feedbackCount := 0;
            local := 0;
          }
          feedbackLast := row.ts;
          if row.initial {
            local := local + 1;
          }
        }
      }
      assert rows[..scanned] == Take(rows, readable);
    }

    /** `feedback`: one batch of log rows; no result means the log could not be read. */
    method Feedback(log: Option<LogView>, now: nat) returns (count: Option<nat>)
      modifies this
      ensures log.None? ==> Value() == old(Value()) && count == None
      ensures log.Some? ==>
        var scan := ScanLog(old(ReaderOf(Value())), log.value, old(Since(Value(), now)));
        Value() == WithReader(old(Value()), scan.reader) && count == scan.count
    {
      hide Matching, Absorb;
      if log.None? {
        return None;
      }
      var newest := MaxId(log.value.rows);
      var identity := Some(log.value.identity);
      if cursor.None? || databaseIdentity != identity || cursor.value > newest {
        cursor := Some(newest);
        databaseIdentity := identity;
        return Some(0);
      }
      var since := Max(SatSub(now, SIGNAL_WINDOW), switchedAt);
      var rows := Take(Matching(log.value.rows, cursor.value, newest, since), BATCH);
      var scanned, local := AbsorbRows(rows, log.value.readable);
      if scanned < |rows| {
        return None;
      }
      if scanned < BATCH {
        cursor := Some(newest);
      }
      count := Some(local);
    }

    /** `automatic_budget_available`: migrate, prune, compare. */
    method AutomaticBudgetAvailable(now: nat) returns (available: bool)
      modifies this`switchHistory
      ensures Value() == PruneHistory(old(Value()), now)
      ensures available <==> |switchHistory| < MAX_AUTOMATIC_SWITCHES
    {
      if switchHistory == [] {
        switchHistory := SwitchTimes(events);
      }
      switchHistory := Filter(switchHistory, Recent(now));
      available := |switchHistory| < MAX_AUTOMATIC_SWITCHES;
    }

    method ObserveSelection(now: nat, node: Option<string>)
      modifies this
      ensures Value() == Observe(old(Value()), now, node)
    {
      if node != activeNode {
        AddEvent(now, SelectionChange, node);
        activeNode := node;
        feedbackCount := 0;
        feedbackSince := now;
        failures := 0;
        failureSince := None;
        feedbackFirst := 0;
        feedbackLast := 0;
        cursor := None;
      }
    }

    method ListenToLog(policy: Policy, log: Option<LogView>, now: nat) returns (ghost heard: seq<Mark>)
      modifies this
      ensures Value() == Listen(old(Value()), policy, log, now)
      ensures heard == Heard(old(Value()), policy, log, now)
    {
      heard := [];
      if policy.watchesLog {
        heard := Heard(Value(), policy, log, now);
        var count := Feedback(log, now);
        if count.Some? {
          if now < feedbackSince || now - feedbackSince > SIGNAL_WINDOW {
            feedbackSince := now;
            feedbackCount := 0;
          }
          feedbackCount := SatAdd(feedbackCount, count.value);
        }
      }
    }

    /** The candidate loop: the first eligible node whose two probes both succeed. */
    method FirstHealthy(nodes: seq<string>, node: string, good: set<nat>) returns (candidate: Option<string>)
      ensures candidate == FirstGood(Filter(nodes, Eligible(node, quarantine)), good, 0)
    {
      var eligible := Filter(nodes, Eligible(node, quarantine));
      var i := 0;
      while i < |eligible| && i !in good
        invariant 0 <= i <= |eligible|
        invariant FirstGood(eligible, good, 0) == FirstGood(eligible, good, i)
      {
        i := i + 1;
      }
      candidate := if i < |eligible| then Some(eligible[i]) else None;
    }

    /** Bookkeeping after a selection that was confirmed and recorded. */
    method Adopt(now: nat, candidate: string, trial: bool)
      modifies this
      ensures Value() == Adopting(old(Value()), now, candidate, trial)
    {
      AddEvent(now, if trial then StreamSwitch else ProbeFailover, Some(candidate));
      activeNode := Some(candidate);
      switchedAt := now;
      failures := 0;
      feedbackCount := 0;
      feedbackSince := now;
      feedbackFirst := 0;
      feedbackLast := 0;
      failureSince := None;
    }

    /** Select, confirm, record; a failure after the selection asks for the previous choice back. */
    method SettleSelection(group: string, obs: Observation, previous: Option<string>,
                           node: string, candidate: string, trial: bool)
      returns (outcome: Result<Outcome, Error>, calls: seq<Call>, ghost marks: seq<Mark>)
      modifies this
      ensures Step(Value(), outcome, calls, marks)
              == Settle(old(Value()), group, obs, previous, node, candidate, trial)
    {
      marks := [];
      calls := [Call(group, candidate, obs.selectOk)];
      if !obs.selectOk {
        return Err(SessionReload), calls, marks;
      }
      if !obs.confirmed {
        calls := calls + Restore(group, previous, obs.restoreOk);
        quarantine := quarantine[candidate := obs.now + QUARANTINE_SECONDS];
        return Ok(Degraded), calls, [Quarantined(obs.now, candidate)];
      }
      if !obs.recordOk {
        calls := calls + Restore(group, previous, obs.restoreOk);
        return Err(PersistentState), calls, marks;
      }
      quarantine := quarantine[node := obs.now + QUARANTINE_SECONDS];
      Adopt(obs.now, candidate, trial);
      return Ok(RecoveredByKnownGood), calls, [Quarantined(obs.now, node), Adopted(obs.now, Some(candidate))];
    }

    /** The part of `recover` after the gates: probe the eligible nodes in order and try the first good one. */
    method AttemptSwitch(policy: Policy, obs: Observation, nodes: seq<string>, node: string, trial: bool)
      returns (outcome: Result<Outcome, Error>, calls: seq<Call>, ghost marks: seq<Mark>)
      modifies this
      ensures Step(Value(), outcome, calls, marks) == Attempt(old(Value()), policy, obs, nodes, node, trial)
    {
      calls, marks := [], [];
      var now := obs.now;
      quarantine := KeepQuarantine(quarantine, now);
      var first := FirstHealthy(nodes, node, obs.good);
      if first.None? {
        AddEvent(now, NoCandidate, None);
        return Ok(Degraded), calls, marks;
      }
      if obs.latest.None? {
        return Err(ControllerUnavailable), calls, marks;
      }
      if !StillApplies(obs.latest.value, policy.group, node, first.value) {
        return Ok(NotApplicable), calls, marks;
      }
      var candidate := first.value;
      var previous := NowOf(obs.latest.value, policy.group);
      switchHistory := switchHistory + [now];
      switchedAt := now;
      outcome, calls, marks := SettleSelection(policy.group, obs, previous, node, candidate, trial);
      marks := [Attempted(now, obs.force, trial, candidate)] + marks;
    }

    /** `recover`: observe, listen, judge, gate, attempt. */
    method RecoverInPlace(policy: Policy, obs: Observation)
      returns (outcome: Result<Outcome, Error>, calls: seq<Call>, ghost marks: seq<Mark>)
      modifies this
      ensures Step(Value(), outcome, calls, marks) == Recover(old(Value()), policy, obs)
    {
      calls, marks := [], [];
      var now := obs.now;
      if obs.mode.None? || obs.proxies.None? {
        return Err(ControllerUnavailable), calls, marks;
      }
      var p := obs.proxies.value;
      var nodes := AllOf(p, AutoName(policy.group));
      if obs.mode.value != Some("global") || NowOf(p, "GLOBAL") != Some(policy.group) {
        return Ok(NotApplicable), calls, marks;
      }
      if nodes == [] || policy.group !in p {
        return Ok(Degraded), calls, marks;
      }
      var node := FindSelectedLeaf(p, policy.group);
      marks := Adoption(Value(), now, node);
      ObserveSelection(now, node);
      ghost var heard := ListenToLog(policy, obs.log, now);
      marks := marks + heard;
      if node.None? || !Usable(obs.probe) {
        return Ok(Degraded), calls, marks;
      }
      ghost var before := marks;
      var healthy := obs.probe.Healthy?;
      if healthy {
        failures := 0;
        failureSince := None;
      } else {
        failures := SatAdd(failures, 1);
        if failureSince.None? {
          failureSince := Some(now);
        }
      }
      ghost var probed := [Probed(now, node.value, healthy)];
      marks := before + probed;
      var trial := healthy && StreamFailurePersisted(Value(), now);
      if healthy && !trial {
        return Ok(AlreadyHealthy), calls, marks;
      }
      if !obs.force && !trial && EvidenceTooWeak(Value(), now) {
        return Ok(Degraded), calls, marks;
      }
      if !obs.force && Cooling(Value(), now) {
        return Ok(Cooldown), calls, marks;
      }
      if !obs.force {
        var available := AutomaticBudgetAvailable(now);
        if !available {
          return Ok(Degraded), calls, marks;
        }
      }
      ghost var tail;
      outcome, calls, tail := AttemptSwitch(policy, obs, nodes, node.value, trial);
      marks := before + (probed + tail);
    }
  }

  /** `tick`: the lock, the interval, one recovery, the save. */
  method RunTick(disk: State, profile: string, policy: Policy, obs: Observation)
    returns (saved: State, outcome: Result<Outcome, Error>, calls: seq<Call>, ghost marks: seq<Mark>)
    ensures var step := Tick(disk, profile, policy, obs);
            saved == step.state && outcome == step.outcome && calls == step.calls
    ensures marks == Tick(disk, profile, policy, obs).marks
  {
    if obs.lockBusy {
      return disk, Ok(Cooldown), [], [];
    }
    if !obs.readable {
      return disk, Err(PersistentState), [], [];
    }
    var state := new RecoveryState(disk);
    if state.profile != profile || state.group != policy.group {
      state := new RecoveryState(Initial(profile, policy.group));
    }
    if !obs.force && obs.now >= state.checkedAt && obs.now - state.checkedAt < CHECK_INTERVAL - 1 {
      return disk, Ok(Cooldown), [], [];
    }
    state.checkedAt := obs.now;
    outcome, calls, marks := state.RecoverInPlace(policy, obs);
    if outcome.Err? {
      state.AddEvent(obs.now, ControllerOrState, None);
    }
    saved := if obs.saved == Failed(false) then disk else state.Value();
    if !obs.saved.Complete? {
      outcome := Err(PersistentState);
    }
  }
}
