/** What every tick of a run answers, and which events it records, from the unbounded log and its observation. */
module RecoveryVerdict {
  import opened Wrappers
  import opened Sequences
  import opened Names
  import opened PointerWalk
  import opened LogScan
  import opened Recovery
  import opened RecoveryRuns
  import opened RecoveryReading
  import opened RecoveryDecision

  // ---- the answer ----

  /** What keeps a tick from a switch before any candidate is considered. */
  ghost function Hindrance(log: seq<Mark>, obs: Observation): Option<Outcome> {
    var healthy := obs.probe.Healthy?;
    if healthy && !StreamEvidence(log, obs.now) then Some(AlreadyHealthy)
    else if obs.force then None
    else if !healthy && !ProbeEvidence(log, obs.now) then Some(Degraded)
    else if !Cooled(log, obs.now) then Some(Cooldown)
    else if !HasBudget(log, obs.now) then Some(Degraded)
    else None
  }

  ghost predicate HasChoice(log: seq<Mark>, obs: Observation, nodes: seq<string>, node: string) {
    exists c :: FirstChoice(Untried(log, nodes, node, obs.now), obs.good, c)
  }

  ghost predicate SomeOpen(log: seq<Mark>, policy: Policy, obs: Observation, nodes: seq<string>, node: string) {
    exists c :: Open(log, policy, obs, nodes, node, c)
  }

  /** The answer of a tick that nothing hinders. */
  ghost function AttemptVerdict(log: seq<Mark>, policy: Policy, obs: Observation, nodes: seq<string>, node: string)
    : Result<Outcome, Error> {
    if !HasChoice(log, obs, nodes, node) then Ok(Degraded)
    else if obs.latest.None? then Err(ControllerUnavailable)
    else if !SomeOpen(log, policy, obs, nodes, node) then Ok(NotApplicable)
    else if !obs.selectOk then Err(SessionReload)
    else if !obs.confirmed then Ok(Degraded)
    else if !obs.recordOk then Err(PersistentState)
    else Ok(RecoveredByKnownGood)
  }

  /** The answer of a tick that judges the node, in a log that ends with that judgement. */
  ghost function Verdict(log: seq<Mark>, policy: Policy, obs: Observation, nodes: seq<string>, node: string): Result<Outcome, Error> {
    var hindrance := Hindrance(log, obs);
    if hindrance.Some? then Ok(hindrance.value) else AttemptVerdict(log, policy, obs, nodes, node)
  }

  // ---- the events ----

  /** The newest thirty-two. */
  ghost function Newest(events: seq<Event>): seq<Event> {
    if |events| > 32 then events[|events| - 32..] else events
  }

  lemma NewestOne(events: seq<Event>, e: Event)
    ensures Newest(Newest(events) + [e]) == Newest(events + [e])
  {
  }

  /** What is recorded is the newest part, whatever was dropped before. */
  ghost predicate Grown(before: seq<Event>, noted: seq<Event>, after: seq<Event>) {
    after == Newest(before + noted)
  }

  lemma GrownNothing(events: seq<Event>)
    requires |events| <= 32
    ensures Grown(events, [], events)
  {
    assert events + [] == events;
  }

  lemma GrownTwice(before: seq<Event>, first: seq<Event>, between: seq<Event>, second: seq<Event>, after: seq<Event>)
    requires Grown(before, first, between) && Grown(between, second, after)
    ensures Grown(before, first + second, after)
  {
    assert (before + first) + second == before + (first + second);
  }

  lemma RecordGrows(s: State, now: nat, reason: Reason, to: Option<string>)
    requires |s.events| <= 32
    ensures Grown(s.events, [Event(now, reason, s.activeNode, to)], Record(s, now, reason, to).events)
  {
  }

  ghost function ChangeNoted(log: seq<Mark>, now: nat, node: Option<string>): seq<Event> {
    if ActiveNode(log) == node then [] else [Event(now, SelectionChange, ActiveNode(log), node)]
  }

  /** A tick that may switch notes the switch with its reason, or that there was nothing to choose. */
  ghost predicate AttemptNoted(log: seq<Mark>, policy: Policy, obs: Observation, nodes: seq<string>, node: string, noted: seq<Event>) {
    if !HasChoice(log, obs, nodes, node) then noted == [Event(obs.now, NoCandidate, Some(node), None)]
    else if AttemptVerdict(log, policy, obs, nodes, node) == Ok(RecoveredByKnownGood) then
      exists c :: Open(log, policy, obs, nodes, node, c)
        && noted == [Event(obs.now, if obs.probe.Healthy? then StreamSwitch else ProbeFailover, Some(node), Some(c))]
    else noted == []
  }

  ghost predicate DecisionNoted(log: seq<Mark>, policy: Policy, obs: Observation, nodes: seq<string>, node: string, noted: seq<Event>) {
    if Hindrance(log, obs).Some? then noted == [] else AttemptNoted(log, policy, obs, nodes, node, noted)
  }

  // ---- stage by stage ----

  lemma GateAnswers(s: State, log: seq<Mark>, obs: Observation, node: string)
    requires Inv(s, log, obs.now) && ActiveNode(log) == Some(node)
    requires !obs.probe.Healthy? ==> Streak(log) != [] && Streak(log)[|Streak(log)| - 1] == obs.now
    ensures var healthy := obs.probe.Healthy?;
            var trial := healthy && StreamFailurePersisted(s, obs.now);
            Hindrance(log, obs) == if healthy && !trial then Some(AlreadyHealthy) else Gate(s, obs.now, obs.force, trial).1
  {
    var now := obs.now;
    StreamEvidenceExactly(s, log, now);
    if !obs.probe.Healthy? {
      ProbeEvidenceExactly(s, log, now, node);
    }
    CoolingExactly(s, log, now);
    assert Cooling(s, now) <==> !Cooled(log, now);
    BudgetExactly(s, log, now);
    hide Inv, DigestOf, StreamFailurePersisted, EvidenceTooWeak, Cooling, PruneHistory, Cooled, HasBudget, StreamEvidence, ProbeEvidence;
  }

  lemma SettleReports(s: State, policy: Policy, obs: Observation, node: string, c: string, trial: bool)
    requires obs.latest.Some? && |s.events| <= 32
    ensures var step := Settle(s, policy.group, obs, NowOf(obs.latest.value, policy.group), node, c, trial);
            var reason := if trial then StreamSwitch else ProbeFailover;
            var done := obs.selectOk && obs.confirmed && obs.recordOk;
            && step.outcome == (if !obs.selectOk then Err(SessionReload) else if !obs.confirmed then Ok(Degraded)
                                else if !obs.recordOk then Err(PersistentState) else Ok(RecoveredByKnownGood))
            && Grown(s.events, if done then [Event(obs.now, reason, s.activeNode, Some(c))] else [], step.state.events)
            && (!done ==> step.state.activeNode == s.activeNode)
  {
    RecordGrows(s, obs.now, if trial then StreamSwitch else ProbeFailover, Some(c));
    GrownNothing(s.events);
    hide Grown;
  }

  /** The answer of a step, what it noted, and that a failed one leaves the active node. */
  ghost predicate Reported(s: State, step: Step, verdict: Result<Outcome, Error>, noted: seq<Event>) {
    && step.outcome == verdict && Grown(s.events, noted, step.state.events)
    && (verdict.Err? ==> step.state.activeNode == s.activeNode)
  }

  lemma AttemptReports(s: State, log: seq<Mark>, policy: Policy, obs: Observation, nodes: seq<string>, node: string)
    returns (noted: seq<Event>)
    requires QuarantineInv(s.quarantine, log, obs.now) && s.activeNode == Some(node) && |s.events| <= 32
    ensures var step := Attempt(s, policy, obs, nodes, node, obs.probe.Healthy?);
            Reported(s, step, AttemptVerdict(log, policy, obs, nodes, node), noted)
            && AttemptNoted(log, policy, obs, nodes, node, noted)
  {
    var kept := s.(quarantine := KeepQuarantine(s.quarantine, obs.now));
    EligibleAreUntried(s, log, nodes, node, obs.now);
    var untried, trial := Untried(log, nodes, node, obs.now), obs.probe.Healthy?;
    FirstGoodExactly(untried, obs.good, 0);
    hide FirstChoice, Untried, Filter, FirstGood, KeepQuarantine, QuarantineInv, StillChosen, StillApplies, Settle, NowOf, Record, Grown;
    var first := FirstGood(untried, obs.good, 0);
    assert first.Some? ==> FirstChoice(untried, obs.good, first.value);
    assert HasChoice(log, obs, nodes, node) <==> first.Some?;
    RecordGrows(kept, obs.now, NoCandidate, None);
    GrownNothing(s.events);
    noted := if first.None? then [Event(obs.now, NoCandidate, Some(node), None)] else [];
    if first.Some? && obs.latest.Some? {
      var c := first.value;
      StillAppliesExactly(obs.latest.value, policy.group, node, c);
      assert SomeOpen(log, policy, obs, nodes, node) <==> Open(log, policy, obs, nodes, node, c);
      if Open(log, policy, obs, nodes, node, c) {
        var tried := kept.(switchHistory := kept.switchHistory + [obs.now], switchedAt := obs.now);
        SettleReports(tried, policy, obs, node, c, trial);
        noted := if obs.selectOk && obs.confirmed && obs.recordOk
                 then [Event(obs.now, if trial then StreamSwitch else ProbeFailover, Some(node), Some(c))] else [];
      }
    }
  }

  lemma DecideReports(s: State, log: seq<Mark>, policy: Policy, obs: Observation, nodes: seq<string>, node: string)
    returns (noted: seq<Event>)
    requires Inv(s, log, obs.now) && ActiveNode(log) == Some(node) && |s.events| <= 32
    ensures var seen := log + [Probed(obs.now, node, obs.probe.Healthy?)];
            && Reported(s, Decide(s, policy, obs, nodes, node), Verdict(seen, policy, obs, nodes, node), noted)
            && DecisionNoted(seen, policy, obs, nodes, node, noted)
  {
    var now, healthy := obs.now, obs.probe.Healthy?;
    var judged, seen := Judge(s, now, healthy), log + [Probed(now, node, healthy)];
    var trial := healthy && StreamFailurePersisted(judged, now);
    var gated := Gate(judged, now, obs.force, trial);
    GatedAnswers(s, log, obs, node);
    GatedExactly(s, log, obs, node);
    GateKeepsEvents(s, obs, trial);
    DecideGated(s, policy, obs, nodes, node);
    hide Inv, ActiveNode, Judge, Gate, StreamFailurePersisted, Attempt, Decide, Hindrance, AttemptVerdict, AttemptNoted, QuarantineInv, Grown;
    noted := [];
    GrownNothing(s.events);
    if Hindrance(seen, obs).None? {
      noted := AttemptReports(gated.0, seen, policy, obs, nodes, node);
    }
  }

  lemma GatedAnswers(s: State, log: seq<Mark>, obs: Observation, node: string)
    requires Inv(s, log, obs.now) && ActiveNode(log) == Some(node)
    ensures var healthy := obs.probe.Healthy?;
            var judged, seen := Judge(s, obs.now, healthy), log + [Probed(obs.now, node, healthy)];
            var trial := healthy && StreamFailurePersisted(judged, obs.now);
            && s.activeNode == Some(node)
            && Hindrance(seen, obs) == if healthy && !trial then Some(AlreadyHealthy) else Gate(judged, obs.now, obs.force, trial).1
  {
    var now, healthy := obs.now, obs.probe.Healthy?;
    JudgeKeeps(s, log, now, node, healthy);
    Appended(log, Probed(now, node, healthy));
    GateAnswers(Judge(s, now, healthy), log + [Probed(now, node, healthy)], obs, node);
    assert s.activeNode == ActiveNode(log);
    hide Inv, Judge, Gate, StreamFailurePersisted, Hindrance;
  }

  lemma GateKeepsEvents(s: State, obs: Observation, trial: bool)
    ensures var gated := Gate(Judge(s, obs.now, obs.probe.Healthy?), obs.now, obs.force, trial).0;
            gated.events == s.events && gated.activeNode == s.activeNode
  {
    hide EvidenceTooWeak, Cooling, SwitchTimes, Filter;
  }

  lemma DecideGated(s: State, policy: Policy, obs: Observation, nodes: seq<string>, node: string)
    ensures var healthy := obs.probe.Healthy?;
            var judged := Judge(s, obs.now, healthy);
            var trial := healthy && StreamFailurePersisted(judged, obs.now);
            var gated := Gate(judged, obs.now, obs.force, trial);
            var step := Decide(s, policy, obs, nodes, node);
            if healthy && !trial then
              step.outcome == Ok(AlreadyHealthy) && step.state.events == s.events && step.state.activeNode == s.activeNode
            else if gated.1.Some? then
              step.outcome == Ok(gated.1.value) && step.state.events == gated.0.events && step.state.activeNode == gated.0.activeNode
            else
              var inner := Attempt(gated.0, policy, obs, nodes, node, healthy);
              step.outcome == inner.outcome && step.state == inner.state
  {
    hide StreamFailurePersisted, Gate, Attempt;
  }

  // ---- one tick of a run ----

  /** The node is judged after the marks `before`; answer and events are those of the log up to then. */
  ghost predicate Judged(log: seq<Mark>, policy: Policy, obs: Observation, nodes: seq<string>, node: string,
                         before: seq<Mark>, marks: seq<Mark>, answer: Result<Outcome, Error>, decided: seq<Event>)
  {
    var judged := before + [Probed(obs.now, node, obs.probe.Healthy?)];
    && judged <= marks && answer == Verdict(log + judged, policy, obs, nodes, node)
    && DecisionNoted(log + judged, policy, obs, nodes, node, decided)
  }

  /** In scope: the answer after the change was adopted and the log heard, and all that was noted. */
  ghost predicate ScopeReported(log: seq<Mark>, policy: Policy, obs: Observation, marks: seq<Mark>, heard: seq<Mark>,
                                answer: Result<Outcome, Error>, noted: seq<Event>)
    requires InScope(policy, obs)
  {
    var p := obs.proxies.value;
    var nodes, node := p[policy.group + " Auto"].all, SelectedLeaf(p, policy.group);
    var change, before := ChangeNoted(log, obs.now, node), Adoptions(log, obs.now, node) + heard;
    && AllSignals(heard)
    && (if node.None? || obs.probe.Unavailable? || obs.probe.ClientInitialization? then
          answer == Ok(Degraded) && noted == change && marks == before
        else
          exists decided :: Judged(log, policy, obs, nodes, node.value, before, marks, answer, decided) && noted == change + decided)
  }

  lemma ObserveNotes(s: State, log: seq<Mark>, policy: Policy, obs: Observation, node: Option<string>)
    requires Inv(s, log, obs.now) && |s.events| <= 32
    ensures var listened := Listen(Observe(s, obs.now, node), policy, obs.log, obs.now);
            && Grown(s.events, ChangeNoted(log, obs.now, node), listened.events) && listened.activeNode == node
  {
    assert s.activeNode == ActiveNode(log);
    RecordGrows(s, obs.now, SelectionChange, node);
    GrownNothing(s.events);
    hide Inv, ScanLog, Grown, Record, ActiveNode;
    ListenKeepsEvents(Observe(s, obs.now, node), policy, obs);
    hide Listen;
  }

  lemma ListenKeepsEvents(s: State, policy: Policy, obs: Observation)
    ensures var listened := Listen(s, policy, obs.log, obs.now);
            listened.events == s.events && listened.activeNode == s.activeNode
  {
    hide ScanLog;
  }

  lemma DecideProbes(s: State, policy: Policy, obs: Observation, nodes: seq<string>, node: string)
    ensures var marks := Decide(s, policy, obs, nodes, node).marks;
            marks != [] && marks[0] == Probed(obs.now, node, obs.probe.Healthy?)
  {
    hide Judge, StreamFailurePersisted, Gate, Attempt;
  }

  lemma DecideJudges(s: State, log: seq<Mark>, policy: Policy, obs: Observation, nodes: seq<string>, node: string, before: seq<Mark>)
    returns (decided: seq<Event>)
    requires Inv(s, log + before, obs.now) && ActiveNode(log + before) == Some(node) && |s.events| <= 32
    ensures var step := Decide(s, policy, obs, nodes, node);
            && Judged(log, policy, obs, nodes, node, before, before + step.marks, step.outcome, decided)
            && Grown(s.events, decided, step.state.events) && (step.outcome.Err? ==> step.state.activeNode == Some(node))
  {
    var m := Probed(obs.now, node, obs.probe.Healthy?);
    assert (log + before) + [m] == log + (before + [m]);
    assert s.activeNode == ActiveNode(log + before);
    hide Inv, ActiveNode, Decide, Verdict, DecisionNoted, Grown;
    DecideProbes(s, policy, obs, nodes, node);
    decided := DecideReports(s, log + before, policy, obs, nodes, node);
  }

  /** One examination: its answer, its events, and the node that is active if it fails. */
  lemma ExamineReports(s: State, log: seq<Mark>, policy: Policy, obs: Observation) returns (heard: seq<Mark>, noted: seq<Event>)
    requires Inv(s, log, obs.now) && InScope(policy, obs) && |s.events| <= 32
    ensures var p := obs.proxies.value;
            var node := SelectedLeaf(p, policy.group);
            var step := Examine(s, policy, obs, p[policy.group + " Auto"].all, node);
            && ScopeReported(log, policy, obs, step.marks, heard, step.outcome, noted)
            && Grown(s.events, noted, step.state.events) && (step.outcome.Err? ==> step.state.activeNode == node)
  {
    var p := obs.proxies.value;
    var nodes, node := p[policy.group + " Auto"].all, SelectedLeaf(p, policy.group);
    hide Inv, Decide, Listen, Observe, Heard, SelectedLeaf, ActiveNode, AllSignals, Adoptions, Adoption, ChangeNoted,
         Judged, Grown;
    ListenedKeeps(s, log, policy, obs, node);
    ObserveNotes(s, log, policy, obs, node);
    var listened := Listen(Observe(s, obs.now, node), policy, obs.log, obs.now);
    heard := Heard(Observe(s, obs.now, node), policy, obs.log, obs.now);
    noted := ChangeNoted(log, obs.now, node);
    if node.Some? && Usable(obs.probe) {
      GrownBound(s.events, noted, listened.events);
      var decided := DecideJudges(listened, log, policy, obs, nodes, node.value, Adoptions(log, obs.now, node) + heard);
      GrownTwice(s.events, noted, listened.events, decided, Decide(listened, policy, obs, nodes, node.value).state.events);
      noted := noted + decided;
    }
  }

  lemma GrownBound(before: seq<Event>, noted: seq<Event>, after: seq<Event>)
    requires Grown(before, noted, after)
    ensures |after| <= 32
  {
  }

  /** What a tick that checks answers before it saves, and what it notes; an error is noted as well. */
  ghost predicate CheckReported(log: seq<Mark>, policy: Policy, obs: Observation, marks: seq<Mark>, heard: seq<Mark>,
                                answer: Result<Outcome, Error>, noted: seq<Event>)
  {
    if obs.mode.None? || obs.proxies.None? then
      answer == Err(ControllerUnavailable) && noted == [Event(obs.now, ControllerOrState, ActiveNode(log), None)]
    else
      var p := obs.proxies.value;
      if obs.mode.value != Some("global") || "GLOBAL" !in p || p["GLOBAL"].now != Some(policy.group) then
        answer == Ok(NotApplicable) && noted == []
      else if !InScope(policy, obs) then answer == Ok(Degraded) && noted == []
      else
        exists examined :: ScopeReported(log, policy, obs, marks, heard, answer, examined)
          && noted == examined + (if answer.Ok? then []
                                  else [Event(obs.now, ControllerOrState, SelectedLeaf(p, policy.group), None)])
  }

  /** A recovery and the event that a failed one adds. */
  lemma RecoverReports(s: State, log: seq<Mark>, policy: Policy, obs: Observation)
    returns (heard: seq<Mark>, noted: seq<Event>)
    requires Inv(s, log, obs.now) && |s.events| <= 32
    ensures var step := Recover(s, policy, obs);
            var ended := if step.outcome.Err? then Record(step.state, obs.now, ControllerOrState, None) else step.state;
            CheckReported(log, policy, obs, step.marks, heard, step.outcome, noted) && Grown(s.events, noted, ended.events)
  {
    assert s.activeNode == ActiveNode(log);
    hide Examine, SelectedLeaf, ScopeReported, Grown, Record, ActiveNode, Inv;
    var step := Recover(s, policy, obs);
    heard, noted := [], [];
    GrownNothing(s.events);
    if InScope(policy, obs) {
      heard, noted := ExamineReports(s, log, policy, obs);
      GrownBound(s.events, noted, step.state.events);
    }
    assert noted + [] == noted;
    if step.outcome.Err? {
      var e := Event(obs.now, ControllerOrState, step.state.activeNode, None);
      RecordGrows(step.state, obs.now, ControllerOrState, None);
      GrownTwice(s.events, noted, step.state.events, [e], Record(step.state, obs.now, ControllerOrState, None).events);
      assert [] + [e] == [e];
      noted := noted + [e];
    }
  }

  lemma {:induction false} EventsBounded(profile: string, policy: Policy, inputs: seq<Observation>)
    requires Faithful(inputs)
    ensures |Run(profile, policy, inputs).disk.events| <= 32
    decreases |inputs|, 0
  {
    if inputs != [] {
      var init, obs := inputs[..|inputs| - 1], inputs[|inputs| - 1];
      assert inputs == init + [obs];
      var heard, answer, noted := TickReports(profile, policy, init, obs);
      RunLast(profile, policy, inputs);
      hide Run, Tick;
    }
  }

  /**
   After any run, a tick that gets the lock, can read the state and is not too soon answers exactly as
   stated, unless its save fails; and it extends the newest thirty-two events by exactly those stated.
   */
  lemma {:induction false} TickReports(profile: string, policy: Policy, inputs: seq<Observation>, obs: Observation)
    returns (heard: seq<Mark>, answer: Result<Outcome, Error>, noted: seq<Event>)
    requires Faithful(inputs + [obs])
    ensures var w := Run(profile, policy, inputs);
            var step := Tick(w.disk, profile, policy, obs);
            && Grown(w.disk.events, noted, step.state.events) && |step.state.events| <= 32
            && if Checks(LastCheck(inputs), obs) then
                 && CheckReported(w.log, policy, obs, step.marks, heard, answer, noted)
                 && step.outcome == if obs.saved.Complete? then answer else Err(PersistentState)
               else noted == [] && step.outcome == if !obs.lockBusy && !obs.readable then Err(PersistentState) else Ok(Cooldown)
    decreases |inputs|, 1
  {
    var all := inputs + [obs];
    assert all[|inputs|] == obs && (forall i :: 0 <= i < |inputs| ==> all[i] == inputs[i]);
    FaithfulPrefix(inputs, all);
    EventsBounded(profile, policy, inputs);
    RunKeeps(profile, policy, inputs);
    LastCheckStored(profile, policy, inputs);
    var w := Run(profile, policy, inputs);
    assert w.clock <= obs.now;
    hide Run, Recover, CheckReported, Grown, Record;
    ClockForward(w.disk, w.log, w.clock, obs.now);
    var started := w.disk.(profile := profile, group := policy.group, checkedAt := obs.now);
    Untracked(w.disk, started, w.log, obs.now);
    hide Inv;
    GrownNothing(w.disk.events);
    heard, noted := RecoverReports(started, w.log, policy, obs);
    answer := Recover(started, policy, obs).outcome;
    var step := Tick(w.disk, profile, policy, obs);
    if !Checks(LastCheck(inputs), obs) {
      noted := [];
    }
    GrownBound(w.disk.events, noted, step.state.events);
  }
}
