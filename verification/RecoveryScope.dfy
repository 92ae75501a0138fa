/**
 What one recovery may do to the controller: whom it selects, and what it leaves behind
 when a later step fails.
 */
module RecoveryScope {
  import opened Wrappers
  import opened Sequences
  import opened Names
  import opened PointerWalk
  import opened LogScan
  import opened Recovery

  /** Both probes of the candidate succeeded before the selection, and no eligible node before it passed its own. */
  ghost predicate PassedBefore(s: State, obs: Observation, nodes: seq<string>, node: string, candidate: string) {
    var eligible := Filter(nodes, Eligible(node, KeepQuarantine(s.quarantine, obs.now)));
    exists i :: 0 <= i < |eligible| && i in obs.good && eligible[i] == candidate && forall j :: 0 <= j < i ==> j !in obs.good
  }

  /** Inside its boundary: probed, a member of the generated group in both snapshots, not the current leaf, not quarantined. */
  ghost predicate WithinBoundary(s: State, policy: Policy, obs: Observation, candidate: string) {
    && obs.mode == Some(Some("global"))
    && obs.proxies.Some? && obs.latest.Some?
    && (forall p :: p == obs.proxies.value || p == obs.latest.value ==>
          && NowOf(p, "GLOBAL") == Some(policy.group)
          && candidate in AllOf(p, AutoName(policy.group))
          && SelectedLeaf(p, policy.group).Some?
          && SelectedLeaf(p, policy.group) != Some(candidate))
    && SelectedLeaf(obs.proxies.value, policy.group) == SelectedLeaf(obs.latest.value, policy.group)
    && PassedBefore(s, obs, AllOf(obs.proxies.value, AutoName(policy.group)),
                    SelectedLeaf(obs.proxies.value, policy.group).value, candidate)
    && !(candidate in s.quarantine && obs.now < s.quarantine[candidate] <= obs.now + QUARANTINE_SECONDS)
  }

  /** At most one selection, then at most one request for the choice that was there before. */
  ghost predicate OneAttempt(policy: Policy, obs: Observation, calls: seq<Call>) {
    && |calls| <= 2
    && (forall c :: c in calls ==> c.group == policy.group)
    && (|calls| == 2 ==> calls[0].ok && obs.latest.Some? && NowOf(obs.latest.value, policy.group) == Some(calls[1].node))
  }

  lemma FirstGoodIsEligible(eligible: seq<string>, good: set<nat>, from: nat)
    requires FirstGood(eligible, good, from).Some?
    ensures exists i :: from <= i < |eligible| && i in good && eligible[i] == FirstGood(eligible, good, from).value
                        && forall j :: from <= j < i ==> j !in good
    decreases |eligible| - from
  {
    if from !in good {
      FirstGoodIsEligible(eligible, good, from + 1);
      var i :| from + 1 <= i < |eligible| && i in good && eligible[i] == FirstGood(eligible, good, from + 1).value
               && forall j :: from + 1 <= j < i ==> j !in good;
      assert from <= i && forall j :: from <= j < i ==> j !in good;
    }
  }

  /** The requests of one attempt, by its candidate. */
  lemma SettleRequests(s: State, policy: Policy, obs: Observation, previous: Option<string>,
                       node: string, candidate: string, trial: bool)
    requires obs.latest.Some? && previous == NowOf(obs.latest.value, policy.group)
    ensures var calls := Settle(s, policy.group, obs, previous, node, candidate, trial).calls;
            OneAttempt(policy, obs, calls) && calls != [] && calls[0].node == candidate
  {
    hide Adopting;
  }

  /** The candidate of an attempt is eligible and still listed. */
  lemma CandidateEligible(s: State, obs: Observation, nodes: seq<string>, node: string)
    requires FirstGood(Filter(nodes, Eligible(node, KeepQuarantine(s.quarantine, obs.now))), obs.good, 0).Some?
    ensures var candidate := FirstGood(Filter(nodes, Eligible(node, KeepQuarantine(s.quarantine, obs.now))), obs.good, 0).value;
            && candidate in nodes && candidate != node
            && PassedBefore(s, obs, nodes, node, candidate)
            && !(candidate in s.quarantine && obs.now < s.quarantine[candidate] <= obs.now + QUARANTINE_SECONDS)
  {
    var kept := KeepQuarantine(s.quarantine, obs.now);
    var eligible := Filter(nodes, Eligible(node, kept));
    FirstGoodIsEligible(eligible, obs.good, 0);
    FilterMembers(nodes, Eligible(node, kept));
    assert FirstGood(eligible, obs.good, 0).value in eligible;
  }

  lemma AttemptInBoundary(s: State, policy: Policy, obs: Observation, nodes: seq<string>, node: string, trial: bool)
    requires obs.mode == Some(Some("global")) && obs.proxies.Some?
    requires NowOf(obs.proxies.value, "GLOBAL") == Some(policy.group)
    requires nodes == AllOf(obs.proxies.value, AutoName(policy.group))
    requires SelectedLeaf(obs.proxies.value, policy.group) == Some(node)
    ensures var step := Attempt(s, policy, obs, nodes, node, trial);
            && OneAttempt(policy, obs, step.calls)
            && (step.calls != [] ==> WithinBoundary(s, policy, obs, step.calls[0].node))
  {
    hide Settle, KeepQuarantine, Filter, FirstGood, SelectedLeaf, NowOf, AllOf, AutoName, PassedBefore;
    var kept := s.(quarantine := KeepQuarantine(s.quarantine, obs.now));
    var first := FirstGood(Filter(nodes, Eligible(node, kept.quarantine)), obs.good, 0);
    if first.Some? && obs.latest.Some? {
      var previous := NowOf(obs.latest.value, policy.group);
      var tried := kept.(switchHistory := kept.switchHistory + [obs.now], switchedAt := obs.now);
      SettleRequests(tried, policy, obs, previous, node, first.value, trial);
      CandidateEligible(s, obs, nodes, node);
      hide OneAttempt;
    }
  }

  lemma ListenKeepsQuarantine(s: State, policy: Policy, obs: Observation, node: Option<string>)
    ensures Listen(Observe(s, obs.now, node), policy, obs.log, obs.now).quarantine == s.quarantine
  {
    hide ScanLog;
  }

  lemma DecideAttempts(s: State, policy: Policy, obs: Observation, nodes: seq<string>, node: string)
    returns (gated: State, trial: bool)
    ensures gated.quarantine == s.quarantine
    ensures var step := Decide(s, policy, obs, nodes, node);
            step.calls == [] || (step.calls == Attempt(gated, policy, obs, nodes, node, trial).calls
                                 && step.outcome == Attempt(gated, policy, obs, nodes, node, trial).outcome)
  {
    hide Attempt, Filter;
    var judged := Judge(s, obs.now, obs.probe.Healthy?);
    trial := obs.probe.Healthy? && StreamFailurePersisted(judged, obs.now);
    gated := Gate(judged, obs.now, obs.force, trial).0;
  }

  /** When a recovery calls the controller at all, it is through one attempt from a state with the same quarantine. */
  lemma RecoverAttempts(s: State, policy: Policy, obs: Observation) returns (gated: State, node: string, trial: bool)
    requires Recover(s, policy, obs).calls != []
    ensures gated.quarantine == s.quarantine
    ensures obs.mode == Some(Some("global")) && obs.proxies.Some?
    ensures NowOf(obs.proxies.value, "GLOBAL") == Some(policy.group)
    ensures SelectedLeaf(obs.proxies.value, policy.group) == Some(node)
    ensures var step := Attempt(gated, policy, obs, AllOf(obs.proxies.value, AutoName(policy.group)), node, trial);
            Recover(s, policy, obs).calls == step.calls && Recover(s, policy, obs).outcome == step.outcome
  {
    hide Decide, Listen, Observe, Attempt, Heard, SelectedLeaf;
    var p := obs.proxies.value;
    node := SelectedLeaf(p, policy.group).value;
    var listened := Listen(Observe(s, obs.now, Some(node)), policy, obs.log, obs.now);
    ListenKeepsQuarantine(s, policy, obs, Some(node));
    gated, trial := DecideAttempts(listened, policy, obs, AllOf(p, AutoName(policy.group)), node);
  }

  /** Scope: every request targets the policy group, and the node selected is inside the boundary. */
  lemma SelectionInBoundary(s: State, policy: Policy, obs: Observation)
    ensures var step := Recover(s, policy, obs);
            && OneAttempt(policy, obs, step.calls)
            && (step.calls != [] ==> WithinBoundary(s, policy, obs, step.calls[0].node))
  {
    hide Recover, Attempt;
    if Recover(s, policy, obs).calls != [] {
      var gated, node, trial := RecoverAttempts(s, policy, obs);
      AttemptInBoundary(gated, policy, obs, AllOf(obs.proxies.value, AutoName(policy.group)), node, trial);
    }
  }

  // ---- compensation ----

  /** The group's choice before and after a request; a failed request may or may not have been applied. */
  ghost predicate CoreStep(before: Option<string>, call: Call, after: Option<string>) {
    after == Some(call.node) || (!call.ok && after == before)
  }

  /** Choices of the policy group around each request, with no change from outside. */
  ghost predicate CoreRun(choices: seq<Option<string>>, calls: seq<Call>) {
    && |choices| == |calls| + 1
    && (forall i :: 0 <= i < |calls| ==> CoreStep(choices[i], calls[i], choices[i + 1]))
  }

  ghost predicate Compensated(policy: Policy, obs: Observation, step: Step, choices: seq<Option<string>>)
    requires CoreRun(choices, step.calls) && (step.calls != [] ==> obs.latest.Some?)
  {
    var last := choices[|choices| - 1];
    if step.outcome == Ok(RecoveredByKnownGood) then
      step.calls != [] && last == Some(step.calls[0].node) && obs.confirmed && obs.recordOk
    else
      || last == choices[0]
      || !step.calls[|step.calls| - 1].ok
      || SelectedLeaf(obs.latest.value, policy.group) == Some(policy.group)
  }

  lemma AttemptCompensates(s: State, policy: Policy, obs: Observation, nodes: seq<string>, node: string, trial: bool,
                           choices: seq<Option<string>>)
    requires var step := Attempt(s, policy, obs, nodes, node, trial);
             && CoreRun(choices, step.calls)
             && (step.calls != [] ==> obs.latest.Some? && choices[0] == NowOf(obs.latest.value, policy.group))
    ensures Compensated(policy, obs, Attempt(s, policy, obs, nodes, node, trial), choices)
  {
    hide Filter, FirstGood;
    var step := Attempt(s, policy, obs, nodes, node, trial);
    if |step.calls| > 0 {
      assert CoreStep(choices[0], step.calls[0], choices[1]);
    }
    if |step.calls| > 1 {
      assert CoreStep(choices[1], step.calls[1], choices[2]);
    }
  }

  lemma NoCallsNoRecovery(s: State, policy: Policy, obs: Observation)
    requires Recover(s, policy, obs).calls == []
    ensures Recover(s, policy, obs).outcome != Ok(RecoveredByKnownGood)
  {
    hide Decide, Listen, Observe, Heard, SelectedLeaf;
    if obs.proxies.Some? {
      var p := obs.proxies.value;
      var node := SelectedLeaf(p, policy.group);
      if node.Some? {
        var listened := Listen(Observe(s, obs.now, node), policy, obs.log, obs.now);
        DecideNoCalls(listened, policy, obs, AllOf(p, AutoName(policy.group)), node.value);
      }
    }
  }

  lemma DecideNoCalls(s: State, policy: Policy, obs: Observation, nodes: seq<string>, node: string)
    ensures var step := Decide(s, policy, obs, nodes, node);
            step.calls == [] ==> step.outcome != Ok(RecoveredByKnownGood)
  {
    hide Filter, FirstGood, KeepQuarantine, StillApplies, Judge, StreamFailurePersisted;
  }

  /**
   Every exit leaves a candidate that passed its probes before and after the selection and is recorded,
   or the previous choice, or ends with a failed request. The one exception is a group that is
   itself the leaf, for it has no previous choice to return to.
   */
  lemma Compensation(s: State, policy: Policy, obs: Observation, choices: seq<Option<string>>)
    requires var step := Recover(s, policy, obs);
             && CoreRun(choices, step.calls)
             && (step.calls != [] ==> obs.latest.Some? && choices[0] == NowOf(obs.latest.value, policy.group))
    ensures Compensated(policy, obs, Recover(s, policy, obs), choices)
    ensures Recover(s, policy, obs).outcome == Ok(RecoveredByKnownGood) ==>
              WithinBoundary(s, policy, obs, Recover(s, policy, obs).calls[0].node)
  {
    SelectionInBoundary(s, policy, obs);
    hide Recover, Attempt, CoreStep, WithinBoundary, OneAttempt;
    if Recover(s, policy, obs).calls != [] {
      var gated, node, trial := RecoverAttempts(s, policy, obs);
      AttemptCompensates(gated, policy, obs, AllOf(obs.proxies.value, AutoName(policy.group)), node, trial, choices);
    } else {
      NoCallsNoRecovery(s, policy, obs);
    }
  }

  /** The exception is real: a group that is itself the leaf is left on a candidate that failed. */
  lemma LeafGroupNotRestored(s: State, policy: Policy, obs: Observation, nodes: seq<string>, node: string, trial: bool)
    requires var calls := Attempt(s, policy, obs, nodes, node, trial).calls;
             calls != [] && calls[0].ok && !(obs.confirmed && obs.recordOk)
    ensures var calls := Attempt(s, policy, obs, nodes, node, trial).calls;
            |calls| == 1 <==> node == policy.group
  {
    LeafIsStart(obs.latest.value, policy.group);
  }

  /** The policy group is itself a leaf, and the only node of the generated group is another one. */
  ghost function LeafSnapshot(): Proxies {
    map["GLOBAL" := Info(Selector, Some("G"), []), "G" := Info(Other, None, []),
        AutoName("G") := Info(Selector, None, ["B"])]
  }

  /** Forced; the probe of the group fails, B passes before the selection and fails after it. */
  ghost function LeafTick(): Observation {
    Observation(false, true, Complete, 1, true, Some(Some("global")), Some(LeafSnapshot()), None, TransportFailed,
                {0}, Some(LeafSnapshot()), true, false, true, true)
  }

  lemma LeafNames()
    ensures NowOf(LeafSnapshot(), "GLOBAL") == Some("G") && NowOf(LeafSnapshot(), "G") == None
    ensures AllOf(LeafSnapshot(), AutoName("G")) == ["B"] && "G" in LeafSnapshot()
    ensures SelectedLeaf(LeafSnapshot(), "G") == Some("G")
  {
    assert |"GLOBAL"| == |AutoName("G")| == 6 && |"G"| == 1;
    assert "GLOBAL"[1] == 'L' && AutoName("G")[1] == ' ' && "G"[0] == 'G';
    assert IsLeaf(LeafSnapshot(), "G");
    LeafIsStart(LeafSnapshot(), "G");
  }

  lemma LeafAttempt(s: State)
    requires s.quarantine == map[]
    ensures var step := Attempt(s, Policy("G", false), LeafTick(), ["B"], "G", false);
            step.calls == [Call("G", "B", true)] && step.outcome == Ok(Degraded)
  {
    LeafNames();
    var kept := KeepQuarantine(s.quarantine, 1);
    assert kept == map[];
    assert "B"[0] != "G"[0];
    assert ["B"][..0] == [];
    assert Filter(["B"], Eligible("G", kept)) == ["B"];
    assert StillApplies(LeafSnapshot(), "G", "G", "B");
    hide SelectedLeaf, KeepQuarantine, Filter, NowOf, AllOf, StillApplies;
  }

  /** The exception is reachable: this recovery leaves the group on a candidate that failed after selection. */
  lemma LeafGroupRun()
    ensures var step := Recover(Initial("p", "G"), Policy("G", false), LeafTick());
            && step.calls == [Call("G", "B", true)] && step.outcome == Ok(Degraded)
            && !LeafTick().confirmed && NowOf(LeafSnapshot(), "G") != Some("B")
  {
    LeafNames();
    var observed := Observe(Initial("p", "G"), 1, Some("G"));
    LeafAttempt(Judge(observed, 1, false));
    hide SelectedLeaf, NowOf, AllOf, Attempt, AutoName;
    assert Recover(Initial("p", "G"), Policy("G", false), LeafTick())
           == Examine(Initial("p", "G"), Policy("G", false), LeafTick(), ["B"], Some("G"));
  }

  // ---- the log of marks records exactly what was done ----

  function Decisive(): Mark -> bool {
    (m: Mark) => m.Attempted? || m.Quarantined?
  }

  lemma {:induction false} SignalsNotDecisive(rows: seq<Row>)
    ensures Filter(Signals(rows), Decisive()) == []
  {
    if rows != [] {
      SignalsNotDecisive(rows[..|rows| - 1]);
      var init, row := Signals(rows[..|rows| - 1]), rows[|rows| - 1];
      if row.signal {
        FilterAppend(init, Signal(row.ts), Decisive());
      } else {
        assert init + [] == init;
      }
    }
  }

  lemma FilterSingle(m: Mark)
    ensures Filter([m], Decisive()) == if Decisive()(m) then [m] else []
  {
    FilterAppend([], m, Decisive());
    assert [] + [m] == [m];
  }

  lemma SettleMarks(s: State, group: string, obs: Observation, previous: Option<string>,
                    node: string, candidate: string, trial: bool)
    ensures var step := Settle(s, group, obs, previous, node, candidate, trial);
            [Attempted(obs.now, obs.force, trial, candidate)] + Filter(step.marks, Decisive())
            == DecisiveMarks(obs, step.calls, step.outcome, node, trial)
  {
    var kept, adopted := Quarantined(obs.now, node), Adopted(obs.now, Some(candidate));
    SignalsNotDecisive([]);
    FilterSingle(kept);
    FilterSingle(Quarantined(obs.now, candidate));
    FilterAppend([kept], adopted, Decisive());
    assert !Decisive()(adopted) && [kept] + [adopted] == [kept, adopted] && [kept] + [] == [kept];
    hide Adopting, Filter, Decisive;
  }

  lemma AttemptMarks(s: State, policy: Policy, obs: Observation, nodes: seq<string>, node: string, trial: bool)
    ensures var step := Attempt(s, policy, obs, nodes, node, trial);
            Filter(step.marks, Decisive()) == DecisiveMarks(obs, step.calls, step.outcome, node, trial)
  {
    hide Settle, StillApplies, Filter, FirstGood, KeepQuarantine;
    assert Filter<Mark>([], Decisive()) == [] by {
      SignalsNotDecisive([]);
    }
    var kept := s.(quarantine := KeepQuarantine(s.quarantine, obs.now));
    var first := FirstGood(Filter(nodes, Eligible(node, kept.quarantine)), obs.good, 0);
    if first.Some? && obs.latest.Some? {
      var tried := kept.(switchHistory := kept.switchHistory + [obs.now], switchedAt := obs.now);
      var previous := NowOf(obs.latest.value, policy.group);
      var step := Settle(tried, policy.group, obs, previous, node, first.value, trial);
      var m := Attempted(obs.now, obs.force, trial, first.value);
      SettleMarks(tried, policy.group, obs, previous, node, first.value, trial);
      SettleCalls(tried, policy.group, obs, previous, node, first.value, trial);
      FilterSingle(m);
      FilterConcat([m], step.marks, Decisive());
    }
  }

  lemma SettleCalls(s: State, group: string, obs: Observation, previous: Option<string>,
                    node: string, candidate: string, trial: bool)
    ensures var step := Settle(s, group, obs, previous, node, candidate, trial);
            step.calls != [] && step.calls[0].node == candidate
  {
  }

  /** An attempt is logged with each selection, a quarantine with each node left or failed after selection. */
  ghost function DecisiveMarks(obs: Observation, calls: seq<Call>, outcome: Result<Outcome, Error>,
                               node: string, trial: bool): seq<Mark>
  {
    if calls == [] then []
    else
      [Attempted(obs.now, obs.force, trial, calls[0].node)]
      + (if outcome == Ok(RecoveredByKnownGood) then [Quarantined(obs.now, node)]
         else if calls[0].ok && !obs.confirmed then [Quarantined(obs.now, calls[0].node)]
         else [])
  }

  lemma MarksMeanActions(s: State, policy: Policy, obs: Observation) returns (trial: bool)
    ensures var step := Recover(s, policy, obs);
            && (step.calls == [] ==> Filter(step.marks, Decisive()) == [])
            && (step.calls != [] ==>
                  && obs.proxies.Some? && SelectedLeaf(obs.proxies.value, policy.group).Some?
                  && Filter(step.marks, Decisive())
                     == DecisiveMarks(obs, step.calls, step.outcome, SelectedLeaf(obs.proxies.value, policy.group).value, trial))
  {
    hide Decide, Listen, Observe, SelectedLeaf, ScanLog, Filter;
    trial := false;
    assert Filter<Mark>([], Decisive()) == [] by {
      SignalsNotDecisive([]);
    }
    if obs.mode.Some? && obs.proxies.Some? {
      var p := obs.proxies.value;
      var node := SelectedLeaf(p, policy.group);
      var observed := Observe(s, obs.now, node);
      var adoption, heard := Adoption(s, obs.now, node), Heard(observed, policy, obs.log, obs.now);
      FilterConcat(adoption, heard, Decisive());
      if adoption != [] {
        FilterAppend([], adoption[0], Decisive());
        assert [] + [adoption[0]] == adoption;
      }
      if heard != [] {
        SignalsNotDecisive(ScanLog(ReaderOf(observed), obs.log.value, Since(observed, obs.now)).consumed);
      }
      if node.Some? {
        var listened := Listen(observed, policy, obs.log, obs.now);
        var nodes := AllOf(p, AutoName(policy.group));
        trial := DecideMarks(listened, policy, obs, nodes, node.value);
        FilterConcat(adoption + heard, Decide(listened, policy, obs, nodes, node.value).marks, Decisive());
      }
    }
  }

  lemma DecideMarks(s: State, policy: Policy, obs: Observation, nodes: seq<string>, node: string) returns (trial: bool)
    ensures var step := Decide(s, policy, obs, nodes, node);
            Filter(step.marks, Decisive()) == DecisiveMarks(obs, step.calls, step.outcome, node, trial)
  {
    hide Attempt, Gate, StreamFailurePersisted;
    var judged := Judge(s, obs.now, obs.probe.Healthy?);
    trial := obs.probe.Healthy? && StreamFailurePersisted(judged, obs.now);
    var gated := Gate(judged, obs.now, obs.force, trial).0;
    var probed := Probed(obs.now, node, obs.probe.Healthy?);
    FilterAppend([], probed, Decisive());
    assert [] + [probed] == [probed];
    AttemptMarks(gated, policy, obs, nodes, node, trial);
    FilterConcat([probed], Attempt(gated, policy, obs, nodes, node, trial).marks, Decisive());
  }
}
