/**
 When a tick makes a switch attempt, told from the unbounded log and what the tick observes: an
 attempt is made if and only if it is due, and everything a tick does is fixed by that.
 */
module RecoveryDecision {
  import opened Wrappers
  import opened Sequences
  import opened Names
  import opened PointerWalk
  import opened LogScan
  import opened Recovery
  import opened RecoveryRuns
  import opened RecoveryReading

  // ---- what makes an attempt due ----

  /** No attempt made at a clock reading other than zero is younger than five minutes. */
  ghost predicate Cooled(log: seq<Mark>, now: nat) {
    forall i :: 0 <= i < |log| && log[i].Attempted? && log[i].at != 0 ==> log[i].at + 300 <= now
  }

  /** Fewer than two attempts lie in the last hour. */
  ghost predicate HasBudget(log: seq<Mark>, now: nat) {
    forall i, j :: 0 <= i < j < |log| && log[i].Attempted? && log[j].Attempted?
      ==> log[i].at + 3600 <= now || log[j].at + 3600 <= now
  }

  /** The node was left, or failed after selection, less than half an hour ago. */
  ghost predicate JustLeft(log: seq<Mark>, n: string, now: nat) {
    exists i :: 0 <= i < |log| && log[i].Quarantined? && log[i].left == n && now < log[i].at + 1800
  }

  /** A failing probe with a minute of evidence, or forced; or a passing probe over a failing stream. */
  ghost predicate Wanted(log: seq<Mark>, healthy: bool, force: bool, now: nat) {
    if healthy then StreamEvidence(log, now) else force || ProbeEvidence(log, now)
  }

  /** The members of the generated group, in order, that are neither the current node nor just left. */
  ghost function Untried(log: seq<Mark>, nodes: seq<string>, node: string, now: nat): seq<string> {
    if nodes == [] then []
    else
      var last := nodes[|nodes| - 1];
      Untried(log, nodes[..|nodes| - 1], node, now) + (if last != node && !JustLeft(log, last, now) then [last] else [])
  }

  /** The first of them whose two probes both succeed. */
  ghost predicate FirstChoice(untried: seq<string>, good: set<nat>, c: string) {
    exists k :: 0 <= k < |untried| && k in good && untried[k] == c && forall j :: 0 <= j < k ==> j !in good
  }

  /** The fresh snapshot still shows the same leaf, the same group under GLOBAL, and the candidate. */
  ghost predicate StillChosen(latest: Proxies, group: string, node: string, c: string) {
    && SelectedLeaf(latest, group) == Some(node)
    && "GLOBAL" in latest && latest["GLOBAL"].now == Some(group)
    && group + " Auto" in latest && c in latest[group + " Auto"].all
  }

  /** `c` is the first choice, and the fresh snapshot still allows it. */
  ghost predicate Open(log: seq<Mark>, policy: Policy, obs: Observation, nodes: seq<string>, node: string, c: string) {
    && FirstChoice(Untried(log, nodes, node, obs.now), obs.good, c)
    && obs.latest.Some? && StillChosen(obs.latest.value, policy.group, node, c)
  }

  /** A switch is wanted, and forced, or neither cooldown nor budget forbids it. */
  ghost predicate Allowed(log: seq<Mark>, obs: Observation) {
    && Wanted(log, obs.probe.Healthy?, obs.force, obs.now)
    && (obs.force || (Cooled(log, obs.now) && HasBudget(log, obs.now)))
  }

  /** An attempt at `c` is due, in a log that ends with the observation of the current node. */
  ghost predicate Due(log: seq<Mark>, policy: Policy, obs: Observation, nodes: seq<string>, node: string, c: string) {
    && Allowed(log, obs)
    && Open(log, policy, obs, nodes, node, c)
  }

  /** What follows an attempt: the requests, the marks after it, and whether the candidate was adopted. */
  ghost predicate Followed(policy: Policy, obs: Observation, node: string, c: string, calls: seq<Call>, tail: seq<Mark>)
    requires obs.latest.Some?
  {
    var latest, group := obs.latest.value, policy.group;
    var selected := [Call(group, c, obs.selectOk)];
    var restored := selected + (if group in latest && latest[group].now.Some? then [Call(group, latest[group].now.value, obs.restoreOk)]
                                else []);
    if !obs.selectOk then calls == selected && tail == []
    else if !obs.confirmed then calls == restored && tail == [Quarantined(obs.now, c)]
    else if !obs.recordOk then calls == restored && tail == []
    else calls == selected && tail == [Quarantined(obs.now, node), Adopted(obs.now, Some(c))]
  }

  /**
   From the observation of the current node on: an attempt is made at the one candidate that is
   due, or none is due and nothing is requested.
   */
  ghost predicate Decided(log: seq<Mark>, policy: Policy, obs: Observation, nodes: seq<string>, node: string,
                          marks: seq<Mark>, calls: seq<Call>, c: Option<string>, tail: seq<Mark>)
  {
    var healthy := obs.probe.Healthy?;
    var probed := [Probed(obs.now, node, healthy)];
    && (forall d :: Due(log + probed, policy, obs, nodes, node, d) <==> c == Some(d))
    && (c.None? ==> marks == probed && calls == [])
    && (c.Some? ==>
          && marks == probed + [Attempted(obs.now, obs.force, healthy, c.value)] + tail
          && obs.latest.Some? && Followed(policy, obs, node, c.value, calls, tail))
  }

  // ---- evidence and saved state ----

  /** An unhealthy observation that nothing has ended is still in the streak, and so are the later ones. */
  lemma {:induction false} StreakHolds(log: seq<Mark>, i: int, j: int, n: string, since: nat) returns (p: nat)
    requires 0 <= i < |log| && log[i] == Probed(since, n, false) && UnhealthyOnly(log, i, n)
    requires i <= j < |log| && log[j].Probed?
    ensures p < |Streak(log)| && Streak(log)[p] == since && (i < j ==> p + 1 < |Streak(log)|)
  {
    var init, last := log[..|log| - 1], log[|log| - 1];
    if i == |log| - 1 {
      p := |Streak(init)|;
    } else if j < |log| - 1 {
      p := StreakHolds(init, i, j, n, since);
    } else {
      p := StreakHolds(init, i, i, n, since);
    }
  }

  lemma ProbeEvidenceExactly(s: State, log: seq<Mark>, now: nat, node: string)
    requires Inv(s, log, now) && ActiveNode(log) == Some(node)
    requires Streak(log) != [] && Streak(log)[|Streak(log)| - 1] == now
    ensures !EvidenceTooWeak(s, now) <==> ProbeEvidence(log, now)
  {
    if !EvidenceTooWeak(s, now) {
      StreakGrants(s, log, now, node);
    }
    if ProbeEvidence(log, now) {
      var i, j, n, since: nat :|
        0 <= i < j < |log| && since + 60 <= now
        && log[i] == Probed(since, n, false) && log[j] == Probed(now, n, false) && UnhealthyOnly(log, i, n);
      var p := StreakHolds(log, i, j, n, since);
    }
  }

  /** A chain since the last adoption is part of the stored episode, which ends with it. */
  lemma {:induction false} EpisodeHolds(log: seq<Mark>, from: int)
    requires 0 <= from <= |log| && ChainFrom(log, from)
    requires |SignalTimes(log[from..])| > 0 && SignalTimes(log[from..])[0] != 0
    ensures var e, times := DigestOf(log).episode, SignalTimes(log[from..]);
            0 < e.first <= times[0] && e.last == times[|times| - 1]
  {
    var init, last := log[..|log| - 1], log[|log| - 1];
    var times := SignalTimes(log[from..]);
    assert log[from..] == init[from..] + [last];
    assert log[from..][..|log[from..]| - 1] == init[from..];
    var earlier := SignalTimes(init[from..]);
    assert times == earlier + (if last.Signal? then [last.ts] else []);
    EpisodeOrdered(init);
    if earlier != [] {
      assert Chain(earlier) by {
        assert earlier == times[..|earlier|];
      }
      assert times[0] == earlier[0] && times[|earlier| - 1] == earlier[|earlier| - 1];
      EpisodeHolds(init, from);
      assert last.Signal? ==> times[|earlier| - 1] <= times[|earlier| - 1 + 1] <= times[|earlier| - 1] + 60;
    } else {
      assert times == [last.ts];
    }
    assert !last.Adopted?;
  }

  lemma {:induction false} EpisodeOrdered(log: seq<Mark>)
    ensures DigestOf(log).episode.first != 0 ==> DigestOf(log).episode.first <= DigestOf(log).episode.last
  {
    if log != [] {
      EpisodeOrdered(log[..|log| - 1]);
    }
  }

  lemma StreamEvidenceExactly(s: State, log: seq<Mark>, now: nat)
    requires Inv(s, log, now)
    ensures StreamFailurePersisted(s, now) <==> StreamEvidence(log, now)
  {
    if StreamFailurePersisted(s, now) {
      EpisodeGrants(s, log, now);
    }
    if StreamEvidence(log, now) {
      var from :| 0 <= from <= |log| && ChainFrom(log, from)
        && var times := SignalTimes(log[from..]);
           && |times| > 0 && times[0] != 0
           && times[0] + 60 <= times[|times| - 1]
           && times[|times| - 1] <= now <= times[|times| - 1] + 60;
      EpisodeHolds(log, from);
    }
  }

  ghost predicate RecentAttempt(log: seq<Mark>, now: nat, i: int) {
    0 <= i < |log| && log[i].Attempted? && now < log[i].at + 3600
  }

  lemma {:induction false} RecentOne(log: seq<Mark>, now: nat) returns (i: int)
    requires |Filter(AttemptTimes(log), Recent(now))| > 0
    ensures RecentAttempt(log, now, i)
  {
    var init, last := log[..|log| - 1], log[|log| - 1];
    if last.Attempted? && Recent(now)(last.at) {
      i := |log| - 1;
    } else {
      if last.Attempted? {
        FilterAppend(AttemptTimes(init), last.at, Recent(now));
      }
      i := RecentOne(init, now);
    }
  }

  /** Two recent times are those of two recent attempts. */
  lemma {:induction false} RecentPair(log: seq<Mark>, now: nat) returns (i: int, j: int)
    requires |Filter(AttemptTimes(log), Recent(now))| > 1
    ensures i < j && RecentAttempt(log, now, i) && RecentAttempt(log, now, j)
  {
    var init, last := log[..|log| - 1], log[|log| - 1];
    if last.Attempted? {
      FilterAppend(AttemptTimes(init), last.at, Recent(now));
    }
    if last.Attempted? && Recent(now)(last.at) {
      i := RecentOne(init, now);
      j := |log| - 1;
    } else {
      i, j := RecentPair(init, now);
    }
  }

  lemma BudgetExactly(s: State, log: seq<Mark>, now: nat)
    requires Inv(s, log, now)
    ensures |PruneHistory(s, now).switchHistory| < MAX_AUTOMATIC_SWITCHES <==> HasBudget(log, now)
  {
    if |PruneHistory(s, now).switchHistory| < MAX_AUTOMATIC_SWITCHES {
      forall i, j | 0 <= i < j < |log| && log[i].Attempted? && log[j].Attempted? ensures log[i].at + 3600 <= now {
        BudgetGrants(s, log, now, i, j);
      }
    } else {
      PruneExact(s, log, now);
      var i, j := RecentPair(log, now);
    }
  }

  /** The gates are passed exactly when evidence, cooldown and budget allow it. */
  lemma GateExactly(s: State, log: seq<Mark>, obs: Observation, node: string)
    requires Inv(s, log, obs.now) && ActiveNode(log) == Some(node)
    requires !obs.probe.Healthy? ==> Streak(log) != [] && Streak(log)[|Streak(log)| - 1] == obs.now
    ensures var healthy := obs.probe.Healthy?;
            var trial := healthy && StreamFailurePersisted(s, obs.now);
            (!healthy || trial) && Gate(s, obs.now, obs.force, trial).1.None?
            <==> Allowed(log, obs)
  {
    var now := obs.now;
    StreamEvidenceExactly(s, log, now);
    if !obs.probe.Healthy? {
      ProbeEvidenceExactly(s, log, now, node);
    }
    CoolingExactly(s, log, now);
    assert Cooling(s, now) <==> !Cooled(log, now);
    BudgetExactly(s, log, now);
    hide Inv, DigestOf, StreamFailurePersisted, EvidenceTooWeak, Cooling, PruneHistory, Cooled, HasBudget, StreamEvidence, ProbeEvidence;
  }

  // ---- the choice of a candidate ----

  lemma {:induction false} EligibleAreUntried(s: State, log: seq<Mark>, nodes: seq<string>, node: string, now: nat)
    requires QuarantineInv(s.quarantine, log, now)
    ensures Filter(nodes, Eligible(node, KeepQuarantine(s.quarantine, now))) == Untried(log, nodes, node, now)
  {
    if nodes != [] {
      EligibleAreUntried(s, log, nodes[..|nodes| - 1], node, now);
      QuarantineExact(s, log, now, nodes[|nodes| - 1]);
      hide QuarantineInv, KeepQuarantine;
    }
  }

  lemma {:induction false} FirstGoodExactly(eligible: seq<string>, good: set<nat>, from: nat)
    requires from <= |eligible| && forall j :: 0 <= j < from ==> j !in good
    ensures FirstGood(eligible, good, from).None? ==> forall c :: !FirstChoice(eligible, good, c)
    ensures FirstGood(eligible, good, from).Some? ==>
              forall c :: FirstChoice(eligible, good, c) <==> c == FirstGood(eligible, good, from).value
    decreases |eligible| - from
  {
    if from < |eligible| && from !in good {
      FirstGoodExactly(eligible, good, from + 1);
    }
  }

  lemma StillAppliesExactly(latest: Proxies, group: string, node: string, c: string)
    ensures StillApplies(latest, group, node, c) <==> StillChosen(latest, group, node, c)
  {
    hide SelectedLeaf;
  }

  lemma SettleExactly(s: State, policy: Policy, obs: Observation, node: string, c: string, trial: bool)
    requires obs.latest.Some?
    ensures var step := Settle(s, policy.group, obs, NowOf(obs.latest.value, policy.group), node, c, trial);
            && Followed(policy, obs, node, c, step.calls, step.marks)
            && (step.outcome == Ok(RecoveredByKnownGood) <==> obs.selectOk && obs.confirmed && obs.recordOk)
  {
    hide Adopting;
  }

  /** One attempt, from the state in which the gates were passed. */
  lemma AttemptExactly(s: State, log: seq<Mark>, policy: Policy, obs: Observation, nodes: seq<string>, node: string, trial: bool)
    returns (c: Option<string>, tail: seq<Mark>)
    requires QuarantineInv(s.quarantine, log, obs.now)
    ensures forall d :: Open(log, policy, obs, nodes, node, d) <==> c == Some(d)
    ensures var step := Attempt(s, policy, obs, nodes, node, trial);
            && (c.None? ==> step.marks == [] && step.calls == [] && step.outcome != Ok(RecoveredByKnownGood))
            && (c.Some? ==>
                  && step.marks == [Attempted(obs.now, obs.force, trial, c.value)] + tail
                  && obs.latest.Some? && Followed(policy, obs, node, c.value, step.calls, tail)
                  && (step.outcome == Ok(RecoveredByKnownGood) <==> obs.selectOk && obs.confirmed && obs.recordOk))
  {
    var kept := s.(quarantine := KeepQuarantine(s.quarantine, obs.now));
    EligibleAreUntried(s, log, nodes, node, obs.now);
    var untried := Untried(log, nodes, node, obs.now);
    FirstGoodExactly(untried, obs.good, 0);
    hide FirstChoice, Untried, Filter, FirstGood, KeepQuarantine, QuarantineInv, StillChosen, StillApplies, Followed, Settle, NowOf;
    var first := FirstGood(untried, obs.good, 0);
    c, tail := None, [];
    if first.Some? && obs.latest.Some? {
      StillAppliesExactly(obs.latest.value, policy.group, node, first.value);
      if StillApplies(obs.latest.value, policy.group, node, first.value) {
        var tried := kept.(switchHistory := kept.switchHistory + [obs.now], switchedAt := obs.now);
        SettleExactly(tried, policy, obs, node, first.value, trial);
        c := first;
        tail := Settle(tried, policy.group, obs, NowOf(obs.latest.value, policy.group), node, first.value, trial).marks;
      }
    }
  }

  // ---- from the observation of the node on ----

  /** A decision is the observation, and then an attempt or nothing. */
  lemma DecideParts(s: State, policy: Policy, obs: Observation, nodes: seq<string>, node: string)
    ensures var healthy := obs.probe.Healthy?;
            var judged := Judge(s, obs.now, healthy);
            var trial := healthy && StreamFailurePersisted(judged, obs.now);
            var gated := Gate(judged, obs.now, obs.force, trial);
            var inner := Attempt(gated.0, policy, obs, nodes, node, trial);
            var step := Decide(s, policy, obs, nodes, node);
            if (!healthy || trial) && gated.1.None? then
              && healthy == trial && step.marks == [Probed(obs.now, node, healthy)] + inner.marks
              && step.calls == inner.calls && step.outcome == inner.outcome
            else step.marks == [Probed(obs.now, node, healthy)] && step.calls == [] && step.outcome != Ok(RecoveredByKnownGood)
  {
    hide Judge, StreamFailurePersisted, EvidenceTooWeak, Cooling, PruneHistory, Attempt;
  }

  /** What has been logged when the gates are asked, and what they answer. */
  lemma GatedExactly(s: State, log: seq<Mark>, obs: Observation, node: string)
    requires Inv(s, log, obs.now) && ActiveNode(log) == Some(node)
    ensures var healthy := obs.probe.Healthy?;
            var judged, seen := Judge(s, obs.now, healthy), log + [Probed(obs.now, node, healthy)];
            var trial := healthy && StreamFailurePersisted(judged, obs.now);
            var gated := Gate(judged, obs.now, obs.force, trial);
            && QuarantineInv(gated.0.quarantine, seen, obs.now)
            && ((!healthy || trial) && gated.1.None?
                <==> Allowed(seen, obs))
  {
    var now, healthy := obs.now, obs.probe.Healthy?;
    var judged, m := Judge(s, now, healthy), Probed(now, node, healthy);
    JudgeKeeps(s, log, now, node, healthy);
    Appended(log, m);
    GateExactly(judged, log + [m], obs, node);
    GateKeeps(judged, log + [m], now, obs.force, healthy && StreamFailurePersisted(judged, now));
    hide Judge, Gate, StreamFailurePersisted, Allowed, QuarantineInv;
  }

  lemma PassedDecides(log: seq<Mark>, policy: Policy, obs: Observation, nodes: seq<string>, node: string,
                      marks: seq<Mark>, calls: seq<Call>, c: Option<string>, tail: seq<Mark>)
    requires Allowed(log + [Probed(obs.now, node, obs.probe.Healthy?)], obs)
    requires forall d :: Open(log + [Probed(obs.now, node, obs.probe.Healthy?)], policy, obs, nodes, node, d) <==> c == Some(d)
    requires c.None? ==> marks == [] && calls == []
    requires c.Some? ==>
               && marks == [Attempted(obs.now, obs.force, obs.probe.Healthy?, c.value)] + tail
               && obs.latest.Some? && Followed(policy, obs, node, c.value, calls, tail)
    ensures Decided(log, policy, obs, nodes, node, [Probed(obs.now, node, obs.probe.Healthy?)] + marks, calls, c, tail)
  {
    hide Allowed, Open, Followed;
    var m := Probed(obs.now, node, obs.probe.Healthy?);
    assert [m] + [] == [m];
    if c.Some? {
      var a := Attempted(obs.now, obs.force, obs.probe.Healthy?, c.value);
      assert [m] + ([a] + tail) == [m] + [a] + tail;
    }
  }

  lemma BlockedDecides(log: seq<Mark>, policy: Policy, obs: Observation, nodes: seq<string>, node: string)
    requires !Allowed(log + [Probed(obs.now, node, obs.probe.Healthy?)], obs)
    ensures Decided(log, policy, obs, nodes, node, [Probed(obs.now, node, obs.probe.Healthy?)], [], None, [])
  {
    hide Allowed, Open, Followed;
  }

  lemma DecideExactly(s: State, log: seq<Mark>, policy: Policy, obs: Observation, nodes: seq<string>, node: string)
    returns (c: Option<string>, tail: seq<Mark>)
    requires Inv(s, log, obs.now) && ActiveNode(log) == Some(node)
    ensures var step := Decide(s, policy, obs, nodes, node);
            && Decided(log, policy, obs, nodes, node, step.marks, step.calls, c, tail)
            && (step.outcome == Ok(RecoveredByKnownGood) <==> c.Some? && obs.selectOk && obs.confirmed && obs.recordOk)
  {
    GatedExactly(s, log, obs, node);
    DecideParts(s, policy, obs, nodes, node);
    hide Inv, ActiveNode, Judge, Gate, StreamFailurePersisted, Attempt, Decide, Allowed, Decided, Open, Followed, QuarantineInv;
    var now, healthy := obs.now, obs.probe.Healthy?;
    var judged, seen := Judge(s, now, healthy), log + [Probed(now, node, healthy)];
    var trial := healthy && StreamFailurePersisted(judged, now);
    var gated := Gate(judged, now, obs.force, trial);
    if (!healthy || trial) && gated.1.None? {
      c, tail := AttemptExactly(gated.0, seen, policy, obs, nodes, node, trial);
      var inner := Attempt(gated.0, policy, obs, nodes, node, trial);
      PassedDecides(log, policy, obs, nodes, node, inner.marks, inner.calls, c, tail);
    } else {
      c, tail := None, [];
      BlockedDecides(log, policy, obs, nodes, node);
    }
  }

  // ---- one tick of a run ----

  /** The time of the last tick that was not turned away, or zero. */
  ghost function LastCheck(inputs: seq<Observation>): nat {
    if inputs == [] then 0
    else
      var earlier, obs := LastCheck(inputs[..|inputs| - 1]), inputs[|inputs| - 1];
      if Checks(earlier, obs) then obs.now else earlier
  }

  /** The lock is free, the state readable, and the last check 59 seconds ago, or the tick forced. */
  ghost predicate Checks(lastCheck: nat, obs: Observation) {
    !obs.lockBusy && obs.readable && (obs.force || obs.now < lastCheck || lastCheck + 59 <= obs.now)
  }

  /** The core is in global mode, on the policy group, and the generated group has members. */
  ghost predicate InScope(policy: Policy, obs: Observation) {
    && obs.mode == Some(Some("global")) && obs.proxies.Some?
    && var p := obs.proxies.value;
       && "GLOBAL" in p && p["GLOBAL"].now == Some(policy.group)
       && policy.group in p && policy.group + " Auto" in p && p[policy.group + " Auto"].all != []
  }

  /** A change of the selection is adopted before the tick hears the log. */
  ghost function Adoptions(log: seq<Mark>, now: nat, node: Option<string>): seq<Mark> {
    if ActiveNode(log) == node then [] else [Adopted(now, node)]
  }

  ghost predicate AllSignals(marks: seq<Mark>) {
    forall m :: m in marks ==> m.Signal?
  }

  /** All that a tick in scope does: adopt a change, hear signals, observe the node, decide. */
  ghost predicate TickDone(log: seq<Mark>, policy: Policy, obs: Observation, marks: seq<Mark>, calls: seq<Call>,
                           heard: seq<Mark>, c: Option<string>, tail: seq<Mark>)
    requires InScope(policy, obs)
  {
    var p := obs.proxies.value;
    var nodes, node := p[policy.group + " Auto"].all, SelectedLeaf(p, policy.group);
    var before := Adoptions(log, obs.now, node) + heard;
    && AllSignals(heard)
    && (if node.None? || obs.probe.Unavailable? || obs.probe.ClientInitialization? then
          marks == before && calls == [] && c.None?
        else
          && |before| <= |marks| && marks[..|before|] == before
          && Decided(log + before, policy, obs, nodes, node.value, marks[|before|..], calls, c, tail))
  }

  lemma AdoptionExactly(s: State, log: seq<Mark>, now: nat, node: Option<string>)
    requires Inv(s, log, now)
    ensures Adoption(s, now, node) == Adoptions(log, now, node)
  {
    assert s.activeNode == ActiveNode(log);
  }

  /** What has been logged when the node is judged, and the agreement that holds then. */
  lemma ListenedKeeps(s: State, log: seq<Mark>, policy: Policy, obs: Observation, node: Option<string>)
    requires Inv(s, log, obs.now)
    ensures var observed := Observe(s, obs.now, node);
            var heard := Heard(observed, policy, obs.log, obs.now);
            var before := Adoptions(log, obs.now, node) + heard;
            && Adoption(s, obs.now, node) == Adoptions(log, obs.now, node) && AllSignals(heard)
            && Inv(Listen(observed, policy, obs.log, obs.now), log + before, obs.now)
            && ActiveNode(log + before) == node
  {
    hide Inv, Listen, Observe, Heard, ActiveNode, Adoption, Adoptions;
    AdoptionExactly(s, log, obs.now, node);
    var adoption, observed := Adoption(s, obs.now, node), Observe(s, obs.now, node);
    ObserveKeeps(s, log, obs.now, node);
    var heard := Heard(observed, policy, obs.log, obs.now);
    HeardSignals(observed, policy, obs.log, obs.now);
    ListenKeeps(observed, log + adoption, policy, obs.log, obs.now);
    assert (log + adoption) + heard == log + (adoption + heard);
  }

  lemma ExamineExactly(s: State, log: seq<Mark>, policy: Policy, obs: Observation)
    returns (heard: seq<Mark>, c: Option<string>, tail: seq<Mark>)
    requires Inv(s, log, obs.now) && InScope(policy, obs)
    ensures var p := obs.proxies.value;
            var step := Examine(s, policy, obs, p[policy.group + " Auto"].all, SelectedLeaf(p, policy.group));
            && TickDone(log, policy, obs, step.marks, step.calls, heard, c, tail)
            && (step.outcome == Ok(RecoveredByKnownGood) <==> c.Some? && obs.selectOk && obs.confirmed && obs.recordOk)
  {
    var p := obs.proxies.value;
    var nodes, node := p[policy.group + " Auto"].all, SelectedLeaf(p, policy.group);
    ListenedKeeps(s, log, policy, obs, node);
    hide Inv, Decide, Listen, Observe, Heard, SelectedLeaf, ActiveNode, Decided, Adoptions, AllSignals, Adoption;
    var observed := Observe(s, obs.now, node);
    heard := Heard(observed, policy, obs.log, obs.now);
    var before := Adoptions(log, obs.now, node) + heard;
    c, tail := None, [];
    if node.Some? && Usable(obs.probe) {
      var listened := Listen(observed, policy, obs.log, obs.now);
      c, tail := DecideExactly(listened, log + before, policy, obs, nodes, node.value);
      var rest := Decide(listened, policy, obs, nodes, node.value).marks;
      assert (before + rest)[..|before|] == before && (before + rest)[|before|..] == rest;
    }
  }

  lemma RecoverExactly(s: State, log: seq<Mark>, policy: Policy, obs: Observation)
    returns (heard: seq<Mark>, c: Option<string>, tail: seq<Mark>)
    requires Inv(s, log, obs.now)
    ensures var step := Recover(s, policy, obs);
            if InScope(policy, obs) then
              && TickDone(log, policy, obs, step.marks, step.calls, heard, c, tail)
              && (step.outcome == Ok(RecoveredByKnownGood) <==> c.Some? && obs.selectOk && obs.confirmed && obs.recordOk)
            else step.marks == [] && step.calls == [] && step.outcome != Ok(RecoveredByKnownGood)
  {
    hide Inv, Examine, SelectedLeaf, TickDone;
    heard, c, tail := [], None, [];
    if InScope(policy, obs) {
      heard, c, tail := ExamineExactly(s, log, policy, obs);
    }
  }

  lemma {:induction false} LastCheckStored(profile: string, policy: Policy, inputs: seq<Observation>)
    requires Faithful(inputs)
    ensures Run(profile, policy, inputs).disk.checkedAt == LastCheck(inputs)
  {
    if inputs != [] {
      var init, obs := inputs[..|inputs| - 1], inputs[|inputs| - 1];
      LastCheckStored(profile, policy, init);
      RunKeeps(profile, policy, init);
      var disk := Run(profile, policy, init).disk;
      RecoverScope(disk.(profile := profile, group := policy.group, checkedAt := obs.now), policy, obs);
      hide Recover, Inv;
    }
  }

  /**
   The law of one tick after any run: turned away or out of scope it does nothing; in scope it
   adopts a changed selection, hears the log, observes the current node, and makes an attempt if
   and only if one is due, at the candidate that is due.
   */
  lemma TickExactly(profile: string, policy: Policy, inputs: seq<Observation>, obs: Observation)
    returns (heard: seq<Mark>, c: Option<string>, tail: seq<Mark>)
    requires Faithful(inputs + [obs])
    ensures var w := Run(profile, policy, inputs);
            var step := Tick(w.disk, profile, policy, obs);
            if Checks(LastCheck(inputs), obs) && InScope(policy, obs) then
              && TickDone(w.log, policy, obs, step.marks, step.calls, heard, c, tail)
              && (step.outcome == Ok(RecoveredByKnownGood) <==>
                    c.Some? && obs.selectOk && obs.confirmed && obs.recordOk && obs.saved.Complete?)
            else step.marks == [] && step.calls == [] && step.outcome != Ok(RecoveredByKnownGood)
  {
    var all := inputs + [obs];
    assert all[|inputs|] == obs && (forall i :: 0 <= i < |inputs| ==> all[i] == inputs[i]);
    FaithfulPrefix(inputs, all);
    RunKeeps(profile, policy, inputs);
    LastCheckStored(profile, policy, inputs);
    var w := Run(profile, policy, inputs);
    assert w.clock <= obs.now;
    hide Run, Recover, TickDone, InScope;
    ClockForward(w.disk, w.log, w.clock, obs.now);
    var started := w.disk.(profile := profile, group := policy.group, checkedAt := obs.now);
    Untracked(w.disk, started, w.log, obs.now);
    hide Inv;
    heard, c, tail := RecoverExactly(started, w.log, policy, obs);
  }
}
