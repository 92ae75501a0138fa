/**
 Properties of every run of the recovery machine: any sequence of ticks of one profile and
 group, from no saved state, with a clock that does not go back and saves that reach the disk.
 The bounded saved state is shown to agree with the unbounded log of marks.
 */
module RecoveryRuns {
  import opened Wrappers
  import opened Sequences
  import opened Names
  import opened PointerWalk
  import opened LogScan
  import opened Recovery

  // ---- runs ----

  datatype World = World(disk: State, log: seq<Mark>, clock: nat)

  ghost predicate Faithful(inputs: seq<Observation>) {
    && (forall i :: 0 <= i < |inputs| ==> inputs[i].saved != Failed(false))
    && (forall i, j :: 0 <= i < j < |inputs| ==> inputs[i].now <= inputs[j].now)
  }

  ghost function Run(profile: string, policy: Policy, inputs: seq<Observation>): World {
    if inputs == [] then World(Initial("", ""), [], 0)
    else
      var w := Run(profile, policy, inputs[..|inputs| - 1]);
      var obs := inputs[|inputs| - 1];
      var step := Tick(w.disk, profile, policy, obs);
      World(step.state, w.log + step.marks, obs.now)
  }

  // ---- what the unbounded log says ----

  /**
   A fold of the whole log: the times of all attempts, the node adopted last, the times of
   the unhealthy observations since the last healthy one or the last adoption, and the
   signal episode since the last adoption (its count is not used here).
   */
  datatype Digest = Digest(times: seq<nat>, active: Option<string>, streak: seq<nat>, episode: Episode)

  ghost function AddMark(d: Digest, m: Mark): Digest {
    match m
    case Adopted(_, node) => d.(active := node, streak := [], episode := Episode(0, 0, 0))
    case Signal(ts) =>
      d.(episode := if StartsEpisode(d.episode, ts) then Episode(ts, ts, 0) else d.episode.(last := ts))
    case Probed(at, _, healthy) => d.(streak := if healthy then [] else d.streak + [at])
    case Attempted(at, _, _, _) => d.(times := d.times + [at])
    case Quarantined(_, _) => d
  }

  ghost function DigestOf(log: seq<Mark>): Digest {
    if log == [] then Digest([], None, [], Episode(0, 0, 0))
    else AddMark(DigestOf(log[..|log| - 1]), log[|log| - 1])
  }

  ghost function AttemptTimes(log: seq<Mark>): seq<nat> { DigestOf(log).times }

  ghost function ActiveNode(log: seq<Mark>): Option<string> { DigestOf(log).active }

  ghost function Streak(log: seq<Mark>): seq<nat> { DigestOf(log).streak }

  lemma Appended(log: seq<Mark>, m: Mark)
    ensures DigestOf(log + [m]) == AddMark(DigestOf(log), m)
  {
    assert (log + [m])[..|log|] == log;
  }

  // ---- what a switch attempt must rest on ----

  /**
   At least two unhealthy observations of one node, the newest at `now`, the oldest a minute
   earlier, with no healthy observation and no adoption since the oldest.
   */
  ghost predicate ProbeEvidence(log: seq<Mark>, now: nat) {
    exists i, j, n, since: nat ::
      && 0 <= i < j < |log| && since + 60 <= now
      && log[i] == Probed(since, n, false) && log[j] == Probed(now, n, false)
      && UnhealthyOnly(log, i, n)
  }

  ghost predicate UnhealthyOnly(log: seq<Mark>, from: int, n: string)
    requires 0 <= from <= |log|
  {
    forall m :: from <= m < |log| ==> !log[m].Adopted? && (log[m].Probed? ==> !log[m].healthy && log[m].node == n)
  }

  ghost function SignalTimes(log: seq<Mark>): seq<nat> {
    if log == [] then []
    else
      var last := log[|log| - 1];
      SignalTimes(log[..|log| - 1]) + (if last.Signal? then [last.ts] else [])
  }

  /** Nondecreasing times with gaps of at most a minute. */
  ghost predicate Chain(times: seq<nat>) {
    forall q :: 0 <= q < |times| - 1 ==> times[q] <= times[q + 1] <= times[q] + 60
  }

  /**
   The signals consumed from position `from` on, all since the last adoption, form one recent
   chain. It does not begin at time zero, the value that stands for "no episode".
   */
  ghost predicate StreamEvidence(log: seq<Mark>, now: nat) {
    exists from :: 0 <= from <= |log| && ChainFrom(log, from)
      && var times := SignalTimes(log[from..]);
         && |times| > 0 && times[0] != 0
         && times[0] + 60 <= times[|times| - 1]
         && times[|times| - 1] <= now <= times[|times| - 1] + 60
  }

  ghost predicate ChainFrom(log: seq<Mark>, from: int)
    requires 0 <= from <= |log|
  {
    && (forall m :: from <= m < |log| ==> !log[m].Adopted?)
    && Chain(SignalTimes(log[from..]))
  }

  /** Everything promised about the attempt at position k, in terms of the log before it. */
  ghost predicate GoodAttempt(log: seq<Mark>, k: int)
    requires 0 <= k < |log| && log[k].Attempted?
  {
    var a := log[k];
    && (forall i :: 0 <= i < k && log[i].Attempted? ==> log[i].at <= a.at)
    && (!a.forced ==> forall i, j :: 0 <= i < j < k && log[i].Attempted? && log[j].Attempted?
                        ==> log[i].at + 3600 <= a.at)
    && (!a.forced ==> forall i :: 0 <= i < k && log[i].Attempted? && log[i].at != 0
                        ==> log[i].at + 300 <= a.at)
    && (forall i :: 0 <= i < k && log[i].Quarantined? && log[i].left == a.candidate ==> log[i].at + 1800 <= a.at)
    && (!a.forced && !a.trial ==> ProbeEvidence(log[..k], a.at))
    && (a.trial ==> StreamEvidence(log[..k], a.at))
  }

  ghost predicate GoodMark(log: seq<Mark>, k: int)
    requires 0 <= k < |log|
  {
    && (log[k].Attempted? ==> GoodAttempt(log, k))
    && (log[k].Probed? ==> ActiveNode(log[..k]) == Some(log[k].node))
  }

  ghost predicate GoodLog(log: seq<Mark>) {
    forall k :: 0 <= k < |log| ==> GoodMark(log, k)
  }

  lemma LeftAppend(log: seq<Mark>, m: Mark)
    ensures forall n, until :: LeftUntil(log, n, until) ==> LeftUntil(log + [m], n, until)
    ensures m.Quarantined? ==> LeftUntil(log + [m], m.left, m.at + QUARANTINE_SECONDS)
  {
    forall n, until | LeftUntil(log, n, until) ensures LeftUntil(log + [m], n, until) {
      var i :| 0 <= i < |log| && log[i].Quarantined? && log[i].left == n && until == log[i].at + QUARANTINE_SECONDS;
      assert (log + [m])[i] == log[i];
    }
    assert (log + [m])[|log|] == m;
  }

  lemma GoodLogAppend(log: seq<Mark>, m: Mark)
    requires GoodLog(log) && GoodMark(log + [m], |log|)
    ensures GoodLog(log + [m])
    ensures forall n, until :: LeftUntil(log, n, until) ==> LeftUntil(log + [m], n, until)
    ensures m.Quarantined? ==> LeftUntil(log + [m], m.left, m.at + QUARANTINE_SECONDS)
  {
    LeftAppend(log, m);
    var longer := log + [m];
    forall k | 0 <= k < |longer| ensures GoodMark(longer, k) {
      if k < |log| {
        assert GoodMark(log, k);
        assert longer[..k] == log[..k];
      }
    }
  }

  // ---- the invariant ----

  /** Two histories that no window ending at `clock` or later can tell apart. */
  ghost predicate SameRecent(a: seq<nat>, b: seq<nat>, clock: nat) {
    forall t: nat :: t >= clock ==> Filter(a, Recent(t)) == Filter(b, Recent(t))
  }

  /** Times that never go back, up to `clock`. */
  ghost predicate InOrder(times: seq<nat>, clock: nat) {
    && (forall i, j :: 0 <= i < j < |times| ==> times[i] <= times[j])
    && (forall i :: 0 <= i < |times| ==> times[i] <= clock)
  }

  /** Every saved counter, bound and time is the one the whole log determines. */
  ghost predicate Agrees(s: State, d: Digest, clock: nat) {
    && (forall at :: at in d.times ==> at <= clock)
    && InOrder(d.streak, clock)
    && SameRecent(s.switchHistory, d.times, clock)
    && (forall at :: at in SwitchTimes(s.events) ==> at in d.times)
    && s.switchedAt == (if d.times == [] then 0 else d.times[|d.times| - 1])
    && s.activeNode == d.active
    && s.failures == Min(|d.streak|, U32_MAX)
    && s.failureSince == (if d.streak == [] then None else Some(d.streak[0]))
    && s.feedbackFirst == d.episode.first
    && s.feedbackLast == d.episode.last
  }

  /** The node was left, or failed after selection, half an hour before `until`. */
  ghost predicate LeftUntil(log: seq<Mark>, n: string, until: nat) {
    exists i :: 0 <= i < |log| && log[i].Quarantined? && log[i].left == n && until == log[i].at + QUARANTINE_SECONDS
  }

  ghost predicate QuarantineInv(q: map<string, nat>, log: seq<Mark>, clock: nat) {
    && (forall n :: n in q ==> LeftUntil(log, n, q[n]))
    && (forall i :: 0 <= i < |log| && log[i].Quarantined? ==>
          && log[i].at <= clock
          && (clock < log[i].at + QUARANTINE_SECONDS ==>
                log[i].left in q && q[log[i].left] >= log[i].at + QUARANTINE_SECONDS))
  }

  ghost predicate Inv(s: State, log: seq<Mark>, clock: nat) {
    Agrees(s, DigestOf(log), clock) && QuarantineInv(s.quarantine, log, clock) && GoodLog(log)
  }

  lemma ClockForward(s: State, log: seq<Mark>, clock: nat, now: nat)
    requires Inv(s, log, clock) && clock <= now
    ensures Inv(s, log, now)
  {
  }

  // ---- each stage keeps it ----

  lemma SwitchTimesShrink(events: seq<Event>)
    requires events != []
    ensures forall at :: at in SwitchTimes(events[1..]) ==> at in SwitchTimes(events)
  {
    if |events| > 1 {
      var init := events[..|events| - 1];
      SwitchTimesShrink(init);
      assert events[1..][..|events| - 2] == init[1..];
    }
  }

  lemma RecordTimes(s: State, now: nat, reason: Reason, to: Option<string>)
    ensures forall at :: at in SwitchTimes(Record(s, now, reason, to).events) ==>
              at in SwitchTimes(s.events) || (at == now && (reason.StreamSwitch? || reason.ProbeFailover?))
  {
    var grown := s.events + [Event(now, reason, s.activeNode, to)];
    assert grown[..|s.events|] == s.events;
    SwitchTimesShrink(grown);
  }

  lemma RecordKeeps(s: State, log: seq<Mark>, now: nat, reason: Reason, to: Option<string>)
    requires Inv(s, log, now)
    requires reason.StreamSwitch? || reason.ProbeFailover? ==> now in AttemptTimes(log)
    ensures Inv(Record(s, now, reason, to), log, now)
  {
    RecordTimes(s, now, reason, to);
  }

  lemma ObserveKeeps(s: State, log: seq<Mark>, now: nat, node: Option<string>)
    requires Inv(s, log, now)
    ensures Inv(Observe(s, now, node), log + Adoption(s, now, node), now)
    ensures ActiveNode(log + Adoption(s, now, node)) == node
  {
    hide Record, SwitchTimes, Filter;
    if node == s.activeNode {
      assert log + [] == log;
    } else {
      RecordKeeps(s, log, now, SelectionChange, node);
      Appended(log, Adopted(now, node));
      GoodLogAppend(log, Adopted(now, node));
    }
  }

  /** A mark other than an attempt, a quarantine or a probe leaves history, quarantine and log sound. */
  lemma SignalKeeps(s: State, log: seq<Mark>, now: nat, ts: nat)
    requires Inv(s, log, now)
    ensures var e := DigestOf(log + [Signal(ts)]).episode;
            Inv(s.(feedbackFirst := e.first, feedbackLast := e.last), log + [Signal(ts)], now)
    ensures ActiveNode(log + [Signal(ts)]) == ActiveNode(log)
  {
    Appended(log, Signal(ts));
    GoodLogAppend(log, Signal(ts));
  }

  lemma {:induction false} SignalsKeep(s: State, log: seq<Mark>, now: nat, acc: Acc, rows: seq<Row>)
    requires Inv(s, log, now)
    requires acc.episode.first == s.feedbackFirst && acc.episode.last == s.feedbackLast
    ensures var e := Absorb(acc, rows).episode;
            Inv(s.(feedbackFirst := e.first, feedbackLast := e.last), log + Signals(rows), now)
    ensures ActiveNode(log + Signals(rows)) == ActiveNode(log)
  {
    if rows == [] {
      assert log + [] == log;
      assert s.(feedbackFirst := s.feedbackFirst, feedbackLast := s.feedbackLast) == s;
    } else {
      var init, row := rows[..|rows| - 1], rows[|rows| - 1];
      SignalsKeep(s, log, now, acc, init);
      var e := Absorb(acc, init).episode;
      var mid := s.(feedbackFirst := e.first, feedbackLast := e.last);
      var heard := log + Signals(init);
      if row.signal {
        SignalKeeps(mid, heard, now, row.ts);
        Appended(heard, Signal(row.ts));
        assert heard + [Signal(row.ts)] == log + Signals(rows);
      } else {
        assert Signals(init) + [] == Signals(init);
      }
    }
  }

  /** The fields the invariant speaks about. */
  ghost predicate SameTracked(a: State, b: State) {
    && a.switchHistory == b.switchHistory && a.events == b.events && a.switchedAt == b.switchedAt
    && a.activeNode == b.activeNode && a.failures == b.failures && a.failureSince == b.failureSince
    && a.feedbackFirst == b.feedbackFirst && a.feedbackLast == b.feedbackLast && a.quarantine == b.quarantine
  }

  lemma Untracked(a: State, b: State, log: seq<Mark>, clock: nat)
    requires Inv(a, log, clock) && SameTracked(a, b)
    ensures Inv(b, log, clock)
  {
  }

  lemma ListenKeeps(s: State, log: seq<Mark>, policy: Policy, view: Option<LogView>, now: nat)
    requires Inv(s, log, now)
    ensures Inv(Listen(s, policy, view, now), log + Heard(s, policy, view, now), now)
    ensures ActiveNode(log + Heard(s, policy, view, now)) == ActiveNode(log)
  {
    hide Inv;
    if !policy.watchesLog || view.None? {
      assert log + [] == log;
    } else {
      var scan := ScanLog(ReaderOf(s), view.value, Since(s, now));
      var e := Absorb(Acc(ReaderOf(s).episode, 0), scan.consumed).episode;
      SignalsKeep(s, log, now, Acc(ReaderOf(s).episode, 0), scan.consumed);
      ScanEpisode(ReaderOf(s), view.value, Since(s, now));
      Untracked(s.(feedbackFirst := e.first, feedbackLast := e.last), Listen(s, policy, view, now),
                log + Signals(scan.consumed), now);
    }
  }

  lemma ScanEpisode(r: Reader, view: LogView, since: nat)
    ensures var scan := ScanLog(r, view, since);
            scan.reader.episode == Absorb(Acc(r.episode, 0), scan.consumed).episode
  {
  }

  lemma JudgeKeeps(s: State, log: seq<Mark>, now: nat, node: string, healthy: bool)
    requires Inv(s, log, now) && ActiveNode(log) == Some(node)
    ensures Inv(Judge(s, now, healthy), log + [Probed(now, node, healthy)], now)
  {
    var longer := log + [Probed(now, node, healthy)];
    Appended(log, Probed(now, node, healthy));
    assert longer[..|log|] == log;
    GoodLogAppend(log, Probed(now, node, healthy));
  }

  /** After migration and pruning the history is exactly the recent part of the unbounded log. */
  lemma PruneExact(s: State, log: seq<Mark>, now: nat)
    requires Agrees(s, DigestOf(log), now)
    ensures PruneHistory(s, now).switchHistory == Filter(AttemptTimes(log), Recent(now))
    ensures Agrees(PruneHistory(s, now), DigestOf(log), now)
  {
    var times := AttemptTimes(log);
    if s.switchHistory == [] {
      assert Filter(times, Recent(now)) == Filter(s.switchHistory, Recent(now)) == [];
      FilterMembers(times, Recent(now));
      forall at | at in SwitchTimes(s.events) ensures !Recent(now)(at) {
        assert at in times && at !in Filter(times, Recent(now));
      }
      FilterNone(SwitchTimes(s.events), Recent(now));
    }
    forall t: nat | t >= now
      ensures Filter(Filter(times, Recent(now)), Recent(t)) == Filter(times, Recent(t))
    {
      FilterTwice(times, Recent(now), Recent(t));
    }
  }

  lemma {:induction false} FilterNone<T(!new)>(s: seq<T>, keep: T -> bool)
    requires forall x :: x in s ==> !keep(x)
    ensures Filter(s, keep) == []
  {
    if s != [] {
      assert s == s[..|s| - 1] + [s[|s| - 1]];
      FilterNone(s[..|s| - 1], keep);
    }
  }

  /** Two recent attempts in the log are two entries of its recent part. */
  lemma {:induction false} TwoRecent(log: seq<Mark>, now: nat, i: int, j: int)
    requires 0 <= i < j < |log| && log[i].Attempted? && log[j].Attempted?
    requires Recent(now)(log[i].at) && Recent(now)(log[j].at)
    ensures |Filter(AttemptTimes(log), Recent(now))| >= 2
  {
    var init, last := log[..|log| - 1], log[|log| - 1];
    var times := AttemptTimes(init);
    if last.Attempted? {
      FilterAppend(times, last.at, Recent(now));
    } else {
      assert times + [] == times;
    }
    if j == |log| - 1 {
      AttemptListed(init, i);
      FilterMembers(times, Recent(now));
      assert log[i].at in Filter(times, Recent(now));
    } else {
      TwoRecent(init, now, i, j);
    }
  }

  lemma {:induction false} AttemptListed(log: seq<Mark>, i: int)
    requires 0 <= i < |log| && log[i].Attempted?
    ensures log[i].at in AttemptTimes(log)
  {
    if i < |log| - 1 {
      AttemptListed(log[..|log| - 1], i);
    }
  }

  /** Attempts in a good log are in order of time, so the newest is the last one listed. */
  lemma {:induction false} AttemptsInOrder(log: seq<Mark>, i: int)
    requires GoodLog(log) && 0 <= i < |log| && log[i].Attempted?
    ensures AttemptTimes(log) != [] && log[i].at <= AttemptTimes(log)[|AttemptTimes(log)| - 1]
  {
    var init, last := log[..|log| - 1], log[|log| - 1];
    if i < |init| {
      forall k | 0 <= k < |init| ensures GoodMark(init, k) {
        assert GoodMark(log, k) && init[..k] == log[..k];
      }
      AttemptsInOrder(init, i);
      if last.Attempted? {
        assert GoodMark(log, |log| - 1);
      }
    }
  }

  /** The streak of a good log is made of unhealthy observations of the active node. */
  lemma {:induction false} StreakWitness(log: seq<Mark>, n: string) returns (i: int, j: int)
    requires GoodLog(log) && |Streak(log)| > 0 && ActiveNode(log) == Some(n)
    ensures 0 <= i <= j < |log|
    ensures log[i] == Probed(Streak(log)[0], n, false)
    ensures log[j] == Probed(Streak(log)[|Streak(log)| - 1], n, false)
    ensures |Streak(log)| > 1 ==> i < j
    ensures UnhealthyOnly(log, i, n)
  {
    var init, last := log[..|log| - 1], log[|log| - 1];
    forall k | 0 <= k < |init| ensures GoodMark(init, k) {
      assert GoodMark(log, k) && init[..k] == log[..k];
    }
    assert GoodMark(log, |log| - 1);
    if last.Probed? && |Streak(init)| == 0 {
      i, j := |log| - 1, |log| - 1;
    } else {
      i, j := StreakWitness(init, n);
      assert UnhealthyOnly(init, i, n);
      if last.Probed? {
        j := |log| - 1;
      }
    }
  }

  /** The episode of a log is a chain of the signals consumed since the last adoption. */
  lemma {:induction false} EpisodeWitness(log: seq<Mark>) returns (from: int)
    requires DigestOf(log).episode.first != 0
    ensures 0 <= from <= |log| && ChainFrom(log, from)
    ensures var times := SignalTimes(log[from..]);
            |times| > 0 && times[0] == DigestOf(log).episode.first && times[|times| - 1] == DigestOf(log).episode.last
  {
    var init, last := log[..|log| - 1], log[|log| - 1];
    if last.Signal? && StartsEpisode(DigestOf(init).episode, last.ts) {
      from := |log| - 1;
      assert log[from..] == [last];
      assert SignalTimes([last]) == SignalTimes([]) + [last.ts];
    } else {
      from := EpisodeWitness(init);
      ChainGrows(log, from);
    }
  }

  /** A chain goes on when the next signal continues the episode, and is untouched by other marks. */
  lemma ChainGrows(log: seq<Mark>, from: int)
    requires |log| > 0 && 0 <= from < |log| && ChainFrom(log[..|log| - 1], from) && !log[|log| - 1].Adopted?
    requires var times, last := SignalTimes(log[..|log| - 1][from..]), log[|log| - 1];
      |times| > 0 && (last.Signal? ==> times[|times| - 1] <= last.ts <= times[|times| - 1] + FAILURE_DURATION)
    ensures ChainFrom(log, from)
    ensures SignalTimes(log[from..])
         == SignalTimes(log[..|log| - 1][from..]) + (if log[|log| - 1].Signal? then [log[|log| - 1].ts] else [])
  {
    var init, last := log[..|log| - 1], log[|log| - 1];
    assert log[from..] == init[from..] + [last];
    assert log[from..][..|log[from..]| - 1] == init[from..];
  }

  // ---- gates, attempt, tick ----

  lemma GateKeeps(s: State, log: seq<Mark>, now: nat, force: bool, trial: bool)
    requires Inv(s, log, now)
    ensures Inv(Gate(s, now, force, trial).0, log, now)
  {
    PruneExact(s, log, now);
  }

  /** Room in the budget: the second attempt before now is an hour old. */
  lemma BudgetGrants(s: State, log: seq<Mark>, now: nat, i: int, j: int)
    requires Inv(s, log, now) && |PruneHistory(s, now).switchHistory| < MAX_AUTOMATIC_SWITCHES
    requires 0 <= i < j < |log| && log[i].Attempted? && log[j].Attempted?
    ensures log[i].at + SWITCH_WINDOW <= now
  {
    PruneExact(s, log, now);
    AttemptListed(log, i);
    AttemptListed(log, j);
    assert GoodMark(log, j);
    if now < log[i].at + SWITCH_WINDOW {
      TwoRecent(log, now, i, j);
    }
  }

  /** No cooldown: every attempt before now is five minutes old, but for the clock reading zero. */
  lemma CooldownGrants(s: State, log: seq<Mark>, now: nat, i: int)
    requires Inv(s, log, now) && !Cooling(s, now)
    requires 0 <= i < |log| && log[i].Attempted? && log[i].at != 0
    ensures log[i].at + SWITCH_COOLDOWN <= now
  {
    AttemptsInOrder(log, i);
    assert AttemptTimes(log)[|AttemptTimes(log)| - 1] in AttemptTimes(log);
  }

  /** The streak is evidence for a probe failover. */
  lemma StreakGrants(s: State, log: seq<Mark>, now: nat, node: string)
    requires Inv(s, log, now) && ActiveNode(log) == Some(node) && !EvidenceTooWeak(s, now)
    requires Streak(log) != [] && Streak(log)[|Streak(log)| - 1] == now
    ensures ProbeEvidence(log, now)
  {
    var i, j := StreakWitness(log, node);
  }

  /** The episode is evidence for a stream trial. */
  lemma EpisodeGrants(s: State, log: seq<Mark>, now: nat)
    requires Inv(s, log, now) && StreamFailurePersisted(s, now)
    ensures StreamEvidence(log, now)
  {
    var from := EpisodeWitness(log);
  }

  /** Passing the gates gives everything that an attempt promises. */
  lemma GateGrants(s: State, log: seq<Mark>, obs: Observation, node: string, trial: bool, m: Mark)
    requires Inv(s, log, obs.now) && ActiveNode(log) == Some(node)
    requires Gate(s, obs.now, obs.force, trial).1.None?
    requires trial ==> StreamFailurePersisted(s, obs.now)
    requires !trial ==> Streak(log) != [] && Streak(log)[|Streak(log)| - 1] == obs.now
    requires m.Attempted? && m.at == obs.now && m.forced == obs.force && m.trial == trial
    requires m.candidate !in KeepQuarantine(s.quarantine, obs.now)
    ensures GoodMark(log + [m], |log|)
  {
    var now := obs.now;
    var longer := log + [m];
    assert longer[..|log|] == log;
    hide ProbeEvidence, StreamEvidence, StreamFailurePersisted, PruneHistory, Cooling, EvidenceTooWeak, DigestOf;
    forall i | 0 <= i < |log| && log[i].Attempted? ensures log[i].at <= now {
      AttemptListed(log, i);
    }
    if !obs.force {
      forall i, j | 0 <= i < j < |log| && log[i].Attempted? && log[j].Attempted?
        ensures log[i].at + SWITCH_WINDOW <= now
      {
        BudgetGrants(s, log, now, i, j);
      }
      forall i | 0 <= i < |log| && log[i].Attempted? && log[i].at != 0
        ensures log[i].at + SWITCH_COOLDOWN <= now
      {
        CooldownGrants(s, log, now, i);
      }
      if !trial {
        StreakGrants(s, log, now, node);
      }
    }
    if trial {
      EpisodeGrants(s, log, now);
    }
  }

  lemma QuarantineKeeps(s: State, log: seq<Mark>, now: nat)
    requires Inv(s, log, now)
    ensures Inv(s.(quarantine := KeepQuarantine(s.quarantine, now)), log, now)
  {
  }

  lemma TriedKeeps(s: State, log: seq<Mark>, now: nat, m: Mark)
    requires Inv(s, log, now) && m.Attempted? && m.at == now && GoodMark(log + [m], |log|)
    ensures Inv(s.(switchHistory := s.switchHistory + [now], switchedAt := now), log + [m], now)
    ensures now in AttemptTimes(log + [m])
  {
    Appended(log, m);
    GoodLogAppend(log, m);
    forall t: nat | t >= now
      ensures Filter(s.switchHistory + [now], Recent(t)) == Filter(AttemptTimes(log) + [now], Recent(t))
    {
      FilterAppend(s.switchHistory, now, Recent(t));
      FilterAppend(AttemptTimes(log), now, Recent(t));
    }
  }

  lemma LeaveQuarantine(q: map<string, nat>, log: seq<Mark>, now: nat, n: string)
    requires QuarantineInv(q, log, now)
    ensures QuarantineInv(q[n := now + QUARANTINE_SECONDS], log + [Quarantined(now, n)], now)
  {
    LeftAppend(log, Quarantined(now, n));
    hide LeftUntil;
  }

  lemma LeaveKeeps(s: State, log: seq<Mark>, now: nat, n: string)
    requires Inv(s, log, now)
    ensures Inv(s.(quarantine := s.quarantine[n := now + QUARANTINE_SECONDS]), log + [Quarantined(now, n)], now)
  {
    LeaveQuarantine(s.quarantine, log, now, n);
    hide QuarantineInv, LeftUntil;
    Appended(log, Quarantined(now, n));
    GoodLogAppend(log, Quarantined(now, n));
  }

  lemma AdoptingKeeps(s: State, log: seq<Mark>, now: nat, candidate: string, trial: bool)
    requires Inv(s, log, now) && now in AttemptTimes(log)
    ensures Inv(Adopting(s, now, candidate, trial), log + [Adopted(now, Some(candidate))], now)
  {
    hide SwitchTimes, Filter;
    RecordKeeps(s, log, now, if trial then StreamSwitch else ProbeFailover, Some(candidate));
    AttemptTimesBounded(s, log, now);
    Appended(log, Adopted(now, Some(candidate)));
    GoodLogAppend(log, Adopted(now, Some(candidate)));
  }

  /** When an attempt was made at the current time, the last attempt is at the current time. */
  lemma AttemptTimesBounded(s: State, log: seq<Mark>, now: nat)
    requires Inv(s, log, now) && now in AttemptTimes(log)
    ensures s.switchedAt == now
  {
    var i := AttemptPosition(log, now);
    AttemptsInOrder(log, i);
    assert AttemptTimes(log)[|AttemptTimes(log)| - 1] in AttemptTimes(log);
  }

  lemma {:induction false} AttemptPosition(log: seq<Mark>, at: nat) returns (i: int)
    requires at in AttemptTimes(log)
    ensures 0 <= i < |log| && log[i].Attempted? && log[i].at == at
  {
    var init, last := log[..|log| - 1], log[|log| - 1];
    if last.Attempted? && last.at == at {
      i := |log| - 1;
    } else {
      i := AttemptPosition(init, at);
    }
  }

  lemma SettleKeeps(s: State, log: seq<Mark>, group: string, obs: Observation, previous: Option<string>,
                    node: string, candidate: string, trial: bool)
    requires Inv(s, log, obs.now) && obs.now in AttemptTimes(log)
    ensures var step := Settle(s, group, obs, previous, node, candidate, trial);
            Inv(step.state, log + step.marks, obs.now)
  {
    hide Inv;
    assert log + [] == log;
    LeaveKeeps(s, log, obs.now, candidate);
    LeaveKeeps(s, log, obs.now, node);
    var quarantined := log + [Quarantined(obs.now, node)];
    Appended(log, Quarantined(obs.now, node));
    AdoptingKeeps(s.(quarantine := s.quarantine[node := obs.now + QUARANTINE_SECONDS]), quarantined, obs.now, candidate, trial);
    assert quarantined + [Adopted(obs.now, Some(candidate))]
           == log + [Quarantined(obs.now, node), Adopted(obs.now, Some(candidate))];
  }

  lemma {:induction false} FirstGoodMember(eligible: seq<string>, good: set<nat>, from: nat)
    requires FirstGood(eligible, good, from).Some?
    ensures FirstGood(eligible, good, from).value in eligible
    decreases |eligible| - from
  {
    if from !in good {
      FirstGoodMember(eligible, good, from + 1);
    }
  }

  lemma AttemptKeeps(s: State, log: seq<Mark>, policy: Policy, obs: Observation, nodes: seq<string>, node: string, trial: bool)
    requires Inv(s, log, obs.now) && ActiveNode(log) == Some(node)
    requires Gate(s, obs.now, obs.force, trial).1.None? && Gate(s, obs.now, obs.force, trial).0 == s
    requires trial ==> StreamFailurePersisted(s, obs.now)
    requires !trial ==> Streak(log) != [] && Streak(log)[|Streak(log)| - 1] == obs.now
    ensures var step := Attempt(s, policy, obs, nodes, node, trial);
            Inv(step.state, log + step.marks, obs.now)
  {
    hide Inv, Settle, StillApplies, GoodMark, DigestOf, StreamFailurePersisted, Gate, KeepQuarantine;
    assert log + [] == log;
    QuarantineKeeps(s, log, obs.now);
    var kept := s.(quarantine := KeepQuarantine(s.quarantine, obs.now));
    RecordKeeps(kept, log, obs.now, NoCandidate, None);
    var eligible := Filter(nodes, Eligible(node, kept.quarantine));
    var first := FirstGood(eligible, obs.good, 0);
    if first.Some? && obs.latest.Some? && StillApplies(obs.latest.value, policy.group, node, first.value) {
      FirstGoodMember(eligible, obs.good, 0);
      FilterMembers(nodes, Eligible(node, kept.quarantine));
      var m := Attempted(obs.now, obs.force, trial, first.value);
      GateGrants(s, log, obs, node, trial, m);
      TriedKeeps(kept, log, obs.now, m);
      var tried := kept.(switchHistory := kept.switchHistory + [obs.now], switchedAt := obs.now);
      var previous := NowOf(obs.latest.value, policy.group);
      SettleKeeps(tried, log + [m], policy.group, obs, previous, node, first.value, trial);
      var rest := Settle(tried, policy.group, obs, previous, node, first.value, trial).marks;
      assert (log + [m]) + rest == log + ([m] + rest);
    }
  }

  /** Pruning a pruned history changes nothing, so the gate's answer stands afterwards. */
  lemma GateStable(s: State, log: seq<Mark>, now: nat, force: bool, trial: bool)
    requires Inv(s, log, now) && Gate(s, now, force, trial).1.None?
    ensures var g := Gate(s, now, force, trial).0; Gate(g, now, force, trial) == (g, None)
  {
    if !force {
      PruneExact(s, log, now);
      var g := PruneHistory(s, now);
      PruneExact(g, log, now);
      assert PruneHistory(g, now) == g;
    }
  }

  lemma DecideKeeps(s: State, log: seq<Mark>, policy: Policy, obs: Observation, nodes: seq<string>, node: string)
    requires Inv(s, log, obs.now) && ActiveNode(log) == Some(node)
    ensures var step := Decide(s, policy, obs, nodes, node);
            Inv(step.state, log + step.marks, obs.now)
  {
    hide Inv, Attempt;
    var now, healthy := obs.now, obs.probe.Healthy?;
    var judged := Judge(s, now, healthy);
    var m := Probed(now, node, healthy);
    JudgeKeeps(s, log, now, node, healthy);
    Appended(log, m);
    var trial := healthy && StreamFailurePersisted(judged, now);
    GateKeeps(judged, log + [m], now, obs.force, trial);
    var gated := Gate(judged, now, obs.force, trial);
    if (!healthy || trial) && gated.1.None? {
      GateStable(judged, log + [m], now, obs.force, trial);
      AttemptKeeps(gated.0, log + [m], policy, obs, nodes, node, trial);
      var rest := Attempt(gated.0, policy, obs, nodes, node, trial).marks;
      assert (log + [m]) + rest == log + ([m] + rest);
    }
  }

  lemma ExamineKeeps(s: State, log: seq<Mark>, policy: Policy, obs: Observation, nodes: seq<string>, node: Option<string>)
    requires Inv(s, log, obs.now)
    ensures var step := Examine(s, policy, obs, nodes, node);
            Inv(step.state, log + step.marks, obs.now)
  {
    hide Inv, Decide, Listen, Observe, Heard, Adoption;
    var adoption := Adoption(s, obs.now, node);
    ObserveKeeps(s, log, obs.now, node);
    var observed := Observe(s, obs.now, node);
    ListenKeeps(observed, log + adoption, policy, obs.log, obs.now);
    var heard := Heard(observed, policy, obs.log, obs.now);
    assert (log + adoption) + heard == log + (adoption + heard);
    if node.Some? && Usable(obs.probe) {
      var listened := Listen(observed, policy, obs.log, obs.now);
      DecideKeeps(listened, log + (adoption + heard), policy, obs, nodes, node.value);
      var rest := Decide(listened, policy, obs, nodes, node.value).marks;
      assert (log + (adoption + heard)) + rest == log + ((adoption + heard) + rest);
    }
  }

  lemma RecoverKeeps(s: State, log: seq<Mark>, policy: Policy, obs: Observation)
    requires Inv(s, log, obs.now)
    ensures var step := Recover(s, policy, obs);
            Inv(step.state, log + step.marks, obs.now)
  {
    hide Inv;
    assert log + [] == log;
    if obs.proxies.Some? {
      var p := obs.proxies.value;
      ExamineKeeps(s, log, policy, obs, AllOf(p, AutoName(policy.group)), SelectedLeaf(p, policy.group));
    }
  }

  ghost predicate SameScope(a: State, b: State) {
    a.profile == b.profile && a.group == b.group && a.checkedAt == b.checkedAt
  }

  lemma AttemptScope(s: State, policy: Policy, obs: Observation, nodes: seq<string>, node: string, trial: bool)
    ensures SameScope(Attempt(s, policy, obs, nodes, node, trial).state, s)
  {
    hide FirstGood, Filter, KeepQuarantine, StillApplies;
  }

  lemma DecideScope(s: State, policy: Policy, obs: Observation, nodes: seq<string>, node: string)
    ensures SameScope(Decide(s, policy, obs, nodes, node).state, s)
  {
    hide Attempt, StreamFailurePersisted, Filter;
    var judged := Judge(s, obs.now, obs.probe.Healthy?);
    var trial := obs.probe.Healthy? && StreamFailurePersisted(judged, obs.now);
    AttemptScope(Gate(judged, obs.now, obs.force, trial).0, policy, obs, nodes, node, trial);
  }

  lemma RecoverScope(s: State, policy: Policy, obs: Observation)
    ensures SameScope(Recover(s, policy, obs).state, s)
  {
    hide ScanLog, SelectedLeaf, Decide, Signals;
    if obs.proxies.Some? {
      var p := obs.proxies.value;
      var node := SelectedLeaf(p, policy.group);
      if node.Some? {
        var listened := Listen(Observe(s, obs.now, node), policy, obs.log, obs.now);
        DecideScope(listened, policy, obs, AllOf(p, AutoName(policy.group)), node.value);
      }
    }
  }

  lemma TickKeeps(s: State, log: seq<Mark>, clock: nat, profile: string, policy: Policy, obs: Observation)
    requires Inv(s, log, clock) && clock <= obs.now && obs.saved != Failed(false)
    requires Opened(s, profile, policy) == s.(profile := profile, group := policy.group)
    ensures var step := Tick(s, profile, policy, obs);
            && Inv(step.state, log + step.marks, obs.now)
            && Opened(step.state, profile, policy) == step.state.(profile := profile, group := policy.group)
  {
    hide Inv;
    assert log + [] == log;
    ClockForward(s, log, clock, obs.now);
    var started := s.(profile := profile, group := policy.group, checkedAt := obs.now);
    Untracked(s, started, log, obs.now);
    RecoverKeeps(started, log, policy, obs);
    RecoverScope(started, policy, obs);
    var r := Recover(started, policy, obs);
    RecordKeeps(r.state, log + r.marks, obs.now, ControllerOrState, None);
  }

  /** In every reachable state the bounded state agrees with the unbounded log. */
  lemma {:induction false} RunKeeps(profile: string, policy: Policy, inputs: seq<Observation>)
    requires Faithful(inputs)
    ensures var w := Run(profile, policy, inputs);
            && Inv(w.disk, w.log, w.clock)
            && Opened(w.disk, profile, policy) == w.disk.(profile := profile, group := policy.group)
  {
    if inputs != [] {
      var init := inputs[..|inputs| - 1];
      RunKeeps(profile, policy, init);
      var w := Run(profile, policy, init);
      assert init == [] || w.clock == init[|init| - 1].now;
      TickKeeps(w.disk, w.log, w.clock, profile, policy, inputs[|inputs| - 1]);
    }
  }

  // ---- main results over whole runs ----

  lemma RunLogGood(profile: string, policy: Policy, inputs: seq<Observation>, k: int)
    requires Faithful(inputs)
    requires 0 <= k < |Run(profile, policy, inputs).log|
    ensures GoodMark(Run(profile, policy, inputs).log, k)
  {
    RunKeeps(profile, policy, inputs);
  }

  /**
   The budget: a non-forced attempt comes at least an hour after the second attempt before it,
   so no window of an hour that ends with a non-forced attempt holds three attempts.
   */
  lemma SwitchBudget(profile: string, policy: Policy, inputs: seq<Observation>, i: int, j: int, k: int)
    requires Faithful(inputs)
    requires var log := Run(profile, policy, inputs).log;
             0 <= i < j < k < |log| && log[i].Attempted? && log[j].Attempted? && log[k].Attempted? && !log[k].forced
    ensures var log := Run(profile, policy, inputs).log;
            log[i].at <= log[j].at <= log[k].at && log[k].at - log[i].at >= 3600
  {
    RunLogGood(profile, policy, inputs, j);
    RunLogGood(profile, policy, inputs, k);
  }

  /**
   The cooldown: a non-forced attempt comes at least five minutes after every earlier attempt,
   except one made while the clock still read zero, the value that stands for "never".
   */
  lemma SwitchCooldown(profile: string, policy: Policy, inputs: seq<Observation>, i: int, k: int)
    requires Faithful(inputs)
    requires var log := Run(profile, policy, inputs).log;
             0 <= i < k < |log| && log[i].Attempted? && log[i].at != 0 && log[k].Attempted? && !log[k].forced
    ensures var log := Run(profile, policy, inputs).log;
            log[k].at - log[i].at >= 300
  {
    RunLogGood(profile, policy, inputs, k);
  }

  /**
   The cooldown gate, exactly: in every reachable state it blocks if and only if an attempt made
   at a clock reading other than zero is less than five minutes old.
   */
  lemma CooldownExactly(profile: string, policy: Policy, inputs: seq<Observation>, now: nat)
    requires Faithful(inputs) && now >= Run(profile, policy, inputs).clock
    ensures var w := Run(profile, policy, inputs);
            Cooling(w.disk, now) <==>
              exists i :: 0 <= i < |w.log| && w.log[i].Attempted? && w.log[i].at != 0 && now < w.log[i].at + 300
  {
    RunKeeps(profile, policy, inputs);
    var w := Run(profile, policy, inputs);
    hide Run;
    ClockForward(w.disk, w.log, w.clock, now);
    CoolingExactly(w.disk, w.log, now);
  }

  lemma CoolingExactly(s: State, log: seq<Mark>, now: nat)
    requires Inv(s, log, now)
    ensures Cooling(s, now) <==>
              exists i :: 0 <= i < |log| && log[i].Attempted? && log[i].at != 0 && now < log[i].at + 300
  {
    if Cooling(s, now) {
      var times := AttemptTimes(log);
      assert times[|times| - 1] in times;
      var i := AttemptPosition(log, times[|times| - 1]);
    } else {
      forall i | 0 <= i < |log| && log[i].Attempted? && log[i].at != 0 ensures log[i].at + 300 <= now {
        CooldownGrants(s, log, now, i);
      }
    }
    hide Inv, DigestOf;
  }

  ghost function SampleSnapshot(): Proxies {
    map["GLOBAL" := Info(Selector, Some("G"), []), "G" := Info(Selector, Some("A"), []),
        "A" := Info(Other, None, []), AutoName("G") := Info(Selector, None, ["A", "B"])]
  }

  /** The current node fails its probe, the other one passes, and the selection request is refused. */
  ghost function SampleTick(now: nat, force: bool): Observation {
    Observation(false, true, Complete, now, force, Some(Some("global")), Some(SampleSnapshot()), None, TransportFailed,
                {0}, Some(SampleSnapshot()), false, false, false, false)
  }

  lemma SampleAttempt(s: State, now: nat, force: bool)
    requires s.quarantine == map[]
    ensures var step := Attempt(s, Policy("G", false), SampleTick(now, force), ["A", "B"], "A", false);
            && step.marks == [Attempted(now, force, false, "B")] && step.outcome == Err(SessionReload)
            && step.state == s.(switchHistory := s.switchHistory + [now], switchedAt := now)
  {
    var p := SampleSnapshot();
    SampleLeaf();
    var kept := KeepQuarantine(s.quarantine, now);
    assert kept == map[];
    var keep := Eligible("A", kept);
    assert ["A", "B"][..1] == ["A"] && ["A"][..0] == [];
    assert Filter(["A"], keep) == [];
    assert Filter(["A", "B"], keep) == ["B"];
    SampleNames();
    assert StillApplies(p, "G", "A", "B");
  }

  lemma SampleNames()
    ensures NowOf(SampleSnapshot(), "GLOBAL") == Some("G") && NowOf(SampleSnapshot(), "G") == Some("A")
    ensures AllOf(SampleSnapshot(), AutoName("G")) == ["A", "B"]
    ensures IsLeaf(SampleSnapshot(), "A")
  {
    assert |"GLOBAL"| == |AutoName("G")| == 6 && |"G"| == |"A"| == 1;
    assert "GLOBAL"[1] == 'L' && AutoName("G")[1] == ' ' && "G"[0] == 'G' && "A"[0] == 'A';
  }

  lemma SampleLeaf()
    ensures SelectedLeaf(SampleSnapshot(), "G") == Some("A")
  {
    SampleNames();
    assert LeafFrom(SampleSnapshot(), "A", {"G"}) == Some("A");
  }

  /** One recovery on the sample snapshot whose gates are passed with the state `gated`. */
  lemma SampleRecover(s: State, now: nat, force: bool, gated: State)
    requires Gate(Judge(Observe(s, now, Some("A")), now, false), now, force, false) == (gated, None)
    requires gated.quarantine == map[]
    ensures var step := Recover(s, Policy("G", false), SampleTick(now, force));
            && step.marks == Adoption(s, now, Some("A")) + [Probed(now, "A", false), Attempted(now, force, false, "B")]
            && step.outcome == Err(SessionReload)
            && step.state == gated.(switchHistory := gated.switchHistory + [now], switchedAt := now)
  {
    SampleNames();
    SampleLeaf();
    SampleAttempt(gated, now, force);
    hide Gate, Judge, Observe, Attempt, NowOf, AllOf, SelectedLeaf, AutoName, Adoption;
    var policy, obs := Policy("G", false), SampleTick(now, force);
    var observed := Observe(s, now, Some("A"));
    assert "G" in SampleSnapshot();
    assert Recover(s, policy, obs) == Examine(s, policy, obs, ["A", "B"], Some("A"));
    assert Listen(observed, policy, obs.log, now) == observed && Heard(observed, policy, obs.log, now) == [];
    var decided := Decide(observed, policy, obs, ["A", "B"], "A");
    assert decided.marks == [Probed(now, "A", false)] + [Attempted(now, force, false, "B")];
    assert Adoption(s, now, Some("A")) + [] == Adoption(s, now, Some("A"));
  }

  lemma SampleFirst()
    ensures var step := Tick(Initial("", ""), "p", Policy("G", false), SampleTick(0, true));
            && step.marks == [Adopted(0, Some("A")), Probed(0, "A", false), Attempted(0, true, false, "B")]
            && Opened(step.state, "p", Policy("G", false)) == step.state
            && step.state.(events := []) ==
                 Initial("p", "G").(activeNode := Some("A"), failures := 1, failureSince := Some(0), switchHistory := [0])
  {
    SampleRecover(Initial("p", "G"), 0, true, Judge(Observe(Initial("p", "G"), 0, Some("A")), 0, false));
    hide Recover;
  }

  lemma SampleSecond(s: State)
    requires s.(events := []) ==
               Initial("p", "G").(activeNode := Some("A"), failures := 1, failureSince := Some(0), switchHistory := [0])
    ensures Tick(s, "p", Policy("G", false), SampleTick(60, false)).marks
            == [Probed(60, "A", false), Attempted(60, false, false, "B")]
  {
    var started := s.(checkedAt := 60);
    var judged := started.(failures := 2);
    assert Judge(Observe(started, 60, Some("A")), 60, false) == judged;
    SampleHistory();
    assert Gate(judged, 60, false, false) == (PruneHistory(judged, 60), None);
    SampleRecover(started, 60, false, PruneHistory(judged, 60));
    hide Recover, Gate, Judge, Observe, PruneHistory;
  }

  lemma SampleHistory()
    ensures Filter([0 as nat], Recent(60)) == [0]
  {
    var zero: seq<nat> := [0];
    assert zero[..0] == [];
  }

  /** The exception is real: with the clock at zero, a forced attempt does not cool the next one down. */
  lemma ZeroClockSkipsCooldown()
    ensures var inputs := [SampleTick(0, true), SampleTick(60, false)];
            && Faithful(inputs)
            && Run("p", Policy("G", false), inputs).log
               == [Adopted(0, Some("A")), Probed(0, "A", false), Attempted(0, true, false, "B"),
                   Probed(60, "A", false), Attempted(60, false, false, "B")]
  {
    hide Tick;
    var policy := Policy("G", false);
    var first, second := SampleTick(0, true), SampleTick(60, false);
    SampleFirst();
    var t1 := Tick(Initial("", ""), "p", policy, first);
    SampleSecond(t1.state);
    assert [first, second][..1] == [first] && [first][..0] == [];
    assert Run("p", policy, []) == World(Initial("", ""), [], 0);
    assert Run("p", policy, [first]) == World(t1.state, t1.marks, 0);
  }

  /** No ping-pong: a node that was left, or failed after selection, is no candidate for half an hour. */
  lemma NoPingPong(profile: string, policy: Policy, inputs: seq<Observation>, i: int, k: int)
    requires Faithful(inputs)
    requires var log := Run(profile, policy, inputs).log;
             0 <= i < k < |log| && log[i].Quarantined? && log[k].Attempted? && log[k].candidate == log[i].left
    ensures var log := Run(profile, policy, inputs).log;
            log[k].at - log[i].at >= 1800
  {
    RunLogGood(profile, policy, inputs, k);
  }

  /** A non-forced probe failover rests on a minute of uninterrupted unhealthy observations of one node. */
  lemma FailoverEvidence(profile: string, policy: Policy, inputs: seq<Observation>, k: int)
    requires Faithful(inputs)
    requires var log := Run(profile, policy, inputs).log;
             0 <= k < |log| && log[k].Attempted? && !log[k].forced && !log[k].trial
    ensures var log := Run(profile, policy, inputs).log;
            ProbeEvidence(log[..k], log[k].at)
  {
    RunLogGood(profile, policy, inputs, k);
  }

  /** A stream trial, forced or not, rests on a recent minute-long chain of signals heard since the node was adopted. */
  lemma StreamTrialEvidence(profile: string, policy: Policy, inputs: seq<Observation>, k: int)
    requires Faithful(inputs)
    requires var log := Run(profile, policy, inputs).log;
             0 <= k < |log| && log[k].Attempted? && log[k].trial
    ensures var log := Run(profile, policy, inputs).log;
            StreamEvidence(log[..k], log[k].at)
  {
    RunLogGood(profile, policy, inputs, k);
  }

  /** In every reachable state the bounded fields are the ones the unbounded log determines. */
  lemma ReachableStateExact(profile: string, policy: Policy, inputs: seq<Observation>, now: nat)
    requires Faithful(inputs) && now >= Run(profile, policy, inputs).clock
    ensures var w := Run(profile, policy, inputs);
            var d := DigestOf(w.log);
            && PruneHistory(w.disk, now).switchHistory == Filter(d.times, Recent(now))
            && w.disk.switchedAt == (if d.times == [] then 0 else d.times[|d.times| - 1])
            && w.disk.activeNode == d.active
            && w.disk.failures == Min(|d.streak|, U32_MAX)
            && w.disk.failureSince == (if d.streak == [] then None else Some(d.streak[0]))
            && w.disk.feedbackFirst == d.episode.first && w.disk.feedbackLast == d.episode.last
    ensures var w := Run(profile, policy, inputs);
            forall n :: n in KeepQuarantine(w.disk.quarantine, now) <==>
              exists i :: 0 <= i < |w.log| && w.log[i].Quarantined? && w.log[i].left == n
                          && now < w.log[i].at + 1800
  {
    RunKeeps(profile, policy, inputs);
    var w := Run(profile, policy, inputs);
    ClockForward(w.disk, w.log, w.clock, now);
    PruneExact(w.disk, w.log, now);
    hide Run, PruneHistory;
    forall n
      ensures n in KeepQuarantine(w.disk.quarantine, now) <==>
              exists i :: 0 <= i < |w.log| && w.log[i].Quarantined? && w.log[i].left == n
                          && now < w.log[i].at + 1800
    {
      QuarantineExact(w.disk, w.log, now, n);
    }
  }

  lemma QuarantineExact(s: State, log: seq<Mark>, now: nat, n: string)
    requires QuarantineInv(s.quarantine, log, now)
    ensures n in KeepQuarantine(s.quarantine, now) <==>
            exists i :: 0 <= i < |log| && log[i].Quarantined? && log[i].left == n && now < log[i].at + 1800
  {
    if n in s.quarantine {
      assert LeftUntil(log, n, s.quarantine[n]);
    }
  }
}
