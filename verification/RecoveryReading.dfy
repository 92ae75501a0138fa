/** What a run of ticks hears in the diagnostic log: exactly what one reader with one cursor would read. */
module RecoveryReading {
  import opened Wrappers
  import opened Sequences
  import opened Names
  import opened PointerWalk
  import opened LogScan
  import opened Recovery
  import opened RecoveryRuns

  function IsSignal(): Mark -> bool { (m: Mark) => m.Signal? }

  ghost predicate NoAdoption(marks: seq<Mark>) {
    forall m :: m in marks ==> !m.Adopted?
  }

  /** The state's reader, but for the count, which the caller keeps in a window of its own. */
  ghost predicate ReadsOnAs(s: State, r: Reader) {
    && s.cursor == r.cursor && s.databaseIdentity == r.identity
    && s.feedbackFirst == r.episode.first && s.feedbackLast == r.episode.last
  }

  /** The tick's look at the log, if it comes that far. */
  function LookOf(disk: State, profile: string, policy: Policy, obs: Observation): Option<Look> {
    var s := Opened(disk, profile, policy);
    if obs.lockBusy || !obs.readable || TooSoon(s, obs.now, obs.force) || obs.mode.None? || obs.proxies.None? then None
    else if obs.mode.value != Some("global") || NowOf(obs.proxies.value, "GLOBAL") != Some(policy.group) then None
    else if AllOf(obs.proxies.value, AutoName(policy.group)) == [] || policy.group !in obs.proxies.value then None
    else if !policy.watchesLog || obs.log.None? then None
    else Some(Look(obs.log.value, Since(s, obs.now)))
  }

  /** Either nothing is read, or one look is polled from `r`. */
  ghost predicate ReadStep(marks: seq<Mark>, after: State, r: Reader, look: Option<Look>) {
    if look.None? then Filter(marks, IsSignal()) == [] && ReadsOnAs(after, r)
    else
      var scan := Poll(r, look.value.log, look.value.since);
      Filter(marks, IsSignal()) == Signals(scan.consumed) && ReadsOnAs(after, scan.reader)
  }

  lemma ScanIgnoresCount(s: State, r: Reader, log: LogView, since: nat)
    requires ReadsOnAs(s, r)
    ensures var a, b := ScanLog(ReaderOf(s), log, since), Poll(r, log, since);
            && a.consumed == b.consumed && a.reader.cursor == b.reader.cursor && a.reader.identity == b.reader.identity
            && a.reader.episode.first == b.reader.episode.first && a.reader.episode.last == b.reader.episode.last
  {
    PollIgnoresCount(ReaderOf(s), r, log, since);
    hide Matching, Absorb;
  }

  lemma {:induction false} OnlySignals(rows: seq<Row>)
    ensures Filter(Signals(rows), IsSignal()) == Signals(rows)
  {
    if rows != [] {
      var init, row := Signals(rows[..|rows| - 1]), rows[|rows| - 1];
      OnlySignals(rows[..|rows| - 1]);
      if row.signal {
        FilterAppend(init, Signal(row.ts), IsSignal());
      } else {
        assert init + [] == init;
      }
    }
  }

  ghost predicate SameReader(a: State, b: State) {
    && a.cursor == b.cursor && a.databaseIdentity == b.databaseIdentity
    && a.feedbackFirst == b.feedbackFirst && a.feedbackLast == b.feedbackLast
  }

  lemma {:induction false} NoneHeard(marks: seq<Mark>)
    requires forall m :: m in marks ==> !m.Signal?
    ensures Filter(marks, IsSignal()) == []
  {
    if marks != [] {
      assert marks[|marks| - 1] in marks;
      NoneHeard(marks[..|marks| - 1]);
    }
  }

  lemma DecideReads(s: State, policy: Policy, obs: Observation, nodes: seq<string>, node: string)
    ensures var step := Decide(s, policy, obs, nodes, node);
            && (forall m :: m in step.marks ==> !m.Signal?)
            && (NoAdoption(step.marks) ==> SameReader(step.state, s))
  {
    hide FirstGood, Filter, KeepQuarantine, StillApplies, StreamFailurePersisted;
    var judged := Judge(s, obs.now, obs.probe.Healthy?);
    var trial := obs.probe.Healthy? && StreamFailurePersisted(judged, obs.now);
    AttemptReads(Gate(judged, obs.now, obs.force, trial).0, policy, obs, nodes, node, trial);
    var tail := Attempt(Gate(judged, obs.now, obs.force, trial).0, policy, obs, nodes, node, trial).marks;
    var probed := [Probed(obs.now, node, obs.probe.Healthy?)];
    assert forall m :: m in tail ==> m in probed + tail;
    hide Attempt;
  }

  lemma AttemptReads(s: State, policy: Policy, obs: Observation, nodes: seq<string>, node: string, trial: bool)
    ensures var step := Attempt(s, policy, obs, nodes, node, trial);
            && (forall m :: m in step.marks ==> !m.Signal?)
            && (NoAdoption(step.marks) ==> SameReader(step.state, s))
  {
    hide FirstGood, Filter, KeepQuarantine, StillApplies;
    var kept := s.(quarantine := KeepQuarantine(s.quarantine, obs.now));
    var first := FirstGood(Filter(nodes, Eligible(node, kept.quarantine)), obs.good, 0);
    if first.Some? && obs.latest.Some? {
      var tried := kept.(switchHistory := kept.switchHistory + [obs.now], switchedAt := obs.now);
      var previous := NowOf(obs.latest.value, policy.group);
      SettleReads(tried, policy.group, obs, previous, node, first.value, trial);
      var tail := Settle(tried, policy.group, obs, previous, node, first.value, trial).marks;
      var m := Attempted(obs.now, obs.force, trial, first.value);
      assert forall x :: x in tail ==> x in [m] + tail;
      hide Settle;
    }
  }

  lemma SettleReads(s: State, group: string, obs: Observation, previous: Option<string>,
                    node: string, candidate: string, trial: bool)
    ensures var step := Settle(s, group, obs, previous, node, candidate, trial);
            && (forall m :: m in step.marks ==> !m.Signal?)
            && (NoAdoption(step.marks) ==> SameReader(step.state, s))
  {
    hide Adopting;
    var marks := Settle(s, group, obs, previous, node, candidate, trial).marks;
    if |marks| == 2 {
      assert marks[1] in marks && marks[1].Adopted?;
    }
  }

  /** The tick's look at the log, once the selection has been observed. */
  function Hearing(s: State, policy: Policy, obs: Observation): Option<Look> {
    if policy.watchesLog && obs.log.Some? then Some(Look(obs.log.value, Since(s, obs.now))) else None
  }

  lemma ListenReads(s: State, policy: Policy, obs: Observation, r: Reader)
    requires ReadsOnAs(s, r)
    ensures ReadStep(Heard(s, policy, obs.log, obs.now), Listen(s, policy, obs.log, obs.now), r, Hearing(s, policy, obs))
  {
    hide ScanLog, Poll, Signals, Filter;
    if policy.watchesLog && obs.log.Some? {
      ScanIgnoresCount(s, r, obs.log.value, Since(s, obs.now));
      OnlySignals(ScanLog(ReaderOf(s), obs.log.value, Since(s, obs.now)).consumed);
    } else {
      NoneHeard([]);
    }
  }

  /** Marks that are no signals change nothing about what is heard. */
  lemma SilentAround(adoption: seq<Mark>, heard: seq<Mark>, tail: seq<Mark>)
    requires forall m :: m in adoption || m in tail ==> !m.Signal?
    ensures Filter(adoption + heard + tail, IsSignal()) == Filter(heard, IsSignal())
  {
    NoneHeard(adoption);
    NoneHeard(tail);
    FilterConcat(adoption, heard, IsSignal());
    FilterConcat(adoption + heard, tail, IsSignal());
    var kept := Filter(heard, IsSignal());
    assert [] + kept + [] == kept;
  }

  /** An examination adopts, hears and, if the node can be judged, decides. */
  lemma ExamineParts(s: State, policy: Policy, obs: Observation, nodes: seq<string>, node: Option<string>)
    returns (tail: seq<Mark>)
    ensures var observed := Observe(s, obs.now, node);
            var listened := Listen(observed, policy, obs.log, obs.now);
            var step := Examine(s, policy, obs, nodes, node);
            && Since(observed, obs.now) == Since(s, obs.now)
            && step.marks == Adoption(s, obs.now, node) + Heard(observed, policy, obs.log, obs.now) + tail
            && (forall m :: m in tail ==> !m.Signal?)
            && (NoAdoption(tail) ==> SameReader(step.state, listened))
  {
    hide Decide, Listen, Heard;
    var observed := Observe(s, obs.now, node);
    var listened := Listen(observed, policy, obs.log, obs.now);
    tail := [];
    if node.Some? && Usable(obs.probe) {
      DecideReads(listened, policy, obs, nodes, node.value);
      tail := Decide(listened, policy, obs, nodes, node.value).marks;
    }
  }

  lemma AdoptionSilent(s: State, now: nat, node: Option<string>)
    ensures forall m :: m in Adoption(s, now, node) ==> !m.Signal?
  {
  }

  /** What an examination hears, from the state in which the selection has been observed. */
  lemma ExamineReads(s: State, policy: Policy, obs: Observation, nodes: seq<string>, node: Option<string>, r: Reader)
    requires ReadsOnAs(Observe(s, obs.now, node), r)
    requires NoAdoption(Examine(s, policy, obs, nodes, node).marks[|Adoption(s, obs.now, node)|..])
    ensures var step := Examine(s, policy, obs, nodes, node);
            ReadStep(step.marks, step.state, r, Hearing(s, policy, obs))
  {
    hide Examine, Listen, Observe, Heard, Adoption, Filter, Poll, Since;
    var observed, adoption := Observe(s, obs.now, node), Adoption(s, obs.now, node);
    var tail := ExamineParts(s, policy, obs, nodes, node);
    ListenReads(observed, policy, obs, r);
    var heard := Heard(observed, policy, obs.log, obs.now);
    AdoptionSilent(s, obs.now, node);
    SilentAround(adoption, heard, tail);
    assert (adoption + heard + tail)[|adoption|..] == heard + tail;
    assert forall m :: m in tail ==> m in heard + tail;
  }

  /** A tick either reads nothing, or examines the current node. */
  lemma TickParts(disk: State, profile: string, policy: Policy, obs: Observation) returns (examines: bool)
    requires obs.saved != Failed(false)
    requires Opened(disk, profile, policy) == disk.(profile := profile, group := policy.group)
    ensures var step := Tick(disk, profile, policy, obs);
            var s := disk.(profile := profile, group := policy.group, checkedAt := obs.now);
            if examines then
              && obs.proxies.Some?
              && var p := obs.proxies.value;
                 var examined := Examine(s, policy, obs, AllOf(p, AutoName(policy.group)), SelectedLeaf(p, policy.group));
                 && step.marks == examined.marks && SameReader(step.state, examined.state)
                 && LookOf(disk, profile, policy, obs) == Hearing(s, policy, obs)
            else step.marks == [] && SameReader(step.state, disk) && LookOf(disk, profile, policy, obs) == None
  {
    hide Examine, SelectedLeaf, NowOf, AllOf, Since, Opened;
    examines := !obs.lockBusy && obs.readable && !TooSoon(Opened(disk, profile, policy), obs.now, obs.force)
                && obs.mode == Some(Some("global")) && obs.proxies.Some?
                && NowOf(obs.proxies.value, "GLOBAL") == Some(policy.group)
                && AllOf(obs.proxies.value, AutoName(policy.group)) != [] && policy.group in obs.proxies.value;
    hide TooSoon;
    SinceUnscoped(disk, profile, policy, obs.now);
  }

  lemma SinceUnscoped(disk: State, profile: string, policy: Policy, now: nat)
    ensures Since(disk.(profile := profile, group := policy.group), now)
         == Since(disk.(profile := profile, group := policy.group, checkedAt := now), now)
  {
  }

  /** A tick without an adoption continues with the reader it finds. */
  lemma TickReads(disk: State, profile: string, policy: Policy, obs: Observation, r: Reader)
    requires ReadsOnAs(disk, r) && obs.saved != Failed(false)
    requires Opened(disk, profile, policy) == disk.(profile := profile, group := policy.group)
    requires NoAdoption(Tick(disk, profile, policy, obs).marks)
    ensures var step := Tick(disk, profile, policy, obs);
            ReadStep(step.marks, step.state, r, LookOf(disk, profile, policy, obs))
  {
    hide Tick, Examine, SelectedLeaf, AllOf, Poll, Opened, LookOf, Hearing;
    NoneHeard([]);
    var s := disk.(profile := profile, group := policy.group, checkedAt := obs.now);
    var examines := TickParts(disk, profile, policy, obs);
    if examines {
      var p := obs.proxies.value;
      var nodes, node := AllOf(p, AutoName(policy.group)), SelectedLeaf(p, policy.group);
      var marks := Examine(s, policy, obs, nodes, node).marks;
      Unadopted(s, policy, obs, nodes, node);
      assert marks[0..] == marks;
      ExamineReads(s, policy, obs, nodes, node, r);
    }
  }

  lemma Unadopted(s: State, policy: Policy, obs: Observation, nodes: seq<string>, node: Option<string>)
    requires NoAdoption(Examine(s, policy, obs, nodes, node).marks)
    ensures Observe(s, obs.now, node) == s && Adoption(s, obs.now, node) == []
  {
    hide Decide, Heard;
    var adopted := Adopted(obs.now, node);
    var adoption, marks := Adoption(s, obs.now, node), Examine(s, policy, obs, nodes, node).marks;
    assert forall m :: m in adoption ==> m in marks;
    assert node != s.activeNode ==> adopted in adoption;
  }

  /** The reader after an observed selection change: it has to attach, and knows no episode. */
  function FreshReader(disk: State): Reader { Reader(None, disk.databaseIdentity, Episode(0, 0, 0)) }

  /** A tick that observes a selection change starts to read afresh. */
  lemma ChangeReads(disk: State, profile: string, policy: Policy, obs: Observation)
    requires obs.saved != Failed(false)
    requires Opened(disk, profile, policy) == disk.(profile := profile, group := policy.group)
    requires var marks := Tick(disk, profile, policy, obs).marks;
             marks != [] && marks[0].Adopted? && NoAdoption(marks[1..])
    ensures var step := Tick(disk, profile, policy, obs);
            ReadStep(step.marks, step.state, FreshReader(disk), LookOf(disk, profile, policy, obs))
  {
    hide Examine, SelectedLeaf, NowOf, AllOf, Poll;
    var s := disk.(profile := profile, group := policy.group, checkedAt := obs.now);
    var p := obs.proxies.value;
    var nodes, node := AllOf(p, AutoName(policy.group)), SelectedLeaf(p, policy.group);
    ChangeObserved(s, policy, obs, nodes, node);
    ExamineReads(s, policy, obs, nodes, node, FreshReader(disk));
  }

  /** Only an observed change is adopted before anything else happens. */
  lemma ChangeObserved(s: State, policy: Policy, obs: Observation, nodes: seq<string>, node: Option<string>)
    requires var marks := Examine(s, policy, obs, nodes, node).marks; marks != [] && marks[0].Adopted?
    ensures node != s.activeNode && |Adoption(s, obs.now, node)| == 1
  {
    hide Decide, ScanLog;
    var observed := Observe(s, obs.now, node);
    var heard := Heard(observed, policy, obs.log, obs.now);
    HeardSignals(observed, policy, obs.log, obs.now);
    assert forall i :: 0 <= i < |heard| ==> heard[i] in heard;
    if node.Some? {
      DecideFirst(Listen(observed, policy, obs.log, obs.now), policy, obs, nodes, node.value);
    }
    assert node == s.activeNode ==> [] + heard == heard;
    hide Heard, Listen;
  }

  lemma {:induction false} SignalsOnly(rows: seq<Row>)
    ensures forall m :: m in Signals(rows) ==> m.Signal?
  {
    if rows != [] {
      SignalsOnly(rows[..|rows| - 1]);
    }
  }

  lemma HeardSignals(s: State, policy: Policy, log: Option<LogView>, now: nat)
    ensures forall m :: m in Heard(s, policy, log, now) ==> m.Signal?
  {
    if policy.watchesLog && log.Some? {
      SignalsOnly(ScanLog(ReaderOf(s), log.value, Since(s, now)).consumed);
    }
  }

  lemma DecideFirst(s: State, policy: Policy, obs: Observation, nodes: seq<string>, node: string)
    ensures var marks := Decide(s, policy, obs, nodes, node).marks; marks != [] && marks[0].Probed?
  {
    hide Attempt, Gate, StreamFailurePersisted;
  }

  // ---- a stretch of a run ----

  /** The looks of the ticks `b` that follow the ticks `a`. */
  ghost function LooksOf(profile: string, policy: Policy, a: seq<Observation>, b: seq<Observation>): seq<Look> {
    if b == [] then []
    else
      var init := b[..|b| - 1];
      var look := LookOf(Run(profile, policy, a + init).disk, profile, policy, b[|b| - 1]);
      LooksOf(profile, policy, a, init) + (if look.Some? then [look.value] else [])
  }

  /**
   Between two adoptions, the ticks of a run read the log like one reader: the signals they log
   are those of the rows it consumes look by look, and their saved cursor and bounds are its own.
   */
  lemma {:induction false} RunReads(profile: string, policy: Policy, a: seq<Observation>, b: seq<Observation>)
    requires Faithful(a + b)
    requires |Run(profile, policy, a).log| <= |Run(profile, policy, a + b).log|
    requires NoAdoption(Run(profile, policy, a + b).log[|Run(profile, policy, a).log|..])
    ensures var before, after := Run(profile, policy, a), Run(profile, policy, a + b);
            var p := PollAll(ReaderOf(before.disk), LooksOf(profile, policy, a, b));
            Filter(after.log[|before.log|..], IsSignal()) == Signals(p.consumed) && ReadsOnAs(after.disk, p.reader)
  {
    var before, after := Run(profile, policy, a), Run(profile, policy, a + b);
    if b == [] {
      assert a + b == a && after.log[|before.log|..] == [];
      NoneHeard([]);
    } else {
      var init, obs := b[..|b| - 1], b[|b| - 1];
      var mid := RunTail(profile, policy, a, b);
      var marks := Tick(mid.disk, profile, policy, obs).marks;
      hide Run, Tick, Filter, PollAll, Opened, LookOf, Poll, ReadsOnAs;
      RunReads(profile, policy, a, init);
      var r, looks := ReaderOf(before.disk), LooksOf(profile, policy, a, init);
      TickReads(mid.disk, profile, policy, obs, PollAll(r, looks).reader);
      FilterConcat(mid.log[|before.log|..], marks, IsSignal());
      PollNext(r, looks, LookOf(mid.disk, profile, policy, obs), marks, after.disk);
    }
  }

  /** The last tick of a stretch, and what came before it. */
  lemma RunTail(profile: string, policy: Policy, a: seq<Observation>, b: seq<Observation>) returns (mid: World)
    requires Faithful(a + b) && b != []
    requires |Run(profile, policy, a).log| <= |Run(profile, policy, a + b).log|
    requires NoAdoption(Run(profile, policy, a + b).log[|Run(profile, policy, a).log|..])
    ensures var init, obs := b[..|b| - 1], b[|b| - 1];
            var from := |Run(profile, policy, a).log|;
            var step := Tick(mid.disk, profile, policy, obs);
            && mid == Run(profile, policy, a + init) && from <= |mid.log|
            && Faithful(a + init) && obs.saved != Failed(false)
            && Opened(mid.disk, profile, policy) == mid.disk.(profile := profile, group := policy.group)
            && NoAdoption(mid.log[from..]) && NoAdoption(step.marks)
            && Run(profile, policy, a + b).disk == step.state
            && Run(profile, policy, a + b).log[from..] == mid.log[from..] + step.marks
  {
    var init, obs := b[..|b| - 1], b[|b| - 1];
    var all, from := a + b, |Run(profile, policy, a).log|;
    hide Run, Tick, Opened, Inv, NoAdoption;
    assert all[..|all| - 1] == a + init && all[|all| - 1] == obs;
    mid := Run(profile, policy, a + init);
    var step := Tick(mid.disk, profile, policy, obs);
    RunLast(profile, policy, all);
    RunGrows(profile, policy, a, init);
    FaithfulPrefix(a + init, all);
    ScopeKept(profile, policy, a + init);
    SplitMarks(mid.log, step.marks, from);
  }

  lemma RunLast(profile: string, policy: Policy, inputs: seq<Observation>)
    requires inputs != []
    ensures var before, obs := Run(profile, policy, inputs[..|inputs| - 1]), inputs[|inputs| - 1];
            var step := Tick(before.disk, profile, policy, obs);
            Run(profile, policy, inputs) == World(step.state, before.log + step.marks, obs.now)
  {
    hide Tick;
  }

  /** A run never leaves the profile and the group that it works for. */
  lemma ScopeKept(profile: string, policy: Policy, inputs: seq<Observation>)
    requires Faithful(inputs)
    ensures var disk := Run(profile, policy, inputs).disk;
            Opened(disk, profile, policy) == disk.(profile := profile, group := policy.group)
  {
    RunKeeps(profile, policy, inputs);
    hide Run, Inv;
  }

  lemma FaithfulPrefix(shorter: seq<Observation>, longer: seq<Observation>)
    requires shorter <= longer && Faithful(longer)
    ensures Faithful(shorter) && (longer != [] ==> longer[|longer| - 1].saved != Failed(false))
  {
  }

  lemma SplitMarks(log: seq<Mark>, marks: seq<Mark>, from: nat)
    requires from <= |log|
    ensures (log + marks)[from..] == log[from..] + marks
    ensures NoAdoption((log + marks)[from..]) ==> NoAdoption(log[from..]) && NoAdoption(marks)
  {
    assert (log + marks)[from..] == log[from..] + marks;
    assert forall m :: m in log[from..] || m in marks ==> m in log[from..] + marks;
  }

  lemma {:induction false} RunGrows(profile: string, policy: Policy, a: seq<Observation>, b: seq<Observation>)
    ensures Run(profile, policy, a).log <= Run(profile, policy, a + b).log
  {
    if b == [] {
      assert a + b == a;
    } else {
      assert (a + b)[..|a + b| - 1] == a + b[..|b| - 1];
      RunGrows(profile, policy, a, b[..|b| - 1]);
    }
  }

  lemma {:induction false} SignalsConcat(a: seq<Row>, b: seq<Row>)
    ensures Signals(a + b) == Signals(a) + Signals(b)
  {
    if b == [] {
      assert a + b == a;
    } else {
      assert (a + b)[..|a + b| - 1] == a + b[..|b| - 1];
      SignalsConcat(a, b[..|b| - 1]);
    }
  }

  /** One more look, or none, after the looks so far. */
  lemma PollNext(r: Reader, looks: seq<Look>, look: Option<Look>, marks: seq<Mark>, after: State)
    requires ReadStep(marks, after, PollAll(r, looks).reader, look)
    ensures var p := PollAll(r, looks + (if look.Some? then [look.value] else []));
            Signals(PollAll(r, looks).consumed) + Filter(marks, IsSignal()) == Signals(p.consumed) && ReadsOnAs(after, p.reader)
  {
    hide Filter, Poll;
    if look.Some? {
      assert (looks + [look.value])[..|looks|] == looks;
      SignalsConcat(PollAll(r, looks).consumed, Poll(PollAll(r, looks).reader, look.value.log, look.value.since).consumed);
    } else {
      assert looks + [] == looks;
    }
  }

  /**
   On an append-only log, the signals that a run hears between two adoptions are those of the
   rows that its looks pass and find recent enough, each row once and in id order.
   */
  lemma RunHearsExactlyOnce(profile: string, policy: Policy, a: seq<Observation>, b: seq<Observation>)
    requires Faithful(a + b)
    requires |Run(profile, policy, a).log| <= |Run(profile, policy, a + b).log|
    requires NoAdoption(Run(profile, policy, a + b).log[|Run(profile, policy, a).log|..])
    requires var looks := LooksOf(profile, policy, a, b);
             looks != [] && AppendOnly(looks) && Attached(ReaderOf(Run(profile, policy, a).disk), looks[0].log)
    ensures var before, after, looks := Run(profile, policy, a), Run(profile, policy, a + b), LooksOf(profile, policy, a, b);
            var rows := looks[|looks| - 1].log.rows;
            var heard := Segments(rows, ReaderOf(before.disk), looks, |looks|);
            && Filter(after.log[|before.log|..], IsSignal()) == Signals(heard)
            && Ascending(heard)
            && forall row :: row in heard <==> row in rows && row.relevant && PassedBy(ReaderOf(before.disk), looks, |looks|, row)
  {
    var before, looks := Run(profile, policy, a), LooksOf(profile, policy, a, b);
    RunReads(profile, policy, a, b);
    hide Run, LooksOf, PollAll, Faithful, NoAdoption, Segments, PassedBy, CursorAt;
    HeardExactly(ReaderOf(before.disk), looks);
  }

  lemma HeardExactly(r: Reader, looks: seq<Look>)
    requires looks != [] && AppendOnly(looks) && Attached(r, looks[0].log)
    ensures var rows := looks[|looks| - 1].log.rows;
            var heard := Segments(rows, r, looks, |looks|);
            && PollAll(r, looks).consumed == heard && Ascending(heard)
            && forall row :: row in heard <==> row in rows && row.relevant && PassedBy(r, looks, |looks|, row)
  {
    ExactlyOnce(r, looks);
    assert Ascending(looks[|looks| - 1].log.rows);
    hide PollAll, CursorAt, Segments, PassedBy, Ascending, AppendOnly;
    SegmentsExact(looks[|looks| - 1].log.rows, r, looks, |looks|);
  }

  // ---- after an observed selection change ----

  /** The last attempt time in the log decides, with the clock, how far back a look goes. */
  lemma LooksBack(profile: string, policy: Policy, inputs: seq<Observation>, obs: Observation)
    requires Faithful(inputs) && LookOf(Run(profile, policy, inputs).disk, profile, policy, obs).Some?
    ensures var w := Run(profile, policy, inputs);
            var look := LookOf(w.disk, profile, policy, obs).value;
            var times := AttemptTimes(w.log);
            var window := if obs.now >= 600 then obs.now - 600 else 0;
            && obs.log == Some(look.log)
            && look.since >= window && (times != [] ==> look.since >= times[|times| - 1])
            && (look.since == window || (times != [] && look.since == times[|times| - 1]))
  {
    RunKeeps(profile, policy, inputs);
    hide Run, DigestOf;
  }

  lemma {:induction false} LooksCons(profile: string, policy: Policy, a: seq<Observation>, obs: Observation, b: seq<Observation>)
    ensures LooksOf(profile, policy, a, [obs] + b)
         == LooksOf(profile, policy, a, [obs]) + LooksOf(profile, policy, a + [obs], b)
  {
    hide Run, LookOf;
    if b == [] {
      assert [obs] + b == [obs];
    } else {
      var init := b[..|b| - 1];
      LooksCons(profile, policy, a, obs, init);
      assert ([obs] + b)[..|b|] == [obs] + init && a + ([obs] + init) == (a + [obs]) + init;
    }
  }

  lemma FirstLook(profile: string, policy: Policy, a: seq<Observation>, obs: Observation)
    ensures var look := LookOf(Run(profile, policy, a).disk, profile, policy, obs);
            LooksOf(profile, policy, a, [obs]) == if look.Some? then [look.value] else []
  {
    assert [obs][..0] == [] && a + [] == a;
    hide Run, LookOf;
  }

  /** The tick `obs` observes a selection change, and nothing is adopted from there to the end of `b`. */
  ghost predicate ChangeOnly(profile: string, policy: Policy, a: seq<Observation>, obs: Observation, b: seq<Observation>) {
    var marks := Tick(Run(profile, policy, a).disk, profile, policy, obs).marks;
    var mid, after := Run(profile, policy, a + [obs]), Run(profile, policy, (a + [obs]) + b);
    && Faithful((a + [obs]) + b)
    && marks != [] && marks[0].Adopted? && NoAdoption(marks[1..])
    && mid.log <= after.log && NoAdoption(after.log[|mid.log|..])
  }

  lemma ChangeStep(profile: string, policy: Policy, a: seq<Observation>, obs: Observation, b: seq<Observation>)
    requires ChangeOnly(profile, policy, a, obs, b)
    ensures var before, mid := Run(profile, policy, a), Run(profile, policy, a + [obs]);
            var step := Tick(before.disk, profile, policy, obs);
            && mid.log == before.log + step.marks && mid.disk == step.state
            && ReadStep(step.marks, mid.disk, FreshReader(before.disk), LookOf(before.disk, profile, policy, obs))
  {
    var before, some := Run(profile, policy, a), a + [obs];
    assert some[..|a|] == a && some[|a|] == obs;
    var step := Tick(before.disk, profile, policy, obs);
    assert Run(profile, policy, some) == World(step.state, before.log + step.marks, obs.now);
    FaithfulPrefix(some, some + b);
    FaithfulPrefix(a, some);
    RunKeeps(profile, policy, a);
    hide Run, Tick, Opened, Inv, LookOf, Faithful, ReadStep;
    ChangeReads(before.disk, profile, policy, obs);
  }

  /** The signals heard after a change, and the looks they come from. */
  lemma ChangeHears(profile: string, policy: Policy, a: seq<Observation>, obs: Observation, b: seq<Observation>)
    requires ChangeOnly(profile, policy, a, obs, b)
    ensures var before, after := Run(profile, policy, a), Run(profile, policy, (a + [obs]) + b);
            var p := PollAll(FreshReader(before.disk), LooksOf(profile, policy, a, [obs] + b));
            && |before.log| <= |after.log|
            && Filter(after.log[|before.log|..], IsSignal()) == Signals(p.consumed)
  {
    hide Run, Tick, Opened, Inv, LookOf, Filter, LooksOf, NoAdoption, Faithful, ReadStep, PollAll;
    var before, mid, after := Run(profile, policy, a), Run(profile, policy, a + [obs]), Run(profile, policy, (a + [obs]) + b);
    ChangeStep(profile, policy, a, obs, b);
    RunReads(profile, policy, a + [obs], b);
    var marks := Tick(before.disk, profile, policy, obs).marks;
    var look := LookOf(before.disk, profile, policy, obs);
    FirstLook(profile, policy, a, obs);
    LooksCons(profile, policy, a, obs, b);
    assert after.log[|before.log|..] == marks + after.log[|mid.log|..];
    FilterConcat(marks, after.log[|mid.log|..], IsSignal());
    Resumed(FreshReader(before.disk), look, LooksOf(profile, policy, a + [obs], b), marks, mid.disk);
  }

  /** Reading on after one look, or none, with the count that the state keeps. */
  lemma Resumed(r: Reader, look: Option<Look>, rest: seq<Look>, marks: seq<Mark>, s: State)
    requires ReadStep(marks, s, r, look)
    ensures var p := PollAll(r, (if look.Some? then [look.value] else []) + rest);
            Filter(marks, IsSignal()) + Signals(PollAll(ReaderOf(s), rest).consumed) == Signals(p.consumed)
  {
    hide Filter, Poll, PollAll;
    if look.Some? {
      var scan := Poll(r, look.value.log, look.value.since);
      PollAllCons(r, look.value, rest);
      PollAllIgnoresCount(scan.reader, ReaderOf(s), rest);
      SignalsConcat(scan.consumed, PollAll(scan.reader, rest).consumed);
    } else {
      assert [] + rest == rest;
      PollAllIgnoresCount(r, ReaderOf(s), rest);
      var heard := Signals(PollAll(r, rest).consumed);
      assert [] + heard == heard;
    }
  }

  /**
   Every signal heard between an observed selection change and the next adoption comes from a
   relevant row that was not yet in the log at the first look after the change.
   */
  lemma SignalsAreNewer(profile: string, policy: Policy, a: seq<Observation>, obs: Observation, b: seq<Observation>)
    requires ChangeOnly(profile, policy, a, obs, b) && AppendOnly(LooksOf(profile, policy, a, [obs] + b))
    ensures var before, after := Run(profile, policy, a), Run(profile, policy, (a + [obs]) + b);
            var looks := LooksOf(profile, policy, a, [obs] + b);
            && |before.log| <= |after.log|
            && (exists rows: seq<Row> :: Filter(after.log[|before.log|..], IsSignal()) == Signals(rows)
                  && forall row :: row in rows ==> looks != [] && row.relevant && row !in looks[0].log.rows)
  {
    hide Run, LooksOf, AppendOnly, ChangeOnly, Filter, PollAll, Signals;
    ChangeHears(profile, policy, a, obs, b);
    var looks := LooksOf(profile, policy, a, [obs] + b);
    var rows := ReadRows(FreshReader(Run(profile, policy, a).disk), looks);
  }

  lemma ReadRows(r: Reader, looks: seq<Look>) returns (rows: seq<Row>)
    requires AppendOnly(looks) && r.cursor.None?
    ensures rows == PollAll(r, looks).consumed
    ensures forall row :: row in rows ==> looks != [] && row.relevant && row !in looks[0].log.rows
  {
    rows := PollAll(r, looks).consumed;
    if looks != [] {
      NothingOldIsRead(r, looks);
      hide PollAll;
    }
  }
}
