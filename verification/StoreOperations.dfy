/** What each completed store operation leaves, and when it is refused, from the old disk and the download alone. */
module StoreOperations {
  import opened Wrappers
  import opened Names
  import opened Store
  import opened StoreRuns
  import PolicyApply
  import opened PolicyAcceptance

  /** The answer is `Done` exactly if nothing refuses, and otherwise names what does; storage may always fail. */
  ghost predicate Answers(out: Outcome, refusal: Option<Error>) {
    out != Refused(Storage) ==> out == (if refusal.Some? then Refused(refusal.value) else Done)
  }

  /** What refuses a download that `policy` is applied to, before it is stored. */
  ghost function DownloadRefused(rb: Rulebook, policy: Option<PolicyApply.Policy>, raw: Option<string>): Option<Error> {
    if raw.None? then Some(Load)
    else if policy.None? then (if rb.valid(raw.value) then None else Some(Invalid))
    else
      var applied := rb.apply(policy.value, raw.value);
      if applied.Err? then Some(PolicyRefused(applied.error))
      else if rb.valid(applied.value) then None else Some(Invalid)
  }

  /** The stored profile is the download, with the policy, if there is one, applied to it. */
  ghost predicate Carries(rb: Rulebook, policy: Option<PolicyApply.Policy>, raw: Option<string>, profile: string) {
    && raw.Some? && rb.valid(profile)
    && (policy.None? ==> profile == raw.value)
    && (policy.Some? ==> rb.apply(policy.value, raw.value) == Ok(profile))
  }

  ghost predicate BackedUp(d: Disk, after: Disk) {
    after.backupSource == Some(d.source) && after.backupProfile == Some(d.profile)
  }

  /** An update keeps the descriptor and stores the download with the descriptor's policy applied. */
  lemma UpdateExactly(rb: Rulebook, d: Disk, raw: Option<string>, out: Outcome, steps: seq<Rename>)
    requires Allowed(rb, d, Update(raw), out, steps)
    ensures Answers(out, DownloadRefused(rb, d.source.policy, raw))
    ensures out == Done ==>
              var after := Replay(d, steps);
              after.source == d.source && Carries(rb, d.source.policy, raw, after.profile) && BackedUp(d, after)
  {
    if out == Done {
      UpdatePrefix(d, Loaded(rb, d.source, raw).value, 3);
      assert steps[..3] == steps;
    }
  }

  /** Configuring leaves exactly the managed policy of the given group, on the same location. */
  lemma ConfigureExactly(rb: Rulebook, d: Disk, group: string, absolute: bool, raw: Option<string>, out: Outcome, steps: seq<Rename>)
    requires Allowed(rb, d, ConfigurePolicy(group, absolute, raw), out, steps)
    ensures var policy := PolicyApply.Policy(group, None, true, absolute);
            && Answers(out, if !SoundPolicy(policy) then Some(PolicyRefused(InvalidFallbackPolicy)) else DownloadRefused(rb, Some(policy), raw))
            && (out == Done ==>
                  var after := Replay(d, steps);
                  && after.source == Source(d.source.location, Some(policy))
                  && Carries(rb, Some(policy), raw, after.profile) && BackedUp(d, after))
  {
    PolicyExactly(ManagedPolicy(group, absolute));
    var source := d.source.(policy := Some(ManagedPolicy(group, absolute)));
    if out == Done {
      ReplacePrefix(d, source, Loaded(rb, source, raw).value, 4);
      assert steps[..4] == steps;
    }
    hide PolicyApply.ValidPolicy, SoundPolicy;
  }

  /** Disabling leaves no policy, and the download as it came. */
  lemma DisableExactly(rb: Rulebook, d: Disk, raw: Option<string>, out: Outcome, steps: seq<Rename>)
    requires Allowed(rb, d, DisablePolicy(raw), out, steps)
    ensures Answers(out, DownloadRefused(rb, None, raw))
    ensures out == Done ==>
              var after := Replay(d, steps);
              && after.source == Source(d.source.location, None)
              && raw == Some(after.profile) && rb.valid(after.profile) && BackedUp(d, after)
  {
    var source := d.source.(policy := None);
    if out == Done {
      ReplacePrefix(d, source, Loaded(rb, source, raw).value, 4);
      assert steps[..4] == steps;
    }
  }

  /** The new source's own policy, or else the previous one. */
  ghost function Carried(d: Disk, source: Source): Option<PolicyApply.Policy> {
    if source.policy.Some? then source.policy else d.source.policy
  }

  /** The previous policy was taken over and does not fit the new document. */
  ghost predicate Misfit(rb: Rulebook, d: Disk, source: Source, raw: Option<string>) {
    && source.policy.None? && d.source.policy.Some? && raw.Some?
    && rb.apply(d.source.policy.value, raw.value) == Err(InvalidFallbackPolicy)
  }

  /**
   Replacing the source keeps its own policy, or else the previous one; a previous one that does not
   fit is dropped, and then the profile is the download as it came. The raw download has to be valid.
   */
  lemma ReplaceExactly(rb: Rulebook, d: Disk, source: Source, raw: Option<string>, out: Outcome, steps: seq<Rename>)
    requires Allowed(rb, d, ReplaceSource(source, raw), out, steps)
    ensures Answers(out, if raw.None? then Some(Load)
                         else if !rb.valid(raw.value) then Some(Invalid)
                         else if Misfit(rb, d, source, raw) then None
                         else DownloadRefused(rb, Carried(d, source), raw))
    ensures out == Done ==>
              var after := Replay(d, steps);
              var policy := if Misfit(rb, d, source, raw) then None else Carried(d, source);
              && after.source == Source(source.location, policy)
              && Carries(rb, policy, raw, after.profile) && BackedUp(d, after)
  {
    if out == Done {
      var pair := Replacement(rb, d.source, source, raw).value;
      ReplacePrefix(d, pair.0, pair.1, 4);
      assert steps[..4] == steps;
    }
  }

  /** A rollback needs a backup, and both profiles valid; done, it has exchanged the pairs that are there. */
  lemma RollbackExactly(rb: Rulebook, d: Disk, out: Outcome, steps: seq<Rename>)
    requires Allowed(rb, d, Rollback, out, steps)
    ensures Answers(out, if d.backupProfile.None? then Some(NoBackup)
                         else if !rb.valid(d.profile) || !rb.valid(d.backupProfile.value) then Some(Invalid)
                         else None)
    ensures out == Done ==>
              && d.backupProfile.Some?
              && Replay(d, steps) == Disk(if d.backupSource.Some? then d.backupSource.value else d.source, d.backupProfile.value,
                                          if d.backupSource.Some? then Some(d.source) else None, Some(d.profile))
  {
    if out == Done {
      if d.backupSource.Some? {
        RollbackExchanges(d);
      } else {
        assert steps == [ToBackupProfile(d.profile), ToProfile(d.backupProfile.value)];
        ReplayPrefix(d, steps, 2);
        assert steps[..2] == steps;
      }
    }
  }

  /** A profile is added under a new, well-formed id, without a backup; then the others are as before. */
  lemma AddExactly(rb: Rulebook, store: map<string, Disk>, id: string, source: Source, raw: Option<string>, fault: bool)
    ensures var after := Serve(rb, store, Add(id, source, raw, fault));
            var refused := !WellFormedId(id) || DownloadRefused(rb, source.policy, raw).Some? || id in store || fault;
            && (refused ==> after == store)
            && (!refused ==>
                  && after.Keys == store.Keys + {id} && (forall other :: other in store ==> after[other] == store[other])
                  && after[id].source == source && Carries(rb, source.policy, raw, after[id].profile)
                  && after[id].backupSource == None && after[id].backupProfile == None)
  {
    IdExactly(id);
    hide ValidProfileId, WellFormedId;
  }
}
