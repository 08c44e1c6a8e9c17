/** What every run of the addon's sync keeps. */
module AddonRuns {
  import opened Options
  import opened AddonConditions
  import opened AddonSync

  lemma StepOf(ws: seq<World>, rules: Rules, events: seq<Event>, i: nat)
    requires Run(ws, rules, events) && i < |events|
    ensures Happens(ws[..i + 1], rules, ws[i + 1], events[i]) && ws[..i + 1][i] == ws[i]
  {
    assert HappensAt(ws, rules, events, i);
  }

  lemma SameDecision(ws: seq<World>, rules: Rules, k: nat, r: Reads)
    requires k <= |ws| && ReadBefore(r, k)
    ensures WriteOf(ws[..k], rules, r) == WriteOf(ws, rules, r)
    ensures DecisionOf(ws[..k], rules, r) == DecisionOf(ws, rules, r)
  {
  }

  /** Two reads of the addon with one version saw one spec and one status. */
  lemma {:induction false} SameVersion(ws: seq<World>, rules: Rules, events: seq<Event>, i: nat, j: nat)
    requires Run(ws, rules, events) && i <= j < |ws|
    ensures ws[i].version <= i
    ensures ws[i].version == ws[j].version ==>
              ws[i].spec == ws[j].spec && ws[i].status == ws[j].status && ws[i].generation == ws[j].generation
    decreases j
  {
    if i < j {
      StepOf(ws, rules, events, j - 1);
      SameVersion(ws, rules, events, i, j - 1);
    } else if i > 0 {
      StepOf(ws, rules, events, i - 1);
      SameVersion(ws, rules, events, i - 1, i - 1);
    }
  }

  /** A status write applies the pass's write to the status and spec of the moment. */
  lemma StatusStep(ws: seq<World>, rules: Rules, events: seq<Event>, k: nat, r: Reads)
    requires Run(ws, rules, events) && k < |events| && events[k] == WriteStatus(r)
    ensures ReadBefore(r, k + 1) && WriteOf(ws, rules, r).Some?
    ensures ws[r.addon].status == ws[k].status && ws[r.addon].spec == ws[k].spec
    ensures ws[k + 1].status == Apply(ws[k].status, WriteOf(ws, rules, r).value, ws[k].generation, r.now)
  {
    StepOf(ws, rules, events, k);
    SameDecision(ws, rules, k + 1, r);
    SameVersion(ws, rules, events, r.addon, k);
  }

  lemma OtherSteps(ws: seq<World>, rules: Rules, events: seq<Event>, k: nat)
    requires Run(ws, rules, events) && k < |events| && !events[k].WriteStatus?
    ensures ws[k + 1].status == ws[k].status
  {
    StepOf(ws, rules, events, k);
  }

  /** What any step leaves of the Job: it is gone, the same one, a new foreign one, or one that this
      step started for the spec it had read. */
  ghost predicate JobStepped(ws: seq<World>, rules: Rules, events: seq<Event>, k: nat)
    requires k < |events| < |ws|
  {
    var before, after := ws[k].job, ws[k + 1].job;
    || after == None
    || (before.Some? && SameJob(before.value, after.value))
    || (after.value.uid == k + 1 && !after.value.owned)
    || (events[k].StartJob? && ReadBefore(events[k].r, k + 1)
        && after == Some(NewJob(rules, ws[events[k].r.addon].spec, k + 1)))
  }

  lemma JobStep(ws: seq<World>, rules: Rules, events: seq<Event>, k: nat)
    requires Run(ws, rules, events) && k < |events|
    ensures JobStepped(ws, rules, events, k)
  {
    StepOf(ws, rules, events, k);
  }

  lemma WriteEffect(s: Status, w: Write, gen: int, now: int)
    ensures var t := Apply(s, w, gen, now);
            && (t.ready <==> w.Success? || (s.ready && !Drops(w)))
            && (t.phase.Synced? <==> w.Success? || (s.phase.Synced? && w.Keep?))
            && (!w.Success? ==> t.clonedCommit == s.clonedCommit && t.modules == s.modules)
  {
  }

  /** The write takes Ready away. */
  predicate Drops(w: Write) {
    w.Park? || w.Fail? || w.Failure?
  }

  // ---- Ready -------------------------------------------------------------------------------

  lemma ReadyStep(ws: seq<World>, rules: Rules, events: seq<Event>, k: nat)
    requires Run(ws, rules, events) && k < |events| && (ws[k].status.ready <==> ws[k].status.phase.Synced?)
    ensures ws[k + 1].status.ready <==> ws[k + 1].status.phase.Synced?
  {
    if events[k].WriteStatus? {
      var r := events[k].r;
      StatusStep(ws, rules, events, k, r);
      NeverSyncsSynced(ws, rules, r);
      WriteEffect(ws[k].status, WriteOf(ws, rules, r).value, ws[k].generation, r.now);
    } else {
      OtherSteps(ws, rules, events, k);
    }
  }

  /** The addon is Ready exactly when its phase is Synced, in every run, however stale the reads. */
  lemma {:induction false} ReadyIsSynced(ws: seq<World>, rules: Rules, events: seq<Event>, k: nat)
    requires Run(ws, rules, events) && k <= |events|
    ensures ws[k].status.ready <==> ws[k].status.phase.Synced?
    decreases k
  {
    if k > 0 {
      ReadyIsSynced(ws, rules, events, k - 1);
      ReadyStep(ws, rules, events, k - 1);
    }
  }

  /** No pass shows Syncing over a status that says Synced. */
  lemma NeverSyncsSynced(ws: seq<World>, rules: Rules, r: Reads)
    requires ReadBefore(r, |ws|)
    ensures ws[r.addon].status.phase.Synced? ==> WriteOf(ws, rules, r) != Some(Sync)
  {
  }

  /** While the addon is Ready, a step leaves it Ready at the same commit with the same modules, or
      records a newer success, or is a write that reports a reason for not being ready. A resync
      that runs, waits, cools down or is skipped is none of those. */
  lemma ReadyLasts(ws: seq<World>, rules: Rules, events: seq<Event>, k: nat)
    requires Run(ws, rules, events) && k < |events| && ws[k].status.ready
    ensures var s, t := ws[k].status, ws[k + 1].status;
            || (t.ready && t.clonedCommit == s.clonedCommit && t.modules == s.modules)
            || (events[k].WriteStatus? && ReadBefore(events[k].r, k + 1) && WriteOf(ws, rules, events[k].r).Some?
                && var w := WriteOf(ws, rules, events[k].r).value;
                   (w.Success? && t.ready) || Drops(w))
  {
    if events[k].WriteStatus? {
      var r := events[k].r;
      StatusStep(ws, rules, events, k, r);
      WriteEffect(ws[k].status, WriteOf(ws, rules, r).value, ws[k].generation, r.now);
    } else {
      OtherSteps(ws, rules, events, k);
    }
  }

  /** Which passes write a status that drops Ready: the addon's references are wrong or missing, the
      spec is invalid, the Job name is taken, or the Job of this very spec ended without a commit. */
  lemma DropsOnlyWithCause(ws: seq<World>, rules: Rules, r: Reads)
    requires ReadBefore(r, |ws|)
    ensures WriteOf(ws, rules, r).Some? && Drops(WriteOf(ws, rules, r).value)
            <==> || Precheck(rules, ws[r.addon].spec, r).Some?
                 || DecisionOf(ws, rules, r).action in {InvalidSpec, JobConflict, RecordFailure}
                 || (DecisionOf(ws, rules, r).action.RecordSuccess?
                     && !(r.logs && ws[r.job].job.value.output.Some? && ws[r.job].job.value.output.value.0 != ""))
  {
  }

  // ---- Where a recorded commit comes from --------------------------------------------------

  ghost predicate JobsAreTagged(w: World, rules: Rules) {
    w.job.Some? && w.job.value.owned ==> w.job.value.specHash == rules.hash(w.job.value.built)
  }

  lemma {:induction false} OwnJobsAreTagged(ws: seq<World>, rules: Rules, events: seq<Event>, k: nat)
    requires Run(ws, rules, events) && k <= |events|
    ensures JobsAreTagged(ws[k], rules)
    decreases k
  {
    if k > 0 {
      OwnJobsAreTagged(ws, rules, events, k - 1);
      JobStep(ws, rules, events, k - 1);
    }
  }

  /** The commit and modules were printed by a succeeded Job of this addon, built from this spec. */
  ghost predicate Produced(w: World, built: SyncSpec, commit: string, modules: seq<string>) {
    && w.job.Some? && w.job.value.owned && w.job.value.succeeded && w.job.value.built == built
    && w.job.value.output == Some((commit, modules))
  }

  /** Step `b` recorded them, when the spec was the one the Job of snapshot `t` was built from. */
  ghost predicate RecordedAt(ws: seq<World>, rules: Rules, events: seq<Event>, t: nat, b: nat, commit: string,
                             modules: seq<string>)
    requires t <= b < |events| < |ws|
  {
    events[b].WriteStatus? && Produced(ws[t], Resolve(rules, ws[b].spec), commit, modules)
    && ws[b + 1].status.clonedCommit == commit && ws[b + 1].status.modules == modules
  }

  ghost predicate Traced(ws: seq<World>, rules: Rules, events: seq<Event>, k: nat)
    requires k <= |events| < |ws|
  {
    ws[k].status.phase.Synced? || ws[k].status.clonedCommit != "" || ws[k].status.modules != [] ==>
      exists t, b :: 0 <= t <= b < k && RecordedAt(ws, rules, events, t, b, ws[k].status.clonedCommit, ws[k].status.modules)
  }

  lemma SuccessReads(ws: seq<World>, rules: Rules, r: Reads, commit: string, modules: seq<string>)
    requires ReadBefore(r, |ws|) && HashTellsApart(rules) && JobsAreTagged(ws[r.job], rules)
    requires WriteOf(ws, rules, r) == Some(Success(commit, modules))
    ensures Produced(ws[r.job], Resolve(rules, ws[r.addon].spec), commit, modules)
  {
    assert DecisionOf(ws, rules, r).action.RecordSuccess?;
  }

  lemma SuccessShows(s: Status, commit: string, modules: seq<string>, gen: int, now: int)
    ensures Apply(s, Success(commit, modules), gen, now).clonedCommit == commit
    ensures Apply(s, Success(commit, modules), gen, now).modules == modules
  {
  }

  /** A success is only written for a Job of the source spec that the addon has at that moment. */
  lemma SuccessIsOfThisSpec(ws: seq<World>, rules: Rules, events: seq<Event>, k: nat, r: Reads)
    requires Run(ws, rules, events) && HashTellsApart(rules) && k < |events|
    requires events[k] == WriteStatus(r) && ReadBefore(r, k + 1)
    requires WriteOf(ws, rules, r).Some? && WriteOf(ws, rules, r).value.Success?
    ensures RecordedAt(ws, rules, events, r.job, k, ws[k + 1].status.clonedCommit, ws[k + 1].status.modules)
  {
    var w := WriteOf(ws, rules, r).value;
    StatusStep(ws, rules, events, k, r);
    OwnJobsAreTagged(ws, rules, events, r.job);
    SuccessReads(ws, rules, r, w.commit, w.modules);
    SuccessShows(ws[k].status, w.commit, w.modules, ws[k].generation, r.now);
  }

  lemma StillTraced(ws: seq<World>, rules: Rules, events: seq<Event>, j: nat, k: nat)
    requires j <= k <= |events| < |ws| && Traced(ws, rules, events, j)
    requires ws[k].status.clonedCommit == ws[j].status.clonedCommit && ws[k].status.modules == ws[j].status.modules
    requires ws[k].status.phase.Synced? ==> ws[j].status.phase.Synced?
    ensures Traced(ws, rules, events, k)
  {
  }

  lemma TracedStep(ws: seq<World>, rules: Rules, events: seq<Event>, k: nat)
    requires Run(ws, rules, events) && HashTellsApart(rules) && k < |events| && Traced(ws, rules, events, k)
    ensures Traced(ws, rules, events, k + 1)
  {
    if events[k].WriteStatus? {
      var r := events[k].r;
      StatusStep(ws, rules, events, k, r);
      var w := WriteOf(ws, rules, r).value;
      if w.Success? {
        SuccessIsOfThisSpec(ws, rules, events, k, r);
      } else {
        WriteEffect(ws[k].status, w, ws[k].generation, r.now);
        StillTraced(ws, rules, events, k, k + 1);
      }
    } else {
      OtherSteps(ws, rules, events, k);
      StillTraced(ws, rules, events, k, k + 1);
    }
  }

  /** In every run, whatever commit and modules the status shows were printed by a succeeded Job of
      this addon, whose script was built from the source spec (everything that enters the hash) that
      the addon had when they were recorded. Which volume the Job wrote to is another matter: see
      AddonTarget. */
  lemma {:induction false} CommitsAreTraced(ws: seq<World>, rules: Rules, events: seq<Event>, k: nat)
    requires Run(ws, rules, events) && HashTellsApart(rules) && k <= |events|
    ensures Traced(ws, rules, events, k)
    decreases k
  {
    if k > 0 {
      CommitsAreTraced(ws, rules, events, k - 1);
      TracedStep(ws, rules, events, k - 1);
    }
  }

  // ---- Jobs --------------------------------------------------------------------------------

  lemma {:induction false} UidBound(ws: seq<World>, rules: Rules, events: seq<Event>, j: nat)
    requires Run(ws, rules, events) && j < |ws| && ws[j].job.Some?
    ensures ws[j].job.value.uid <= j
    decreases j
  {
    if j > 0 {
      JobStep(ws, rules, events, j - 1);
      if ws[j - 1].job.Some? {
        UidBound(ws, rules, events, j - 1);
      }
    }
  }

  /** A UID names one Job. */
  lemma {:induction false} SameUid(ws: seq<World>, rules: Rules, events: seq<Event>, i: nat, j: nat)
    requires Run(ws, rules, events) && i <= j < |ws| && ws[i].job.Some? && ws[j].job.Some?
    requires ws[i].job.value.uid == ws[j].job.value.uid
    ensures SameJob(ws[i].job.value, ws[j].job.value)
    decreases j
  {
    if i < j {
      UidBound(ws, rules, events, i);
      JobStep(ws, rules, events, j - 1);
      SameUid(ws, rules, events, i, j - 1);
    }
  }

  /** However stale its view, no pass deletes a Job that is not the addon's own. */
  lemma ForeignJobsSurvive(ws: seq<World>, rules: Rules, events: seq<Event>, k: nat)
    requires Run(ws, rules, events) && k < |events| && !events[k].External?
    requires ws[k].job.Some? && !ws[k].job.value.owned
    ensures ws[k + 1].job == ws[k].job
  {
    StepOf(ws, rules, events, k);
    match events[k]
    case DeleteJob(r) => {
      SameDecision(ws, rules, k + 1, r);
      if ws[k].job.value.uid == ws[r.job].job.value.uid {
        SameUid(ws, rules, events, r.job, k);
      }
    }
    case _ =>
  }

  /** When a valid addon sits without a Job and past its interval, the next pass starts one, unless
      the addon is pinned to the commit it already shows, which is a matter of its ref alone. What
      becomes of a pinned addon over a run is said in AddonPinned. */
  lemma ResyncsUnlessPinned(ws: seq<World>, rules: Rules, r: Reads)
    requires ReadBefore(r, |ws|) && ws[r.job].job == None
    requires var a := ws[r.addon];
             && Precheck(rules, a.spec, r) == None && rules.check(Resolve(rules, a.spec)) == ""
             && (a.status.lastSyncTime.Some? ==> r.now - a.status.lastSyncTime.value >= Interval(a.status.phase))
    ensures Creates(ws, rules, r) <==> !Pinned(ws[r.addon].spec, ws[r.addon].status)
    ensures forall spec: AddonSpec :: Ref(spec) == Ref(ws[r.addon].spec) ==>
              (Pinned(spec, ws[r.addon].status) <==> Pinned(ws[r.addon].spec, ws[r.addon].status))
  {
  }
}
