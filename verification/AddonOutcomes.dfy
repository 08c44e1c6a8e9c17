/** What a pass over an addon makes of its Job and its status, told by the spec, the status, the Job and
    the clock that it read; and whose work a recorded commit is, told by the fields of the addon. */
module AddonOutcomes {
  import opened Options
  import opened AddonConditions
  import opened AddonSync
  import opened AddonRuns
  import opened AddonTarget

  // ---- What enters a sync ------------------------------------------------------------------

  /** The two specs ask for the same sync: an empty ref is "main", an empty module name is the name of
      the addon. */
  predicate SameSync(rules: Rules, a: AddonSpec, b: AddonSpec) {
    && a.url == b.url && a.path == b.path && a.single == b.single && a.secret == b.secret
    && (if a.ref == "" then "main" else a.ref) == (if b.ref == "" then "main" else b.ref)
    && (if a.moduleName == "" then rules.name else a.moduleName) == (if b.moduleName == "" then rules.name else b.moduleName)
  }

  /** What the Jobs are built from, and told apart by, is the same exactly for specs that ask for the
      same sync. */
  lemma ResolveTellsApart(rules: Rules, a: AddonSpec, b: AddonSpec)
    ensures Resolve(rules, a) == Resolve(rules, b) <==> SameSync(rules, a, b)
  {
  }

  /** A full commit id: forty lower-case hexadecimal digits. */
  predicate CommitId(s: string) {
    |s| == 40 && forall i :: 0 <= i < 40 ==> s[i] in "0123456789abcdef"
  }

  lemma CommitIds(s: string)
    ensures IsCommit(s) <==> CommitId(s)
  {
    forall i | 0 <= i < |s| ensures s[i] in s && (s[i] in "0123456789abcdef" <==> '0' <= s[i] <= '9' || 'a' <= s[i] <= 'f') {
      HexDigits(s[i]);
    }
  }

  lemma HexDigits(c: char)
    ensures c in "0123456789abcdef" <==> '0' <= c <= '9' || 'a' <= c <= 'f'
  {
    var hex := "0123456789abcdef";
    if '0' <= c <= '9' {
      assert hex[c as int - '0' as int] == c;
    } else if 'a' <= c <= 'f' {
      assert hex[10 + c as int - 'a' as int] == c;
    }
  }

  // ---- What a pass reads -------------------------------------------------------------------

  predicate NamespaceOk(rules: Rules, spec: AddonSpec) {
    spec.instanceNamespace == "" || spec.instanceNamespace == rules.namespace
  }

  /** The instance is named and there, and its addons volume is bound. */
  predicate InPlace(spec: AddonSpec, r: Reads) {
    spec.instance != "" && r.found && r.bound
  }

  predicate Valid(rules: Rules, spec: AddonSpec) {
    rules.check(Resolve(rules, spec)) == ""
  }

  /** The Job is the addon's own, for the spec at hand. */
  predicate OwnCurrent(rules: Rules, spec: AddonSpec, job: Option<Job>) {
    job.Some? && job.value.owned && job.value.specHash == rules.hash(Resolve(rules, spec))
  }

  /** The last sync is long enough ago: half a minute after a failure, five minutes otherwise. */
  predicate Rested(s: Status, now: int) {
    s.lastSyncTime.Some? ==> now >= s.lastSyncTime.value + if s.phase == Failed then 30 else 300
  }

  /** Nothing can be new: the ref is a commit, and that commit is synced with its modules known. */
  predicate NothingNew(spec: AddonSpec, s: Status) {
    CommitId(spec.ref) && s.phase == Synced && s.clonedCommit == spec.ref && s.modules != []
  }

  lemma PinnedMeansNothingNew(spec: AddonSpec, s: Status)
    ensures Pinned(spec, s) <==> NothingNew(spec, s)
  {
    CommitIds(spec.ref);
    CommitIds("main");
  }

  // ---- The Job -----------------------------------------------------------------------------

  /** When a pass starts a Job, and which one: everything is in place and valid, no Job of that name is
      there, the addon has rested, and something can be new. It is built for the spec that was read
      and mounts the claim of the instance named there; a Job that has the name by now stays. */
  lemma StartsExactly(ws: seq<World>, rules: Rules, r: Reads, to: World)
    requires ws != []
    ensures Happens(ws, rules, to, StartJob(r))
            <==> && ReadBefore(r, |ws|)
                 && var (spec, status) := (ws[r.addon].spec, ws[r.addon].status);
                    && NamespaceOk(rules, spec) && InPlace(spec, r) && Valid(rules, spec) && ws[r.job].job == None
                    && Rested(status, r.now) && !NothingNew(spec, status)
                    && to == ws[|ws| - 1].(job := to.job) && to.job.Some?
                    && (if ws[|ws| - 1].job.Some? then to.job == ws[|ws| - 1].job
                        else to.job == Some(Job(|ws|, true, rules.hash(Resolve(rules, spec)), Resolve(rules, spec),
                                                spec.instance + "-addons", false, false, None)))
  {
    if ReadBefore(r, |ws|) {
      PinnedMeansNothingNew(ws[r.addon].spec, ws[r.addon].status);
    }
  }

  /** When a pass deletes the Job it read: it is the addon's own, and it has ended, or the spec is not
      the one it was built from or is not valid any more. A Job that took its name since stays. */
  lemma DeletesExactly(ws: seq<World>, rules: Rules, r: Reads, to: World)
    requires ws != []
    ensures Happens(ws, rules, to, DeleteJob(r))
            <==> && ReadBefore(r, |ws|)
                 && var (spec, job) := (ws[r.addon].spec, ws[r.job].job);
                    && NamespaceOk(rules, spec) && InPlace(spec, r) && job.Some? && job.value.owned
                    && (!Valid(rules, spec) || !OwnCurrent(rules, spec, job) || job.value.succeeded || job.value.failed)
                    && var now := ws[|ws| - 1];
                       to == now.(job := if now.job.Some? && now.job.value.uid == job.value.uid then None else now.job)
  {
  }

  // ---- The status --------------------------------------------------------------------------

  /** The status has this phase, and Ready accordingly. */
  predicate ShowsPhase(s: Status, phase: Phase) {
    s.phase == phase && (phase == Synced ==> s.ready) && (phase == Failed || phase == Pending ==> !s.ready)
  }

  /** What a write sets, next to the conditions. */
  lemma Sets(s: Status, w: Write, gen: int, now: int)
    ensures var t := Apply(s, w, gen, now);
            && t.phase == (match w case Keep => s.phase case Sync => Syncing case Park(_, _) => Pending
                                   case Success(_, _) => Synced case _ => Failed)
            && t.ready == (match w case Keep => s.ready case Sync => s.ready case Success(_, _) => true case _ => false)
            && (t.clonedCommit, t.modules) == (if w.Success? then (w.commit, w.modules) else (s.clonedCommit, s.modules))
            && t.message == (match w case Keep => s.message case Park(_, _) => s.message
                                     case Fail(_, m) => m case Failure(_, m) => m case _ => "")
            && t.lastSyncTime == (if w.Success? || w.Failure? || (w.Fail? && s.lastSyncTime == None) then Some(now)
                                  else s.lastSyncTime)
  {
  }

  /** The write of a pass that judges a Job. */
  lemma Judges(ws: seq<World>, rules: Rules, r: Reads)
    requires ReadBefore(r, |ws|) && NamespaceOk(rules, ws[r.addon].spec) && InPlace(ws[r.addon].spec, r)
    ensures var (spec, was, job, w) := (ws[r.addon].spec, ws[r.addon].status, ws[r.job].job, WriteOf(ws, rules, r));
            && (!Valid(rules, spec) ==> w.Some? && w.value.Fail?)
            && (Valid(rules, spec) && job.Some? ==>
                  if !job.value.owned then w.Some? && w.value.Fail?
                  else if !OwnCurrent(rules, spec, job) then w == None
                  else if job.value.succeeded then
                    if r.logs && job.value.output.Some? && job.value.output.value.0 != ""
                    then w == Some(Success(job.value.output.value.0, job.value.output.value.1))
                    else w.Some? && w.value.Failure?
                  else if job.value.failed then w.Some? && w.value.Failure?
                  else w == Some(if was.phase == Synced then Keep else Sync))
  {
  }

  /** The write of a pass that ends early, or finds no Job. */
  lemma Idles(ws: seq<World>, rules: Rules, r: Reads)
    requires ReadBefore(r, |ws|)
    ensures var (spec, was, w) := (ws[r.addon].spec, ws[r.addon].status, WriteOf(ws, rules, r));
            if !NamespaceOk(rules, spec) then w.Some? && w.value.Fail?
            else if !InPlace(spec, r) then w.Some? && w.value.Park?
            else Valid(rules, spec) && ws[r.job].job == None ==>
              w == Some(if !Rested(was, r.now) || NothingNew(spec, was) || was.phase == Synced then Keep else Sync)
  {
    PinnedMeansNothingNew(ws[r.addon].spec, ws[r.addon].status);
  }

  lemma WriteLands(ws: seq<World>, rules: Rules, r: Reads, to: World)
    requires ws != [] && Happens(ws, rules, to, WriteStatus(r))
    ensures ReadBefore(r, |ws|) && WriteOf(ws, rules, r).Some?
    ensures to.status == Apply(ws[r.addon].status, WriteOf(ws, rules, r).value, ws[r.addon].generation, r.now)
    ensures to == ws[|ws| - 1].(status := to.status, version := |ws|)
  {
    Sets(ws[r.addon].status, WriteOf(ws, rules, r).value, ws[r.addon].generation, r.now);
  }

  /** A pass that ends before the Job: a foreign namespace fails, what is missing parks. */
  lemma EarlyWrites(ws: seq<World>, rules: Rules, r: Reads, to: World)
    requires ws != [] && Happens(ws, rules, to, WriteStatus(r))
    ensures var spec := ws[r.addon].spec;
            && (!NamespaceOk(rules, spec) ==> ShowsPhase(to.status, Failed))
            && (NamespaceOk(rules, spec) && !InPlace(spec, r) ==> ShowsPhase(to.status, Pending))
  {
    WriteLands(ws, rules, r, to);
    Sets(ws[r.addon].status, WriteOf(ws, rules, r).value, ws[r.addon].generation, r.now);
    Idles(ws, rules, r);
  }

  /** Ready gives this reason. */
  ghost predicate Reports(s: Status, reason: string) {
    exists m :: Explains(s.conditions, "Ready", reason, m)
  }

  lemma Reported(s: Status, w: Write, gen: int, now: int)
    requires w.Park? || w.Fail? || w.Failure?
    requires w.reason != "" && (w.Park? ==> w.msg != "")
    ensures Reports(Apply(s, w, gen, now), w.reason)
  {
    ReasonsAreShown(s, w, gen, now);
  }

  /** The reason in the write of a pass that ends early, or cannot use the spec or the Job name. */
  lemma Reasons(ws: seq<World>, rules: Rules, r: Reads)
    requires ReadBefore(r, |ws|)
    ensures var (spec, job, w) := (ws[r.addon].spec, ws[r.job].job, WriteOf(ws, rules, r));
            if !NamespaceOk(rules, spec) then w.Some? && w.value.Fail? && w.value.reason == "InvalidSpec"
            else if spec.instance == "" || !r.found then
              w.Some? && w.value.Park? && w.value.reason == "InstanceNotFound" && w.value.msg != ""
            else if !r.bound then w.Some? && w.value.Park? && w.value.reason == "VolumeNotBound" && w.value.msg != ""
            else if !Valid(rules, spec) then w.Some? && w.value.Fail? && w.value.reason == "InvalidSpec"
            else if job.Some? && !job.value.owned then w.Some? && w.value.Fail? && w.value.reason == "JobConflict"
            else OwnCurrent(rules, spec, job) && job.value.succeeded && w.Some? && !w.value.Success? ==>
              w.value.Failure? && w.value.reason == "SyncFailed"
  {
  }

  /** The reasons that Ready gives then. */
  lemma ReportedReasons(ws: seq<World>, rules: Rules, r: Reads, to: World)
    requires ws != [] && Happens(ws, rules, to, WriteStatus(r))
    ensures var (spec, job) := (ws[r.addon].spec, ws[r.job].job);
            if !NamespaceOk(rules, spec) then Reports(to.status, "InvalidSpec")
            else if spec.instance == "" || !r.found then Reports(to.status, "InstanceNotFound")
            else if !r.bound then Reports(to.status, "VolumeNotBound")
            else if !Valid(rules, spec) then Reports(to.status, "InvalidSpec")
            else if job.Some? && !job.value.owned then Reports(to.status, "JobConflict")
            else OwnCurrent(rules, spec, job) && job.value.succeeded && to.status.phase != Synced ==>
              Reports(to.status, "SyncFailed")
  {
    WriteLands(ws, rules, r, to);
    var w := WriteOf(ws, rules, r).value;
    Reasons(ws, rules, r);
    Sets(ws[r.addon].status, w, ws[r.addon].generation, r.now);
    if (w.Park? || w.Fail? || w.Failure?) && w.reason != "" && (w.Park? ==> w.msg != "") {
      Reported(ws[r.addon].status, w, ws[r.addon].generation, r.now);
    }
  }

  /** When the controller looks again: at once for a stale Job to be gone, soon after a start, half a
      minute after a failure or while a Job works, when the addon has rested, else in five minutes. */
  lemma LooksAgain(ws: seq<World>, rules: Rules, r: Reads)
    requires ReadBefore(r, |ws|)
    ensures var (d, s) := (DecisionOf(ws, rules, r), ws[r.addon].status);
            match d.action
            case DeleteStaleJob => d.requeue == 2
            case CreateJob => d.requeue == 5
            case RecordSuccess => d.requeue == 300
            case SkipResync => d.requeue == 300
            case Cooldown => s.lastSyncTime.Some? && r.now + d.requeue == s.lastSyncTime.value + if s.phase == Failed then 30 else 300
            case _ => d.requeue == 30
  {
  }

  /** A pass that judges the Job it read: an invalid spec and a foreign Job fail; an own Job that ended
      is recorded, with what its log says if it succeeded and the log could be read; of a Job for
      another spec nothing is recorded. */
  lemma JobWrites(ws: seq<World>, rules: Rules, r: Reads, to: World)
    requires ws != [] && Happens(ws, rules, to, WriteStatus(r))
    requires NamespaceOk(rules, ws[r.addon].spec) && InPlace(ws[r.addon].spec, r)
    ensures var (spec, was, job) := (ws[r.addon].spec, ws[r.addon].status, ws[r.job].job);
            && (!Valid(rules, spec) ==> ShowsPhase(to.status, Failed))
            && (Valid(rules, spec) && job.Some? && !job.value.owned ==> ShowsPhase(to.status, Failed))
            && (Valid(rules, spec) && job.Some? && job.value.owned ==> OwnCurrent(rules, spec, job))
            && (Valid(rules, spec) && job.Some? && job.value.owned && job.value.succeeded ==>
                  if r.logs && job.value.output.Some? && job.value.output.value.0 != ""
                  then ShowsPhase(to.status, Synced)
                       && (to.status.clonedCommit, to.status.modules) == job.value.output.value
                       && to.status.lastSyncTime == Some(r.now)
                  else ShowsPhase(to.status, Failed) && to.status.lastSyncTime == Some(r.now))
            && (Valid(rules, spec) && job.Some? && job.value.owned && job.value.failed && !job.value.succeeded ==>
                  ShowsPhase(to.status, Failed) && to.status.lastSyncTime == Some(r.now))
            && (Valid(rules, spec) && job.Some? && job.value.owned && !job.value.failed && !job.value.succeeded ==>
                  to.status.phase == (if was.phase == Synced then Synced else Syncing) && to.status.ready == was.ready)
  {
    WriteLands(ws, rules, r, to);
    Sets(ws[r.addon].status, WriteOf(ws, rules, r).value, ws[r.addon].generation, r.now);
    Judges(ws, rules, r);
  }

  /** A pass without a Job: one that starts it shows Syncing over anything but Synced; one that has not
      rested, or finds that nothing can be new, leaves the phase. */
  lemma IdleWrites(ws: seq<World>, rules: Rules, r: Reads, to: World)
    requires ws != [] && Happens(ws, rules, to, WriteStatus(r))
    requires NamespaceOk(rules, ws[r.addon].spec) && InPlace(ws[r.addon].spec, r) && Valid(rules, ws[r.addon].spec)
    requires ws[r.job].job == None
    ensures var (spec, was) := (ws[r.addon].spec, ws[r.addon].status);
            && to.status.ready == was.ready
            && to.status.phase == (if !Rested(was, r.now) || NothingNew(spec, was) || was.phase == Synced then was.phase
                                   else Syncing)
  {
    WriteLands(ws, rules, r, to);
    Sets(ws[r.addon].status, WriteOf(ws, rules, r).value, ws[r.addon].generation, r.now);
    Idles(ws, rules, r);
  }

  /** Whatever a pass writes, only the result of a Job brings a new commit and modules, and only a result
      or a first failure moves the time of the last sync; the spec and the Job stay. */
  lemma WritesKeep(ws: seq<World>, rules: Rules, r: Reads, to: World)
    requires ws != [] && Happens(ws, rules, to, WriteStatus(r))
    ensures var (spec, was, job) := (ws[r.addon].spec, ws[r.addon].status, ws[r.job].job);
            && to == ws[|ws| - 1].(status := to.status, version := |ws|)
            && (!(NamespaceOk(rules, spec) && InPlace(spec, r) && Valid(rules, spec) && OwnCurrent(rules, spec, job)
                  && job.value.succeeded) ==>
                  to.status.clonedCommit == was.clonedCommit && to.status.modules == was.modules)
            && (to.status.phase !in {Failed, Synced} ==> to.status.lastSyncTime == was.lastSyncTime)
            && (to.status.phase == Failed && was.phase != Failed ==> to.status.lastSyncTime.Some?)
  {
    WriteLands(ws, rules, r, to);
    Sets(ws[r.addon].status, WriteOf(ws, rules, r).value, ws[r.addon].generation, r.now);
    Idles(ws, rules, r);
    if NamespaceOk(rules, ws[r.addon].spec) && InPlace(ws[r.addon].spec, r) {
      Judges(ws, rules, r);
    }
  }

  /** When the status write of a pass lands: always on the object that was read, except that a pass that
      only deletes a stale Job writes none. */
  lemma WritesExactly(ws: seq<World>, rules: Rules, r: Reads)
    requires ws != []
    ensures (exists to :: Happens(ws, rules, to, WriteStatus(r)))
            <==> && ReadBefore(r, |ws|) && ws[r.addon].version == ws[|ws| - 1].version
                 && var (spec, job) := (ws[r.addon].spec, ws[r.job].job);
                    !(&& NamespaceOk(rules, spec) && InPlace(spec, r) && Valid(rules, spec)
                      && job.Some? && job.value.owned && !OwnCurrent(rules, spec, job))
  {
    if ReadBefore(r, |ws|) && WriteOf(ws, rules, r).Some? && ws[r.addon].version == ws[|ws| - 1].version {
      var from := ws[|ws| - 1];
      var to := from.(status := Apply(ws[r.addon].status, WriteOf(ws, rules, r).value, ws[r.addon].generation, r.now),
                      version := |ws|);
      assert Happens(ws, rules, to, WriteStatus(r));
    }
  }

  // ---- Over runs ---------------------------------------------------------------------------

  /** The Ready condition says what the ready field says, at every moment of every run; and once a status
      write has landed it is there. */
  lemma {:induction false} ReadyConditionAgrees(ws: seq<World>, rules: Rules, events: seq<Event>, k: nat)
    requires Run(ws, rules, events) && k <= |events|
    ensures Holds(ws[k].status.conditions, "Ready") <==> ws[k].status.ready
    ensures (exists j :: 0 <= j < k && events[j].WriteStatus?) ==>
              (Denies(ws[k].status.conditions, "Ready") <==> !ws[k].status.ready)
    decreases k
  {
    ReadyIsSynced(ws, rules, events, k);
    if k > 0 {
      ReadyConditionAgrees(ws, rules, events, k - 1);
      if events[k - 1].WriteStatus? {
        var r := events[k - 1].r;
        StatusStep(ws, rules, events, k - 1, r);
        ConditionsAgree(ws[k - 1].status, WriteOf(ws, rules, r).value, ws[k - 1].generation, r.now);
      } else {
        OtherSteps(ws, rules, events, k - 1);
      }
    }
  }

  /** Step `s` starts a Job, having read the addon with a spec that asks for the same sync as `spec`. */
  ghost predicate StartedFor(ws: seq<World>, rules: Rules, events: seq<Event>, s: nat, spec: AddonSpec)
    requires s < |events| < |ws|
  {
    events[s].StartJob? && ReadBefore(events[s].r, s + 1) && SameSync(rules, ws[events[s].r.addon].spec, spec)
  }

  /** Step `b` records what an own Job of snapshot `t` printed, which was there ever since step `s`. */
  ghost predicate RecordsJob(ws: seq<World>, rules: Rules, events: seq<Event>, s: nat, t: nat, b: nat)
    requires s < t <= b < |events| < |ws|
  {
    && StartedFor(ws, rules, events, s, ws[b].spec) && (forall m :: s < m <= t ==> OwnedJob(ws[m]))
    && OwnedJob(ws[t]) && ws[t].job.value.succeeded && events[b].WriteStatus?
    && ws[t].job.value.output == Some((ws[b + 1].status.clonedCommit, ws[b + 1].status.modules))
  }

  /** In every run: whatever commit and modules the status shows were recorded, at some step, from a
      succeeded own Job that some pass had started for the url, ref, path, module name, layout and
      secret that the addon had at that step. */
  lemma CommitsAreOfTheseFields(ws: seq<World>, rules: Rules, events: seq<Event>, k: nat) returns (s: nat, t: nat, b: nat)
    requires Run(ws, rules, events) && HashTellsApart(rules) && k <= |events|
    requires ws[k].status.clonedCommit != "" || ws[k].status.modules != []
    ensures s < t <= b < k && RecordsJob(ws, rules, events, s, t, b)
    ensures ws[k].status.clonedCommit == ws[b + 1].status.clonedCommit && ws[k].status.modules == ws[b + 1].status.modules
  {
    CommitsAreTraced(ws, rules, events, k);
    t, b :| 0 <= t <= b < k && RecordedAt(ws, rules, events, t, b, ws[k].status.clonedCommit, ws[k].status.modules);
    s := StartOf(ws, rules, events, t);
    ResolveTellsApart(rules, ws[events[s].r.addon].spec, ws[b].spec);
  }

  /** Any edit that asks for another sync makes the own Job stale: while the addon is in order, a pass
      that reads both as they are now deletes that Job, and records and starts nothing. */
  lemma EditMakesStale(ws: seq<World>, rules: Rules, spec: AddonSpec, r: Reads)
    requires ws != [] && HashTellsApart(rules) && ReadBefore(r, |ws|) && r.addon == r.job == |ws| - 1
    requires var w := ws[|ws| - 1];
             && OwnedJob(w) && w.job.value.specHash == rules.hash(Resolve(rules, spec)) && !SameSync(rules, spec, w.spec)
             && NamespaceOk(rules, w.spec) && InPlace(w.spec, r) && Valid(rules, w.spec)
    ensures Happens(ws, rules, ws[|ws| - 1].(job := None), DeleteJob(r))
    ensures forall to :: !Happens(ws, rules, to, WriteStatus(r)) && !Happens(ws, rules, to, StartJob(r))
  {
    ResolveTellsApart(rules, spec, ws[|ws| - 1].spec);
    DeletesExactly(ws, rules, r, ws[|ws| - 1].(job := None));
    WritesExactly(ws, rules, r);
  }
}
