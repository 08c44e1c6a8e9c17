/** An addon pinned to the commit it shows. It takes no notice of edits that leave its ref, until some
    status write drops Ready; from then on it syncs again. */
module AddonPinned {
  import opened Options
  import opened AddonConditions
  import opened AddonSync
  import opened AddonRuns
  import opened AddonTarget

  predicate PinnedNow(w: World) {
    Pinned(w.spec, w.status) && !OwnedJob(w)
  }

  /** From snapshot `k` on the ref stays, and every pass reads what is there from then on. */
  ghost predicate RefKept(ws: seq<World>, events: seq<Event>, k: nat)
    requires k <= |events| && |ws| == |events| + 1
  {
    && (forall m :: k <= m < |ws| ==> Ref(ws[m].spec) == Ref(ws[k].spec))
    && (forall d :: k <= d < |events| && !events[d].External? ==> k <= events[d].r.addon && k <= events[d].r.job)
  }

  /** Step `d` is a status write that drops Ready. */
  ghost predicate DropsAt(ws: seq<World>, rules: Rules, events: seq<Event>, d: nat)
    requires d < |events| < |ws|
  {
    && events[d].WriteStatus? && ReadBefore(events[d].r, d + 1)
    && WriteOf(ws, rules, events[d].r).Some? && Drops(WriteOf(ws, rules, events[d].r).value)
  }

  /** Without an own Job in sight a pass records no success. */
  lemma NoSuccessWithoutJob(ws: seq<World>, rules: Rules, r: Reads)
    requires ReadBefore(r, |ws|) && !OwnedJob(ws[r.job])
    ensures WriteOf(ws, rules, r).Some? ==> !WriteOf(ws, rules, r).value.Success?
  {
  }

  /** A status write over a Synced phase, by a pass that saw no own Job, keeps it or drops it. */
  lemma PinnedWrite(ws: seq<World>, rules: Rules, events: seq<Event>, m: nat)
    requires Run(ws, rules, events) && m < |events| && events[m].WriteStatus? && ws[m].status.phase.Synced?
    requires events[m].r.job < |ws| && !OwnedJob(ws[events[m].r.job])
    ensures DropsAt(ws, rules, events, m) <==> !ws[m + 1].status.phase.Synced?
    ensures ws[m + 1].status.clonedCommit == ws[m].status.clonedCommit && ws[m + 1].status.modules == ws[m].status.modules
  {
    var r := events[m].r;
    StatusStep(ws, rules, events, m, r);
    NeverSyncsSynced(ws, rules, r);
    NoSuccessWithoutJob(ws, rules, r);
    WriteEffect(ws[m].status, WriteOf(ws, rules, r).value, ws[m].generation, r.now);
  }

  /** No pass that reads a pinned addon starts a Job. */
  lemma PinnedStartsNothing(ws: seq<World>, rules: Rules, events: seq<Event>, m: nat)
    requires Run(ws, rules, events) && m < |events| && !OwnedJob(ws[m])
    requires events[m].StartJob? ==> events[m].r.addon < |ws| && Pinned(ws[events[m].r.addon].spec, ws[events[m].r.addon].status)
    ensures !OwnedJob(ws[m + 1])
  {
    StepOf(ws, rules, events, m);
    if events[m].StartJob? {
      SameDecision(ws, rules, m + 1, events[m].r);
    }
  }

  /** A pinned addon stays pinned, at the same commit and modules, and gets no Job, whatever else of
      its spec is edited, until a status write drops Ready. */
  lemma {:induction false} PinnedStays(ws: seq<World>, rules: Rules, events: seq<Event>, k: nat, m: nat)
    requires Run(ws, rules, events) && k <= m <= |events| && PinnedNow(ws[k]) && RefKept(ws, events, k)
    requires forall d :: k <= d < m ==> !DropsAt(ws, rules, events, d)
    ensures PinnedNow(ws[m])
    ensures ws[m].status.clonedCommit == ws[k].status.clonedCommit && ws[m].status.modules == ws[k].status.modules
    decreases m
  {
    if k < m {
      var n := m - 1;
      PinnedStays(ws, rules, events, k, n);
      if !events[n].External? {
        ReadBeforeStep(ws, rules, events, n);
        PinnedStays(ws, rules, events, k, events[n].r.addon);
        PinnedStays(ws, rules, events, k, events[n].r.job);
      }
      PinnedStartsNothing(ws, rules, events, n);
      if events[n].WriteStatus? {
        PinnedWrite(ws, rules, events, n);
      } else {
        OtherSteps(ws, rules, events, n);
      }
    }
  }

  lemma DropUnpins(ws: seq<World>, rules: Rules, events: seq<Event>, d: nat)
    requires Run(ws, rules, events) && d < |events| && DropsAt(ws, rules, events, d)
    ensures !ws[d + 1].status.phase.Synced?
  {
    var r := events[d].r;
    StatusStep(ws, rules, events, d, r);
    WriteEffect(ws[d].status, WriteOf(ws, rules, r).value, ws[d].generation, r.now);
  }

  lemma UnpinnedStep(ws: seq<World>, rules: Rules, events: seq<Event>, n: nat)
    requires Run(ws, rules, events) && n < |events| && !ws[n].status.phase.Synced?
    requires events[n].WriteStatus? ==> events[n].r.job < |ws| && !OwnedJob(ws[events[n].r.job])
    ensures !ws[n + 1].status.phase.Synced?
  {
    if events[n].WriteStatus? {
      var r := events[n].r;
      StatusStep(ws, rules, events, n, r);
      NoSuccessWithoutJob(ws, rules, r);
      WriteEffect(ws[n].status, WriteOf(ws, rules, r).value, ws[n].generation, r.now);
    } else {
      OtherSteps(ws, rules, events, n);
    }
  }

  lemma ReadBeforeStep(ws: seq<World>, rules: Rules, events: seq<Event>, n: nat)
    requires Run(ws, rules, events) && n < |events| && !events[n].External?
    ensures ReadBefore(events[n].r, n + 1)
  {
    StepOf(ws, rules, events, n);
  }

  /** The phase comes back to Synced only through the result of an own Job. */
  lemma {:induction false} UnpinnedStays(ws: seq<World>, rules: Rules, events: seq<Event>, k: nat, i: nat, m: nat)
    requires Run(ws, rules, events) && k <= i <= m <= |events| && RefKept(ws, events, k) && !ws[i].status.phase.Synced?
    requires forall t :: k <= t <= m ==> !OwnedJob(ws[t])
    ensures !ws[m].status.phase.Synced?
    decreases m
  {
    if i < m {
      var n := m - 1;
      UnpinnedStays(ws, rules, events, k, i, n);
      if !events[n].External? {
        ReadBeforeStep(ws, rules, events, n);
      }
      UnpinnedStep(ws, rules, events, n);
    }
  }

  /** Exactly when the pin is gone: in any run on from a pinned addon, while no Job of it has appeared
      since, it is still pinned if and only if no status write has dropped Ready since. */
  lemma PinnedUntilDropped(ws: seq<World>, rules: Rules, events: seq<Event>, k: nat, m: nat)
    requires Run(ws, rules, events) && k <= m <= |events| && PinnedNow(ws[k]) && RefKept(ws, events, k)
    requires forall t :: k <= t <= m ==> !OwnedJob(ws[t])
    ensures Pinned(ws[m].spec, ws[m].status) <==> forall d :: k <= d < m ==> !DropsAt(ws, rules, events, d)
  {
    if forall d :: k <= d < m ==> !DropsAt(ws, rules, events, d) {
      PinnedStays(ws, rules, events, k, m);
    } else {
      var d :| k <= d < m && DropsAt(ws, rules, events, d);
      DropUnpins(ws, rules, events, d);
      UnpinnedStays(ws, rules, events, k, d + 1, m);
    }
  }

  /** A pass over an addon without a Job, long after its last sync, that finds everything in place. */
  predicate FreshPass(ws: seq<World>, r: Reads) {
    && r.addon == r.job == |ws| - 1 && r.found && r.bound
    && (ws != [] && ws[r.addon].status.lastSyncTime.Some? ==> r.now - ws[r.addon].status.lastSyncTime.value >= RESYNC)
  }

  /** So an edit of a pinned addon is synced exactly when a status write has dropped Ready since: that
      is when the next pass starts a Job for the spec as it is now. */
  lemma SyncsAfterDrop(ws: seq<World>, rules: Rules, events: seq<Event>, k: nat, r: Reads)
    requires Run(ws, rules, events) && k <= |events| && PinnedNow(ws[k]) && RefKept(ws, events, k)
    requires forall t :: k <= t <= |events| ==> !OwnedJob(ws[t])
    requires Sound(rules, ws[|events|].spec) && ws[|events|].job == None && FreshPass(ws, r)
    ensures Creates(ws, rules, r) <==> exists d :: k <= d < |events| && DropsAt(ws, rules, events, d)
  {
    PinnedUntilDropped(ws, rules, events, k, |events|);
    ResyncsUnlessPinned(ws, rules, r);
  }

  // ---- Runs in which the edit is synced ----------------------------------------------------

  function Later(s: Status): int {
    if s.lastSyncTime.Some? then s.lastSyncTime.value + RESYNC else 0
  }

  /** At any point of any run, an addon that is in order, not pinned and without a Job gets one for its
      spec. */
  lemma UnpinnedStarts(ws: seq<World>, rules: Rules, events: seq<Event>) returns (more: seq<World>, r: Reads)
    requires Run(ws, rules, events) && Sound(rules, ws[|events|].spec) && ws[|events|].job == None
    requires !Pinned(ws[|events|].spec, ws[|events|].status)
    ensures Run(more, rules, events + [StartJob(r)]) && r.addon == r.job == |events|
    ensures more == ws + [ws[|events|].(job := Some(NewJob(rules, ws[|events|].spec, |ws|)))]
  {
    var n := |events|;
    r := Reads(n, n, true, true, Later(ws[n].status), true, "", "");
    ResyncsUnlessPinned(ws, rules, r);
    var to := ws[n].(job := Some(NewJob(rules, ws[n].spec, |ws|)));
    Extends(ws, rules, events, to, StartJob(r));
    more := ws + [to];
  }

  /** A pass that does not find the instance parks the addon. */
  lemma MissingInstanceParks(ws: seq<World>, rules: Rules, events: seq<Event>) returns (more: seq<World>, r: Reads)
    requires Run(ws, rules, events) && Sound(rules, ws[|events|].spec)
    ensures Run(more, rules, events + [WriteStatus(r)]) && r.addon == r.job == |events|
    ensures |more| == |ws| + 1 && ws <= more && DropsAt(more, rules, events + [WriteStatus(r)], |events|)
    ensures var w, to := ws[|events|], more[|ws|];
            to.spec == w.spec && to.job == w.job && to.status.phase.Pending?
  {
    var n := |events|;
    r := Reads(n, n, false, true, 0, true, "", "");
    var w := WriteOf(ws, rules, r).value;
    assert w.Park?;
    var to := ws[n].(status := Apply(ws[n].status, w, ws[n].generation, 0), version := |ws|);
    Extends(ws, rules, events, to, WriteStatus(r));
    more := ws + [to];
    SameDecision(more, rules, |ws|, r);
    assert more[..|ws|] == ws;
  }

  /** From any point of any run at which the addon is pinned and idle, whatever else of its spec is
      edited: one pass that does not find the instance, and the next one starts a Job for the edited
      spec on the volume it names now. */
  lemma EditIsSynced(ws: seq<World>, rules: Rules, events: seq<Event>, spec: AddonSpec)
    returns (more: seq<World>, moreEvents: seq<Event>)
    requires Run(ws, rules, events) && PinnedNow(ws[|events|]) && ws[|events|].job == None
    requires Sound(rules, spec) && Ref(spec) == Ref(ws[|events|].spec)
    ensures Run(more, rules, moreEvents) && |moreEvents| == |events| + 3 && ws <= more && events <= moreEvents
    ensures RefKept(more, moreEvents, |events|) && DropsAt(more, rules, moreEvents, |events| + 1)
    ensures PinnedNow(more[|events| + 1]) && more[|events| + 1].spec == spec
    ensures more[|events| + 3].job == Some(NewJob(rules, spec, |events| + 3))
  {
    var n := |events|;
    var edited := ws[n].(spec := spec, generation := ws[n].generation + 1, version := |ws|);
    Extends(ws, rules, events, edited, External(edited));
    var ws1, events1 := ws + [edited], events + [External(edited)];
    var ws2, park := MissingInstanceParks(ws1, rules, events1);
    var events2 := events1 + [WriteStatus(park)];
    var ws3, start := UnpinnedStarts(ws2, rules, events2);
    more, moreEvents := ws3, events2 + [StartJob(start)];
    assert more[n] == ws[n] && more[n + 1] == edited && more[n + 2] == ws2[n + 2];
    SameWrite(ws2, more, rules, events2, moreEvents, n + 1);
  }

  lemma SameWrite(ws: seq<World>, more: seq<World>, rules: Rules, events: seq<Event>, moreEvents: seq<Event>, d: nat)
    requires d < |events| < |ws| && ws <= more && events <= moreEvents && |moreEvents| < |more|
    requires DropsAt(ws, rules, events, d)
    ensures DropsAt(more, rules, moreEvents, d)
  {
    SameDecision(more, rules, |ws|, events[d].r);
    assert more[..|ws|] == ws;
  }

  // ---- A pinned addon ----------------------------------------------------------------------

  /** A first sync of a commit, recorded and retired: the addon is pinned and idle. */
  lemma FirstSync(rules: Rules, spec: AddonSpec, modules: seq<string>) returns (ws: seq<World>, events: seq<Event>)
    requires Sound(rules, spec) && IsCommit(Ref(spec)) && modules != []
    ensures Run(ws, rules, events) && |events| == 4
    ensures PinnedNow(ws[4]) && ws[4].job == None && ws[4].spec == spec
    ensures ws[4].status.clonedCommit == Ref(spec) && ws[4].status.modules == modules
  {
    ws, events := FirstStart(rules, spec, Reads(0, 0, true, true, 0, true, "", ""));
    var w := ws[1];
    var ended := w.(job := Some(w.job.value.(succeeded := true, output := Some((Ref(spec), modules)))));
    Extends(ws, rules, events, ended, External(ended));
    ws, events := ws + [ended], events + [External(ended)];
    ws, events := Recorded(ws, rules, events, Ref(spec), modules);
  }

  /** The result of a Job that has printed it is recorded, and the Job goes. */
  lemma Recorded(ws: seq<World>, rules: Rules, events: seq<Event>, commit: string, modules: seq<string>)
    returns (more: seq<World>, moreEvents: seq<Event>)
    requires Run(ws, rules, events) && commit != ""
    requires var w := ws[|events|];
             && Sound(rules, w.spec) && OwnedJob(w) && w.job.value.specHash == rules.hash(Resolve(rules, w.spec))
             && w.job.value.succeeded && w.job.value.output == Some((commit, modules))
    ensures Run(more, rules, moreEvents) && |moreEvents| == |events| + 2
    ensures var w, to := ws[|events|], more[|events| + 2];
            && to.spec == w.spec && to.job == None
            && to.status.phase.Synced? && to.status.clonedCommit == commit && to.status.modules == modules
  {
    var n := |events|;
    var r := Reads(n, n, true, true, 0, true, "", "");
    var done := ws[n].(status := Apply(ws[n].status, Success(commit, modules), ws[n].generation, 0), version := |ws|);
    assert WriteOf(ws, rules, r) == Some(Success(commit, modules));
    Extends(ws, rules, events, done, WriteStatus(r));
    var mid, midEvents := ws + [done], events + [WriteStatus(r)];
    SameDecision(mid, rules, |ws|, r);
    assert mid[..|ws|] == ws;
    var gone := done.(job := None);
    Extends(mid, rules, midEvents, gone, DeleteJob(r));
    more, moreEvents := mid + [gone], midEvents + [DeleteJob(r)];
  }

  const COMMIT: string := seq(40, i => 'a')

  /** A run from the creation of the addon: pinned on the volume of instance "a", moved to instance
      "b", parked once, and synced again on the volume of "b". */
  lemma MovedWhilePinned(rules: Rules) returns (ws: seq<World>, events: seq<Event>)
    requires Sound(rules, SPEC.(ref := COMMIT))
    ensures Run(ws, rules, events) && |events| == 7
    ensures PinnedNow(ws[4]) && PinnedNow(ws[5]) && VolumeOf(ws[4].spec) == "a-addons" && VolumeOf(ws[5].spec) == "b-addons"
    ensures ws[7].job.Some? && ws[7].job.value.owned && ws[7].job.value.volume == "b-addons"
  {
    var spec := SPEC.(ref := COMMIT);
    MovedSpec(rules);
    var start, first := FirstSync(rules, spec, ["m"]);
    ws, events := EditIsSynced(start, rules, first, spec.(instance := "b"));
    assert ws[4] == start[4];
  }

  lemma MovedSpec(rules: Rules)
    ensures var spec := SPEC.(ref := COMMIT); var moved := spec.(instance := "b");
            && IsCommit(Ref(spec)) && Ref(moved) == Ref(spec)
            && (Sound(rules, spec) ==> Sound(rules, moved))
            && VolumeOf(spec) == "a-addons" && VolumeOf(moved) == "b-addons"
  {
    var spec := SPEC.(ref := COMMIT);
    assert Ref(spec) == COMMIT;
    assert Resolve(rules, spec.(instance := "b")) == Resolve(rules, spec);
    assert "a" + "-addons" == "a-addons" && "b" + "-addons" == "b-addons";
  }
}
