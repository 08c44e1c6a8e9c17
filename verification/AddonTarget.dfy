/** Which volume a recorded result is on. The hash on a Job leaves out `spec.instanceRef`, so a Job
    started for one instance is taken for a Job of the other after that field was edited. */
module AddonTarget {
  import opened Options
  import opened AddonConditions
  import opened AddonSync
  import opened AddonRuns

  predicate OwnedJob(w: World) {
    w.job.Some? && w.job.value.owned
  }

  /** Step `k` records a success. */
  ghost predicate Records(ws: seq<World>, rules: Rules, events: seq<Event>, k: nat)
    requires k < |events| < |ws|
  {
    && events[k].WriteStatus? && ReadBefore(events[k].r, k + 1)
    && WriteOf(ws, rules, events[k].r).Some? && WriteOf(ws, rules, events[k].r).value.Success?
  }

  /** The recorded result is on another volume than that of the instance the addon names. */
  ghost predicate RecordsWrong(ws: seq<World>, rules: Rules, events: seq<Event>, k: nat)
    requires k < |events| < |ws|
  {
    Records(ws, rules, events, k) && ws[events[k].r.job].job.Some?
    && ws[events[k].r.job].job.value.volume != VolumeOf(ws[k].spec)
  }

  /** Step `s` started this Job, for the spec that it had read. */
  ghost predicate StartedAt(ws: seq<World>, rules: Rules, events: seq<Event>, s: nat, job: Job)
    requires s < |events| < |ws|
  {
    && events[s].StartJob? && ReadBefore(events[s].r, s + 1)
    && job.volume == VolumeOf(ws[events[s].r.addon].spec) && job.built == Resolve(rules, ws[events[s].r.addon].spec)
  }

  /** An own Job was started by some pass, and has been there ever since. */
  lemma {:induction false} StartOf(ws: seq<World>, rules: Rules, events: seq<Event>, t: nat) returns (s: nat)
    requires Run(ws, rules, events) && t <= |events| && OwnedJob(ws[t])
    ensures s < t && StartedAt(ws, rules, events, s, ws[t].job.value)
    ensures forall m :: s < m <= t ==> OwnedJob(ws[m])
    decreases t
  {
    JobStep(ws, rules, events, t - 1);
    if OwnedJob(ws[t - 1]) && SameJob(ws[t - 1].job.value, ws[t].job.value) {
      s := StartOf(ws, rules, events, t - 1);
    } else {
      s := t - 1;
    }
  }

  // ---- When every record is on the right volume --------------------------------------------

  /** `spec.instanceRef` changes in step `k`. */
  predicate EditsInstance(ws: seq<World>, k: nat)
    requires k + 1 < |ws|
  {
    VolumeOf(ws[k].spec) != VolumeOf(ws[k + 1].spec)
  }

  /** The instance is edited only while the addon has no Job, no pass starts one later from what it
      read before, and none records what it read of a Job before. */
  ghost predicate QuietEdit(ws: seq<World>, rules: Rules, events: seq<Event>, k: nat)
    requires k < |events| < |ws|
  {
    && !OwnedJob(ws[k])
    && (forall j :: k < j < |events| && events[j].StartJob? ==> k < events[j].r.addon)
    && (forall j :: k < j < |events| && Records(ws, rules, events, j) ==> k < events[j].r.job)
  }

  lemma {:induction false} EditBetween(ws: seq<World>, i: nat, j: nat) returns (e: nat)
    requires i <= j < |ws| && VolumeOf(ws[i].spec) != VolumeOf(ws[j].spec)
    ensures i <= e < j && EditsInstance(ws, e)
    decreases j
  {
    if EditsInstance(ws, j - 1) {
      e := j - 1;
    } else {
      e := EditBetween(ws, i, j - 1);
    }
  }

  lemma OnlyEditsChangeSpec(ws: seq<World>, rules: Rules, events: seq<Event>, k: nat)
    requires Run(ws, rules, events) && k < |events| && !events[k].External?
    ensures !EditsInstance(ws, k)
  {
    StepOf(ws, rules, events, k);
  }

  /** A record is on the volume of the instance that the addon named when the pass that started the
      Job read it; so it is wrong exactly when the addon names another one by now. */
  lemma RecordedVolume(ws: seq<World>, rules: Rules, events: seq<Event>, k: nat) returns (s: nat)
    requires Run(ws, rules, events) && k < |events| && Records(ws, rules, events, k)
    ensures OwnedJob(ws[events[k].r.job]) && s < events[k].r.job
    ensures StartedAt(ws, rules, events, s, ws[events[k].r.job].job.value)
    ensures forall m :: s < m <= events[k].r.job ==> OwnedJob(ws[m])
    ensures RecordsWrong(ws, rules, events, k) <==> VolumeOf(ws[events[s].r.addon].spec) != VolumeOf(ws[k].spec)
  {
    RecordingRead(ws, rules, events, k);
    s := StartOf(ws, rules, events, events[k].r.job);
  }

  /** In every run whose edits of the instance are quiet, however stale the other reads, every
      recorded result is on the volume of the instance that the addon names. */
  lemma RecordsAreOnVolume(ws: seq<World>, rules: Rules, events: seq<Event>, k: nat)
    requires Run(ws, rules, events) && k < |events|
    requires forall e :: 0 <= e < |events| && EditsInstance(ws, e) ==> QuietEdit(ws, rules, events, e)
    ensures !RecordsWrong(ws, rules, events, k)
  {
    if Records(ws, rules, events, k) {
      var s := RecordedVolume(ws, rules, events, k);
      if VolumeOf(ws[events[s].r.addon].spec) != VolumeOf(ws[k].spec) {
        var e := EditBetween(ws, events[s].r.addon, k);
        assert QuietEdit(ws, rules, events, e);
        if e == s {
          OnlyEditsChangeSpec(ws, rules, events, s);
        }
        assert false;
      }
    }
  }

  // ---- When an edit is dangerous -----------------------------------------------------------

  /** Passes would accept the spec if its instance and volume are there. */
  predicate Sound(rules: Rules, spec: AddonSpec) {
    && (spec.instanceNamespace == "" || spec.instanceNamespace == rules.namespace) && spec.instance != ""
    && rules.check(Resolve(rules, spec)) == ""
  }

  /** The Job has not failed, nor ended without printing a commit. */
  predicate MaySucceed(job: Job) {
    !Lost(job) && (job.output.Some? ==> job.output.value.0 != "")
  }

  /** An own Job of this source spec is there that mounts another volume and may still succeed. */
  predicate Endangered(rules: Rules, w: World) {
    && Sound(rules, w.spec) && OwnedJob(w) && w.job.value.specHash == rules.hash(Resolve(rules, w.spec))
    && w.job.value.volume != VolumeOf(w.spec) && MaySucceed(w.job.value)
  }

  /** The run goes on without another edit, and every pass reads what is there from now on. */
  ghost predicate GoesOn(ws: seq<World>, events: seq<Event>, more: seq<World>, moreEvents: seq<Event>) {
    && |ws| == |events| + 1 && |more| == |moreEvents| + 1
    && ws <= more && events <= moreEvents
    && (forall k :: |ws| <= k < |more| ==> more[k].spec == ws[|ws| - 1].spec)
    && (forall k :: |events| <= k < |moreEvents| && !moreEvents[k].External? ==>
          moreEvents[k].r.addon >= |events| && moreEvents[k].r.job >= |events|)
  }

  /** Later, an own Job is the one that was there, or mounts the volume that is named now. */
  lemma {:induction false} JobSince(ws: seq<World>, events: seq<Event>, rules: Rules, more: seq<World>,
                                    moreEvents: seq<Event>, t: nat)
    requires ws != [] && Run(more, rules, moreEvents) && GoesOn(ws, events, more, moreEvents)
    requires |events| <= t < |more| && OwnedJob(more[t])
    ensures || more[t].job.value.volume == VolumeOf(ws[|events|].spec)
            || (OwnedJob(ws[|events|]) && SameJob(ws[|events|].job.value, more[t].job.value))
    decreases t
  {
    assert more[|events|] == ws[|events|];
    if t > |events| {
      JobStep(more, rules, moreEvents, t - 1);
      if OwnedJob(more[t - 1]) {
        JobSince(ws, events, rules, more, moreEvents, t - 1);
      }
    }
  }

  /** What a pass that records a success has read. */
  lemma RecordingRead(ws: seq<World>, rules: Rules, events: seq<Event>, k: nat)
    requires k < |events| < |ws| && Records(ws, rules, events, k)
    ensures var r := events[k].r;
            && OwnedJob(ws[r.job]) && Sound(rules, ws[r.addon].spec)
            && ws[r.job].job.value.specHash == rules.hash(Resolve(rules, ws[r.addon].spec))
            && ws[r.job].job.value.output.Some? && MaySucceed(ws[r.job].job.value)
  {
    assert DecisionOf(ws, rules, events[k].r).action.RecordSuccess?;
  }

  lemma WrongMeansEndangered(ws: seq<World>, events: seq<Event>, rules: Rules, more: seq<World>,
                             moreEvents: seq<Event>, k: nat)
    requires ws != [] && Run(more, rules, moreEvents) && GoesOn(ws, events, more, moreEvents)
    requires |events| <= k < |moreEvents| && RecordsWrong(more, rules, moreEvents, k)
    ensures Endangered(rules, ws[|events|])
  {
    var r := moreEvents[k].r;
    RecordingRead(more, rules, moreEvents, k);
    SpecSince(ws, events, more, moreEvents, k);
    SpecSince(ws, events, more, moreEvents, r.addon);
    JobSince(ws, events, rules, more, moreEvents, r.job);
  }

  lemma SpecSince(ws: seq<World>, events: seq<Event>, more: seq<World>, moreEvents: seq<Event>, k: nat)
    requires GoesOn(ws, events, more, moreEvents) && |events| <= k < |more|
    ensures more[k].spec == ws[|events|].spec
  {
    assert more[|events|] == ws[|events|];
  }

  lemma Extends(ws: seq<World>, rules: Rules, events: seq<Event>, to: World, e: Event)
    requires Run(ws, rules, events) && Happens(ws, rules, to, e)
    ensures Run(ws + [to], rules, events + [e])
  {
    var more, moreEvents := ws + [to], events + [e];
    forall i | 0 <= i < |moreEvents| ensures HappensAt(more, rules, moreEvents, i) {
      assert i < |events| ==> HappensAt(ws, rules, events, i);
      assert more[..i + 1] == if i < |events| then ws[..i + 1] else ws;
    }
  }

  /** The Job ends well. */
  function Ended(job: Job): Job {
    job.(succeeded := true, output := if job.output == None then Some(("commit", [])) else job.output)
  }

  lemma EndedReads(ws: seq<World>, rules: Rules, w: World, r: Reads)
    requires Endangered(rules, w) && r == Reads(|ws|, |ws|, true, true, 0, true, "", "")
    ensures var ended := Ended(w.job.value);
            ended.output.Some? && WriteOf(ws + [w.(job := Some(ended))], rules, r)
                                  == Some(Success(ended.output.value.0, ended.output.value.1))
  {
    assert (ws + [w.(job := Some(Ended(w.job.value)))])[|ws|] == w.(job := Some(Ended(w.job.value)));
  }

  lemma EndangeredGoesWrong(ws: seq<World>, rules: Rules, events: seq<Event>)
    returns (more: seq<World>, moreEvents: seq<Event>)
    requires Run(ws, rules, events) && Endangered(rules, ws[|events|])
    ensures Run(more, rules, moreEvents) && GoesOn(ws, events, more, moreEvents)
    ensures |moreEvents| == |events| + 2 && RecordsWrong(more, rules, moreEvents, |events| + 1)
    ensures more[|events| + 2].status.ready && more[|events| + 2].spec == ws[|events|].spec
  {
    var w := ws[|events|];
    var ended := w.(job := Some(Ended(w.job.value)));
    var mid, midEvents := ws + [ended], events + [External(ended)];
    Extends(ws, rules, events, ended, External(ended));
    var r := Reads(|ws|, |ws|, true, true, 0, true, "", "");
    EndedReads(ws, rules, w, r);
    var out := ended.job.value.output.value;
    var done := ended.(status := Apply(ended.status, Success(out.0, out.1), ended.generation, 0), version := |mid|);
    Extends(mid, rules, midEvents, done, WriteStatus(r));
    more, moreEvents := mid + [done], midEvents + [WriteStatus(r)];
    SameDecision(more, rules, |mid|, r);
    assert more[..|mid|] == mid && more[|events| + 1] == ended && more[|events| + 2] == done;
    WriteEffect(ended.status, Success(out.0, out.1), ended.generation, 0);
  }

  /** At any point of any run: a result can be recorded for the wrong volume, without a further edit
      and with reads that are no older than this point, exactly when an own Job of the source spec
      is there that mounts another volume and may still succeed. */
  lemma DangerIsExact(ws: seq<World>, rules: Rules, events: seq<Event>)
    requires Run(ws, rules, events)
    ensures (exists more, moreEvents, k ::
               Run(more, rules, moreEvents) && GoesOn(ws, events, more, moreEvents)
               && |events| <= k < |moreEvents| && RecordsWrong(more, rules, moreEvents, k))
            <==> Endangered(rules, ws[|events|])
  {
    if Endangered(rules, ws[|events|]) {
      var more, moreEvents := EndangeredGoesWrong(ws, rules, events);
      assert |events| <= |events| + 1 < |moreEvents| && RecordsWrong(more, rules, moreEvents, |events| + 1);
    }
    forall more, moreEvents, k | Run(more, rules, moreEvents) && GoesOn(ws, events, more, moreEvents)
                                 && |events| <= k < |moreEvents| && RecordsWrong(more, rules, moreEvents, k)
      ensures Endangered(rules, ws[|events|])
    {
      WrongMeansEndangered(ws, events, rules, more, moreEvents, k);
    }
  }

  /** Editing the instance while an own Job of this source spec can still succeed is dangerous exactly
      because of that Job. */
  lemma EditEndangers(rules: Rules, w: World, to: World, instance: string)
    requires OwnedJob(w) && w.job.value.volume == VolumeOf(w.spec) && instance != "" && instance != w.spec.instance
    requires to.spec == w.spec.(instance := instance) && to.job == w.job && Sound(rules, w.spec)
    ensures Endangered(rules, to) <==>
              w.job.value.specHash == rules.hash(Resolve(rules, w.spec)) && MaySucceed(w.job.value)
  {
    DifferentVolumes(w.spec, to.spec);
    assert Resolve(rules, to.spec) == Resolve(rules, w.spec);
  }

  /** In any run, editing nothing but the instance while an own Job of the source spec may still
      succeed can end in a record on the wrong volume. */
  lemma EditGoesWrong(ws: seq<World>, rules: Rules, events: seq<Event>, instance: string)
    returns (more: seq<World>, moreEvents: seq<Event>)
    requires Run(ws, rules, events)
    requires var w := ws[|events|];
             && OwnedJob(w) && Sound(rules, w.spec) && w.job.value.volume == VolumeOf(w.spec)
             && w.job.value.specHash == rules.hash(Resolve(rules, w.spec))
             && MaySucceed(w.job.value)
             && instance != "" && instance != w.spec.instance
    ensures Run(more, rules, moreEvents) && |moreEvents| == |events| + 3 && ws <= more
    ensures EditsInstance(more, |events|) && RecordsWrong(more, rules, moreEvents, |events| + 2)
    ensures more[|events| + 3].status.ready && more[|events| + 3].spec == ws[|events|].spec.(instance := instance)
  {
    var w := ws[|events|];
    var to := w.(spec := w.spec.(instance := instance), generation := w.generation + 1, version := |ws|);
    Extends(ws, rules, events, to, External(to));
    EditEndangers(rules, w, to, instance);
    DifferentVolumes(w.spec, to.spec);
    var mid := ws + [to];
    more, moreEvents := EndangeredGoesWrong(mid, rules, events + [External(to)]);
    assert more[|events|] == mid[|events|] && more[|events| + 1] == mid[|events| + 1];
  }

  lemma DifferentVolumes(a: AddonSpec, b: AddonSpec)
    ensures VolumeOf(a) == VolumeOf(b) <==> a.instance == b.instance
  {
    if VolumeOf(a) == VolumeOf(b) {
      assert a.instance == VolumeOf(a)[..|VolumeOf(a)| - 7] == VolumeOf(b)[..|VolumeOf(b)| - 7] == b.instance;
    }
  }

  /** A Job started from an older read of the addon is dangerous exactly when the instance was edited
      since, and nothing that enters the hash was. */
  lemma OldStartEndangers(ws: seq<World>, rules: Rules, events: seq<Event>, to: World, r: Reads)
    requires Run(ws, rules, events) && HashTellsApart(rules) && ws[|events|].job == None
    requires Happens(ws, rules, to, StartJob(r)) && Sound(rules, to.spec)
    ensures Endangered(rules, to) <==>
              ws[r.addon].spec.instance != to.spec.instance
              && Resolve(rules, ws[r.addon].spec) == Resolve(rules, to.spec)
  {
    DifferentVolumes(ws[r.addon].spec, to.spec);
  }

  // ---- A run that records the wrong volume -------------------------------------------------

  const SPEC := AddonSpec("https://git.example/addons", "main", "", "", false, "", "a", "")

  /** The first pass over an addon that is in order starts its Job. */
  lemma FirstStart(rules: Rules, spec: AddonSpec, r: Reads) returns (ws: seq<World>, events: seq<Event>)
    requires Sound(rules, spec) && r == Reads(0, 0, true, true, 0, true, "", "")
    ensures Run(ws, rules, events) && |events| == 1 && ws[0].spec == spec
    ensures ws[1] == World(spec, 1, NEW_STATUS, 0, Some(NewJob(rules, spec, 1)))
  {
    var w0 := World(spec, 1, NEW_STATUS, 0, None);
    var w1 := w0.(job := Some(NewJob(rules, spec, 1)));
    assert DecisionOf([w0], rules, r).action.CreateJob?;
    Extends([w0], rules, [], w1, StartJob(r));
    ws, events := [w0] + [w1], [] + [StartJob(r)];
  }

  /** A Job is started for instance "a", the addon is moved to instance "b", the Job succeeds: the
      addon is Ready for "b" with modules that are on the volume of "a". */
  lemma EditedInstanceIsRecorded(rules: Rules) returns (ws: seq<World>, events: seq<Event>)
    requires Sound(rules, SPEC)
    ensures Run(ws, rules, events) && |events| == 4 && RecordsWrong(ws, rules, events, 3)
    ensures ws[4].status.ready && ws[4].spec == SPEC.(instance := "b")
    ensures ws[1].job.Some? && ws[1].job.value.volume == "a-addons"
  {
    var ws1, events1 := FirstStart(rules, SPEC, Reads(0, 0, true, true, 0, true, "", ""));
    assert SPEC.instance == "a" && VolumeOf(SPEC) == "a-addons";
    ws, events := EditGoesWrong(ws1, rules, events1, "b");
    assert ws[1] == ws1[1];
  }
}
