/** Histories of syncs of one addon: completed and refused ones, cut-off ones, and the cleanup of
    a deleted addon. */
module SyncHistory {
  import opened Options
  import opened AddonVolume
  import opened SyncScript
  import opened SyncCorrect
  import opened SyncRuns

  // ---- Completed and refused runs ------------------------------------------------------------

  /** The addon was never synced to this volume. */
  ghost predicate Fresh(v: Volume, a: Addon) {
    a !in v.stores && forall k :: !OwnLink(v, a, k)
  }

  /** The links into the store of `a` are exactly the modules `names`, all at commit `c` and all
      resolving; the manifest says the same; at most two releases remain, the linked one first. */
  ghost predicate Settled(v: Volume, a: Addon, c: Commit, names: seq<Name>) {
    && (forall k :: OwnLink(v, a, k) <==> k.Module? && k.name in names)
    && (forall n :: n in names ==> OwnLink(v, a, Module(n)) && v.top[Module(n)] == Link(a, c, n) && Holds(v, a, c, n))
    && StoreOf(v, a).manifest == Some(names)
    && 1 <= |StoreOf(v, a).order| <= 2 && StoreOf(v, a).order[0] == c
  }

  /** The volume after every job ran to its end or was refused. */
  function SyncAll(v: Volume, jobs: seq<Job>): Volume
    requires forall i :: 0 <= i < |jobs| ==> ValidJob(jobs[i])
  {
    if jobs == [] then v else
      var last := |jobs| - 1;
      Run(jobs[last], SyncAll(v, jobs[..last]), INIT).0
  }

  /** The last job that was not refused. */
  function LastDone(v: Volume, jobs: seq<Job>): Option<Job>
    requires forall i :: 0 <= i < |jobs| ==> ValidJob(jobs[i])
  {
    if jobs == [] then None else
      var last := |jobs| - 1;
      if Refuses(jobs[last], SyncAll(v, jobs[..last])) then LastDone(v, jobs[..last]) else Some(jobs[last])
  }

  ghost predicate Tidy(j: Job, v: Volume) {
    forall k :: OwnLink(v, j.addon, k) ==> k.Module? && (k.name in j.names || (k.name in ManifestOf(v, j.addon) && k.name != ""))
  }

  lemma FinalSettles(j: Job, v: Volume)
    requires ValidJob(j) && Tidy(j, v)
    ensures Settled(Final(j, v), j.addon, j.commit, j.names)
  {
    var w := Final(j, v);
    forall k ensures OwnLink(w, j.addon, k) <==> k.Module? && k.name in j.names {
      if k in w.top && !(k.Module? && k.name in j.names) {
        assert w.top[k] == v.top[k];
        assert !IsOwn(w.top[k], j.addon);
      }
    }
    assert w.stores[j.addon] == FinalStore(j, StoreOf(v, j.addon));
    assert FinalStore(j, StoreOf(v, j.addon)).order[0] == j.commit;
  }

  /** From a volume the addon never touched, after any sequence of completed or refused syncs the
      volume shows exactly the last completed one, or is as it was when every sync was refused. */
  lemma {:induction false} SyncsSettle(v: Volume, a: Addon, jobs: seq<Job>)
    requires ValidVolume(v) && Fresh(v, a)
    requires forall i :: 0 <= i < |jobs| ==> ValidJob(jobs[i]) && jobs[i].addon == a
    ensures ValidVolume(SyncAll(v, jobs))
    ensures match LastDone(v, jobs)
            case None => SyncAll(v, jobs) == v
            case Some(j) => j in jobs && Settled(SyncAll(v, jobs), a, j.commit, j.names)
    decreases |jobs|
  {
    if jobs != [] {
      var last := |jobs| - 1;
      var u := SyncAll(v, jobs[..last]);
      SyncsSettle(v, a, jobs[..last]);
      RunOutcome(jobs[last], u);
      if !Refuses(jobs[last], u) {
        assert Tidy(jobs[last], u);
        FinalSettles(jobs[last], u);
      }
    }
  }

  // ---- Cut-off runs that are not run again -------------------------------------------------

  /** The release `c` is one of the two the run keeps. */
  predicate Survives(j: Job, v: Volume, c: Commit) {
    c in KeepTwo(ToFront(StoreOf(v, j.addon).order, j.commit))
  }

  /** A link that neither the manifest nor the run knows points at a folder the run keeps. */
  ghost predicate LeaksSurvive(j: Job, v: Volume) {
    forall n :: OwnLink(v, j.addon, Module(n)) && n !in j.names && !IsStale(j, ManifestOf(v, j.addon), Module(n)) ==>
      var e := v.top[Module(n)];
      Survives(j, v, e.commit) && (Holds(v, j.addon, e.commit, e.folder) || (e.commit == j.commit && e.folder in j.names))
  }

  lemma FinalHolds(j: Job, v: Volume, c: Commit, n: Name)
    requires ValidJob(j)
    ensures Holds(Final(j, v), j.addon, c, n) <==>
              Survives(j, v, c) && (Holds(v, j.addon, c, n) || (c == j.commit && n in j.names))
  {
    var s := FinalStore(j, StoreOf(v, j.addon));
    assert StoreOf(Final(j, v), j.addon) == s;
    assert c in s.releases <==> Survives(j, v, c);
  }

  /** Every visible module resolves after a completed run exactly when each link left behind by a
      run that was cut off and not rerun points at a folder that this run keeps. */
  lemma ResolvesAfterRun(j: Job, v: Volume)
    requires ValidJob(j) && ValidVolume(v) && !Refuses(j, v)
    ensures AllResolve(Run(j, v, INIT).0, j.addon) <==> LeaksSurvive(j, v)
  {
    RunOutcome(j, v);
    var w := Final(j, v);
    forall c, n ensures Holds(w, j.addon, c, n) <==>
      Survives(j, v, c) && (Holds(v, j.addon, c, n) || (c == j.commit && n in j.names))
    {
      FinalHolds(j, v, c, n);
    }
    forall n | n !in j.names
      ensures OwnLink(w, j.addon, Module(n)) <==> OwnLink(v, j.addon, Module(n)) && !IsStale(j, ManifestOf(v, j.addon), Module(n))
      ensures OwnLink(w, j.addon, Module(n)) ==> w.top[Module(n)] == v.top[Module(n)]
    {
    }
    assert ToFront(StoreOf(v, j.addon).order, j.commit)[0] == j.commit;
    assert Survives(j, v, j.commit);
    if LeaksSurvive(j, v) {
      forall n | OwnLink(w, j.addon, Module(n)) ensures Resolves(w, j.addon, Module(n)) {
      }
    }
    if AllResolve(w, j.addon) {
      forall n | OwnLink(v, j.addon, Module(n)) && n !in j.names && !IsStale(j, ManifestOf(v, j.addon), Module(n))
        ensures var e := v.top[Module(n)];
                Survives(j, v, e.commit) && (Holds(v, j.addon, e.commit, e.folder) || (e.commit == j.commit && e.folder in j.names))
      {
        assert Resolves(w, j.addon, Module(n));
      }
    }
  }

  // ---- Cleanup -----------------------------------------------------------------------------

  /** The volume after the cleanup script of `a`: none of its links, no store. */
  function CleanupOf(v: Volume, a: Addon): Volume {
    Volume(map k | k in v.top && !IsOwn(v.top[k], a) :: v.top[k], v.stores - {a})
  }

  /** One sync attempt: the job and the number of commands it ran before it was cut off (a number
      larger than the run leaves it complete). */
  datatype Attempt = Attempt(job: Job, commands: nat)

  function AfterAttempts(v: Volume, h: seq<Attempt>): Volume
    requires forall i :: 0 <= i < |h| ==> ValidJob(h[i].job)
  {
    if h == [] then v else
      var last := |h| - 1;
      Exec(h[last].job, AfterAttempts(v, h[..last]), INIT, h[last].commands).0
  }

  /** `v` is `v0` plus links and a store of the addon `a`. */
  ghost predicate Overlay(v0: Volume, v: Volume, a: Addon) {
    && (forall k :: k in v0.top ==> k in v.top && v.top[k] == v0.top[k])
    && (forall k :: k in v.top && k !in v0.top ==> IsOwn(v.top[k], a))
    && v.stores - {a} == v0.stores
  }

  ghost predicate NamesFree(v: Volume, j: Job) {
    forall n :: n in j.names ==> Module(n) !in v.top && Switch(n) !in v.top
  }

  lemma OverlayStore(v0: Volume, v: Volume, a: Addon, s: Store)
    requires Overlay(v0, v, a)
    ensures Overlay(v0, WithStore(v, a, s), a)
  {
    assert v.stores[a := s] - {a} == v.stores - {a};
  }

  lemma OverlayLinking(j: Job, v0: Volume, v: Volume, l: Local)
    requires ValidJob(j) && PcOk(j, l.pc) && Overlay(v0, v, j.addon) && NamesFree(v0, j)
    requires l.pc.ClearDir? || l.pc.PointSwitch? || l.pc.Flip?
    ensures Overlay(v0, Step(j, v, l).0, j.addon)
  {
    assert j.names[l.pc.i] in j.names;
  }

  lemma OverlayStale(j: Job, v0: Volume, v: Volume, l: Local)
    requires ValidJob(j) && PcOk(j, l.pc) && Overlay(v0, v, j.addon) && l.pc.Stale?
    requires forall k :: !OwnLink(v0, j.addon, k)
    ensures Overlay(v0, Step(j, v, l).0, j.addon)
  {
    assert forall k :: OwnLink(v, j.addon, k) ==> k !in v0.top || OwnLink(v0, j.addon, k);
  }

  lemma OverlayStep(j: Job, v0: Volume, v: Volume, l: Local)
    requires ValidJob(j) && PcOk(j, l.pc) && Overlay(v0, v, j.addon) && NamesFree(v0, j)
    requires forall k :: !OwnLink(v0, j.addon, k)
    ensures Overlay(v0, Step(j, v, l).0, j.addon)
  {
    if l.pc.Stale? {
      OverlayStale(j, v0, v, l);
    } else if Linking(l.pc) {
      OverlayLinking(j, v0, v, l);
    } else {
      OverlayStoring(j, v0, v, l);
    }
  }

  lemma OverlayStoring(j: Job, v0: Volume, v: Volume, l: Local)
    requires ValidJob(j) && PcOk(j, l.pc) && Overlay(v0, v, j.addon) && !Linking(l.pc)
    ensures Overlay(v0, Step(j, v, l).0, j.addon)
  {
    var w := Step(j, v, l).0;
    EntriesUntouched(j, v, l);
    OwnStoreOnly(j, v, l);
    OverlayStore(v0, v, j.addon, StoreOf(w, j.addon));
  }

  lemma {:induction false} OverlayExec(j: Job, v0: Volume, v: Volume, l: Local, k: nat)
    requires ValidJob(j) && PcOk(j, l.pc) && Overlay(v0, v, j.addon) && NamesFree(v0, j)
    requires forall k :: !OwnLink(v0, j.addon, k)
    ensures Overlay(v0, Exec(j, v, l, k).0, j.addon)
    decreases k
  {
    if k > 0 {
      OverlayStep(j, v0, v, l);
      var s := Step(j, v, l);
      OverlayExec(j, v0, s.0, s.1, k - 1);
    }
  }

  lemma {:induction false} OverlayHistory(v0: Volume, a: Addon, h: seq<Attempt>)
    requires Fresh(v0, a)
    requires forall i :: 0 <= i < |h| ==> ValidJob(h[i].job) && h[i].job.addon == a && NamesFree(v0, h[i].job)
    ensures Overlay(v0, AfterAttempts(v0, h), a)
    decreases |h|
  {
    if h == [] {
      assert v0.stores - {a} == v0.stores;
    } else {
      var last := |h| - 1;
      OverlayHistory(v0, a, h[..last]);
      OverlayExec(h[last].job, v0, AfterAttempts(v0, h[..last]), INIT, h[last].commands);
    }
  }

  /** Deleting an addon undoes everything its syncs did: after any history of its syncs, cut-off
      ones included, the cleanup restores the volume as it was before the first one, provided the
      names it published were free then. */
  lemma CleanupRestores(v0: Volume, a: Addon, h: seq<Attempt>)
    requires Fresh(v0, a)
    requires forall i :: 0 <= i < |h| ==> ValidJob(h[i].job) && h[i].job.addon == a && NamesFree(v0, h[i].job)
    ensures CleanupOf(AfterAttempts(v0, h), a) == v0
  {
    OverlayHistory(v0, a, h);
    var v := AfterAttempts(v0, h);
    forall k | k in v0.top ensures k in v.top && !IsOwn(v.top[k], a) {
      assert !OwnLink(v0, a, k);
    }
    assert CleanupOf(v, a).top == v0.top;
  }

  // ---- A history that leaves a dangling link -----------------------------------------------

  const EMPTY := Volume(map[], map[])

  function One(c: Commit, n: Name): Job {
    Job("a", c, true, true, [n], map[n := [MANIFEST]])
  }

  const MANIFEST: File := "__manifest__.py"
  const WHOLE: set<File> := {MANIFEST}

  /** A volume with nothing but the release `c` of addon "a". */
  function Holding(top: map<Key, Entry>, c: Commit, r: Release): Volume {
    Volume(top, map["a" := Store([c], map[c := r], None, None)])
  }

  lemma HoldingStore(v: Volume, top: map<Key, Entry>, c: Commit, r: Release)
    requires v.top == top && v.stores.Keys == {"a"} && v.stores["a"].order == [c]
    requires v.stores["a"].releases.Keys == {c} && v.stores["a"].releases[c] == r
    requires v.stores["a"].manifest == None && v.stores["a"].manifestTmp == None
    ensures v == Holding(top, c, r)
  {
    assert v.stores["a"].releases == map[c := r];
    assert v.stores == map["a" := v.stores["a"]];
  }

  lemma HoldingRelease(top: map<Key, Entry>, c: Commit, r: Release, q: Release)
    ensures WithRelease(Holding(top, c, r), "a", c, q) == Holding(top, c, q)
    ensures MakeRelease(Volume(top, map[]), "a", c) == Holding(top, c, NO_RELEASE)
  {
    assert Without<Commit>([], c) == [];
    assert [c][1..] == [];
    assert ToFront([c], c) == [c];
    HoldingStore(WithRelease(Holding(top, c, r), "a", c, q), top, c, q);
    HoldingStore(MakeRelease(Volume(top, map[]), "a", c), top, c, NO_RELEASE);
  }

  lemma Advance(j: Job, k: nat, s: (Volume, Local), t: (Volume, Local))
    requires ValidJob(j) && Exec(j, EMPTY, INIT, k) == s && PcOk(j, s.1.pc) && Step(j, s.0, s.1) == t
    ensures Exec(j, EMPTY, INIT, k + 1) == t
  {
    ExecLast(j, EMPTY, INIT, k);
  }

  lemma FirstRelease(j: Job) returns (k: nat)
    requires j == One("c1", "m")
    ensures ValidJob(j) && Exec(j, EMPTY, INIT, k) == (Holding(map[], "c1", NO_RELEASE), Local([], OpenPartial(0)))
  {
    k := 0;
    Advance(j, k, (EMPTY, INIT), (EMPTY, Local([], Check(0)))); k := k + 1;
    Advance(j, k, (EMPTY, Local([], Check(0))), (EMPTY, Local([], Check(1)))); k := k + 1;
    Advance(j, k, (EMPTY, Local([], Check(1))), (EMPTY, Local([], SavePrev))); k := k + 1;
    Advance(j, k, (EMPTY, Local([], SavePrev)), (EMPTY, Local([], MakeRel))); k := k + 1;
    var v := Holding(map[], "c1", NO_RELEASE);
    HoldingRelease(map[], "c1", NO_RELEASE, NO_RELEASE);
    Advance(j, k, (EMPTY, Local([], MakeRel)), (v, Local([], Publish(0)))); k := k + 1;
    Advance(j, k, (v, Local([], Publish(0))), (v, Local([], ClearPartial(0)))); k := k + 1;
    Advance(j, k, (v, Local([], ClearPartial(0))), (v, Local([], OpenPartial(0)))); k := k + 1;
  }

  lemma FirstCopy(j: Job) returns (k: nat)
    requires j == One("c1", "m")
    ensures ValidJob(j)
    ensures Exec(j, EMPTY, INIT, k) == (Holding(map[], "c1", Release(map[], map["m" := WHOLE])), Local([], Copy(0, 1)))
  {
    k := FirstRelease(j);
    var e, r := Release(map[], map["m" := {}]), Release(map[], map["m" := WHOLE]);
    var u, o, v := Holding(map[], "c1", NO_RELEASE), Holding(map[], "c1", e), Holding(map[], "c1", r);
    HoldingRelease(map[], "c1", NO_RELEASE, e);
    Advance(j, k, (u, Local([], OpenPartial(0))), (o, Local([], Copy(0, 0)))); k := k + 1;
    HoldingRelease(map[], "c1", e, r);
    assert {} + {MANIFEST} == WHOLE && e.partials["m" := WHOLE] == r.partials;
    Advance(j, k, (o, Local([], Copy(0, 0))), (v, Local([], Copy(0, 1)))); k := k + 1;
  }

  lemma FirstStrip(j: Job) returns (k: nat)
    requires j == One("c1", "m")
    ensures ValidJob(j)
    ensures Exec(j, EMPTY, INIT, k) == (Holding(map[], "c1", Release(map[], map["m" := WHOLE])), Local([], Finish(0)))
  {
    k := FirstCopy(j);
    var r := Release(map[], map["m" := WHOLE]);
    var v := Holding(map[], "c1", r);
    Advance(j, k, (v, Local([], Copy(0, 1))), (v, Local([], StripGit(0)))); k := k + 1;
    assert MANIFEST[0] != GIT_DIR[0];
    assert WHOLE - {GIT_DIR} == WHOLE && r.partials["m" := WHOLE] == r.partials;
    HoldingStore(RemoveGit(v, "a", "c1", "m"), map[], "c1", r);
    Advance(j, k, (v, Local([], StripGit(0))), (v, Local([], Finish(0)))); k := k + 1;
  }

  lemma FirstFolder(j: Job) returns (k: nat)
    requires j == One("c1", "m")
    ensures ValidJob(j)
    ensures Exec(j, EMPTY, INIT, k) == (Holding(map[], "c1", Release(map["m" := WHOLE], map[])), Local([], ClearDir(0)))
  {
    k := FirstStrip(j);
    var r, q := Release(map[], map["m" := WHOLE]), Release(map["m" := WHOLE], map[]);
    var v, w := Holding(map[], "c1", r), Holding(map[], "c1", q);
    HoldingRelease(map[], "c1", r, q);
    assert r.partials - {"m"} == map[];
    Advance(j, k, (v, Local([], Finish(0))), (w, Local([], ClearDir(0)))); k := k + 1;
  }

  /** A few commands into its first sync, the addon has published its module and recorded nothing. */
  lemma FirstPublish(j: Job) returns (k: nat)
    requires j == One("c1", "m")
    ensures ValidJob(j) && Exec(j, EMPTY, INIT, k).0 ==
            Holding(map[Module("m") := Link("a", "c1", "m")], "c1", Release(map["m" := WHOLE], map[]))
  {
    k := FirstFolder(j);
    var w := Holding(map[], "c1", Release(map["m" := WHOLE], map[]));
    var x := MakeSwitch(w, "a", "c1", "m");
    var y := ApplySwitch(x, "m");
    Advance(j, k, (w, Local([], ClearDir(0))), (w, Local([], PointSwitch(0)))); k := k + 1;
    Advance(j, k, (w, Local([], PointSwitch(0))), (x, Local([], Flip(0)))); k := k + 1;
    assert y.top == map[Module("m") := Link("a", "c1", "m")];
    Advance(j, k, (x, Local([], Flip(0))), (y, Local([], Publish(1)))); k := k + 1;
  }

  lemma SecondSync(j: Job, u: Volume)
    requires j == One("c2", "n")
    requires u == Holding(map[Module("m") := Link("a", "c1", "m")], "c1", Release(map["m" := WHOLE], map[]))
    ensures ValidJob(j) && ValidVolume(u) && !Refuses(j, u)
    ensures var v := Final(j, u);
            && OwnLink(v, "a", Module("m")) && v.top[Module("m")] == Link("a", "c1", "m")
            && StoreOf(v, "a").order == ["c2", "c1"] && ManifestOf(v, "a") == ["n"]
            && !Conflicts(v, "a", "n")
  {
    assert Without<Commit>([], "c2") == [] && ["c1"][1..] == [];
    assert ToFront(["c1"], "c2") == ["c2", "c1"];
    assert StoreOf(u, "a").order == ["c1"];
    assert Module("m") in u.top && !IsStale(j, ManifestOf(u, "a"), Module("m"));
  }

  lemma ThirdSync(j: Job, v: Volume)
    requires j == One("c3", "n") && ValidVolume(v)
    requires OwnLink(v, "a", Module("m")) && v.top[Module("m")] == Link("a", "c1", "m")
    requires StoreOf(v, "a").order == ["c2", "c1"] && ManifestOf(v, "a") == ["n"] && !Conflicts(v, "a", "n")
    ensures ValidJob(j) && !Refuses(j, v) && !LeaksSurvive(j, v) && !AllResolve(Run(j, v, INIT).0, j.addon)
  {
    assert Without<Commit>([], "c3") == [] && ["c2", "c1"][1..] == ["c1"] && ["c1"][1..] == [];
    assert ToFront(["c2", "c1"], "c3") == ["c3", "c2", "c1"];
    assert !Survives(j, v, "c1");
    ResolvesAfterRun(j, v);
  }

  lemma TwoAttempts(v: Volume, a: Attempt, b: Attempt)
    requires ValidJob(a.job) && ValidJob(b.job)
    ensures AfterAttempts(v, [a, b]) == Exec(b.job, Exec(a.job, v, INIT, a.commands).0, INIT, b.commands).0
  {
    assert [a, b][..1] == [a] && [a][..0] == [];
    assert AfterAttempts(v, [a]) == Exec(a.job, v, INIT, a.commands).0;
  }

  lemma LeakyVolume(j1: Job, j2: Job) returns (h: seq<Attempt>)
    requires j1 == One("c1", "m") && j2 == One("c2", "n")
    ensures |h| == 2 && h[0].job == j1 && h[1].job == j2 && ValidJob(j1) && ValidJob(j2)
    ensures var v := AfterAttempts(EMPTY, h);
            && ValidVolume(v) && OwnLink(v, "a", Module("m")) && v.top[Module("m")] == Link("a", "c1", "m")
            && StoreOf(v, "a").order == ["c2", "c1"] && ManifestOf(v, "a") == ["n"] && !Conflicts(v, "a", "n")
  {
    var cut := FirstPublish(j1);
    var u := Exec(j1, EMPTY, INIT, cut).0;
    SecondSync(j2, u);
    RunOutcome(j2, u);
    var whole := RunIsExec(j2, u, INIT);
    TwoAttempts(EMPTY, Attempt(j1, cut), Attempt(j2, whole));
    h := [Attempt(j1, cut), Attempt(j2, whole)];
  }

  /** Without a rerun a cut-off sync can leak a link, and a later prune can break it: a sync that
      published "m" is cut off before it records its manifest, and the two next syncs, at other
      commits, list "n" only. The volume before the last one is reached from an empty one. */
  lemma LeakedLinkCanDangle(j1: Job, j2: Job, j: Job) returns (h: seq<Attempt>)
    requires j1 == One("c1", "m") && j2 == One("c2", "n") && j == One("c3", "n")
    ensures ValidJob(j) && |h| == 2 && ValidJob(h[0].job) && ValidJob(h[1].job) && h[0].job == j1 && h[1].job == j2
    ensures var v := AfterAttempts(EMPTY, h);
            !Refuses(j, v) && !LeaksSurvive(j, v) && !AllResolve(Run(j, v, INIT).0, j.addon)
  {
    h := LeakyVolume(j1, j2);
    ThirdSync(j, AfterAttempts(EMPTY, h));
  }
}
