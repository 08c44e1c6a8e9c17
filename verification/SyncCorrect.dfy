/** Every state of every sync run, described by an invariant over the program counter, and what
    follows for a whole run and for a run that is cut off and started again. */
module SyncCorrect {
  import opened Options
  import opened AddonVolume
  import opened SyncScript

  // ---- Each command leaves the outcome of the run as it was --------------------------------

  /** A store ends up the same when its newest releases do. */
  lemma FinalStoreAlike(j: Job, s: Store, t: Store)
    requires KeepTwo(ToFront(t.order, j.commit)) == KeepTwo(ToFront(s.order, j.commit))
    requires forall x :: x in KeepTwo(ToFront(s.order, j.commit)) && x != j.commit ==> ReleaseOf(t, x) == ReleaseOf(s, x)
    requires FinalRelease(j, ReleaseOf(t, j.commit)) == FinalRelease(j, ReleaseOf(s, j.commit))
    ensures FinalStore(j, t) == FinalStore(j, s)
  {
    var a, b := FinalStore(j, t), FinalStore(j, s);
    assert a.order == b.order;
    assert a.releases == b.releases;
  }

  lemma FinalStoreWithRelease(j: Job, s: Store, r: Release)
    requires ValidStore(s)
    requires FinalRelease(j, r) == FinalRelease(j, ReleaseOf(s, j.commit))
    ensures FinalStore(j, s.(order := ToFront(s.order, j.commit), releases := s.releases[j.commit := r])) == FinalStore(j, s)
  {
    WithoutToFront(s.order, j.commit);
    FinalStoreAlike(j, s, s.(order := ToFront(s.order, j.commit), releases := s.releases[j.commit := r]));
  }

  lemma FinalStoreWithPartial(j: Job, s: Store, r: Release)
    requires ValidStore(s) && j.commit in s.releases
    requires FinalRelease(j, r) == FinalRelease(j, s.releases[j.commit])
    ensures FinalStore(j, s.(releases := s.releases[j.commit := r])) == FinalStore(j, s)
  {
  }

  lemma FinalReleasePartials(j: Job, r: Release, n: Name, p: map<Name, set<File>>)
    requires n in j.names && n !in r.copies
    requires p - {n} == r.partials - {n}
    ensures FinalRelease(j, r.(partials := p)) == FinalRelease(j, r)
  {
    var gone := ToSet(j.names) - r.copies.Keys;
    assert n in gone;
    assert p - gone == (p - {n}) - gone;
    assert r.partials - gone == (r.partials - {n}) - gone;
  }

  lemma FinalReleaseFinish(j: Job, r: Release, n: Name)
    requires n in j.names && n !in r.copies
    ensures FinalRelease(j, Release(r.copies[n := CleanFiles(j, n)], r.partials - {n})) == FinalRelease(j, r)
  {
    var q := Release(r.copies[n := CleanFiles(j, n)], r.partials - {n});
    var a, b := FinalRelease(j, q), FinalRelease(j, r);
    assert a.copies.Keys == b.copies.Keys;
    assert a.copies == b.copies;
    assert a.partials == b.partials;
  }

  lemma {:induction false} WithoutAt(s: seq<Commit>, i: nat)
    requires NoDup(s) && i < |s|
    ensures Without(s, s[i]) == s[..i] + s[i + 1..]
  {
    var rest := s[1..];
    if i == 0 {
      WithoutMembers(rest, s[0]);
      assert s[..0] + s[1..] == rest;
    } else {
      WithoutAt(rest, i - 1);
      assert [s[0]] + (rest[..i - 1] + rest[i..]) == s[..i] + s[i + 1..];
    }
  }

  lemma RemoveThird(o: seq<Commit>)
    requires NoDup(o) && |o| > 2
    ensures Without(o, o[2]) == o[..2] + o[3..]
  {
    WithoutAt(o, 2);
  }

  lemma FrontStays(o: seq<Commit>)
    requires NoDup(o) && o != []
    ensures ToFront(o, o[0]) == o
  {
    WithoutAt(o, 0);
    assert [o[0]] + (o[..0] + o[1..]) == o;
  }

  lemma ThirdRemoved(o: seq<Commit>)
    requires NoDup(o) && |o| > 2
    ensures o[2] !in o[..2] && KeepTwo(ToFront(o, o[0])) == o[..2] == KeepTwo(ToFront(Without(o, o[2]), o[0]))
  {
    var t := o[..2] + o[3..];
    RemoveThird(o);
    FrontStays(o);
    assert NoDup(t);
    FrontStays(t);
    assert t[0] == o[0] && t[..2] == o[..2];
  }

  lemma FinalStoreRemove(j: Job, s: Store, d: Commit)
    requires ValidStore(s) && |s.order| > 2 && s.order[0] == j.commit && s.order[2] == d
    ensures FinalStore(j, s.(order := Without(s.order, d), releases := s.releases - {d})) == FinalStore(j, s)
  {
    ThirdRemoved(s.order);
    FinalStoreAlike(j, s, s.(order := Without(s.order, d), releases := s.releases - {d}));
  }

  // ---- The invariant ---------------------------------------------------------------------

  ghost predicate SameEntry(v0: Volume, v: Volume, k: Key) {
    (k in v.top <==> k in v0.top) && (k in v0.top && k in v.top ==> v.top[k] == v0.top[k])
  }

  /** What the run never touches: stores of other addons, and every entry that is neither one of
      its modules (or their switch links) nor listed in the manifest it found. */
  ghost predicate Frame(j: Job, v0: Volume, v: Volume) {
    && (forall a :: a != j.addon ==> (a in v.stores <==> a in v0.stores))
    && (forall a :: a != j.addon && a in v0.stores ==> v.stores[a] == v0.stores[a])
    && (forall k: Key :: k.name !in j.names && !(k.Module? && k.name in ManifestOf(v0, j.addon)) ==> SameEntry(v0, v, k))
  }

  /** A module of the run is as it was, or already linked to the new release, or a real folder
      about to be replaced. */
  ghost predicate ModulesMoveForward(j: Job, v0: Volume, v: Volume) {
    forall n :: n in j.names ==>
      || SameEntry(v0, v, Module(n))
      || (Module(n) in v.top && v.top[Module(n)] == Link(j.addon, j.commit, n))
      || (Module(n) in v0.top && v0.top[Module(n)].Dir? && Module(n) !in v.top)
  }

  /** Any other entry listed in the manifest stays, or is a link of this addon and is removed. */
  ghost predicate OnlyStaleGo(j: Job, v0: Volume, v: Volume) {
    forall n :: n !in j.names ==>
      || SameEntry(v0, v, Module(n))
      || (OwnLink(v0, j.addon, Module(n)) && Module(n) !in v.top)
  }

  ghost predicate PublishedTo(j: Job, v: Volume, i: nat) {
    forall m :: 0 <= m < i && m < |j.names| ==>
      && Module(j.names[m]) in v.top
      && v.top[Module(j.names[m])] == Link(j.addon, j.commit, j.names[m])
      && Switch(j.names[m]) !in v.top
      && Holds(v, j.addon, j.commit, j.names[m])
  }

  ghost predicate StaleGoneTo(j: Job, v: Volume, prev: seq<Name>, k: nat) {
    forall m :: 0 <= m < k && m < |prev| && prev[m] != "" && prev[m] !in j.names ==> !OwnLink(v, j.addon, Module(prev[m]))
  }

  ghost predicate Newest(j: Job, v: Volume) {
    StoreOf(v, j.addon).order != [] && StoreOf(v, j.addon).order[0] == j.commit
  }

  /** What holds of the volume when the script is about to run the command at `l.pc`. */
  ghost predicate At(j: Job, v: Volume, l: Local)
    requires ValidJob(j) && PcOk(j, l.pc)
  {
    var a, c := j.addon, j.commit;
    var s := StoreOf(v, a);
    match l.pc
    case Start => true
    case Check(i) =>
      && (!j.singleAddon ==> j.names != []) && (j.singleAddon ==> j.rootManifest)
      && forall m :: 0 <= m < i && m < |j.names| ==> !Conflicts(v, a, j.names[m])
    case SavePrev => !Refuses(j, v)
    case MakeRel => true
    case Publish(i) => c in s.releases && PublishedTo(j, v, i)
    case ClearPartial(i) => c in s.releases && PublishedTo(j, v, i) && !Holds(v, a, c, j.names[i])
    case OpenPartial(i) => c in s.releases && PublishedTo(j, v, i) && !Holds(v, a, c, j.names[i])
    case Copy(i, f) =>
      && c in s.releases && PublishedTo(j, v, i) && !Holds(v, a, c, j.names[i])
      && PartialFiles(v, a, c, j.names[i]) == ToSet(j.src[j.names[i]][..f])
    case StripGit(i) =>
      && c in s.releases && PublishedTo(j, v, i) && !Holds(v, a, c, j.names[i])
      && PartialFiles(v, a, c, j.names[i]) == ToSet(j.src[j.names[i]])
    case Finish(i) =>
      && c in s.releases && PublishedTo(j, v, i) && !Holds(v, a, c, j.names[i])
      && PartialFiles(v, a, c, j.names[i]) == CleanFiles(j, j.names[i])
    case ClearDir(i) => c in s.releases && PublishedTo(j, v, i) && Holds(v, a, c, j.names[i])
    case PointSwitch(i) => c in s.releases && PublishedTo(j, v, i) && Holds(v, a, c, j.names[i])
    case Flip(i) =>
      && c in s.releases && PublishedTo(j, v, i) && Holds(v, a, c, j.names[i])
      && Switch(j.names[i]) in v.top && v.top[Switch(j.names[i])] == Link(a, c, j.names[i])
    case TouchRel => c in s.releases && PublishedTo(j, v, |j.names|)
    case Stale(k) => Newest(j, v) && PublishedTo(j, v, |j.names|) && StaleGoneTo(j, v, l.prev, k)
    case StageManifest => Newest(j, v) && PublishedTo(j, v, |j.names|) && StaleGoneTo(j, v, l.prev, |l.prev|)
    case FlipManifest =>
      && Newest(j, v) && PublishedTo(j, v, |j.names|) && StaleGoneTo(j, v, l.prev, |l.prev|)
      && s.manifestTmp == Some(j.names)
    case ListOld =>
      && Newest(j, v) && PublishedTo(j, v, |j.names|) && StaleGoneTo(j, v, l.prev, |l.prev|)
      && s.manifest == Some(j.names) && s.manifestTmp == None
    case Prune(doomed) =>
      && Newest(j, v) && PublishedTo(j, v, |j.names|) && StaleGoneTo(j, v, l.prev, |l.prev|)
      && s.manifest == Some(j.names) && s.manifestTmp == None
      && doomed == Outdated(v, a)
    case Done =>
      && Newest(j, v) && PublishedTo(j, v, |j.names|) && StaleGoneTo(j, v, l.prev, |l.prev|)
      && s.manifest == Some(j.names) && s.manifestTmp == None
      && |s.order| <= 2
    case Refused => Refuses(j, v)
  }

  predicate Reading(pc: Pc) {
    pc.Start? || pc.Check? || pc.SavePrev? || pc.Refused?
  }

  predicate AfterManifest(pc: Pc) {
    pc.ListOld? || pc.Prune? || pc.Done?
  }

  /** Wherever the run is, the volume differs from `v0` only where the run may change it. */
  ghost predicate Core(j: Job, v0: Volume, v: Volume) {
    && ValidVolume(v)
    && Frame(j, v0, v)
    && ModulesMoveForward(j, v0, v)
    && OnlyStaleGo(j, v0, v)
  }

  /** The invariant of a run that started on `v0`. */
  ghost predicate Inv(j: Job, v0: Volume, v: Volume, l: Local)
    requires ValidJob(j) && PcOk(j, l.pc)
  {
    && Core(j, v0, v)
    && At(j, v, l)
    && (Reading(l.pc) || l.pc.MakeRel? ==> v == v0)
    && (!Reading(l.pc) ==> !Refuses(j, v0) && l.prev == ManifestOf(v0, j.addon))
    && (!AfterManifest(l.pc) ==> ManifestOf(v, j.addon) == ManifestOf(v0, j.addon))
  }

  // ---- Every command keeps it ------------------------------------------------------------

  /** A write to this addon's store alone. */
  lemma StoreWrite(j: Job, v0: Volume, v: Volume, s: Store)
    requires Core(j, v0, v) && ValidStore(s)
    ensures Core(j, v0, WithStore(v, j.addon, s))
  {
  }

  /** A change to a directory of the release: the copies it had stay. */
  lemma ReleaseWrite(j: Job, v0: Volume, v: Volume, r: Release, i: nat)
    requires Core(j, v0, v) && PublishedTo(j, v, i)
    requires ReleaseOf(StoreOf(v, j.addon), j.commit).copies.Keys <= r.copies.Keys
    ensures var w := WithRelease(v, j.addon, j.commit, r);
            && Core(j, v0, w) && PublishedTo(j, w, i) && Newest(j, w)
            && StoreOf(w, j.addon).manifest == StoreOf(v, j.addon).manifest
            && j.commit in StoreOf(w, j.addon).releases && StoreOf(w, j.addon).releases[j.commit] == r
  {
    var s := StoreOf(v, j.addon);
    assert ValidStore(s);
    WithoutMembers(s.order, j.commit);
    StoreWrite(j, v0, v, s.(order := ToFront(s.order, j.commit), releases := s.releases[j.commit := r]));
  }

  lemma PublishedStays(j: Job, v: Volume, w: Volume, i: nat)
    requires PublishedTo(j, v, i) && w.top == v.top
    requires ReleaseOf(StoreOf(v, j.addon), j.commit).copies == ReleaseOf(StoreOf(w, j.addon), j.commit).copies
    ensures PublishedTo(j, w, i)
  {
  }

  /** A change below a partial folder of the release. */
  lemma PartialWrite(j: Job, v0: Volume, v: Volume, n: Name, files: set<File>, i: nat)
    requires Core(j, v0, v) && PublishedTo(j, v, i)
    requires j.commit in StoreOf(v, j.addon).releases && !Holds(v, j.addon, j.commit, n)
    ensures var w := WithPartial(v, j.addon, j.commit, n, files);
            && Core(j, v0, w) && PublishedTo(j, w, i)
            && StoreOf(w, j.addon).manifest == StoreOf(v, j.addon).manifest
            && j.commit in StoreOf(w, j.addon).releases
            && !Holds(w, j.addon, j.commit, n) && PartialFiles(w, j.addon, j.commit, n) == files
  {
    var s := StoreOf(v, j.addon);
    var r := s.releases[j.commit];
    StoreWrite(j, v0, v, s.(releases := s.releases[j.commit := r.(partials := r.partials[n := files])]));
    PublishedStays(j, v, WithPartial(v, j.addon, j.commit, n, files), i);
  }

  lemma StepChecks(j: Job, v0: Volume, v: Volume, l: Local)
    requires ValidJob(j) && PcOk(j, l.pc) && Inv(j, v0, v, l) && Reading(l.pc)
    ensures var r := Step(j, v, l); Inv(j, v0, r.0, r.1)
  {
    assert v == v0;
  }

  lemma StepMakeRel(j: Job, v0: Volume, v: Volume, l: Local)
    requires ValidJob(j) && PcOk(j, l.pc) && Inv(j, v0, v, l) && l.pc.MakeRel?
    ensures var r := Step(j, v, l); Inv(j, v0, r.0, r.1)
  {
    if j.commit !in StoreOf(v, j.addon).releases {
      ReleaseWrite(j, v0, v, NO_RELEASE, 0);
    }
  }

  lemma StepPublish(j: Job, v0: Volume, v: Volume, l: Local)
    requires ValidJob(j) && PcOk(j, l.pc) && Inv(j, v0, v, l) && l.pc.Publish?
    ensures var r := Step(j, v, l); Inv(j, v0, r.0, r.1)
  {
  }

  lemma StepClearPartial(j: Job, v0: Volume, v: Volume, l: Local)
    requires ValidJob(j) && PcOk(j, l.pc) && Inv(j, v0, v, l) && l.pc.ClearPartial?
    ensures var r := Step(j, v, l); Inv(j, v0, r.0, r.1)
  {
    var n := j.names[l.pc.i];
    var r := StoreOf(v, j.addon).releases[j.commit];
    if n in r.partials {
      ReleaseWrite(j, v0, v, r.(partials := r.partials - {n}), l.pc.i);
    }
  }

  lemma StepOpenPartial(j: Job, v0: Volume, v: Volume, l: Local)
    requires ValidJob(j) && PcOk(j, l.pc) && Inv(j, v0, v, l) && l.pc.OpenPartial?
    ensures Inv(j, v0, BeginPartial(v, j.addon, j.commit, j.names[l.pc.i]), l.(pc := Copy(l.pc.i, 0)))
  {
    var r := StoreOf(v, j.addon).releases[j.commit];
    ReleaseWrite(j, v0, v, r.(partials := r.partials[j.names[l.pc.i] := {}]), l.pc.i);
  }

  lemma CopiedFiles(files: seq<File>, f: nat)
    requires f < |files|
    ensures ToSet(files[..f]) + {files[f]} == ToSet(files[..f + 1])
  {
    assert files[..f + 1] == files[..f] + [files[f]];
  }

  lemma StepCopy(j: Job, v0: Volume, v: Volume, l: Local)
    requires ValidJob(j) && PcOk(j, l.pc) && Inv(j, v0, v, l) && l.pc.Copy?
    ensures var r := Step(j, v, l); Inv(j, v0, r.0, r.1)
  {
    var n := j.names[l.pc.i];
    var files := j.src[n];
    if l.pc.f == |files| {
      assert files[..l.pc.f] == files;
    } else {
      CopiedFiles(files, l.pc.f);
      PartialWrite(j, v0, v, n, ToSet(files[..l.pc.f + 1]), l.pc.i);
    }
  }

  lemma StepStrip(j: Job, v0: Volume, v: Volume, l: Local)
    requires ValidJob(j) && PcOk(j, l.pc) && Inv(j, v0, v, l) && l.pc.StripGit?
    ensures var r := Step(j, v, l); Inv(j, v0, r.0, r.1)
  {
    var n := j.names[l.pc.i];
    assert ToSet(j.src[n]) - {GIT_DIR} == CleanFiles(j, n);
    PartialWrite(j, v0, v, n, CleanFiles(j, n), l.pc.i);
  }

  lemma StepFinish(j: Job, v0: Volume, v: Volume, l: Local)
    requires ValidJob(j) && PcOk(j, l.pc) && Inv(j, v0, v, l) && l.pc.Finish?
    ensures var r := Step(j, v, l); Inv(j, v0, r.0, r.1)
  {
    var n := j.names[l.pc.i];
    var r := StoreOf(v, j.addon).releases[j.commit];
    ReleaseWrite(j, v0, v, Release(r.copies[n := CleanFiles(j, n)], r.partials - {n}), l.pc.i);
  }

  lemma StepTouch(j: Job, v0: Volume, v: Volume, l: Local)
    requires ValidJob(j) && PcOk(j, l.pc) && Inv(j, v0, v, l) && l.pc.TouchRel?
    ensures Inv(j, v0, Touch(v, j.addon, j.commit), l.(pc := Stale(0)))
  {
    ReleaseWrite(j, v0, v, ReleaseOf(StoreOf(v, j.addon), j.commit), |j.names|);
  }

  /** The entries called `n` change, the others stay. */
  ghost predicate OnlyEntries(v: Volume, t: map<Key, Entry>, n: Name) {
    && (forall k: Key :: k.name != n ==> (k in t <==> k in v.top))
    && (forall k: Key :: k.name != n && k in t && k in v.top ==> t[k] == v.top[k])
  }

  /** Switching one module of the run. */
  lemma ModuleWrite(j: Job, v0: Volume, v: Volume, t: map<Key, Entry>, n: Name)
    requires Core(j, v0, v) && n in j.names && OnlyEntries(v, t, n)
    requires || SameEntry(v, v.(top := t), Module(n))
             || (Module(n) in t && t[Module(n)] == Link(j.addon, j.commit, n))
             || (Module(n) in v.top && v.top[Module(n)].Dir? && Module(n) !in t)
    ensures Core(j, v0, v.(top := t))
  {
    var w := v.(top := t);
    forall k: Key | k.name != n ensures SameEntry(v, w, k) {
    }
    forall m | m != n ensures SameEntry(v, w, Module(m)) {
      assert Module(m).name != n;
    }
  }

  lemma PublishedElsewhere(j: Job, v: Volume, t: map<Key, Entry>, i: nat)
    requires ValidJob(j) && i < |j.names| && PublishedTo(j, v, i) && OnlyEntries(v, t, j.names[i])
    ensures PublishedTo(j, v.(top := t), i)
  {
    forall m | 0 <= m < i ensures j.names[m] != j.names[i] {
    }
    forall m | 0 <= m < i ensures Module(j.names[m]) in t && Switch(j.names[m]) !in t && t[Module(j.names[m])] == v.top[Module(j.names[m])] {
      assert Module(j.names[m]).name != j.names[i] && Switch(j.names[m]).name != j.names[i];
    }
  }

  lemma StepClearDir(j: Job, v0: Volume, v: Volume, l: Local)
    requires ValidJob(j) && PcOk(j, l.pc) && Inv(j, v0, v, l) && l.pc.ClearDir?
    ensures var r := Step(j, v, l); Inv(j, v0, r.0, r.1)
  {
    var n := j.names[l.pc.i];
    if Module(n) in v.top && v.top[Module(n)].Dir? {
      ModuleWrite(j, v0, v, v.top - {Module(n)}, n);
      PublishedElsewhere(j, v, v.top - {Module(n)}, l.pc.i);
    }
  }

  lemma StepPointSwitch(j: Job, v0: Volume, v: Volume, l: Local)
    requires ValidJob(j) && PcOk(j, l.pc) && Inv(j, v0, v, l) && l.pc.PointSwitch?
    ensures var r := Step(j, v, l); Inv(j, v0, r.0, r.1)
  {
    var n := j.names[l.pc.i];
    var t := v.top[Switch(n) := Link(j.addon, j.commit, n)];
    ModuleWrite(j, v0, v, t, n);
    PublishedElsewhere(j, v, t, l.pc.i);
  }

  lemma FlipWrite(j: Job, v0: Volume, v: Volume, i: nat)
    requires ValidJob(j) && i < |j.names| && Core(j, v0, v) && PublishedTo(j, v, i)
    requires Holds(v, j.addon, j.commit, j.names[i]) && Switch(j.names[i]) in v.top
    requires v.top[Switch(j.names[i])] == Link(j.addon, j.commit, j.names[i])
    ensures var w := ApplySwitch(v, j.names[i]); Core(j, v0, w) && PublishedTo(j, w, i + 1) && w.stores == v.stores
  {
    var n := j.names[i];
    var t := v.top[Module(n) := v.top[Switch(n)]] - {Switch(n)};
    ModuleWrite(j, v0, v, t, n);
    PublishedElsewhere(j, v, t, i);
  }

  lemma StepFlip(j: Job, v0: Volume, v: Volume, l: Local)
    requires ValidJob(j) && PcOk(j, l.pc) && Inv(j, v0, v, l) && l.pc.Flip?
    ensures var r := Step(j, v, l); Inv(j, v0, r.0, r.1)
  {
    FlipWrite(j, v0, v, l.pc.i);
  }

  /** Removing one stale module. */
  lemma StaleWrite(j: Job, v0: Volume, v: Volume, prev: seq<Name>, k: nat)
    requires Core(j, v0, v) && PublishedTo(j, v, |j.names|) && StaleGoneTo(j, v, prev, k)
    requires k < |prev| && prev[k] in ManifestOf(v0, j.addon) && prev[k] !in j.names
    ensures var w := RemoveOwnLink(v, j.addon, Module(prev[k]));
            && Core(j, v0, w) && PublishedTo(j, w, |j.names|) && StaleGoneTo(j, w, prev, k + 1) && w.stores == v.stores
  {
    var n := prev[k];
    var w := RemoveOwnLink(v, j.addon, Module(n));
    assert OwnLink(v, j.addon, Module(n)) ==> SameEntry(v0, v, Module(n));
    forall x: Key | x != Module(n) ensures SameEntry(v, w, x) {
    }
  }

  lemma StepStale(j: Job, v0: Volume, v: Volume, l: Local)
    requires ValidJob(j) && PcOk(j, l.pc) && Inv(j, v0, v, l) && l.pc.Stale?
    ensures var r := Step(j, v, l); Inv(j, v0, r.0, r.1)
  {
    if l.pc.k < |l.prev| && l.prev[l.pc.k] != "" && l.prev[l.pc.k] !in j.names {
      StaleWrite(j, v0, v, l.prev, l.pc.k);
    }
  }

  /** A change of the manifest, or of its temporary copy, alone. */
  lemma RecordWrite(j: Job, v0: Volume, v: Volume, s: Store, prev: seq<Name>)
    requires Core(j, v0, v) && Newest(j, v) && PublishedTo(j, v, |j.names|) && StaleGoneTo(j, v, prev, |prev|)
    requires s.order == StoreOf(v, j.addon).order && s.releases == StoreOf(v, j.addon).releases
    ensures var w := WithStore(v, j.addon, s);
            Core(j, v0, w) && Newest(j, w) && PublishedTo(j, w, |j.names|) && StaleGoneTo(j, w, prev, |prev|)
  {
    assert ValidStore(StoreOf(v, j.addon));
    StoreWrite(j, v0, v, s);
    PublishedStays(j, v, WithStore(v, j.addon, s), |j.names|);
  }

  lemma StepStage(j: Job, v0: Volume, v: Volume, l: Local)
    requires ValidJob(j) && PcOk(j, l.pc) && Inv(j, v0, v, l) && l.pc.StageManifest?
    ensures Inv(j, v0, WriteManifest(v, j.addon, j.names), l.(pc := FlipManifest))
  {
    RecordWrite(j, v0, v, StoreOf(WriteManifest(v, j.addon, j.names), j.addon), l.prev);
  }

  lemma ManifestWrite(j: Job, v0: Volume, v: Volume)
    requires Core(j, v0, v) && Newest(j, v) && PublishedTo(j, v, |j.names|) && StoreOf(v, j.addon).manifestTmp == Some(j.names)
    ensures var w := SwitchManifest(v, j.addon);
            && Core(j, v0, w) && Newest(j, w) && PublishedTo(j, w, |j.names|) && w.top == v.top
            && StoreOf(w, j.addon).manifest == Some(j.names) && StoreOf(w, j.addon).manifestTmp == None
  {
    var w := SwitchManifest(v, j.addon);
    StoreWrite(j, v0, v, StoreOf(w, j.addon));
    PublishedStays(j, v, w, |j.names|);
  }

  lemma StepManifest(j: Job, v0: Volume, v: Volume, l: Local)
    requires ValidJob(j) && PcOk(j, l.pc) && Inv(j, v0, v, l) && l.pc.FlipManifest?
    ensures Inv(j, v0, SwitchManifest(v, j.addon), l.(pc := ListOld))
  {
    ManifestWrite(j, v0, v);
  }

  lemma OrderRemoved(o: seq<Commit>)
    requires NoDup(o) && |o| > 2
    ensures var u := Without(o, o[2]);
            && NoDup(u) && u != [] && u[0] == o[0] && o[2] != o[0]
            && (forall x :: x in u <==> x in o && x != o[2])
            && (if |u| <= 2 then [] else u[2..]) == o[3..]
  {
    RemoveThird(o);
    WithoutMembers(o, o[2]);
    assert |o| == 3 ==> o[3..] == [];
    assert |o| > 3 ==> (o[..2] + o[3..])[2..] == o[3..];
  }

  lemma ReleaseRemoved(j: Job, v0: Volume, v: Volume, d: Commit)
    requires Core(j, v0, v) && Newest(j, v) && |StoreOf(v, j.addon).order| > 2 && StoreOf(v, j.addon).order[2] == d
    ensures var w := RemoveRelease(v, j.addon, d);
            Core(j, v0, w) && Newest(j, w) && Outdated(w, j.addon) == Outdated(v, j.addon)[1..]
    ensures StoreOf(RemoveRelease(v, j.addon, d), j.addon).releases == StoreOf(v, j.addon).releases - {d}
    ensures d != j.commit
  {
    var s := StoreOf(v, j.addon);
    assert ValidStore(s);
    OrderRemoved(s.order);
    StoreWrite(j, v0, v, s.(order := Without(s.order, d), releases := s.releases - {d}));
  }

  lemma StepRemoveOld(j: Job, v0: Volume, v: Volume, l: Local)
    requires ValidJob(j) && PcOk(j, l.pc) && Inv(j, v0, v, l) && l.pc.Prune? && l.pc.doomed != []
    ensures Inv(j, v0, RemoveRelease(v, j.addon, l.pc.doomed[0]), l.(pc := Prune(l.pc.doomed[1..])))
  {
    var d := l.pc.doomed[0];
    ReleaseRemoved(j, v0, v, d);
    PublishedStays(j, v, RemoveRelease(v, j.addon, d), |j.names|);
  }

  lemma StepListOld(j: Job, v0: Volume, v: Volume, l: Local)
    requires ValidJob(j) && PcOk(j, l.pc) && Inv(j, v0, v, l) && l.pc.ListOld?
    ensures Inv(j, v0, v, l.(pc := Prune(Outdated(v, j.addon))))
  {
  }

  lemma StepPruned(j: Job, v0: Volume, v: Volume, l: Local)
    requires ValidJob(j) && PcOk(j, l.pc) && Inv(j, v0, v, l) && l.pc.Prune? && l.pc.doomed == []
    ensures Inv(j, v0, v, l.(pc := Done))
  {
  }

  /** Every command of a sync run keeps the invariant. */
  lemma StepKeepsInv(j: Job, v0: Volume, v: Volume, l: Local)
    requires ValidJob(j) && PcOk(j, l.pc) && Inv(j, v0, v, l)
    ensures var r := Step(j, v, l); Inv(j, v0, r.0, r.1)
  {
    if l.pc.ClearPartial? || l.pc.OpenPartial? || l.pc.Copy? || l.pc.StripGit? || l.pc.Finish? || l.pc.Publish? {
      StepKeepsCopies(j, v0, v, l);
    } else if l.pc.Start? || l.pc.Check? || l.pc.SavePrev? {
      StepChecks(j, v0, v, l);
    } else {
      StepKeepsRest(j, v0, v, l);
    }
  }

  /** The commands that fill the release with one module. */
  lemma StepKeepsCopies(j: Job, v0: Volume, v: Volume, l: Local)
    requires ValidJob(j) && PcOk(j, l.pc) && Inv(j, v0, v, l)
    requires l.pc.ClearPartial? || l.pc.OpenPartial? || l.pc.Copy? || l.pc.StripGit? || l.pc.Finish? || l.pc.Publish?
    ensures var r := Step(j, v, l); Inv(j, v0, r.0, r.1)
  {
    match l.pc
    case Publish(_) => StepPublish(j, v0, v, l);
    case ClearPartial(_) => StepClearPartial(j, v0, v, l);
    case OpenPartial(_) => StepOpenPartial(j, v0, v, l);
    case Copy(_, _) => StepCopy(j, v0, v, l);
    case StripGit(_) => StepStrip(j, v0, v, l);
    case Finish(_) => StepFinish(j, v0, v, l);
  }

  lemma StepKeepsRest(j: Job, v0: Volume, v: Volume, l: Local)
    requires ValidJob(j) && PcOk(j, l.pc) && Inv(j, v0, v, l)
    requires !l.pc.ClearPartial? && !l.pc.OpenPartial? && !l.pc.Copy? && !l.pc.StripGit? && !l.pc.Finish? && !l.pc.Publish?
    requires !l.pc.Start? && !l.pc.Check? && !l.pc.SavePrev?
    ensures var r := Step(j, v, l); Inv(j, v0, r.0, r.1)
  {
    if Linking(l.pc) {
      StepKeepsLinks(j, v0, v, l);
    } else {
      match l.pc
      case MakeRel => StepMakeRel(j, v0, v, l);
      case TouchRel => StepTouch(j, v0, v, l);
      case StageManifest => StepStage(j, v0, v, l);
      case FlipManifest => StepManifest(j, v0, v, l);
      case ListOld => StepListOld(j, v0, v, l);
      case Prune(doomed) => if doomed == [] { StepPruned(j, v0, v, l); } else { StepRemoveOld(j, v0, v, l); }
      case _ =>
    }
  }

  lemma StepKeepsLinks(j: Job, v0: Volume, v: Volume, l: Local)
    requires ValidJob(j) && PcOk(j, l.pc) && Inv(j, v0, v, l) && Linking(l.pc)
    ensures var r := Step(j, v, l); Inv(j, v0, r.0, r.1)
  {
    match l.pc
    case ClearDir(_) => StepClearDir(j, v0, v, l);
    case PointSwitch(_) => StepPointSwitch(j, v0, v, l);
    case Flip(_) => StepFlip(j, v0, v, l);
    case Stale(_) => StepStale(j, v0, v, l);
  }

  lemma InvAtStart(j: Job, v: Volume)
    requires ValidJob(j) && ValidVolume(v)
    ensures Inv(j, v, v, INIT)
  {
  }

  // ---- Every command keeps the outcome ---------------------------------------------------

  lemma OutcomeOfStore(j: Job, v: Volume, s: Store)
    requires s.manifest == StoreOf(v, j.addon).manifest
    requires FinalStore(j, s) == FinalStore(j, StoreOf(v, j.addon))
    ensures Final(j, WithStore(v, j.addon, s)) == Final(j, v)
  {
    assert v.stores[j.addon := s][j.addon := FinalStore(j, s)] == v.stores[j.addon := FinalStore(j, s)];
  }

  lemma OutcomeOfRelease(j: Job, v: Volume, r: Release)
    requires ValidVolume(v) && FinalRelease(j, r) == FinalRelease(j, ReleaseOf(StoreOf(v, j.addon), j.commit))
    ensures Final(j, WithRelease(v, j.addon, j.commit, r)) == Final(j, v)
  {
    var s := StoreOf(v, j.addon);
    assert ValidStore(s);
    FinalStoreWithRelease(j, s, r);
    OutcomeOfStore(j, v, s.(order := ToFront(s.order, j.commit), releases := s.releases[j.commit := r]));
  }

  lemma OutcomeOfPartial(j: Job, v: Volume, n: Name, files: set<File>)
    requires ValidVolume(v) && j.commit in StoreOf(v, j.addon).releases
    requires n in j.names && !Holds(v, j.addon, j.commit, n)
    ensures Final(j, WithPartial(v, j.addon, j.commit, n, files)) == Final(j, v)
  {
    var s := StoreOf(v, j.addon);
    var r := s.releases[j.commit];
    var q := r.(partials := r.partials[n := files]);
    assert ValidStore(s);
    FinalReleasePartials(j, r, n, q.partials);
    FinalStoreWithPartial(j, s, q);
    OutcomeOfStore(j, v, s.(releases := s.releases[j.commit := q]));
  }

  lemma StepOutcomeStore(j: Job, v: Volume, l: Local)
    requires ValidJob(j) && PcOk(j, l.pc) && ValidVolume(v) && At(j, v, l)
    requires l.pc.MakeRel? || l.pc.ClearPartial? || l.pc.OpenPartial? || l.pc.Finish? || l.pc.TouchRel?
    ensures Final(j, Step(j, v, l).0) == Final(j, v)
  {
    var r := ReleaseOf(StoreOf(v, j.addon), j.commit);
    match l.pc
    case MakeRel =>
      OutcomeOfRelease(j, v, r);
    case TouchRel =>
      OutcomeOfRelease(j, v, r);
    case ClearPartial(i) =>
      FinalReleasePartials(j, r, j.names[i], r.partials - {j.names[i]});
      OutcomeOfRelease(j, v, r.(partials := r.partials - {j.names[i]}));
    case OpenPartial(i) =>
      FinalReleasePartials(j, r, j.names[i], r.partials[j.names[i] := {}]);
      OutcomeOfRelease(j, v, r.(partials := r.partials[j.names[i] := {}]));
    case Finish(i) =>
      FinalReleaseFinish(j, r, j.names[i]);
      OutcomeOfRelease(j, v, Release(r.copies[j.names[i] := CleanFiles(j, j.names[i])], r.partials - {j.names[i]}));
  }

  lemma StepOutcomeCopy(j: Job, v: Volume, l: Local)
    requires ValidJob(j) && PcOk(j, l.pc) && ValidVolume(v) && At(j, v, l) && (l.pc.Copy? || l.pc.StripGit?)
    ensures Final(j, Step(j, v, l).0) == Final(j, v)
  {
    var n := j.names[l.pc.i];
    var files := PartialFiles(v, j.addon, j.commit, n);
    if l.pc.StripGit? {
      OutcomeOfPartial(j, v, n, files - {GIT_DIR});
    } else if l.pc.f < |j.src[n]| {
      OutcomeOfPartial(j, v, n, files + {j.src[n][l.pc.f]});
    }
  }

  /** The outcome depends only on the entries the run does not set or remove itself. */
  lemma FinalTopAgree(j: Job, t: map<Key, Entry>, u: map<Key, Entry>, prev: seq<Name>)
    requires forall k: Key :: k.name !in j.names && k in t ==> k in u && t[k] == u[k]
    requires forall k: Key :: k.name !in j.names && k in u && k !in t ==> IsStale(j, prev, k) && IsOwn(u[k], j.addon)
    ensures FinalTop(j, t, prev) == FinalTop(j, u, prev)
  {
    var x, y := FinalTop(j, t, prev), FinalTop(j, u, prev);
    assert forall k :: k in x <==> k in y;
  }

  lemma OutcomeOfTop(j: Job, v: Volume, t: map<Key, Entry>)
    requires FinalTop(j, t, ManifestOf(v, j.addon)) == FinalTop(j, v.top, ManifestOf(v, j.addon))
    ensures Final(j, v.(top := t)) == Final(j, v)
  {
  }

  lemma StepOutcomeTop(j: Job, v: Volume, l: Local)
    requires ValidJob(j) && PcOk(j, l.pc) && (l.pc.Stale? ==> ManifestOf(v, j.addon) == l.prev)
    requires l.pc.ClearDir? || l.pc.PointSwitch? || l.pc.Flip? || l.pc.Stale?
    ensures Final(j, Step(j, v, l).0) == Final(j, v)
  {
    var t := Step(j, v, l).0.top;
    FinalTopAgree(j, t, v.top, ManifestOf(v, j.addon));
    OutcomeOfTop(j, v, t);
  }

  /** Once every stale module is gone, the old manifest and the new one say the same. */
  lemma FinalTopManifest(j: Job, v: Volume, prev: seq<Name>)
    requires StaleGoneTo(j, v, prev, |prev|)
    ensures FinalTop(j, v.top, j.names) == FinalTop(j, v.top, prev)
  {
    var x, y := FinalTop(j, v.top, j.names), FinalTop(j, v.top, prev);
    forall k | k in v.top && IsStale(j, prev, k) ensures !IsOwn(v.top[k], j.addon) {
      var m :| 0 <= m < |prev| && prev[m] == k.name;
      assert k == Module(prev[m]);
    }
    assert forall k :: k in x <==> k in y;
  }

  lemma StepOutcomeManifest(j: Job, v: Volume, l: Local)
    requires ValidJob(j) && PcOk(j, l.pc) && At(j, v, l) && ManifestOf(v, j.addon) == l.prev && (l.pc.StageManifest? || l.pc.FlipManifest?)
    ensures Final(j, Step(j, v, l).0) == Final(j, v)
  {
    var s := StoreOf(v, j.addon);
    var w := Step(j, v, l).0;
    var t := StoreOf(w, j.addon);
    FinalStoreAlike(j, s, t);
    if l.pc.FlipManifest? {
      FinalTopManifest(j, v, l.prev);
    }
    assert w.stores[j.addon := FinalStore(j, t)] == v.stores[j.addon := FinalStore(j, t)];
  }

  lemma StepOutcomePrune(j: Job, v: Volume, l: Local)
    requires ValidJob(j) && PcOk(j, l.pc) && ValidVolume(v) && At(j, v, l) && l.pc.Prune?
    ensures Final(j, Step(j, v, l).0) == Final(j, v)
  {
    if l.pc.doomed != [] {
      var s := StoreOf(v, j.addon);
      var d := l.pc.doomed[0];
      FinalStoreRemove(j, s, d);
      OutcomeOfStore(j, v, s.(order := Without(s.order, d), releases := s.releases - {d}));
    }
  }

  lemma StepOutcome(j: Job, v0: Volume, v: Volume, l: Local)
    requires ValidJob(j) && PcOk(j, l.pc) && Inv(j, v0, v, l)
    ensures Final(j, Step(j, v, l).0) == Final(j, v)
  {
    var pc := l.pc;
    if pc.MakeRel? || pc.ClearPartial? || pc.OpenPartial? || pc.Finish? || pc.TouchRel? {
      StepOutcomeStore(j, v, l);
    } else if pc.Copy? || pc.StripGit? {
      StepOutcomeCopy(j, v, l);
    } else if pc.ClearDir? || pc.PointSwitch? || pc.Flip? || pc.Stale? {
      StepOutcomeTop(j, v, l);
    } else if pc.StageManifest? || pc.FlipManifest? {
      StepOutcomeManifest(j, v, l);
    } else if pc.Prune? {
      StepOutcomePrune(j, v, l);
    }
  }

  lemma {:induction false} ExecLast(j: Job, v: Volume, l: Local, k: nat)
    requires ValidJob(j) && PcOk(j, l.pc)
    ensures var r := Exec(j, v, l, k); Exec(j, v, l, k + 1) == Step(j, r.0, r.1)
    decreases k
  {
    if k > 0 {
      var s := Step(j, v, l);
      ExecLast(j, s.0, s.1, k - 1);
    }
  }

  /** The states in which the invariant of a run that started on `v0` holds. */
  ghost function InvStates(j: Job, v0: Volume): iset<(Volume, Local)>
    requires ValidJob(j)
  {
    iset s: (Volume, Local) | PcOk(j, s.1.pc) && Inv(j, v0, s.0, s.1)
  }

  lemma StepStaysInv(j: Job, v0: Volume, s: (Volume, Local))
    requires ValidJob(j) && s in InvStates(j, v0)
    ensures PcOk(j, s.1.pc) && Step(j, s.0, s.1) in InvStates(j, v0)
  {
    StepKeepsInv(j, v0, s.0, s.1);
  }

  lemma InvClosed(j: Job, v0: Volume)
    requires ValidJob(j)
    ensures Closed(j, InvStates(j, v0))
  {
    forall t | t in InvStates(j, v0) ensures PcOk(j, t.1.pc) && Step(j, t.0, t.1) in InvStates(j, v0) {
      StepStaysInv(j, v0, t);
    }
  }

  /** A run cut off after any number of commands keeps the invariant... */
  lemma ExecKeepsInv(j: Job, v0: Volume, v: Volume, l: Local, k: nat)
    requires ValidJob(j) && PcOk(j, l.pc) && Inv(j, v0, v, l)
    ensures var r := Exec(j, v, l, k); Inv(j, v0, r.0, r.1)
  {
    assert (v, l) in InvStates(j, v0);
    InvClosed(j, v0);
    ExecStaysIn(j, InvStates(j, v0), (v, l), k);
  }

  /** ... and the outcome. */
  lemma ExecOutcome(j: Job, v0: Volume, k: nat)
    requires ValidJob(j) && ValidVolume(v0)
    ensures Final(j, Exec(j, v0, INIT, k).0) == Final(j, v0)
  {
    var states := OutcomeStates(j, v0);
    InvAtStart(j, v0);
    assert (v0, INIT) in states;
    OutcomeClosed(j, v0);
    ExecStaysIn(j, states, (v0, INIT), k);
  }

  ghost function OutcomeStates(j: Job, v0: Volume): iset<(Volume, Local)>
    requires ValidJob(j)
  {
    iset s: (Volume, Local) | s in InvStates(j, v0) && Final(j, s.0) == Final(j, v0)
  }

  lemma OutcomeClosed(j: Job, v0: Volume)
    requires ValidJob(j)
    ensures Closed(j, OutcomeStates(j, v0))
  {
    forall t | t in OutcomeStates(j, v0) ensures PcOk(j, t.1.pc) && Step(j, t.0, t.1) in OutcomeStates(j, v0) {
      StepStaysInv(j, v0, t);
      OutcomeStays(j, v0, t);
    }
  }

  lemma OutcomeStays(j: Job, v0: Volume, t: (Volume, Local))
    requires ValidJob(j) && t in InvStates(j, v0)
    ensures PcOk(j, t.1.pc) && Final(j, Step(j, t.0, t.1).0) == Final(j, t.0)
  {
    StepOutcome(j, v0, t.0, t.1);
  }
}
