/** Sync and cleanup scripts of several addons running at once on one volume, one command at a
    time in any order. The addons use disjoint sets of module names. */
module SyncInterleaving {
  import opened Options
  import opened AddonVolume
  import opened SyncScript
  import opened SyncHistory

  /** The cleanup script: `find` the links, drop the addon's own one at a time, drop the store.
      Links of others, which the script only reads, are not listed in `pending`. */
  datatype CleanPc = FindLinks | DropLinks(pending: set<Key>) | DropStore | Cleaned

  datatype Proc = Sync(job: Job, l: Local) | Cleanup(addon: Addon, c: CleanPc)

  /** The order in which `find` lists the links is not fixed. */
  ghost function AnyOf(s: set<Key>): Key
    requires s != {}
  {
    var k :| k in s; k
  }

  ghost function CleanStep(v: Volume, a: Addon, c: CleanPc): (Volume, CleanPc) {
    match c
    case FindLinks => (v, DropLinks(set k | k in v.top && IsOwn(v.top[k], a)))
    case DropLinks(p) =>
      if p == {} then (v, DropStore) else (RemoveOwnLink(v, a, AnyOf(p)), DropLinks(p - {AnyOf(p)}))
    case DropStore => (RemoveStore(v, a), Cleaned)
    case Cleaned => (v, c)
  }

  function AddonOf(p: Proc): Addon {
    match p
    case Sync(j, _) => j.addon
    case Cleanup(a, _) => a
  }

  ghost predicate ProcOk(p: Proc) {
    p.Sync? ==> ValidJob(p.job) && PcOk(p.job, p.l.pc)
  }

  ghost function ProcStep(v: Volume, p: Proc): (r: (Volume, Proc))
    requires ProcOk(p)
    ensures ProcOk(r.1) && AddonOf(r.1) == AddonOf(p)
  {
    match p
    case Sync(j, l) => var s := Step(j, v, l); (s.0, Sync(j, s.1))
    case Cleanup(a, c) => var s := CleanStep(v, a, c); (s.0, Cleanup(a, s.1))
  }

  /** One addon's script running alone for `k` commands. */
  ghost function Solo(v: Volume, p: Proc, k: nat): (r: (Volume, Proc))
    requires ProcOk(p)
    ensures ProcOk(r.1)
    decreases k
  {
    if k == 0 then (v, p) else
      var s := ProcStep(v, p);
      Solo(s.0, s.1, k - 1)
  }

  // ---- Cleanup alone -----------------------------------------------------------------------

  lemma {:induction false} DropAll(v: Volume, a: Addon, p: set<Key>) returns (k: nat)
    requires forall x :: OwnLink(v, a, x) ==> x in p
    ensures Solo(v, Cleanup(a, DropLinks(p)), k) == (CleanupOf(v, a), Cleanup(a, Cleaned))
    decreases p
  {
    if p == {} {
      var s := ProcStep(v, Cleanup(a, DropLinks(p)));
      var t := ProcStep(s.0, s.1);
      assert Solo(t.0, t.1, 0) == t;
      assert Solo(s.0, s.1, 1) == t;
      forall x | x in v.top ensures !IsOwn(v.top[x], a) {
        assert !OwnLink(v, a, x);
      }
      assert CleanupOf(v, a).top == v.top;
      k := 2;
    } else {
      var x := AnyOf(p);
      var w := RemoveOwnLink(v, a, x);
      k := DropAll(w, a, p - {x});
      assert CleanupOf(w, a).top == CleanupOf(v, a).top;
      k := k + 1;
    }
  }

  /** The cleanup script, run alone, comes to an end on the volume without the addon's links and
      store: what `SyncHistory.CleanupRestores` is about. */
  lemma CleanupRun(v: Volume, a: Addon) returns (k: nat)
    ensures Solo(v, Cleanup(a, FindLinks), k) == (CleanupOf(v, a), Cleanup(a, Cleaned))
    ensures var w := Solo(v, Cleanup(a, FindLinks), k).0;
            && a !in w.stores && (forall b :: b != a && b in v.stores ==> b in w.stores && w.stores[b] == v.stores[b])
            && (forall x :: x in w.top <==> x in v.top && !(v.top[x].Link? && v.top[x].addon == a))
            && (forall x :: x in w.top ==> w.top[x] == v.top[x])
  {
    k := DropAll(v, a, set x | x in v.top && IsOwn(v.top[x], a));
    k := k + 1;
  }

  // ---- What one addon can see and change -----------------------------------------------------

  datatype View = View(entries: map<Key, Entry>, store: Option<Store>)

  /** The entries called by a name of `ns`, and the addon's store. */
  ghost function ViewOf(v: Volume, a: Addon, ns: set<Name>): View {
    View(map k | k in v.top && k.name in ns :: v.top[k], if a in v.stores then Some(v.stores[a]) else None)
  }

  ghost predicate Listed(m: Option<seq<Name>>, ns: set<Name>) {
    m.Some? ==> forall n :: n in m.value ==> n in ns
  }

  /** All the names the addon's script works on, its store records and its links use are in `ns`. */
  ghost predicate Footprint(v: Volume, p: Proc, ns: set<Name>) {
    && ProcOk(p)
    && (forall k :: OwnLink(v, AddonOf(p), k) ==> k.name in ns)
    && Listed(StoreOf(v, AddonOf(p)).manifest, ns)
    && Listed(StoreOf(v, AddonOf(p)).manifestTmp, ns)
    && (p.Sync? ==> (forall n :: n in p.job.names ==> n in ns) && (forall n :: n in p.l.prev ==> n in ns))
    && (p.Cleanup? && p.c.DropLinks? ==> forall k :: k in p.c.pending ==> k.name in ns)
  }

  /** The two volumes look the same to the addon. */
  ghost predicate Alike(v: Volume, w: Volume, a: Addon, ns: set<Name>) {
    SameOwnStore(v, w, a) && AlikeTop(v, w, ns)
  }

  ghost predicate AlikeTop(v: Volume, w: Volume, ns: set<Name>) {
    && (forall k: Key :: k.name in ns ==> (k in v.top <==> k in w.top))
    && (forall k: Key :: k.name in ns && k in v.top && k in w.top ==> v.top[k] == w.top[k])
  }

  lemma AlikeIsSameView(v: Volume, w: Volume, a: Addon, ns: set<Name>)
    ensures Alike(v, w, a, ns) <==> ViewOf(v, a, ns) == ViewOf(w, a, ns)
  {
    if ViewOf(v, a, ns) == ViewOf(w, a, ns) {
      forall k: Key | k.name in ns ensures (k in v.top <==> k in w.top) && (k in v.top ==> v.top[k] == w.top[k]) {
        assert k in v.top <==> k in ViewOf(v, a, ns).entries;
        assert k in w.top <==> k in ViewOf(w, a, ns).entries;
      }
    }
  }

  lemma SyncLocalInView(j: Job, v: Volume, w: Volume, l: Local, ns: set<Name>)
    requires ValidJob(j) && PcOk(j, l.pc) && (forall n :: n in j.names ==> n in ns)
    requires Alike(v, w, j.addon, ns)
    ensures Step(j, v, l).1 == Step(j, w, l).1
  {
    if l.pc.Check? && l.pc.i < |j.names| {
      assert Module(j.names[l.pc.i]).name in ns;
    }
  }

  ghost predicate SameOwnStore(v: Volume, w: Volume, a: Addon) {
    (a in v.stores <==> a in w.stores) && (a in v.stores && a in w.stores ==> v.stores[a] == w.stores[a])
  }

  lemma CopyInView(j: Job, v: Volume, w: Volume, l: Local)
    requires ValidJob(j) && PcOk(j, l.pc) && SameOwnStore(v, w, j.addon)
    requires l.pc.Copy? || l.pc.OpenPartial? || l.pc.StripGit?
    ensures SameOwnStore(Step(j, v, l).0, Step(j, w, l).0, j.addon)
  {
    assert StoreOf(v, j.addon) == StoreOf(w, j.addon);
  }

  lemma PublishInView(j: Job, v: Volume, w: Volume, l: Local)
    requires ValidJob(j) && PcOk(j, l.pc) && SameOwnStore(v, w, j.addon)
    requires l.pc.MakeRel? || l.pc.ClearPartial? || l.pc.Finish? || l.pc.TouchRel?
    ensures SameOwnStore(Step(j, v, l).0, Step(j, w, l).0, j.addon)
  {
    assert StoreOf(v, j.addon) == StoreOf(w, j.addon);
  }

  lemma RecordInView(j: Job, v: Volume, w: Volume, l: Local)
    requires ValidJob(j) && PcOk(j, l.pc) && SameOwnStore(v, w, j.addon) && Recording(l.pc)
    ensures SameOwnStore(Step(j, v, l).0, Step(j, w, l).0, j.addon)
  {
    assert StoreOf(v, j.addon) == StoreOf(w, j.addon);
  }

  lemma SyncStoreInView(j: Job, v: Volume, w: Volume, l: Local)
    requires ValidJob(j) && PcOk(j, l.pc) && SameOwnStore(v, w, j.addon)
    ensures SameOwnStore(Step(j, v, l).0, Step(j, w, l).0, j.addon)
  {
    if !Storing(l.pc) {
      StoresUntouched(j, v, l);
      StoresUntouched(j, w, l);
    } else if l.pc.Copy? || l.pc.OpenPartial? || l.pc.StripGit? {
      CopyInView(j, v, w, l);
    } else if Recording(l.pc) {
      RecordInView(j, v, w, l);
    } else {
      PublishInView(j, v, w, l);
    }
  }

  lemma SyncTopInView(j: Job, v: Volume, w: Volume, l: Local, ns: set<Name>)
    requires ValidJob(j) && PcOk(j, l.pc) && (forall n :: n in j.names ==> n in ns) && (forall n :: n in l.prev ==> n in ns)
    requires AlikeTop(v, w, ns)
    ensures AlikeTop(Step(j, v, l).0, Step(j, w, l).0, ns)
  {
    if !Linking(l.pc) {
      EntriesUntouched(j, v, l);
      EntriesUntouched(j, w, l);
    } else if l.pc.Stale? {
      if l.pc.k < |l.prev| {
        assert Module(l.prev[l.pc.k]).name in ns;
      }
    } else {
      var n := j.names[l.pc.i];
      assert Module(n).name in ns && Switch(n).name in ns;
    }
  }

  lemma CleanInView(v: Volume, w: Volume, a: Addon, c: CleanPc, ns: set<Name>)
    requires Alike(v, w, a, ns)
    requires forall k :: OwnLink(v, a, k) || OwnLink(w, a, k) ==> k.name in ns
    requires c.DropLinks? ==> forall k :: k in c.pending ==> k.name in ns
    ensures CleanStep(v, a, c).1 == CleanStep(w, a, c).1
    ensures Alike(CleanStep(v, a, c).0, CleanStep(w, a, c).0, a, ns)
  {
    if c.FindLinks? {
      forall k | OwnLink(v, a, k) || OwnLink(w, a, k) ensures OwnLink(v, a, k) && OwnLink(w, a, k) {
        assert k.name in ns;
      }
      assert (set k | k in v.top && IsOwn(v.top[k], a)) == (set k | k in w.top && IsOwn(w.top[k], a));
    }
  }

  /** A script's next command depends on its own view only, and so does its effect there. */
  lemma StepInView(v: Volume, w: Volume, p: Proc, ns: set<Name>)
    requires Footprint(v, p, ns) && Footprint(w, p, ns) && Alike(v, w, AddonOf(p), ns)
    ensures ProcStep(v, p).1 == ProcStep(w, p).1
    ensures Alike(ProcStep(v, p).0, ProcStep(w, p).0, AddonOf(p), ns)
  {
    match p
    case Sync(j, l) =>
      SyncLocalInView(j, v, w, l, ns);
      SyncStoreInView(j, v, w, l);
      SyncTopInView(j, v, w, l, ns);
    case Cleanup(a, c) =>
      CleanInView(v, w, a, c, ns);
  }

  // ---- What one addon cannot touch -----------------------------------------------------------

  lemma LinksChanged(j: Job, v: Volume, l: Local, ns: set<Name>, k: Key)
    requires ValidJob(j) && PcOk(j, l.pc) && Linking(l.pc) && k.name !in ns
    requires (forall n :: n in j.names ==> n in ns) && (forall n :: n in l.prev ==> n in ns)
    ensures var w := Step(j, v, l).0; (k in w.top <==> k in v.top) && (k in v.top && k in w.top ==> w.top[k] == v.top[k])
  {
  }

  /** A command changes entries called by the script's own names only. */
  lemma EntriesChanged(v: Volume, p: Proc, ns: set<Name>, k: Key)
    requires Footprint(v, p, ns) && k.name !in ns
    ensures var w := ProcStep(v, p).0; (k in w.top <==> k in v.top) && (k in v.top && k in w.top ==> w.top[k] == v.top[k])
  {
    match p
    case Sync(j, l) =>
      if Linking(l.pc) {
        LinksChanged(j, v, l, ns, k);
      } else {
        EntriesUntouched(j, v, l);
      }
    case Cleanup(_, _) =>
  }

  /** ... and the store of its own addon only. */
  lemma StoresChanged(v: Volume, p: Proc, b: Addon)
    requires ProcOk(p) && b != AddonOf(p)
    ensures SameOwnStore(ProcStep(v, p).0, v, b)
  {
    match p
    case Sync(j, l) => OwnStoreOnly(j, v, l);
    case Cleanup(_, _) =>
  }

  lemma StepElsewhere(v: Volume, p: Proc, ns: set<Name>, b: Addon, ms: set<Name>)
    requires Footprint(v, p, ns) && b != AddonOf(p) && ns !! ms
    ensures Alike(ProcStep(v, p).0, v, b, ms)
  {
    StoresChanged(v, p, b);
    forall k: Key | k.name in ms
      ensures var w := ProcStep(v, p).0; (k in w.top <==> k in v.top) && (k in v.top && k in w.top ==> w.top[k] == v.top[k])
    {
      EntriesChanged(v, p, ns, k);
    }
  }

  // ---- Any interleaving ----------------------------------------------------------------------

  ghost predicate System(v: Volume, procs: map<Addon, Proc>, names: map<Addon, set<Name>>) {
    && names.Keys == procs.Keys
    && (forall a :: a in procs ==> AddonOf(procs[a]) == a && Footprint(v, procs[a], names[a]))
    && (forall a, b :: a in names && b in names && a != b ==> names[a] !! names[b])
  }

  /** A schedule names the addon whose script runs its next command. */
  ghost function Interleave(v: Volume, procs: map<Addon, Proc>, schedule: seq<Addon>): (Volume, map<Addon, Proc>)
    requires forall a :: a in schedule ==> a in procs
    requires forall a :: a in procs ==> ProcOk(procs[a])
    decreases |schedule|
  {
    if schedule == [] then (v, procs) else
      var a := schedule[0];
      var s := ProcStep(v, procs[a]);
      Interleave(s.0, procs[a := s.1], schedule[1..])
  }

  function Count(schedule: seq<Addon>, a: Addon): nat {
    if schedule == [] then 0 else (if schedule[0] == a then 1 else 0) + Count(schedule[1..], a)
  }

  lemma RecordsUntouched(j: Job, v: Volume, l: Local)
    requires ValidJob(j) && PcOk(j, l.pc) && !l.pc.StageManifest? && !l.pc.FlipManifest?
    ensures var s, t := StoreOf(v, j.addon), StoreOf(Step(j, v, l).0, j.addon);
            t.manifest == s.manifest && t.manifestTmp == s.manifestTmp
  {
    if !Storing(l.pc) {
      StoresUntouched(j, v, l);
    }
  }

  lemma RecordsKept(j: Job, v: Volume, l: Local, ns: set<Name>)
    requires ValidJob(j) && PcOk(j, l.pc) && (forall n :: n in j.names ==> n in ns)
    requires Listed(StoreOf(v, j.addon).manifest, ns) && Listed(StoreOf(v, j.addon).manifestTmp, ns)
    ensures var s := StoreOf(Step(j, v, l).0, j.addon); Listed(s.manifest, ns) && Listed(s.manifestTmp, ns)
  {
    if !l.pc.StageManifest? && !l.pc.FlipManifest? {
      RecordsUntouched(j, v, l);
    }
  }

  lemma LocalKept(j: Job, v: Volume, l: Local, ns: set<Name>)
    requires ValidJob(j) && PcOk(j, l.pc) && Listed(StoreOf(v, j.addon).manifest, ns)
    requires forall n :: n in l.prev ==> n in ns
    ensures forall n :: n in Step(j, v, l).1.prev ==> n in ns
  {
    assert Step(j, v, l).1.prev == if l.pc.SavePrev? then ManifestOf(v, j.addon) else l.prev;
  }

  lemma LinksKept(v: Volume, p: Proc, ns: set<Name>)
    requires Footprint(v, p, ns)
    ensures forall k :: OwnLink(ProcStep(v, p).0, AddonOf(p), k) ==> k.name in ns
  {
    var w := ProcStep(v, p).0;
    forall k | OwnLink(w, AddonOf(p), k) ensures k.name in ns {
      if k.name !in ns {
        EntriesChanged(v, p, ns, k);
      }
    }
  }

  /** A command keeps the addon's own footprint ... */
  lemma FootprintKept(v: Volume, p: Proc, ns: set<Name>)
    requires Footprint(v, p, ns)
    ensures Footprint(ProcStep(v, p).0, ProcStep(v, p).1, ns)
  {
    LinksKept(v, p, ns);
    match p
    case Sync(j, l) =>
      RecordsKept(j, v, l, ns);
      LocalKept(j, v, l, ns);
    case Cleanup(a, c) =>
  }

  /** A link of another addon was there before, under this name or as a switch link of a module of
      the run. */
  lemma LinksOfOthers(v: Volume, p: Proc, b: Addon, k: Key)
    requires ProcOk(p) && b != AddonOf(p) && OwnLink(ProcStep(v, p).0, b, k)
    ensures OwnLink(v, b, k) || (p.Sync? && exists n :: n in p.job.names && OwnLink(v, b, Switch(n)))
  {
    if p.Sync? && p.l.pc.Flip? {
      assert p.job.names[p.l.pc.i] in p.job.names;
    }
  }

  /** ... and the footprints of the others. */
  lemma FootprintElsewhere(v: Volume, p: Proc, ns: set<Name>, q: Proc, ms: set<Name>)
    requires Footprint(v, p, ns) && Footprint(v, q, ms) && AddonOf(p) != AddonOf(q) && ns !! ms
    ensures Footprint(ProcStep(v, p).0, q, ms)
  {
    var w := ProcStep(v, p).0;
    StoresChanged(v, p, AddonOf(q));
    forall k | OwnLink(w, AddonOf(q), k) ensures k.name in ms {
      LinksOfOthers(v, p, AddonOf(q), k);
    }
  }

  lemma SystemStep(v: Volume, procs: map<Addon, Proc>, names: map<Addon, set<Name>>, b: Addon)
    requires System(v, procs, names) && b in procs
    ensures var s := ProcStep(v, procs[b]); System(s.0, procs[b := s.1], names)
  {
    var s := ProcStep(v, procs[b]);
    var after := procs[b := s.1];
    FootprintKept(v, procs[b], names[b]);
    forall a | a in after ensures AddonOf(after[a]) == a && Footprint(s.0, after[a], names[a]) {
      if a != b {
        FootprintElsewhere(v, procs[b], names[b], procs[a], names[a]);
      }
    }
  }

  /** The systems in which the addon `a` is where its script alone is on `u`. */
  ghost predicate Matches(v: Volume, procs: map<Addon, Proc>, names: map<Addon, set<Name>>, a: Addon, u: Volume) {
    System(v, procs, names) && a in procs && Footprint(u, procs[a], names[a]) && Alike(v, u, a, names[a])
  }

  lemma OwnStepMatches(v: Volume, procs: map<Addon, Proc>, names: map<Addon, set<Name>>, a: Addon, u: Volume)
    requires Matches(v, procs, names, a, u)
    ensures var s := ProcStep(v, procs[a]); Matches(s.0, procs[a := s.1], names, a, ProcStep(u, procs[a]).0)
    ensures ProcStep(u, procs[a]).1 == ProcStep(v, procs[a]).1
  {
    SystemStep(v, procs, names, a);
    StepInView(v, u, procs[a], names[a]);
    FootprintKept(u, procs[a], names[a]);
  }

  lemma OtherStepMatches(v: Volume, procs: map<Addon, Proc>, names: map<Addon, set<Name>>, a: Addon, u: Volume, b: Addon)
    requires Matches(v, procs, names, a, u) && b in procs && b != a
    ensures var s := ProcStep(v, procs[b]); Matches(s.0, procs[b := s.1], names, a, u)
  {
    SystemStep(v, procs, names, b);
    StepElsewhere(v, procs[b], names[b], a, names[a]);
  }

  /** The states of an interleaving next to the state of the addon's script alone. */
  ghost function Matching(names: map<Addon, set<Name>>, a: Addon): iset<(Volume, map<Addon, Proc>, Volume)> {
    iset t: (Volume, map<Addon, Proc>, Volume) | Matches(t.0, t.1, names, a, t.2)
  }

  lemma MatchingRuns(names: map<Addon, set<Name>>, a: Addon, t: (Volume, map<Addon, Proc>, Volume))
    requires t in Matching(names, a)
    ensures a in t.1 && forall b :: b in t.1 ==> ProcOk(t.1[b])
  {
  }

  lemma MatchingStep(names: map<Addon, set<Name>>, a: Addon, t: (Volume, map<Addon, Proc>, Volume), b: Addon)
    requires t in Matching(names, a) && a in t.1 && b in t.1 && ProcOk(t.1[a]) && ProcOk(t.1[b])
    ensures var s := ProcStep(t.0, t.1[b]);
            (s.0, t.1[b := s.1], if b == a then ProcStep(t.2, t.1[a]).0 else t.2) in Matching(names, a)
    ensures ProcStep(t.2, t.1[a]).1 == ProcStep(t.0, t.1[a]).1
  {
    OwnStepMatches(t.0, t.1, names, a, t.2);
    if b != a {
      OtherStepMatches(t.0, t.1, names, a, t.2, b);
    }
  }

  /** The run of one addon inside the interleaving, next to its run alone on a volume that looks
      the same to it. */
  lemma {:induction false} Projects(names: map<Addon, set<Name>>, a: Addon, t: (Volume, map<Addon, Proc>, Volume), schedule: seq<Addon>)
    requires t in Matching(names, a) && (forall b :: b in schedule ==> b in t.1)
    requires a in t.1 && forall b :: b in t.1 ==> ProcOk(t.1[b])
    ensures var w, x := Interleave(t.0, t.1, schedule), Solo(t.2, t.1[a], Count(schedule, a));
            (w.0, w.1, x.0) in Matching(names, a) && a in w.1 && w.1[a] == x.1
    decreases |schedule|
  {
    if schedule != [] {
      var b := schedule[0];
      var s := ProcStep(t.0, t.1[b]);
      MatchingStep(names, a, t, b);
      var next := (s.0, t.1[b := s.1], if b == a then ProcStep(t.2, t.1[a]).0 else t.2);
      MatchingRuns(names, a, next);
      Projects(names, a, next, schedule[1..]);
      InterleaveStep(t.0, t.1, schedule);
      SoloStep(t.2, t.1[a], Count(schedule[1..], a));
      CountStep(schedule, a);
    }
  }

  lemma InterleaveStep(v: Volume, procs: map<Addon, Proc>, schedule: seq<Addon>)
    requires schedule != [] && (forall a :: a in schedule ==> a in procs) && forall a :: a in procs ==> ProcOk(procs[a])
    ensures var s := ProcStep(v, procs[schedule[0]]);
            Interleave(v, procs, schedule) == Interleave(s.0, procs[schedule[0] := s.1], schedule[1..])
  {
  }

  lemma SoloStep(v: Volume, p: Proc, k: nat)
    requires ProcOk(p)
    ensures var s := ProcStep(v, p); Solo(v, p, k + 1) == Solo(s.0, s.1, k)
  {
  }

  lemma CountStep(schedule: seq<Addon>, a: Addon)
    requires schedule != []
    ensures Count(schedule, a) == (if schedule[0] == a then 1 else 0) + Count(schedule[1..], a)
  {
  }

  /** For addons with disjoint names, any interleaving of their sync and cleanup scripts is, for
      each addon, its own script run alone: it is at the same command, and its store and every
      entry under its names are what the run alone makes them. */
  lemma InterleavingProjects(v: Volume, procs: map<Addon, Proc>, names: map<Addon, set<Name>>, schedule: seq<Addon>)
    requires System(v, procs, names) && forall b :: b in schedule ==> b in procs
    ensures var w := Interleave(v, procs, schedule);
            forall a :: a in procs ==>
              var x := Solo(v, procs[a], Count(schedule, a));
              a in w.1 && w.1[a] == x.1 && ViewOf(w.0, a, names[a]) == ViewOf(x.0, a, names[a])
  {
    var w := Interleave(v, procs, schedule);
    forall a | a in procs
      ensures var x := Solo(v, procs[a], Count(schedule, a));
              a in w.1 && w.1[a] == x.1 && ViewOf(w.0, a, names[a]) == ViewOf(x.0, a, names[a])
    {
      Projects(names, a, (v, procs, v), schedule);
      AlikeIsSameView(w.0, Solo(v, procs[a], Count(schedule, a)).0, a, names[a]);
    }
  }
}
