/** The script of a sync Job as a machine that runs one command per step, so that a run can be cut
    off after any command and interleaved with the scripts of other addons. */
module SyncScript {
  import opened Options
  import opened AddonVolume

  /** What one sync run works on: the checkout of `commit` and MODLIST. `src` maps a module to
      the files of its folder in the order `cp -a` copies them, `.git` included. */
  datatype Job = Job(
    addon: Addon,
    commit: Commit,
    singleAddon: bool,
    rootManifest: bool,
    names: seq<Name>,
    src: map<Name, seq<File>>)

  /** MODLIST went through `sort -u` and holds folder names; a single-module run lists one. */
  ghost predicate ValidJob(j: Job) {
    && NoDup(j.names) && "" !in j.names
    && (j.singleAddon ==> |j.names| == 1)
    && forall n :: n in j.names ==> n in j.src
  }

  /** The next command of the script. `i` indexes MODLIST, `f` the files of one module. */
  datatype Pc =
    | Start                     // manifest check or empty-list check
    | Check(i: nat)             // conflict check of names[i]
    | SavePrev
    | MakeRel
    | Publish(i: nat)           // [ ! -d "$REL/$name" ]
    | ClearPartial(i: nat)
    | OpenPartial(i: nat)
    | Copy(i: nat, f: nat)
    | StripGit(i: nat)
    | Finish(i: nat)
    | ClearDir(i: nat)
    | PointSwitch(i: nat)
    | Flip(i: nat)
    | TouchRel
    | Stale(k: nat)             // the k-th line of PREV
    | StageManifest
    | FlipManifest
    | ListOld
    | Prune(doomed: seq<Commit>)
    | Done
    | Refused

  datatype Local = Local(prev: seq<Name>, pc: Pc)

  const INIT := Local([], Start)

  ghost predicate PcOk(j: Job, pc: Pc) {
    && ((pc.ClearPartial? || pc.OpenPartial? || pc.Copy? || pc.StripGit? || pc.Finish? || pc.ClearDir?
         || pc.PointSwitch? || pc.Flip?) ==> pc.i < |j.names|)
    && (pc.Copy? ==> j.names[pc.i] in j.src && pc.f <= |j.src[j.names[pc.i]]|)
  }

  predicate Stopped(l: Local) {
    l.pc.Done? || l.pc.Refused?
  }

  /** One command. A stopped script stays stopped. */
  function Step(j: Job, v: Volume, l: Local): (r: (Volume, Local))
    requires ValidJob(j) && PcOk(j, l.pc)
    ensures PcOk(j, r.1.pc)
  {
    var a, c := j.addon, j.commit;
    match l.pc
    case Start =>
      if (j.singleAddon && !j.rootManifest) || (!j.singleAddon && j.names == []) then (v, l.(pc := Refused))
      else (v, l.(pc := Check(0)))
    case Check(i) =>
      if |j.names| <= i then (v, l.(pc := SavePrev))
      else if Conflicts(v, a, j.names[i]) then (v, l.(pc := Refused))
      else (v, l.(pc := Check(i + 1)))
    case SavePrev => (v, Local(ManifestOf(v, a), MakeRel))
    case MakeRel => (MakeRelease(v, a, c), l.(pc := Publish(0)))
    case Publish(i) =>
      if |j.names| <= i then (v, l.(pc := TouchRel))
      else if Holds(v, a, c, j.names[i]) then (v, l.(pc := ClearDir(i)))
      else (v, l.(pc := ClearPartial(i)))
    case ClearPartial(i) => (RemovePartial(v, a, c, j.names[i]), l.(pc := OpenPartial(i)))
    case OpenPartial(i) => (BeginPartial(v, a, c, j.names[i]), l.(pc := Copy(i, 0)))
    case Copy(i, f) =>
      var files := j.src[j.names[i]];
      if |files| <= f then (v, l.(pc := StripGit(i)))
      else (CopyFile(v, a, c, j.names[i], files[f]), l.(pc := Copy(i, f + 1)))
    case StripGit(i) => (RemoveGit(v, a, c, j.names[i]), l.(pc := Finish(i)))
    case Finish(i) => (FinishPartial(v, a, c, j.names[i]), l.(pc := ClearDir(i)))
    case ClearDir(i) => (DropDir(v, j.names[i]), l.(pc := PointSwitch(i)))
    case PointSwitch(i) => (MakeSwitch(v, a, c, j.names[i]), l.(pc := Flip(i)))
    case Flip(i) => (ApplySwitch(v, j.names[i]), l.(pc := Publish(i + 1)))
    case TouchRel => (Touch(v, a, c), l.(pc := Stale(0)))
    case Stale(k) =>
      if |l.prev| <= k then (v, l.(pc := StageManifest))
      else if l.prev[k] == "" || l.prev[k] in j.names then (v, l.(pc := Stale(k + 1)))
      else (RemoveOwnLink(v, a, Module(l.prev[k])), l.(pc := Stale(k + 1)))
    case StageManifest => (WriteManifest(v, a, j.names), l.(pc := FlipManifest))
    case FlipManifest => (SwitchManifest(v, a), l.(pc := ListOld))
    case ListOld => (v, l.(pc := Prune(Outdated(v, a))))
    case Prune(doomed) =>
      if doomed == [] then (v, l.(pc := Done))
      else (RemoveRelease(v, a, doomed[0]), l.(pc := Prune(doomed[1..])))
    case Done => (v, l)
    case Refused => (v, l)
  }

  /** The commands that write to the store, and those that write to the mount itself. */
  predicate Storing(pc: Pc) {
    pc.MakeRel? || pc.ClearPartial? || pc.OpenPartial? || pc.Copy? || pc.StripGit? || pc.Finish? || pc.TouchRel?
    || Recording(pc)
  }

  predicate Recording(pc: Pc) {
    pc.StageManifest? || pc.FlipManifest? || pc.Prune?
  }

  predicate Linking(pc: Pc) {
    pc.ClearDir? || pc.PointSwitch? || pc.Flip? || pc.Stale?
  }

  lemma StoresUntouched(j: Job, v: Volume, l: Local)
    requires ValidJob(j) && PcOk(j, l.pc) && !Storing(l.pc)
    ensures Step(j, v, l).0.stores == v.stores
  {
  }

  lemma EntriesUntouched(j: Job, v: Volume, l: Local)
    requires ValidJob(j) && PcOk(j, l.pc) && !Linking(l.pc)
    ensures Step(j, v, l).0.top == v.top
  {
  }

  /** A command writes to the store of its own addon only. */
  lemma OwnStoreOnly(j: Job, v: Volume, l: Local)
    requires ValidJob(j) && PcOk(j, l.pc)
    ensures var w := Step(j, v, l).0; w.stores == v.stores || w.stores == v.stores[j.addon := StoreOf(w, j.addon)]
  {
    if !Storing(l.pc) {
      StoresUntouched(j, v, l);
    }
  }

  /** The volume and the script after `k` commands: a run cut off there. */
  function Exec(j: Job, v: Volume, l: Local, k: nat): (r: (Volume, Local))
    requires ValidJob(j) && PcOk(j, l.pc)
    ensures PcOk(j, r.1.pc)
    decreases k
  {
    if k == 0 then (v, l) else
      var s := Step(j, v, l);
      Exec(j, s.0, s.1, k - 1)
  }

  function Left(n: nat, i: nat): nat {
    if i < n then n - i else 0
  }

  function Phase(pc: Pc): nat {
    match pc
    case Start => 11
    case Check(_) => 10
    case SavePrev => 9
    case MakeRel => 8
    case TouchRel => 6
    case Stale(_) => 5
    case StageManifest => 4
    case FlipManifest => 3
    case ListOld => 2
    case Prune(_) => 1
    case Done => 0
    case Refused => 0
    case _ => 7
  }

  function Loops(j: Job, l: Local): nat {
    match l.pc
    case Check(i) => Left(|j.names| + 1, i)
    case Stale(k) => Left(|l.prev| + 1, k)
    case Prune(d) => |d| + 1
    case Start => 0
    case SavePrev => 0
    case MakeRel => 0
    case TouchRel => 0
    case StageManifest => 0
    case FlipManifest => 0
    case ListOld => 0
    case Done => 0
    case Refused => 0
    case _ => Left(|j.names| + 1, l.pc.i)
  }

  function Within(pc: Pc): nat {
    match pc
    case Publish(_) => 8
    case ClearPartial(_) => 7
    case OpenPartial(_) => 6
    case Copy(_, _) => 5
    case StripGit(_) => 4
    case Finish(_) => 3
    case ClearDir(_) => 2
    case PointSwitch(_) => 1
    case _ => 0
  }

  function Files(j: Job, pc: Pc): nat
    requires PcOk(j, pc)
  {
    if pc.Copy? then |j.src[j.names[pc.i]]| - pc.f else 0
  }

  /** A run left alone: it always comes to a stop. */
  function Run(j: Job, v: Volume, l: Local): (r: (Volume, Local))
    requires ValidJob(j) && PcOk(j, l.pc)
    ensures PcOk(j, r.1.pc) && Stopped(r.1)
    decreases Phase(l.pc), Loops(j, l), Within(l.pc), Files(j, l.pc)
  {
    if Stopped(l) then (v, l) else
      var s := Step(j, v, l);
      Run(j, s.0, s.1)
  }

  lemma RunStep(j: Job, v: Volume, l: Local)
    requires ValidJob(j) && PcOk(j, l.pc)
    ensures var s := Step(j, v, l); Run(j, s.0, s.1) == Run(j, v, l)
  {
  }

  lemma ExecStep(j: Job, v: Volume, l: Local, k: nat)
    requires ValidJob(j) && PcOk(j, l.pc)
    ensures var s := Step(j, v, l); Exec(j, v, l, k + 1) == Exec(j, s.0, s.1, k)
  {
  }

  /** Single commands do not lead out of these states. */
  ghost predicate Closed(j: Job, states: iset<(Volume, Local)>)
    requires ValidJob(j)
  {
    forall t {:trigger Step(j, t.0, t.1)} :: t in states ==> PcOk(j, t.1.pc) && Step(j, t.0, t.1) in states
  }

  lemma ClosedStep(j: Job, states: iset<(Volume, Local)>, s: (Volume, Local))
    requires ValidJob(j) && Closed(j, states) && s in states && PcOk(j, s.1.pc)
    ensures Step(j, s.0, s.1) in states
  {
  }

  /** A run cut off anywhere stays among such states. */
  lemma {:induction false} ExecStaysIn(j: Job, states: iset<(Volume, Local)>, s: (Volume, Local), k: nat)
    requires ValidJob(j) && Closed(j, states) && s in states && PcOk(j, s.1.pc)
    ensures Exec(j, s.0, s.1, k) in states
    decreases k
  {
    if k > 0 {
      var next := Step(j, s.0, s.1);
      ClosedStep(j, states, s);
      ExecStep(j, s.0, s.1, k - 1);
      ExecStaysIn(j, states, next, k - 1);
    }
  }

  /** Cutting a run off and letting the same process go on is the whole run. */
  lemma RunAfterExec(j: Job, v: Volume, l: Local, k: nat)
    requires ValidJob(j) && PcOk(j, l.pc)
    ensures var w := Exec(j, v, l, k); Run(j, w.0, w.1) == Run(j, v, l)
  {
    var end := Run(j, v, l);
    var states := iset t: (Volume, Local) | PcOk(j, t.1.pc) && Run(j, t.0, t.1) == end;
    assert Closed(j, states) by {
      forall t | t in states ensures Step(j, t.0, t.1) in states {
        RunStep(j, t.0, t.1);
      }
    }
    ExecStaysIn(j, states, (v, l), k);
  }

  /** How many commands a run left alone takes. */
  function Length(j: Job, v: Volume, l: Local): nat
    requires ValidJob(j) && PcOk(j, l.pc)
    decreases Phase(l.pc), Loops(j, l), Within(l.pc), Files(j, l.pc)
  {
    if Stopped(l) then 0 else
      var s := Step(j, v, l);
      1 + Length(j, s.0, s.1)
  }

  lemma LengthStep(j: Job, v: Volume, l: Local)
    requires ValidJob(j) && PcOk(j, l.pc)
    ensures Stopped(l) ==> Length(j, v, l) == 0
    ensures !Stopped(l) ==> var s := Step(j, v, l); Length(j, v, l) == 1 + Length(j, s.0, s.1)
  {
  }

  /** A whole run is a cut-off run that was long enough. */
  lemma {:induction false} RunIsExec(j: Job, v: Volume, l: Local) returns (k: nat)
    requires ValidJob(j) && PcOk(j, l.pc)
    ensures Exec(j, v, l, k) == Run(j, v, l)
    decreases Length(j, v, l)
  {
    LengthStep(j, v, l);
    if Stopped(l) {
      k := 0;
    } else {
      var s := Step(j, v, l);
      RunStep(j, v, l);
      k := RunIsExec(j, s.0, s.1);
      ExecStep(j, v, l, k);
      k := k + 1;
    }
  }

  // ---- What a run amounts to -------------------------------------------------------------

  /** The first check that fails, on the volume as the run finds it. */
  predicate Refuses(j: Job, v: Volume) {
    || (j.singleAddon && !j.rootManifest)
    || (!j.singleAddon && j.names == [])
    || exists n :: n in j.names && Conflicts(v, j.addon, n)
  }

  /** The finished copy of a module: its files without `.git`. */
  function CleanFiles(j: Job, n: Name): set<File> {
    if n in j.src then set f | f in j.src[n] && f != GIT_DIR else {}
  }

  function ToSet<T>(s: seq<T>): set<T> {
    set x | x in s
  }

  /** Modules the previous sync published and this one does not. */
  predicate IsStale(j: Job, prev: seq<Name>, k: Key) {
    k.Module? && k.name in prev && k.name != "" && k.name !in j.names
  }

  function FinalTop(j: Job, top: map<Key, Entry>, prev: seq<Name>): map<Key, Entry> {
    map k | k in top.Keys + (set n | n in j.names :: Module(n))
            && !(k.Switch? && k.name in j.names)
            && !(k !in (set n | n in j.names :: Module(n)) && IsStale(j, prev, k) && IsOwn(top[k], j.addon))
      :: if k.Module? && k.name in j.names then Link(j.addon, j.commit, k.name) else top[k]
  }

  function FinalRelease(j: Job, r: Release): Release {
    Release(
      r.copies + (map n | n in ToSet(j.names) - r.copies.Keys :: CleanFiles(j, n)),
      r.partials - (ToSet(j.names) - r.copies.Keys))
  }

  function FinalStore(j: Job, s: Store): Store {
    var order := KeepTwo(ToFront(s.order, j.commit));
    Store(order,
          map x | x in order :: if x == j.commit then FinalRelease(j, ReleaseOf(s, x)) else ReleaseOf(s, x),
          Some(j.names), None)
  }

  /** The volume after a run that is not refused, from the volume it starts on: the modules of
      the run link to the new release, stale modules are gone, the manifest is the module list,
      and the two newest releases are kept with the new one first. */
  function Final(j: Job, v: Volume): Volume {
    Volume(
      FinalTop(j, v.top, ManifestOf(v, j.addon)),
      v.stores[j.addon := FinalStore(j, StoreOf(v, j.addon))])
  }
}
