/** What Odoo sees at every moment: while a sync runs, after it was cut off at any command, and while
    it is run again, as often as one likes. */
module SyncMoments {
  import opened AddonVolume
  import opened SyncScript
  import opened SyncCorrect
  import opened SyncSafety
  import opened SyncRuns

  /** Nothing of this addon is visible beyond its manifest and the modules of the run. */
  ghost predicate NothingLeaked(j: Job, v: Volume) {
    forall n :: OwnLink(v, j.addon, Module(n)) ==> n in j.names || (n in ManifestOf(v, j.addon) && n != "")
  }

  /** The volume may be trusted: what the addon shows resolves, and none of it is leaked. */
  ghost predicate Sound(j: Job, v: Volume) {
    AllResolve(v, j.addon) && NothingLeaked(j, v)
  }

  /** Every folder of the store was there before, unchanged, or is a whole copy made for this sync. */
  ghost predicate Grown(j: Job, v0: Volume, v: Volume) {
    && (forall x, n :: Holds(v, j.addon, x, n) ==>
          || (Holds(v0, j.addon, x, n) && CopyOf(v, j.addon, x, n) == CopyOf(v0, j.addon, x, n))
          || (x == j.commit && n in j.names && CopyOf(v, j.addon, x, n) == CleanFiles(j, n)))
    && (forall n :: Holds(v0, j.addon, j.commit, n) ==> Holds(v, j.addon, j.commit, n))
  }

  /** What the syncs of one job may have done to the volume by some moment. */
  ghost predicate Moved(j: Job, v0: Volume, v: Volume) {
    && Frame(j, v0, v) && ModulesMoveForward(j, v0, v) && OnlyStaleGo(j, v0, v) && Grown(j, v0, v)
    && (v == v0 || forall n :: n in j.names ==> !Conflicts(v0, j.addon, n))
    && (ManifestOf(v, j.addon) == ManifestOf(v0, j.addon) || ManifestOf(v, j.addon) == j.names)
    && (Sound(j, v0) ==> Sound(j, v))
  }

  // ---- One run -----------------------------------------------------------------------------

  lemma LinkResolvesMidRun(j: Job, v0: Volume, v: Volume, l: Local, n: Name)
    requires ValidJob(j) && PcOk(j, l.pc) && Inv(j, v0, v, l) && Kept(j, v0, v, l)
    requires AllResolve(v0, j.addon) && NothingLeaked(j, v0) && OwnLink(v, j.addon, Module(n))
    ensures Resolves(v, j.addon, Module(n))
  {
    if AfterManifest(l.pc) {
      ListedAtTheEnd(j, v0, v, l, n);
    } else if SameEntry(v0, v, Module(n)) {
      assert Resolves(v0, j.addon, Module(n));
      assert v.top[Module(n)].commit in StoreOf(v0, j.addon).releases;
    }
  }

  /** Once the manifest is switched, the addon shows modules of the run only. */
  lemma ListedAtTheEnd(j: Job, v0: Volume, v: Volume, l: Local, n: Name)
    requires ValidJob(j) && PcOk(j, l.pc) && Inv(j, v0, v, l) && AfterManifest(l.pc)
    requires NothingLeaked(j, v0) && OwnLink(v, j.addon, Module(n))
    ensures n in j.names && Resolves(v, j.addon, Module(n))
  {
    assert n !in j.names ==> SameEntry(v0, v, Module(n));
    var m :| 0 <= m < |j.names| && j.names[m] == n;
    assert Holds(v, j.addon, j.commit, j.names[m]);
  }

  lemma SoundMidRun(j: Job, v0: Volume, v: Volume, l: Local)
    requires ValidJob(j) && PcOk(j, l.pc) && Inv(j, v0, v, l) && Kept(j, v0, v, l) && Sound(j, v0)
    ensures Sound(j, v)
  {
    forall n | OwnLink(v, j.addon, Module(n))
      ensures Resolves(v, j.addon, Module(n)) && (n in j.names || (n in ManifestOf(v, j.addon) && n != ""))
    {
      LinkResolvesMidRun(j, v0, v, l, n);
      if AfterManifest(l.pc) {
        ListedAtTheEnd(j, v0, v, l, n);
      } else if n !in j.names {
        assert SameEntry(v0, v, Module(n));
      }
    }
  }

  lemma GrownMidRun(j: Job, v0: Volume, v: Volume, l: Local)
    requires ValidJob(j) && PcOk(j, l.pc) && Inv(j, v0, v, l) && Kept(j, v0, v, l)
    ensures Grown(j, v0, v)
  {
  }

  lemma CutMoves(j: Job, v: Volume, k: nat)
    requires ValidJob(j) && ValidVolume(v)
    ensures Moved(j, v, Exec(j, v, INIT, k).0)
  {
    InvAtStart(j, v);
    ExecKeepsInv(j, v, v, INIT, k);
    ExecKept(j, v, k);
    var r := Exec(j, v, INIT, k);
    GrownMidRun(j, v, r.0, r.1);
    if Sound(j, v) {
      SoundMidRun(j, v, r.0, r.1);
    }
    ChecksPassed(j, v, r.0, r.1);
    ManifestMidRun(j, v, r.0, r.1);
  }

  lemma ChecksPassed(j: Job, v0: Volume, v: Volume, l: Local)
    requires ValidJob(j) && PcOk(j, l.pc) && Inv(j, v0, v, l)
    ensures v == v0 || forall n :: n in j.names ==> !Conflicts(v0, j.addon, n)
  {
  }

  lemma ManifestMidRun(j: Job, v0: Volume, v: Volume, l: Local)
    requires ValidJob(j) && PcOk(j, l.pc) && Inv(j, v0, v, l)
    ensures ManifestOf(v, j.addon) == ManifestOf(v0, j.addon) || ManifestOf(v, j.addon) == j.names
  {
  }

  // ---- Run after run -----------------------------------------------------------------------

  lemma FrameTwice(j: Job, u: Volume, v: Volume, w: Volume)
    requires Moved(j, u, v) && Frame(j, v, w)
    ensures Frame(j, u, w)
  {
    forall k: Key | k.name !in j.names && !(k.Module? && k.name in ManifestOf(u, j.addon)) ensures SameEntry(u, w, k) {
      assert SameEntry(u, v, k) && SameEntry(v, w, k);
    }
  }

  lemma ModulesTwice(j: Job, u: Volume, v: Volume, w: Volume)
    requires ModulesMoveForward(j, u, v) && ModulesMoveForward(j, v, w) && OnlyStaleGo(j, u, v) && OnlyStaleGo(j, v, w)
    ensures ModulesMoveForward(j, u, w) && OnlyStaleGo(j, u, w)
  {
  }

  lemma GrownTwice(j: Job, u: Volume, v: Volume, w: Volume)
    requires Grown(j, u, v) && Grown(j, v, w)
    ensures Grown(j, u, w)
  {
  }

  lemma MovedTwice(j: Job, u: Volume, v: Volume, w: Volume)
    requires Moved(j, u, v) && Moved(j, v, w)
    ensures Moved(j, u, w)
  {
    FrameTwice(j, u, v, w);
    ModulesTwice(j, u, v, w);
    GrownTwice(j, u, v, w);
  }

  /** Any number of cut-off runs of the job, and then some commands of one more. */
  lemma {:induction false} AttemptsMove(j: Job, v: Volume, cuts: seq<nat>, k: nat)
    requires ValidJob(j) && ValidVolume(v)
    ensures Moved(j, v, Exec(j, Attempts(j, v, cuts), INIT, k).0)
    decreases |cuts|
  {
    if cuts == [] {
      CutMoves(j, v, k);
    } else {
      var w := Exec(j, v, INIT, cuts[0]).0;
      CutMoves(j, v, cuts[0]);
      CutKeepsOutcome(j, v, cuts[0]);
      AttemptsMove(j, w, cuts[1..], k);
      MovedTwice(j, v, w, Exec(j, Attempts(j, w, cuts[1..]), INIT, k).0);
    }
  }

  // ---- What that means ---------------------------------------------------------------------

  /** Why an entry of the volume is not there any more: a real folder in the place of a module of the
      run, removed before its link is switched in; or a link of this addon to a module that the run
      does not list. */
  predicate Vanishes(j: Job, v: Volume, n: Name)
    requires Module(n) in v.top
  {
    || (n in j.names && v.top[Module(n)].Dir?)
    || (n !in j.names && n in ManifestOf(v, j.addon) && OwnLink(v, j.addon, Module(n)))
  }

  /** The addon shows the same modules as before, and they resolve if they did. */
  ghost predicate Untouched(v: Volume, w: Volume, b: Addon) {
    && (forall n :: OwnLink(v, b, Module(n)) <==> OwnLink(w, b, Module(n)))
    && (forall n :: OwnLink(v, b, Module(n)) ==> w.top[Module(n)] == v.top[Module(n)])
    && (AllResolve(v, b) ==> AllResolve(w, b))
  }

  lemma OthersStay(j: Job, v: Volume, w: Volume, b: Addon)
    requires Moved(j, v, w) && b != j.addon
    ensures Untouched(v, w, b)
  {
    forall n
      ensures OwnLink(v, b, Module(n)) <==> OwnLink(w, b, Module(n))
      ensures OwnLink(v, b, Module(n)) ==> w.top[Module(n)] == v.top[Module(n)]
    {
      if OwnLink(v, b, Module(n)) && n in j.names {
        assert Conflicts(v, j.addon, n);
      }
    }
    if AllResolve(v, b) {
      assert StoreOf(w, b) == StoreOf(v, b);
      forall n | OwnLink(w, b, Module(n)) ensures Resolves(w, b, Module(n)) {
        assert Resolves(v, b, Module(n));
      }
    }
  }

  /** At every moment of any number of cut-off runs of a sync, from a volume where every visible module
      of the addon resolves and none is leaked: that stays so; the links of every other addon stay as
      they are, and resolve if they did; an entry vanishes only as a real folder in the place of a
      module of the run, until its link is switched in, or as a link of the addon that the run
      dropped; and every folder a link can reach was there before, unchanged, or is a whole copy. */
  lemma CutOffIsSafe(j: Job, v: Volume, cuts: seq<nat>, k: nat)
    requires ValidJob(j) && ValidVolume(v) && AllResolve(v, j.addon) && NothingLeaked(j, v)
    ensures var w := Exec(j, Attempts(j, v, cuts), INIT, k).0;
            && AllResolve(w, j.addon) && NothingLeaked(j, w)
            && (forall b :: b != j.addon ==> Untouched(v, w, b))
            && (forall n :: Module(n) in v.top && Module(n) !in w.top ==> Vanishes(j, v, n))
            && (forall x, n :: Holds(w, j.addon, x, n) ==>
                  || (Holds(v, j.addon, x, n) && CopyOf(w, j.addon, x, n) == CopyOf(v, j.addon, x, n))
                  || (x == j.commit && n in j.names && CopyOf(w, j.addon, x, n) == CleanFiles(j, n)))
  {
    var w := Exec(j, Attempts(j, v, cuts), INIT, k).0;
    AttemptsMove(j, v, cuts, k);
    forall b | b != j.addon ensures Untouched(v, w, b) {
      OthersStay(j, v, w, b);
    }
    GoneMeansVanishes(j, v, w);
  }

  lemma GoneMeansVanishes(j: Job, v: Volume, w: Volume)
    requires Moved(j, v, w)
    ensures forall n :: Module(n) in v.top && Module(n) !in w.top ==> Vanishes(j, v, n)
  {
    forall n | Module(n) in v.top && Module(n) !in w.top ensures Vanishes(j, v, n) {
      assert !SameEntry(v, w, Module(n));
      assert Module(n).name == n;
    }
  }

  // ---- A folder in the way is missing for a while ------------------------------------------

  predicate IsFolder(v: Volume, n: Name) {
    Module(n) in v.top && v.top[Module(n)].Dir?
  }

  /** Between the removal of a folder and the switch there is no folder. */
  ghost predicate FolderRemoved(j: Job, v: Volume, l: Local)
    requires PcOk(j, l.pc)
  {
    l.pc.PointSwitch? || l.pc.Flip? ==> !IsFolder(v, j.names[l.pc.i])
  }

  lemma {:induction false} FolderRemovedMidRun(j: Job, v: Volume, k: nat)
    requires ValidJob(j) && ValidVolume(v)
    ensures var r := Exec(j, v, INIT, k); FolderRemoved(j, r.0, r.1)
    decreases k
  {
    if k > 0 {
      FolderRemovedMidRun(j, v, k - 1);
      ExecLast(j, v, INIT, k - 1);
      FolderRemovedStep(j, Exec(j, v, INIT, k - 1).0, Exec(j, v, INIT, k - 1).1);
    }
  }

  lemma FolderRemovedStep(j: Job, v: Volume, l: Local)
    requires ValidJob(j) && PcOk(j, l.pc) && FolderRemoved(j, v, l)
    ensures var r := Step(j, v, l); FolderRemoved(j, r.0, r.1)
  {
  }

  /** One command leaves a folder, or removes it: it never puts a link in its place. */
  lemma FolderStep(j: Job, v: Volume, l: Local, n: Name)
    requires ValidJob(j) && PcOk(j, l.pc) && FolderRemoved(j, v, l) && IsFolder(v, n)
    ensures var w := Step(j, v, l).0; Module(n) in w.top ==> IsFolder(w, n)
  {
  }

  lemma {:induction false} GapBefore(j: Job, v: Volume, n: Name, k: nat) returns (m: nat)
    requires ValidJob(j) && ValidVolume(v) && IsFolder(v, n) && !IsFolder(Exec(j, v, INIT, k).0, n)
    ensures m <= k && Module(n) !in Exec(j, v, INIT, m).0.top
    decreases k
  {
    if Module(n) !in Exec(j, v, INIT, k).0.top {
      m := k;
    } else {
      var r := Exec(j, v, INIT, k - 1);
      ExecLast(j, v, INIT, k - 1);
      FolderRemovedMidRun(j, v, k - 1);
      if IsFolder(r.0, n) {
        FolderStep(j, r.0, r.1, n);
        assert false;
      }
      m := GapBefore(j, v, n, k - 1);
    }
  }

  /** Whenever a sync that is not refused finds a real folder in the place of one of its modules, there
      is a command after which that module is not there at all. */
  lemma FolderGoesMissing(j: Job, v: Volume, n: Name) returns (m: nat)
    requires ValidJob(j) && ValidVolume(v) && !Refuses(j, v) && n in j.names && IsFolder(v, n)
    ensures Module(n) !in Exec(j, v, INIT, m).0.top
  {
    var k := RunIsExec(j, v, INIT);
    RunOutcome(j, v);
    m := GapBefore(j, v, n, k);
  }
}
