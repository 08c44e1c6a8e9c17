/** What Odoo can see while a sync runs, and after it was cut off at any command. */
module SyncSafety {
  import opened AddonVolume
  import opened SyncScript
  import opened SyncCorrect

  function CopyOf(v: Volume, a: Addon, c: Commit, n: Name): set<File> {
    if Holds(v, a, c, n) then ReleaseOf(StoreOf(v, a), c).copies[n] else {}
  }

  /** Finished folders never change: a folder of the store was there before, or is a whole copy
      made by this run. */
  ghost predicate CopiesOnlyAdded(j: Job, v0: Volume, v: Volume) {
    && (forall x, n :: Holds(v, j.addon, x, n) && Holds(v0, j.addon, x, n) ==> CopyOf(v, j.addon, x, n) == CopyOf(v0, j.addon, x, n))
    && (forall x, n :: Holds(v, j.addon, x, n) && !Holds(v0, j.addon, x, n) ==>
          x == j.commit && n in j.names && CopyOf(v, j.addon, x, n) == CleanFiles(j, n))
    && (forall x, n :: Holds(v0, j.addon, x, n) && x in StoreOf(v, j.addon).releases ==> Holds(v, j.addon, x, n))
  }

  /** A link to the new release that was not there before has its folder. */
  ghost predicate NewLinksHeld(j: Job, v0: Volume, v: Volume) {
    forall n :: n in j.names && Module(n) in v.top && v.top[Module(n)] == Link(j.addon, j.commit, n) ==>
      SameEntry(v0, v, Module(n)) || Holds(v, j.addon, j.commit, n)
  }

  ghost predicate Kept(j: Job, v0: Volume, v: Volume, l: Local) {
    && CopiesOnlyAdded(j, v0, v)
    && NewLinksHeld(j, v0, v)
    && (!AfterManifest(l.pc) ==> StoreOf(v0, j.addon).releases.Keys <= StoreOf(v, j.addon).releases.Keys)
    && (!Reading(l.pc) && !l.pc.MakeRel? ==> j.commit in StoreOf(v, j.addon).releases)
  }

  lemma KeptByRelease(j: Job, v0: Volume, v: Volume, r: Release)
    requires CopiesOnlyAdded(j, v0, v) && NewLinksHeld(j, v0, v)
    requires r.copies == ReleaseOf(StoreOf(v, j.addon), j.commit).copies
    requires StoreOf(v0, j.addon).releases.Keys <= StoreOf(v, j.addon).releases.Keys
    ensures var w := WithRelease(v, j.addon, j.commit, r); CopiesOnlyAdded(j, v0, w) && NewLinksHeld(j, v0, w)
  {
    var w := WithRelease(v, j.addon, j.commit, r);
    assert forall x, n :: Holds(w, j.addon, x, n) <==> Holds(v, j.addon, x, n);
    forall x, n | Holds(w, j.addon, x, n) ensures CopyOf(w, j.addon, x, n) == CopyOf(v, j.addon, x, n) {
    }
  }

  lemma KeptByFinish(j: Job, v0: Volume, v: Volume, l: Local)
    requires ValidJob(j) && PcOk(j, l.pc) && At(j, v, l) && Kept(j, v0, v, l) && l.pc.Finish?
    ensures var r := Step(j, v, l); Kept(j, v0, r.0, r.1)
  {
    var w := Step(j, v, l).0;
    var m := j.names[l.pc.i];
    assert forall x, n :: Holds(w, j.addon, x, n) <==> Holds(v, j.addon, x, n) || (x == j.commit && n == m);
    forall x, n | Holds(v, j.addon, x, n) ensures CopyOf(w, j.addon, x, n) == CopyOf(v, j.addon, x, n) {
    }
    assert CopyOf(w, j.addon, j.commit, m) == CleanFiles(j, m);
    assert !Holds(v0, j.addon, j.commit, m);
  }

  /** Finished folders and the links stay, apart from links to folders that are there. */
  lemma KeptElsewhere(j: Job, v0: Volume, v: Volume, w: Volume)
    requires CopiesOnlyAdded(j, v0, v) && NewLinksHeld(j, v0, v)
    requires StoreOf(w, j.addon).releases == StoreOf(v, j.addon).releases
    requires forall n :: n in j.names && Module(n) in w.top && w.top[Module(n)] == Link(j.addon, j.commit, n) ==>
               SameEntry(v, w, Module(n)) || Holds(v, j.addon, j.commit, n)
    ensures CopiesOnlyAdded(j, v0, w) && NewLinksHeld(j, v0, w)
  {
    assert forall x, n :: Holds(w, j.addon, x, n) <==> Holds(v, j.addon, x, n);
    forall x, n | Holds(w, j.addon, x, n) ensures CopyOf(w, j.addon, x, n) == CopyOf(v, j.addon, x, n) {
    }
  }

  lemma CopiesAfterRemoval(j: Job, v0: Volume, v: Volume, d: Commit)
    requires CopiesOnlyAdded(j, v0, v)
    ensures CopiesOnlyAdded(j, v0, RemoveRelease(v, j.addon, d))
    ensures forall x, n :: x != d ==> (Holds(RemoveRelease(v, j.addon, d), j.addon, x, n) <==> Holds(v, j.addon, x, n))
  {
    var w := RemoveRelease(v, j.addon, d);
    assert forall x, n :: Holds(w, j.addon, x, n) <==> Holds(v, j.addon, x, n) && x != d;
    forall x, n | Holds(w, j.addon, x, n) ensures CopyOf(w, j.addon, x, n) == CopyOf(v, j.addon, x, n) {
    }
  }

  lemma KeptByPrune(j: Job, v0: Volume, v: Volume, l: Local)
    requires ValidJob(j) && PcOk(j, l.pc) && Inv(j, v0, v, l) && Kept(j, v0, v, l) && l.pc.Prune? && l.pc.doomed != []
    ensures var r := Step(j, v, l); Kept(j, v0, r.0, r.1)
  {
    var d := l.pc.doomed[0];
    ReleaseRemoved(j, v0, v, d);
    CopiesAfterRemoval(j, v0, v, d);
  }

  lemma KeptByPartial(j: Job, v0: Volume, v: Volume, l: Local)
    requires ValidJob(j) && PcOk(j, l.pc) && At(j, v, l) && Kept(j, v0, v, l)
    requires l.pc.Copy? || l.pc.StripGit?
    ensures var r := Step(j, v, l); Kept(j, v0, r.0, r.1)
  {
    var w := Step(j, v, l).0;
    assert forall x, n :: Holds(w, j.addon, x, n) <==> Holds(v, j.addon, x, n);
    forall x, n | Holds(w, j.addon, x, n) ensures CopyOf(w, j.addon, x, n) == CopyOf(v, j.addon, x, n) {
    }
    assert w.top == v.top;
  }

  lemma KeptByLinking(j: Job, v0: Volume, v: Volume, l: Local)
    requires ValidJob(j) && PcOk(j, l.pc) && At(j, v, l) && Kept(j, v0, v, l)
    requires l.pc.ClearDir? || l.pc.PointSwitch? || l.pc.Flip? || l.pc.Stale?
    ensures var r := Step(j, v, l); Kept(j, v0, r.0, r.1)
  {
    KeptElsewhere(j, v0, v, Step(j, v, l).0);
  }

  lemma KeptByRest(j: Job, v0: Volume, v: Volume, l: Local)
    requires ValidJob(j) && PcOk(j, l.pc) && Kept(j, v0, v, l)
    requires Reading(l.pc) || l.pc.Publish? || l.pc.StageManifest? || l.pc.FlipManifest? || l.pc.ListOld? || l.pc.Done?
             || (l.pc.Prune? && l.pc.doomed == [])
    ensures var r := Step(j, v, l); Kept(j, v0, r.0, r.1)
  {
    KeptElsewhere(j, v0, v, Step(j, v, l).0);
  }

  lemma KeptByDirectory(j: Job, v0: Volume, v: Volume, l: Local)
    requires ValidJob(j) && PcOk(j, l.pc) && Kept(j, v0, v, l)
    requires l.pc.MakeRel? || l.pc.ClearPartial? || l.pc.OpenPartial? || l.pc.TouchRel?
    ensures var r := Step(j, v, l); Kept(j, v0, r.0, r.1)
  {
    var r := ReleaseOf(StoreOf(v, j.addon), j.commit);
    KeptByRelease(j, v0, v, r);
    if l.pc.ClearPartial? {
      KeptByRelease(j, v0, v, r.(partials := r.partials - {j.names[l.pc.i]}));
    } else if l.pc.OpenPartial? {
      KeptByRelease(j, v0, v, r.(partials := r.partials[j.names[l.pc.i] := {}]));
    }
  }

  lemma StepKept(j: Job, v0: Volume, v: Volume, l: Local)
    requires ValidJob(j) && PcOk(j, l.pc) && Inv(j, v0, v, l) && Kept(j, v0, v, l)
    ensures var r := Step(j, v, l); Kept(j, v0, r.0, r.1)
  {
    if l.pc.Finish? {
      KeptByFinish(j, v0, v, l);
    } else if l.pc.Prune? && l.pc.doomed != [] {
      KeptByPrune(j, v0, v, l);
    } else if l.pc.Copy? || l.pc.StripGit? {
      KeptByPartial(j, v0, v, l);
    } else if l.pc.MakeRel? || l.pc.ClearPartial? || l.pc.OpenPartial? || l.pc.TouchRel? {
      KeptByDirectory(j, v0, v, l);
    } else if l.pc.ClearDir? || l.pc.PointSwitch? || l.pc.Flip? || l.pc.Stale? {
      KeptByLinking(j, v0, v, l);
    } else {
      KeptByRest(j, v0, v, l);
    }
  }

  /** The states of runs that started on `v0`. */
  ghost function States(j: Job, v0: Volume): iset<(Volume, Local)>
    requires ValidJob(j)
  {
    iset s: (Volume, Local) | PcOk(j, s.1.pc) && Inv(j, v0, s.0, s.1) && Kept(j, v0, s.0, s.1)
  }

  lemma StepStays(j: Job, v0: Volume, s: (Volume, Local))
    requires ValidJob(j) && s in States(j, v0)
    ensures PcOk(j, s.1.pc) && Step(j, s.0, s.1) in States(j, v0)
  {
    StepKeepsInv(j, v0, s.0, s.1);
    StepKept(j, v0, s.0, s.1);
  }

  lemma ExecKept(j: Job, v0: Volume, k: nat)
    requires ValidJob(j) && ValidVolume(v0)
    ensures Exec(j, v0, INIT, k) in States(j, v0)
  {
    InvAtStart(j, v0);
    assert (v0, INIT) in States(j, v0);
    assert Closed(j, States(j, v0)) by {
      forall t | t in States(j, v0) ensures PcOk(j, t.1.pc) && Step(j, t.0, t.1) in States(j, v0) {
        StepStays(j, v0, t);
      }
    }
    ExecStaysIn(j, States(j, v0), (v0, INIT), k);
  }
}
