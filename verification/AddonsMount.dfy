/** The sync and cleanup scripts as they are written: loops that change the volume in place. Each
    is proved against the volume its machine ends on. */
module AddonsMount {
  import opened AddonVolume
  import opened SyncScript
  import opened SyncCorrect
  import opened SyncRuns
  import opened SyncHistory

  /** The machine of a run that started on `v0` comes to the state `s`. */
  ghost predicate Reaches(j: Job, v0: Volume, s: (Volume, Local))
    requires ValidJob(j)
  {
    exists k: nat :: Exec(j, v0, INIT, k) == s
  }

  lemma Next(j: Job, v0: Volume, v: Volume, l: Local)
    requires ValidJob(j) && Reaches(j, v0, (v, l))
    ensures PcOk(j, l.pc) && Reaches(j, v0, Step(j, v, l))
  {
    var k: nat :| Exec(j, v0, INIT, k) == (v, l);
    ExecLast(j, v0, INIT, k);
  }

  lemma Arrived(j: Job, v0: Volume, v: Volume, l: Local)
    requires ValidJob(j) && ValidVolume(v0) && Reaches(j, v0, (v, l)) && PcOk(j, l.pc) && Stopped(l)
    ensures Refuses(j, v0) <==> l.pc.Refused?
    ensures v == (if Refuses(j, v0) then v0 else Final(j, v0)) && ValidVolume(v)
  {
    var k: nat :| Exec(j, v0, INIT, k) == (v, l);
    RunAfterExec(j, v0, INIT, k);
    RunOutcome(j, v0);
  }

  class Mount {
    var vol: Volume

    constructor (v: Volume)
      ensures vol == v
    {
      vol := v;
    }

    /** `cp -a "$src" "$REL/.$name.partial"`, started on an empty folder. */
    method CopyFolder(j: Job, i: nat, ghost v0: Volume, ghost prev: seq<Name>)
      requires ValidJob(j) && i < |j.names| && Reaches(j, v0, (vol, Local(prev, OpenPartial(i))))
      modifies this
      ensures Reaches(j, v0, (vol, Local(prev, StripGit(i))))
    {
      var n := j.names[i];
      Next(j, v0, vol, Local(prev, OpenPartial(i)));
      vol := BeginPartial(vol, j.addon, j.commit, n);
      var f := 0;
      while f < |j.src[n]|
        invariant f <= |j.src[n]|
        invariant Reaches(j, v0, (vol, Local(prev, Copy(i, f))))
      {
        Next(j, v0, vol, Local(prev, Copy(i, f)));
        vol := CopyFile(vol, j.addon, j.commit, n, j.src[n][f]);
        f := f + 1;
      }
      Next(j, v0, vol, Local(prev, Copy(i, f)));
    }

    /** `publish`, its first half: the module is copied unless the release holds it. */
    method StoreModule(j: Job, i: nat, ghost v0: Volume, ghost prev: seq<Name>)
      requires ValidJob(j) && i < |j.names| && Reaches(j, v0, (vol, Local(prev, Publish(i))))
      modifies this
      ensures Reaches(j, v0, (vol, Local(prev, ClearDir(i))))
    {
      var a, c, n := j.addon, j.commit, j.names[i];
      Next(j, v0, vol, Local(prev, Publish(i)));
      if !Holds(vol, a, c, n) {
        Next(j, v0, vol, Local(prev, ClearPartial(i)));
        vol := RemovePartial(vol, a, c, n);
        CopyFolder(j, i, v0, prev);
        Next(j, v0, vol, Local(prev, StripGit(i)));
        vol := RemoveGit(vol, a, c, n);
        Next(j, v0, vol, Local(prev, Finish(i)));
        vol := FinishPartial(vol, a, c, n);
      }
    }

    /** `publish`, its second half: the module's link is switched by a rename. */
    method SwitchModule(j: Job, i: nat, ghost v0: Volume, ghost prev: seq<Name>)
      requires ValidJob(j) && i < |j.names| && Reaches(j, v0, (vol, Local(prev, ClearDir(i))))
      modifies this
      ensures Reaches(j, v0, (vol, Local(prev, Publish(i + 1))))
    {
      var n := j.names[i];
      Next(j, v0, vol, Local(prev, ClearDir(i)));
      vol := DropDir(vol, n);
      Next(j, v0, vol, Local(prev, PointSwitch(i)));
      vol := MakeSwitch(vol, j.addon, j.commit, n);
      Next(j, v0, vol, Local(prev, Flip(i)));
      vol := ApplySwitch(vol, n);
    }

    /** The stale-link loop over the saved manifest. */
    method RemoveStale(j: Job, prev: seq<Name>, ghost v0: Volume)
      requires ValidJob(j) && Reaches(j, v0, (vol, Local(prev, Stale(0))))
      modifies this
      ensures Reaches(j, v0, (vol, Local(prev, StageManifest)))
    {
      var k := 0;
      while k < |prev|
        invariant k <= |prev|
        invariant Reaches(j, v0, (vol, Local(prev, Stale(k))))
      {
        Next(j, v0, vol, Local(prev, Stale(k)));
        if prev[k] != "" && prev[k] !in j.names {
          vol := RemoveOwnLink(vol, j.addon, Module(prev[k]));
        }
        k := k + 1;
      }
      Next(j, v0, vol, Local(prev, Stale(k)));
    }

    /** The new manifest is written aside and renamed. */
    method RecordManifest(j: Job, ghost prev: seq<Name>, ghost v0: Volume)
      requires ValidJob(j) && Reaches(j, v0, (vol, Local(prev, StageManifest)))
      modifies this
      ensures Reaches(j, v0, (vol, Local(prev, ListOld)))
    {
      Next(j, v0, vol, Local(prev, StageManifest));
      vol := WriteManifest(vol, j.addon, j.names);
      Next(j, v0, vol, Local(prev, FlipManifest));
      vol := SwitchManifest(vol, j.addon);
    }

    /** Lists the releases, newest first, and removes every one after the second. */
    method PruneReleases(j: Job, ghost prev: seq<Name>, ghost v0: Volume)
      requires ValidJob(j) && Reaches(j, v0, (vol, Local(prev, ListOld)))
      modifies this
      ensures Reaches(j, v0, (vol, Local(prev, Done)))
    {
      Next(j, v0, vol, Local(prev, ListOld));
      var doomed := Outdated(vol, j.addon);
      while doomed != []
        invariant Reaches(j, v0, (vol, Local(prev, Prune(doomed))))
        decreases |doomed|
      {
        Next(j, v0, vol, Local(prev, Prune(doomed)));
        vol := RemoveRelease(vol, j.addon, doomed[0]);
        doomed := doomed[1..];
      }
      Next(j, v0, vol, Local(prev, Prune(doomed)));
    }

    /** The checks that come before the first write. */
    method Checks(j: Job) returns (refused: bool)
      requires ValidJob(j)
      ensures refused ==> Reaches(j, vol, (vol, Local([], Refused)))
      ensures !refused ==> Reaches(j, vol, (vol, Local([], SavePrev)))
    {
      assert Exec(j, vol, INIT, 0) == (vol, INIT);
      Next(j, vol, vol, INIT);
      if (j.singleAddon && !j.rootManifest) || (!j.singleAddon && j.names == []) {
        return true;
      }
      var i := 0;
      while i < |j.names|
        invariant i <= |j.names|
        invariant Reaches(j, vol, (vol, Local([], Check(i))))
      {
        Next(j, vol, vol, Local([], Check(i)));
        if Conflicts(vol, j.addon, j.names[i]) {
          return true;
        }
        i := i + 1;
      }
      Next(j, vol, vol, Local([], Check(i)));
      return false;
    }

    /** Publishes the modules of the list, one after the other. */
    method PublishAll(j: Job, ghost v0: Volume, ghost prev: seq<Name>)
      requires ValidJob(j) && Reaches(j, v0, (vol, Local(prev, Publish(0))))
      modifies this
      ensures Reaches(j, v0, (vol, Local(prev, TouchRel)))
    {
      var i := 0;
      while i < |j.names|
        invariant i <= |j.names|
        invariant Reaches(j, v0, (vol, Local(prev, Publish(i))))
      {
        StoreModule(j, i, v0, prev);
        SwitchModule(j, i, v0, prev);
        i := i + 1;
      }
      Next(j, v0, vol, Local(prev, Publish(i)));
    }

    /** A sync run. A refused run changes nothing; any other leaves the addon's links, manifest and
        releases as `Final` says, and nothing else is touched. */
    method SyncOnce(j: Job) returns (refused: bool)
      requires ValidJob(j) && ValidVolume(vol)
      modifies this
      ensures refused <==> Refuses(j, old(vol))
      ensures vol == if refused then old(vol) else Final(j, old(vol))
      ensures ValidVolume(vol)
    {
      ghost var v0 := vol;
      refused := Checks(j);
      if refused {
        Arrived(j, v0, vol, Local([], Refused));
        return;
      }
      Next(j, v0, vol, Local([], SavePrev));
      var prev := ManifestOf(vol, j.addon);
      Next(j, v0, vol, Local(prev, MakeRel));
      vol := MakeRelease(vol, j.addon, j.commit);
      PublishAll(j, v0, prev);
      Next(j, v0, vol, Local(prev, TouchRel));
      vol := Touch(vol, j.addon, j.commit);
      RemoveStale(j, prev, v0);
      RecordManifest(j, prev, v0);
      PruneReleases(j, prev, v0);
      Arrived(j, v0, vol, Local(prev, Done));
    }

    /** The cleanup script: every symlink under the mount is looked at, in any order. */
    method CleanUp(a: Addon)
      modifies this
      ensures vol == CleanupOf(old(vol), a)
    {
      var pending := set k | k in vol.top && (vol.top[k].Link? || vol.top[k].OtherLink?);
      ghost var was := vol;
      while pending != {}
        invariant CleanupOf(vol, a).top == CleanupOf(was, a).top && vol.stores == was.stores
        invariant forall k :: OwnLink(vol, a, k) ==> k in pending
        decreases pending
      {
        var k :| k in pending;
        ghost var before := vol;
        vol := RemoveOwnLink(vol, a, k);
        assert CleanupOf(vol, a).top == CleanupOf(before, a).top;
        pending := pending - {k};
      }
      vol := RemoveStore(vol, a);
      forall k | k in vol.top ensures !IsOwn(vol.top[k], a) {
        assert OwnLink(vol, a, k) ==> k in pending;
      }
      assert vol.top == CleanupOf(vol, a).top;
    }
  }
}
