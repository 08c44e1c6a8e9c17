/** What holds after whole sync runs, after runs cut off at any command, and after the cleanup
    script: the promises the addons volume makes to Odoo and to the other addons. */
module SyncRuns {
  import opened Options
  import opened AddonVolume
  import opened SyncScript
  import opened SyncCorrect

  // ---- A whole run -------------------------------------------------------------------------

  lemma FinalStoreFixed(j: Job, s: Store)
    requires ValidStore(s) && s.order != [] && s.order[0] == j.commit && |s.order| <= 2
    requires s.manifest == Some(j.names) && s.manifestTmp == None
    requires forall n :: n in j.names ==> n in ReleaseOf(s, j.commit).copies
    ensures FinalStore(j, s) == s
  {
    WithoutMembers(s.order[1..], s.order[0]);
    assert ToFront(s.order, j.commit) == s.order;
    var r := ReleaseOf(s, j.commit);
    assert ToSet(j.names) - r.copies.Keys == {};
    assert FinalRelease(j, r) == r;
    assert FinalStore(j, s).releases == s.releases;
  }

  lemma FinalFixed(j: Job, v: Volume)
    requires ValidJob(j) && ValidVolume(v) && Newest(j, v) && PublishedTo(j, v, |j.names|)
    requires StoreOf(v, j.addon).manifest == Some(j.names) && StoreOf(v, j.addon).manifestTmp == None
    requires |StoreOf(v, j.addon).order| <= 2
    ensures Final(j, v) == v
  {
    var s := StoreOf(v, j.addon);
    assert ValidStore(s);
    forall n | n in j.names
      ensures n in ReleaseOf(s, j.commit).copies && Module(n) in v.top && v.top[Module(n)] == Link(j.addon, j.commit, n)
      ensures Switch(n) !in v.top
    {
      var m :| 0 <= m < |j.names| && j.names[m] == n;
    }
    FinalStoreFixed(j, s);
    assert FinalTop(j, v.top, j.names) == v.top;
    assert j.addon in v.stores;
  }

  lemma RunKeepsInv(j: Job, v: Volume)
    requires ValidJob(j) && ValidVolume(v)
    ensures var r := Run(j, v, INIT); Inv(j, v, r.0, r.1) && Final(j, r.0) == Final(j, v)
  {
    var k := RunIsExec(j, v, INIT);
    InvAtStart(j, v);
    ExecOutcome(j, v, k);
    ExecKeepsInv(j, v, v, INIT, k);
  }

  lemma DoneFacts(j: Job, v0: Volume, v: Volume, l: Local)
    requires ValidJob(j) && PcOk(j, l.pc) && Inv(j, v0, v, l) && l.pc.Done?
    ensures !Refuses(j, v0) && ValidVolume(v) && Newest(j, v) && PublishedTo(j, v, |j.names|)
    ensures StoreOf(v, j.addon).manifest == Some(j.names) && StoreOf(v, j.addon).manifestTmp == None
    ensures |StoreOf(v, j.addon).order| <= 2
  {
  }

  lemma RefusedOutcome(j: Job, v0: Volume, v: Volume, l: Local)
    requires ValidJob(j) && PcOk(j, l.pc) && Inv(j, v0, v, l) && l.pc.Refused?
    ensures Refuses(j, v0) && v == v0 && ValidVolume(v)
  {
  }

  lemma StoppedOutcome(j: Job, v0: Volume, v: Volume, l: Local)
    requires ValidJob(j) && PcOk(j, l.pc) && Inv(j, v0, v, l) && Stopped(l) && Final(j, v) == Final(j, v0)
    ensures Refuses(j, v0) <==> l.pc.Refused?
    ensures v == (if Refuses(j, v0) then v0 else Final(j, v0)) && ValidVolume(v)
  {
    if l.pc.Done? {
      DoneFacts(j, v0, v, l);
      FinalFixed(j, v);
    } else {
      RefusedOutcome(j, v0, v, l);
    }
  }

  /** A run is refused, and then changes nothing, exactly when a check fails on the volume it
      starts on; otherwise it ends on the volume `Final`. */
  lemma RunOutcome(j: Job, v: Volume)
    requires ValidJob(j) && ValidVolume(v)
    ensures Refuses(j, v) <==> Run(j, v, INIT).1.pc.Refused?
    ensures Run(j, v, INIT).0 == if Refuses(j, v) then v else Final(j, v)
    ensures ValidVolume(Run(j, v, INIT).0)
  {
    RunKeepsInv(j, v);
    var r := Run(j, v, INIT);
    StoppedOutcome(j, v, r.0, r.1);
  }

  /** What a whole run leaves, told entry by entry and release by release. It is refused exactly when a
      single module has no manifest, the list is empty, or a name is a link into another addon's store.
      Otherwise each module of the run links to its folder in the new release, and no switch link is
      left; an own link that was listed and is not a module of the run is gone; nothing else under the
      mount has changed, nor any other addon's store. */
  lemma WhatARunLeaves(j: Job, v: Volume, k: Key)
    requires ValidJob(j) && ValidVolume(v)
    ensures var r := Run(j, v, INIT); var (w, a) := (r.0, j.addon);
            && (r.1.pc.Refused? <==>
                  || (j.singleAddon && !j.rootManifest) || (!j.singleAddon && j.names == [])
                  || exists n :: n in j.names && Module(n) in v.top && v.top[Module(n)].Link? && v.top[Module(n)].addon != a)
            && (r.1.pc.Refused? ==> w == v)
            && (!r.1.pc.Refused? ==>
                  if k.Module? && k.name in j.names then k in w.top && w.top[k] == Link(a, j.commit, k.name)
                  else if k.Switch? && k.name in j.names then k !in w.top
                  else if && k in v.top && k.Module? && k.name in ManifestOf(v, a) && k.name != ""
                          && v.top[k].Link? && v.top[k].addon == a
                  then k !in w.top
                  else (k in w.top <==> k in v.top) && (k in v.top && k in w.top ==> w.top[k] == v.top[k]))
            && (forall b :: b != a ==>
                  (b in w.stores <==> b in v.stores) && (b in v.stores && b in w.stores ==> w.stores[b] == v.stores[b]))
  {
    RunOutcome(j, v);
    if !Refuses(j, v) {
      assert Final(j, v).top == FinalTop(j, v.top, ManifestOf(v, j.addon));
      assert k.Module? && k.name in j.names ==> k in (set n | n in j.names :: Module(n));
    }
  }

  /** The first entry that is another one. */
  lemma {:induction false} FirstOther(s: seq<Commit>, c: Commit) returns (i: nat)
    requires Without(s, c) != []
    ensures i < |s| && s[i] == Without(s, c)[0] && s[i] != c && forall m :: 0 <= m < i ==> s[m] == c
  {
    if s[0] == c {
      i := FirstOther(s[1..], c);
      i := i + 1;
    } else {
      i := 0;
    }
  }

  /** The releases that stay: the new one, and the newest other if there is one. */
  lemma FinalStoreOrder(j: Job, s: Store)
    ensures var t := FinalStore(j, s);
            && t.order != [] && t.order[0] == j.commit && |t.order| <= 2
            && (|t.order| == 2 <==> exists c :: c in s.order && c != j.commit)
            && (|t.order| == 2 ==>
                  exists i :: 0 <= i < |s.order| && s.order[i] == t.order[1] != j.commit
                              && forall m :: 0 <= m < i ==> s.order[m] == j.commit)
  {
    var rest := Without(s.order, j.commit);
    WithoutMembers(s.order, j.commit);
    assert KeepTwo(ToFront(s.order, j.commit)) == if rest == [] then [j.commit] else [j.commit, rest[0]];
    if rest != [] {
      assert rest[0] in rest;
      var i := FirstOther(s.order, j.commit);
    }
  }

  lemma FinalStoreCopies(j: Job, s: Store)
    requires ValidJob(j)
    ensures var t := FinalStore(j, s);
            && (forall c :: c in t.releases <==> c in t.order)
            && (forall c :: c in t.releases && c != j.commit ==> t.releases[c] == ReleaseOf(s, c))
            && j.commit in t.releases
            && forall n :: n in j.names ==>
                 && n in t.releases[j.commit].copies
                 && t.releases[j.commit].copies[n] ==
                    (if n in ReleaseOf(s, j.commit).copies then ReleaseOf(s, j.commit).copies[n]
                     else set f | f in j.src[n] && f != ".git")
  {
    var t := FinalStore(j, s);
    assert t.order[0] == j.commit;
    assert t.releases[j.commit] == FinalRelease(j, ReleaseOf(s, j.commit));
  }

  /** The store after such a run: the manifest is the module list; of the releases the new one and the
      newest other are left; the new one has every module of the run, one that it had before as it was
      and any other as a copy of the checkout without .git; the older one is untouched. */
  lemma WhatARunStores(j: Job, v: Volume)
    requires ValidJob(j) && ValidVolume(v) && !Run(j, v, INIT).1.pc.Refused?
    ensures var s, t := StoreOf(v, j.addon), StoreOf(Run(j, v, INIT).0, j.addon);
            && t.manifest == Some(j.names) && t.manifestTmp == None
            && t.order != [] && t.order[0] == j.commit && |t.order| <= 2
            && (|t.order| == 2 <==> exists c :: c in s.order && c != j.commit)
            && (|t.order| == 2 ==>
                  exists i :: 0 <= i < |s.order| && s.order[i] == t.order[1] != j.commit
                              && forall m :: 0 <= m < i ==> s.order[m] == j.commit)
            && (forall c :: c in t.releases <==> c in t.order)
            && (|t.order| == 2 && t.order[1] in t.releases ==> t.releases[t.order[1]] == ReleaseOf(s, t.order[1]))
            && forall n :: n in j.names ==>
                 && n in ReleaseOf(t, j.commit).copies
                 && ReleaseOf(t, j.commit).copies[n] ==
                    (if n in ReleaseOf(s, j.commit).copies then ReleaseOf(s, j.commit).copies[n]
                     else set f | f in j.src[n] && f != ".git")
  {
    RunOutcome(j, v);
    FinalStoreOrder(j, StoreOf(v, j.addon));
    FinalStoreCopies(j, StoreOf(v, j.addon));
  }

  // ---- A run cut off, then run again -------------------------------------------------------

  /** The volume after attempts cut off after `cuts[0]`, `cuts[1]`, ... commands. */
  function Attempts(j: Job, v: Volume, cuts: seq<nat>): Volume
    requires ValidJob(j)
    decreases |cuts|
  {
    if cuts == [] then v else Attempts(j, Exec(j, v, INIT, cuts[0]).0, cuts[1..])
  }

  lemma RefusalKept(j: Job, v0: Volume, v: Volume, l: Local)
    requires ValidJob(j) && PcOk(j, l.pc) && Inv(j, v0, v, l)
    ensures ValidVolume(v) && (Refuses(j, v) <==> Refuses(j, v0)) && (Refuses(j, v0) ==> v == v0)
  {
    if !Refuses(j, v0) {
      forall n | n in j.names ensures !Conflicts(v, j.addon, n) {
        assert !Conflicts(v0, j.addon, n);
      }
    }
  }

  lemma CutKeepsOutcome(j: Job, v: Volume, k: nat)
    requires ValidJob(j) && ValidVolume(v)
    ensures var w := Exec(j, v, INIT, k).0;
            && ValidVolume(w) && (Refuses(j, w) <==> Refuses(j, v))
            && (Refuses(j, v) ==> w == v) && Final(j, w) == Final(j, v)
  {
    InvAtStart(j, v);
    ExecKeepsInv(j, v, v, INIT, k);
    ExecOutcome(j, v, k);
    var r := Exec(j, v, INIT, k);
    RefusalKept(j, v, r.0, r.1);
  }

  /** However often a sync is cut off, running it again to its end gives the volume that one
      uninterrupted run gives: the same links, manifest, releases and leftovers. */
  lemma {:induction false} RerunConverges(j: Job, v: Volume, cuts: seq<nat>)
    requires ValidJob(j) && ValidVolume(v)
    ensures Run(j, Attempts(j, v, cuts), INIT).0 == Run(j, v, INIT).0
    decreases |cuts|
  {
    RunOutcome(j, v);
    if cuts != [] {
      var w := Exec(j, v, INIT, cuts[0]).0;
      CutKeepsOutcome(j, v, cuts[0]);
      RunOutcome(j, w);
      RerunConverges(j, w, cuts[1..]);
    }
  }
}
