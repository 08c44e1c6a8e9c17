/** Sync scripts of one addon that run at the same time: a Job is deleted in the background, so its
    script can still be at work when the next one starts. What other addons show survives any overlap;
    the addon's own bookkeeping does not. */
module SyncOverlap {
  import opened Options
  import opened AddonVolume
  import opened SyncScript
  import opened SyncCorrect
  import opened SyncRuns

  // ---- Any overlap -------------------------------------------------------------------------

  /** Nothing of the addon `b` has changed: its store, and every module link into it. */
  ghost predicate SameFor(v: Volume, w: Volume, b: Addon) {
    && (b in v.stores <==> b in w.stores) && (b in v.stores && b in w.stores ==> v.stores[b] == w.stores[b])
    && (forall n :: OwnLink(v, b, Module(n)) <==> OwnLink(w, b, Module(n)))
    && (forall n :: OwnLink(v, b, Module(n)) && OwnLink(w, b, Module(n)) ==> w.top[Module(n)] == v.top[Module(n)])
  }

  /** The turn of one of several scripts of the addon. Its command may find that another script has
      removed or replaced its files: then it does anything to the addon's store, and goes on or stops. */
  ghost predicate Turn(j: Job, v: Volume, l: Local, w: Volume, m: Local)
    requires ValidJob(j) && PcOk(j, l.pc)
  {
    var s := Step(j, v, l);
    && (forall b :: b != j.addon ==> (b in w.stores <==> b in v.stores))
    && (forall b :: b != j.addon && b in w.stores && b in v.stores ==> w.stores[b] == v.stores[b])
    && ((w.top == s.0.top && m.pc == s.1.pc) || (w.top == v.top && m.pc.Refused?))
  }

  ghost predicate Scripts(a: Addon, jobs: seq<Job>, ls: seq<Local>) {
    && |ls| == |jobs|
    && forall i :: 0 <= i < |jobs| ==> jobs[i].addon == a && ValidJob(jobs[i]) && PcOk(jobs[i], ls[i].pc)
  }

  ghost predicate TurnAt(a: Addon, jobs: seq<Job>, vs: seq<Volume>, ls: seq<seq<Local>>, turns: seq<nat>, k: nat)
    requires k < |turns| && |vs| == |ls| == |turns| + 1
  {
    var i := turns[k];
    && i < |jobs| && Scripts(a, jobs, ls[k]) && Scripts(a, jobs, ls[k + 1])
    && Turn(jobs[i], vs[k], ls[k][i], vs[k + 1], ls[k + 1][i])
    && ls[k + 1] == ls[k][i := ls[k + 1][i]]
  }

  /** Any number of scripts of the addon take turns in any order. One that has not had a turn has not
      started, and one that has no more turns was killed. */
  ghost predicate Overlap(a: Addon, jobs: seq<Job>, vs: seq<Volume>, ls: seq<seq<Local>>, turns: seq<nat>) {
    && |vs| == |ls| == |turns| + 1 && Scripts(a, jobs, ls[0])
    && (forall i :: 0 <= i < |jobs| ==> ls[0][i] == INIT)
    && forall k :: 0 <= k < |turns| ==> TurnAt(a, jobs, vs, ls, turns, k)
  }

  /** The names a script has checked are not provided by another addon, and what it is about to switch
      in is a link of its own addon. */
  ghost predicate Careful(j: Job, v: Volume, pc: Pc) {
    && (forall m :: 0 <= m < |j.names| && Checked(pc, m) ==> !Conflicts(v, j.addon, j.names[m]))
    && (pc.Flip? && pc.i < |j.names| && Switch(j.names[pc.i]) in v.top ==> OwnLink(v, j.addon, Switch(j.names[pc.i])))
  }

  predicate Checked(pc: Pc, m: nat) {
    if pc.Start? || pc.Refused? then false else if pc.Check? then m < pc.i else true
  }

  /** What one turn does to the entries of the mount. */
  ghost predicate OwnEntriesOnly(v: Volume, w: Volume, a: Addon) {
    && (forall b, n :: b != a && OwnLink(w, b, Module(n)) ==> OwnLink(v, b, Module(n)))
    && (forall n :: Switch(n) in w.top && !OwnLink(w, a, Switch(n)) ==> Switch(n) in v.top && !OwnLink(v, a, Switch(n)))
    && (forall n :: Module(n) in v.top && v.top[Module(n)].Link? && v.top[Module(n)].addon != a ==>
          Module(n) in w.top && w.top[Module(n)] == v.top[Module(n)])
  }

  lemma CommandSparesOthers(j: Job, v: Volume, l: Local)
    requires ValidJob(j) && PcOk(j, l.pc) && Careful(j, v, l.pc)
    ensures OwnEntriesOnly(v, Step(j, v, l).0, j.addon)
  {
    if !Linking(l.pc) {
      EntriesUntouched(j, v, l);
    } else if !l.pc.Stale? {
      assert !Conflicts(v, j.addon, j.names[l.pc.i]);
    }
  }

  lemma CommandStaysCareful(j: Job, v: Volume, l: Local)
    requires ValidJob(j) && PcOk(j, l.pc) && Careful(j, v, l.pc)
    ensures var r := Step(j, v, l); Careful(j, r.0, r.1.pc)
  {
    var w := Step(j, v, l).0;
    CommandSparesOthers(j, v, l);
    forall n | !Conflicts(v, j.addon, n) ensures !Conflicts(w, j.addon, n) {
      if Conflicts(w, j.addon, n) {
        assert OwnLink(w, w.top[Module(n)].addon, Module(n));
      }
    }
  }

  lemma OthersStayCareful(j: Job, v: Volume, w: Volume, pc: Pc)
    requires Careful(j, v, pc) && OwnEntriesOnly(v, w, j.addon)
    ensures Careful(j, w, pc)
  {
    forall n | !Conflicts(v, j.addon, n) ensures !Conflicts(w, j.addon, n) {
      if Conflicts(w, j.addon, n) {
        assert OwnLink(w, w.top[Module(n)].addon, Module(n));
      }
    }
  }

  lemma SameForOthers(v0: Volume, v: Volume, w: Volume, a: Addon, b: Addon)
    requires SameFor(v0, v, b) && b != a && OwnEntriesOnly(v, w, a)
    requires (b in w.stores <==> b in v.stores) && (b in w.stores && b in v.stores ==> w.stores[b] == v.stores[b])
    ensures SameFor(v0, w, b)
  {
    forall n | OwnLink(v, b, Module(n)) ensures OwnLink(w, b, Module(n)) && w.top[Module(n)] == v.top[Module(n)] {
      assert Module(n) in v.top && v.top[Module(n)].Link? && v.top[Module(n)].addon != a;
    }
  }

  ghost predicate AllCareful(jobs: seq<Job>, v: Volume, ls: seq<Local>)
    requires |ls| == |jobs|
  {
    forall i :: 0 <= i < |jobs| ==> Careful(jobs[i], v, ls[i].pc)
  }

  lemma TurnSparesOthers(a: Addon, jobs: seq<Job>, vs: seq<Volume>, ls: seq<seq<Local>>, turns: seq<nat>, k: nat)
    requires k < |turns| && |vs| == |ls| == |turns| + 1 && TurnAt(a, jobs, vs, ls, turns, k)
    requires AllCareful(jobs, vs[k], ls[k])
    ensures OwnEntriesOnly(vs[k], vs[k + 1], a) && AllCareful(jobs, vs[k + 1], ls[k + 1])
  {
    var i := turns[k];
    var j, v, w := jobs[i], vs[k], vs[k + 1];
    var s := Step(j, v, ls[k][i]);
    CommandSparesOthers(j, v, ls[k][i]);
    CommandStaysCareful(j, v, ls[k][i]);
    assert OwnEntriesOnly(v, w, a);
    forall x | 0 <= x < |jobs| ensures Careful(jobs[x], w, ls[k + 1][x].pc) {
      if x != i {
        OthersStayCareful(jobs[x], v, w, ls[k][x].pc);
      }
    }
  }

  lemma OverlapStep(a: Addon, jobs: seq<Job>, vs: seq<Volume>, ls: seq<seq<Local>>, turns: seq<nat>, k: nat, b: Addon)
    requires Overlap(a, jobs, vs, ls, turns) && k < |turns| && b != a
    requires |ls[k]| == |jobs| && AllCareful(jobs, vs[k], ls[k]) && SameFor(vs[0], vs[k], b)
    ensures |ls[k + 1]| == |jobs| && AllCareful(jobs, vs[k + 1], ls[k + 1]) && SameFor(vs[0], vs[k + 1], b)
  {
    TurnSparesOthers(a, jobs, vs, ls, turns, k);
    SameForOthers(vs[0], vs[k], vs[k + 1], a, b);
  }

  lemma {:induction false} OverlapMoves(a: Addon, jobs: seq<Job>, vs: seq<Volume>, ls: seq<seq<Local>>, turns: seq<nat>,
                                        k: nat, b: Addon)
    requires Overlap(a, jobs, vs, ls, turns) && k <= |turns| && b != a
    ensures |ls[k]| == |jobs| && AllCareful(jobs, vs[k], ls[k]) && SameFor(vs[0], vs[k], b)
    decreases k
  {
    if k > 0 {
      OverlapMoves(a, jobs, vs, ls, turns, k - 1, b);
      OverlapStep(a, jobs, vs, ls, turns, k - 1, b);
    }
  }

  /** Whatever sync scripts of one addon run at the same time, in whatever order their commands come,
      wherever they are killed and whatever they do to each other's files: every other addon keeps its
      store and all its module links, and these resolve if they did. */
  lemma OverlapSparesOthers(a: Addon, jobs: seq<Job>, vs: seq<Volume>, ls: seq<seq<Local>>, turns: seq<nat>, b: Addon)
    requires Overlap(a, jobs, vs, ls, turns) && b != a
    ensures forall k :: 0 <= k < |vs| ==> SameFor(vs[0], vs[k], b) && (AllResolve(vs[0], b) ==> AllResolve(vs[k], b))
  {
    forall k | 0 <= k < |vs| ensures SameFor(vs[0], vs[k], b) && (AllResolve(vs[0], b) ==> AllResolve(vs[k], b)) {
      OverlapMoves(a, jobs, vs, ls, turns, k, b);
      if AllResolve(vs[0], b) {
        forall n | OwnLink(vs[k], b, Module(n)) ensures Resolves(vs[k], b, Module(n)) {
          assert Resolves(vs[0], b, Module(n));
        }
      }
    }
  }

  // ---- A script that finishes late ---------------------------------------------------------

  lemma {:induction false} ChecksPass(j: Job, v: Volume, i: nat)
    requires ValidJob(j) && !Refuses(j, v) && i <= |j.names|
    ensures Exec(j, v, INIT, i + 1) == (v, Local([], Check(i)))
    decreases i
  {
    ExecLast(j, v, INIT, i);
    if i > 0 {
      ChecksPass(j, v, i - 1);
      assert !Conflicts(v, j.addon, j.names[i - 1]);
    }
  }

  /** A script that has looked at the volume and changed nothing yet. */
  lemma ReadyToWrite(j: Job, v: Volume)
    requires ValidJob(j) && !Refuses(j, v)
    ensures Exec(j, v, INIT, |j.names| + 3) == (v, Local(ManifestOf(v, j.addon), MakeRel))
  {
    var n := |j.names|;
    ChecksPass(j, v, n);
    ExecLast(j, v, INIT, n + 1);
    ExecLast(j, v, INIT, n + 2);
  }

  lemma RunStaysIn(j: Job, states: iset<(Volume, Local)>, v: Volume, l: Local)
    requires ValidJob(j) && PcOk(j, l.pc) && Closed(j, states) && (v, l) in states
    ensures Run(j, v, l) in states
  {
    var k := RunIsExec(j, v, l);
    ExecStaysIn(j, states, (v, l), k);
  }

  /** Past its checks, a script records its own list. */
  ghost predicate Records(j: Job, t: (Volume, Local)) {
    var s := StoreOf(t.0, j.addon);
    && PcOk(j, t.1.pc) && !Reading(t.1.pc)
    && (t.1.pc.FlipManifest? ==> s.manifestTmp == Some(j.names))
    && (AfterManifest(t.1.pc) ==> s.manifest == Some(j.names))
  }

  lemma RecordsStep(j: Job, v: Volume, l: Local)
    requires ValidJob(j) && PcOk(j, l.pc) && Records(j, (v, l))
    ensures Records(j, Step(j, v, l))
  {
    if !Storing(l.pc) {
      StoresUntouched(j, v, l);
    }
  }

  lemma RecordsRun(j: Job, v: Volume, l: Local)
    requires ValidJob(j) && PcOk(j, l.pc) && Records(j, (v, l))
    ensures Run(j, v, l).1.pc.Done? && ManifestOf(Run(j, v, l).0, j.addon) == j.names
  {
    var states := iset t: (Volume, Local) | Records(j, t);
    assert Closed(j, states) by {
      forall t | t in states ensures Step(j, t.0, t.1) in states {
        RecordsStep(j, t.0, t.1);
      }
    }
    RunStaysIn(j, states, v, l);
  }

  /** It leaves a name alone that it neither has nor found listed. */
  ghost predicate Ignores(j: Job, n: Name, u: Volume, t: (Volume, Local)) {
    PcOk(j, t.1.pc) && !Reading(t.1.pc) && n !in j.names && n !in t.1.prev && SameEntry(u, t.0, Module(n))
  }

  lemma IgnoresStep(j: Job, n: Name, u: Volume, v: Volume, l: Local)
    requires ValidJob(j) && PcOk(j, l.pc) && Ignores(j, n, u, (v, l))
    ensures Ignores(j, n, u, Step(j, v, l))
  {
    if !Linking(l.pc) {
      EntriesUntouched(j, v, l);
    }
  }

  lemma IgnoresRun(j: Job, n: Name, v: Volume, l: Local)
    requires ValidJob(j) && PcOk(j, l.pc) && Ignores(j, n, v, (v, l))
    ensures OwnLink(Run(j, v, l).0, j.addon, Module(n)) <==> OwnLink(v, j.addon, Module(n))
  {
    var states := iset t: (Volume, Local) | Ignores(j, n, v, t);
    assert Closed(j, states) by {
      forall t | t in states ensures Step(j, t.0, t.1) in states {
        IgnoresStep(j, n, v, t.0, t.1);
      }
    }
    RunStaysIn(j, states, v, l);
  }

  predicate AfterStale(pc: Pc) {
    pc.StageManifest? || pc.FlipManifest? || AfterManifest(pc)
  }

  /** It removes the link of a name that it found listed and does not have: line `m` of its list. */
  ghost predicate Clears(j: Job, m: nat, t: (Volume, Local)) {
    && PcOk(j, t.1.pc) && !Reading(t.1.pc)
    && m < |t.1.prev| && t.1.prev[m] != "" && t.1.prev[m] !in j.names
    && (AfterStale(t.1.pc) || (t.1.pc.Stale? && m < t.1.pc.k) ==> !OwnLink(t.0, j.addon, Module(t.1.prev[m])))
  }

  lemma ClearsStep(j: Job, m: nat, v: Volume, l: Local)
    requires ValidJob(j) && PcOk(j, l.pc) && Clears(j, m, (v, l))
    ensures Clears(j, m, Step(j, v, l))
  {
    if !Linking(l.pc) {
      EntriesUntouched(j, v, l);
    }
  }

  lemma ClearsRun(j: Job, m: nat, v: Volume, l: Local)
    requires ValidJob(j) && PcOk(j, l.pc) && Clears(j, m, (v, l)) && Records(j, (v, l))
    ensures !OwnLink(Run(j, v, l).0, j.addon, Module(l.prev[m]))
  {
    var states := iset t: (Volume, Local) | Clears(j, m, t) && t.1.prev == l.prev;
    assert Closed(j, states) by {
      forall t | t in states ensures Step(j, t.0, t.1) in states {
        ClearsStep(j, m, t.0, t.1);
      }
    }
    RunStaysIn(j, states, v, l);
    RecordsRun(j, v, l);
  }

  /** The module is linked by the addon and listed nowhere. */
  predicate Leaked(v: Volume, a: Addon, n: Name) {
    OwnLink(v, a, Module(n)) && n !in ManifestOf(v, a)
  }

  /** What a script that is past its checks leaves behind when it goes on later. */
  lemma LateLeaks(late: Job, v: Volume, prev: seq<Name>, n: Name)
    requires ValidJob(late) && n != ""
    ensures var last := Run(late, v, Local(prev, MakeRel));
            && last.1.pc.Done? && ManifestOf(last.0, late.addon) == late.names
            && (Leaked(last.0, late.addon, n) <==> n !in late.names && n !in prev && OwnLink(v, late.addon, Module(n)))
  {
    var l := Local(prev, MakeRel);
    RecordsRun(late, v, l);
    if n !in late.names && n !in prev {
      IgnoresRun(late, n, v, l);
    } else if n !in late.names {
      var m :| 0 <= m < |prev| && prev[m] == n;
      ClearsRun(late, m, v, l);
    }
  }

  lemma LateAfter(late: Job, next: Job, v: Volume)
    requires ValidJob(late) && ValidJob(next) && late.addon == next.addon && ValidVolume(v) && !Refuses(next, v)
    ensures var prev, mid := ManifestOf(v, late.addon), Run(next, v, INIT);
            var last := Run(late, mid.0, Local(prev, MakeRel));
            && mid.1.pc.Done? && ManifestOf(mid.0, late.addon) == next.names
            && last.1.pc.Done? && ManifestOf(last.0, late.addon) == late.names
  {
    RunOutcome(next, v);
    RecordsRun(late, Run(next, v, INIT).0, Local(ManifestOf(v, late.addon), MakeRel));
  }

  lemma LateLinks(late: Job, next: Job, v: Volume, n: Name)
    requires ValidJob(late) && ValidJob(next) && late.addon == next.addon && ValidVolume(v) && !Refuses(next, v) && n != ""
    ensures var prev := ManifestOf(v, late.addon);
            var last := Run(late, Run(next, v, INIT).0, Local(prev, MakeRel));
            Leaked(last.0, late.addon, n)
            <==> n !in late.names && n !in prev && (n in next.names || OwnLink(v, late.addon, Module(n)))
  {
    RunOutcome(next, v);
    LateLeaks(late, Final(next, v), ManifestOf(v, late.addon), n);
    if n !in ManifestOf(v, late.addon) {
      FinalLinks(next, v, n);
    }
  }

  /** A late finisher, exactly: let a sync be past its checks when another sync of the addon runs from
      beginning to end, and let it then go on to its end. The manifest is its own then; and a module is
      linked but listed nowhere if and only if the first sync does not have it, it was not listed
      before, and the other sync has it or it was linked already. */
  lemma LateFinisherLeaks(late: Job, next: Job, v: Volume) returns (k: nat)
    requires ValidJob(late) && ValidJob(next) && late.addon == next.addon && ValidVolume(v)
    requires !Refuses(late, v) && !Refuses(next, v)
    ensures var first := Exec(late, v, INIT, k);
            var mid := Run(next, first.0, INIT);
            var last := Run(late, mid.0, first.1);
            && mid.1.pc.Done? && ManifestOf(mid.0, late.addon) == next.names
            && last.1.pc.Done? && ManifestOf(last.0, late.addon) == late.names
            && forall n :: n != "" ==>
                 (Leaked(last.0, late.addon, n)
                  <==> n !in late.names && n !in ManifestOf(v, late.addon)
                       && (n in next.names || OwnLink(v, late.addon, Module(n))))
  {
    k := |late.names| + 3;
    ReadyToWrite(late, v);
    LateAfter(late, next, v);
    var prev, mid := ManifestOf(v, late.addon), Run(next, v, INIT).0;
    forall n | n != ""
      ensures Leaked(Run(late, mid, Local(prev, MakeRel)).0, late.addon, n)
              <==> n !in late.names && n !in prev && (n in next.names || OwnLink(v, late.addon, Module(n)))
    {
      LateLinks(late, next, v, n);
    }
  }

  /** The links that a whole run leaves under names that were not listed. */
  lemma FinalLinks(j: Job, v: Volume, n: Name)
    requires n !in ManifestOf(v, j.addon)
    ensures OwnLink(Final(j, v), j.addon, Module(n)) <==> n in j.names || OwnLink(v, j.addon, Module(n))
  {
    var top := FinalTop(j, v.top, ManifestOf(v, j.addon));
    assert Final(j, v).top == top;
    assert n in j.names ==> Module(n) in top && top[Module(n)] == Link(j.addon, j.commit, n);
    assert n !in j.names && Module(n) in v.top ==> Module(n) in top && top[Module(n)] == v.top[Module(n)];
  }
}
