/** The deletion of an OdooAddon: stop the sync Job, run the cleanup Job, drop the finalizer. The
    steps always come to an end, and the cleanup Job meets a sync Job of the addon exactly when a pass
    missed the start of that Job. */
module AddonDeletion {
  import opened Options

  const TIMEOUT := 180

  datatype SyncJob = SyncJob(owned: bool, uid: nat)

  datatype CleanupJob = CleanupJob(owned: bool, created: int, succeeded: bool, failed: bool)

  /** `present` says that the instance and its addons volume still exist. */
  datatype World = World(deleting: bool, finalizer: bool, present: bool, sync: Option<SyncJob>,
                         cleanup: Option<CleanupJob>, now: int)

  // ---- One pass ----------------------------------------------------------------------------

  datatype Step = Nothing | DeleteSync | CreateCleanup | Wait | Finish

  predicate OwnedSync(w: World) {
    w.sync.Some? && w.sync.value.owned
  }

  /** The step of a pass over an addon that is being deleted. */
  function StepFor(w: World): Step {
    if !w.finalizer then Nothing
    else if !w.present then Finish
    else if OwnedSync(w) then DeleteSync
    else match w.cleanup
      case None => CreateCleanup
      case Some(job) =>
        if !job.owned || job.succeeded || job.failed || w.now - job.created > TIMEOUT then Finish else Wait
  }

  /** Foreign Jobs are left alone; without the volume the cleanup Job is not looked at. */
  function Finished(w: World): World {
    w.(finalizer := false,
       sync := if OwnedSync(w) then None else w.sync,
       cleanup := if w.present && w.cleanup.Some? && w.cleanup.value.owned then None else w.cleanup)
  }

  function Pass(w: World): World {
    match StepFor(w)
    case Nothing => w
    case DeleteSync => w.(sync := None)
    case CreateCleanup => w.(cleanup := Some(CleanupJob(true, w.now, false, false)))
    case Wait => w
    case Finish => Finished(w)
  }

  // ---- Deletion waits ----------------------------------------------------------------------

  /** The cleanup has had its chance: the Job of that name is somebody else's, has ended, or is older
      than three minutes. */
  predicate CleanupOver(w: World) {
    && w.cleanup.Some?
    && (!w.cleanup.value.owned || w.cleanup.value.succeeded || w.cleanup.value.failed || w.now > w.cleanup.value.created + 180)
  }

  /** What a pass does to an addon that is being deleted, told by what is different afterwards. Nothing
      without the finalizer. The finalizer goes exactly when the volume is absent, or no own sync Job is
      there and the cleanup has had its chance; the own Jobs go with it, of the cleanup only where the
      volume is there. Before that, an own sync Job goes first, and then a cleanup Job comes. */
  lemma PassDoes(w: World)
    ensures !w.finalizer ==> Pass(w) == w
    ensures w.finalizer && !Pass(w).finalizer <==>
            w.finalizer && (!w.present || ((w.sync.Some? ==> !w.sync.value.owned) && CleanupOver(w)))
    ensures Pass(w).sync != w.sync <==> w.finalizer && w.sync.Some? && w.sync.value.owned
    ensures Pass(w).sync != w.sync ==> Pass(w).sync == None
    ensures w.cleanup == None ==>
              (Pass(w).cleanup.Some? <==> w.finalizer && w.present && !(w.sync.Some? && w.sync.value.owned))
    ensures w.cleanup == None && Pass(w).cleanup.Some? ==> Pass(w).cleanup == Some(CleanupJob(true, w.now, false, false))
    ensures w.cleanup.Some? && Pass(w).cleanup != w.cleanup <==>
            w.cleanup.Some? && w.present && w.finalizer && !Pass(w).finalizer && w.cleanup.value.owned
    ensures w.cleanup.Some? && Pass(w).cleanup != w.cleanup ==> Pass(w).cleanup == None
    ensures Pass(w).deleting == w.deleting && Pass(w).present == w.present && Pass(w).now == w.now
  {
  }

  // ---- Deletion ends -----------------------------------------------------------------------

  ghost predicate Sane(w: World) {
    w.cleanup.Some? ==> w.cleanup.value.created <= w.now
  }

  /** How many more seconds the deletion can take. */
  function Remaining(w: World): (n: nat)
    requires Sane(w)
    ensures n == 0 <==> !w.finalizer
    ensures n <= TIMEOUT + 4
  {
    match StepFor(w)
    case Nothing => 0
    case DeleteSync => TIMEOUT + 4
    case CreateCleanup => TIMEOUT + 3
    case Wait => TIMEOUT + 2 - (w.now - w.cleanup.value.created)
    case Finish => 1
  }

  /** Between two passes the clock advances, Jobs run on or end, the volume may go. */
  ghost predicate Elapses(from: World, to: World) {
    && to.deleting == from.deleting && to.finalizer == from.finalizer && to.now > from.now && Sane(to)
    && (to.present ==> from.present)
    && (OwnedSync(to) ==> OwnedSync(from))
    && (from.cleanup.Some? ==>
          && to.cleanup.Some? && to.cleanup.value.owned == from.cleanup.value.owned
          && to.cleanup.value.created == from.cleanup.value.created
          && (from.cleanup.value.succeeded ==> to.cleanup.value.succeeded)
          && (from.cleanup.value.failed ==> to.cleanup.value.failed))
    && (from.cleanup == None && to.cleanup.Some? ==> !to.cleanup.value.owned)
  }

  /** A round in which something went wrong: a write failed or was made only in part, somebody
      removed or created a Job. Only the finalizer never comes back. */
  ghost predicate Setback(from: World, to: World) {
    Sane(to) && (to.finalizer ==> from.finalizer)
  }

  ghost predicate Smooth(from: World, to: World) {
    exists mid :: Elapses(from, mid) && to == Pass(mid)
  }

  lemma PassProgresses(w: World)
    requires Sane(w) && w.finalizer
    ensures Sane(Pass(w)) && Remaining(Pass(w)) <= Remaining(w)
    ensures StepFor(w).DeleteSync? || StepFor(w).CreateCleanup? || StepFor(w).Finish? ==> Remaining(Pass(w)) < Remaining(w)
  {
  }

  lemma SmoothProgresses(from: World, to: World)
    requires Sane(from) && Smooth(from, to)
    ensures Sane(to) && Remaining(to) <= if Remaining(from) == 0 then 0 else Remaining(from) - 1
  {
    var mid :| Elapses(from, mid) && to == Pass(mid);
    if from.finalizer {
      PassProgresses(mid);
    }
  }

  /** Rounds of waiting and passes, none of them with a setback; `mids[i]` is what the pass of round `i`
      found. */
  ghost predicate SmoothRounds(ws: seq<World>, mids: seq<World>) {
    && |ws| == |mids| + 1 && Sane(ws[0])
    && forall i :: 0 <= i < |mids| ==> Elapses(ws[i], mids[i]) && ws[i + 1] == Pass(mids[i])
  }

  /** An own cleanup Job that was not there at the start was created by the pass of some round, and has
      been there ever since. */
  lemma {:induction false} CleanupSince(ws: seq<World>, mids: seq<World>, k: nat) returns (j: nat)
    requires SmoothRounds(ws, mids) && ws[0].cleanup == None && k <= |mids|
    requires ws[k].cleanup.Some? && ws[k].cleanup.value.owned
    ensures j < k && mids[j].cleanup == None && mids[j].present && ws[j + 1].cleanup.Some?
    ensures ws[k].cleanup.value.created == mids[j].now
    decreases k
  {
    var m := mids[k - 1];
    PassDoes(m);
    if m.cleanup == None {
      j := k - 1;
    } else {
      j := CleanupSince(ws, mids, k - 1);
    }
  }

  /** The finalizer is not dropped early: over any rounds without a setback, when it goes while the
      volume is there, no own sync Job is left, and either somebody else has the name of the cleanup
      Job, or the pass of an earlier round created that Job, and by now it has ended or has had three
      minutes. */
  lemma WaitsForCleanup(ws: seq<World>, mids: seq<World>, k: nat)
    requires SmoothRounds(ws, mids) && ws[0].cleanup == None && k < |mids|
    requires ws[k].finalizer && !ws[k + 1].finalizer && mids[k].present
    ensures !OwnedSync(mids[k]) && mids[k].cleanup.Some?
    ensures var job := mids[k].cleanup.value;
            || !job.owned
            || exists j :: 0 <= j < k && mids[j].cleanup == None && job.created == mids[j].now
                           && (job.succeeded || job.failed || mids[k].now > mids[j].now + 180)
  {
    PassDoes(mids[k]);
    var job := mids[k].cleanup.value;
    if job.owned {
      var j := CleanupSince(ws, mids, k);
      assert job.created == mids[j].now;
    }
  }

  /** Rounds of waiting and passes; `rough` counts those with a setback. */
  ghost predicate Rounds(ws: seq<World>, rough: nat)
    decreases |ws|
  {
    if |ws| <= 1 then |ws| == 1 && Sane(ws[0])
    else
      var n := |ws| - 1;
      || (Smooth(ws[n - 1], ws[n]) && Rounds(ws[..n], rough))
      || (rough > 0 && Setback(ws[n - 1], ws[n]) && Rounds(ws[..n], rough - 1))
  }

  lemma {:induction false} RoundsCount(ws: seq<World>, rough: nat)
    requires Rounds(ws, rough)
    ensures var last := ws[|ws| - 1];
            Sane(last) && (last.finalizer ==> Remaining(last) + |ws| - 1 <= (TIMEOUT + 4) + rough * (TIMEOUT + 5))
    decreases |ws|
  {
    if |ws| > 1 {
      var n := |ws| - 1;
      if Smooth(ws[n - 1], ws[n]) && Rounds(ws[..n], rough) {
        RoundsCount(ws[..n], rough);
        SmoothProgresses(ws[n - 1], ws[n]);
      } else {
        RoundsCount(ws[..n], rough - 1);
        assert rough * (TIMEOUT + 5) == (rough - 1) * (TIMEOUT + 5) + (TIMEOUT + 5);
      }
    }
  }

  /** Deletion never sticks: whatever the Jobs do, after that many rounds the finalizer is gone. Each
      setback costs at most one more timeout. */
  lemma DeletionEnds(ws: seq<World>, rough: nat)
    requires Rounds(ws, rough) && |ws| > (rough + 1) * (TIMEOUT + 5)
    ensures !ws[|ws| - 1].finalizer
  {
    RoundsCount(ws, rough);
    assert (rough + 1) * (TIMEOUT + 5) == rough * (TIMEOUT + 5) + (TIMEOUT + 5);
  }

  // ---- When the cleanup meets a sync -------------------------------------------------------

  /** Passes over one addon follow each other; `addon` and `sync` are the snapshots they read. */
  datatype Event = External(to: World) | StartSync(addon: nat, sync: nat) | Deletion(addon: nat, sync: nat, rest: nat)

  /** The Job of this name is still the one it was. */
  predicate SameSync(a: World, b: World) {
    a.sync.Some? && b.sync.Some? && a.sync.value.uid == b.sync.value.uid
  }

  /** What the deletion pass saw, put together from its reads. */
  function Seen(ws: seq<World>, e: Event): World
    requires e.Deletion? && e.addon < |ws| && e.sync < |ws| && e.rest < |ws|
  {
    ws[e.rest].(deleting := ws[e.addon].deleting, finalizer := ws[e.addon].finalizer, sync := ws[e.sync].sync)
  }

  ghost predicate Happens(ws: seq<World>, to: World, e: Event)
    requires ws != []
  {
    var from := ws[|ws| - 1];
    match e
    case External(w) =>
      && to == w && (from.deleting ==> to.deleting)
      && (to.sync.Some? ==> to.sync == from.sync || to.sync == Some(SyncJob(false, |ws|)))
    case StartSync(a, s) =>
      && a < |ws| && s < |ws| && !ws[a].deleting && ws[s].sync == None
      && to == if from.sync.Some? then from else from.(sync := Some(SyncJob(true, |ws|)))
    case Deletion(a, s, c) =>
      && a < |ws| && s < |ws| && c < |ws| && ws[a].deleting
      && match StepFor(Seen(ws, e))
         case Nothing => to == from
         case DeleteSync => to == from.(sync := if SameSync(from, ws[s]) then None else from.sync)
         case CreateCleanup =>
           to == if from.cleanup.Some? then from else from.(cleanup := Some(CleanupJob(true, from.now, false, false)))
         case Wait => to == from
         case Finish =>
           && to.deleting == from.deleting && to.now == from.now && to.present == from.present
           && (to.sync == from.sync || to.sync == None)
  }

  ghost predicate HappensAt(ws: seq<World>, events: seq<Event>, i: nat)
    requires i < |events| && |ws| == |events| + 1
  {
    Happens(ws[..i + 1], ws[i + 1], events[i])
  }

  ghost predicate Run(ws: seq<World>, events: seq<Event>) {
    && |ws| == |events| + 1 && !OwnedSync(ws[0]) && (ws[0].sync.Some? ==> ws[0].sync.value.uid == 0)
    && forall i :: 0 <= i < |events| ==> HappensAt(ws, events, i)
  }

  /** The cache of addons never goes back between passes. */
  ghost predicate AddonsInOrder(events: seq<Event>) {
    forall i, j :: 0 <= i < j < |events| && !events[i].External? && !events[j].External? ==> events[i].addon <= events[j].addon
  }

  /** A pass sees the Job that an earlier pass started. */
  ghost predicate OwnJobsSeen(events: seq<Event>) {
    forall i, j :: 0 <= i < j < |events| && events[i].StartSync? && events[j].Deletion? ==> i < events[j].sync
  }

  ghost predicate CreatesCleanup(ws: seq<World>, e: Event)
    requires ws != []
  {
    e.Deletion? && e.addon < |ws| && e.sync < |ws| && e.rest < |ws| && StepFor(Seen(ws, e)).CreateCleanup?
  }

  lemma {:induction false} DeletingStays(ws: seq<World>, events: seq<Event>, i: nat, j: nat)
    requires Run(ws, events) && i <= j < |ws| && ws[i].deleting
    ensures ws[j].deleting
    decreases j
  {
    if i < j {
      DeletingStays(ws, events, i, j - 1);
      assert HappensAt(ws, events, j - 1) && ws[..j][j - 1] == ws[j - 1];
    }
  }

  lemma {:induction false} NoSyncStays(ws: seq<World>, events: seq<Event>, i: nat, j: nat)
    requires Run(ws, events) && i <= j < |ws| && !OwnedSync(ws[i])
    requires forall k :: i <= k < j ==> !events[k].StartSync?
    ensures !OwnedSync(ws[j])
    decreases j
  {
    if i < j {
      NoSyncStays(ws, events, i, j - 1);
      assert HappensAt(ws, events, j - 1) && ws[..j][j - 1] == ws[j - 1];
    }
  }

  /** A UID tells the snapshot in which a Job appeared. */
  lemma {:induction false} UidBound(ws: seq<World>, events: seq<Event>, i: nat)
    requires Run(ws, events) && i < |ws| && ws[i].sync.Some?
    ensures ws[i].sync.value.uid <= i
    decreases i
  {
    if i > 0 {
      assert HappensAt(ws, events, i - 1) && ws[..i][i - 1] == ws[i - 1];
      if ws[i - 1].sync.Some? {
        UidBound(ws, events, i - 1);
      }
    }
  }

  /** A deletion pass that stops the sync Job it read leaves a newer one of that name alone. */
  lemma NewerSyncSurvives(ws: seq<World>, events: seq<Event>, k: nat)
    requires Run(ws, events) && k < |events| && events[k].Deletion? && ws[k].sync.Some?
    requires events[k].sync < ws[k].sync.value.uid && events[k].addon < |ws| && events[k].rest < |ws|
    requires events[k].sync < |ws| && StepFor(Seen(ws, events[k])).DeleteSync?
    ensures ws[k + 1].sync == ws[k].sync
  {
    var e := events[k];
    assert HappensAt(ws, events, k) && ws[..k + 1][k] == ws[k];
    assert ws[..k + 1][e.addon] == ws[e.addon] && ws[..k + 1][e.sync] == ws[e.sync] && ws[..k + 1][e.rest] == ws[e.rest];
    UidBound(ws, events, e.sync);
  }

  /** In any run, a pass drops the finalizer only when it read that the volume is absent, or that no own
      sync Job is there and the cleanup has had its chance. */
  lemma FinalizerGoesLate(ws: seq<World>, events: seq<Event>, k: nat)
    requires Run(ws, events) && k < |events| && events[k].Deletion? && ws[k].finalizer && !ws[k + 1].finalizer
    ensures var e := events[k];
            && e.addon <= k && e.sync <= k && e.rest <= k
            && (!ws[e.rest].present
                || (!(ws[e.sync].sync.Some? && ws[e.sync].sync.value.owned) && CleanupOver(ws[e.rest])))
  {
    var e := events[k];
    assert HappensAt(ws, events, k) && ws[..k + 1][k] == ws[k];
    assert ws[..k + 1][e.addon] == ws[e.addon] && ws[..k + 1][e.sync] == ws[e.sync] && ws[..k + 1][e.rest] == ws[e.rest];
    PassDoes(Seen(ws, e));
  }

  /** A sync Job that some pass started at step `j` is still there in snapshot `k`. */
  ghost predicate StillThere(ws: seq<World>, events: seq<Event>, j: nat, k: nat)
    requires k <= |events| < |ws|
  {
    j < k && events[j].StartSync? && forall m :: j < m <= k ==> OwnedSync(ws[m])
  }

  /** Whatever own sync Job there is at `k` and was not at `i` was started in between. */
  lemma {:induction false} StartedSince(ws: seq<World>, events: seq<Event>, i: nat, k: nat) returns (j: nat)
    requires Run(ws, events) && i <= k < |ws| && !OwnedSync(ws[i]) && OwnedSync(ws[k])
    ensures i <= j && StillThere(ws, events, j, k)
    decreases k
  {
    assert HappensAt(ws, events, k - 1) && ws[..k][k - 1] == ws[k - 1];
    if OwnedSync(ws[k - 1]) {
      j := StartedSince(ws, events, i, k - 1);
    } else {
      j := k - 1;
    }
  }

  /** From the moment a deletion pass has run, no sync Job is ever started. */
  lemma NoStartAfter(ws: seq<World>, events: seq<Event>, k: nat, j: nat)
    requires Run(ws, events) && AddonsInOrder(events) && k < j < |events| && events[k].Deletion?
    ensures !events[j].StartSync?
  {
    assert HappensAt(ws, events, k) && HappensAt(ws, events, j);
    if events[j].StartSync? {
      assert ws[..k + 1][events[k].addon] == ws[events[k].addon] && ws[..j + 1][events[j].addon] == ws[events[j].addon];
      DeletingStays(ws, events, events[k].addon, events[j].addon);
      assert false;
    }
  }

  /** When a pass creates the cleanup Job: a sync Job of the addon is there then or at any later moment
      exactly when one is there already, and that is so exactly when one was started since the
      snapshot of the Job that the pass read, and has not gone. */
  lemma CleanupMeetsExactly(ws: seq<World>, events: seq<Event>, k: nat)
    requires Run(ws, events) && AddonsInOrder(events) && k < |events| && CreatesCleanup(ws[..k + 1], events[k])
    ensures (exists m :: k <= m < |ws| && OwnedSync(ws[m])) <==> OwnedSync(ws[k])
    ensures OwnedSync(ws[k]) <==> exists j :: events[k].sync <= j && StillThere(ws, events, j, k)
  {
    var e := events[k];
    assert HappensAt(ws, events, k) && ws[..k + 1][e.sync] == ws[e.sync] && ws[..k + 1][k] == ws[k];
    if OwnedSync(ws[k]) {
      var j := StartedSince(ws, events, e.sync, k);
    } else {
      forall m | k <= m < |ws| ensures !OwnedSync(ws[m]) {
        forall j | k <= j < m ensures !events[j].StartSync? {
          if j > k {
            NoStartAfter(ws, events, k, j);
          }
        }
        NoSyncStays(ws, events, k, m);
      }
    }
  }

  /** With a Job cache that shows what the controller itself started, that never happens: when a pass
      creates the cleanup Job, no sync Job of the addon exists, and none ever will. */
  lemma CleanupRunsAlone(ws: seq<World>, events: seq<Event>, k: nat, m: nat)
    requires Run(ws, events) && AddonsInOrder(events) && OwnJobsSeen(events)
    requires k < |events| && CreatesCleanup(ws[..k + 1], events[k]) && k <= m < |ws|
    ensures !OwnedSync(ws[m])
  {
    CleanupMeetsExactly(ws, events, k);
    assert !OwnedSync(ws[k]);
  }

  lemma Extends(ws: seq<World>, events: seq<Event>, to: World, e: Event)
    requires Run(ws, events) && Happens(ws, to, e)
    ensures Run(ws + [to], events + [e])
  {
    var more, moreEvents := ws + [to], events + [e];
    forall i | 0 <= i < |moreEvents| ensures HappensAt(more, moreEvents, i) {
      assert i < |events| ==> HappensAt(ws, events, i);
      assert more[..i + 1] == if i < |events| then ws[..i + 1] else ws;
    }
  }

  /** The caught-up Job cache is needed at every point of every run: while an own sync Job is there and
      no cleanup Job is, a deletion pass that read the Job's name before it was taken, however the run
      got there, puts both Jobs side by side. */
  lemma MissedStartMeets(ws: seq<World>, events: seq<Event>, addon: nat, sync: nat, rest: nat)
    returns (more: seq<World>, moreEvents: seq<Event>)
    requires Run(ws, events) && AddonsInOrder(events) && OwnedSync(ws[|events|]) && ws[|events|].cleanup == None
    requires CreatesCleanup(ws, Deletion(addon, sync, rest)) && ws[addon].deleting
    requires forall i :: 0 <= i < |events| && !events[i].External? ==> events[i].addon <= addon
    ensures Run(more, moreEvents) && AddonsInOrder(moreEvents) && ws <= more
    ensures moreEvents == events + [Deletion(addon, sync, rest)]
    ensures OwnedSync(more[|events| + 1]) && more[|events| + 1].cleanup.Some?
    ensures exists j :: sync <= j && StillThere(ws, events, j, |events|)
  {
    var from := ws[|events|];
    var to := from.(cleanup := Some(CleanupJob(true, from.now, false, false)));
    var e := Deletion(addon, sync, rest);
    Extends(ws, events, to, e);
    more, moreEvents := ws + [to], events + [e];
    var j := StartedSince(ws, events, sync, |events|);
  }

  /** The shortest such run. */
  lemma StaleJobsMeet() returns (ws: seq<World>, events: seq<Event>)
    ensures Run(ws, events) && AddonsInOrder(events) && !OwnJobsSeen(events)
    ensures |events| == 3 && CreatesCleanup(ws[..3], events[2])
    ensures OwnedSync(ws[3]) && ws[3].cleanup.Some?
  {
    var w0 := World(false, true, true, None, None, 0);
    var w1 := w0.(sync := Some(SyncJob(true, 1)));
    var w2 := w1.(deleting := true);
    Extends([w0], [], w1, StartSync(0, 0));
    assert [w0] + [w1] == [w0, w1] && [] + [StartSync(0, 0)] == [StartSync(0, 0)];
    Extends([w0, w1], [StartSync(0, 0)], w2, External(w2));
    var before, start := [w0, w1, w2], [StartSync(0, 0), External(w2)];
    assert [w0, w1] + [w2] == before && [StartSync(0, 0)] + [External(w2)] == start;
    ws, events := MissedStartMeets(before, start, 2, 0, 2);
    assert ws[..3] == before && events[0].StartSync? && events[2].Deletion?;
  }

  // ---- The pass as the controller runs it --------------------------------------------------

  /** What the controller updates: the Jobs and the finalizer. */
  class Addon {
    var world: World

    /** Deletes the Jobs, then removes the finalizer; `works` says whether that last update did. */
    method FinishDeletion(works: bool) returns (done: bool)
      modifies this
      ensures done == works
      ensures world == if works then Finished(old(world)) else Finished(old(world)).(finalizer := old(world).finalizer)
    {
      if OwnedSync(world) {
        world := world.(sync := None);
      }
      if world.present && world.cleanup.Some? && world.cleanup.value.owned {
        world := world.(cleanup := None);
      }
      if works {
        world := world.(finalizer := false);
      }
      return works;
    }

    method HandleFinalizer(works: bool) returns (done: bool)
      modifies this
      ensures done ==> world == Pass(old(world))
      ensures works ==> done
      ensures old(world).finalizer && !world.finalizer ==>
                !old(world).present || (!OwnedSync(old(world)) && CleanupOver(old(world)))
      ensures Sane(old(world)) ==> Sane(world) && (done || Setback(old(world), world))
    {
      if !world.finalizer {
        return true;
      }
      if !world.present {
        done := FinishDeletion(works);
        return;
      }
      if OwnedSync(world) {
        if works {
          world := world.(sync := None);
        }
        return works;
      }
      match world.cleanup {
        case None =>
          if works {
            world := world.(cleanup := Some(CleanupJob(true, world.now, false, false)));
          }
          return works;
        case Some(job) =>
          if !job.owned || job.succeeded || job.failed || world.now - job.created > TIMEOUT {
            done := FinishDeletion(works);
            return;
          }
          return true;
      }
    }
  }
}
