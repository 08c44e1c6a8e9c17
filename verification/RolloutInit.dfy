/** The database initialisation over whole runs: nothing runs before it has succeeded, it is
    recorded once and for all, and the adoption shortcut applies to no new instance unless the cache of
    upgrades goes back. It also says when the gate is open. */
module RolloutInit {
  import opened Options
  import opened Queue
  import opened QueueRuns
  import opened Gate
  import opened Rollout
  import opened RolloutSafety

  predicate InitDone(w: World, me: string) {
    InitName(me) in w.upgrades && w.upgrades[InitName(me)].instance == me && w.upgrades[InitName(me)].phase.Succeeded?
  }

  ghost predicate InitDoneBy(ws: seq<World>, me: string, k: nat)
    requires k < |ws|
  {
    exists t :: 0 <= t <= k && InitDone(ws[t], me)
  }

  /** `spec.initialize` is set from the start and kept. */
  ghost predicate InitializeKept(ws: seq<World>) {
    forall k :: 0 <= k < |ws| ==> ws[k].inst.initialize
  }

  predicate Runs(d: Option<Deployment>) {
    d.Some? && (d.value.replicas > 0 || d.value.ready > 0)
  }

  /** Pods are asked for, or are there, or the status says initialised. */
  predicate Serving(w: World) {
    Runs(w.web) || Runs(w.cron) || w.inst.initialized
  }

  /** A pass that does not hold the pods back read that something served already, or read the
      upgrade as succeeded. */
  lemma NotPending(ws: seq<World>, me: string, r: Reads)
    requires ReadBefore(r, |ws|) && ws[r.inst].inst.initialize
    requires InitOf(ws, me, r).Some? && !(InitOf(ws, me, r).value.pending && !InitOf(ws, me, r).value.initialized)
    ensures Serving(ws[r.inst]) || Serving(ws[r.web]) || InitDone(ws[r.init], me)
  {
  }

  /** A step after which something serves that did not before: the pass did not hold back. */
  lemma StartsServing(ws: seq<World>, me: string, events: seq<Rollout.Event>, k: nat)
    requires Rollout.Run(ws, me, events) && InitializeKept(ws) && 0 < k <= |events|
    requires Serving(ws[k]) && !Serving(ws[k - 1])
    ensures ReadsOf(events[k - 1]).Some?
    ensures var r := ReadsOf(events[k - 1]).value;
            ReadBefore(r, k) && InitOf(ws, me, r).Some?
            && !(InitOf(ws, me, r).value.pending && !InitOf(ws, me, r).value.initialized)
  {
    StepOf(ws, me, events, k - 1);
    match ReadsOf(events[k - 1])
    case None =>
    case Some(r) => {
      SameDecision(ws, me, k, r);
      if events[k - 1].WriteStatus? {
        SameVersion(ws, me, events, r.inst, k - 1);
      }
    }
  }

  lemma {:induction false} NothingServesBefore(ws: seq<World>, me: string, events: seq<Rollout.Event>, k: nat)
    requires Rollout.Run(ws, me, events) && InitializeKept(ws) && k <= |events| && Serving(ws[k])
    ensures InitDoneBy(ws, me, k)
    decreases k
  {
    if k > 0 {
      if Serving(ws[k - 1]) {
        NothingServesBefore(ws, me, events, k - 1);
      } else {
        StartsServing(ws, me, events, k);
        var r := ReadsOf(events[k - 1]).value;
        NotPending(ws, me, r);
        if Serving(ws[r.inst]) {
          NothingServesBefore(ws, me, events, r.inst);
        } else if Serving(ws[r.web]) {
          NothingServesBefore(ws, me, events, r.web);
        }
      }
    }
  }

  /** No pass, however stale its reads and whatever writes are lost, gives the web or the cron
      Deployment a replica before the initialisation upgrade has succeeded. */
  lemma NoPodBeforeInit(ws: seq<World>, me: string, events: seq<Rollout.Event>)
    requires Rollout.Run(ws, me, events) && InitializeKept(ws)
    ensures forall k :: 0 <= k <= |events| && (Runs(ws[k].web) || Runs(ws[k].cron)) ==> InitDoneBy(ws, me, k)
    ensures forall k :: 0 <= k <= |events| && ws[k].inst.initialized ==> InitDoneBy(ws, me, k)
  {
    forall k | 0 <= k <= |events| && Serving(ws[k]) ensures InitDoneBy(ws, me, k) {
      NothingServesBefore(ws, me, events, k);
    }
  }

  /** `status.initialized` never goes back to false, spec edits and old reads included. */
  lemma {:induction false} InitializedStays(ws: seq<World>, me: string, events: seq<Rollout.Event>, i: nat, k: nat)
    requires Rollout.Run(ws, me, events) && i <= k <= |events| && ws[i].inst.initialized
    ensures ws[k].inst.initialized
    decreases k
  {
    if i < k {
      InitializedStays(ws, me, events, i, k - 1);
      StepOf(ws, me, events, k - 1);
      if events[k - 1].WriteStatus? {
        SameVersion(ws, me, events, events[k - 1].r.inst, k - 1);
      }
    }
  }

  /** A succeeded initialisation upgrade is not deleted. */
  ghost predicate InitKept(ws: seq<World>, me: string) {
    forall k :: 0 <= k < |ws| - 1 && InitDone(ws[k], me) ==> InitName(me) in ws[k + 1].upgrades
  }

  lemma {:induction false} InitDoneStays(ws: seq<World>, me: string, events: seq<Rollout.Event>, i: nat, k: nat)
    requires Rollout.Run(ws, me, events) && InitKept(ws, me) && i <= k <= |events| && InitDone(ws[i], me)
    requires !ws[i].upgrades[InitName(me)].scheduled
    ensures InitDone(ws[k], me) && !ws[k].upgrades[InitName(me)].scheduled
    decreases k
  {
    if i < k {
      InitDoneStays(ws, me, events, i, k - 1);
      StepOf(ws, me, events, k - 1);
    }
  }

  /** An upgrade has no schedule. */
  ghost predicate OnlyUpgrades(ws: seq<World>) {
    forall k, n :: 0 <= k < |ws| && n in ws[k].upgrades ==> !ws[k].upgrades[n].scheduled
  }

  /** Adoption applies only when pods serve, and those are there because the initialisation had
      succeeded: whatever the caches, it never passes over an initialisation that is still due. */
  lemma AdoptsOnlyAfterInit(ws: seq<World>, me: string, events: seq<Rollout.Event>, r: Reads)
    requires Rollout.Run(ws, me, events) && InitializeKept(ws) && ReadBefore(r, |ws|)
    requires InitOf(ws, me, r).Some? && InitOf(ws, me, r).value.adopted
    ensures InitDoneBy(ws, me, r.web)
  {
    assert Serving(ws[r.web]);
    NothingServesBefore(ws, me, events, r.web);
  }

  /** The cache of upgrades never goes back between passes. */
  ghost predicate InitsInOrder(events: seq<Rollout.Event>) {
    forall i, j :: 0 <= i < j < |events| && ReadsOf(events[i]).Some? && ReadsOf(events[j]).Some? ==>
      ReadsOf(events[i]).value.init <= ReadsOf(events[j]).value.init
  }

  /** A pass before snapshot `k` read that the initialisation had succeeded. */
  ghost predicate SeenDone(ws: seq<World>, me: string, events: seq<Rollout.Event>, j: nat, k: nat)
    requires k <= |events| < |ws|
  {
    j < k && ReadsOf(events[j]).Some? && ReadsOf(events[j]).value.init <= j && InitDone(ws[ReadsOf(events[j]).value.init], me)
  }

  /** Whatever serves, some earlier pass had read that the initialisation succeeded. */
  lemma {:induction false} ServingWasSeen(ws: seq<World>, me: string, events: seq<Rollout.Event>, k: nat) returns (j: nat)
    requires Rollout.Run(ws, me, events) && InitializeKept(ws) && k <= |events| && Serving(ws[k])
    ensures SeenDone(ws, me, events, j, k)
    decreases k
  {
    if Serving(ws[k - 1]) {
      j := ServingWasSeen(ws, me, events, k - 1);
    } else {
      StartsServing(ws, me, events, k);
      var r := ReadsOf(events[k - 1]).value;
      NotPending(ws, me, r);
      if Serving(ws[r.inst]) {
        j := ServingWasSeen(ws, me, events, r.inst);
      } else if Serving(ws[r.web]) {
        j := ServingWasSeen(ws, me, events, r.web);
      } else {
        j := k - 1;
      }
    }
  }

  /** With a cache of upgrades that never goes back between passes, and the succeeded upgrade kept, no
      pass of any run ever adopts, however old its reads and however they differ in age. */
  lemma NeverAdopts(ws: seq<World>, me: string, events: seq<Rollout.Event>, k: nat, r: Reads)
    requires Rollout.Run(ws, me, events) && InitializeKept(ws) && InitKept(ws, me) && OnlyUpgrades(ws)
    requires InitsInOrder(events) && k < |events| && ReadsOf(events[k]) == Some(r) && ReadBefore(r, k + 1)
    ensures InitOf(ws, me, r).Some? ==> !InitOf(ws, me, r).value.adopted
  {
    if InitOf(ws, me, r).Some? && InitOf(ws, me, r).value.adopted {
      var j := ServingWasSeen(ws, me, events, r.web);
      InitDoneStays(ws, me, events, ReadsOf(events[j]).value.init, r.init);
      assert false;
    }
  }

  const EMPTY := Instance(false, true, false, 1, "", "", false, "", false, 0)

  function InitUpgrade(me: string, phase: Queue.Phase): Snapshot {
    map[InitName(me) := Item(me, 0, false, phase, "", 0)]
  }

  /** The order of that cache is needed: a pass creates the upgrade, it succeeds, the next pass asks for
      pods but its status write is lost, and a third one that sees the pods has the empty upgrade list
      of the start. It adopts. */
  lemma OldUpgradeListAdopts(me: string, a: string) returns (ws: seq<World>, events: seq<Rollout.Event>)
    requires |a| >= HASH_PREFIX
    ensures Rollout.Run(ws, me, events) && InitializeKept(ws) && InitKept(ws, me) && OnlyUpgrades(ws)
    ensures |events| == 5 && ReadsOf(events[2]) == Some(Reads(0, 0, 2, 0, a)) && ReadsOf(events[4]) == Some(Reads(0, 4, 0, 0, a))
    ensures InitOf(ws, me, Reads(0, 4, 0, 0, a)).Some? && InitOf(ws, me, Reads(0, 4, 0, 0, a)).value.adopted
    ensures !InitsInOrder(events)
  {
    var third := Reads(0, 4, 0, 0, a);
    ws, events := PodsServe(me, a);
    var w := ws[4];
    RolloutSafety.Extends(ws, me, events, w, WriteWeb(third));
    ws, events := ws + [w], events + [WriteWeb(third)];
    assert ReadsOf(events[2]).value.init == 2 && ReadsOf(events[4]).value.init == 0;
  }

  /** The pass after the initialisation asks for pods, and they come up. */
  lemma PodsServe(me: string, a: string) returns (ws: seq<World>, events: seq<Rollout.Event>)
    requires |a| >= HASH_PREFIX
    ensures Rollout.Run(ws, me, events) && InitializeKept(ws) && InitKept(ws, me) && OnlyUpgrades(ws)
    ensures |events| == 4 && ReadsOf(events[2]) == Some(Reads(0, 0, 2, 0, a))
    ensures ws[0] == World(EMPTY, None, None, map[])
    ensures ws[4] == World(EMPTY, Some(Deployment(a, 1, 1)), None, InitUpgrade(me, Succeeded))
  {
    var second := Reads(0, 0, 2, 0, a);
    ws, events := Initialised(me, a);
    var w3 := ws[2].(web := Some(Deployment(a, 1, 0)));
    RolloutSafety.Extends(ws, me, events, w3, WriteWeb(second));
    ws, events := ws + [w3], events + [WriteWeb(second)];
    var w4 := w3.(web := Some(Deployment(a, 1, 1)));
    RolloutSafety.Extends(ws, me, events, w4, External(w4));
    ws, events := ws + [w4], events + [External(w4)];
  }

  /** A pass created the initialisation upgrade, and it has succeeded. */
  lemma Initialised(me: string, a: string) returns (ws: seq<World>, events: seq<Rollout.Event>)
    requires |a| >= HASH_PREFIX
    ensures Rollout.Run(ws, me, events) && |events| == 2
    ensures ws[0] == World(EMPTY, None, None, map[]) && ws[1] == ws[0].(upgrades := InitUpgrade(me, NoPhase))
    ensures ws[2] == ws[0].(upgrades := InitUpgrade(me, Succeeded))
  {
    var w0 := World(EMPTY, None, None, map[]);
    var w1, w2 := w0.(upgrades := InitUpgrade(me, NoPhase)), w0.(upgrades := InitUpgrade(me, Succeeded));
    var first := Reads(0, 0, 0, 0, a);
    FirstEnsures(me, w0, w1, first);
    RolloutSafety.Extends([w0], me, [], w1, EnsureInit(first));
    ws, events := [w0] + [w1], [] + [EnsureInit(first)];
    RolloutSafety.Extends(ws, me, events, w2, External(w2));
    ws, events := ws + [w2], events + [External(w2)];
  }

  lemma FirstEnsures(me: string, w0: World, w1: World, r: Reads)
    requires w0 == World(EMPTY, None, None, map[]) && w1 == w0.(upgrades := InitUpgrade(me, NoPhase))
    requires r.inst == r.web == r.init == r.gate == 0 && |r.current| >= HASH_PREFIX
    ensures Rollout.Happens([w0], me, w1, EnsureInit(r))
  {
    assert w1 == w0.(upgrades := w0.upgrades[InitName(me) := Item(me, 0, false, NoPhase, "", 0)]);
  }

  // ---- Composition with the queue ----------------------------------------------------------

  /** Whatever the upgrade queue does is an outside step here, so a revision approved by an upgrade
      is approved by one that ran through the queue. */
  lemma QueueMovesOutside(h: Queue.History, events: seq<Queue.Event>, s: Snapshot, e: Queue.Event, w: World, now: nat)
    requires Queue.Run(h, events) && Queue.Happens(h, s, e) && w.upgrades == h[|h| - 1]
    ensures Outside(w, w.(upgrades := s), now)
  {
    EventLinks(h, s, e);
  }

  // ---- When the gate is open ---------------------------------------------------------------

  /** Step `j` is a status write of a pass that had got through the gate. */
  predicate RecordsRevision(e: Rollout.Event) {
    e.WriteStatus? && e.reached.AfterGate?
  }

  lemma AppliedStep(ws: seq<World>, me: string, events: seq<Rollout.Event>, k: nat)
    requires Rollout.Run(ws, me, events) && k < |events|
    ensures ws[k + 1].inst.applied != "" <==> RecordsRevision(events[k]) || ws[k].inst.applied != ""
  {
    StepOf(ws, me, events, k);
    if events[k].WriteStatus? {
      SameVersion(ws, me, events, events[k].r.inst, k);
      SameDecision(ws, me, k + 1, events[k].r);
    }
  }

  /** The status shows a revision exactly when some status write of a pass that got through the gate
      has landed. */
  lemma {:induction false} AppliedOnceRecorded(ws: seq<World>, me: string, events: seq<Rollout.Event>, k: nat)
    requires Rollout.Run(ws, me, events) && k <= |events|
    ensures ws[k].inst.applied != "" <==> exists j :: 0 <= j < k && RecordsRevision(events[j])
    decreases k
  {
    if k > 0 {
      AppliedOnceRecorded(ws, me, events, k - 1);
      AppliedStep(ws, me, events, k - 1);
    }
  }

  /** With spec.upgrade set and no initialisation pending, a pass finds the gate open exactly when no
      such write had landed before the snapshot it read the instance from. Pods that already run do
      not count, nor do writes of the Deployment. */
  lemma OpenUntilRecorded(ws: seq<World>, me: string, events: seq<Rollout.Event>, r: Reads)
    requires Rollout.Run(ws, me, events) && ReadBefore(r, |ws|) && ws[r.inst].inst.upgradeSet
    requires InitOf(ws, me, r).Some? && !InitOf(ws, me, r).value.pending
    ensures Open(ws, me, r) <==> forall j :: 0 <= j < r.inst ==> !RecordsRevision(events[j])
  {
    AppliedOnceRecorded(ws, me, events, r.inst);
  }

  // ---- A lost status write -----------------------------------------------------------------

  const PLAIN := Instance(true, false, false, 1, "", "", false, "", false, 0)

  /** The status decides, not the pods: when the first status write is lost, the second revision
      is still let through as a first one, although pods of the first revision may be running. */
  lemma LostStatusReopensGate(me: string, a: string, b: string) returns (ws: seq<World>, events: seq<Rollout.Event>)
    requires |a| >= HASH_PREFIX && |b| >= HASH_PREFIX
    ensures Rollout.Run(ws, me, events) && |ws| == 3
    ensures ws[1].web == Some(Deployment(a, 1, 0)) && ws[2].web == Some(Deployment(b, 1, 0))
    ensures forall k :: 0 <= k < 3 ==> ws[k].inst.upgradeSet && ws[k].upgrades == map[]
  {
    var w0 := World(PLAIN, None, None, map[]);
    var w1 := w0.(web := Some(Deployment(a, 1, 0)));
    var w2 := w0.(web := Some(Deployment(b, 1, 0)));
    var ra, rb := Reads(0, 0, 0, 0, a), Reads(1, 1, 1, 1, b);
    ws, events := [w0, w1, w2], [WriteWeb(ra), WriteWeb(rb)];
    assert ws[..1] == [w0] && ws[..2] == [w0, w1];
    assert Rollout.HappensAt(ws, me, events, 0) && Rollout.HappensAt(ws, me, events, 1);
  }
}
