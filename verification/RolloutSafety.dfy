/** What every run of passes keeps: pods only ever see a revision that was a baseline or whose
    upgrade succeeded, and no pod is asked for before the database is initialised. */
module RolloutSafety {
  import opened Options
  import opened Gate
  import opened Rollout

  // ---- Facts about runs --------------------------------------------------------------------

  lemma StepOf(ws: seq<World>, me: string, events: seq<Rollout.Event>, i: nat)
    requires Rollout.Run(ws, me, events) && i < |events|
    ensures Rollout.Happens(ws[..i + 1], me, ws[i + 1], events[i]) && ws[..i + 1][i] == ws[i]
  {
    assert Rollout.HappensAt(ws, me, events, i);
  }

  lemma Extends(ws: seq<World>, me: string, events: seq<Rollout.Event>, to: World, e: Rollout.Event)
    requires Rollout.Run(ws, me, events) && Rollout.Happens(ws, me, to, e)
    ensures Rollout.Run(ws + [to], me, events + [e])
  {
    var more, moreEvents := ws + [to], events + [e];
    forall i | 0 <= i < |moreEvents| ensures Rollout.HappensAt(more, me, moreEvents, i) {
      assert i < |events| ==> Rollout.HappensAt(ws, me, events, i);
      assert more[..i + 1] == if i < |events| then ws[..i + 1] else ws;
    }
  }

  /** The decision of a pass does not depend on what came after its reads. */
  lemma SameDecision(ws: seq<World>, me: string, k: nat, r: Reads)
    requires k <= |ws| && ReadBefore(r, k)
    ensures InitOf(ws[..k], me, r) == InitOf(ws, me, r)
    ensures GateOf(ws[..k], me, r) == GateOf(ws, me, r)
  {
  }

  /** Two reads of the instance with one version are one object. */
  lemma {:induction false} SameVersion(ws: seq<World>, me: string, events: seq<Rollout.Event>, i: nat, j: nat)
    requires Rollout.Run(ws, me, events) && i <= j < |ws|
    ensures ws[i].inst.version <= i
    ensures ws[i].inst.version == ws[j].inst.version ==> ws[i].inst == ws[j].inst
    decreases j
  {
    if i < j {
      StepOf(ws, me, events, j - 1);
      SameVersion(ws, me, events, i, j - 1);
    } else if i > 0 {
      StepOf(ws, me, events, i - 1);
      SameVersion(ws, me, events, i - 1, i - 1);
    }
  }

  // ---- The gate ----------------------------------------------------------------------------

  /** The upgrade that the instance names after this revision has succeeded. */
  predicate UpgradeDone(w: World, me: string, hash: string) {
    && |hash| >= HASH_PREFIX && UpgradeName(me, hash) in w.upgrades
    && w.upgrades[UpgradeName(me, hash)].instance == me && w.upgrades[UpgradeName(me, hash)].phase.Succeeded?
  }

  function ReadsOf(e: Rollout.Event): Option<Reads> {
    match e
    case External(_) => None
    case EnsureInit(r) => Some(r)
    case EnsureGate(r) => Some(r)
    case WriteWeb(r) => Some(r)
    case WriteCron(r) => Some(r)
    case WriteStatus(r, _, _) => Some(r)
  }

  /** Some pass among the first `k` events ran with the gate open while this revision was current. */
  ghost predicate Baseline(ws: seq<World>, me: string, events: seq<Rollout.Event>, hash: string, k: nat)
    requires k <= |events| < |ws|
  {
    exists j, r: Reads :: 0 <= j < k && ReadsOf(events[j]) == Some(r) && ReadBefore(r, j + 1) && Open(ws, me, r) && r.current == hash
  }

  ghost predicate Approved(ws: seq<World>, me: string, events: seq<Rollout.Event>, hash: string, k: nat)
    requires k <= |events| < |ws|
  {
    Baseline(ws, me, events, hash, k) || exists t :: 0 <= t <= k && UpgradeDone(ws[t], me, hash)
  }

  /** Pods and status only name approved revisions. */
  ghost predicate OnlyApproved(ws: seq<World>, me: string, events: seq<Rollout.Event>, k: nat)
    requires k <= |events| < |ws|
  {
    && (ws[k].web.Some? ==> Approved(ws, me, events, ws[k].web.value.addons, k))
    && (ws[k].cron.Some? ==> Approved(ws, me, events, ws[k].cron.value.addons, k))
    && (ws[k].inst.applied != "" ==> Approved(ws, me, events, ws[k].inst.applied, k))
  }

  lemma ApprovedLater(ws: seq<World>, me: string, events: seq<Rollout.Event>, hash: string, j: nat, k: nat)
    requires j <= k <= |events| < |ws| && Approved(ws, me, events, hash, j)
    ensures Approved(ws, me, events, hash, k)
  {
  }

  /** The revision a pass rolls to is its own, with the gate open or its upgrade done, or the one it
      read from the status. */
  lemma DecisionApproved(ws: seq<World>, me: string, events: seq<Rollout.Event>, r: Reads, k: nat)
    requires k < |events| < |ws| && ReadBefore(r, k + 1) && ReadsOf(events[k]) == Some(r) && GateOf(ws, me, r).Some?
    requires OnlyApproved(ws, me, events, r.inst)
    ensures Approved(ws, me, events, GateOf(ws, me, r).value.templateHash, k + 1)
    ensures GateOf(ws, me, r).value.appliedHash == GateOf(ws, me, r).value.templateHash
  {
    var inst, hash := ws[r.inst].inst, GateOf(ws, me, r).value.templateHash;
    if Open(ws, me, r) {
      assert hash == r.current;
      assert Baseline(ws, me, events, hash, k + 1);
    } else if hash == inst.applied {
      ApprovedLater(ws, me, events, hash, r.inst, k + 1);
    } else {
      assert UpgradeDone(ws[r.gate], me, hash);
    }
  }

  lemma StillApproved(ws: seq<World>, me: string, events: seq<Rollout.Event>, k: nat)
    requires 0 < k <= |events| < |ws| && OnlyApproved(ws, me, events, k - 1)
    ensures ws[k - 1].web.Some? ==> Approved(ws, me, events, ws[k - 1].web.value.addons, k)
    ensures ws[k - 1].cron.Some? ==> Approved(ws, me, events, ws[k - 1].cron.value.addons, k)
    ensures ws[k - 1].inst.applied != "" ==> Approved(ws, me, events, ws[k - 1].inst.applied, k)
  {
    if ws[k - 1].web.Some? {
      ApprovedLater(ws, me, events, ws[k - 1].web.value.addons, k - 1, k);
    }
    if ws[k - 1].cron.Some? {
      ApprovedLater(ws, me, events, ws[k - 1].cron.value.addons, k - 1, k);
    }
    if ws[k - 1].inst.applied != "" {
      ApprovedLater(ws, me, events, ws[k - 1].inst.applied, k - 1, k);
    }
  }

  /** What a step may do to the recorded and stamped revisions: keep them, or set them to the one the
      pass decided on. */
  ghost predicate StampsOnly(from: World, to: World, hashes: set<string>) {
    && (to.web.Some? ==> to.web.value.addons in hashes || (from.web.Some? && to.web.value.addons == from.web.value.addons))
    && (to.cron.Some? ==> to.cron.value.addons in hashes || (from.cron.Some? && to.cron.value.addons == from.cron.value.addons))
    && (to.inst.applied in hashes || to.inst.applied == from.inst.applied)
  }

  lemma WritesStamp(ws: seq<World>, me: string, events: seq<Rollout.Event>, r: Reads, k: nat)
    requires Rollout.Run(ws, me, events) && 0 < k <= |events| && ReadBefore(r, k) && ReadsOf(events[k - 1]) == Some(r)
    ensures GateOf(ws, me, r).Some? ==> StampsOnly(ws[k - 1], ws[k],
              {GateOf(ws, me, r).value.templateHash, GateOf(ws, me, r).value.appliedHash})
    ensures GateOf(ws, me, r) == None ==> StampsOnly(ws[k - 1], ws[k], {})
  {
    StepOf(ws, me, events, k - 1);
    SameDecision(ws, me, k, r);
    if events[k - 1].WriteStatus? {
      SameVersion(ws, me, events, r.inst, k - 1);
    }
  }

  lemma StampsApproved(ws: seq<World>, me: string, events: seq<Rollout.Event>, k: nat, hashes: set<string>)
    requires 0 < k <= |events| < |ws| && OnlyApproved(ws, me, events, k - 1)
    requires StampsOnly(ws[k - 1], ws[k], hashes) && forall hash :: hash in hashes ==> Approved(ws, me, events, hash, k)
    ensures OnlyApproved(ws, me, events, k)
  {
    StillApproved(ws, me, events, k);
  }

  lemma OutsideStep(ws: seq<World>, me: string, events: seq<Rollout.Event>, k: nat)
    requires Rollout.Run(ws, me, events) && 0 < k <= |events| && ReadsOf(events[k - 1]) == None
    requires OnlyApproved(ws, me, events, k - 1)
    ensures OnlyApproved(ws, me, events, k)
  {
    StepOf(ws, me, events, k - 1);
    StampsApproved(ws, me, events, k, {});
  }

  lemma PassStep(ws: seq<World>, me: string, events: seq<Rollout.Event>, k: nat, r: Reads)
    requires Rollout.Run(ws, me, events) && 0 < k <= |events| && ReadsOf(events[k - 1]) == Some(r) && ReadBefore(r, k)
    requires OnlyApproved(ws, me, events, k - 1) && OnlyApproved(ws, me, events, r.inst)
    ensures OnlyApproved(ws, me, events, k)
  {
    WritesStamp(ws, me, events, r, k);
    if GateOf(ws, me, r).Some? {
      DecisionApproved(ws, me, events, r, k - 1);
      var d := GateOf(ws, me, r).value;
      StampsApproved(ws, me, events, k, {d.templateHash, d.appliedHash});
    } else {
      StampsApproved(ws, me, events, k, {});
    }
  }

  lemma ReadsAreBefore(ws: seq<World>, me: string, events: seq<Rollout.Event>, k: nat)
    requires Rollout.Run(ws, me, events) && k < |events| && ReadsOf(events[k]).Some?
    ensures ReadBefore(ReadsOf(events[k]).value, k + 1)
  {
    StepOf(ws, me, events, k);
  }

  lemma {:induction false} GateHolds(ws: seq<World>, me: string, events: seq<Rollout.Event>, k: nat)
    requires Rollout.Run(ws, me, events) && k <= |events|
    ensures OnlyApproved(ws, me, events, k)
    decreases k
  {
    if k > 0 {
      GateHolds(ws, me, events, k - 1);
      match ReadsOf(events[k - 1])
      case None => OutsideStep(ws, me, events, k);
      case Some(r) => {
        ReadsAreBefore(ws, me, events, k - 1);
        GateHolds(ws, me, events, r.inst);
        PassStep(ws, me, events, k, r);
      }
    }
  }

  /** Every addons hash ever stamped on the pods, web or cron, was current in a pass that found the
      gate open, or its upgrade had succeeded by then: whatever writes are lost and however stale
      the reads. */
  lemma PodsOnlySeeApproved(ws: seq<World>, me: string, events: seq<Rollout.Event>)
    requires Rollout.Run(ws, me, events)
    ensures forall k :: 0 <= k <= |events| ==> OnlyApproved(ws, me, events, k)
  {
    forall k | 0 <= k <= |events| ensures OnlyApproved(ws, me, events, k) {
      GateHolds(ws, me, events, k);
    }
  }

  // ---- When the gate is shut ---------------------------------------------------------------

  /** `spec.upgrade` is set, a revision is recorded, and the database is initialised. */
  predicate Shut(inst: Instance) {
    inst.upgradeSet && inst.applied != "" && (inst.initialize ==> inst.initialized)
  }

  /** `spec.upgrade` is never taken away. */
  ghost predicate UpgradeKept(ws: seq<World>, from: nat) {
    forall k :: from <= k < |ws| ==> ws[k].inst.upgradeSet
  }

  lemma ShutDecides(ws: seq<World>, me: string, r: Reads)
    requires ReadBefore(r, |ws|) && Shut(ws[r.inst].inst)
    ensures !Open(ws, me, r)
    ensures GateOf(ws, me, r).Some? ==> GateOf(ws, me, r).value.appliedHash != ""
    ensures GateOf(ws, me, r).Some? && GateOf(ws, me, r).value.templateHash != ws[r.inst].inst.applied ==>
              UpgradeDone(ws[r.gate], me, GateOf(ws, me, r).value.templateHash)
  {
  }

  lemma ShutStep(ws: seq<World>, me: string, events: seq<Rollout.Event>, k: nat)
    requires Rollout.Run(ws, me, events) && k < |events| && Shut(ws[k].inst) && ws[k + 1].inst.upgradeSet
    ensures Shut(ws[k + 1].inst)
  {
    StepOf(ws, me, events, k);
    if events[k].WriteStatus? {
      var r := events[k].r;
      SameVersion(ws, me, events, r.inst, k);
      SameDecision(ws, me, k + 1, r);
      ShutDecides(ws, me, r);
    }
  }

  lemma {:induction false} StaysShut(ws: seq<World>, me: string, events: seq<Rollout.Event>, i: nat, k: nat)
    requires Rollout.Run(ws, me, events) && i <= k <= |events| && Shut(ws[i].inst) && UpgradeKept(ws, i)
    ensures Shut(ws[k].inst)
    decreases k
  {
    if i < k {
      StaysShut(ws, me, events, i, k - 1);
      ShutStep(ws, me, events, k - 1);
    }
  }

  /** Once the gate has shut, a pass that reads the instance from then on never opens it: it keeps
      the recorded revision or rolls to one whose upgrade has succeeded. */
  lemma ShutForGood(ws: seq<World>, me: string, events: seq<Rollout.Event>, i: nat, r: Reads)
    requires Rollout.Run(ws, me, events) && i <= r.inst && ReadBefore(r, |ws|)
    requires Shut(ws[i].inst) && UpgradeKept(ws, i)
    ensures !Open(ws, me, r)
    ensures GateOf(ws, me, r).Some? ==>
              var hash := GateOf(ws, me, r).value.templateHash;
              hash == ws[r.inst].inst.applied || UpgradeDone(ws[r.gate], me, hash)
  {
    StaysShut(ws, me, events, i, r.inst);
    ShutDecides(ws, me, r);
  }
}
