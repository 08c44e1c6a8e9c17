/** What a pass over an instance makes of the Deployments, the status and the upgrades, told by the
    instance, the pods and the upgrades that it read, each as old as its cache. */
module RolloutOutcomes {
  import opened Options
  import opened Queue
  import opened Gate
  import opened Rollout

  /** The initialisation is still due: asked for, not recorded, and its upgrade has not succeeded; or
      there is no such upgrade and nothing serves yet. */
  predicate Due(ws: seq<World>, me: string, r: Reads)
    requires ReadBefore(r, |ws|)
  {
    var inst, upgrades := ws[r.inst].inst, ws[r.init].upgrades;
    && inst.initialize && !inst.initialized
    && if InitName(me) in upgrades then upgrades[InitName(me)].phase != Succeeded
       else !(ws[r.web].web.Some? && ws[r.web].web.value.ready > 0)
  }

  /** The revision of the pass may go out: no upgrades are asked for, none is recorded yet, it is the
      recorded one, or its own upgrade has succeeded. */
  predicate Cleared(ws: seq<World>, me: string, r: Reads)
    requires ReadBefore(r, |ws|)
  {
    var inst, upgrades := ws[r.inst].inst, ws[r.gate].upgrades;
    || !inst.upgradeSet || inst.applied == "" || inst.applied == r.current
    || (UpgradeName(me, r.current) in upgrades && upgrades[UpgradeName(me, r.current)].phase == Succeeded)
  }

  /** A name that the pass looks up is taken by an upgrade of another instance. */
  predicate Clashes(ws: seq<World>, me: string, r: Reads)
    requires ReadBefore(r, |ws|)
  {
    var inst := ws[r.inst].inst;
    || InitClashes(ws, me, r)
    || (&& !Due(ws, me, r) && inst.upgradeSet && inst.applied != "" && inst.applied != r.current
        && UpgradeName(me, r.current) in ws[r.gate].upgrades
        && ws[r.gate].upgrades[UpgradeName(me, r.current)].instance != me)
  }

  predicate InitClashes(ws: seq<World>, me: string, r: Reads)
    requires ReadBefore(r, |ws|)
  {
    var inst := ws[r.inst].inst;
    && inst.initialize && !inst.initialized && InitName(me) in ws[r.init].upgrades
    && ws[r.init].upgrades[InitName(me)].instance != me
  }

  /** The revision that the pods and the status are to name: while the initialisation is due no pod
      runs, so it is the current one in any case. */
  function Revision(ws: seq<World>, me: string, r: Reads): string
    requires ReadBefore(r, |ws|)
  {
    if Due(ws, me, r) || Cleared(ws, me, r) then r.current else ws[r.inst].inst.applied
  }

  /** The upgrade that the pass asks for: that of the initialisation while it is due, that of its
      revision while it holds that back; and only one that it does not see. */
  function Asked(ws: seq<World>, me: string, r: Reads): set<string>
    requires ReadBefore(r, |ws|)
  {
    if Due(ws, me, r) then if InitName(me) in ws[r.init].upgrades then {} else {InitName(me)}
    else if Cleared(ws, me, r) || UpgradeName(me, r.current) in ws[r.gate].upgrades then {}
    else {UpgradeName(me, r.current)}
  }

  // ---- The Deployments ---------------------------------------------------------------------

  /** The write of the web Deployment, exactly: none when a name is taken; otherwise the revision as
      above, and no replica while the initialisation is due, else as many as asked for, one at least. */
  lemma WebWrites(ws: seq<World>, me: string, r: Reads, to: World)
    requires ws != [] && ReadBefore(r, |ws|)
    ensures Rollout.Happens(ws, me, to, WriteWeb(r))
            <==> && !Clashes(ws, me, r) && to.web.Some?
                 && to == ws[|ws| - 1].(web := to.web)
                 && to.web.value.addons == Revision(ws, me, r)
                 && to.web.value.replicas == (if Due(ws, me, r) then 0
                                              else if ws[r.inst].inst.replicas < 1 then 1 else ws[r.inst].inst.replicas)
                 && to.web.value.ready == (if ws[|ws| - 1].web.Some? then ws[|ws| - 1].web.value.ready else 0)
  {
  }

  /** The cron Deployment: the same revision, one replica, and gone when cron is not enabled. */
  lemma CronWrites(ws: seq<World>, me: string, r: Reads, to: World)
    requires ws != [] && ReadBefore(r, |ws|)
    ensures Rollout.Happens(ws, me, to, WriteCron(r))
            <==> && !Clashes(ws, me, r)
                 && to == ws[|ws| - 1].(cron := to.cron)
                 && (to.cron.Some? <==> ws[r.inst].inst.cronEnabled)
                 && (to.cron.Some? ==>
                       && to.cron.value.addons == Revision(ws, me, r)
                       && to.cron.value.replicas == (if Due(ws, me, r) then 0 else 1)
                       && to.cron.value.ready == (if ws[|ws| - 1].cron.Some? then ws[|ws| - 1].cron.value.ready else 0))
  {
  }

  // ---- The upgrades ------------------------------------------------------------------------

  /** When a pass asks for the initialisation upgrade. */
  lemma AsksForInit(ws: seq<World>, me: string, r: Reads)
    requires ws != [] && ReadBefore(r, |ws|)
    ensures (exists to :: Rollout.Happens(ws, me, to, EnsureInit(r)))
            <==> Due(ws, me, r) && InitName(me) !in ws[r.init].upgrades && InitName(me) !in ws[|ws| - 1].upgrades
  {
    var w := ws[|ws| - 1];
    if Due(ws, me, r) && InitName(me) !in ws[r.init].upgrades && InitName(me) !in w.upgrades {
      var item := Item(me, 0, false, NoPhase, "", 0);
      assert Ensured(w, w.(upgrades := w.upgrades[InitName(me) := item]), me, InitName(me));
      assert Rollout.Happens(ws, me, w.(upgrades := w.upgrades[InitName(me) := item]), EnsureInit(r));
    }
  }

  /** When it asks for the upgrade of its revision: exactly when it holds the revision back and sees no
      such upgrade. */
  lemma AsksForUpgrade(ws: seq<World>, me: string, r: Reads)
    requires ws != [] && ReadBefore(r, |ws|)
    ensures (exists to :: Rollout.Happens(ws, me, to, EnsureGate(r)))
            <==> && !InitClashes(ws, me, r) && !Due(ws, me, r) && !Cleared(ws, me, r)
                 && UpgradeName(me, r.current) !in ws[r.gate].upgrades && UpgradeName(me, r.current) !in ws[|ws| - 1].upgrades
  {
    var w, name := ws[|ws| - 1], UpgradeName(me, r.current);
    if !InitClashes(ws, me, r) && !Due(ws, me, r) && !Cleared(ws, me, r) && name !in ws[r.gate].upgrades && name !in w.upgrades {
      var item := Item(me, 0, false, NoPhase, "", 0);
      assert Ensured(w, w.(upgrades := w.upgrades[name := item]), me, name);
      assert Rollout.Happens(ws, me, w.(upgrades := w.upgrades[name := item]), EnsureGate(r));
    }
  }

  // ---- The status --------------------------------------------------------------------------

  /** The status of a pass that went through: the revision as above; the upgrade that it waits for,
      which is none when the revision is cleared; and whether the database is initialised. */
  lemma StatusWrites(ws: seq<World>, me: string, r: Reads, to: World)
    requires ws != [] && ReadBefore(r, |ws|) && Rollout.Happens(ws, me, to, WriteStatus(r, AfterGate, false))
    ensures var inst := ws[r.inst].inst;
            && !Clashes(ws, me, r) && to == ws[|ws| - 1].(inst := to.inst) && inst.version == ws[|ws| - 1].inst.version
            && to.inst.applied == Revision(ws, me, r)
            && to.inst.active == (if Due(ws, me, r) || Cleared(ws, me, r) then "" else UpgradeName(me, r.current))
            && to.inst.initialized == (inst.initialized || (inst.initialize && !Due(ws, me, r)))
            && to.inst.initUpgrade == (if Due(ws, me, r) then InitName(me) else "")
            && !to.inst.failing
            && to.inst.upgradeSet == inst.upgradeSet && to.inst.initialize == inst.initialize
            && to.inst.cronEnabled == inst.cronEnabled && to.inst.replicas == inst.replicas
  {
  }

  /** A pass that failed on the way records the error, and of the rest what it had set by then. */
  lemma FailureWrites(ws: seq<World>, me: string, r: Reads, reached: Reached, to: World)
    requires ws != [] && ReadBefore(r, |ws|) && Rollout.Happens(ws, me, to, WriteStatus(r, reached, true))
    ensures var inst := ws[r.inst].inst;
            && to == ws[|ws| - 1].(inst := to.inst) && to.inst.failing
            && to.inst.applied == (if reached == AfterGate then Revision(ws, me, r) else inst.applied)
            && to.inst.active == (if reached != AfterGate then inst.active
                                  else if Due(ws, me, r) || Cleared(ws, me, r) then "" else UpgradeName(me, r.current))
            && to.inst.initialized == (inst.initialized || (reached != BeforeInit && inst.initialize && !Due(ws, me, r)))
            && to.inst.initUpgrade == (if reached == BeforeInit then inst.initUpgrade else if Due(ws, me, r) then InitName(me) else "")
  {
  }

  /** Without spec.upgrade, and once the database is initialised, every complete pass rolls to the
      current revision and creates nothing, whatever is recorded. */
  lemma UngatedRolls(ws: seq<World>, me: string, r: Reads)
    requires ws != [] && ReadBefore(r, |ws|)
    requires var inst := ws[r.inst].inst; !inst.upgradeSet && (inst.initialize ==> inst.initialized)
    ensures exists to :: Rollout.Happens(ws, me, to, WriteWeb(r)) && to.web.Some? && to.web.value.addons == r.current
    ensures forall to :: !Rollout.Happens(ws, me, to, EnsureGate(r)) && !Rollout.Happens(ws, me, to, EnsureInit(r))
  {
    var w := ws[|ws| - 1];
    var replicas := if ws[r.inst].inst.replicas < 1 then 1 else ws[r.inst].inst.replicas;
    var to := w.(web := Some(Deployment(r.current, replicas, if w.web.Some? then w.web.value.ready else 0)));
    WebWrites(ws, me, r, to);
    AsksForUpgrade(ws, me, r);
    AsksForInit(ws, me, r);
  }
}
