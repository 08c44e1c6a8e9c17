/** Passes over one OdooInstance in a cluster where everything else moves: spec edits, pods, addons,
    upgrades. A pass decides on cached reads, each as old as its cache, and then writes the web
    Deployment, the cron Deployment and the status. Any of these writes may be missing, repeated,
    late or interleaved with others; only the status write is compare-and-set. */
module Rollout {
  import opened Options
  import opened Queue
  import opened QueueRuns
  import opened Gate

  /** `failing` says that the status reports an error of the last pass: phase Failing and not ready. */
  datatype Instance = Instance(upgradeSet: bool, initialize: bool, cronEnabled: bool, replicas: int,
                               applied: string, active: string, initialized: bool, initUpgrade: string,
                               failing: bool, version: nat)

  datatype Deployment = Deployment(addons: string, replicas: nat, ready: nat)

  datatype World = World(inst: Instance, web: Option<Deployment>, cron: Option<Deployment>, upgrades: Snapshot)

  /** What a pass read: the snapshot each object came from, and the hash of the ready addons. */
  datatype Reads = Reads(inst: nat, web: nat, init: nat, gate: nat, current: string)

  ghost predicate ReadBefore(r: Reads, n: nat) {
    r.inst < n && r.web < n && r.init < n && r.gate < n && |r.current| >= HASH_PREFIX
  }

  // ---- The decisions of a pass -------------------------------------------------------------

  function PhaseOf(u: Snapshot, n: string): Phase {
    if n in u then u[n].phase else NoPhase
  }

  /** The name is taken by another instance's upgrade: the pass fails. */
  predicate Foreign(u: Snapshot, n: string, me: string) {
    n in u && u[n].instance != me
  }

  function Live(web: Option<Deployment>): nat {
    if web.Some? then web.value.ready else 0
  }

  function InitOf(ws: seq<World>, me: string, r: Reads): Option<InitDecision>
    requires ReadBefore(r, |ws|)
  {
    var inst, upgrades := ws[r.inst].inst, ws[r.init].upgrades;
    if inst.initialize && !inst.initialized then
      if Foreign(upgrades, InitName(me), me) then None
      else Some(InitDecide(InitInput(true, false, InitName(me), InitName(me) in upgrades,
                                     PhaseOf(upgrades, InitName(me)), Live(ws[r.web].web))))
    else Some(InitDecide(InitInput(inst.initialize, inst.initialized, InitName(me), false, NoPhase, 0)))
  }

  /** The gate is bypassed while the database is initialised, and open as GateOpen says. */
  ghost predicate Open(ws: seq<World>, me: string, r: Reads)
    requires ReadBefore(r, |ws|)
  {
    || (InitOf(ws, me, r).Some? && InitOf(ws, me, r).value.pending)
    || !ws[r.inst].inst.upgradeSet || ws[r.inst].inst.applied == ""
  }

  function GateOf(ws: seq<World>, me: string, r: Reads): Option<GateDecision>
    requires ReadBefore(r, |ws|)
  {
    var inst, upgrades := ws[r.inst].inst, ws[r.gate].upgrades;
    var init := InitOf(ws, me, r);
    if init == None then None
    else if init.value.pending then Some(GateDecision(r.current, r.current, "", "", false))
    else
      var name := UpgradeName(me, r.current);
      if inst.upgradeSet && inst.applied != "" && inst.applied != r.current then
        if Foreign(upgrades, name, me) then None
        else Some(GateDecide(GateInput(true, inst.applied, r.current, name, name in upgrades, PhaseOf(upgrades, name))))
      else Some(GateDecide(GateInput(inst.upgradeSet, inst.applied, r.current, "", false, NoPhase)))
  }

  function Desired(inst: Instance): nat {
    if inst.replicas < 1 then 1 else inst.replicas
  }

  // ---- The steps ---------------------------------------------------------------------------

  /** How far the pass got when it writes the status: a pass that fails in between still records the
      fields it had already set. */
  datatype Reached = BeforeInit | AfterInit | AfterGate

  datatype Event =
    | External(to: World)
    | EnsureInit(r: Reads)
    | EnsureGate(r: Reads)
    | WriteWeb(r: Reads)
    | WriteCron(r: Reads)
    | WriteStatus(r: Reads, reached: Reached, failed: bool)

  /** Pods come and go, but none appears under a Deployment that has no replicas. */
  ghost predicate Drifts(from: Option<Deployment>, to: Option<Deployment>) {
    to.Some? ==>
      && from.Some? && to.value == from.value.(ready := to.value.ready)
      && (to.value.ready > 0 ==> from.value.ready > 0 || from.value.replicas > 0)
  }

  /** A spec edit, a move of pods or upgrades. The status belongs to the passes, and
      `spec.initialize` cannot be added later. */
  ghost predicate Outside(from: World, to: World, now: nat) {
    && (to.inst == from.inst
        || (to.inst == from.inst.(upgradeSet := to.inst.upgradeSet, initialize := to.inst.initialize,
                                  cronEnabled := to.inst.cronEnabled, replicas := to.inst.replicas, version := now)
            && (to.inst.initialize ==> from.inst.initialize)))
    && Drifts(from.web, to.web) && Drifts(from.cron, to.cron)
    && (forall n :: n in from.upgrades && n in to.upgrades ==> Evolves(from.upgrades[n], to.upgrades[n]))
  }

  ghost predicate Ensured(from: World, to: World, me: string, name: string) {
    exists item: Item :: item.instance == me && !item.scheduled && item.phase.NoPhase?
      && name !in from.upgrades && to == from.(upgrades := from.upgrades[name := item])
  }

  function StatusAfter(ws: seq<World>, me: string, r: Reads, reached: Reached, failed: bool, version: nat): Instance
    requires ReadBefore(r, |ws|)
    requires reached.AfterInit? ==> InitOf(ws, me, r).Some?
    requires reached.AfterGate? ==> GateOf(ws, me, r).Some?
  {
    var inst := ws[r.inst].inst;
    var init := InitOf(ws, me, r);
    match reached
    case BeforeInit => inst.(failing := failed, version := version)
    case AfterInit =>
      inst.(initialized := init.value.initialized, initUpgrade := init.value.upgradeName, failing := failed, version := version)
    case AfterGate =>
      inst.(initialized := init.value.initialized, initUpgrade := init.value.upgradeName,
            applied := GateOf(ws, me, r).value.appliedHash, active := GateOf(ws, me, r).value.activeUpgrade,
            failing := failed, version := version)
  }

  ghost predicate Happens(ws: seq<World>, me: string, to: World, e: Event)
    requires ws != []
  {
    var from := ws[|ws| - 1];
    match e
    case External(w) => to == w && Outside(from, to, |ws|)
    case EnsureInit(r) =>
      && ReadBefore(r, |ws|) && InitOf(ws, me, r).Some? && InitOf(ws, me, r).value.ensureUpgrade
      && Ensured(from, to, me, InitName(me))
    case EnsureGate(r) =>
      && ReadBefore(r, |ws|) && GateOf(ws, me, r).Some? && GateOf(ws, me, r).value.ensureUpgrade
      && Ensured(from, to, me, UpgradeName(me, r.current))
    case WriteWeb(r) =>
      && ReadBefore(r, |ws|) && GateOf(ws, me, r).Some?
      && to == from.(web := Some(Deployment(
           GateOf(ws, me, r).value.templateHash,
           if InitOf(ws, me, r).value.pending then 0 else Desired(ws[r.inst].inst),
           Live(from.web))))
    case WriteCron(r) =>
      && ReadBefore(r, |ws|) && GateOf(ws, me, r).Some?
      && to == from.(cron := if ws[r.inst].inst.cronEnabled
                     then Some(Deployment(GateOf(ws, me, r).value.templateHash,
                                          if InitOf(ws, me, r).value.pending then 0 else 1, Live(from.cron)))
                     else None)
    case WriteStatus(r, reached, failed) =>
      && ReadBefore(r, |ws|) && (!failed ==> reached.AfterGate?)
      && (reached.AfterInit? ==> InitOf(ws, me, r).Some?)
      && (reached.AfterGate? ==> GateOf(ws, me, r).Some?)
      && ws[r.inst].inst.version == from.inst.version
      && to == from.(inst := StatusAfter(ws, me, r, reached, failed, |ws|))
  }

  ghost predicate HappensAt(ws: seq<World>, me: string, events: seq<Event>, i: nat)
    requires i < |events| && |ws| == |events| + 1
  {
    Happens(ws[..i + 1], me, ws[i + 1], events[i])
  }

  /** A run from the creation of the instance: nothing recorded, nothing deployed. */
  ghost predicate Run(ws: seq<World>, me: string, events: seq<Event>) {
    && |ws| == |events| + 1
    && ws[0].web == None && ws[0].cron == None && ws[0].inst.applied == "" && !ws[0].inst.initialized
    && ws[0].inst.version == 0
    && forall i :: 0 <= i < |events| ==> HappensAt(ws, me, events, i)
  }
}
