/** One pass over an OdooInstance, in the order the controller writes: upgrades, web Deployment, cron
    Deployment, status. Any step may be refused or be the last before a crash, and anything may move
    between two steps; the pass is a run of Rollout all the same. A complete pass is idempotent. */
module InstancePass {
  import opened Options
  import opened Queue
  import opened Gate
  import opened Rollout
  import opened RolloutSafety
  import opened RolloutOutcomes

  /** The fate of a call to the API server; `report` is that of the status write that records an
      error. */
  datatype Fate = Works | Conflicts | Fails | Crashes

  datatype Fates = Fates(early: Fate, init: Fate, gate: Fate, web: Fate, cron: Fate, status: Fate, report: Fate)

  const ALL_WORK := Fates(Works, Works, Works, Works, Works, Works, Works)

  datatype Outcome = Done | Stopped | Errored

  /** What everything else does between two calls of the pass. */
  type Environment = (World, nat) -> World

  ghost predicate Allowed(env: Environment) {
    forall w, now :: Outside(w, env(w, now), now)
  }

  ghost predicate Still(env: Environment) {
    forall w, now :: env(w, now) == w
  }

  /** The writes of the passes among the events. */
  ghost function Writes(events: seq<Rollout.Event>): seq<Rollout.Event> {
    if events == [] then []
    else
      var n := |events| - 1;
      Writes(events[..n]) + if events[n].External? then [] else [events[n]]
  }

  lemma WritesMore(events: seq<Rollout.Event>, e: Rollout.Event)
    ensures Writes(events + [e]) == Writes(events) + if e.External? then [] else [e]
  {
    assert (events + [e])[..|events|] == events;
  }

  function WithUpgrade(u: Snapshot, me: string, name: string, created: int, version: nat): Snapshot {
    if name in u then u else u[name := Item(me, created, false, NoPhase, "", version)]
  }

  /** The upgrade that a pass creates if it is missing. */
  function Needed(ws: seq<World>, me: string, r: Reads): Option<string>
    requires ReadBefore(r, |ws|) && InitOf(ws, me, r).Some? && GateOf(ws, me, r).Some?
  {
    if InitOf(ws, me, r).value.ensureUpgrade then Some(InitName(me))
    else if GateOf(ws, me, r).value.ensureUpgrade then Some(UpgradeName(me, r.current)) else None
  }

  function WithNeeded(ws: seq<World>, me: string, r: Reads, created: int, made: nat): Snapshot
    requires ws != [] && ReadBefore(r, |ws|) && InitOf(ws, me, r).Some? && GateOf(ws, me, r).Some?
  {
    var upgrades := ws[|ws| - 1].upgrades;
    if Needed(ws, me, r).Some? then WithUpgrade(upgrades, me, Needed(ws, me, r).value, created, made) else upgrades
  }

  /** What a pass that goes through leaves behind when nothing else moves; the versions are those that
      a created upgrade and the status end up with. */
  function Complete(ws: seq<World>, me: string, r: Reads, created: int, made: nat, version: nat): World
    requires ws != [] && ReadBefore(r, |ws|) && InitOf(ws, me, r).Some? && GateOf(ws, me, r).Some?
  {
    var from, init, gate := ws[|ws| - 1], InitOf(ws, me, r).value, GateOf(ws, me, r).value;
    var inst := ws[r.inst].inst;
    World(
      StatusAfter(ws, me, r, AfterGate, false, version),
      Some(Deployment(gate.templateHash, if init.pending then 0 else Desired(inst), Live(from.web))),
      if inst.cronEnabled then Some(Deployment(gate.templateHash, if init.pending then 0 else 1, Live(from.cron))) else None,
      WithNeeded(ws, me, r, created, made))
  }

  /** What that is, told by the reads of the pass. */
  lemma CompletesAs(ws: seq<World>, me: string, r: Reads, created: int, made: nat, version: nat)
    requires ws != [] && ReadBefore(r, |ws|) && InitOf(ws, me, r).Some? && GateOf(ws, me, r).Some?
    ensures var (w, inst) := (Complete(ws, me, r, created, made, version), ws[r.inst].inst);
            && w.web.Some? && w.web.value.addons == Revision(ws, me, r)
            && w.web.value.replicas == (if Due(ws, me, r) then 0 else if inst.replicas < 1 then 1 else inst.replicas)
            && (w.cron.Some? <==> inst.cronEnabled)
            && (w.cron.Some? ==>
                  w.cron.value.addons == Revision(ws, me, r) && w.cron.value.replicas == if Due(ws, me, r) then 0 else 1)
            && w.inst.applied == Revision(ws, me, r)
            && w.inst.active == (if Due(ws, me, r) || Cleared(ws, me, r) then "" else UpgradeName(me, r.current))
            && w.inst.initialized == (inst.initialized || (inst.initialize && !Due(ws, me, r)))
  {
  }

  /** A pass goes on exactly when no name that it looks up is taken, and needs what it asks for. */
  lemma NeedsExactly(ws: seq<World>, me: string, r: Reads)
    requires ReadBefore(r, |ws|)
    ensures InitOf(ws, me, r).Some? && GateOf(ws, me, r).Some? <==> !Clashes(ws, me, r)
    ensures InitOf(ws, me, r).Some? && GateOf(ws, me, r).Some? ==>
              Asked(ws, me, r) == if Needed(ws, me, r).Some? then {Needed(ws, me, r).value} else {}
  {
  }

  /** The Deployments and the status do not depend on what was prepared before them. */
  lemma PreparedFirst(ws: seq<World>, later: seq<World>, me: string, r: Reads, created: int, made: nat, version: nat)
    requires ws != [] && ws <= later && ReadBefore(r, |ws|) && ReadBefore(r, |later|)
    requires InitOf(ws, me, r).Some? && GateOf(ws, me, r).Some?
    requires later[|later| - 1] == ws[|ws| - 1].(upgrades := WithNeeded(ws, me, r, created, made))
    ensures InitOf(later, me, r).Some? && GateOf(later, me, r).Some?
    ensures Complete(later, me, r, 0, 0, version).(upgrades := later[|later| - 1].upgrades)
            == Complete(ws, me, r, created, made, version)
  {
  }

  /** What is needed does not change while the upgrades stay as they are. */
  lemma SameNeed(ws: seq<World>, later: seq<World>, me: string, r: Reads, created: int, made: nat)
    requires ws != [] && ws <= later && ReadBefore(r, |ws|) && ReadBefore(r, |later|)
    requires InitOf(ws, me, r).Some? && GateOf(ws, me, r).Some?
    requires later[|later| - 1].upgrades == ws[|ws| - 1].upgrades
    ensures InitOf(later, me, r).Some? && GateOf(later, me, r).Some?
    ensures WithNeeded(later, me, r, created, made) == WithNeeded(ws, me, r, created, made)
  {
    Stable(ws, later, me, r);
  }

  /** The cron Deployment does not depend on the web Deployment that was written before it. */
  lemma SameCron(ws: seq<World>, later: seq<World>, me: string, r: Reads)
    requires ws != [] && ws <= later && ReadBefore(r, |ws|) && ReadBefore(r, |later|)
    requires InitOf(ws, me, r).Some? && GateOf(ws, me, r).Some?
    requires later[|later| - 1].cron == ws[|ws| - 1].cron
    ensures InitOf(later, me, r).Some? && GateOf(later, me, r).Some?
    ensures Complete(later, me, r, 0, 0, 0).cron == Complete(ws, me, r, 0, 0, 0).cron
  {
    Stable(ws, later, me, r);
  }

  /** A pass that reads the latest of everything. */
  function Latest(ws: seq<World>, current: string): Reads
    requires ws != []
  {
    Reads(|ws| - 1, |ws| - 1, |ws| - 1, |ws| - 1, current)
  }

  class Cluster {
    const me: string
    const env: Environment
    var worlds: seq<World>
    ghost var events: seq<Rollout.Event>

    ghost predicate Valid()
      reads this
    {
      Rollout.Run(worlds, me, events) && Allowed(env)
    }

    function Now(): World
      reads this
      requires worlds != []
    {
      worlds[|worlds| - 1]
    }

    ghost method Record(to: World, e: Rollout.Event)
      requires Valid() && Rollout.Happens(worlds, me, to, e)
      modifies this`events
      ensures events == old(events) + [e] && Rollout.Run(worlds + [to], me, events)
      ensures Writes(events) == old(Writes(events)) + if e.External? then [] else [e]
    {
      WritesMore(events, e);
      events := events + [e];
      var ws := worlds + [to];
      forall i | 0 <= i < |events| ensures Rollout.HappensAt(ws, me, events, i) {
        assert i < |events| - 1 ==> Rollout.HappensAt(worlds, me, old(events), i);
        assert ws[..i + 1] == if i < |events| - 1 then worlds[..i + 1] else worlds;
      }
    }

    /** Everything else moves. */
    method Elapse()
      requires Valid()
      modifies this
      ensures Valid() && worlds == old(worlds) + [env(old(Now()), old(|worlds|))]
      ensures Writes(events) == old(Writes(events))
      ensures Still(env) ==> Now() == old(Now())
    {
      var to := env(Now(), |worlds|);
      Record(to, External(to));
      worlds := worlds + [to];
    }

    /** Creates an upgrade of this instance; an existing one of that name is fine. */
    method Ensure(name: string, created: int, ghost r: Reads)
      requires Valid() && ReadBefore(r, |worlds|)
      requires || (InitOf(worlds, me, r).Some? && InitOf(worlds, me, r).value.ensureUpgrade && name == InitName(me))
               || (GateOf(worlds, me, r).Some? && GateOf(worlds, me, r).value.ensureUpgrade && name == UpgradeName(me, r.current))
      modifies this
      ensures Valid() && old(worlds) <= worlds
      ensures Now() == old(Now()).(upgrades := WithUpgrade(old(Now()).upgrades, me, name, created, old(|worlds|)))
      ensures Writes(events) == old(Writes(events)) || Writes(events) == old(Writes(events)) + [EnsureInit(r)]
              || Writes(events) == old(Writes(events)) + [EnsureGate(r)]
    {
      var from := Now();
      if name !in from.upgrades {
        var item := Item(me, created, false, NoPhase, "", |worlds|);
        var to := from.(upgrades := from.upgrades[name := item]);
        if InitOf(worlds, me, r).Some? && InitOf(worlds, me, r).value.ensureUpgrade && name == InitName(me) {
          Record(to, EnsureInit(r));
        } else {
          Record(to, EnsureGate(r));
        }
        worlds := worlds + [to];
      }
    }

    method WriteDeployment(r: Reads, web: bool)
      requires Valid() && ReadBefore(r, |worlds|) && InitOf(worlds, me, r).Some? && GateOf(worlds, me, r).Some?
      modifies this
      ensures Valid() && old(worlds) <= worlds
      ensures Writes(events) == old(Writes(events)) + [if web then WriteWeb(r) else WriteCron(r)]
      ensures var c := Complete(old(worlds), me, r, 0, 0, 0);
              Now() == if web then old(Now()).(web := c.web) else old(Now()).(cron := c.cron)
    {
      var init, gate := InitOf(worlds, me, r).value, GateOf(worlds, me, r).value;
      var to := Now();
      if web {
        var replicas := if init.pending then 0 else Desired(worlds[r.inst].inst);
        to := to.(web := Some(Deployment(gate.templateHash, replicas, Live(to.web))));
        Record(to, WriteWeb(r));
      } else {
        to := to.(cron := if worlds[r.inst].inst.cronEnabled
                     then Some(Deployment(gate.templateHash, if init.pending then 0 else 1, Live(to.cron))) else None);
        Record(to, WriteCron(r));
      }
      worlds := worlds + [to];
    }

    /** The compare-and-set write of the status; the answer says whether it was a conflict. */
    method UpdateStatus(r: Reads, reached: Reached, failed: bool) returns (conflict: bool)
      requires Valid() && ReadBefore(r, |worlds|) && (!failed ==> reached.AfterGate?)
      requires reached.AfterInit? ==> InitOf(worlds, me, r).Some?
      requires reached.AfterGate? ==> GateOf(worlds, me, r).Some?
      modifies this
      ensures Valid() && old(worlds) <= worlds
      ensures conflict <==> old(worlds)[r.inst].inst.version != old(Now()).inst.version
      ensures conflict ==> worlds == old(worlds) && Writes(events) == old(Writes(events))
      ensures !conflict ==> Now() == old(Now()).(inst := StatusAfter(old(worlds), me, r, reached, failed, old(|worlds|)))
      ensures !conflict ==> Writes(events) == old(Writes(events)) + [WriteStatus(r, reached, failed)]
    {
      conflict := worlds[r.inst].inst.version != Now().inst.version;
      if !conflict {
        var to := Now().(inst := StatusAfter(worlds, me, r, reached, failed, |worlds|));
        Record(to, WriteStatus(r, reached, failed));
        worlds := worlds + [to];
      }
    }

    /** How a pass ends that could not go on. A conflict leaves the status alone. Any other error is
        recorded in it, together with what the pass had already set, unless that write fails too or
        the instance changed since it was read. */
    method GiveUp(r: Reads, reached: Reached, why: Fate, report: Fate) returns (o: Outcome)
      requires Valid() && ReadBefore(r, |worlds|) && !why.Works?
      requires reached.AfterInit? ==> InitOf(worlds, me, r).Some?
      requires reached.AfterGate? ==> GateOf(worlds, me, r).Some?
      modifies this
      ensures Valid() && old(worlds) <= worlds && o == if why.Fails? then Errored else Stopped
      ensures var recorded := why.Fails? && report.Works? && old(worlds)[r.inst].inst.version == old(Now()).inst.version;
              if recorded then
                && Now() == old(Now()).(inst := StatusAfter(old(worlds), me, r, reached, true, old(|worlds|)))
                && Writes(events) == old(Writes(events)) + [WriteStatus(r, reached, true)]
              else worlds == old(worlds) && Writes(events) == old(Writes(events))
    {
      if why.Conflicts? || why.Crashes? {
        return Stopped;
      }
      if report.Works? {
        var _ := UpdateStatus(r, reached, true);
      }
      return Errored;
    }

    /** The two Deployments, and the end of the pass if one of the writes fails. */
    method WriteWorkloads(r: Reads, fates: Fates) returns (stop: Option<Outcome>)
      requires Valid() && ReadBefore(r, |worlds|) && InitOf(worlds, me, r).Some? && GateOf(worlds, me, r).Some?
      modifies this
      ensures Valid() && old(worlds) <= worlds && stop != Some(Done)
      ensures stop.Some? ==> Partly(r, Writes(events), old(Writes(events)))
      ensures stop == None ==> Writes(events) == old(Writes(events)) + [WriteWeb(r), WriteCron(r)]
      ensures stop == None && Still(env) ==>
                var c := Complete(old(worlds), me, r, 0, 0, 0); Now() == old(Now()).(web := c.web, cron := c.cron)
      ensures fates.web.Works? && fates.cron.Works? ==> stop == None
    {
      ghost var start, before := worlds, Writes(events);
      if !fates.web.Works? {
        var o := GiveUp(r, AfterGate, fates.web, fates.report);
        return Some(o);
      }
      WriteDeployment(r, true);
      Elapse();
      Stable(start, worlds, me, r);
      if !fates.cron.Works? {
        var o := GiveUp(r, AfterGate, fates.cron, fates.report);
        Two(before, WriteWeb(r), WriteStatus(r, AfterGate, true));
        return Some(o);
      }
      if Still(env) {
        SameCron(start, worlds, me, r);
      }
      WriteDeployment(r, false);
      Elapse();
      Two(before, WriteWeb(r), WriteCron(r));
      return None;
    }

    /** The second half of a pass: web Deployment, cron Deployment, status. */
    method RollOut(r: Reads, fates: Fates) returns (o: Outcome)
      requires Valid() && ReadBefore(r, |worlds|) && InitOf(worlds, me, r).Some? && GateOf(worlds, me, r).Some?
      modifies this
      ensures Valid() && old(worlds) <= worlds
      ensures o.Done? ==> Writes(events) == old(Writes(events)) + [WriteWeb(r), WriteCron(r), WriteStatus(r, AfterGate, false)]
      ensures !o.Done? ==> Partly(r, Writes(events), old(Writes(events)))
      ensures o.Done? && Still(env) ==>
                && old(worlds)[r.inst].inst.version == old(Now()).inst.version
                && Now() == Complete(old(worlds), me, r, 0, 0, Now().inst.version).(upgrades := old(Now()).upgrades)
      ensures (&& fates.web.Works? && fates.cron.Works? && fates.status.Works? && Still(env)
               && old(worlds)[r.inst].inst.version == old(Now()).inst.version) ==> o.Done?
    {
      ghost var start, before := worlds, Writes(events);
      var stop := WriteWorkloads(r, fates);
      if stop.Some? {
        return stop.value;
      }
      Stable(start, worlds, me, r);
      if !fates.status.Works? {
        o := GiveUp(r, AfterGate, fates.status, fates.report);
        Three(before, WriteWeb(r), WriteCron(r), WriteStatus(r, AfterGate, true));
        return;
      }
      var conflict := UpdateStatus(r, AfterGate, false);
      Three(before, WriteWeb(r), WriteCron(r), WriteStatus(r, AfterGate, false));
      return if conflict then Stopped else Done;
    }

    /** The decisions; an upgrade of another instance under a needed name ends the pass. */
    method Decide(r: Reads, report: Fate) returns (stop: Option<Outcome>)
      requires Valid() && ReadBefore(r, |worlds|)
      modifies this
      ensures Valid() && old(worlds) <= worlds && stop != Some(Done)
      ensures stop.Some? ==> Partly(r, Writes(events), old(Writes(events)))
      ensures stop == None <==> InitOf(old(worlds), me, r).Some? && GateOf(old(worlds), me, r).Some?
      ensures stop == None ==> worlds == old(worlds) && Writes(events) == old(Writes(events))
    {
      if InitOf(worlds, me, r) == None {
        var o := GiveUp(r, BeforeInit, Fails, report);
        return Some(o);
      }
      if GateOf(worlds, me, r) == None {
        var o := GiveUp(r, AfterInit, Fails, report);
        return Some(o);
      }
      return None;
    }

    /** The decisions, and the upgrade that they ask for. */
    method EnsureNeeded(r: Reads, created: int, fates: Fates) returns (stop: Option<Outcome>)
      requires Valid() && ReadBefore(r, |worlds|)
      modifies this
      ensures Valid() && old(worlds) <= worlds && stop != Some(Done)
      ensures stop.Some? ==> Partly(r, Writes(events), old(Writes(events)))
      ensures stop == None ==> exists made :: Makes(r, made) && Writes(events) == old(Writes(events)) + made
      ensures stop == None ==> InitOf(old(worlds), me, r).Some? && GateOf(old(worlds), me, r).Some?
      ensures stop == None ==> Now() == old(Now()).(upgrades := WithNeeded(old(worlds), me, r, created, old(|worlds|)))
      ensures fates.init.Works? && fates.gate.Works? && InitOf(old(worlds), me, r).Some? && GateOf(old(worlds), me, r).Some? ==>
                stop == None
    {
      ghost var before := Writes(events);
      assert before + [] == before && Makes(r, []);
      stop := Decide(r, fates.report);
      if stop.Some? {
        return;
      }
      if InitOf(worlds, me, r).value.ensureUpgrade {
        if !fates.init.Works? {
          var o := GiveUp(r, BeforeInit, fates.init, fates.report);
          return Some(o);
        }
        Ensure(InitName(me), created, r);
      } else if GateOf(worlds, me, r).value.ensureUpgrade {
        if !fates.gate.Works? {
          var o := GiveUp(r, AfterInit, fates.gate, fates.report);
          return Some(o);
        }
        Ensure(UpgradeName(me, r.current), created, r);
      }
      return None;
    }

    /** The first half of a pass: the decisions, and the upgrade they need. None means go on. */
    method Prepare(r: Reads, created: int, fates: Fates) returns (stop: Option<Outcome>)
      requires Valid() && ReadBefore(r, |worlds|)
      modifies this
      ensures Valid() && old(worlds) <= worlds && stop != Some(Done)
      ensures stop.Some? ==> Partly(r, Writes(events), old(Writes(events)))
      ensures stop == None ==> InitOf(old(worlds), me, r).Some? && GateOf(old(worlds), me, r).Some?
      ensures stop == None ==> exists made :: Makes(r, made) && Writes(events) == old(Writes(events)) + made
      ensures stop == None && Still(env) ==>
                Now() == old(Now()).(upgrades := WithNeeded(old(worlds), me, r, created, old(|worlds|) + 1))
      ensures stop == None ==> !Clashes(old(worlds), me, r)
      ensures stop == None && Still(env) ==>
                Now().upgrades.Keys == old(Now()).upgrades.Keys + Asked(old(worlds), me, r)
      ensures fates == ALL_WORK && InitOf(old(worlds), me, r).Some? && GateOf(old(worlds), me, r).Some? ==> stop == None
    {
      if !fates.early.Works? {
        var o := GiveUp(r, BeforeInit, fates.early, fates.report);
        return Some(o);
      }
      ghost var start := worlds;
      Elapse();
      Stable(start, worlds, me, r);
      ghost var decided := worlds;
      stop := EnsureNeeded(r, created, fates);
      if stop == None {
        Elapse();
        NeedsExactly(start, me, r);
        if Still(env) {
          SameNeed(start, decided, me, r, created, |decided|);
        }
      }
    }

    /** The whole pass, with anything moving between its calls. A pass that goes through makes exactly
        its writes, in this order; one that stops makes the first few of them, and at most reports
        its error. When nothing else moves, a pass that goes through leaves what Complete says. */
    method Pass(r: Reads, created: int, fates: Fates) returns (o: Outcome)
      requires Valid() && ReadBefore(r, |worlds|)
      modifies this
      ensures Valid() && old(worlds) <= worlds
      ensures o.Done? ==>
                exists made :: Makes(r, made)
                  && Writes(events) == old(Writes(events)) + made + [WriteWeb(r), WriteCron(r), WriteStatus(r, AfterGate, false)]
      ensures !o.Done? ==> exists made :: Makes(r, made) && Partly(r, Writes(events), old(Writes(events)) + made)
      ensures o.Done? && Still(env) ==>
                && InitOf(old(worlds), me, r).Some? && GateOf(old(worlds), me, r).Some?
                && old(worlds)[r.inst].inst.version == old(Now()).inst.version
                && Now() == Complete(old(worlds), me, r, created, old(|worlds|) + 1, Now().inst.version)
                && Now().inst.applied == Revision(old(worlds), me, r) && Now().web.Some?
                && Now().web.value.addons == Revision(old(worlds), me, r)
      ensures (&& fates == ALL_WORK && InitOf(old(worlds), me, r).Some? && GateOf(old(worlds), me, r).Some? && Still(env)
               && old(worlds)[r.inst].inst.version == old(Now()).inst.version) ==> o.Done?
    {
      ghost var start, before := worlds, Writes(events);
      assert before + [] == before && Makes(r, []);
      var stop := Prepare(r, created, fates);
      if stop.Some? {
        return stop.value;
      }
      Stable(start, worlds, me, r);
      ghost var ready := worlds;
      o := RollOut(r, fates);
      if o.Done? && Still(env) {
        PreparedFirst(start, ready, me, r, created, |start| + 1, Now().inst.version);
        CompletesAs(start, me, r, created, |start| + 1, Now().inst.version);
      }
    }
  }

  lemma Two<T>(s: seq<T>, a: T, b: T)
    ensures (s + [a]) + [b] == s + [a, b]
  {
  }

  lemma Three<T>(s: seq<T>, a: T, b: T, c: T)
    ensures (s + [a, b]) + [c] == s + [a, b, c]
  {
  }

  /** The upgrades a pass may create: one at most. */
  ghost predicate Makes(r: Reads, made: seq<Rollout.Event>) {
    made == [] || made == [EnsureInit(r)] || made == [EnsureGate(r)]
  }

  /** The pass made none or some of the Deployment writes, in order, and at most reported an error. */
  ghost predicate Partly(r: Reads, writes: seq<Rollout.Event>, before: seq<Rollout.Event>) {
    || writes == before || writes == before + [WriteWeb(r)] || writes == before + [WriteWeb(r), WriteCron(r)]
    || exists reached ::
         || writes == before + [WriteStatus(r, reached, true)]
         || writes == before + [WriteWeb(r), WriteStatus(r, reached, true)]
         || writes == before + [WriteWeb(r), WriteCron(r), WriteStatus(r, reached, true)]
  }

  lemma Stable(ws: seq<World>, later: seq<World>, me: string, r: Reads)
    requires ReadBefore(r, |ws|) && ws <= later
    ensures ReadBefore(r, |later|)
    ensures InitOf(later, me, r) == InitOf(ws, me, r) && GateOf(later, me, r) == GateOf(ws, me, r)
  {
  }

  /** `later` ends in what a complete pass on the latest of `ws` leaves behind. */
  ghost predicate Follows(ws: seq<World>, later: seq<World>, me: string, current: string, created: int, made: nat) {
    && ws != [] && later != [] && |current| >= HASH_PREFIX
    && var r := Latest(ws, current);
       InitOf(ws, me, r).Some? && GateOf(ws, me, r).Some?
       && later[|later| - 1] == Complete(ws, me, r, created, made, later[|later| - 1].inst.version)
  }

  lemma HeldAgain(ws: seq<World>, later: seq<World>, me: string, current: string, created: int, made: nat, again: int)
    requires Follows(ws, later, me, current, created, made) && InitOf(ws, me, Latest(ws, current)).value.pending
    ensures Follows(later, later, me, current, again, made)
  {
  }

  lemma RolledAgain(ws: seq<World>, later: seq<World>, me: string, current: string, created: int, made: nat, again: int)
    requires Follows(ws, later, me, current, created, made) && !InitOf(ws, me, Latest(ws, current)).value.pending
    requires GateOf(ws, me, Latest(ws, current)).value.templateHash == current
    ensures Follows(later, later, me, current, again, made)
  {
  }

  lemma UpgradingAgain(ws: seq<World>, later: seq<World>, me: string, current: string, created: int, made: nat, again: int)
    requires Follows(ws, later, me, current, created, made) && !InitOf(ws, me, Latest(ws, current)).value.pending
    requires GateOf(ws, me, Latest(ws, current)).value.templateHash != current
    ensures Follows(later, later, me, current, again, made)
  {
  }

  /** Passes on unchanged facts are a fixpoint: after a complete pass, the next one finds everything
      in place, so nothing it writes differs from what is there. */
  lemma PassIsIdempotent(ws: seq<World>, later: seq<World>, me: string, current: string, created: int, made: nat, again: int)
    requires Follows(ws, later, me, current, created, made)
    ensures Follows(later, later, me, current, again, made)
  {
    if InitOf(ws, me, Latest(ws, current)).value.pending {
      HeldAgain(ws, later, me, current, created, made, again);
    } else if GateOf(ws, me, Latest(ws, current)).value.templateHash == current {
      RolledAgain(ws, later, me, current, created, made, again);
    } else {
      UpgradingAgain(ws, later, me, current, created, made, again);
    }
  }

  /** When the revision's upgrade has succeeded and the database is ready, one complete pass rolls
      everything to it. */
  lemma PassRollsOut(ws: seq<World>, me: string, current: string, created: int, made: nat, version: nat)
    requires ws != [] && |current| >= HASH_PREFIX
    requires var w := ws[|ws| - 1];
             (w.inst.initialize ==> w.inst.initialized) && UpgradeDone(w, me, current)
    ensures var r := Latest(ws, current);
            && InitOf(ws, me, r).Some? && GateOf(ws, me, r).Some?
            && var after := Complete(ws, me, r, created, made, version);
            && after.web.value.addons == current == after.inst.applied && after.inst.active == ""
            && after.web.value.replicas > 0 && (after.cron.Some? ==> after.cron.value.addons == current)
  {
  }
}
