/** One pass over an OdooAddon in the order the controller acts, with every API call free to fail and
    anything moving between two calls. */
module AddonPass {
  import opened Options
  import opened AddonConditions
  import opened AddonSync

  /** What everything else does between two calls of the pass. */
  type Environment = (World, nat) -> World

  ghost predicate Allowed(env: Environment) {
    forall w, now :: Outside(w, env(w, now), now)
  }

  ghost predicate Still(env: Environment) {
    forall w, now :: env(w, now) == w
  }

  /** The calls of the passes among the events. */
  ghost function Calls(events: seq<Event>): seq<Event> {
    if events == [] then []
    else
      var n := |events| - 1;
      Calls(events[..n]) + if events[n].External? then [] else [events[n]]
  }

  lemma CallsMore(events: seq<Event>, e: Event)
    ensures Calls(events + [e]) == Calls(events) + if e.External? then [] else [e]
  {
    assert (events + [e])[..|events|] == events;
  }

  // ---- What a pass sets out to do ----------------------------------------------------------

  function NextStatus(ws: seq<World>, rules: Rules, r: Reads): Status
    requires ReadBefore(r, |ws|) && WriteOf(ws, rules, r).Some?
  {
    Apply(ws[r.addon].status, WriteOf(ws, rules, r).value, ws[r.addon].generation, r.now)
  }

  /** The status write, left out when nothing in the status changes. */
  function Telling(ws: seq<World>, rules: Rules, r: Reads): seq<Event>
    requires ReadBefore(r, |ws|)
  {
    if WriteOf(ws, rules, r).Some? && NextStatus(ws, rules, r) != ws[r.addon].status then [WriteStatus(r)] else []
  }

  /** The calls of a pass in which none fails: a result is recorded before its Job goes; any other Job
      goes, or comes, before the status is written. */
  ghost function Plan(ws: seq<World>, rules: Rules, r: Reads): seq<Event>
    requires ReadBefore(r, |ws|)
  {
    var write := Telling(ws, rules, r);
    if Finished(ws, rules, r) then write + [DeleteJob(r)]
    else if Deletes(ws, rules, r) then [DeleteJob(r)] + write
    else if Creates(ws, rules, r) then [StartJob(r)] + write
    else write
  }

  /** The pass judges a finished Job of the spec it read. */
  ghost predicate Finished(ws: seq<World>, rules: Rules, r: Reads)
    requires ReadBefore(r, |ws|)
    ensures Finished(ws, rules, r) ==> WriteOf(ws, rules, r).Some? && Deletes(ws, rules, r)
  {
    && Precheck(rules, ws[r.addon].spec, r) == None
    && (DecisionOf(ws, rules, r).action.RecordSuccess? || DecisionOf(ws, rules, r).action.RecordFailure?)
  }

  /** The status is what the pass wanted to write, or the pass had nothing new to say. */
  ghost predicate Shown(ws: seq<World>, rules: Rules, r: Reads, w: World)
    requires ReadBefore(r, |ws|) && WriteOf(ws, rules, r).Some?
  {
    w.status == NextStatus(ws, rules, r) || NextStatus(ws, rules, r) == ws[r.addon].status
  }

  lemma Stable(ws: seq<World>, later: seq<World>, rules: Rules, r: Reads)
    requires ReadBefore(r, |ws|) && ws <= later
    ensures ReadBefore(r, |later|)
    ensures WriteOf(later, rules, r) == WriteOf(ws, rules, r)
    ensures DecisionOf(later, rules, r) == DecisionOf(ws, rules, r)
    ensures Deletes(later, rules, r) == Deletes(ws, rules, r) && Creates(later, rules, r) == Creates(ws, rules, r)
    ensures Telling(later, rules, r) == Telling(ws, rules, r) && Finished(later, rules, r) == Finished(ws, rules, r)
  {
  }

  // ---- The pass ----------------------------------------------------------------------------

  class Cluster {
    const rules: Rules
    const env: Environment
    var worlds: seq<World>
    ghost var events: seq<Event>

    ghost predicate Valid()
      reads this
    {
      Run(worlds, rules, events) && Allowed(env)
    }

    function Now(): World
      reads this
      requires worlds != []
    {
      worlds[|worlds| - 1]
    }

    ghost method Record(to: World, e: Event)
      requires Valid() && Happens(worlds, rules, to, e)
      modifies this`events
      ensures events == old(events) + [e] && Run(worlds + [to], rules, events)
      ensures Calls(events) == old(Calls(events)) + if e.External? then [] else [e]
    {
      CallsMore(events, e);
      events := events + [e];
      var ws := worlds + [to];
      forall i | 0 <= i < |events| ensures HappensAt(ws, rules, events, i) {
        assert i < |events| - 1 ==> HappensAt(worlds, rules, old(events), i);
        assert ws[..i + 1] == if i < |events| - 1 then worlds[..i + 1] else worlds;
      }
    }

    /** Everything else moves. */
    method Elapse()
      requires Valid()
      modifies this
      ensures Valid() && old(worlds) <= worlds && Calls(events) == old(Calls(events))
      ensures Now().status == old(Now()).status && (Still(env) ==> Now() == old(Now()))
    {
      var to := env(Now(), |worlds|);
      Record(to, External(to));
      worlds := worlds + [to];
    }

    /** Deletes the Job that was read, if it is still the one there. */
    method Delete(r: Reads, works: bool) returns (ok: bool)
      requires Valid() && ReadBefore(r, |worlds|) && Deletes(worlds, rules, r)
      modifies this
      ensures Valid() && old(worlds) <= worlds && ok == works
      ensures Calls(events) == old(Calls(events)) + if ok then [DeleteJob(r)] else []
      ensures Now() == if works && old(Now()).job.Some? && old(Now()).job.value.uid == old(worlds)[r.job].job.value.uid
                       then old(Now()).(job := None) else old(Now())
    {
      if works {
        var from := Now();
        var to := if from.job.Some? && from.job.value.uid == worlds[r.job].job.value.uid then from.(job := None) else from;
        Record(to, DeleteJob(r));
        worlds := worlds + [to];
      }
      return works;
    }

    /** Creates the Job for the spec that was read; one that already has the name is left as it is. */
    method Create(r: Reads, works: bool) returns (ok: bool)
      requires Valid() && ReadBefore(r, |worlds|) && Creates(worlds, rules, r)
      modifies this
      ensures Valid() && old(worlds) <= worlds && ok == works
      ensures Calls(events) == old(Calls(events)) + if ok then [StartJob(r)] else []
      ensures Now() == if works && old(Now()).job == None
                       then old(Now()).(job := Some(NewJob(rules, old(worlds)[r.addon].spec, |old(worlds)|))) else old(Now())
    {
      if works {
        var to := if Now().job.Some? then Now()
                  else Now().(job := Some(NewJob(rules, worlds[r.addon].spec, |worlds|)));
        Record(to, StartJob(r));
        worlds := worlds + [to];
      }
      return works;
    }

    /** The compare-and-set write of the status, skipped when nothing in it changes. */
    method Write(r: Reads, works: bool) returns (ok: bool)
      requires Valid() && ReadBefore(r, |worlds|) && WriteOf(worlds, rules, r).Some?
      modifies this
      ensures Valid() && old(worlds) <= worlds && Now().job == old(Now()).job
      ensures Calls(events) == old(Calls(events)) + if ok then Telling(old(worlds), rules, r) else []
      ensures !ok ==> worlds == old(worlds) && Telling(old(worlds), rules, r) != []
      ensures ok ==> Shown(old(worlds), rules, r, Now())
      ensures works && old(worlds)[r.addon].version == old(Now()).version ==> ok
    {
      var seen := worlds[r.addon];
      var next := NextStatus(worlds, rules, r);
      if next == seen.status {
        return true;
      }
      if !works || seen.version != Now().version {
        return false;
      }
      var to := Now().(status := next, version := |worlds|);
      Record(to, WriteStatus(r));
      worlds := worlds + [to];
      return true;
    }

    /** Retires a finished Job: its result is recorded first, so a lost status write never loses it. */
    method Retire(r: Reads, first: bool, second: bool) returns (ok: bool)
      requires Valid() && ReadBefore(r, |worlds|) && WriteOf(worlds, rules, r).Some? && Deletes(worlds, rules, r)
      modifies this
      ensures Valid() && old(worlds) <= worlds
      ensures ok ==> Calls(events) == old(Calls(events)) + (Telling(old(worlds), rules, r) + [DeleteJob(r)])
      ensures !ok ==> Partly(old(Calls(events)), Telling(old(worlds), rules, r) + [DeleteJob(r)], Calls(events))
      ensures DeleteJob(r) in Calls(events)[|old(Calls(events))|..] ==> Shown(old(worlds), rules, r, Now())
      ensures ok ==> Shown(old(worlds), rules, r, Now())
      ensures Still(env) && Now().job != old(Now()).job ==> Now().job == None
      ensures Still(env) && ok && old(Now()).job == old(worlds)[r.job].job ==> Now().job == None
      ensures first && second && old(worlds)[r.addon].version == old(Now()).version ==> ok
    {
      ghost var start, before, told := worlds, Calls(events), Telling(worlds, rules, r);
      Beginnings(before, told, [DeleteJob(r)]);
      ok := Write(r, first);
      if ok {
        Elapse();
        Stable(start, worlds, rules, r);
        ok := Delete(r, second);
      }
    }

    /** The status write after another call, if the pass has one to make. */
    method Tell(r: Reads, works: bool) returns (ok: bool)
      requires Valid() && ReadBefore(r, |worlds|)
      modifies this
      ensures Valid() && old(worlds) <= worlds
      ensures Calls(events) == old(Calls(events)) + if ok then Telling(old(worlds), rules, r) else []
      ensures ok && WriteOf(old(worlds), rules, r).Some? ==> Shown(old(worlds), rules, r, Now())
      ensures !ok ==> Telling(old(worlds), rules, r) != []
      ensures WriteOf(old(worlds), rules, r) == None ==> Now().status == old(Now()).status
      ensures Still(env) ==> Now().job == old(Now()).job
      ensures works && Still(env) && old(worlds)[r.addon].version == old(Now()).version ==> ok
    {
      ghost var start := worlds;
      Elapse();
      Stable(start, worlds, rules, r);
      ok := true;
      if WriteOf(worlds, rules, r).Some? {
        ok := Write(r, works);
      }
    }

    /** The Job goes, and then the status is written if the pass has one to write. */
    method DeleteAndTell(r: Reads, first: bool, second: bool) returns (ok: bool)
      requires Valid() && ReadBefore(r, |worlds|) && Deletes(worlds, rules, r)
      modifies this
      ensures Valid() && old(worlds) <= worlds
      ensures ok ==> Calls(events) == old(Calls(events)) + ([DeleteJob(r)] + Telling(old(worlds), rules, r))
      ensures !ok ==> Partly(old(Calls(events)), [DeleteJob(r)] + Telling(old(worlds), rules, r), Calls(events))
      ensures ok && WriteOf(old(worlds), rules, r).Some? ==> Shown(old(worlds), rules, r, Now())
      ensures Still(env) && Now().job != old(Now()).job ==> Now().job == None
      ensures first && second && Still(env) && old(worlds)[r.addon].version == old(Now()).version ==> ok
    {
      ghost var start := worlds;
      Beginnings(Calls(events), [DeleteJob(r)], Telling(worlds, rules, r));
      ok := Delete(r, first);
      if ok {
        Stable(start, worlds, rules, r);
        ok := Tell(r, second);
      }
    }

    /** The Job comes, and then the status is written. */
    method CreateAndTell(r: Reads, first: bool, second: bool) returns (ok: bool)
      requires Valid() && ReadBefore(r, |worlds|) && Creates(worlds, rules, r)
      modifies this
      ensures Valid() && old(worlds) <= worlds
      ensures ok ==> Calls(events) == old(Calls(events)) + ([StartJob(r)] + Telling(old(worlds), rules, r))
      ensures !ok ==> Partly(old(Calls(events)), [StartJob(r)] + Telling(old(worlds), rules, r), Calls(events))
      ensures ok && WriteOf(old(worlds), rules, r).Some? ==> Shown(old(worlds), rules, r, Now())
      ensures Still(env) && Now().job != old(Now()).job ==> old(Now()).job == None
      ensures first && second && Still(env) && old(worlds)[r.addon].version == old(Now()).version ==> ok
    {
      ghost var start := worlds;
      Beginnings(Calls(events), [StartJob(r)], Telling(worlds, rules, r));
      ok := Create(r, first);
      if ok {
        Stable(start, worlds, rules, r);
        ok := Tell(r, second);
      }
    }

    /** The whole pass, with anything moving between its calls. One that goes through makes exactly the
        calls of its plan, in order; one that fails makes the first of them. */
    method Sync(r: Reads, first: bool, second: bool) returns (ok: bool)
      requires Valid() && ReadBefore(r, |worlds|)
      modifies this
      ensures Valid() && old(worlds) <= worlds
      ensures ok ==> Calls(events) == old(Calls(events)) + Plan(old(worlds), rules, r)
      ensures !ok ==> Partly(old(Calls(events)), Plan(old(worlds), rules, r), Calls(events))
      ensures ok && WriteOf(old(worlds), rules, r).Some? ==> Shown(old(worlds), rules, r, Now())
      ensures Finished(old(worlds), rules, r) && DeleteJob(r) in Calls(events)[|old(Calls(events))|..] ==>
                Shown(old(worlds), rules, r, Now())
      ensures Still(env) && Now().job != old(Now()).job ==>
                || (Deletes(old(worlds), rules, r) && Now().job == None)
                || (Creates(old(worlds), rules, r) && old(Now()).job == None)
      ensures first && second && Still(env) && old(worlds)[r.addon].version == old(Now()).version ==> ok
    {
      Beginnings(Calls(events), [], Telling(worlds, rules, r));
      if Precheck(rules, worlds[r.addon].spec, r).Some? {
        ok := Write(r, first);
        return;
      }
      var d := DecisionOf(worlds, rules, r);
      if d.action.RecordSuccess? || d.action.RecordFailure? {
        ok := Retire(r, first, second);
      } else if d.deleteJob {
        ok := DeleteAndTell(r, first, second);
      } else if d.action.CreateJob? {
        ok := CreateAndTell(r, first, second);
      } else {
        ok := Write(r, first);
      }
    }
  }

  /** The first calls of the plan were made, but not all. */
  ghost predicate Partly(before: seq<Event>, plan: seq<Event>, after: seq<Event>) {
    exists n :: 0 <= n < |plan| && after == before + plan[..n]
  }

  lemma Beginnings(before: seq<Event>, a: seq<Event>, b: seq<Event>)
    ensures (before + a) + b == before + (a + b) && before + [] == before && [] + b == b
    ensures a + b != [] ==> Partly(before, a + b, before)
    ensures b != [] ==> Partly(before, a + b, before + a)
  {
    assert (a + b)[..0] == [] && (a + b)[..|a|] == a;
    assert before + (a + b)[..0] == before && before + (a + b)[..|a|] == before + a;
  }
}
