/** The queue always moves and always ends. */
module QueueProgress {
  import opened Queue
  import opened QueueRuns

  ghost predicate Waiting(s: Snapshot, instance: string, n: string) {
    n in s && s[n].instance == instance && !s[n].scheduled && !Terminal(s[n].phase)
  }

  ghost function WaitingSet(s: Snapshot, instance: string): set<string> {
    set n | n in s && Waiting(s, instance, n)
  }

  /** Every nonempty set of items has an oldest one. */
  lemma {:induction false} Oldest(s: Snapshot, names: set<string>) returns (n: string)
    requires names != {} && names <= s.Keys
    ensures n in names && forall m :: m in names && m != n ==> Older(n, s[n], m, s[m])
  {
    var x :| x in names;
    if names == {x} {
      n := x;
    } else {
      var y := Oldest(s, names - {x});
      OlderIsStrictTotal(x, s[x], y, s[y]);
      if Older(x, s[x], y, s[y]) {
        n := x;
        forall m | m in names && m != n ensures Older(n, s[n], m, s[m]) {
          if m != y {
            OlderIsTransitive(x, s[x], y, s[y], m, s[m]);
          }
        }
      } else {
        n := y;
      }
    }
  }

  /** While an instance has an unfinished item, one of them is Running or allowed to start. */
  lemma SomeoneMayMove(s: Snapshot, instance: string) returns (n: string)
    requires WaitingSet(s, instance) != {}
    ensures Waiting(s, instance, n)
    ensures s[n].phase.Running? || MayStart(n, s[n], s)
  {
    if m :| Waiting(s, instance, m) && s[m].phase.Running? {
      n := m;
    } else {
      n := Oldest(s, WaitingSet(s, instance));
      forall m | m in s ensures !Blocks(n, s[n], m, s[m]) {
        if Blocks(n, s[n], m, s[m]) {
          assert Waiting(s, instance, m);
          assert m in WaitingSet(s, instance);
          OlderIsStrictTotal(n, s[n], m, s[m]);
          assert false;
        }
      }
    }
  }

  predicate Ended(job: JobState) {
    job.JobComplete? || job.JobFailed? || job == JobMissing(false)
  }

  /** No deadlock: in every snapshot of a run, some unfinished item of an existing instance moves to
      another phase the next time it is reconciled, its Job having ended. */
  lemma NoDeadlock(h: History, events: seq<Event>, i: nat, instance: string) returns (n: string)
    requires Run(h, events) && i < |h| && WaitingSet(h[i], instance) != {}
    ensures Waiting(h[i], instance, n)
    ensures forall f: Facts :: f.instanceFound && Ended(f.job) ==>
              var p := Target(n, h[i][n], h[i], f);
              p.Some? && !Guarded(h[i][n], p.value) && p.value != h[i][n].phase
  {
    n := SomeoneMayMove(h[i], instance);
    PhasesOfRun(h, events, i);
  }

  // ---- Every run of status changes is finite -----------------------------------------------

  /** How many more times the phase of an item can change. */
  function Left(item: Item): nat {
    if item.scheduled then 0 else match item.phase
      case NoPhase => 3
      case Pending => 2
      case Running => 1
      case _ => 0
  }

  ghost function Weight(s: Snapshot): nat
    decreases |s|
  {
    if s == map[] then 0 else
      var n :| n in s;
      assert |s - {n}| < |s| by { assert s.Keys == (s - {n}).Keys + {n}; }
      Left(s[n]) + Weight(s - {n})
  }

  lemma {:induction false} WeightOf(s: Snapshot, n: string)
    requires n in s
    ensures Weight(s) == Left(s[n]) + Weight(s - {n})
    decreases |s|
  {
    var x :| x in s && Weight(s) == Left(s[x]) + Weight(s - {x});
    if x != n {
      assert s.Keys == (s - {x}).Keys + {x};
      WeightOf(s - {x}, n);
      assert n in s - {x} && x in s - {n};
      assert s.Keys == (s - {n}).Keys + {n};
      WeightOf(s - {n}, x);
      assert s - {x} - {n} == s - {n} - {x};
    }
  }

  lemma WeightUpdate(s: Snapshot, n: string, item: Item)
    ensures Weight(s[n := item]) == Weight(s - {n}) + Left(item)
  {
    WeightOf(s[n := item], n);
    assert s[n := item] - {n} == s - {n};
  }

  /** A write that moves a one-shot item to another phase. */
  ghost predicate Moves(h: History, e: Event, s: Snapshot)
    requires h != []
  {
    e.Write? && e.n in s && e.n in h[|h| - 1] && !s[e.n].scheduled && s[e.n].phase != h[|h| - 1][e.n].phase
  }

  ghost function MovesIn(h: History, events: seq<Event>): nat
    requires |h| == |events| + 1
  {
    if events == [] then 0 else
      var k := |events| - 1;
      MovesIn(h[..k + 1], events[..k]) + (if Moves(h[..k + 1], events[k], h[k + 1]) then 1 else 0)
  }

  function Creations(events: seq<Event>): nat {
    if events == [] then 0 else
      Creations(events[..|events| - 1]) + (if events[|events| - 1].Create? then 1 else 0)
  }

  /** A write leaves the phase, or moves it on. */
  lemma WriteMoves(h: History, events: seq<Event>, e: Event, s: Snapshot)
    requires Run(h, events) && Happens(h, s, e) && e.Write?
    ensures var last := h[|h| - 1];
            && e.n in last && e.n in s && s == last[e.n := s[e.n]]
            && Left(s[e.n]) + (if Moves(h, e, s) then 1 else 0) <= Left(last[e.n])
  {
    Lasts(h, events, e.n, e.g, |h| - 1);
    PhasesOfRun(h, events, |h| - 1);
    PhasesOfRun(h, events, e.g);
  }

  lemma EventWeight(h: History, events: seq<Event>, e: Event, s: Snapshot)
    requires Run(h, events) && Happens(h, s, e)
    ensures Weight(s) + (if Moves(h, e, s) then 1 else 0)
            <= Weight(h[|h| - 1]) + (if e.Create? then 3 else 0)
  {
    var last := h[|h| - 1];
    match e
    case Create(n, item) => {
      WeightUpdate(last, n, item);
      assert last - {n} == last;
    }
    case Delete(n) => WeightOf(last, n);
    case Touch(n) => {
      WeightUpdate(last, n, s[n]);
      WeightOf(last, n);
    }
    case Write(n, _, _, _) => {
      WriteMoves(h, events, e, s);
      WeightUpdate(last, n, s[n]);
      WeightOf(last, n);
    }
  }

  lemma RunPrefix(h: History, events: seq<Event>, k: nat)
    requires Run(h, events) && k <= |events|
    ensures Run(h[..k + 1], events[..k])
  {
    var h2, events2 := h[..k + 1], events[..k];
    forall i | 0 <= i < k ensures HappensAt(h2, events2, i) {
      assert HappensAt(h, events, i);
      assert h2[..i + 1] == h[..i + 1];
    }
  }

  /** However stale the reads, a run changes the phase of one-shot items at most three times for
      each object created: with the instance in place and Jobs that end, the queue drains. */
  lemma {:induction false} MovesAreBounded(h: History, events: seq<Event>)
    requires Run(h, events)
    ensures MovesIn(h, events) + Weight(h[|events|]) <= 3 * Creations(events)
    decreases |events|
  {
    if events != [] {
      var k := |events| - 1;
      RunPrefix(h, events, k);
      MovesAreBounded(h[..k + 1], events[..k]);
      assert HappensAt(h, events, k);
      EventWeight(h[..k + 1], events[..k], events[k], h[k + 1]);
    }
  }

  /** Weight zero says that everything has finished. */
  lemma DrainedMeansFinished(h: History, events: seq<Event>, n: string)
    requires Run(h, events) && n in h[|events|] && !h[|events|][n].scheduled && Weight(h[|events|]) == 0
    ensures Terminal(h[|events|][n].phase)
  {
    WeightOf(h[|events|], n);
    PhasesOfRun(h, events, |events|);
  }

  lemma {:induction false} SomeoneLeft(s: Snapshot) returns (n: string)
    requires Weight(s) > 0
    ensures n in s && Left(s[n]) > 0
    decreases |s|
  {
    var x :| x in s;
    WeightOf(s, x);
    if Left(s[x]) > 0 {
      n := x;
    } else {
      assert s.Keys == (s - {x}).Keys + {x};
      n := SomeoneLeft(s - {x});
    }
  }

  // ---- Every fair order of passes drains the queue -----------------------------------------

  /** What a pass of `n` on the snapshot of the moment finds: its instance in place, its Job ended. */
  datatype Visit = Visit(n: string, f: Facts)

  predicate Ready(f: Facts) {
    f.instanceFound && Ended(f.job)
  }

  /** The pass changes the phase of the item. */
  ghost predicate Acts(h: History, p: Visit)
    requires h != []
  {
    var s := h[|h| - 1];
    p.n in s && var t := Target(p.n, s[p.n], s, p.f);
                t.Some? && !Guarded(s[p.n], t.value) && t.value != s[p.n].phase
  }

  ghost function After(h: History, p: Visit): Snapshot
    requires h != [] && Acts(h, p)
  {
    var s := h[|h| - 1];
    s[p.n := Written(p.n, s[p.n], Target(p.n, s[p.n], s, p.f).value, |h|)]
  }

  /** Passes one after the other, each with fresh reads. */
  ghost function Sweep(h: History, events: seq<Event>, visits: seq<Visit>): (History, seq<Event>)
    requires |h| == |events| + 1
    decreases |visits|
  {
    if visits == [] then (h, events)
    else if Acts(h, visits[0]) then
      var k := |events|;
      Sweep(h + [After(h, visits[0])], events + [Write(visits[0].n, k, k, visits[0].f)], visits[1..])
    else Sweep(h, events, visits[1..])
  }

  lemma VisitHappens(h: History, events: seq<Event>, p: Visit)
    requires Run(h, events) && Acts(h, p)
    ensures var e := Write(p.n, |events|, |events|, p.f);
            Happens(h, After(h, p), e) && Run(h + [After(h, p)], events + [e])
    ensures Weight(After(h, p)) + (if h[|events|][p.n].scheduled then 0 else 1) <= Weight(h[|events|])
  {
    var e := Write(p.n, |events|, |events|, p.f);
    Extends(h, events, e, After(h, p));
    EventWeight(h, events, e, After(h, p));
  }

  lemma {:induction false} SweepRuns(h: History, events: seq<Event>, visits: seq<Visit>)
    requires Run(h, events)
    ensures var r := Sweep(h, events, visits);
            Run(r.0, r.1) && h <= r.0 && events <= r.1 && Weight(r.0[|r.1|]) <= Weight(h[|events|])
    decreases |visits|
  {
    if visits != [] {
      if Acts(h, visits[0]) {
        VisitHappens(h, events, visits[0]);
        SweepRuns(h + [After(h, visits[0])], events + [Write(visits[0].n, |events|, |events|, visits[0].f)], visits[1..]);
      } else {
        SweepRuns(h, events, visits[1..]);
      }
    }
  }

  /** The item moves at its next pass. */
  ghost predicate Movable(s: Snapshot, n: string) {
    n in s && !s[n].scheduled && !Terminal(s[n].phase) && (s[n].phase.Running? || MayStart(n, s[n], s))
  }

  lemma MovableActs(h: History, events: seq<Event>, p: Visit)
    requires Run(h, events) && Movable(h[|events|], p.n) && Ready(p.f)
    ensures Acts(h, p)
  {
    PhasesOfRun(h, events, |events|);
  }

  /** A pass over a scheduled backup takes nothing from the others. */
  lemma StillMovable(h: History, n: string, p: Visit)
    requires h != [] && Movable(h[|h| - 1], n) && Acts(h, p) && h[|h| - 1][p.n].scheduled
    ensures Movable(After(h, p), n)
  {
    var s, t := h[|h| - 1], After(h, p);
    if MayStart(n, s[n], s) {
      forall m | m in t ensures !Blocks(n, t[n], m, t[m]) {
        assert !Blocks(n, s[n], m, s[m]);
      }
    }
  }

  lemma {:induction false} SweepMoves(h: History, events: seq<Event>, visits: seq<Visit>, i: nat)
    requires Run(h, events) && i < |visits| && Movable(h[|events|], visits[i].n) && Ready(visits[i].f)
    ensures var r := Sweep(h, events, visits); |r.0| == |r.1| + 1 && Weight(r.0[|r.1|]) < Weight(h[|events|])
    decreases |visits|
  {
    SweepRuns(h, events, visits);
    var p := visits[0];
    if i == 0 {
      MovableActs(h, events, p);
    }
    if Acts(h, p) {
      VisitHappens(h, events, p);
      var h1, events1 := h + [After(h, p)], events + [Write(p.n, |events|, |events|, p.f)];
      if h[|events|][p.n].scheduled {
        StillMovable(h, visits[i].n, p);
        SweepMoves(h1, events1, visits[1..], i - 1);
      } else {
        SweepRuns(h1, events1, visits[1..]);
      }
    } else {
      SweepMoves(h, events, visits[1..], i - 1);
    }
  }

  /** Each unfinished item gets a pass. */
  ghost predicate Covers(s: Snapshot, visits: seq<Visit>) {
    && (forall i :: 0 <= i < |visits| ==> Ready(visits[i].f))
    && (forall n :: n in s && !s[n].scheduled && !Terminal(s[n].phase) ==> exists i :: 0 <= i < |visits| && visits[i].n == n)
  }

  /** Whatever the order of its passes, a sweep over all unfinished items brings the end nearer. */
  lemma SweepLowers(h: History, events: seq<Event>, visits: seq<Visit>)
    requires Run(h, events) && Covers(h[|events|], visits) && Weight(h[|events|]) > 0
    ensures var r := Sweep(h, events, visits);
            Run(r.0, r.1) && h <= r.0 && events <= r.1 && Weight(r.0[|r.1|]) < Weight(h[|events|])
  {
    var last := h[|events|];
    var m := SomeoneLeft(last);
    assert m in WaitingSet(last, last[m].instance) by { PhasesOfRun(h, events, |events|); }
    var n := SomeoneMayMove(last, last[m].instance);
    var i :| 0 <= i < |visits| && visits[i].n == n;
    SweepRuns(h, events, visits);
    SweepMoves(h, events, visits, i);
  }

  /** Sweeps one after the other, each over all items unfinished by then. */
  ghost predicate Fair(h: History, events: seq<Event>, rounds: seq<seq<Visit>>)
    requires Run(h, events)
    decreases |rounds|
  {
    if rounds == [] then true
    else
      SweepRuns(h, events, rounds[0]);
      var r := Sweep(h, events, rounds[0]);
      Covers(h[|events|], rounds[0]) && Fair(r.0, r.1, rounds[1..])
  }

  ghost function Sweeps(h: History, events: seq<Event>, rounds: seq<seq<Visit>>): (History, seq<Event>)
    requires Run(h, events)
    decreases |rounds|
  {
    if rounds == [] then (h, events)
    else
      SweepRuns(h, events, rounds[0]);
      var r := Sweep(h, events, rounds[0]);
      Sweeps(r.0, r.1, rounds[1..])
  }

  /** Every item terminates if Jobs do: from any point of any run, whatever order the passes come in,
      after as many sweeps as the weight says every one-shot item has finished. */
  lemma {:induction false} QueueDrains(h: History, events: seq<Event>, rounds: seq<seq<Visit>>)
    requires Run(h, events) && Fair(h, events, rounds) && |rounds| >= Weight(h[|events|])
    ensures var (h2, events2) := Sweeps(h, events, rounds);
            && Run(h2, events2) && h <= h2 && events <= events2
            && forall n :: n in h2[|events2|] && !h2[|events2|][n].scheduled ==> Terminal(h2[|events2|][n].phase)
    decreases |rounds|
  {
    if rounds == [] {
      forall n | n in h[|events|] && !h[|events|][n].scheduled ensures Terminal(h[|events|][n].phase) {
        DrainedMeansFinished(h, events, n);
      }
    } else {
      SweepRuns(h, events, rounds[0]);
      if Weight(h[|events|]) > 0 {
        SweepLowers(h, events, rounds[0]);
      }
      var r := Sweep(h, events, rounds[0]);
      QueueDrains(r.0, r.1, rounds[1..]);
    }
  }
}
