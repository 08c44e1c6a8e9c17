/** The ordering hypothesis of the stale-read theorem is exact: one creation out of order lets two
    items run at once. */
module QueueLimits {
  import opened Options
  import opened Queue
  import opened QueueRuns

  const READY := Facts(true, true, true, JobMissing(false))

  /** The snapshot after the start of `n` has been written. */
  function Starting(n: string, now: Snapshot, version: nat): Snapshot
    requires n in now
  {
    now[n := Written(n, now[n], Running, version)]
  }

  /** A waiting item that read its list in snapshot `l` of a run goes to Running. */
  lemma Starts(h: History, events: seq<Event>, n: string, l: nat, seen: Snapshot, now: Snapshot)
    requires Run(h, events) && l < |h| && h[l] == seen && h[|h| - 1] == now && n in seen && n in now
    requires !seen[n].scheduled && !Terminal(seen[n].phase) && !seen[n].phase.Running?
    requires MayStart(n, seen[n], seen)
    requires !now[n].scheduled && !Terminal(now[n].phase)
    ensures Run(h + [Starting(n, now, |h|)], events + [Write(n, l, l, READY)])
  {
    assert Target(n, seen[n], seen, READY) == Some(Running);
    Extends(h, events, Write(n, l, l, READY), Starting(n, now, |h|));
  }

  /** An item that sorts before one that may start may start as well. */
  lemma NewcomerMayStart(last: Snapshot, a: string, b: string, item: Item)
    requires a in last && b !in last && SameQueue(last[a], item) && Older(b, item, a, last[a])
    requires !last[a].phase.Running? && MayStart(a, last[a], last)
    ensures MayStart(b, item, last[b := item])
  {
    var s := last[b := item];
    forall m | m in s ensures !Blocks(b, item, m, s[m]) {
      if Blocks(b, item, m, s[m]) {
        assert !Blocks(a, last[a], m, last[m]);
        if m == a {
          OlderIsStrictTotal(a, last[a], b, item);
        } else {
          OlderIsTransitive(m, s[m], b, item, a, last[a]);
        }
        assert false;
      }
    }
  }

  /** In any run, let item `a` be able to start and let an item `b` that sorts before it be created
      now. Then stale reads can put both in Running. */
  lemma OrderIsNeeded(h: History, events: seq<Event>, a: string, b: string, item: Item)
    returns (h2: History, events2: seq<Event>)
    requires Run(h, events) && a in h[|h| - 1] && Creation(h, h[|h| - 1][b := item], b, item)
    requires SameQueue(h[|h| - 1][a], item) && Older(b, item, a, h[|h| - 1][a])
    requires h[|h| - 1][a].phase.NoPhase? || h[|h| - 1][a].phase.Pending?
    requires MayStart(a, h[|h| - 1][a], h[|h| - 1])
    ensures Run(h2, events2) && |h2| == |h| + 3 && h2[..|h|] == h
    ensures events2 == events + [Create(b, item), Write(a, |h| - 1, |h| - 1, READY), Write(b, |h|, |h|, READY)]
    ensures !OneRunning(h2[|h2| - 1])
  {
    var last := h[|h| - 1];
    var s := last[b := item];
    Extends(h, events, Create(b, item), s);
    var h0, events0 := h + [s], events + [Create(b, item)];
    Starts(h0, events0, a, |h| - 1, last, s);
    var s1 := Starting(a, s, |h0|);
    var h1, events1 := h0 + [s1], events0 + [Write(a, |h| - 1, |h| - 1, READY)];
    NewcomerMayStart(last, a, b, item);
    Starts(h1, events1, b, |h|, s, s1);
    var s2 := Starting(b, s1, |h1|);
    h2, events2 := h1 + [s2], events1 + [Write(b, |h|, |h|, READY)];
    BothRun(s2, a, b);
  }

  lemma BothRun(s: Snapshot, a: string, b: string)
    requires a in s && b in s && a != b && SameQueue(s[a], s[b]) && s[a].phase.Running? && s[b].phase.Running?
    ensures !OneRunning(s)
  {
  }

  /** A new one-shot item of an instance. */
  predicate Fresh(item: Item, version: nat) {
    item.phase.NoPhase? && item.jobName == "" && item.version == version && !item.scheduled
  }

  /** The run creates `a`, then `b`, and nothing else, in two successive snapshots. */
  ghost predicate CreatesTwo(events: seq<Event>, a: string, x: Item, b: string, y: Item) {
    && |events| >= 2 && events[0] == Create(a, x) && events[1] == Create(b, y)
    && forall i :: 2 <= i < |events| ==> !events[i].Create?
  }

  lemma TwoInOrder(h: History, events: seq<Event>, a: string, x: Item, b: string, y: Item)
    requires Run(h, events) && CreatesTwo(events, a, x, b, y) && Older(a, x, b, y)
    ensures CreatedInOrder(h, events)
  {
    forall i | 0 <= i < |events| && events[i].Create?
      ensures InOrder(h[..i + 1], events[i].n, events[i].item)
    {
      assert h[0] == map[];
      if i == 1 {
        assert HappensAt(h, events, 0);
        assert h[..1][0] == h[0];
        assert h[1] == map[a := x];
        assert h[..2][1] == h[1] && h[..2][0] == h[0];
      } else {
        assert h[..1][0] == h[0];
      }
    }
  }

  lemma TwoOutOfOrder(a: string, x: Item, b: string, y: Item) returns (h: History, events: seq<Event>)
    requires a != b && Fresh(x, 1) && Fresh(y, 2) && x.instance == y.instance && !Older(a, x, b, y)
    ensures Run(h, events) && CreatesTwo(events, a, x, b, y) && !OneRunning(h[|h| - 1])
  {
    var h0: History, events0: seq<Event> := [map[]], [];
    assert Creation(h0, map[a := x], a, x);
    Extends(h0, events0, Create(a, x), map[a := x]);
    var h1, events1 := [map[], map[a := x]], [Create(a, x)];
    assert h0 + [map[a := x]] == h1 && events0 + [Create(a, x)] == events1;
    OlderIsStrictTotal(a, x, b, y);
    assert MayStart(a, x, map[a := x]);
    h, events := OrderIsNeeded(h1, events1, a, b, y);
  }

  /** For two items created one after the other: every run, with any reads, keeps at most one of
      them Running exactly when the one created first also sorts first. */
  lemma OrderIsExact(a: string, x: Item, b: string, y: Item)
    requires a != b && Fresh(x, 1) && Fresh(y, 2) && x.instance == y.instance
    ensures (forall h, events :: Run(h, events) && CreatesTwo(events, a, x, b, y) ==>
               forall i :: 0 <= i < |h| ==> OneRunning(h[i]))
            <==> Older(a, x, b, y)
  {
    if Older(a, x, b, y) {
      forall h, events | Run(h, events) && CreatesTwo(events, a, x, b, y)
        ensures forall i :: 0 <= i < |h| ==> OneRunning(h[i])
      {
        TwoInOrder(h, events, a, x, b, y);
        StaleReadsAreSafe(h, events);
      }
    } else {
      var h, events := TwoOutOfOrder(a, x, b, y);
      assert !OneRunning(h[|h| - 1]);
    }
  }
}
