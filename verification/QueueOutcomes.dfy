/** What a pass makes of an item, told by the phase that the item has afterwards. */
module QueueOutcomes {
  import opened Text
  import opened Queue
  import opened QueueRuns

  /** Some sibling of the instance is Running, or waits and was created earlier, or at the same time
      under a name that sorts first. */
  ghost predicate Queued(n: string, item: Item, list: Snapshot) {
    exists m :: m in list && m != n && list[m].instance == item.instance && !list[m].scheduled
      && (|| list[m].phase == Running
          || (list[m].phase in {NoPhase, Pending}
              && (list[m].created < item.created || (list[m].created == item.created && Less(m, n)))))
  }

  lemma QueuedBlocks(n: string, item: Item, list: Snapshot)
    ensures Queued(n, item, list) <==> !MayStart(n, item, list)
  {
    if !MayStart(n, item, list) {
      var m :| m in list && Blocks(n, item, m, list[m]);
    } else if Queued(n, item, list) {
      var m :| m in list && m != n && list[m].instance == item.instance && !list[m].scheduled
        && (|| list[m].phase == Running
            || (list[m].phase in {NoPhase, Pending}
                && (list[m].created < item.created || (list[m].created == item.created && Less(m, n)))));
      assert Blocks(n, item, m, list[m]);
    }
  }

  /** What a status write leaves of its item: it moves to `phase`, and only a start changes the Job. */
  ghost predicate Leaves(h: History, s: Snapshot, n: string, phase: Phase)
    requires h != []
  {
    var now := h[|h| - 1];
    && n in now && n in s
    && s == now[n := s[n]] && s[n].phase == phase && s[n].version == |h|
    && s[n].jobName == (if phase == Running then n + "-run" else now[n].jobName)
    && s[n].instance == now[n].instance && s[n].created == now[n].created && s[n].scheduled == now[n].scheduled
  }

  /** A pass that read its one-shot item Running, whatever happened since: Succeeded if and only if it
      read the Job complete; Failed if and only if it read the Job failed, or missing after the grace
      period; no other write. */
  lemma RunningWrites(h: History, events: seq<Event>, s: Snapshot, n: string, g: nat, l: nat, f: Facts)
    requires Run(h, events) && Happens(h, s, Write(n, g, l, f)) && !h[g][n].scheduled && h[g][n].phase == Running
    ensures Leaves(h, s, n, Succeeded) <==> f.job == JobComplete
    ensures Leaves(h, s, n, Failed) <==> f.job == JobFailed || f.job == JobMissing(false)
    ensures Leaves(h, s, n, Succeeded) || Leaves(h, s, n, Failed)
  {
    PhasesOfRun(h, events, g);
    Lasts(h, events, n, g, |h| - 1);
  }

  /** A pass that read its one-shot item before its start: the spec, the instance, the queue and the
      database decide, in this order. */
  lemma WaitingWrites(h: History, events: seq<Event>, s: Snapshot, n: string, g: nat, l: nat, f: Facts)
    requires Run(h, events) && Happens(h, s, Write(n, g, l, f)) && !h[g][n].scheduled && h[g][n].phase != Running
    ensures Leaves(h, s, n, Running) <==> f.valid && f.instanceFound && !Queued(n, h[g][n], h[l]) && f.database
    ensures Leaves(h, s, n, Pending) <==> f.valid && (!f.instanceFound || Queued(n, h[g][n], h[l]))
    ensures Leaves(h, s, n, Failed) <==> !f.valid || (f.instanceFound && !Queued(n, h[g][n], h[l]) && !f.database)
    ensures Leaves(h, s, n, Running) || Leaves(h, s, n, Pending) || Leaves(h, s, n, Failed)
  {
    QueuedBlocks(n, h[g][n], h[l]);
    PhasesOfRun(h, events, g);
    Lasts(h, events, n, g, |h| - 1);
  }

  /** A backup with a schedule never queues and never runs itself. */
  lemma ScheduledWrites(h: History, events: seq<Event>, s: Snapshot, n: string, g: nat, l: nat, f: Facts)
    requires Run(h, events) && Happens(h, s, Write(n, g, l, f)) && h[g][n].scheduled
    ensures Leaves(h, s, n, Scheduled) <==> f.valid && f.instanceFound && f.database
    ensures Leaves(h, s, n, Pending) <==> f.valid && !f.instanceFound
    ensures Leaves(h, s, n, Failed) <==> !f.valid || (f.instanceFound && !f.database)
    ensures Leaves(h, s, n, Scheduled) || Leaves(h, s, n, Pending) || Leaves(h, s, n, Failed)
  {
    Lasts(h, events, n, g, |h| - 1);
  }

  /** When a pass on the snapshot of the moment writes at all: always before the start and for a
      schedule; while the item is Running, exactly when its Job has ended or is missing for too long;
      never once it has finished. */
  lemma WritesExactly(h: History, events: seq<Event>, n: string, f: Facts)
    requires Run(h, events) && n in h[|events|]
    ensures var item, k := h[|events|][n], |events|;
            (exists s :: Happens(h, s, Write(n, k, k, f)))
            <==> || (item.scheduled && (item.phase == Running && f.valid ==> f.instanceFound))
                 || (!item.scheduled && item.phase in {NoPhase, Pending})
                 || (!item.scheduled && item.phase == Running && f.job in {JobComplete, JobFailed, JobMissing(false)})
  {
    var last, k := h[|events|], |events|;
    PhasesOfRun(h, events, k);
    if Target(n, last[n], last, f).Some? && !Guarded(last[n], Target(n, last[n], last, f).value) {
      assert Happens(h, last[n := Written(n, last[n], Target(n, last[n], last, f).value, |h|)], Write(n, k, k, f));
    }
  }

  /** The whole life of an item that is never blocked: it starts, and ends as its Job does. */
  lemma StartsAndEnds(h: History, events: seq<Event>, n: string, job: JobState) returns (h2: History, events2: seq<Event>)
    requires Run(h, events) && n in h[|events|] && !h[|events|][n].scheduled
    requires h[|events|][n].phase in {NoPhase, Pending} && !Queued(n, h[|events|][n], h[|events|])
    requires job in {JobComplete, JobFailed}
    ensures Run(h2, events2) && |events2| == |events| + 2 && h <= h2 && events <= events2
    ensures n in h2[|events| + 1] && h2[|events| + 1][n].phase == Running && h2[|events| + 1][n].jobName == n + "-run"
    ensures n in h2[|events| + 2]
    ensures h2[|events| + 2][n].phase == if job == JobComplete then Succeeded else Failed
  {
    var k := |events|;
    var ready, ended := Facts(true, true, true, JobMissing(true)), Facts(true, true, true, job);
    WritesExactly(h, events, n, ready);
    var s :| Happens(h, s, Write(n, k, k, ready));
    WaitingWrites(h, events, s, n, k, k, ready);
    Extends(h, events, Write(n, k, k, ready), s);
    var h1, events1 := h + [s], events + [Write(n, k, k, ready)];
    WritesExactly(h1, events1, n, ended);
    var t :| Happens(h1, t, Write(n, k + 1, k + 1, ended));
    RunningWrites(h1, events1, t, n, k + 1, k + 1, ended);
    Extends(h1, events1, Write(n, k + 1, k + 1, ended), t);
    h2, events2 := h1 + [t], events1 + [Write(n, k + 1, k + 1, ended)];
  }
}
