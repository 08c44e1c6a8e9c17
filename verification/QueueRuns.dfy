/** Whole runs of the queue. With reads as stale as one likes, items start in the order they were
    created and at most one of an instance runs, provided creations follow the (timestamp, name)
    order; with fresh reads at most one runs in any case. Every item of an existing instance comes
    to an end if Jobs do. */
module QueueRuns {
  import opened Options
  import opened Queue

  // ---- What one event does to one object ---------------------------------------------------

  /** How an object may differ between two snapshots that both hold it. */
  ghost predicate Evolves(a: Item, b: Item) {
    && b.instance == a.instance && b.created == a.created && b.scheduled == a.scheduled
    && (!a.scheduled && Terminal(a.phase) ==> b == a.(version := b.version))
  }

  /** What every event guarantees of a snapshot and its successor. */
  ghost predicate Linked(h: History, s: Snapshot)
    requires h != []
  {
    && (forall n :: n in h[|h| - 1] && n in s ==> Evolves(h[|h| - 1][n], s[n]))
    && (forall n, i :: n in s && n !in h[|h| - 1] && 0 <= i < |h| ==> n !in h[i])
  }

  lemma EventLinks(h: History, s: Snapshot, e: Event)
    requires h != [] && Happens(h, s, e)
    ensures Linked(h, s)
  {
  }

  lemma RunLinks(h: History, events: seq<Event>, i: nat)
    requires Run(h, events) && i < |events|
    ensures Linked(h[..i + 1], h[i + 1])
  {
    assert HappensAt(h, events, i);
    EventLinks(h[..i + 1], h[i + 1], events[i]);
  }

  /** One more event. */
  lemma Extends(h: History, events: seq<Event>, e: Event, s: Snapshot)
    requires Run(h, events) && Happens(h, s, e)
    ensures Run(h + [s], events + [e])
  {
    var h2, events2 := h + [s], events + [e];
    forall i | 0 <= i < |events2| ensures HappensAt(h2, events2, i) {
      assert i < |events| ==> HappensAt(h, events, i);
      assert h2[..i + 1] == if i < |events| then h[..i + 1] else h;
    }
  }

  // ---- What lasts over a run ---------------------------------------------------------------

  /** An object present at two moments was there all the time between them, was never another
      object, and stays as it is once it has finished. */
  lemma {:induction false} Lasts(h: History, events: seq<Event>, n: string, i: nat, j: nat)
    requires Run(h, events) && i <= j < |h| && n in h[i] && n in h[j]
    ensures forall k :: i <= k <= j ==> n in h[k]
    ensures Evolves(h[i][n], h[j][n])
    decreases j
  {
    if i < j {
      RunLinks(h, events, j - 1);
      assert h[..j][i] == h[i];
      assert n in h[j - 1];
      Lasts(h, events, n, i, j - 1);
      assert Evolves(h[j - 1][n], h[j][n]);
    }
  }

  ghost predicate OneShotPhases(s: Snapshot) {
    forall n :: n in s && !s[n].scheduled ==> !s[n].phase.Scheduled? && (s[n].phase.Running? ==> s[n].jobName != "")
  }

  lemma {:induction false} PhasesOfRun(h: History, events: seq<Event>, i: nat)
    requires Run(h, events) && i < |h|
    ensures OneShotPhases(h[i])
    decreases i
  {
    if i > 0 {
      PhasesOfRun(h, events, i - 1);
      assert HappensAt(h, events, i - 1);
      match events[i - 1]
      case Create(n, item) =>
      case Delete(n) =>
      case Touch(n) =>
      case Write(n, g, l, f) => {
        assert h[..i][g] == h[g];
        Lasts(h, events, n, g, i - 1);
      }
    }
  }

  // ---- First in, first out -----------------------------------------------------------------

  predicate Started(p: Phase) {
    p.Running? || p.Succeeded?
  }

  /** Whatever is older than an item that started has finished. */
  ghost predicate FirstInFirstOut(s: Snapshot) {
    forall m, n :: m in s && n in s && SameQueue(s[m], s[n]) && Older(m, s[m], n, s[n]) && Started(s[n].phase) ==>
      Terminal(s[m].phase)
  }

  /** The older of two siblings was already there whenever the younger was. */
  lemma {:induction false} OlderWasThere(h: History, events: seq<Event>, m: string, n: string, i: nat, j: nat)
    requires Run(h, events) && CreatedInOrder(h, events)
    requires i <= j < |h| && n in h[i] && n in h[j] && m in h[j]
    requires SameQueue(h[j][m], h[j][n]) && Older(m, h[j][m], n, h[j][n])
    ensures m in h[i]
    decreases j
  {
    Lasts(h, events, n, i, j);
    if i < j && m in h[j - 1] {
      Lasts(h, events, m, j - 1, j);
      Lasts(h, events, n, j - 1, j);
      OlderWasThere(h, events, m, n, i, j - 1);
    } else if i < j {
      assert HappensAt(h, events, j - 1);
      assert InOrder(h[..j], events[j - 1].n, events[j - 1].item);
      assert h[..j][j - 1] == h[j - 1];
      assert Evolves(h[j - 1][n], h[j][n]) by { Lasts(h, events, n, j - 1, j); }
      assert Older(n, h[j - 1][n], m, h[j][m]);
      OlderIsStrictTotal(m, h[j][m], n, h[j][n]);
      assert false;
    }
  }

  /** A start decided on old reads is right: every older sibling has finished by now. */
  lemma StartedLate(h: History, events: seq<Event>, m: string, n: string, g: nat, l: nat, f: Facts, i: nat)
    requires Run(h, events) && CreatedInOrder(h, events)
    requires g <= l <= i < |h| && n in h[g] && n in h[i] && m in h[i]
    requires SameQueue(h[i][m], h[i][n]) && Older(m, h[i][m], n, h[i][n])
    requires Target(n, h[g][n], h[l], f) == Some(Running)
    ensures Terminal(h[i][m].phase)
  {
    OlderWasThere(h, events, m, n, g, i);
    Lasts(h, events, m, g, i);
    Lasts(h, events, n, g, i);
    Lasts(h, events, m, g, l);
    Lasts(h, events, m, l, i);
    PhasesOfRun(h, events, l);
    OlderIsStrictTotal(m, h[i][m], m, h[i][m]);
    assert !Blocks(n, h[g][n], m, h[l][m]);
  }

  lemma FinishedStays(h: History, events: seq<Event>, m: string, n: string, g: nat, i: nat)
    requires Run(h, events) && CreatedInOrder(h, events)
    requires g <= i < |h| && n in h[g] && n in h[i] && m in h[i]
    requires SameQueue(h[i][m], h[i][n]) && Older(m, h[i][m], n, h[i][n])
    requires FirstInFirstOut(h[g]) && Started(h[g][n].phase)
    ensures Terminal(h[i][m].phase)
  {
    OlderWasThere(h, events, m, n, g, i);
    Lasts(h, events, m, g, i);
    Lasts(h, events, n, g, i);
  }

  lemma {:induction false} StaleQueueIsFifo(h: History, events: seq<Event>, i: nat)
    requires Run(h, events) && CreatedInOrder(h, events) && i < |h|
    ensures FirstInFirstOut(h[i])
    decreases i
  {
    if i > 0 {
      var k := i - 1;
      StaleQueueIsFifo(h, events, k);
      assert HappensAt(h, events, k);
      assert h[..i][|h[..i]| - 1] == h[k];
      forall m, n | m in h[i] && n in h[i] && SameQueue(h[i][m], h[i][n]) && Older(m, h[i][m], n, h[i][n])
                    && Started(h[i][n].phase)
        ensures Terminal(h[i][m].phase)
      {
        assert n in h[k];
        OlderWasThere(h, events, m, n, k, i);
        Lasts(h, events, m, k, i);
        Lasts(h, events, n, k, i);
        if Started(h[k][n].phase) {
          assert Terminal(h[k][m].phase);
        } else {
          var e := events[k];
          assert e.Write? && e.n == n;
          assert h[..i][e.g] == h[e.g] && h[..i][e.l] == h[e.l];
          if h[i][n].phase.Running? {
            StartedLate(h, events, m, n, e.g, e.l, e.f, k);
          } else {
            Lasts(h, events, n, e.g, k);
            StaleQueueIsFifo(h, events, e.g);
            FinishedStays(h, events, m, n, e.g, k);
          }
        }
      }
    }
  }

  lemma FifoMeansOne(s: Snapshot)
    requires FirstInFirstOut(s)
    ensures OneRunning(s)
  {
    forall m, n | m in s && n in s && m != n && SameQueue(s[m], s[n])
      ensures !(s[m].phase.Running? && s[n].phase.Running?)
    {
      OlderIsStrictTotal(m, s[m], n, s[n]);
    }
  }

  /** In every run, however old the snapshots its reconciles decide on, at most one item of an
      instance is Running and items start in creation order. */
  lemma StaleReadsAreSafe(h: History, events: seq<Event>)
    requires Run(h, events) && CreatedInOrder(h, events)
    ensures forall i :: 0 <= i < |h| ==> FirstInFirstOut(h[i]) && OneRunning(h[i])
  {
    forall i | 0 <= i < |h| ensures FirstInFirstOut(h[i]) && OneRunning(h[i]) {
      StaleQueueIsFifo(h, events, i);
      FifoMeansOne(h[i]);
    }
  }

  /** An item starts only when its own list shows nothing running. */
  lemma FreshStep(h: History, s: Snapshot, e: Event)
    requires h != [] && Happens(h, s, e) && OneRunning(h[|h| - 1])
    requires e.Write? ==> e.g == |h| - 1 && e.l == |h| - 1
    ensures OneRunning(s)
  {
    var last := h[|h| - 1];
    if e.Write? {
      forall m, n | m in s && n in s && m != n && SameQueue(s[m], s[n]) && s[n].phase.Running?
        ensures !s[m].phase.Running?
      {
        if n == e.n {
          assert !Blocks(n, last[n], m, last[m]);
        } else if m == e.n {
          assert s[m].phase.Running? ==> !Blocks(m, last[m], n, last[n]);
        }
      }
    }
  }

  /** With fresh reads, at most one is Running whatever the order of the creations. */
  lemma {:induction false} FreshReadsAreSafe(h: History, events: seq<Event>, i: nat)
    requires Run(h, events) && FreshReads(events) && i < |h|
    ensures OneRunning(h[i])
    decreases i
  {
    if i > 0 {
      FreshReadsAreSafe(h, events, i - 1);
      assert HappensAt(h, events, i - 1);
      FreshStep(h[..i], h[i], events[i - 1]);
    }
  }

  /** A finished item keeps its phase and its Job for good. */
  lemma FinishedForGood(h: History, events: seq<Event>, n: string, i: nat, j: nat)
    requires Run(h, events) && i <= j < |h| && n in h[i] && n in h[j]
    requires !h[i][n].scheduled && Terminal(h[i][n].phase)
    ensures h[j][n].phase == h[i][n].phase && h[j][n].jobName == h[i][n].jobName
  {
    Lasts(h, events, n, i, j);
  }

  /** Succeeded is no accident: some pass found the item Running and its Job complete. */
  lemma {:induction false} SucceededHadItsJob(h: History, events: seq<Event>, i: nat, n: string) returns (k: nat)
    requires Run(h, events) && i < |h| && n in h[i] && !h[i][n].scheduled && h[i][n].phase.Succeeded?
    ensures k < i && events[k].Write? && events[k].n == n && events[k].f.job.JobComplete?
    ensures events[k].g <= k && n in h[events[k].g] && h[events[k].g][n].phase.Running?
    decreases i
  {
    assert HappensAt(h, events, i - 1) && h[..i][i - 1] == h[i - 1];
    if n in h[i - 1] && h[i - 1][n].phase.Succeeded? {
      Lasts(h, events, n, i - 1, i);
      k := SucceededHadItsJob(h, events, i - 1, n);
    } else {
      k := i - 1;
      assert h[..i][events[k].g] == h[events[k].g];
      Lasts(h, events, n, events[k].g, k);
      Lasts(h, events, n, k, i);
    }
  }

  // ---- The two kinds -----------------------------------------------------------------------

  /** OdooUpgrades: none has a schedule, so any two of one instance exclude each other. */
  lemma UpgradesRunAlone(h: History, events: seq<Event>, i: nat, m: string, n: string)
    requires Run(h, events) && CreatedInOrder(h, events) && i < |h|
    requires forall e :: e in events && e.Create? ==> !e.item.scheduled
    requires m in h[i] && n in h[i] && m != n && h[i][m].instance == h[i][n].instance
    ensures !(h[i][m].phase.Running? && h[i][n].phase.Running?)
  {
    StaleReadsAreSafe(h, events);
    NeverScheduled(h, events, i, m);
    NeverScheduled(h, events, i, n);
  }

  lemma {:induction false} NeverScheduled(h: History, events: seq<Event>, i: nat, n: string)
    requires Run(h, events) && i < |h| && n in h[i]
    requires forall e :: e in events && e.Create? ==> !e.item.scheduled
    ensures !h[i][n].scheduled
    decreases i
  {
    if i > 0 {
      RunLinks(h, events, i - 1);
      assert HappensAt(h, events, i - 1) && h[..i][i - 1] == h[i - 1];
      if n in h[i - 1] {
        NeverScheduled(h, events, i - 1, n);
      } else {
        assert events[i - 1] in events;
      }
    }
  }

  ghost function OneShots(s: Snapshot): Snapshot {
    map n | n in s && !s[n].scheduled :: s[n]
  }

  /** OdooBackups: scheduled siblings play no part in the decision, and whether a one-shot backup
      may start is a matter of the one-shot backups of its instance alone. */
  lemma ScheduledBackupsAreSkipped(n: string, item: Item, list: Snapshot)
    ensures MayStart(n, item, list) <==> MayStart(n, item, OneShots(list))
  {
    if MayStart(n, item, OneShots(list)) {
      forall m | m in list ensures !Blocks(n, item, m, list[m]) {
        assert m in OneShots(list) ==> !Blocks(n, item, m, OneShots(list)[m]);
      }
    }
  }
}
