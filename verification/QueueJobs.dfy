/** The Jobs behind the phases. A Job can outlive the phase Running of its item; two Jobs of one
    instance meet exactly when an item was recorded as finished while its Job was still going. */
module QueueJobs {
  import opened Options
  import opened Queue
  import opened QueueRuns
  import opened QueueLimits

  /** `live[i]`: the items whose Job exists and has not ended in snapshot `i`. */
  type Jobs = seq<set<string>>

  /** A pass on snapshots that were there by `i` decides to start `n`: it creates the Job, and only
      then writes the status. */
  ghost predicate Launches(h: History, n: string, i: nat, g: nat, l: nat, f: Facts)
    requires i < |h|
  {
    g <= l <= i && n in h[g] && Target(n, h[g][n], h[l], f) == Some(Running)
  }

  ghost predicate Launched(h: History, n: string, i: nat)
    requires i < |h|
  {
    exists g, l, f :: Launches(h, n, i, g, l, f)
  }

  /** A Job appears because some pass started it, and it has ended when a pass reads that it has. */
  ghost predicate JobStep(h: History, events: seq<Event>, live: Jobs, i: nat)
    requires i < |events| && |h| == |live| == |events| + 1
  {
    && (forall n :: n in live[i + 1] && n !in live[i] ==> Launched(h, n, i))
    && (events[i].Write? && (events[i].f.job.JobComplete? || events[i].f.job.JobFailed?) ==> events[i].n !in live[i])
  }

  ghost predicate JobRun(h: History, events: seq<Event>, live: Jobs) {
    && Run(h, events) && |live| == |h| && live[0] == {}
    && forall i :: 0 <= i < |events| ==> JobStep(h, events, live, i)
  }

  /** Its Job goes on although the item is recorded as finished. */
  ghost predicate WrittenOff(s: Snapshot, live: set<string>, n: string) {
    n in s && n in live && Terminal(s[n].phase)
  }

  ghost predicate OneJob(s: Snapshot, live: set<string>) {
    forall m, n :: m in s && n in s && m != n && SameQueue(s[m], s[n]) ==> !(m in live && n in live)
  }

  // ---- Two Jobs meet only behind an item that was written off ------------------------------

  lemma {:induction false} WasLaunched(h: History, events: seq<Event>, live: Jobs, i: nat, n: string)
    returns (k: nat, g: nat, l: nat, f: Facts)
    requires JobRun(h, events, live) && i < |h| && n in live[i]
    ensures k < i && Launches(h, n, k, g, l, f)
    decreases i
  {
    assert JobStep(h, events, live, i - 1);
    if n in live[i - 1] {
      k, g, l, f := WasLaunched(h, events, live, i - 1, n);
    } else {
      k := i - 1;
      g, l, f :| Launches(h, n, k, g, l, f);
    }
  }

  /** The older of two live Jobs belongs to an item that is recorded as finished. */
  lemma OlderIsWrittenOff(h: History, events: seq<Event>, live: Jobs, i: nat, m: string, n: string)
    requires JobRun(h, events, live) && CreatedInOrder(h, events) && i < |h|
    requires m in h[i] && n in h[i] && SameQueue(h[i][m], h[i][n]) && Older(m, h[i][m], n, h[i][n])
    requires m in live[i] && n in live[i]
    ensures WrittenOff(h[i], live[i], m)
  {
    var k, g, l, f := WasLaunched(h, events, live, i, n);
    StartedLate(h, events, m, n, g, l, f, i);
  }

  /** While nothing is written off, an instance has one live Job at most, however old the reads. */
  lemma JobsRunAlone(h: History, events: seq<Event>, live: Jobs, i: nat)
    requires JobRun(h, events, live) && CreatedInOrder(h, events) && i < |h|
    requires forall n :: !WrittenOff(h[i], live[i], n)
    ensures OneJob(h[i], live[i])
  {
    forall m, n | m in h[i] && n in h[i] && m != n && SameQueue(h[i][m], h[i][n]) ensures !(m in live[i] && n in live[i]) {
      if m in live[i] && n in live[i] {
        OlderIsStrictTotal(m, h[i][m], n, h[i][n]);
        if Older(m, h[i][m], n, h[i][n]) {
          OlderIsWrittenOff(h, events, live, i, m, n);
        } else {
          OlderIsWrittenOff(h, events, live, i, n, m);
        }
      }
    }
  }

  /** And that is exact: when an item may start, on the snapshot of the moment, its Job meets another
      one of the instance exactly when an item of the instance is written off. */
  lemma StartMeetsExactly(h: History, events: seq<Event>, live: Jobs, n: string)
    requires JobRun(h, events, live) && CreatedInOrder(h, events)
    requires var s := h[|h| - 1];
             n in s && !s[n].scheduled && !Terminal(s[n].phase) && !s[n].phase.Running? && MayStart(n, s[n], s)
    ensures var s, jobs := h[|h| - 1], live[|h| - 1];
            (exists m :: m != n && m in s && SameQueue(s[m], s[n]) && m in jobs)
            <==> exists m :: m != n && m in s && SameQueue(s[m], s[n]) && WrittenOff(s, jobs, m)
  {
    var i := |h| - 1;
    var s, jobs := h[i], live[i];
    if m :| m != n && m in s && SameQueue(s[m], s[n]) && m in jobs {
      LiveIsFinished(h, events, live, m, n);
      assert WrittenOff(s, jobs, m);
    }
  }

  lemma LiveIsFinished(h: History, events: seq<Event>, live: Jobs, m: string, n: string)
    requires JobRun(h, events, live) && CreatedInOrder(h, events)
    requires var s := h[|h| - 1];
             && n in s && !Terminal(s[n].phase) && MayStart(n, s[n], s)
             && m != n && m in s && SameQueue(s[m], s[n]) && m in live[|h| - 1]
    ensures Terminal(h[|h| - 1][m].phase)
  {
    var i := |h| - 1;
    var s := h[i];
    PhasesOfRun(h, events, i);
    OlderIsStrictTotal(m, s[m], n, s[n]);
    assert !Blocks(n, s[n], m, s[m]);
    if !Terminal(s[m].phase) {
      var k, g, l, f := WasLaunched(h, events, live, i, m);
      StartedLate(h, events, n, m, g, l, f, i);
    }
  }

  // ---- How an item is written off ----------------------------------------------------------

  /** The pass fails the item without a look at its Job: it finds the Job missing although the grace
      period is over; or it read the item as it was before the start, and finds the spec invalid or
      no database. */
  ghost predicate Blind(h: History, n: string, e: Event) {
    && e.Write? && e.n == n && e.g < |h| && n in h[e.g] && e.l < |h|
    && var own := h[e.g][n];
       if own.phase.Running? && own.jobName != "" then e.f.job == JobMissing(false)
       else !e.f.valid || (e.f.instanceFound && MayStart(n, own, h[e.l]) && !e.f.database)
  }

  /** A step writes an unfinished item off, its Job being live, exactly when it is such a write. */
  lemma WrittenOffExactly(h: History, events: seq<Event>, live: Jobs, i: nat, n: string)
    requires JobRun(h, events, live) && i < |events|
    requires n in h[i] && n in h[i + 1] && !h[i][n].scheduled && !Terminal(h[i][n].phase)
    requires n in live[i] && n in live[i + 1]
    ensures WrittenOff(h[i + 1], live[i + 1], n) <==> Blind(h, n, events[i])
  {
    assert HappensAt(h, events, i) && JobStep(h, events, live, i);
    var e := events[i];
    if e.Write? && e.n == n {
      assert h[..i + 1][e.g] == h[e.g] && h[..i + 1][e.l] == h[e.l];
      Lasts(h, events, n, e.g, i);
    }
  }

  /** The runs in which this does not happen: no such write meets a live Job, and no Job is created
      for an item that has finished, which takes that its first Job is gone. */
  ghost predicate Careful(h: History, events: seq<Event>, live: Jobs)
    requires |h| == |live| == |events| + 1
  {
    forall i, n :: 0 <= i < |events| && n in h[i] ==> CarefulStep(h, events, live, i, n)
  }

  ghost predicate CarefulStep(h: History, events: seq<Event>, live: Jobs, i: nat, n: string)
    requires |h| == |live| == |events| + 1 && i < |events|
  {
    && (n in live[i] && n in live[i + 1] ==> !Blind(h, n, events[i]))
    && (n !in live[i] && n in live[i + 1] && n in h[i + 1] ==> !Terminal(h[i + 1][n].phase))
  }

  /** An item whose Job is live was there one snapshot earlier. */
  lemma LiveWasThere(h: History, events: seq<Event>, live: Jobs, i: nat, n: string)
    requires JobRun(h, events, live) && i < |h| && n in h[i] && n in live[i]
    ensures i > 0 && n in h[i - 1] && Evolves(h[i - 1][n], h[i][n])
  {
    var k, g, l, f := WasLaunched(h, events, live, i, n);
    Lasts(h, events, n, g, i);
    Lasts(h, events, n, i - 1, i);
  }

  lemma {:induction false} CarefulKeeps(h: History, events: seq<Event>, live: Jobs, i: nat, n: string)
    requires JobRun(h, events, live) && Careful(h, events, live) && i < |h| && n in h[i] && !h[i][n].scheduled
    ensures !WrittenOff(h[i], live[i], n)
    decreases i
  {
    if n in live[i] {
      LiveWasThere(h, events, live, i, n);
      var k := i - 1;
      assert CarefulStep(h, events, live, k, n);
      if n in live[k] {
        CarefulKeeps(h, events, live, k, n);
        WrittenOffExactly(h, events, live, k, n);
      }
    }
  }

  /** In such runs at most one Job of an instance is live at any moment. */
  lemma CarefulRunsAreSafe(h: History, events: seq<Event>, live: Jobs, i: nat)
    requires JobRun(h, events, live) && CreatedInOrder(h, events) && Careful(h, events, live) && i < |h|
    ensures OneJob(h[i], live[i])
  {
    forall m, n | m in h[i] && n in h[i] && SameQueue(h[i][m], h[i][n]) && Older(m, h[i][m], n, h[i][n])
      ensures !(m in live[i] && n in live[i])
    {
      if m in live[i] && n in live[i] {
        OlderIsWrittenOff(h, events, live, i, m, n);
        CarefulKeeps(h, events, live, i, m);
      }
    }
    forall m, n | m in h[i] && n in h[i] && m != n && SameQueue(h[i][m], h[i][n]) ensures !(m in live[i] && n in live[i]) {
      OlderIsStrictTotal(m, h[i][m], n, h[i][n]);
    }
  }

  // ---- And it does happen ------------------------------------------------------------------

  const LOST := Facts(true, true, true, JobMissing(false))

  /** In any run, while the Job of a Running item is live and another item of the instance would be
      next, a pass that does not find that Job ends with two live Jobs. */
  lemma LostJobMeets(h: History, events: seq<Event>, live: Jobs, m: string, n: string)
    returns (h2: History, events2: seq<Event>, live2: Jobs)
    requires JobRun(h, events, live)
    requires var s := h[|h| - 1];
             && m in s && n in s && m != n && SameQueue(s[m], s[n]) && s[m].phase.Running? && m in live[|h| - 1]
             && (s[n].phase.NoPhase? || s[n].phase.Pending?) && forall x :: x in s && x != m ==> !Blocks(n, s[n], x, s[x])
    ensures JobRun(h2, events2, live2) && |h2| == |h| + 2 && h2[..|h|] == h && live2[..|h|] == live
    ensures events2 == events + [Write(m, |h| - 1, |h| - 1, LOST), Write(n, |h|, |h|, READY)]
    ensures !OneJob(h2[|h| + 1], live2[|h| + 1])
  {
    var s, jobs := h[|h| - 1], live[|h| - 1];
    PhasesOfRun(h, events, |h| - 1);
    var s1 := s[m := Written(m, s[m], Failed, |h|)];
    assert Target(m, s[m], s, LOST) == Some(Failed);
    Extends(h, events, Write(m, |h| - 1, |h| - 1, LOST), s1);
    var h1, events1 := h + [s1], events + [Write(m, |h| - 1, |h| - 1, LOST)];
    KeepsJobs(h, events, live, s1, Write(m, |h| - 1, |h| - 1, LOST), jobs);
    var live1 := live + [jobs];
    assert MayStart(n, s1[n], s1) by {
      forall x | x in s1 ensures !Blocks(n, s1[n], x, s1[x]) {
        assert x != m ==> !Blocks(n, s[n], x, s[x]);
      }
    }
    Starts(h1, events1, n, |h|, s1, s1);
    var s2 := Starting(n, s1, |h1|);
    assert Launches(h1, n, |h|, |h|, |h|, READY);
    KeepsJobs(h1, events1, live1, s2, Write(n, |h|, |h|, READY), jobs + {n});
    h2, events2, live2 := h1 + [s2], events1 + [Write(n, |h|, |h|, READY)], live1 + [jobs + {n}];
    assert m in s2 && n in s2 && SameQueue(s2[m], s2[n]);
  }

  /** One more snapshot, and the Jobs that are live in it. */
  lemma KeepsJobs(h: History, events: seq<Event>, live: Jobs, s: Snapshot, e: Event, jobs: set<string>)
    requires JobRun(h, events, live) && Run(h + [s], events + [e])
    requires forall n :: n in jobs && n !in live[|h| - 1] ==> Launched(h, n, |h| - 1)
    requires e.Write? && e.f.job.JobMissing?
    ensures JobRun(h + [s], events + [e], live + [jobs])
  {
    var h2, events2, live2 := h + [s], events + [e], live + [jobs];
    forall i | 0 <= i < |events2| ensures JobStep(h2, events2, live2, i) {
      if i < |events| {
        assert JobStep(h, events, live, i);
      }
      forall n | n in live2[i + 1] && n !in live2[i] ensures Launched(h2, n, i) {
        assert Launched(h, n, i);
        var g, l, f :| Launches(h, n, i, g, l, f);
        assert Launches(h2, n, i, g, l, f);
      }
    }
  }
}
