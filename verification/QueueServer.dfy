/** The reconcile as the controllers run it: a decision on cached reads, then a status write that
    retries on conflicts while other clients write in between. Whatever the caches return, what
    reaches the server is one guarded write of the queue, or nothing. */
module QueueServer {
  import opened Options
  import opened Queue
  import opened QueueRuns
  import opened QueueJobs
  import opened QueueOutcomes

  /** A resourceVersion names one state of one object: the one in the snapshot of that number. */
  ghost predicate Versioned(h: History) {
    forall i, n :: 0 <= i < |h| && n in h[i] ==>
      var v := h[i][n].version; v <= i && n in h[v] && h[v][n] == h[i][n]
  }

  /** Two copies with one version are one copy. */
  lemma SameVersionSameItem(h: History, n: string, i: nat, j: nat)
    requires Versioned(h) && i < |h| && j < |h| && n in h[i] && n in h[j] && h[i][n].version == h[j][n].version
    ensures h[i][n] == h[j][n]
  {
    assert h[i][n] == h[h[i][n].version][n] == h[j][n];
  }

  lemma {:induction false} RunIsVersioned(h: History, events: seq<Event>, k: nat)
    requires Run(h, events) && k <= |events|
    ensures Versioned(h[..k + 1])
    decreases k
  {
    assert h[..k + 1][k] == h[k];
    if k > 0 {
      RunIsVersioned(h, events, k - 1);
      assert HappensAt(h, events, k - 1);
      forall i, n | 0 <= i < k + 1 && n in h[i]
        ensures var v := h[i][n].version; v <= i && n in h[v] && h[v][n] == h[i][n]
      {
        if i < k {
          assert h[..k][i] == h[i];
          assert h[..k][h[i][n].version] == h[h[i][n].version];
        } else if n in h[k - 1] && h[k][n] == h[k - 1][n] {
          assert h[..k][k - 1] == h[k - 1];
          assert h[..k][h[k - 1][n].version] == h[h[k - 1][n].version];
        }
      }
    }
  }

  datatype Response = Accepted | Conflict | NotFound

  /** The objects of the queue, as their history, and the names of the Jobs that were created. */
  class ApiServer {
    var log: History
    var jobs: set<string>

    ghost predicate Valid()
      reads this
    {
      log != [] && Versioned(log)
    }

    /** Compare and set: only the status fields of `copy` reach the object, and only when `copy` was
        read from its present version. */
    method UpdateStatus(n: string, copy: Item) returns (r: Response)
      requires Valid()
      modifies this`log
      ensures Valid()
      ensures r.NotFound? <==> n !in old(log)[|old(log)| - 1]
      ensures r.Conflict? <==> n in old(log)[|old(log)| - 1] && old(log)[|old(log)| - 1][n].version != copy.version
      ensures !r.Accepted? ==> log == old(log)
      ensures r.Accepted? ==>
                log == old(log) + [old(log)[|old(log)| - 1][n := old(log)[|old(log)| - 1][n].(
                  phase := copy.phase, jobName := copy.jobName, version := |old(log)|)]]
    {
      var now := log[|log| - 1];
      if n !in now {
        return NotFound;
      }
      if now[n].version != copy.version {
        return Conflict;
      }
      var next := now[n].(phase := copy.phase, jobName := copy.jobName, version := |log|);
      log := log + [now[n := next]];
      return Accepted;
    }
  }

  const ATTEMPTS: nat := 5

  /** What the other clients leave on the server when each attempt begins, and what the cache and
      the comparison with the stored status return in it. */
  datatype Attempt = Attempt(log: History, read: nat, same: bool)

  ghost predicate Attempts(h: History, tries: seq<Attempt>) {
    && |tries| == ATTEMPTS
    && (forall k :: 0 <= k < ATTEMPTS ==> h <= tries[k].log && Versioned(tries[k].log) && tries[k].read < |tries[k].log|)
    && h != []
  }

  datatype Outcome = Wrote(at: nat) | LeftAlone(at: nat) | GaveUp

  /** One attempt: applies the target phase to the copy the cache returns, checks the guards on that
      copy, and sends it with the version it had. None means try again. */
  method TryWrite(server: ApiServer, n: string, target: Phase, try: Attempt) returns (done: Option<bool>)
    requires server.Valid() && server.log == try.log && try.read < |try.log|
    modifies server`log
    ensures server.Valid()
    ensures done == Some(true) ==>
              && var now := try.log[|try.log| - 1];
              && n in now && !Guarded(now[n], target)
              && server.log == try.log + [now[n := Written(n, now[n], target, |try.log|)]]
    ensures done == Some(false) ==>
              && server.log == try.log
              && var seen := try.log[try.read];
              && (n in seen && n in try.log[|try.log| - 1] ==> Guarded(seen[n], target) || try.same)
    ensures done == None ==> server.log == try.log && try.read < |try.log| - 1
  {
    var seen := try.log[try.read];
    if n !in seen || Guarded(seen[n], target) || try.same {
      return Some(false);
    }
    var response := server.UpdateStatus(n, Written(n, seen[n], target, seen[n].version));
    match response {
      case NotFound => return Some(false);
      case Accepted =>
        SameVersionSameItem(try.log, n, try.read, |try.log| - 1);
        return Some(true);
      case Conflict => return None;
    }
  }

  /** Retries while the copy was out of date. */
  method WriteStatus(server: ApiServer, n: string, target: Phase, tries: seq<Attempt>) returns (r: Outcome)
    requires server.Valid() && Attempts(server.log, tries)
    modifies server`log
    ensures server.Valid()
    ensures r.Wrote? ==>
              && r.at < ATTEMPTS
              && var h := tries[r.at].log; var now := h[|h| - 1];
              && n in now && !Guarded(now[n], target)
              && server.log == h + [now[n := Written(n, now[n], target, |h|)]]
    ensures r.LeftAlone? ==>
              && r.at < ATTEMPTS && server.log == tries[r.at].log
              && var h := tries[r.at].log; var seen := h[tries[r.at].read];
              && (n in seen && n in h[|h| - 1] ==> Guarded(seen[n], target) || tries[r.at].same)
    ensures r.GaveUp? ==>
              && server.log == tries[ATTEMPTS - 1].log
              && forall k :: 0 <= k < 5 ==> tries[k].read < |tries[k].log| - 1
  {
    for k := 0 to ATTEMPTS
      invariant server.Valid()
      invariant k > 0 ==> server.log == tries[k - 1].log
      invariant forall j :: 0 <= j < k ==> tries[j].read < |tries[j].log| - 1
    {
      server.log := tries[k].log;
      var done := TryWrite(server, n, target, tries[k]);
      if done.Some? {
        return if done.value then Wrote(k) else LeftAlone(k);
      }
    }
    return GaveUp;
  }

  /** The list the reconcile walks holds exactly the objects of the snapshot it was read from. */
  ghost predicate Lists(all: seq<(string, Item)>, s: Snapshot) {
    && (forall i :: 0 <= i < |all| ==> all[i].0 in s && all[i].1 == s[all[i].0])
    && (forall n :: n in s ==> exists i :: 0 <= i < |all| && all[i].0 == n)
  }

  method Decide(n: string, own: Item, all: seq<(string, Item)>, ghost list: Snapshot, f: Facts) returns (t: Option<Phase>)
    requires Lists(all, list)
    ensures t == Target(n, own, list, f)
    ensures !own.scheduled && own.phase.Running? && own.jobName != "" ==>
              && (t == Some(Succeeded) <==> f.job == JobComplete)
              && (t == Some(Failed) <==> f.job == JobFailed || f.job == JobMissing(false))
              && (t == None <==> f.job == JobActive || f.job == JobMissing(true))
    ensures !own.scheduled && (own.phase == NoPhase || own.phase == Pending) ==>
              && (t == Some(Running) <==> f.valid && f.instanceFound && !Queued(n, own, list) && f.database)
              && (t == Some(Pending) <==> f.valid && (!f.instanceFound || Queued(n, own, list)))
              && (t == Some(Failed) <==> !f.valid || (f.instanceFound && !Queued(n, own, list) && !f.database))
    ensures own.scheduled ==>
              && (t == Some(Scheduled) <==> f.valid && f.instanceFound && f.database)
              && (t == Some(Pending) <==> f.valid && !f.instanceFound)
              && (t == Some(Failed) <==> !f.valid || (f.instanceFound && !f.database))
  {
    QueuedBlocks(n, own, list);
    if own.scheduled {
      return if !f.valid then Some(Failed) else if !f.instanceFound then Some(Pending)
        else if !f.database then Some(Failed) else Some(Scheduled);
    }
    if Terminal(own.phase) {
      return None;
    }
    if own.phase.Running? && own.jobName != "" {
      match f.job {
        case JobMissing(grace) => return if grace then None else Some(Failed);
        case JobActive => return None;
        case JobComplete => return Some(Succeeded);
        case JobFailed => return Some(Failed);
      }
    }
    if !f.valid {
      return Some(Failed);
    }
    if !f.instanceFound {
      return Some(Pending);
    }
    var decision := DecideStart(n, own, all);
    if !decision.mayStart {
      var i :| 0 <= i < |all| && Blocks(n, own, all[i].0, all[i].1);
      assert Blocks(n, own, all[i].0, list[all[i].0]);
      return Some(Pending);
    }
    assert MayStart(n, own, list) by {
      forall m | m in list ensures !Blocks(n, own, m, list[m]) {
        var i :| 0 <= i < |all| && all[i].0 == m;
        assert !Blocks(n, own, all[i].0, all[i].1);
      }
    }
    return if f.database then Some(Running) else Some(Failed);
  }

  /** A pass on these reads starts the item. */
  ghost predicate Starts(h: History, n: string, g: nat, l: nat, f: Facts) {
    g < |h| && l < |h| && n in h[g] && Target(n, h[g][n], h[l], f) == Some(Running)
  }

  /** One reconcile. It read the object in snapshot `g` and the list in snapshot `l`; the server may
      have moved on since. One that starts the item creates the Job first, or finds it there, and ends
      if that call does not work. Then its effect is the queue's status write, or none;
      LeftAlone(ATTEMPTS) says that it made no attempt: the object is gone, nothing is to be written,
      or the Job could not be created. */
  method Reconcile(server: ApiServer, n: string, g: nat, l: nat, all: seq<(string, Item)>, f: Facts,
                   works: bool, tries: seq<Attempt>)
    returns (r: Outcome)
    requires server.Valid() && Attempts(server.log, tries)
    requires g <= l < |server.log| && Lists(all, server.log[l])
    modifies server
    ensures server.Valid()
    ensures r.Wrote? ==>
              && r.at < ATTEMPTS && |server.log| == |tries[r.at].log| + 1
              && server.log[..|tries[r.at].log|] == tries[r.at].log
              && StatusWrite(tries[r.at].log, server.log[|tries[r.at].log|], n, g, l, f)
    ensures !r.Wrote? ==> server.log == old(server.log) || exists k :: 0 <= k < ATTEMPTS && server.log == tries[k].log
    ensures r.Wrote? && !old(server.log)[g][n].scheduled && old(server.log)[g][n].phase == Running
            && old(server.log)[g][n].jobName != "" ==>
              && var phase := server.log[|server.log| - 1][n].phase;
              && (phase == Succeeded <==> f.job == JobComplete)
              && (phase == Failed <==> f.job == JobFailed || f.job == JobMissing(false))
    ensures n in old(server.log)[g] && r == LeftAlone(ATTEMPTS) ==>
              || Target(n, old(server.log)[g][n], old(server.log)[l], f) == None
              || (Starts(old(server.log), n, g, l, f) && !works)
    ensures server.jobs == old(server.jobs) + if Starts(old(server.log), n, g, l, f) && works then {n + "-run"} else {}
    ensures server.jobs != old(server.jobs) ==> Launches(old(server.log), n, |old(server.log)| - 1, g, l, f)
    ensures r.Wrote? && Starts(old(server.log), n, g, l, f) ==> n + "-run" in server.jobs
  {
    if n !in server.log[g] {
      return LeftAlone(ATTEMPTS);
    }
    var target := Decide(n, server.log[g][n], all, server.log[l], f);
    if target == None {
      return LeftAlone(ATTEMPTS);
    }
    ghost var h := server.log;
    if target == Some(Running) {
      if !works {
        return LeftAlone(ATTEMPTS);
      }
      server.jobs := server.jobs + {n + "-run"};
    }
    r := WriteStatus(server, n, target.value, tries);
    if r.Wrote? {
      assert h <= tries[r.at].log;
      assert tries[r.at].log[g] == h[g] && tries[r.at].log[l] == h[l];
    }
  }

  /** A write that a reconcile brings about continues a run of the queue. */
  lemma WriteContinuesRun(h: History, events: seq<Event>, s: Snapshot, n: string, g: nat, l: nat, f: Facts)
    requires Run(h, events) && StatusWrite(h, s, n, g, l, f)
    ensures Run(h + [s], events + [Write(n, g, l, f)])
    ensures Versioned(h + [s])
  {
    var h2, events2 := h + [s], events + [Write(n, g, l, f)];
    Extends(h, events, Write(n, g, l, f), s);
    RunIsVersioned(h2, events2, |events2|);
    assert h2[..|events2| + 1] == h2;
  }
}
