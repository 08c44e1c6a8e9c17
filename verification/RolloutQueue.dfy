/** The rollout together with the queue that runs its upgrades: what the pods see goes back to a Job
    that ran to its end. */
module RolloutQueue {
  import opened Queue
  import opened QueueRuns
  import opened Gate
  import opened Rollout
  import opened RolloutSafety
  import opened RolloutInit

  /** The upgrades in the worlds are those of a run of the queue: `at[k]` is the snapshot of the queue
      that world `k` shows. */
  ghost predicate Queued(ws: seq<World>, h: Queue.History, at: seq<nat>) {
    && |at| == |ws|
    && (forall k :: 0 <= k < |ws| ==> at[k] < |h| && ws[k].upgrades == h[at[k]])
    && (forall i, k :: 0 <= i <= k < |ws| ==> at[i] <= at[k])
  }

  /** A pass of the queue found the upgrade named after this revision Running and its Job complete,
      before snapshot `n` of the queue. */
  ghost predicate RanToItsEnd(h: Queue.History, events: seq<Queue.Event>, me: string, hash: string, n: nat) {
    |hash| >= HASH_PREFIX && exists j :: 0 <= j < |events| && JobSeen(h, events, UpgradeName(me, hash), j) && j < n
  }

  ghost predicate JobSeen(h: Queue.History, events: seq<Queue.Event>, name: string, j: nat)
    requires j < |events|
  {
    && events[j].Write? && events[j].n == name && events[j].f.job.JobComplete?
    && events[j].g < |h| && name in h[events[j].g] && h[events[j].g][name].phase.Running?
  }

  /** The revision was current in a pass with the gate open, or its upgrade's Job ran to its end. */
  ghost predicate Earned(ws: seq<World>, me: string, events: seq<Rollout.Event>, h: Queue.History,
                         moves: seq<Queue.Event>, at: seq<nat>, hash: string, k: nat)
    requires k <= |events| < |ws| && k < |at|
  {
    Baseline(ws, me, events, hash, k) || RanToItsEnd(h, moves, me, hash, at[k])
  }

  lemma ApprovedIsEarned(ws: seq<World>, me: string, events: seq<Rollout.Event>, h: Queue.History,
                         moves: seq<Queue.Event>, at: seq<nat>, hash: string, k: nat)
    requires Queue.Run(h, moves) && Queued(ws, h, at) && OnlyUpgrades(ws)
    requires k <= |events| < |ws| && Approved(ws, me, events, hash, k)
    ensures Earned(ws, me, events, h, moves, at, hash, k)
  {
    if !Baseline(ws, me, events, hash, k) {
      var t :| 0 <= t <= k && UpgradeDone(ws[t], me, hash);
      var j := SucceededHadItsJob(h, moves, at[t], UpgradeName(me, hash));
      assert JobSeen(h, moves, UpgradeName(me, hash), j) && j < at[t] <= at[k];
    }
  }

  /** In every run of the rollout whose upgrades move as in a run of the queue: every revision stamped
      on the web or cron pods, or recorded as applied, was current in a pass with the gate open, or
      some pass of the queue had found its upgrade Running and its Job complete by then. */
  lemma PodsOnlySeeEarned(ws: seq<World>, me: string, events: seq<Rollout.Event>, h: Queue.History,
                          moves: seq<Queue.Event>, at: seq<nat>, k: nat)
    requires Rollout.Run(ws, me, events) && Queue.Run(h, moves) && Queued(ws, h, at) && OnlyUpgrades(ws) && k <= |events|
    ensures ws[k].web.Some? ==> Earned(ws, me, events, h, moves, at, ws[k].web.value.addons, k)
    ensures ws[k].cron.Some? ==> Earned(ws, me, events, h, moves, at, ws[k].cron.value.addons, k)
    ensures ws[k].inst.applied != "" ==> Earned(ws, me, events, h, moves, at, ws[k].inst.applied, k)
  {
    GateHolds(ws, me, events, k);
    if ws[k].web.Some? {
      ApprovedIsEarned(ws, me, events, h, moves, at, ws[k].web.value.addons, k);
    }
    if ws[k].cron.Some? {
      ApprovedIsEarned(ws, me, events, h, moves, at, ws[k].cron.value.addons, k);
    }
    if ws[k].inst.applied != "" {
      ApprovedIsEarned(ws, me, events, h, moves, at, ws[k].inst.applied, k);
    }
  }

  /** No pod before a Job: with spec.initialize kept, whatever serves was preceded by a pass of the
      queue that found the Job of the initialisation complete. */
  lemma ServesAfterInitJob(ws: seq<World>, me: string, events: seq<Rollout.Event>, h: Queue.History,
                           moves: seq<Queue.Event>, at: seq<nat>, k: nat) returns (j: nat)
    requires Rollout.Run(ws, me, events) && Queue.Run(h, moves) && Queued(ws, h, at) && OnlyUpgrades(ws)
    requires InitializeKept(ws) && k <= |events| && Serving(ws[k])
    ensures j < |moves| && j < at[k] && JobSeen(h, moves, InitName(me), j)
  {
    NothingServesBefore(ws, me, events, k);
    var t :| 0 <= t <= k && InitDone(ws[t], me);
    j := SucceededHadItsJob(h, moves, at[t], InitName(me));
  }

  // ---- Such runs go on ---------------------------------------------------------------------

  lemma QueuedMore(ws: seq<World>, h: Queue.History, at: seq<nat>, w: World, more: Queue.History)
    requires Queued(ws, h, at) && h <= more && more != [] && w.upgrades == more[|more| - 1]
    ensures Queued(ws + [w], more, at + [|more| - 1])
  {
  }

  /** Whatever the queue does next continues such a run, as a move from outside. */
  lemma QueueGoesOn(ws: seq<World>, me: string, events: seq<Rollout.Event>, h: Queue.History,
                    moves: seq<Queue.Event>, at: seq<nat>, s: Snapshot, e: Queue.Event)
    requires Rollout.Run(ws, me, events) && Queue.Run(h, moves) && Queued(ws, h, at)
    requires ws[|events|].upgrades == h[|moves|] && Queue.Happens(h, s, e)
    ensures var w := ws[|events|].(upgrades := s);
            && Rollout.Run(ws + [w], me, events + [External(w)]) && Queue.Run(h + [s], moves + [e])
            && Queued(ws + [w], h + [s], at + [|h|])
  {
    var w := ws[|events|].(upgrades := s);
    QueueMovesOutside(h, moves, s, e, ws[|events|], |ws|);
    RolloutSafety.Extends(ws, me, events, w, External(w));
    QueueRuns.Extends(h, moves, e, s);
    QueuedMore(ws, h, at, w, h + [s]);
  }

  /** An upgrade that a pass creates is a creation of the queue, if its name was never used before. */
  lemma PassCreates(ws: seq<World>, me: string, events: seq<Rollout.Event>, h: Queue.History,
                    moves: seq<Queue.Event>, at: seq<nat>, e: Rollout.Event, name: string, item: Item)
    requires Rollout.Run(ws, me, events) && Queue.Run(h, moves) && Queued(ws, h, at)
    requires ws[|events|].upgrades == h[|moves|] && (e.EnsureInit? || e.EnsureGate?)
    requires item.phase.NoPhase? && item.jobName == "" && item.version == |h| && forall i :: 0 <= i < |h| ==> name !in h[i]
    requires var w := ws[|events|]; Rollout.Happens(ws, me, w.(upgrades := w.upgrades[name := item]), e)
    ensures var w := ws[|events|]; var to, s := w.(upgrades := w.upgrades[name := item]), h[|moves|][name := item];
            && Rollout.Run(ws + [to], me, events + [e]) && Queue.Run(h + [s], moves + [Create(name, item)])
            && Queued(ws + [to], h + [s], at + [|h|])
  {
    var w := ws[|events|];
    var to, s := w.(upgrades := w.upgrades[name := item]), h[|moves|][name := item];
    RolloutSafety.Extends(ws, me, events, to, e);
    QueueRuns.Extends(h, moves, Create(name, item), s);
    QueuedMore(ws, h, at, to, h + [s]);
  }
}
