/** The queue that runs upgrades, and one-shot backups, one at a time per instance.

    Both kinds follow the same protocol: a reconcile reads its object and the list of its siblings
    from a cache that may lag behind the API server, decides, and writes the status with optimistic
    concurrency. The server is its history of snapshots: a read is an earlier snapshot, and every
    write appends one. An upgrade is an item whose `scheduled` is false. */
module Queue {
  import opened Options
  import opened Text

  datatype Phase = NoPhase | Pending | Running | Succeeded | Failed | Scheduled

  /** `version` is the resourceVersion: the number of the snapshot the object was last written in. */
  datatype Item = Item(instance: string, created: int, scheduled: bool, phase: Phase, jobName: string, version: nat)

  type Snapshot = map<string, Item>
  type History = seq<Snapshot>

  predicate Terminal(p: Phase) {
    p.Succeeded? || p.Failed?
  }

  /** Creation time, then name. */
  predicate Older(m: string, a: Item, n: string, b: Item) {
    if a.created != b.created then a.created < b.created else Less(m, n)
  }

  /** The sibling `m` holds the instance, or is queued ahead of `n`. */
  predicate Blocks(n: string, item: Item, m: string, other: Item) {
    && m != n && other.instance == item.instance && !other.scheduled
    && (other.phase.Running? || ((other.phase.NoPhase? || other.phase.Pending?) && Older(m, other, n, item)))
  }

  ghost predicate MayStart(n: string, item: Item, list: Snapshot) {
    forall m :: m in list ==> !Blocks(n, item, m, list[m])
  }

  // ---- The decision ------------------------------------------------------------------------

  datatype Decision = Decision(mayStart: bool, blockedBy: string)

  /** The first sibling in list order that blocks, if any. */
  method DecideStart(n: string, item: Item, all: seq<(string, Item)>) returns (d: Decision)
    ensures d.mayStart <==> forall i :: 0 <= i < |all| ==> !Blocks(n, item, all[i].0, all[i].1)
    ensures d.mayStart ==> d.blockedBy == ""
    ensures !d.mayStart ==>
              exists i :: 0 <= i < |all| && d.blockedBy == all[i].0 && Blocks(n, item, all[i].0, all[i].1)
                          && forall k :: 0 <= k < i ==> !Blocks(n, item, all[k].0, all[k].1)
  {
    for i := 0 to |all|
      invariant forall k :: 0 <= k < i ==> !Blocks(n, item, all[k].0, all[k].1)
    {
      var (m, other) := all[i];
      if m == n || other.instance != item.instance || other.scheduled {
        continue;
      }
      match other.phase {
        case Running => return Decision(false, m);
        case NoPhase => if Older(m, other, n, item) { return Decision(false, m); }
        case Pending => if Older(m, other, n, item) { return Decision(false, m); }
        case _ =>
      }
    }
    return Decision(true, "");
  }

  lemma OlderIsStrictTotal(m: string, a: Item, n: string, b: Item)
    ensures !Older(m, a, m, a)
    ensures Older(m, a, n, b) ==> !Older(n, b, m, a)
    ensures m != n ==> Older(m, a, n, b) || Older(n, b, m, a)
  {
    LessIrreflexive(m);
    LessTotal(m, n);
    if Less(m, n) {
      LessAsymmetric(m, n);
    }
  }

  lemma OlderIsTransitive(l: string, a: Item, m: string, b: Item, n: string, c: Item)
    requires Older(l, a, m, b) && Older(m, b, n, c)
    ensures Older(l, a, n, c)
  {
    if a.created == b.created && b.created == c.created {
      LessTransitive(l, m, n);
    }
  }

  // ---- The steps ---------------------------------------------------------------------------

  /** What a reconcile finds outside the queue: the spec is valid, the instance exists, a database
      is configured (and, for a schedule, its CronJob is accepted), and the state of the item's own
      Job. */
  datatype JobState = JobMissing(grace: bool) | JobActive | JobComplete | JobFailed
  datatype Facts = Facts(valid: bool, instanceFound: bool, database: bool, job: JobState)

  /** The phase a reconcile of `own` tries to write, None for a pass that writes nothing. `list` is
      the sibling list it read. */
  ghost function Target(n: string, own: Item, list: Snapshot, f: Facts): Option<Phase> {
    if own.scheduled then
      if !f.valid then Some(Failed) else if !f.instanceFound then Some(Pending)
      else if !f.database then Some(Failed) else Some(Scheduled)
    else if Terminal(own.phase) then None
    else if own.phase.Running? && own.jobName != "" then
      match f.job
      case JobMissing(grace) => if grace then None else Some(Failed)
      case JobActive => None
      case JobComplete => Some(Succeeded)
      case JobFailed => Some(Failed)
    else if !f.valid then Some(Failed)
    else if !f.instanceFound then Some(Pending)
    else if !MayStart(n, own, list) then Some(Pending)
    else if !f.database then Some(Failed)
    else Some(Running)
  }

  /** The guards of the status write, checked on the copy that is written back. */
  predicate Guarded(cur: Item, target: Phase) {
    (!cur.scheduled && Terminal(cur.phase)) || (target.Pending? && cur.phase.Running?)
  }

  function Written(n: string, cur: Item, target: Phase, version: nat): Item {
    cur.(phase := target, jobName := if target.Running? then n + "-run" else cur.jobName, version := version)
  }

  /** A reconcile that read its object from snapshot `g` and the list from snapshot `l` (the cache
      never goes back in time) writes the status of the object as it is now. */
  ghost predicate StatusWrite(h: History, s: Snapshot, n: string, g: nat, l: nat, f: Facts)
    requires h != []
  {
    var now := h[|h| - 1];
    && g <= l < |h| && n in h[g] && n in now
    && Target(n, h[g][n], h[l], f).Some?
    && !Guarded(now[n], Target(n, h[g][n], h[l], f).value)
    && s == now[n := Written(n, now[n], Target(n, h[g][n], h[l], f).value, |h|)]
  }

  /** A new object, under a name that was never used before. */
  ghost predicate Creation(h: History, s: Snapshot, n: string, item: Item)
    requires h != []
  {
    && (forall i :: 0 <= i < |h| ==> n !in h[i])
    && item.phase.NoPhase? && item.jobName == "" && item.version == |h|
    && s == h[|h| - 1][n := item]
  }

  /** The new object sorts after every one-shot sibling there ever was. */
  ghost predicate InOrder(h: History, n: string, item: Item) {
    forall i, m :: 0 <= i < |h| && m in h[i] && h[i][m].instance == item.instance && !h[i][m].scheduled && !item.scheduled ==>
      Older(m, h[i][m], n, item)
  }

  ghost predicate Deletion(h: History, s: Snapshot, n: string)
    requires h != []
  {
    n in h[|h| - 1] && s == h[|h| - 1] - {n}
  }

  /** Any other write of the object: conditions filled in later, labels, an edited schedule. */
  ghost predicate Touching(h: History, s: Snapshot, n: string)
    requires h != []
  {
    n in h[|h| - 1] && s == h[|h| - 1][n := h[|h| - 1][n].(version := |h|)]
  }

  datatype Event = Create(n: string, item: Item) | Delete(n: string) | Touch(n: string) | Write(n: string, g: nat, l: nat, f: Facts)

  ghost predicate Happens(h: History, s: Snapshot, e: Event)
    requires h != []
  {
    match e
    case Create(n, item) => Creation(h, s, n, item)
    case Delete(n) => Deletion(h, s, n)
    case Touch(n) => Touching(h, s, n)
    case Write(n, g, l, f) => StatusWrite(h, s, n, g, l, f)
  }

  ghost predicate HappensAt(h: History, events: seq<Event>, i: nat)
    requires i < |events| && |h| == |events| + 1
  {
    Happens(h[..i + 1], h[i + 1], events[i])
  }

  /** A run of the system from an empty server: the snapshots and the events between them. */
  ghost predicate Run(h: History, events: seq<Event>) {
    && |h| == |events| + 1 && h[0] == map[]
    && forall i :: 0 <= i < |events| ==> HappensAt(h, events, i)
  }

  /** Every creation is in (timestamp, name) order. */
  ghost predicate CreatedInOrder(h: History, events: seq<Event>)
    requires |h| == |events| + 1
  {
    forall i :: 0 <= i < |events| && events[i].Create? ==> InOrder(h[..i + 1], events[i].n, events[i].item)
  }

  /** Every read returns the snapshot of the moment. */
  ghost predicate FreshReads(events: seq<Event>) {
    forall i :: 0 <= i < |events| && events[i].Write? ==> events[i].g == i && events[i].l == i
  }

  ghost predicate SameQueue(a: Item, b: Item) {
    a.instance == b.instance && !a.scheduled && !b.scheduled
  }

  ghost predicate OneRunning(s: Snapshot) {
    forall m, n :: m in s && n in s && m != n && SameQueue(s[m], s[n]) ==> !(s[m].phase.Running? && s[n].phase.Running?)
  }
}
