/** The sync state machine of an OdooAddon: what one pass decides from the spec, the sync Job, the
    status and the clock, and the steps of the passes, the Job and the spec edits around them. */
module AddonSync {
  import opened Options
  import opened AddonConditions

  const RESYNC := 300
  const BACKOFF := 30
  const STALE_REQUEUE := 2
  const CREATE_REQUEUE := 5
  const AWAIT_REQUEUE := 30

  // ---- The decision ------------------------------------------------------------------------

  datatype Action =
    | InvalidSpec | JobConflict | DeleteStaleJob | RecordSuccess | RecordFailure
    | AwaitJob | Cooldown | SkipResync | CreateJob

  datatype JobFacts = JobFacts(found: bool, controlled: bool, specHash: string, succeeded: bool, failed: bool)

  datatype SyncInput = SyncInput(specErr: string, specHash: string, job: JobFacts, phase: Phase,
                                 lastSyncTime: Option<int>, skipResync: bool, now: int)

  datatype Decision = Decision(action: Action, phase: Option<Phase>, message: string, deleteJob: bool, requeue: int)

  function SyncingPhaseFor(current: Phase): Option<Phase> {
    if current.Synced? then None else Some(Syncing)
  }

  /** The Job is this addon's, built from the spec at hand. */
  predicate Current(i: SyncInput) {
    i.job.found && i.job.controlled && i.job.specHash == i.specHash
  }

  function Interval(phase: Phase): int {
    if phase.Failed? then BACKOFF else RESYNC
  }

  predicate Cooling(i: SyncInput) {
    i.lastSyncTime.Some? && i.now - i.lastSyncTime.value < Interval(i.phase)
  }

  function DecideSync(i: SyncInput): (d: Decision)
    ensures d.requeue > 0
    ensures d.deleteJob ==> i.job.found && i.job.controlled
    ensures d.action.RecordSuccess? <==> i.specErr == "" && Current(i) && i.job.succeeded
    ensures d.action.RecordFailure? <==> i.specErr == "" && Current(i) && i.job.failed && !i.job.succeeded
    ensures d.action.DeleteStaleJob? <==> i.specErr == "" && i.job.found && i.job.controlled && i.job.specHash != i.specHash
    ensures d.action.AwaitJob? <==> i.specErr == "" && Current(i) && !i.job.succeeded && !i.job.failed
    ensures d.action.Cooldown? ==> i.lastSyncTime.Some? && i.now + d.requeue == i.lastSyncTime.value + Interval(i.phase)
    ensures d.action.CreateJob? <==> i.specErr == "" && !i.job.found && !Cooling(i) && !i.skipResync
    ensures i.phase.Synced? && d.phase.Some? ==> d.phase == Some(Synced) || d.phase == Some(Failed)
  {
    if i.specErr != "" then
      Decision(InvalidSpec, Some(Failed), i.specErr, i.job.found && i.job.controlled, BACKOFF)
    else if i.job.found then
      if !i.job.controlled then Decision(JobConflict, Some(Failed), "job name conflict", false, BACKOFF)
      else if i.job.specHash != i.specHash then Decision(DeleteStaleJob, None, "", true, STALE_REQUEUE)
      else if i.job.succeeded then Decision(RecordSuccess, Some(Synced), "", true, RESYNC)
      else if i.job.failed then Decision(RecordFailure, Some(Failed), "", true, BACKOFF)
      else Decision(AwaitJob, SyncingPhaseFor(i.phase), "", false, AWAIT_REQUEUE)
    else if Cooling(i) then
      Decision(Cooldown, None, "", false, Interval(i.phase) - (i.now - i.lastSyncTime.value))
    else if i.skipResync then
      Decision(SkipResync, None, "", false, RESYNC)
    else
      Decision(CreateJob, SyncingPhaseFor(i.phase), "", false, CREATE_REQUEUE)
  }

  // ---- The addon, its Job, and what a pass reads -------------------------------------------

  datatype AddonSpec = AddonSpec(url: string, ref: string, path: string, moduleName: string, single: bool,
                                 secret: string, instance: string, instanceNamespace: string)

  datatype SyncSpec = SyncSpec(url: string, ref: string, path: string, moduleName: string, single: bool,
                               secret: string, addon: string)

  /** `hash` stands for the spec hash on the Jobs and `check` for the validators; an empty text
      means valid. */
  datatype Rules = Rules(name: string, namespace: string, hash: SyncSpec -> string, check: SyncSpec -> string)

  function Ref(spec: AddonSpec): string {
    if spec.ref == "" then "main" else spec.ref
  }

  function Resolve(rules: Rules, spec: AddonSpec): SyncSpec {
    SyncSpec(spec.url, Ref(spec), spec.path, if spec.moduleName == "" then rules.name else spec.moduleName,
             spec.single, spec.secret, rules.name)
  }

  predicate IsCommit(ref: string) {
    |ref| == 40 && forall c :: c in ref ==> '0' <= c <= '9' || 'a' <= c <= 'f'
  }

  /** Pinned to the commit that is already synced. */
  predicate Pinned(spec: AddonSpec, s: Status) {
    IsCommit(Ref(spec)) && s.phase.Synced? && s.clonedCommit == Ref(spec) && s.modules != []
  }

  /** The claim that the addons of an instance are mounted from. */
  function VolumeOf(spec: AddonSpec): string {
    spec.instance + "-addons"
  }

  /** `built` is the spec the Job's script was written for and `volume` the claim it mounts, which is
      not part of the hash; `output` is what its log says. */
  datatype Job = Job(uid: nat, owned: bool, specHash: string, built: SyncSpec, volume: string, succeeded: bool,
                     failed: bool, output: Option<(string, seq<string>)>)

  function NewJob(rules: Rules, spec: AddonSpec, uid: nat): Job {
    Job(uid, true, rules.hash(Resolve(rules, spec)), Resolve(rules, spec), VolumeOf(spec), false, false, None)
  }

  datatype World = World(spec: AddonSpec, generation: int, status: Status, version: nat, job: Option<Job>)

  /** What a pass read: the snapshots of the addon and of the Job, the instance and its volume, the
      clock, whether the log could be read, and the failure texts. */
  datatype Reads = Reads(addon: nat, job: nat, found: bool, bound: bool, now: int, logs: bool,
                         reason: string, msg: string)

  ghost predicate ReadBefore(r: Reads, n: nat) {
    r.addon < n && r.job < n
  }

  function Observe(job: Option<Job>): JobFacts {
    match job
    case None => JobFacts(false, false, "", false, false)
    case Some(j) => JobFacts(true, j.owned, j.specHash, j.succeeded, j.failed)
  }

  function DecisionOf(ws: seq<World>, rules: Rules, r: Reads): Decision
    requires ReadBefore(r, |ws|)
  {
    var a := ws[r.addon];
    var s := Resolve(rules, a.spec);
    var err := rules.check(s);
    DecideSync(SyncInput(err, if err == "" then rules.hash(s) else "", Observe(ws[r.job].job), a.status.phase,
                         a.status.lastSyncTime, Pinned(a.spec, a.status), r.now))
  }

  /** The pass ends before it looks at the Job. */
  function Precheck(rules: Rules, spec: AddonSpec, r: Reads): Option<Write> {
    if spec.instanceNamespace != "" && spec.instanceNamespace != rules.namespace then
      Some(Fail("InvalidSpec", "cross-namespace instanceRef is not supported"))
    else if spec.instance == "" then
      Some(Park("InstanceNotFound", "spec.instanceRef.name is empty"))
    else if !r.found then
      Some(Park("InstanceNotFound",
                "OdooInstance \"" + spec.instance + "\" not found in namespace \"" + rules.namespace + "\""))
    else if !r.bound then
      Some(Park("VolumeNotBound", "addons PVC \"" + VolumeOf(spec) + "\" is not Bound yet"))
    else None
  }

  function ShowPhase(phase: Option<Phase>): Write {
    if phase == None then Keep else Sync
  }

  /** The status write of the pass, None for the pass that only deletes a stale Job. */
  function WriteOf(ws: seq<World>, rules: Rules, r: Reads): Option<Write>
    requires ReadBefore(r, |ws|)
  {
    var early := Precheck(rules, ws[r.addon].spec, r);
    if early.Some? then early
    else
      var d := DecisionOf(ws, rules, r);
      match d.action
      case InvalidSpec => Some(Fail("InvalidSpec", d.message))
      case JobConflict => Some(Fail("JobConflict", d.message))
      case DeleteStaleJob => None
      case RecordSuccess =>
        var job := ws[r.job].job.value;
        Some(if r.logs && job.output.Some? && job.output.value.0 != ""
             then Success(job.output.value.0, job.output.value.1) else Failure("SyncFailed", r.msg))
      case RecordFailure => Some(Failure(r.reason, r.msg))
      case _ => Some(ShowPhase(d.phase))
  }

  ghost predicate Deletes(ws: seq<World>, rules: Rules, r: Reads)
    requires ReadBefore(r, |ws|)
  {
    Precheck(rules, ws[r.addon].spec, r) == None && DecisionOf(ws, rules, r).deleteJob
  }

  ghost predicate Creates(ws: seq<World>, rules: Rules, r: Reads)
    requires ReadBefore(r, |ws|)
  {
    Precheck(rules, ws[r.addon].spec, r) == None && DecisionOf(ws, rules, r).action.CreateJob?
  }

  // ---- The steps ---------------------------------------------------------------------------

  datatype Event = External(to: World) | WriteStatus(r: Reads) | DeleteJob(r: Reads) | StartJob(r: Reads)

  /** The Job has failed for good. */
  predicate Lost(j: Job) {
    j.failed && !j.succeeded
  }

  /** One Job at two moments: what it was created with stays, its end and its output stay. */
  predicate SameJob(a: Job, b: Job) {
    && a.uid == b.uid && a.owned == b.owned && a.specHash == b.specHash && a.built == b.built && a.volume == b.volume
    && (a.succeeded ==> b.succeeded) && (Lost(a) ==> Lost(b)) && (a.output.Some? ==> b.output == a.output)
  }

  /** A Job runs on, is removed by somebody else, or a foreign one takes the free name. */
  ghost predicate JobMoves(from: Option<Job>, to: Option<Job>, now: nat) {
    match to
    case None => true
    case Some(j) =>
      if from.Some? && from.value.uid == j.uid then
        SameJob(from.value, j)
      else j.uid == now && !j.owned
  }

  ghost predicate Outside(from: World, to: World, now: nat) {
    && to.status == from.status && JobMoves(from.job, to.job, now)
    && (to == from.(job := to.job) || to.version == now)
  }

  ghost predicate Happens(ws: seq<World>, rules: Rules, to: World, e: Event)
    requires ws != []
  {
    var from := ws[|ws| - 1];
    match e
    case External(w) => to == w && Outside(from, to, |ws|)
    case WriteStatus(r) =>
      && ReadBefore(r, |ws|) && WriteOf(ws, rules, r).Some?
      && ws[r.addon].version == from.version
      && to == from.(status := Apply(ws[r.addon].status, WriteOf(ws, rules, r).value, ws[r.addon].generation, r.now),
                     version := |ws|)
    case DeleteJob(r) =>
      && ReadBefore(r, |ws|) && Deletes(ws, rules, r)
      && to == (if from.job.Some? && from.job.value.uid == ws[r.job].job.value.uid then from.(job := None) else from)
    case StartJob(r) =>
      && ReadBefore(r, |ws|) && Creates(ws, rules, r)
      && to == if from.job.Some? then from else from.(job := Some(NewJob(rules, ws[r.addon].spec, |ws|)))
  }

  const NEW_STATUS := Status(false, NoPhase, "", None, [], "", [])

  ghost predicate HappensAt(ws: seq<World>, rules: Rules, events: seq<Event>, i: nat)
    requires i < |events| && |ws| == |events| + 1
  {
    Happens(ws[..i + 1], rules, ws[i + 1], events[i])
  }

  /** A run from the creation of the addon. A Job of its name may already be there, but not its own. */
  ghost predicate Run(ws: seq<World>, rules: Rules, events: seq<Event>) {
    && |ws| == |events| + 1
    && ws[0].status == NEW_STATUS && ws[0].version == 0
    && (ws[0].job.Some? ==> !ws[0].job.value.owned && ws[0].job.value.uid == 0)
    && forall i :: 0 <= i < |events| ==> HappensAt(ws, rules, events, i)
  }

  /** Different specs have different hashes. */
  ghost predicate HashTellsApart(rules: Rules) {
    forall a, b :: rules.hash(a) == rules.hash(b) ==> a == b
  }
}
