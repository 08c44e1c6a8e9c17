/** The status of an OdooAddon and its conditions: what each status write leaves behind, and that
    writing the same facts again leaves nothing new. */
module AddonConditions {
  import opened Options
  import opened Text

  datatype Phase = NoPhase | Pending | Syncing | Synced | Failed

  datatype Truth = True | False

  /** `since` is the LastTransitionTime. */
  datatype Condition = Condition(kind: string, status: Truth, reason: string, message: string, generation: int, since: int)

  datatype Wanted = Wanted(kind: string, status: Truth, reason: string, message: string)

  datatype Status = Status(ready: bool, phase: Phase, clonedCommit: string, lastSyncTime: Option<int>,
                           modules: seq<string>, message: string, conditions: seq<Condition>)

  const READY := "Ready"
  const PROGRESSING := "Progressing"
  const DEGRADED := "Degraded"

  // ---- The condition list ------------------------------------------------------------------

  /** Where the first condition of the kind is, or the length of the list. */
  function Find(conds: seq<Condition>, kind: string): (i: nat)
    ensures i <= |conds| && (i < |conds| ==> conds[i].kind == kind)
    ensures forall k :: 0 <= k < i ==> conds[k].kind != kind
  {
    if conds == [] || conds[0].kind == kind then 0 else 1 + Find(conds[1..], kind)
  }

  /** Reason, message and generation always follow; the time moves only when the status flips. */
  function Set(conds: seq<Condition>, w: Wanted, gen: int, now: int): seq<Condition> {
    var i := Find(conds, w.kind);
    if i == |conds| then conds + [Condition(w.kind, w.status, w.reason, w.message, gen, now)]
    else conds[i := Condition(w.kind, w.status, w.reason, w.message, gen,
                              if conds[i].status == w.status then conds[i].since else now)]
  }

  function SetAll(conds: seq<Condition>, want: seq<Wanted>, gen: int, now: int): seq<Condition> {
    if want == [] then conds
    else Set(SetAll(conds, want[..|want| - 1], gen, now), want[|want| - 1], gen, now)
  }

  /** The list already says it. */
  predicate Says(conds: seq<Condition>, w: Wanted, gen: int) {
    var i := Find(conds, w.kind);
    i < |conds| && conds[i].status == w.status && conds[i].reason == w.reason && conds[i].message == w.message
    && conds[i].generation == gen
  }

  lemma FindIsFirst(conds: seq<Condition>, kind: string, i: nat)
    requires i < |conds| && conds[i].kind == kind && forall k :: 0 <= k < i ==> conds[k].kind != kind
    ensures Find(conds, kind) == i
  {
    assert !(Find(conds, kind) < i);
  }

  lemma SetSays(conds: seq<Condition>, w: Wanted, gen: int, now: int)
    ensures Says(Set(conds, w, gen, now), w, gen)
    ensures Says(conds, w, gen) ==> Set(conds, w, gen, now) == conds
  {
    FindIsFirst(Set(conds, w, gen, now), w.kind, Find(conds, w.kind));
  }

  lemma SetKeepsOthers(conds: seq<Condition>, w: Wanted, v: Wanted, gen: int, now: int)
    requires v.kind != w.kind && Says(conds, v, gen)
    ensures Says(Set(conds, w, gen, now), v, gen)
  {
    FindIsFirst(Set(conds, w, gen, now), v.kind, Find(conds, v.kind));
  }

  ghost predicate Distinct(want: seq<Wanted>) {
    forall i, j :: 0 <= i < j < |want| ==> want[i].kind != want[j].kind
  }

  ghost predicate SaysAll(conds: seq<Condition>, want: seq<Wanted>, gen: int) {
    forall i :: 0 <= i < |want| ==> Says(conds, want[i], gen)
  }

  lemma SetKeepsAll(conds: seq<Condition>, w: Wanted, vs: seq<Wanted>, gen: int, now: int)
    requires SaysAll(conds, vs, gen) && forall i :: 0 <= i < |vs| ==> vs[i].kind != w.kind
    ensures SaysAll(Set(conds, w, gen, now), vs, gen)
  {
    forall i | 0 <= i < |vs| ensures Says(Set(conds, w, gen, now), vs[i], gen) {
      SetKeepsOthers(conds, w, vs[i], gen, now);
    }
  }

  lemma SaysOneMore(conds: seq<Condition>, want: seq<Wanted>, gen: int)
    requires want != [] && SaysAll(conds, want[..|want| - 1], gen) && Says(conds, want[|want| - 1], gen)
    ensures SaysAll(conds, want, gen)
  {
    forall i | 0 <= i < |want| ensures Says(conds, want[i], gen) {
      assert i < |want| - 1 ==> want[..|want| - 1][i] == want[i];
    }
  }

  lemma {:induction false} SetAllSays(conds: seq<Condition>, want: seq<Wanted>, gen: int, now: int)
    requires Distinct(want)
    ensures SaysAll(SetAll(conds, want, gen, now), want, gen)
  {
    if want != [] {
      var n := |want| - 1;
      var before := SetAll(conds, want[..n], gen, now);
      SetAllSays(conds, want[..n], gen, now);
      SetSays(before, want[n], gen, now);
      SetKeepsAll(before, want[n], want[..n], gen, now);
      SaysOneMore(SetAll(conds, want, gen, now), want, gen);
    }
  }

  lemma {:induction false} SaidAlready(conds: seq<Condition>, want: seq<Wanted>, gen: int, now: int)
    requires SaysAll(conds, want, gen)
    ensures SetAll(conds, want, gen, now) == conds
  {
    if want != [] {
      var n := |want| - 1;
      assert forall i :: 0 <= i < n ==> want[..n][i] == want[i];
      SaidAlready(conds, want[..n], gen, now);
      SetSays(conds, want[n], gen, now);
    }
  }

  // ---- What the conditions say -------------------------------------------------------------

  function ShortId(id: string): string {
    if |id| > 12 then id[..12] else id
  }

  function Or(s: string, default: string): string {
    if s == "" then default else s
  }

  function Explain(st: Status, reason: string, msg: string): (want: seq<Wanted>)
    ensures |want| == 3 && Distinct(want) && want[0].kind == READY
  {
    var ok := Wanted(DEGRADED, False, "AsExpected", "no sync errors");
    match st.phase
    case Synced => [
      Wanted(READY, True, "Synced",
             "synced commit " + ShortId(st.clonedCommit) + " with " + Decimal(|st.modules|) + " module(s)"),
      Wanted(PROGRESSING, False, "Synced", "no sync in progress"), ok]
    case Syncing => [
      Wanted(READY, False, "Syncing", "waiting for the sync Job"),
      Wanted(PROGRESSING, True, "Syncing", "sync Job is running"), ok]
    case Failed =>
      var r, m := Or(reason, "SyncFailed"), Or(msg, st.message);
      [Wanted(READY, False, r, m), Wanted(PROGRESSING, False, r, "not syncing; the operator retries"),
       Wanted(DEGRADED, True, r, m)]
    case Pending =>
      var r, m := Or(reason, "Pending"), Or(msg, "waiting for the instance");
      [Wanted(READY, False, r, m), Wanted(PROGRESSING, False, "Pending", m), ok]
    case NoPhase => [
      Wanted(READY, False, "Pending", "not reconciled yet"),
      Wanted(PROGRESSING, False, "Pending", "not reconciled yet"), ok]
  }

  function Kept(conds: seq<Condition>): (string, string) {
    var i := Find(conds, READY);
    if i == |conds| then ("", "") else (conds[i].reason, conds[i].message)
  }

  // ---- The status writes -------------------------------------------------------------------

  /** Which fields a write sets before the conditions are derived. */
  datatype Write =
    | Keep
    | Sync
    | Park(reason: string, msg: string)
    | Fail(reason: string, msg: string)
    | Success(commit: string, modules: seq<string>)
    | Failure(reason: string, msg: string)

  function Mutate(s: Status, w: Write, now: int): Status {
    match w
    case Keep => s
    case Sync => s.(phase := Syncing, message := "")
    case Park(_, _) => s.(phase := Pending, ready := false)
    case Fail(_, msg) =>
      s.(phase := Failed, ready := false, message := msg,
         lastSyncTime := if s.lastSyncTime == None then Some(now) else s.lastSyncTime)
    case Success(commit, modules) =>
      s.(phase := Synced, ready := true, clonedCommit := commit, modules := modules, message := "",
         lastSyncTime := Some(now))
    case Failure(_, msg) => s.(phase := Failed, ready := false, message := msg, lastSyncTime := Some(now))
  }

  function ReasonOf(s: Status, w: Write): (string, string) {
    match w
    case Keep => Kept(s.conditions)
    case Sync => ("", "")
    case Park(r, m) => (r, m)
    case Fail(r, m) => (r, m)
    case Success(_, _) => ("", "")
    case Failure(r, m) => (r, m)
  }

  function Apply(s: Status, w: Write, gen: int, now: int): Status {
    var t := Mutate(s, w, now);
    t.(conditions := SetAll(t.conditions, Explain(t, ReasonOf(s, w).0, ReasonOf(s, w).1), gen, now))
  }

  /** The conditions the status derives, from some reason and message, are the ones it has. */
  ghost predicate Told(s: Status, gen: int) {
    exists r, m :: SaysAll(s.conditions, Explain(s, r, m), gen)
  }

  lemma EveryWriteTells(s: Status, w: Write, gen: int, now: int)
    ensures Told(Apply(s, w, gen, now), gen)
  {
    var t := Mutate(s, w, now);
    var want := Explain(t, ReasonOf(s, w).0, ReasonOf(s, w).1);
    SetAllSays(t.conditions, want, gen, now);
    assert Explain(Apply(s, w, gen, now), ReasonOf(s, w).0, ReasonOf(s, w).1) == want;
  }

  lemma ExplainAgain(s: Status, r: string, m: string)
    ensures Explain(s, Explain(s, r, m)[0].reason, Explain(s, r, m)[0].message) == Explain(s, r, m)
  {
  }

  lemma KeptIsSaid(conds: seq<Condition>, want: seq<Wanted>, gen: int)
    requires want != [] && want[0].kind == READY && SaysAll(conds, want, gen)
    ensures Kept(conds) == (want[0].reason, want[0].message)
  {
    assert Says(conds, want[0], gen);
  }

  /** Feeding the kept reason and message back in rebuilds the same conditions, in every phase. */
  lemma KeepChangesNothing(s: Status, gen: int, now: int)
    requires Told(s, gen)
    ensures Apply(s, Keep, gen, now) == s
  {
    var r, m :| SaysAll(s.conditions, Explain(s, r, m), gen);
    KeptIsSaid(s.conditions, Explain(s, r, m), gen);
    ExplainAgain(s, r, m);
    SaidAlready(s.conditions, Explain(s, r, m), gen, now);
  }

  /** Whatever was written last, a pass that keeps the phase (cooldown, await, skip) writes nothing;
      so does a second pass that parks, fails or waits for the Job for the same reason. */
  lemma RepeatingWritesNothing(s: Status, w: Write, gen: int, now: int, later: int)
    ensures Apply(Apply(s, w, gen, now), Keep, gen, later) == Apply(s, w, gen, now)
    ensures !w.Success? && !w.Failure? ==> Apply(Apply(s, w, gen, now), w, gen, later) == Apply(s, w, gen, now)
  {
    var t := Apply(s, w, gen, now);
    EveryWriteTells(s, w, gen, now);
    KeepChangesNothing(t, gen, later);
    if !w.Success? && !w.Failure? && !w.Keep? {
      SameWriteSettles(s, w, gen, now, later);
    }
  }

  lemma ExplainAfter(s: Status, conds: seq<Condition>, r: string, m: string)
    ensures Explain(s.(conditions := conds), r, m) == Explain(s, r, m)
  {
  }

  lemma SameWriteSettles(s: Status, w: Write, gen: int, now: int, later: int)
    requires !w.Success? && !w.Failure? && !w.Keep?
    ensures Apply(Apply(s, w, gen, now), w, gen, later) == Apply(s, w, gen, now)
  {
    var t, u, said := Apply(s, w, gen, now), Mutate(s, w, now), ReasonOf(s, w);
    var want := Explain(u, said.0, said.1);
    SetAllSays(u.conditions, want, gen, now);
    assert Mutate(t, w, later) == t && ReasonOf(t, w) == said;
    ExplainAfter(u, t.conditions, said.0, said.1);
    SaidAlready(t.conditions, want, gen, later);
  }

  // ---- What anybody reads in the list ------------------------------------------------------

  /** The first condition of the type, which is the one that clients look at. */
  predicate IsFirst(conds: seq<Condition>, kind: string, i: nat) {
    i < |conds| && conds[i].kind == kind && forall k :: 0 <= k < i ==> conds[k].kind != kind
  }

  ghost predicate Holds(conds: seq<Condition>, kind: string) {
    exists i :: 0 <= i < |conds| && IsFirst(conds, kind, i) && conds[i].status == True
  }

  ghost predicate Denies(conds: seq<Condition>, kind: string) {
    exists i :: 0 <= i < |conds| && IsFirst(conds, kind, i) && conds[i].status == False
  }

  ghost predicate Explains(conds: seq<Condition>, kind: string, reason: string, message: string) {
    exists i :: 0 <= i < |conds| && IsFirst(conds, kind, i) && conds[i].reason == reason && conds[i].message == message
  }

  lemma OneFirst(conds: seq<Condition>, kind: string, i: nat, j: nat)
    requires IsFirst(conds, kind, i) && IsFirst(conds, kind, j)
    ensures i == j
  {
  }

  lemma SaidIsRead(conds: seq<Condition>, w: Wanted, gen: int)
    requires Says(conds, w, gen)
    ensures Holds(conds, w.kind) <==> w.status == True
    ensures Denies(conds, w.kind) <==> w.status == False
    ensures Explains(conds, w.kind, w.reason, w.message)
  {
    var i := Find(conds, w.kind);
    assert IsFirst(conds, w.kind, i);
    forall j | 0 <= j < |conds| && IsFirst(conds, w.kind, j) ensures j == i {
      OneFirst(conds, w.kind, i, j);
    }
  }

  /** After any write to any status, whatever conditions it had: Ready is True exactly in phase Synced,
      Progressing exactly in Syncing, Degraded exactly in Failed, and each is False otherwise. */
  lemma ConditionsAgree(s: Status, w: Write, gen: int, now: int)
    ensures var t := Apply(s, w, gen, now);
            && (Holds(t.conditions, "Ready") <==> t.phase == Synced) && (Denies(t.conditions, "Ready") <==> t.phase != Synced)
            && (Holds(t.conditions, "Progressing") <==> t.phase == Syncing)
            && (Denies(t.conditions, "Progressing") <==> t.phase != Syncing)
            && (Holds(t.conditions, "Degraded") <==> t.phase == Failed)
            && (Denies(t.conditions, "Degraded") <==> t.phase != Failed)
  {
    var u, t, said := Mutate(s, w, now), Apply(s, w, gen, now), ReasonOf(s, w);
    var want := Explain(u, said.0, said.1);
    SetAllSays(u.conditions, want, gen, now);
    SaidIsRead(t.conditions, want[0], gen);
    SaidIsRead(t.conditions, want[1], gen);
    SaidIsRead(t.conditions, want[2], gen);
  }

  /** A write that reports a reason shows it, with its message, in Ready, and a failure in Degraded too;
      a success shows the commit and the number of modules. */
  lemma ReasonsAreShown(s: Status, w: Write, gen: int, now: int)
    ensures var c := Apply(s, w, gen, now).conditions;
            match w
            case Keep => true
            case Sync => Explains(c, "Ready", "Syncing", "waiting for the sync Job")
            case Park(r, m) => r != "" && m != "" ==> Explains(c, "Ready", r, m)
            case Fail(r, m) => r != "" ==> Explains(c, "Ready", r, m) && Explains(c, "Degraded", r, m)
            case Failure(r, m) => r != "" ==> Explains(c, "Ready", r, m) && Explains(c, "Degraded", r, m)
            case Success(commit, modules) =>
              Explains(c, "Ready", "Synced", "synced commit " + commit[..if |commit| < 12 then |commit| else 12]
                                             + " with " + Decimal(|modules|) + " module(s)")
  {
    var u, t, said := Mutate(s, w, now), Apply(s, w, gen, now), ReasonOf(s, w);
    var want := Explain(u, said.0, said.1);
    SetAllSays(u.conditions, want, gen, now);
    SaidIsRead(t.conditions, want[0], gen);
    SaidIsRead(t.conditions, want[2], gen);
    match w
    case Success(commit, _) => assert ShortId(commit) == commit[..if |commit| < 12 then |commit| else 12];
    case _ =>
  }

  /** The transition time of a condition moves exactly when its status flips. */
  lemma TimeMovesOnFlips(conds: seq<Condition>, w: Wanted, gen: int, now: int, i: nat)
    requires IsFirst(conds, w.kind, i)
    ensures var after := Set(conds, w, gen, now);
            && |after| == |conds| && IsFirst(after, w.kind, i)
            && after[i].since == (if conds[i].status == w.status then conds[i].since else now)
            && forall k :: 0 <= k < |conds| && k != i ==> after[k] == conds[k]
  {
    FindIsFirst(conds, w.kind, i);
  }

  // ---- The list as the controller updates it -----------------------------------------------

  /** The status of the object the reconciler holds, and how often it was sent to the API server. */
  class AddonRecord {
    var generation: int
    var status: Status
    var sent: nat

    method SetConditions(want: seq<Wanted>, now: int)
      modifies this`status
      ensures status == old(status).(conditions := SetAll(old(status).conditions, want, generation, now))
    {
      for i := 0 to |want|
        invariant status == old(status).(conditions := SetAll(old(status).conditions, want[..i], generation, now))
      {
        assert want[..i + 1][..i] == want[..i];
        var conds := status.conditions;
        var k := 0;
        while k < |conds| && conds[k].kind != want[i].kind
          invariant 0 <= k <= |conds| && forall j :: 0 <= j < k ==> conds[j].kind != want[i].kind
        {
          k := k + 1;
        }
        if k == |conds| {
          assert Find(conds, want[i].kind) == |conds|;
          conds := conds + [Condition(want[i].kind, want[i].status, want[i].reason, want[i].message, generation, now)];
        } else {
          FindIsFirst(conds, want[i].kind, k);
          var since := if conds[k].status == want[i].status then conds[k].since else now;
          conds := conds[k := Condition(want[i].kind, want[i].status, want[i].reason, want[i].message, generation, since)];
        }
        status := status.(conditions := conds);
      }
      assert want[..|want|] == want;
    }

    /** Sends the status only when it changed. */
    method WriteStatus(w: Write, now: int)
      modifies this`status, this`sent
      ensures status == Apply(old(status), w, generation, now)
      ensures Holds(status.conditions, "Ready") <==> status.phase == Synced
      ensures Holds(status.conditions, "Progressing") <==> status.phase == Syncing
      ensures Holds(status.conditions, "Degraded") <==> status.phase == Failed
      ensures sent == old(sent) + if status == old(status) then 0 else 1
    {
      ConditionsAgree(status, w, generation, now);
      var before := status;
      var (reason, msg) := ReasonOf(status, w);
      status := Mutate(status, w, now);
      SetConditions(Explain(status, reason, msg), now);
      if status != before {
        sent := sent + 1;
      }
    }
  }
}
