/** The two rollout decisions of an OdooInstance pass: the addons upgrade gate and the database
    initialisation, and the names of the upgrades they create. */
module Gate {
  import opened Queue

  const INFIX := "-upg-"
  const HASH_PREFIX: nat := 8
  const MAX_NAME: nat := 63
  const INIT_SUFFIX := "-init"

  const UPGRADING := "Upgrading"
  const UPGRADE_FAILED := "UpgradeFailed"
  const INITIALIZING := "Initializing"
  const INIT_FAILED := "InitializationFailed"

  // ---- Names -------------------------------------------------------------------------------

  function TrimDashes(s: string): (t: string)
    ensures t <= s && (t != "" ==> t[|t| - 1] != '-')
    ensures forall k :: |t| <= k < |s| ==> s[k] == '-'
  {
    if s != "" && s[|s| - 1] == '-' then TrimDashes(s[..|s| - 1]) else s
  }

  function NamePrefix(instance: string): string {
    var longest := MAX_NAME - |INFIX| - HASH_PREFIX;
    TrimDashes(instance[..if |instance| < longest then |instance| else longest])
  }

  function UpgradeName(instance: string, hash: string): string
    requires |hash| >= HASH_PREFIX
  {
    NamePrefix(instance) + INFIX + hash[..HASH_PREFIX]
  }

  function InitName(instance: string): string {
    instance + INIT_SUFFIX
  }

  /** The name always fits, and it is one and the same for two revisions, of one instance or of two,
      exactly when the shortened instance names and the first eight digits agree. */
  lemma UpgradeNames(a: string, g: string, b: string, h: string)
    requires |g| >= HASH_PREFIX && |h| >= HASH_PREFIX
    ensures |UpgradeName(a, g)| <= MAX_NAME
    ensures UpgradeName(a, g) == UpgradeName(b, h)
            <==> NamePrefix(a) == NamePrefix(b) && g[..HASH_PREFIX] == h[..HASH_PREFIX]
  {
    var x, y := UpgradeName(a, g), UpgradeName(b, h);
    assert x[|x| - HASH_PREFIX..] == g[..HASH_PREFIX] && y[|y| - HASH_PREFIX..] == h[..HASH_PREFIX];
    assert x[..|x| - HASH_PREFIX - |INFIX|] == NamePrefix(a) && y[..|y| - HASH_PREFIX - |INFIX|] == NamePrefix(b);
  }

  /** The name shows the instance and the revision: the first fifty characters of the instance without
      the dashes they end in, "-upg-", and the first eight digits; and "-init" after the whole
      instance name for the initialisation. */
  lemma NamesShow(instance: string, hash: string)
    requires |hash| >= 8
    ensures var name, cut := UpgradeName(instance, hash), if |instance| < 50 then |instance| else 50;
            exists n :: 0 <= n <= cut && name == instance[..n] + "-upg-" + hash[..8]
                        && (n > 0 ==> instance[n - 1] != '-') && forall k :: n <= k < cut ==> instance[k] == '-'
    ensures InitName(instance) == instance + "-init"
  {
    var cut := if |instance| < 50 then |instance| else 50;
    var p := NamePrefix(instance);
    assert p == instance[..|p|];
    assert forall k :: |p| <= k < cut ==> instance[..cut][k] == '-';
  }

  // ---- The addons upgrade gate -------------------------------------------------------------

  datatype GateInput = GateInput(upgradeSet: bool, applied: string, current: string, upgradeName: string,
                                 upgradeExists: bool, upgradePhase: Phase)

  datatype GateDecision = GateDecision(templateHash: string, appliedHash: string, activeUpgrade: string,
                                       phase: string, ensureUpgrade: bool)

  /** Without `spec.upgrade`, or before any revision was recorded, nothing is held back. */
  predicate GateOpen(i: GateInput) {
    !i.upgradeSet || i.applied == ""
  }

  function GateDecide(i: GateInput): (d: GateDecision)
    ensures d.templateHash == d.appliedHash
    ensures d.templateHash == i.current <==>
            GateOpen(i) || i.current == i.applied || (i.upgradeExists && i.upgradePhase.Succeeded?)
    ensures d.templateHash != i.current ==> d.templateHash == i.applied
    ensures d.activeUpgrade == if d.templateHash == i.current then "" else i.upgradeName
    ensures d.phase == "" <==> d.templateHash == i.current
    ensures d.phase == UPGRADE_FAILED <==> d.templateHash != i.current && i.upgradeExists && i.upgradePhase.Failed?
    ensures d.ensureUpgrade <==> d.templateHash != i.current && !i.upgradeExists
  {
    if GateOpen(i) then
      GateDecision(i.current, i.current, "", "", false)
    else if i.current == i.applied then
      GateDecision(i.applied, i.applied, "", "", false)
    else
      var held := GateDecision(i.applied, i.applied, i.upgradeName, UPGRADING, false);
      if !i.upgradeExists then held.(ensureUpgrade := true)
      else match i.upgradePhase
        case Succeeded => GateDecision(i.current, i.current, "", "", false)
        case Failed => held.(phase := UPGRADE_FAILED)
        case _ => held
  }

  // ---- Initialisation ----------------------------------------------------------------------

  datatype InitInput = InitInput(requested: bool, initialized: bool, upgradeName: string,
                                 upgradeExists: bool, upgradePhase: Phase, liveReplicas: nat)

  datatype InitDecision = InitDecision(pending: bool, initialized: bool, ensureUpgrade: bool,
                                       upgradeName: string, phase: string, adopted: bool)

  /** Pods are held back exactly while an initialisation is asked for and neither recorded, nor
      Succeeded, nor ruled out by pods that already serve. */
  function InitDecide(i: InitInput): (d: InitDecision)
    ensures d.pending <==>
            i.requested && !i.initialized && (if i.upgradeExists then !i.upgradePhase.Succeeded? else i.liveReplicas == 0)
    ensures d.adopted <==> i.requested && !i.initialized && !i.upgradeExists && i.liveReplicas > 0
    ensures i.requested ==> d.initialized == !d.pending
    ensures !i.requested ==> d.initialized == i.initialized
    ensures d.ensureUpgrade <==> d.pending && !i.upgradeExists
    ensures d.upgradeName == if d.pending then i.upgradeName else ""
    ensures d.phase == "" <==> !d.pending
    ensures d.phase == INIT_FAILED <==> d.pending && i.upgradeExists && i.upgradePhase.Failed?
  {
    if !i.requested || i.initialized then
      InitDecision(false, i.initialized, false, "", "", false)
    else if !i.upgradeExists && i.liveReplicas > 0 then
      InitDecision(false, true, false, "", "", true)
    else if !i.upgradeExists then
      InitDecision(true, false, true, i.upgradeName, INITIALIZING, false)
    else match i.upgradePhase
      case Succeeded => InitDecision(false, true, false, "", "", false)
      case Failed => InitDecision(true, false, false, i.upgradeName, INIT_FAILED, false)
      case _ => InitDecision(true, false, false, i.upgradeName, INITIALIZING, false)
  }
}
