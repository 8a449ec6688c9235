/**
 The vocabulary of the alert rules (netpath/alertrules.py): rule keys, the
 entities an alert is about, the rollup table and its inverse, and the gates
 an occurrence passes before a rule is applied to it.
 */
module RollupRules {
  import opened Wrappers
  import opened Strings

  /** The rule keys named by the rollup table, and any other rule. */
  datatype RuleKey =
    | DeviceDown
    | ResponseTimeHigh | PacketLossHigh
    | CpuHigh | MemHigh | DiskHigh
    | IfInUtilHigh | IfOutUtilHigh | IfInErrorsHigh | IfOutErrorsHigh
    | IfInDiscardsHigh | IfOutDiscardsHigh
    | PollOverrun
    | NetpathUnreachable | NetpathPathUnstable | NetpathLatencyHigh | NetpathHttpsDown
    | TempChassisHigh | TempChassisCritical
    | SfpTempHigh
    | SfpRxPowerLow | SfpRxPowerLowAlarm | SfpRxPowerHigh | SfpRxPowerHighAlarm
    | SfpTxPowerLow | SfpTxPowerLowAlarm | SfpTxPowerHigh | SfpTxPowerHighAlarm
    | TempSensorHigh | TempSensorCritical
    | TempSensorStateWarning | TempSensorStateCritical
    | PsuWarning | PsuFailed | StackPowerCableDown
    | FanWarning | FanFailed
    | OtherRule(name: string)

  /** ROLLED_UP_BY: the rule whose open alert makes this one redundant. */
  function RolledUpBy(k: RuleKey): Option<RuleKey> {
    match k
    case ResponseTimeHigh | PacketLossHigh | CpuHigh | MemHigh | DiskHigh => Some(DeviceDown)
    case IfInUtilHigh | IfOutUtilHigh | IfInErrorsHigh | IfOutErrorsHigh => Some(DeviceDown)
    case IfInDiscardsHigh | IfOutDiscardsHigh | PollOverrun => Some(DeviceDown)
    case NetpathPathUnstable | NetpathLatencyHigh | NetpathHttpsDown => Some(NetpathUnreachable)
    case TempChassisHigh => Some(TempChassisCritical)
    case SfpTempHigh => Some(DeviceDown)
    case SfpRxPowerLow => Some(SfpRxPowerLowAlarm)
    case SfpRxPowerLowAlarm => Some(DeviceDown)
    case SfpRxPowerHigh => Some(SfpRxPowerHighAlarm)
    case SfpRxPowerHighAlarm => Some(DeviceDown)
    case SfpTxPowerLow => Some(SfpTxPowerLowAlarm)
    case SfpTxPowerLowAlarm => Some(DeviceDown)
    case SfpTxPowerHigh => Some(SfpTxPowerHighAlarm)
    case SfpTxPowerHighAlarm => Some(DeviceDown)
    case TempSensorHigh => Some(TempSensorCritical)
    case TempSensorCritical => Some(DeviceDown)
    case TempSensorStateWarning => Some(TempSensorStateCritical)
    case TempSensorStateCritical => Some(DeviceDown)
    case PsuWarning => Some(PsuFailed)
    case PsuFailed | StackPowerCableDown => Some(DeviceDown)
    case FanWarning => Some(FanFailed)
    case FanFailed => Some(DeviceDown)
    case _ => None
  }

  /** The children of the rollup table, in the table's own order. */
  const CHILD_KEYS: seq<RuleKey> := [
    ResponseTimeHigh, PacketLossHigh, CpuHigh, MemHigh, DiskHigh,
    IfInUtilHigh, IfOutUtilHigh, IfInErrorsHigh, IfOutErrorsHigh,
    IfInDiscardsHigh, IfOutDiscardsHigh, PollOverrun,
    NetpathPathUnstable, NetpathLatencyHigh, NetpathHttpsDown,
    TempChassisHigh, SfpTempHigh,
    SfpRxPowerLow, SfpRxPowerLowAlarm, SfpRxPowerHigh, SfpRxPowerHighAlarm,
    SfpTxPowerLow, SfpTxPowerLowAlarm, SfpTxPowerHigh, SfpTxPowerHighAlarm,
    TempSensorHigh, TempSensorCritical, TempSensorStateWarning, TempSensorStateCritical,
    PsuWarning, PsuFailed, StackPowerCableDown, FanWarning, FanFailed]

  /** The rules of `keys` that roll up under `p`. */
  function ChildrenAmong(keys: seq<RuleKey>, p: RuleKey): seq<RuleKey> {
    if keys == [] then []
    else
      var init := ChildrenAmong(keys[..|keys| - 1], p);
      var last := keys[|keys| - 1];
      if RolledUpBy(last) == Some(p) then init + [last] else init
  }

  /** ROLLS_UP: the rollup table the other way round. */
  function RollsUp(p: RuleKey): seq<RuleKey> {
    ChildrenAmong(CHILD_KEYS, p)
  }

  lemma {:induction false} ChildrenAmongMembers(keys: seq<RuleKey>, p: RuleKey, c: RuleKey)
    ensures c in ChildrenAmong(keys, p) <==> c in keys && RolledUpBy(c) == Some(p)
  {
    if keys != [] {
      var init, last := keys[..|keys| - 1], keys[|keys| - 1];
      ChildrenAmongMembers(init, p, c);
      assert keys == init + [last];
    }
  }

  /** Every rule the table gives a parent is listed. */
  lemma EveryChildListed(c: RuleKey)
    requires RolledUpBy(c).Some?
    ensures c in CHILD_KEYS
  {
  }

  /** ROLLS_UP is exactly the inverse of ROLLED_UP_BY: no child is missed. */
  lemma RollsUpInverts(p: RuleKey, c: RuleKey)
    ensures c in RollsUp(p) <==> RolledUpBy(c) == Some(p)
  {
    ChildrenAmongMembers(CHILD_KEYS, p, c);
    if RolledUpBy(c) == Some(p) {
      EveryChildListed(c);
    }
  }

  /** What each alert makes redundant, read the other way: outages imply the rules that can only be measured
      by polling, and each severe rule its own milder one. */
  lemma WhatAnAlertImplies(k: RuleKey)
    ensures k in RollsUp(DeviceDown) <==> k in {
              ResponseTimeHigh, PacketLossHigh, CpuHigh, MemHigh, DiskHigh, IfInUtilHigh, IfOutUtilHigh,
              IfInErrorsHigh, IfOutErrorsHigh, IfInDiscardsHigh, IfOutDiscardsHigh, PollOverrun, SfpTempHigh,
              SfpRxPowerLowAlarm, SfpRxPowerHighAlarm, SfpTxPowerLowAlarm, SfpTxPowerHighAlarm, TempSensorCritical,
              TempSensorStateCritical, PsuFailed, StackPowerCableDown, FanFailed}
    ensures k in RollsUp(NetpathUnreachable) <==> k in {NetpathPathUnstable, NetpathLatencyHigh, NetpathHttpsDown}
    ensures k in RollsUp(TempChassisCritical) <==> k == TempChassisHigh
    ensures k in RollsUp(TempSensorCritical) <==> k == TempSensorHigh
    ensures k in RollsUp(TempSensorStateCritical) <==> k == TempSensorStateWarning
    ensures k in RollsUp(PsuFailed) <==> k == PsuWarning
    ensures k in RollsUp(FanFailed) <==> k == FanWarning
    ensures k in RollsUp(SfpRxPowerLowAlarm) <==> k == SfpRxPowerLow
    ensures k in RollsUp(SfpRxPowerHighAlarm) <==> k == SfpRxPowerHigh
    ensures k in RollsUp(SfpTxPowerLowAlarm) <==> k == SfpTxPowerLow
    ensures k in RollsUp(SfpTxPowerHighAlarm) <==> k == SfpTxPowerHigh
  {
    forall p {
      RollsUpInverts(p, k);
    }
  }

  /** The module-level loop that builds ROLLS_UP. */
  method BuildRollsUp() returns (table: map<RuleKey, seq<RuleKey>>)
    ensures forall p :: p in table <==> RollsUp(p) != []
    ensures forall p :: p in table ==> table[p] == RollsUp(p)
  {
    table := Invert(CHILD_KEYS);
  }

  method Invert(keys: seq<RuleKey>) returns (table: map<RuleKey, seq<RuleKey>>)
    ensures forall p :: p in table <==> ChildrenAmong(keys, p) != []
    ensures forall p :: p in table ==> table[p] == ChildrenAmong(keys, p)
  {
    table := map[];
    for i := 0 to |keys|
      invariant forall p :: p in table <==> ChildrenAmong(keys[..i], p) != []
      invariant forall p :: p in table ==> table[p] == ChildrenAmong(keys[..i], p)
    {
      var child := keys[i];
      assert keys[..i + 1][..i] == keys[..i];
      var parent := RolledUpBy(child);
      if parent.Some? {
        var known := if parent.value in table then table[parent.value] else [];
        table := table[parent.value := known + [child]];
      }
    }
    assert keys[..|keys|] == keys;
  }

  // ------------------------------------------------------------ entities

  /** What an alert is about. Ids are the parsed numbers; DedupKeys relates them to the stored text. */
  datatype Entity =
    | Device(id: nat)
    | Interface(device: nat, index: nat)
    | Sensor(device: nat, index: nat)
    | NetpathTarget(target: nat)
    | OtherEntity(kind: string, text: string)

  /** A dedup key: at most one active alert row exists for each. */
  datatype Key = Key(rule: RuleKey, entity: Entity)

  /** ROLLUP_ENTITY_KINDS. */
  predicate TakesPartInRollup(e: Entity) {
    !e.OtherEntity?
  }

  /** device_id_for: the managed device an entity belongs to. */
  function DeviceOf(e: Entity): Option<nat> {
    match e
    case Device(id) => Some(id)
    case Interface(d, _) => Some(d)
    case Sensor(d, _) => Some(d)
    case _ => None
  }

  function DownKey(d: nat): Key {
    Key(DeviceDown, Device(d))
  }

  // ------------------------------------------------- rules and occurrences

  datatype Kind =
    | DeviceEvent | InterfaceEvent | WirelessEvent | NetpathEvent | SystemKind
    | DhcpThreshold | DhcpEvent | NetpathThreshold | ThresholdKind
    | Trap | Syslog | Ipam | OtherKind

  /** One enabled rule row; `key` is OtherRule("") for a rule without a key. */
  datatype Rule = Rule(
    id: int, key: RuleKey, kind: Kind, sourceKind: string, severity: int, deviceFilter: string)

  datatype Occurrence = Occurrence(
    kind: Kind, sourceKind: string, entity: Entity, ts: real, severity: Option<int>,
    deviceName: string, deviceIp: string, priority: bool, managed: bool, ruleKey: Option<RuleKey>)

  predicate Contains(hay: string, needle: string) {
    exists i :: 0 <= i <= |hay| && needle <= hay[i..]
  }

  predicate SourceKindMatches(rule: Rule, occ: Occurrence) {
    rule.sourceKind == "" || rule.sourceKind == occ.sourceKind
  }

  predicate SeverityFloor(rule: Rule, occ: Occurrence) {
    rule.sourceKind != "" || occ.severity.None? || occ.severity.value <= rule.severity
  }

  predicate PinnedToRule(rule: Rule, occ: Occurrence) {
    occ.ruleKey.None? || occ.ruleKey.value == rule.key
  }

  predicate PriorityGate(rule: Rule, occ: Occurrence) {
    rule.key != OtherRule("priority_interface_down") || occ.priority
  }

  /** PREDICATES: what a rule of each kind asks of an occurrence of that kind. */
  predicate KindMatches(rule: Rule, occ: Occurrence) {
    match occ.kind
    case DeviceEvent | WirelessEvent | NetpathEvent | SystemKind => SourceKindMatches(rule, occ)
    case DhcpThreshold | NetpathThreshold => SourceKindMatches(rule, occ)
    case InterfaceEvent => SourceKindMatches(rule, occ) && PriorityGate(rule, occ)
    case DhcpEvent | ThresholdKind => SourceKindMatches(rule, occ) && PinnedToRule(rule, occ)
    case Trap => SourceKindMatches(rule, occ) && SeverityFloor(rule, occ)
    case Syslog => SeverityFloor(rule, occ)
    case Ipam | OtherKind => true
  }

  /** match_device. */
  predicate MatchesDevice(rule: Rule, occ: Occurrence) {
    var text := Strip(rule.deviceFilter);
    text == "" || Contains(Lower(occ.deviceName), Lower(text)) || Contains(Lower(occ.deviceIp), Lower(text))
  }

  predicate MutedOnDevice(rule: Rule, occ: Occurrence, muted: set<(nat, RuleKey)>) {
    var d := DeviceOf(occ.entity);
    rule.key != OtherRule("") && d.Some? && (d.value, rule.key) in muted
  }

  /** Every test _apply makes before it looks at rollup. */
  predicate Admits(rule: Rule, occ: Occurrence, muted: set<(nat, RuleKey)>) {
    && rule.kind == occ.kind
    && KindMatches(rule, occ)
    && !(rule.key == OtherRule("trap_link_down_unmanaged") && occ.managed)
    && MatchesDevice(rule, occ)
    && !MutedOnDevice(rule, occ, muted)
  }

  /** same_metric_pair: two threshold rules over one metric, rather than a fault and an outage. */
  predicate SameMetricPair(child: Rule, parent: Rule) {
    && child.kind == ThresholdKind && parent.kind == ThresholdKind
    && child.sourceKind != "" && child.sourceKind == parent.sourceKind
  }
}
