/**
 Which occurrences a rule takes up, read off what applying it does: when the alert of a
 rule outside the rollup table opens or counts one more, in the columns of the rule and
 of the occurrence, kind by kind.
 */
module RuleGates {
  import opened Wrappers
  import opened Strings
  import opened RollupRules
  import opened Rollup

  // -------------------------------------------------------- what every kind asks

  /** The filter's text stands in `text` from position i on. */
  predicate StandsAt(filter: string, text: string, i: nat) {
    i + |filter| <= |text| && forall j :: 0 <= j < |filter| ==> SameLetter(filter[j], text[i + j])
  }

  ghost predicate Named(filter: string, text: string) {
    exists i: nat :: StandsAt(filter, text, i)
  }

  /** The rule's device filter is blank, or stands, less the blanks around it, in the device's name or address. */
  ghost predicate FilterLets(rule: Rule, occ: Occurrence) {
    Blank(rule.deviceFilter)
    || (exists text :: Stripped(rule.deviceFilter, text)
                       && (Named(text, occ.deviceName) || Named(text, occ.deviceIp)))
  }

  /** The entity is device d, one of its ports or one of its sensors. */
  ghost predicate About(e: Entity, d: nat) {
    e == Device(d) || (exists i: nat :: e == Interface(d, i)) || exists i: nat :: e == Sensor(d, i)
  }

  /** The rule, having a key, is muted on the entity's device. */
  ghost predicate MutedThere(t: Tick, rule: Rule, occ: Occurrence) {
    rule.key != OtherRule("") && exists d: nat :: About(occ.entity, d) && (d, rule.key) in t.muted
  }

  ghost predicate CommonLets(t: Tick, rule: Rule, occ: Occurrence) {
    && rule.kind == occ.kind && FilterLets(rule, occ) && !MutedThere(t, rule, occ)
    && (rule.key == OtherRule("trap_link_down_unmanaged") ==> !occ.managed)
  }

  // ----------------------------------------------------------- what each kind asks

  /** The rule names no event or metric, or the occurrence's own. */
  ghost predicate SourceLets(rule: Rule, occ: Occurrence) {
    rule.sourceKind in {"", occ.sourceKind}
  }

  ghost predicate KindLets(rule: Rule, occ: Occurrence) {
    match occ.kind
    case DeviceEvent | WirelessEvent | NetpathEvent | SystemKind | DhcpThreshold | NetpathThreshold =>
      SourceLets(rule, occ)
    case InterfaceEvent =>
      SourceLets(rule, occ) && (occ.priority || rule.key != OtherRule("priority_interface_down"))
    case DhcpEvent | ThresholdKind => SourceLets(rule, occ) && occ.ruleKey in {None, Some(rule.key)}
    case Trap =>
      if rule.sourceKind != "" then rule.sourceKind == occ.sourceKind
      else occ.severity == None || occ.severity.value <= rule.severity
    case Syslog => rule.sourceKind != "" || occ.severity == None || occ.severity.value <= rule.severity
    case Ipam | OtherKind => true
  }

  // --------------------------------------------------------------------- the laws

  /** Nothing rolls up: the rule is not in the table, or the entity takes no part. */
  predicate OutsideRollup(rule: Rule, occ: Occurrence) {
    rule.key.OtherRule? || occ.entity.OtherEntity?
  }

  /** The alert opens, or is open already and counts one more. */
  ghost predicate TakenUp(s: Store, after: Store, rule: Rule, occ: Occurrence) {
    var k := Key(rule.key, occ.entity);
    && k in after.active && after.active[k].lastTs == occ.ts
    && if k in s.active then after.active[k].count == s.active[k].count + 1
                             && after.active[k].openedTs == s.active[k].openedTs
       else after.active[k] == Row(occ.ts, occ.ts, 1)
  }

  /** A rule outside the rollup takes an occurrence up exactly when what every kind asks and what its kind
      asks lets it; otherwise nothing happens at all. */
  lemma RuleTakesUpExactly(t: Tick, s: Store, rule: Rule, occ: Occurrence)
    requires OutsideRollup(rule, occ)
    ensures
      var after := ApplyRule(t, s, rule, occ);
      if CommonLets(t, rule, occ) && KindLets(rule, occ) then TakenUp(s, after, rule, occ) else after == s
  {
    GatesMean(t, rule, occ);
    if CommonLets(t, rule, occ) && KindLets(rule, occ) {
      NothingIsAsked(t, s, rule, occ);
      OwnAlertStays(t, s, rule, occ);
    }
  }

  lemma NothingIsAsked(t: Tick, s: Store, rule: Rule, occ: Occurrence)
    requires OutsideRollup(rule, occ) && Admits(rule, occ, t.muted)
    ensures ApplyRule(t, s, rule, occ) == OpenAndAbsorb(t, s, rule, occ)
  {
    NoParent(t, s, rule, occ);
  }

  lemma NoParent(t: Tick, s: Store, rule: Rule, occ: Occurrence)
    requires OutsideRollup(rule, occ)
    ensures RollupParent(t, s, rule, occ.entity) == (Uncovered, s)
    ensures ParentOperatorResolved(t, s, rule, occ.entity) == (false, s)
  {
  }

  lemma GatesMean(t: Tick, rule: Rule, occ: Occurrence)
    ensures Admits(rule, occ, t.muted) <==> CommonLets(t, rule, occ) && KindLets(rule, occ)
  {
    FilterMeans(rule, occ);
    MuteMeans(t, rule, occ);
    assert SourceLets(rule, occ) <==> SourceKindMatches(rule, occ);
    assert occ.ruleKey in {None, Some(rule.key)} <==> PinnedToRule(rule, occ);
    assert KindLets(rule, occ) <==> KindMatches(rule, occ);
  }

  /** An alert never sweeps itself away. */
  lemma OwnAlertStays(t: Tick, s: Store, rule: Rule, occ: Occurrence)
    requires OutsideRollup(rule, occ)
    ensures TakenUp(s, OpenAndAbsorb(t, s, rule, occ), rule, occ)
  {
    var k := Key(rule.key, occ.entity);
    NoRuleIsItsOwnParent(rule.key);
  }

  lemma NoRuleIsItsOwnParent(k: RuleKey)
    ensures RolledUpBy(k) != Some(k)
  {
  }

  lemma FilterMeans(rule: Rule, occ: Occurrence)
    ensures FilterLets(rule, occ) <==> MatchesDevice(rule, occ)
  {
    var text := Strip(rule.deviceFilter);
    StripMeans(rule.deviceFilter);
    NamedMeans(text, occ.deviceName);
    NamedMeans(text, occ.deviceIp);
  }

  lemma NamedMeans(filter: string, text: string)
    ensures Named(filter, text) <==> Contains(Lower(text), Lower(filter))
  {
    var hay, needle := Lower(text), Lower(filter);
    forall i: nat | i <= |text| ensures StandsAt(filter, text, i) <==> needle <= hay[i..] {
      StandsMeans(filter, text, i);
    }
    if Contains(hay, needle) {
      var i :| 0 <= i <= |hay| && needle <= hay[i..];
      assert StandsAt(filter, text, i);
    }
  }

  lemma StandsMeans(filter: string, text: string, i: nat)
    requires i <= |text|
    ensures StandsAt(filter, text, i) <==> Lower(filter) <= Lower(text)[i..]
  {
    var hay, needle := Lower(text)[i..], Lower(filter);
    if |filter| <= |hay| {
      forall j | 0 <= j < |filter| ensures SameLetter(filter[j], text[i + j]) <==> needle[j] == hay[j] {
      }
      if StandsAt(filter, text, i) {
        assert hay[..|needle|] == needle;
      }
    }
  }

  lemma MuteMeans(t: Tick, rule: Rule, occ: Occurrence)
    ensures MutedThere(t, rule, occ) <==> MutedOnDevice(rule, occ, t.muted)
  {
    var d := DeviceOf(occ.entity);
    assert forall x: nat :: About(occ.entity, x) <==> d == Some(x);
  }

  /** "This severity and worse": a trap or message rule that names no kind of its own takes up exactly the
      severities up to its own number, the smaller the worse. */
  lemma SeverityFloorIsExact(t: Tick, s: Store, rule: Rule, occ: Occurrence, severity: int)
    requires OutsideRollup(rule, occ) && occ.kind in {Trap, Syslog} && rule.sourceKind == ""
    requires TakenUp(s, ApplyRule(t, s, rule, occ.(severity := None)), rule, occ)
    ensures TakenUp(s, ApplyRule(t, s, rule, occ.(severity := Some(severity))), rule, occ) <==>
            severity <= rule.severity
  {
    var plain, graded := occ.(severity := None), occ.(severity := Some(severity));
    RuleTakesUpExactly(t, s, rule, plain);
    RuleTakesUpExactly(t, s, rule, graded);
    StoreIsNotTakenUp(s, rule, occ);
    assert CommonLets(t, rule, plain) <==> CommonLets(t, rule, graded);
  }

  lemma StoreIsNotTakenUp(s: Store, rule: Rule, occ: Occurrence)
    ensures !TakenUp(s, s, rule, occ)
  {
  }

  /** So whatever opens an alert, what is worse opens it too -- for rules in the rollup table as well. */
  lemma WorseOpensToo(t: Tick, s: Store, rule: Rule, occ: Occurrence, severity: int, worse: int)
    requires occ.kind in {Trap, Syslog} && worse <= severity
    requires ApplyRule(t, s, rule, occ.(severity := Some(severity))) != s
    ensures ApplyRule(t, s, rule, occ.(severity := Some(worse))) ==
            ApplyRule(t, s, rule, occ.(severity := Some(severity)))
  {
  }

  /** The shipped rule for critical traps, of severity 2: a trap of severity 1 opens it, one of severity 6
      does not. */
  lemma CriticalTrapOpensOnTheCritical(t: Tick, id: int, source: Entity, ts: real)
    requires source.OtherEntity?
    ensures
      var rule := Rule(id, OtherRule("trap_critical"), Trap, "", 2, "");
      var trap := Occurrence(Trap, "linkDown", source, ts, Some(1), "core", "10.0.0.1", false, false, None);
      var empty := Store(map[], map[], map[]);
      && Key(rule.key, source) in ApplyRule(t, empty, rule, trap).active
      && ApplyRule(t, empty, rule, trap.(severity := Some(6))) == empty
  {
    var rule := Rule(id, OtherRule("trap_critical"), Trap, "", 2, "");
    var trap := Occurrence(Trap, "linkDown", source, ts, Some(1), "core", "10.0.0.1", false, false, None);
    var empty := Store(map[], map[], map[]);
    RuleTakesUpExactly(t, empty, rule, trap);
    RuleTakesUpExactly(t, empty, rule, trap.(severity := Some(6)));
    assert forall d: nat :: !About(source, d);
  }
}
