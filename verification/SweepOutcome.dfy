/**
 What a sweep of held first notices does to one due alert, in the columns of the alert,
 its rule and the settings: on which channels its notice goes out, which alerts stay
 undecided, and what is stamped and recorded on the others. And the same for a reminder.
 */
module SweepOutcome {
  import opened Wrappers
  import opened SendBudget
  import opened Notices
  import opened FirstNotice
  import opened NoticeChannels
  import opened NoticeRuns

  // ------------------------------------------------------------------- the columns

  /** The rule notifies, and the alert is severe enough for one of its channels. */
  predicate Notifies(st: Settings, f: Facts, a: Alert) {
    && f.ruleEnabled && !f.systemRule && (f.emailOn || f.smsOn)
    && (a.severity <= st.floor || (f.smsOn && a.severity <= st.smsFloor))
  }

  /** Not resolved, and not rolled up under another alert. */
  predicate Standing(st: Settings, f: Facts, a: Alert) {
    a.state != Resolved && !(st.rollup && f.rolledUp)
  }

  /** The alert's device is in maintenance. */
  predicate Serviced(a: Alert, maintenance: set<nat>) {
    exists d :: d in maintenance && a.device == Some(d)
  }

  predicate Sendable(st: Settings, f: Facts, a: Alert, maintenance: set<nat>) {
    Notifies(st, f, a) && Standing(st, f, a) && !Serviced(a, maintenance) && !f.muted
  }

  /** The due alerts that can be sent. */
  ghost function Sendables(st: Settings, b: Book, due: seq<nat>, facts: map<nat, Facts>,
                           maintenance: set<nat>): set<nat>
    requires forall id :: id in due ==> id in b.alerts && id in facts
  {
    set id | id in due && Sendable(st, facts[id], b.alerts[id], maintenance)
  }

  /** What a channel asks of a notice about one alert. */
  predicate OpenAlone(st: Settings, f: Facts, severity: int, c: Channel) {
    match c
    case Webhook => f.emailOn && st.webhookReady
    case Sms => f.smsOn && severity <= st.smsFloor && st.smsReady && st.smsReach
    case Email => f.emailOn && severity <= st.floor && st.emailReady && st.recipients && f.hasTemplate
  }

  /** And of its part in a digest, which needs no template. */
  predicate OpenInDigest(st: Settings, f: Facts, severity: int, c: Channel) {
    match c
    case Webhook => f.emailOn && st.webhookReady
    case Sms => f.smsOn && severity <= st.smsFloor && st.smsDigestReady && st.smsReach
    case Email => f.emailOn && severity <= st.floor && st.emailReady && st.recipients
  }

  /** Up to three alerts are sent one by one, more as one digest. */
  predicate OpenTo(st: Settings, f: Facts, severity: int, c: Channel, count: nat) {
    if count <= 3 then OpenAlone(st, f, severity, c) else OpenInDigest(st, f, severity, c)
  }

  /** n more attempts fit under the channel's hourly cap. */
  ghost predicate HasRoom(st: Settings, b: Book, c: Channel, now: real, n: nat) {
    var (sent, cap) := match c
      case Email => (b.email, st.emailCap)
      case Webhook => (b.webhook, st.webhookCap)
      case Sms => (b.sms, st.smsCap);
    cap == 0 || |Recent(sent, now)| + n <= cap
  }

  // ------------------------------------------------------------- what a step spends

  lemma {:induction false} RecentTwice(sent: seq<real>, now: real)
    ensures Recent(Recent(sent, now), now) == Recent(sent, now)
    ensures Recent(Recent(sent, now) + [now], now) == Recent(sent, now) + [now]
  {
    if sent != [] {
      RecentTwice(sent[..|sent| - 1], now);
    }
  }

  ghost function Used(b: Book, c: Channel, now: real): nat {
    |Recent(SentOn(b, c), now)|
  }

  lemma SpendUses(st: Settings, b: Book, c: Channel, now: real, wanted: bool)
    ensures Used(Spend(st, b, c, now, wanted), c, now) <= Used(b, c, now) + 1
  {
    RecentTwice(SentOn(b, c), now);
  }

  lemma WebhookUses(st: Settings, b: Book, id: nat, kind: NoticeKind, now: real)
    ensures Used(NotifyWebhook(st, b, id, kind, now), Webhook, now) <= Used(b, Webhook, now) + 1
  {
    SpendUses(st, b, Webhook, now, true);
  }

  lemma SmsUses(st: Settings, b: Book, id: nat, kind: NoticeKind, severity: int, now: real)
    ensures Used(NotifySms(st, b, id, kind, severity, now), Sms, now) <= Used(b, Sms, now) + 1
  {
    SpendUses(st, b, Sms, now, st.smsReach);
  }

  lemma EmailUses(st: Settings, b: Book, id: nat, kind: NoticeKind, f: Facts, severity: int, now: real)
    ensures Used(NotifyEmail(st, b, id, kind, f, severity, now), Email, now) <= Used(b, Email, now) + 1
  {
    SpendUses(st, b, Email, now, WantsEmail(st, f, kind));
  }

  /** A notice costs a channel at most one attempt. */
  lemma NotifyUses(st: Settings, b: Book, id: nat, kind: NoticeKind, f: Facts, severity: int, now: real, c: Channel)
    ensures Used(Notify(st, b, id, kind, f, severity, now), c, now) <= Used(b, c, now) + 1
  {
    var b1 := if f.emailOn then NotifyWebhook(st, b, id, kind, now) else b;
    var b2 := if f.smsOn then NotifySms(st, b1, id, kind, severity, now) else b1;
    WebhookPart(st, b, id, kind, f, now);
    SmsPart(st, b1, id, kind, f, severity, now);
    EmailPart(st, b2, id, kind, f, severity, now);
    WebhookUses(st, b, id, kind, now);
    SmsUses(st, b1, id, kind, severity, now);
    EmailUses(st, b2, id, kind, f, severity, now);
  }

  /** A channel with room is not over its cap. */
  lemma RoomIsNotOver(st: Settings, b: Book, c: Channel, now: real, n: nat)
    requires HasRoom(st, b, c, now, n) && n > 0
    ensures !Over(st, b, c, now)
  {
  }

  // ------------------------------------------------------------------ one by one

  ghost predicate Told(b: Book, id: nat, c: Channel) {
    Submitted(id, FirstNotice, c) in b.log
  }

  /** One notice of those sent one by one: it tells about its own alert, when its channel is open, and
      about no other. */
  lemma OneSent(st: Settings, b: Book, id: nat, f: Facts, severity: int, now: real, c: Channel)
    requires !f.systemRule
    ensures
      var after := Mark(Notify(st, b, id, FirstNotice, f, severity, now), id, now, false);
      && (forall x :: x != id ==> (Told(after, x, c) <==> Told(b, x, c)))
      && (Told(after, id, c) <==> Told(b, id, c) || (OpenAlone(st, f, severity, c) && !Over(st, b, c, now)))
      && Used(after, c, now) <= Used(b, c, now) + 1
  {
    var told := Notify(st, b, id, FirstNotice, f, severity, now);
    OneTold(st, b, id, f, severity, now, c);
    MarkSilent(told, id, now, false);
    NotifyUses(st, b, id, FirstNotice, f, severity, now, c);
    assert SentOn(Mark(told, id, now, false), c) == SentOn(told, c);
  }

  lemma OneTold(st: Settings, b: Book, id: nat, f: Facts, severity: int, now: real, c: Channel)
    requires !f.systemRule
    ensures
      var after := Notify(st, b, id, FirstNotice, f, severity, now);
      && (forall x :: x != id ==> (Told(after, x, c) <==> Told(b, x, c)))
      && (Told(after, id, c) <==> Told(b, id, c) || (OpenAlone(st, f, severity, c) && !Over(st, b, c, now)))
  {
    PassesMeans(st, b, f, severity, c, now);
    var after := Notify(st, b, id, FirstNotice, f, severity, now);
    EachChannelDecidesForItself(st, b, id, FirstNotice, f, severity, now, c);
    ToldMeans(b, after, id, c, Passes(st, b, f, FirstNotice, severity, c, now), now);
  }

  lemma ToldMeans(b: Book, after: Book, id: nat, c: Channel, told: bool, now: real)
    requires ToldOn(b, after, {id}, FirstNotice, c, told, now)
    ensures forall x :: Told(after, x, c) <==> Told(b, x, c) || (told && x == id)
  {
    forall x ensures Told(after, x, c) <==> Told(b, x, c) || (told && x == id) {
      var e := Submitted(x, FirstNotice, c);
      assert e.Submitted? && e.channel == c;
    }
  }

  lemma PassesMeans(st: Settings, b: Book, f: Facts, severity: int, c: Channel, now: real)
    requires !f.systemRule
    ensures Passes(st, b, f, FirstNotice, severity, c, now) <==>
            OpenAlone(st, f, severity, c) && !Over(st, b, c, now)
  {
  }

  lemma {:induction false} SentEach(st: Settings, b: Book, ids: seq<nat>, rows: map<nat, Alert>, facts: map<nat, Facts>,
                                    now: real, c: Channel)
    requires Distinct(ids) && forall id :: id in ids ==> id in rows && id in facts && !facts[id].systemRule
    ensures
      var after := SendEach(st, b, ids, rows, facts, now);
      && Used(after, c, now) <= Used(b, c, now) + |ids|
      && (forall id :: id !in ids ==> (Told(after, id, c) <==> Told(b, id, c)))
      && (forall id :: id in ids && Told(after, id, c) && !Told(b, id, c) ==>
            OpenAlone(st, facts[id], rows[id].severity, c))
      && (HasRoom(st, b, c, now, |ids|) ==>
            forall id :: id in ids && OpenAlone(st, facts[id], rows[id].severity, c) ==> Told(after, id, c))
  {
    if ids != [] {
      SplitLast(ids);
      var init, last := ids[..|ids| - 1], ids[|ids| - 1];
      assert forall id :: id in ids <==> id in init || id == last;
      SentEach(st, b, init, rows, facts, now, c);
      var before := SendEach(st, b, init, rows, facts, now);
      OneSent(st, before, last, facts[last], rows[last].severity, now, c);
      if HasRoom(st, b, c, now, |ids|) {
        RoomIsNotOver(st, before, c, now, 1);
      }
    }
  }

  // ---------------------------------------------------------------------- a digest

  lemma SentInDigest(st: Settings, b: Book, ids: seq<nat>, facts: map<nat, Facts>, now: real, c: Channel, id: nat)
    requires Distinct(ids) && forall x :: x in ids ==> x in b.alerts && x in facts
    ensures
      var after := SendDigest(st, b, ids, facts, now);
      && (id !in ids ==> (Told(after, id, c) <==> Told(b, id, c)))
      && (id in ids && !Over(st, b, c, now) ==>
            (Told(after, id, c) <==> Told(b, id, c) || OpenInDigest(st, facts[id], b.alerts[id].severity, c)))
      && (id in ids && Over(st, b, c, now) ==> (Told(after, id, c) <==> Told(b, id, c)))
  {
    EachDigestDecidesForItself(st, b, ids, facts, now, c);
    SubsetIsAFilter(ids, SpokenFor(st, b.alerts, ids, facts, c));
  }

  // ---------------------------------------------------------------------- the sweep

  /** Settling sends nothing and charges nothing. */
  lemma {:induction false} SettlingIsFree(st: Settings, b: Book, due: seq<nat>, facts: map<nat, Facts>,
                                          maintenance: set<nat>, now: real, c: Channel)
    requires forall id :: id in due ==> id in b.alerts && id in facts
    ensures SentOn(SettleAll(st, b, due, facts, maintenance, now), c) == SentOn(b, c)
  {
    if due != [] {
      SettlingIsFree(st, b, due[..|due| - 1], facts, maintenance, now, c);
    }
  }

  lemma ReleasedAreTheSendable(st: Settings, b: Book, due: seq<nat>, facts: map<nat, Facts>, maintenance: set<nat>)
    requires DueList(b, due, facts)
    ensures
      var ids := Released(st, b, due, facts, maintenance);
      && (forall id :: id in ids <==> id in Sendables(st, b, due, facts, maintenance))
      && |ids| == |Sendables(st, b, due, facts, maintenance)| && Distinct(ids)
  {
    var ids := Released(st, b, due, facts, maintenance);
    ReleasedDistinct(st, b, due, facts, maintenance);
    assert Elements(ids) == Sendables(st, b, due, facts, maintenance);
    DistinctCount(ids);
  }

  lemma {:induction false} DistinctCount(ids: seq<nat>)
    requires Distinct(ids)
    ensures |Elements(ids)| == |ids|
  {
    if ids != [] {
      SplitLast(ids);
      DistinctCount(ids[..|ids| - 1]);
    }
  }

  /** When a due alert's first notice goes out: with room under the channel's cap, exactly when the alert
      can be sent and the channel is open to it; and never otherwise, room or not. */
  lemma SweepTellsExactly(st: Settings, b: Book, due: seq<nat>, facts: map<nat, Facts>, maintenance: set<nat>,
                          now: real, id: nat, c: Channel)
    requires HoldOn(st) && Good(st, b, {}, now) && DueList(b, due, facts) && id in due
    ensures
      var told := Told(Sweep(st, b, due, facts, maintenance, now), id, c);
      var can := Sendables(st, b, due, facts, maintenance);
      && (told ==> id in can && OpenTo(st, facts[id], b.alerts[id].severity, c, |can|))
      && (HasRoom(st, b, c, now, |can|) && id in can && OpenTo(st, facts[id], b.alerts[id].severity, c, |can|) ==> told)
  {
    var settled := SettleAll(st, b, due, facts, maintenance, now);
    var ids := Released(st, b, due, facts, maintenance);
    ReleasedAreReady(st, b, due, facts, maintenance, now);
    ReleasedAreTheSendable(st, b, due, facts, maintenance);
    SettlingIsFree(st, b, due, facts, maintenance, now, c);
    assert !Told(b, id, c);
    assert !Told(settled, id, c);
    if |ids| > DIGEST_THRESHOLD {
      SentInDigest(st, settled, ids, facts, now, c, id);
      if HasRoom(st, b, c, now, |ids|) {
        RoomIsNotOver(st, settled, c, now, |ids|);
      }
    } else {
      SentEach(st, settled, ids, b.alerts, facts, now, c);
    }
  }

  /** In columns: a sweep tells nobody about an alert that is muted, in maintenance, resolved or rolled up,
      whose rule is disabled or about the system, or that is too mild. */
  lemma NobodyIsToldAbout(st: Settings, b: Book, due: seq<nat>, facts: map<nat, Facts>, maintenance: set<nat>,
                          now: real, id: nat, c: Channel)
    requires HoldOn(st) && Good(st, b, {}, now) && DueList(b, due, facts) && id in due
    requires
      var f, a := facts[id], b.alerts[id];
      || f.muted || (a.device.Some? && a.device.value in maintenance) || a.state.Resolved? || (st.rollup && f.rolledUp)
      || !f.ruleEnabled || f.systemRule || (a.severity > st.floor && a.severity > st.smsFloor)
    ensures !Told(Sweep(st, b, due, facts, maintenance, now), id, c)
  {
    SweepTellsExactly(st, b, due, facts, maintenance, now, id, c);
  }

  /** How a sweep leaves a due alert: undecided exactly when nothing but a mute keeps it from being sent; else
      stamped now, and marked held exactly when nothing but its device's maintenance, or that and a mute,
      kept it. */
  lemma SweepLeavesExactly(st: Settings, b: Book, due: seq<nat>, facts: map<nat, Facts>, maintenance: set<nat>,
                           now: real, id: nat)
    requires HoldOn(st) && Good(st, b, {}, now) && DueList(b, due, facts) && id in due
    ensures
      var after, f, a := Sweep(st, b, due, facts, maintenance, now), facts[id], b.alerts[id];
      var open := Notifies(st, f, a) && Standing(st, f, a);
      && id in after.alerts
      && (after.alerts[id].notifiedTs.None? <==> open && !Serviced(a, maintenance) && f.muted)
      && (after.alerts[id].notifiedTs.Some? ==>
            after.alerts[id] ==
            a.(notifiedTs := Some(now), heldTs := if open && Serviced(a, maintenance) then Some(now) else None))
      && (after.alerts[id].notifiedTs.None? ==>
            after.alerts[id] ==
            if a.state.Open? && a.heldTs.None? && a.device.Some? then a.(heldTs := Some(now)) else a)
  {
    SweepDecides(st, b, due, facts, maintenance, now);
    assert Serviced(b.alerts[id], maintenance) <==> InMaintenance(b.alerts[id], maintenance);
  }

  /** And what is written down while the due alerts are settled: one of a rule that notifies gets a reason for
      not being sent exactly when it is too mild, resolved, rolled up or in maintenance. */
  lemma ReasonExactly(st: Settings, b: Book, due: seq<nat>, facts: map<nat, Facts>, maintenance: set<nat>,
                      now: real, id: nat)
    requires HoldOn(st) && Good(st, b, {}, now) && DueList(b, due, facts) && id in due && NotSent(id) !in b.log
    ensures
      var f, a := facts[id], b.alerts[id];
      NotSent(id) in SettleAll(st, b, due, facts, maintenance, now).log <==>
      && f.ruleEnabled && !f.systemRule && (f.emailOn || f.smsOn)
      && !(Notifies(st, f, a) && Standing(st, f, a) && !Serviced(a, maintenance))
  {
    ReasonsAreRecorded(st, b, due, facts, maintenance, now);
    if NotSent(id) in SettleAll(st, b, due, facts, maintenance, now).log {
      OnlyRecordedReasons(st, b, due, facts, maintenance, now, id);
    }
    assert Serviced(b.alerts[id], maintenance) <==> InMaintenance(b.alerts[id], maintenance);
  }

  lemma {:induction false} OnlyRecordedReasons(st: Settings, b: Book, due: seq<nat>, facts: map<nat, Facts>,
                                               maintenance: set<nat>, now: real, id: nat)
    requires forall x :: x in due ==> x in b.alerts && x in facts
    requires NotSent(id) !in b.log && NotSent(id) in SettleAll(st, b, due, facts, maintenance, now).log
    ensures id in due && Recorded(DecisionFor(st, b, facts, maintenance, id))
  {
    if due != [] {
      var init, last := due[..|due| - 1], due[|due| - 1];
      var was := SettleAll(st, b, init, facts, maintenance, now);
      if NotSent(id) in was.log {
        OnlyRecordedReasons(st, b, init, facts, maintenance, now, id);
      } else {
        assert last == id;
      }
    }
  }

  /** Over every run a first notice goes out only in a sweep, about an alert that is due, can be sent then and
      is open to the channel. */
  lemma FirstNoticeMeansSendable(st: Settings, books: seq<Book>, events: seq<Timed>, i: nat, id: nat, c: Channel)
    requires HoldOn(st) && Run(st, books, events) && i < |events|
    requires Submitted(id, FirstNotice, c) in books[i + 1].log && Submitted(id, FirstNotice, c) !in books[i].log
    ensures
      var e, b := events[i].event, books[i];
      && e.Sweeps? && id in e.due && Due(st, b.alerts[id], events[i].at)
      && Sendable(st, e.known[id], b.alerts[id], e.maintenance)
      && OpenTo(st, e.known[id], b.alerts[id].severity, c, |Sendables(st, b, e.due, e.known, e.maintenance)|)
  {
    EveryRunIsGood(st, books, events, i);
    GoodLater(st, books[i], {}, Clock(events, i), events[i].at);
    FirstNoticesWaitForTheSweep(st, books, events, i, id, c);
    var e := events[i].event;
    SweepTellsExactly(st, books[i], e.due, e.known, e.maintenance, events[i].at, id, c);
  }
}
