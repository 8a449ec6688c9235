/**
 The notices that follow an alert's first -- reminders, repeats and clear notices -- and
 the events that send none, each in the columns of the alert, its rule and the settings:
 who is told on which channel, and how the alert's row is left.
 */
module NoticeEvents {
  import opened Wrappers
  import opened SendBudget
  import opened Notices
  import opened FirstNotice
  import opened NoticeChannels
  import opened SweepOutcome

  /** What a channel asks of a notice of some kind: a clear notice has its own template. */
  predicate OpenFor(st: Settings, f: Facts, severity: int, kind: NoticeKind, c: Channel) {
    !f.systemRule && OpenAlone(st, f.(hasTemplate := f.hasTemplate || kind == ClearNotice), severity, c)
  }

  /** On channel c the step told about the alert and paid one attempt, or did neither. */
  ghost predicate TellsIf(b: Book, after: Book, id: nat, kind: NoticeKind, c: Channel, told: bool, now: real) {
    && AttemptsOn(after.log, c) == AttemptsOn(b.log, c) + (if told then [now] else [])
    && (Submitted(id, kind, c) in after.log <==> told || Submitted(id, kind, c) in b.log)
  }

  /** With room under the cap, a notice goes out exactly where the channel is open to it. */
  lemma NoticeTells(st: Settings, b: Book, id: nat, kind: NoticeKind, f: Facts, severity: int, now: real, c: Channel)
    requires HasRoom(st, b, c, now, 1)
    ensures TellsIf(b, Notify(st, b, id, kind, f, severity, now), id, kind, c, OpenFor(st, f, severity, kind, c), now)
  {
    EachChannelDecidesForItself(st, b, id, kind, f, severity, now, c);
    RoomIsNotOver(st, b, c, now, 1);
    assert Passes(st, b, f, kind, severity, c, now) <==> OpenFor(st, f, severity, kind, c);
    var e := Submitted(id, kind, c);
    assert e.Submitted? && e.channel == c;
  }

  // ---------------------------------------------------------------- reminders, repeats

  /** The alert's first notice is decided, and its rule is on and its device not quiet. */
  predicate MayRemind(b: Book, id: nat, facts: map<nat, Facts>, quiet: set<nat>) {
    id in b.alerts && id in facts && b.alerts[id].notifiedTs != None && facts[id].ruleEnabled && id !in quiet
  }

  lemma RemindsOne(st: Settings, b: Book, id: nat, facts: map<nat, Facts>, quiet: set<nat>, now: real)
    requires HoldOn(st)
    ensures Remind(st, b, [id], facts, quiet, now) ==
            if MayRemind(b, id, facts, quiet) then Notify(st, b, id, Reminder, facts[id], b.alerts[id].severity, now)
            else b
  {
    assert [id][..0] == [];
    assert Remind(st, b, [], facts, quiet, now) == b;
  }

  /** A reminder goes out exactly about a decided alert whose rule is on and whose device is not quiet, where
      the channel is open to it. */
  lemma ReminderTellsExactly(st: Settings, b: Book, id: nat, facts: map<nat, Facts>, quiet: set<nat>, now: real,
                             c: Channel)
    requires HoldOn(st) && HasRoom(st, b, c, now, 1)
    ensures TellsIf(b, Remind(st, b, [id], facts, quiet, now), id, Reminder, c,
                    MayRemind(b, id, facts, quiet) && OpenFor(st, facts[id], b.alerts[id].severity, Reminder, c), now)
  {
    RemindsOne(st, b, id, facts, quiet, now);
    if MayRemind(b, id, facts, quiet) {
      NoticeTells(st, b, id, Reminder, facts[id], b.alerts[id].severity, now, c);
    }
  }

  /** And it stamps the alert, so that the next is due a full interval later, exactly when a text or a mail
      went out, or the alert is too mild for mail. */
  lemma ReminderStampsExactly(st: Settings, b: Book, id: nat, facts: map<nat, Facts>, quiet: set<nat>, now: real)
    requires HoldOn(st) && MayRemind(b, id, facts, quiet) && !facts[id].systemRule
    requires HasRoom(st, b, Email, now, 1) && HasRoom(st, b, Sms, now, 1)
    ensures
      var after, f, a := Remind(st, b, [id], facts, quiet, now), facts[id], b.alerts[id];
      && after.alerts.Keys == b.alerts.Keys
      && (forall x :: x in b.alerts && x != id ==> after.alerts[x] == b.alerts[x])
      && after.alerts[id] ==
         if OpenFor(st, f, a.severity, Reminder, Sms) || OpenFor(st, f, a.severity, Reminder, Email)
            || (f.emailOn && a.severity > st.floor)
         then a.(notifiedTs := Some(now), heldTs := None) else a
  {
    RemindsOne(st, b, id, facts, quiet, now);
    var f, severity := facts[id], b.alerts[id].severity;
    RoomIsNotOver(st, b, Email, now, 1);
    RoomIsNotOver(st, b, Sms, now, 1);
    NoticeStamps(st, b, id, Reminder, f, severity, now);
  }

  lemma NoticeStamps(st: Settings, b: Book, id: nat, kind: NoticeKind, f: Facts, severity: int, now: real)
    requires id in b.alerts && !f.systemRule && !Over(st, b, Email, now) && !Over(st, b, Sms, now)
    ensures
      var after := Notify(st, b, id, kind, f, severity, now);
      after.alerts == if OpenFor(st, f, severity, kind, Sms) || OpenFor(st, f, severity, kind, Email)
                         || (f.emailOn && severity > st.floor)
                      then b.alerts[id := b.alerts[id].(notifiedTs := Some(now), heldTs := None)] else b.alerts
  {
    if f.emailOn || f.smsOn {
      TextStamps(st, b, id, kind, f, severity, now);
      var b2 := AfterSms(st, AfterWebhook(st, b, id, kind, f, now), id, kind, f, severity, now);
      EmailStamps(st, b2, id, kind, f, severity, now);
      NoticeInTurn(st, b, id, kind, f, severity, now);
      StampedTwice(b.alerts, id, now);
    }
  }

  lemma TextStamps(st: Settings, b: Book, id: nat, kind: NoticeKind, f: Facts, severity: int, now: real)
    requires id in b.alerts && !f.systemRule && !Over(st, b, Sms, now)
    ensures
      var after := AfterSms(st, AfterWebhook(st, b, id, kind, f, now), id, kind, f, severity, now);
      && SentOn(after, Email) == SentOn(b, Email)
      && after.alerts == if OpenFor(st, f, severity, kind, Sms)
                         then b.alerts[id := b.alerts[id].(notifiedTs := Some(now), heldTs := None)] else b.alerts
  {
    var b1 := AfterWebhook(st, b, id, kind, f, now);
    WebhookLeaves(st, b, id, kind, f, now);
    SmsLeaves(st, b1, id, kind, f, severity, now);
    SmsStamps(st, b1, id, kind, severity, now);
  }

  /** What a notice leaves in writing: that it was not sent, on a channel over its cap; and of a first notice
      or a repeat by mail, that the alert is too mild or its rule has no template. */
  lemma NoticeRecordsExactly(st: Settings, b: Book, id: nat, kind: NoticeKind, f: Facts, severity: int, now: real)
    requires !f.systemRule && NotSent(id) !in b.log
    ensures
      NotSent(id) in Notify(st, b, id, kind, f, severity, now).log <==>
      || (f.emailOn && st.webhookReady && Over(st, b, Webhook, now))
      || (f.smsOn && st.smsReady && severity <= st.smsFloor && Over(st, b, Sms, now))
      || (f.emailOn && severity <= st.floor && Over(st, b, Email, now))
      || (f.emailOn && kind in {FirstNotice, RepeatNotice}
          && (severity > st.floor || (st.emailReady && !f.hasTemplate)))
  {
    if f.emailOn || f.smsOn {
      var b1 := AfterWebhook(st, b, id, kind, f, now);
      WebhookRecords(st, b, id, kind, f, now);
      SmsRecords(st, b1, id, kind, f, severity, now);
      WebhookLeaves(st, b, id, kind, f, now);
      SmsLeaves(st, b1, id, kind, f, severity, now);
      EmailRecords(st, AfterSms(st, b1, id, kind, f, severity, now), id, kind, f, severity, now);
      NoticeInTurn(st, b, id, kind, f, severity, now);
    }
  }

  lemma WebhookRecords(st: Settings, b: Book, id: nat, kind: NoticeKind, f: Facts, now: real)
    ensures NotSent(id) in AfterWebhook(st, b, id, kind, f, now).log <==>
            NotSent(id) in b.log || (f.emailOn && st.webhookReady && Over(st, b, Webhook, now))
  {
  }

  lemma SmsRecords(st: Settings, b: Book, id: nat, kind: NoticeKind, f: Facts, severity: int, now: real)
    ensures NotSent(id) in AfterSms(st, b, id, kind, f, severity, now).log <==>
            || NotSent(id) in b.log
            || (f.smsOn && st.smsReady && severity <= st.smsFloor && Over(st, b, Sms, now))
  {
  }

  lemma EmailRecords(st: Settings, b: Book, id: nat, kind: NoticeKind, f: Facts, severity: int, now: real)
    ensures NotSent(id) in NotifyEmail(st, b, id, kind, f, severity, now).log <==>
            || NotSent(id) in b.log
            || (severity <= st.floor && Over(st, b, Email, now))
            || (kind in {FirstNotice, RepeatNotice} && (severity > st.floor || (st.emailReady && !f.hasTemplate)))
  {
  }

  lemma StampedTwice(alerts: map<nat, Alert>, id: nat, now: real)
    requires id in alerts
    ensures
      var once := alerts[id := alerts[id].(notifiedTs := Some(now), heldTs := None)];
      once[id := once[id].(notifiedTs := Some(now), heldTs := None)] == once
  {
  }

  function AfterWebhook(st: Settings, b: Book, id: nat, kind: NoticeKind, f: Facts, now: real): Book {
    if f.emailOn then NotifyWebhook(st, b, id, kind, now) else b
  }

  function AfterSms(st: Settings, b: Book, id: nat, kind: NoticeKind, f: Facts, severity: int, now: real): Book {
    if f.smsOn then NotifySms(st, b, id, kind, severity, now) else b
  }

  lemma NoticeInTurn(st: Settings, b: Book, id: nat, kind: NoticeKind, f: Facts, severity: int, now: real)
    requires !f.systemRule && (f.emailOn || f.smsOn)
    ensures
      var b2 := AfterSms(st, AfterWebhook(st, b, id, kind, f, now), id, kind, f, severity, now);
      Notify(st, b, id, kind, f, severity, now)
        == if f.emailOn then NotifyEmail(st, b2, id, kind, f, severity, now) else b2
  {
  }

  lemma WebhookLeaves(st: Settings, b: Book, id: nat, kind: NoticeKind, f: Facts, now: real)
    ensures
      var after := AfterWebhook(st, b, id, kind, f, now);
      after.alerts == b.alerts && SentOn(after, Sms) == SentOn(b, Sms) && SentOn(after, Email) == SentOn(b, Email)
  {
  }

  lemma SmsLeaves(st: Settings, b: Book, id: nat, kind: NoticeKind, f: Facts, severity: int, now: real)
    ensures SentOn(AfterSms(st, b, id, kind, f, severity, now), Email) == SentOn(b, Email)
    ensures id in b.alerts ==>
              var after := AfterSms(st, b, id, kind, f, severity, now);
              id in after.alerts && after.alerts[id].state == b.alerts[id].state
  {
  }

  lemma SmsStamps(st: Settings, b: Book, id: nat, kind: NoticeKind, severity: int, now: real)
    requires id in b.alerts && !Over(st, b, Sms, now)
    ensures NotifySms(st, b, id, kind, severity, now).alerts ==
            if st.smsReady && severity <= st.smsFloor && st.smsReach
            then b.alerts[id := b.alerts[id].(notifiedTs := Some(now), heldTs := None)] else b.alerts
  {
  }

  lemma EmailStamps(st: Settings, b: Book, id: nat, kind: NoticeKind, f: Facts, severity: int, now: real)
    requires id in b.alerts && !Over(st, b, Email, now)
    ensures NotifyEmail(st, b, id, kind, f, severity, now).alerts ==
            if severity > st.floor || (st.emailReady && (f.hasTemplate || kind.ClearNotice?) && st.recipients)
            then b.alerts[id := b.alerts[id].(notifiedTs := Some(now), heldTs := None)] else b.alerts
  {
  }

  /** A repeat of an alert whose first notice is decided goes out where the channel is open to it; while the
      first is held there is nothing but the one notice to come. */
  lemma RepeatTellsExactly(st: Settings, b: Book, id: nat, f: Facts, now: real, c: Channel)
    requires HoldOn(st) && id in b.alerts && HasRoom(st, b, c, now, 1)
    ensures TellsIf(b, Repeated(st, b, id, f, now), id, RepeatNotice, c,
                    b.alerts[id].notifiedTs != None && OpenFor(st, f, b.alerts[id].severity, RepeatNotice, c), now)
  {
    NoticeTells(st, b, id, RepeatNotice, f, b.alerts[id].severity, now, c);
  }

  // ----------------------------------------------------------------- clears and closes

  /** A cleared alert is resolved. A clear notice goes out, if the settings ask for one, exactly about an alert
      whose problem was decided on and whose device is not quiet, where the channel is open to it; one still
      undecided is stamped, with the reason. */
  lemma ClearTellsExactly(st: Settings, b: Book, id: nat, f: Facts, quiet: bool, now: real, c: Channel)
    requires HoldOn(st) && id in b.alerts && HasRoom(st, b, c, now, 1)
    ensures
      var after, a := Cleared(st, b, id, f, quiet, now), b.alerts[id];
      && TellsIf(b, after, id, ClearNotice, c,
                 st.notifyOnClear && a.notifiedTs != None && !quiet && OpenFor(st, f, a.severity, ClearNotice, c), now)
      && id in after.alerts && after.alerts[id].state == Resolved
      && (a.notifiedTs == None && st.notifyOnClear ==>
            after.alerts[id].notifiedTs == Some(now) && NotSent(id) in after.log)
      && (a.notifiedTs == None && !st.notifyOnClear ==> after.alerts[id].notifiedTs == None)
  {
    var closed := WithState(b, id, Resolved);
    assert SentOn(closed, c) == SentOn(b, c);
    if !st.notifyOnClear {
    } else if b.alerts[id].notifiedTs.None? {
      NoteSilent(closed, id);
      MarkSilent(Note(closed, id), id, now, false);
    } else if !quiet {
      NoticeTells(st, closed, id, ClearNotice, f, b.alerts[id].severity, now, c);
      NotifyKeepsState(st, closed, id, ClearNotice, f, b.alerts[id].severity, now);
    }
  }

  lemma NotifyKeepsState(st: Settings, b: Book, id: nat, kind: NoticeKind, f: Facts, severity: int, now: real)
    requires id in b.alerts
    ensures
      var after := Notify(st, b, id, kind, f, severity, now);
      id in after.alerts && after.alerts[id].state == b.alerts[id].state
  {
    if !f.systemRule && (f.emailOn || f.smsOn) {
      var b1 := AfterWebhook(st, b, id, kind, f, now);
      WebhookLeaves(st, b, id, kind, f, now);
      SmsLeaves(st, b1, id, kind, f, severity, now);
      EmailLeaves(st, AfterSms(st, b1, id, kind, f, severity, now), id, kind, f, severity, now);
      NoticeInTurn(st, b, id, kind, f, severity, now);
    }
  }

  lemma EmailLeaves(st: Settings, b: Book, id: nat, kind: NoticeKind, f: Facts, severity: int, now: real)
    requires id in b.alerts
    ensures
      var after := NotifyEmail(st, b, id, kind, f, severity, now);
      id in after.alerts && after.alerts[id].state == b.alerts[id].state
  {
  }

  /** An alert absorbed or expired is resolved and nobody is told; undecided, it is stamped and the reason
      written down. */
  lemma ClosedSilentlyExactly(st: Settings, b: Book, id: nat, now: real)
    requires HoldOn(st) && id in b.alerts
    ensures
      var after, a := ClosedSilently(st, b, id, now), b.alerts[id];
      && (forall e: Entry :: e.Submitted? || e.Attempt? ==> (e in after.log <==> e in b.log))
      && after.alerts == b.alerts[id := if a.notifiedTs == None
                                        then a.(state := Resolved, notifiedTs := Some(now), heldTs := None)
                                        else a.(state := Resolved)]
      && (a.notifiedTs == None ==> NotSent(id) in after.log)
  {
  }

  // -------------------------------------------------------------- openings and re-arming

  /** With the hold on, a new alert's first notice is owed and nobody is told yet; with it off it goes out at
      once where the channel is open to it. */
  lemma OpeningTellsExactly(st: Settings, b: Book, id: nat, a: Alert, f: Facts, now: real, c: Channel)
    requires HasRoom(st, b, c, now, 1)
    ensures
      var after := Opened(st, b, id, a, f, now);
      && (st.delay > 0.0 ==> after.log == b.log
                             && after.alerts == b.alerts[id := a.(notifiedTs := None, heldTs := None)])
      && (st.delay <= 0.0 ==> TellsIf(b, after, id, FirstNotice, c, OpenFor(st, f, a.severity, FirstNotice, c), now))
  {
    var stored := b.(alerts := b.alerts[id := a.(notifiedTs := None, heldTs := None)]);
    assert SentOn(stored, c) == SentOn(b, c);
    NoticeTells(st, stored, id, FirstNotice, f, a.severity, now, c);
  }

  /** When maintenance of a device ends, its open alerts that were marked held owe their first notice again;
      no other row changes. */
  lemma RearmExactly(b: Book, d: nat, id: nat)
    requires id in b.alerts
    ensures
      var after, a := Rearm(b, d), b.alerts[id];
      && after.alerts.Keys == b.alerts.Keys && after.log == b.log
      && after.alerts[id] ==
         if a.device == Some(d) && a.state == Open && a.heldTs != None then a.(notifiedTs := None) else a
  {
  }

  /** A held first notice falls due the delay after its alert opened -- an hour at most -- and stays due for an
      hour, or as long as it is marked held. */
  lemma DueExactly(st: Settings, a: Alert, now: real)
    requires st.delay > 0.0
    ensures
      var delay := if st.delay > 3600.0 then 3600.0 else st.delay;
      && HoldOn(st)
      && (Due(st, a, now) <==>
            && a.notifiedTs == None && now - a.openedTs >= delay
            && (a.heldTs != None || now - a.openedTs <= delay + 3600.0))
  {
  }
}
