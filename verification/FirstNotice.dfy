/**
 What the notice machinery keeps over whole runs with the hold on: every due
 alert is decided by the sweep unless it is muted, no reminder, repeat or clear
 notice comes before its alert's decision, no first notice goes out twice, and no
 channel attempts more than its cap in any hour.
 */
module FirstNotice {
  import opened Wrappers
  import opened SendBudget
  import opened Notices

  // ----------------------------------------------------------- what is kept

  /** Reminders, repeats and clear notices come after their alert's decision. */
  ghost predicate DecidedFirst(log: seq<Entry>) {
    forall i :: 0 <= i < |log| && log[i].Submitted? && !log[i].kind.FirstNotice? ==>
      exists k :: 0 <= k < i && log[k] == Decided(log[i].id)
  }

  /** No first notice goes out twice on one channel. */
  ghost predicate FirstOnce(log: seq<Entry>) {
    forall i, j :: 0 <= i < j < |log| && log[i].Submitted? && log[i].kind.FirstNotice? ==> log[i] != log[j]
  }

  /** A stamped alert was decided; an alert whose first notice went out is stamped and not held --
      save those of `releasing`, whose notices are just going out. */
  ghost predicate RowsGood(b: Book, releasing: set<nat>) {
    && (forall id :: id in b.alerts && b.alerts[id].notifiedTs.Some? ==> Decided(id) in b.log)
    && (forall id, c :: Submitted(id, FirstNotice, c) in b.log && id !in releasing ==>
          id in b.alerts && b.alerts[id].notifiedTs.Some? && b.alerts[id].heldTs.None?)
  }

  /** Every attempt a channel ever made. */
  function AttemptsOn(log: seq<Entry>, c: Channel): seq<real> {
    if log == [] then []
    else
      var init, last := AttemptsOn(log[..|log| - 1], c), log[|log| - 1];
      if last.Attempt? && last.channel == c then init + [last.at] else init
  }

  /** Each capped channel's list is what is left of its history, and the history is spaced. */
  ghost predicate BudgetsGood(st: Settings, b: Book, now: real) {
    forall c :: Cap(st, c) > 0 ==>
      Remembers(SentOn(b, c), AttemptsOn(b.log, c), now) && Spaced(AttemptsOn(b.log, c), Cap(st, c))
  }

  ghost predicate Good(st: Settings, b: Book, releasing: set<nat>, now: real) {
    DecidedFirst(b.log) && FirstOnce(b.log) && RowsGood(b, releasing) && BudgetsGood(st, b, now)
  }

  lemma GoodLater(st: Settings, b: Book, releasing: set<nat>, now: real, later: real)
    requires Good(st, b, releasing, now) && now <= later
    ensures Good(st, b, releasing, later)
  {
    forall c | Cap(st, c) > 0
      ensures Remembers(SentOn(b, c), AttemptsOn(b.log, c), later) && Spaced(AttemptsOn(b.log, c), Cap(st, c))
    {
      RemembersLater(SentOn(b, c), AttemptsOn(b.log, c), now, later);
    }
  }

  ghost predicate Unsent(b: Book, id: nat) {
    forall c :: Submitted(id, FirstNotice, c) !in b.log
  }

  /** The same rows, this one perhaps stamped, and no submission gained but about this alert. */
  ghost predicate OnlyAbout(before: Book, after: Book, id: nat, now: real) {
    && before.alerts.Keys == after.alerts.Keys
    && (id in before.alerts ==>
          after.alerts[id] == before.alerts[id] || after.alerts[id] == Marked(before.alerts[id], now, false))
    && (forall x :: x in before.alerts && x != id ==> after.alerts[x] == before.alerts[x])
    && (forall x, k, c :: Submitted(x, k, c) in after.log && x != id ==> Submitted(x, k, c) in before.log)
  }

  lemma LogOneMore(log: seq<Entry>, e: Entry)
    requires DecidedFirst(log) && FirstOnce(log)
    requires e.Submitted? && e.kind.FirstNotice? ==> e !in log
    requires e.Submitted? && !e.kind.FirstNotice? ==> Decided(e.id) in log
    ensures DecidedFirst(log + [e]) && FirstOnce(log + [e])
  {
    var more := log + [e];
    forall i | 0 <= i < |more| && more[i].Submitted? && !more[i].kind.FirstNotice?
      ensures exists k :: 0 <= k < i && more[k] == Decided(more[i].id)
    {
      if i < |log| {
        var k :| 0 <= k < i && log[k] == Decided(log[i].id);
        assert more[k] == log[k];
      } else {
        var k :| 0 <= k < |log| && log[k] == Decided(e.id);
        assert more[k] == log[k];
      }
    }
  }

  // ------------------------------------------------------------ single steps

  /** Any entry but an attempt leaves the budgets' histories alone. */
  lemma OtherEntriesCostNothing(st: Settings, b: Book, after: Book, e: Entry, now: real)
    requires BudgetsGood(st, b, now) && !e.Attempt?
    requires after.log == b.log + [e] && after.email == b.email && after.webhook == b.webhook && after.sms == b.sms
    ensures BudgetsGood(st, after, now)
  {
  }

  lemma AttemptsOneMore(log: seq<Entry>, e: Entry, d: Channel)
    ensures AttemptsOn(log + [e], d) == if e.Attempt? && e.channel == d then AttemptsOn(log, d) + [e.at]
            else AttemptsOn(log, d)
  {
  }

  lemma SpendSplits(st: Settings, b: Book, c: Channel, now: real, wanted: bool, d: Channel)
    ensures
      var after := Spend(st, b, c, now, wanted);
      && SentOn(after, d) == (if d == c then Charge(SentOn(b, c), now, Cap(st, c), wanted) else SentOn(b, d))
      && after.log == if wanted && !OverCap(SentOn(b, c), now, Cap(st, c)) then b.log + [Attempt(c, now)] else b.log
  {
  }

  lemma SpendOnChannel(st: Settings, b: Book, c: Channel, now: real, wanted: bool, d: Channel)
    requires BudgetsGood(st, b, now) && Cap(st, d) > 0
    ensures
      var after := Spend(st, b, c, now, wanted);
      Remembers(SentOn(after, d), AttemptsOn(after.log, d), now) && Spaced(AttemptsOn(after.log, d), Cap(st, d))
  {
    SpendSplits(st, b, c, now, wanted, d);
    AttemptsOneMore(b.log, Attempt(c, now), d);
    var sent, attempts := SentOn(b, d), AttemptsOn(b.log, d);
    assert Remembers(sent, attempts, now) && Spaced(attempts, Cap(st, d));
    if d == c {
      ChargeKeepsSpacing(sent, attempts, now, now, Cap(st, d), wanted);
    }
  }

  lemma SpendKeepsBudgets(st: Settings, b: Book, c: Channel, now: real, wanted: bool)
    requires BudgetsGood(st, b, now)
    ensures BudgetsGood(st, Spend(st, b, c, now, wanted), now)
  {
    forall d | Cap(st, d) > 0
      ensures
        var after := Spend(st, b, c, now, wanted);
        Remembers(SentOn(after, d), AttemptsOn(after.log, d), now) && Spaced(AttemptsOn(after.log, d), Cap(st, d))
    {
      SpendOnChannel(st, b, c, now, wanted, d);
    }
  }

  lemma SpendGood(st: Settings, b: Book, c: Channel, now: real, wanted: bool, releasing: set<nat>)
    requires Good(st, b, releasing, now)
    ensures Good(st, Spend(st, b, c, now, wanted), releasing, now)
    ensures Spend(st, b, c, now, wanted).alerts == b.alerts
    ensures forall e: Entry :: !e.Attempt? ==> (e in Spend(st, b, c, now, wanted).log <==> e in b.log)
  {
    LogOneMore(b.log, Attempt(c, now));
    SpendKeepsBudgets(st, b, c, now, wanted);
  }

  lemma NoteGood(st: Settings, b: Book, id: nat, now: real, releasing: set<nat>)
    requires Good(st, b, releasing, now)
    ensures Good(st, Note(b, id), releasing, now)
  {
    LogOneMore(b.log, NotSent(id));
    OtherEntriesCostNothing(st, b, Note(b, id), NotSent(id), now);
  }

  lemma SubmitGood(st: Settings, b: Book, id: nat, kind: NoticeKind, c: Channel, now: real, releasing: set<nat>)
    requires Good(st, b, releasing, now) && id in b.alerts
    requires if kind.FirstNotice? then id in releasing && Submitted(id, FirstNotice, c) !in b.log
             else b.alerts[id].notifiedTs.Some?
    ensures Good(st, Submit(b, id, kind, c), releasing, now)
  {
    LogOneMore(b.log, Submitted(id, kind, c));
    OtherEntriesCostNothing(st, b, Submit(b, id, kind, c), Submitted(id, kind, c), now);
    SubmitKeepsRows(b, id, kind, c, releasing);
  }

  lemma SubmitKeepsRows(b: Book, id: nat, kind: NoticeKind, c: Channel, releasing: set<nat>)
    requires RowsGood(b, releasing) && (kind.FirstNotice? ==> id in releasing)
    ensures RowsGood(Submit(b, id, kind, c), releasing)
  {
  }

  lemma MarkKeepsRows(b: Book, id: nat, now: real, held: bool, releasing: set<nat>)
    requires RowsGood(b, releasing) && id in b.alerts && (held ==> Unsent(b, id))
    ensures RowsGood(Mark(b, id, now, held), releasing - {id})
  {
  }

  /** Stamping keeps everything, and completes a release; a held stamp is only for an alert whose
      first notice has not gone out. */
  lemma MarkGood(st: Settings, b: Book, id: nat, now: real, held: bool, releasing: set<nat>)
    requires Good(st, b, releasing, now) && id in b.alerts
    requires held ==> Unsent(b, id)
    ensures Good(st, Mark(b, id, now, held), releasing - {id}, now)
    ensures Good(st, Mark(b, id, now, held), releasing, now)
  {
    MarkKeepsRows(b, id, now, held, releasing);
    if b.alerts[id].notifiedTs.None? {
      LogOneMore(b.log, Decided(id));
      OtherEntriesCostNothing(st, b, Mark(b, id, now, held), Decided(id), now);
    }
  }

  lemma NotifyWebhookGood(st: Settings, b: Book, id: nat, kind: NoticeKind, now: real, releasing: set<nat>)
    requires Good(st, b, releasing, now) && id in b.alerts
    requires if kind.FirstNotice? then id in releasing && Unsent(b, id) else b.alerts[id].notifiedTs.Some?
    ensures
      var after := NotifyWebhook(st, b, id, kind, now);
      && Good(st, after, releasing, now) && OnlyAbout(b, after, id, now) && after.alerts == b.alerts
      && forall c :: c != Webhook ==> (Submitted(id, FirstNotice, c) in after.log <==>
                                       Submitted(id, FirstNotice, c) in b.log)
  {
    SpendGood(st, b, Webhook, now, true, releasing);
    var paid := Spend(st, b, Webhook, now, true);
    if Over(st, b, Webhook, now) {
      NoteGood(st, paid, id, now, releasing);
    } else {
      SubmitGood(st, paid, id, kind, Webhook, now, releasing);
    }
  }

  /** Recording a reason, then stamping. */
  lemma NoteMarkGood(st: Settings, b: Book, id: nat, now: real, releasing: set<nat>)
    requires Good(st, b, releasing, now) && id in b.alerts
    ensures
      var after := Mark(Note(b, id), id, now, false);
      && Good(st, after, releasing, now) && after.alerts == b.alerts[id := Marked(b.alerts[id], now, false)]
      && forall e: Entry :: e.Submitted? ==> (e in after.log <==> e in b.log)
  {
    NoteGood(st, b, id, now, releasing);
    MarkGood(st, Note(b, id), id, now, false, releasing);
  }

  /** Submitting, then stamping. */
  lemma SubmitMarkGood(st: Settings, b: Book, id: nat, kind: NoticeKind, c: Channel, now: real, releasing: set<nat>)
    requires Good(st, b, releasing, now) && id in b.alerts
    requires if kind.FirstNotice? then id in releasing && Submitted(id, FirstNotice, c) !in b.log
             else b.alerts[id].notifiedTs.Some?
    ensures
      var after := Mark(Submit(b, id, kind, c), id, now, false);
      && Good(st, after, releasing, now) && after.alerts == b.alerts[id := Marked(b.alerts[id], now, false)]
      && forall e: Entry :: e.Submitted? ==> (e in after.log <==> e in b.log || e == Submitted(id, kind, c))
  {
    SubmitGood(st, b, id, kind, c, now, releasing);
    MarkGood(st, Submit(b, id, kind, c), id, now, false, releasing);
  }

  lemma NotifySmsGood(st: Settings, b: Book, id: nat, kind: NoticeKind, severity: int, now: real, releasing: set<nat>)
    requires Good(st, b, releasing, now) && id in b.alerts
    requires if kind.FirstNotice? then id in releasing && Submitted(id, FirstNotice, Sms) !in b.log
             else b.alerts[id].notifiedTs.Some?
    ensures
      var after := NotifySms(st, b, id, kind, severity, now);
      && Good(st, after, releasing, now) && OnlyAbout(b, after, id, now)
      && (b.alerts[id].notifiedTs.Some? ==> after.alerts[id].notifiedTs.Some?)
      && (Submitted(id, FirstNotice, Email) in after.log <==> Submitted(id, FirstNotice, Email) in b.log)
  {
    SpendGood(st, b, Sms, now, st.smsReach, releasing);
    var paid := Spend(st, b, Sms, now, st.smsReach);
    if Over(st, b, Sms, now) {
      NoteMarkGood(st, paid, id, now, releasing);
    } else if st.smsReach {
      SubmitMarkGood(st, paid, id, kind, Sms, now, releasing);
    }
  }

  lemma NotifyEmailGood(st: Settings, b: Book, id: nat, kind: NoticeKind, f: Facts, severity: int, now: real,
                        releasing: set<nat>)
    requires Good(st, b, releasing, now) && id in b.alerts
    requires if kind.FirstNotice? then id in releasing && Submitted(id, FirstNotice, Email) !in b.log
             else b.alerts[id].notifiedTs.Some?
    ensures
      var after := NotifyEmail(st, b, id, kind, f, severity, now);
      Good(st, after, releasing, now) && OnlyAbout(b, after, id, now)
  {
    if severity > st.floor {
      NoteMarkGood(st, b, id, now, releasing);
      MarkGood(st, b, id, now, false, releasing);
    } else {
      var wanted := WantsEmail(st, f, kind);
      SpendGood(st, b, Email, now, wanted, releasing);
      var paid := Spend(st, b, Email, now, wanted);
      if Over(st, b, Email, now) || !wanted {
        NoteGood(st, paid, id, now, releasing);
      } else {
        SubmitMarkGood(st, paid, id, kind, Email, now, releasing);
      }
    }
  }

  lemma NotifyGood(st: Settings, b: Book, id: nat, kind: NoticeKind, f: Facts, severity: int, now: real,
                   releasing: set<nat>)
    requires Good(st, b, releasing, now) && id in b.alerts
    requires if kind.FirstNotice? then id in releasing && Unsent(b, id) else b.alerts[id].notifiedTs.Some?
    ensures
      var after := Notify(st, b, id, kind, f, severity, now);
      Good(st, after, releasing, now) && OnlyAbout(b, after, id, now)
  {
    NotifyWebhookGood(st, b, id, kind, now, releasing);
    var b1 := if f.emailOn then NotifyWebhook(st, b, id, kind, now) else b;
    NotifySmsGood(st, b1, id, kind, severity, now, releasing);
    var b2 := if f.smsOn then NotifySms(st, b1, id, kind, severity, now) else b1;
    if f.emailOn {
      NotifyEmailGood(st, b2, id, kind, f, severity, now, releasing);
    }
  }

  // ----------------------------------------------------------------- digests

  lemma SplitLast(ids: seq<nat>)
    requires ids != [] && Distinct(ids)
    ensures
      var init, last := ids[..|ids| - 1], ids[|ids| - 1];
      ids == init + [last] && Distinct(init) && last !in init && Elements(ids) == Elements(init) + {last}
  {
  }

  lemma {:induction false} SubsetIsAFilter(ids: seq<nat>, keep: set<nat>)
    requires Distinct(ids)
    ensures Distinct(Subset(ids, keep)) && Elements(Subset(ids, keep)) == Elements(ids) * keep
    ensures forall id :: id in Subset(ids, keep) <==> id in ids && id in keep
  {
    if ids != [] {
      SplitLast(ids);
      var init, last := ids[..|ids| - 1], ids[|ids| - 1];
      SubsetIsAFilter(init, keep);
      assert forall id :: id in ids <==> id in init || id == last;
    }
  }

  /** Nothing but perhaps the rows of `ids`, each stamped, and no submission gained or lost. */
  ghost predicate StampedOnly(before: Book, after: Book, ids: seq<nat>, now: real) {
    && after.alerts.Keys == before.alerts.Keys
    && (forall id :: id in before.alerts ==>
          after.alerts[id] == if id in ids then Marked(before.alerts[id], now, false) else before.alerts[id])
    && (forall e: Entry :: e.Submitted? ==> (e in after.log <==> e in before.log))
    && forall c :: SentOn(after, c) == SentOn(before, c) && AttemptsOn(after.log, c) == AttemptsOn(before.log, c)
  }

  lemma MarkAttempts(b: Book, id: nat, now: real, held: bool, c: Channel)
    ensures AttemptsOn(Mark(b, id, now, held).log, c) == AttemptsOn(b.log, c)
    ensures SentOn(Mark(b, id, now, held), c) == SentOn(b, c)
  {
  }

  lemma {:induction false} MarkAllGood(st: Settings, b: Book, ids: seq<nat>, now: real, releasing: set<nat>)
    requires Good(st, b, releasing, now) && Distinct(ids) && forall id :: id in ids ==> id in b.alerts
    ensures Good(st, MarkAll(b, ids, now), releasing - Elements(ids), now)
    ensures StampedOnly(b, MarkAll(b, ids, now), ids, now)
  {
    if ids == [] {
      assert releasing - Elements(ids) == releasing;
    } else {
      SplitLast(ids);
      var init, last := ids[..|ids| - 1], ids[|ids| - 1];
      MarkAllGood(st, b, init, now, releasing);
      var before := MarkAll(b, init, now);
      MarkGood(st, before, last, now, false, releasing - Elements(init));
      assert releasing - Elements(init) - {last} == releasing - Elements(ids);
      forall c ensures SentOn(Mark(before, last, now, false), c) == SentOn(b, c)
               && AttemptsOn(Mark(before, last, now, false).log, c) == AttemptsOn(b.log, c)
      {
        MarkAttempts(before, last, now, false, c);
      }
    }
  }

  lemma {:induction false} NoteAllGood(st: Settings, b: Book, ids: seq<nat>, now: real, releasing: set<nat>)
    requires Good(st, b, releasing, now)
    ensures
      var after := NoteAll(b, ids);
      && Good(st, after, releasing, now) && after.alerts == b.alerts
      && (forall e: Entry :: !e.NotSent? ==> (e in after.log <==> e in b.log))
      && (forall id :: id in ids ==> NotSent(id) in after.log)
      && forall c :: AttemptsOn(after.log, c) == AttemptsOn(b.log, c)
  {
    if ids != [] {
      var init, last := ids[..|ids| - 1], ids[|ids| - 1];
      assert ids == init + [last];
      NoteAllGood(st, b, init, now, releasing);
      NoteGood(st, NoteAll(b, init), last, now, releasing);
      forall c ensures AttemptsOn(NoteAll(b, ids).log, c) == AttemptsOn(b.log, c) {
        AttemptsOneMore(NoteAll(b, init).log, NotSent(last), c);
      }
    }
  }

  lemma {:induction false} SubmitAllGood(st: Settings, b: Book, ids: seq<nat>, c: Channel, now: real,
                                         releasing: set<nat>)
    requires Good(st, b, releasing, now) && Distinct(ids) && Elements(ids) <= releasing
    requires forall id :: id in ids ==> id in b.alerts && Submitted(id, FirstNotice, c) !in b.log
    ensures
      var after := SubmitAll(b, ids, c);
      && Good(st, after, releasing, now) && after.alerts == b.alerts
      && (forall e: Entry :: e in after.log <==>
            e in b.log || (exists id :: id in ids && e == Submitted(id, FirstNotice, c)))
      && forall d :: AttemptsOn(after.log, d) == AttemptsOn(b.log, d)
  {
    if ids != [] {
      SplitLast(ids);
      var init, last := ids[..|ids| - 1], ids[|ids| - 1];
      SubmitAllGood(st, b, init, c, now, releasing);
      SubmitGood(st, SubmitAll(b, init, c), last, FirstNotice, c, now, releasing);
      forall d ensures AttemptsOn(SubmitAll(b, ids, c).log, d) == AttemptsOn(b.log, d) {
        AttemptsOneMore(SubmitAll(b, init, c).log, Submitted(last, FirstNotice, c), d);
      }
    }
  }

  /** One channel's digest: exactly one attempt however many alerts it speaks for, and each of them
      told; or no attempt, nobody told, and the reason recorded on each. */
  lemma DigestGood(st: Settings, b: Book, ids: seq<nat>, c: Channel, now: real, releasing: set<nat>)
    requires Good(st, b, releasing, now) && Distinct(ids) && Elements(ids) <= releasing
    requires forall id :: id in ids ==> id in b.alerts && Submitted(id, FirstNotice, c) !in b.log
    ensures
      var after, over := DigestOn(st, b, ids, c, now), Over(st, b, c, now);
      && Good(st, after, releasing, now) && after.alerts == b.alerts
      && (forall e: Entry :: e.Submitted? ==>
            (e in after.log <==> e in b.log || (!over && e.id in ids && e == Submitted(e.id, FirstNotice, c))))
      && (over ==> forall id :: id in ids ==> NotSent(id) in after.log)
      && AttemptsOn(after.log, c) == AttemptsOn(b.log, c) + if over then [] else [now]
  {
    var paid := Spend(st, b, c, now, true);
    SpendGood(st, b, c, now, true, releasing);
    AttemptsOneMore(b.log, Attempt(c, now), c);
    if Over(st, b, c, now) {
      NoteAllGood(st, paid, ids, now, releasing);
    } else {
      SubmitAllGood(st, paid, ids, c, now, releasing);
    }
  }

  /** A digest tells only about alerts it was given, on the channel it is for. */
  ghost predicate NewOnly(before: Book, after: Book, ids: seq<nat>, c: Channel) {
    forall e: Entry :: e.Submitted? && e in after.log && e !in before.log ==> e.id in ids && e.channel == c
  }

  lemma WebhookDigestGood(st: Settings, b: Book, ids: seq<nat>, now: real, releasing: set<nat>)
    requires Good(st, b, releasing, now) && Distinct(ids) && Elements(ids) <= releasing
    requires forall id :: id in ids ==> id in b.alerts && Submitted(id, FirstNotice, Webhook) !in b.log
    ensures
      var after := WebhookDigest(st, b, ids, now);
      Good(st, after, releasing, now) && after.alerts == b.alerts && NewOnly(b, after, ids, Webhook)
  {
    DigestGood(st, b, ids, Webhook, now, releasing);
  }

  lemma SmsDigestGood(st: Settings, b: Book, ids: seq<nat>, now: real, releasing: set<nat>)
    requires Good(st, b, releasing, now) && Distinct(ids) && Elements(ids) <= releasing
    requires forall id :: id in ids ==> id in b.alerts && Submitted(id, FirstNotice, Sms) !in b.log
    ensures
      var after := SmsDigest(st, b, ids, now);
      Good(st, after, releasing, now) && after.alerts == b.alerts && NewOnly(b, after, ids, Sms)
  {
    DigestGood(st, b, ids, Sms, now, releasing);
    SpendGood(st, b, Sms, now, false, releasing);
  }

  /** The email digest stamps every alert it speaks for, whichever guard stopped it; they are told
      exactly when none did. */
  lemma EmailDigestGood(st: Settings, b: Book, ids: seq<nat>, now: real, releasing: set<nat>)
    requires Good(st, b, releasing, now) && Distinct(ids) && Elements(ids) <= releasing
    requires forall id :: id in ids ==> id in b.alerts && Submitted(id, FirstNotice, Email) !in b.log
    ensures
      var after := EmailDigest(st, b, ids, now);
      && Good(st, after, releasing - Elements(ids), now) && after.alerts.Keys == b.alerts.Keys
      && (forall id :: id in b.alerts ==>
            after.alerts[id] == if id in ids then Marked(b.alerts[id], now, false) else b.alerts[id])
      && (forall id :: id in ids ==>
            (Submitted(id, FirstNotice, Email) in after.log <==>
               !Over(st, b, Email, now) && st.emailReady && st.recipients))
      && NewOnly(b, after, ids, Email)
  {
    if ids == [] {
      assert releasing - Elements(ids) == releasing;
    } else if Over(st, b, Email, now) || (st.emailReady && st.recipients) {
      DigestGood(st, b, ids, Email, now, releasing);
      MarkAllGood(st, DigestOn(st, b, ids, Email, now), ids, now, releasing);
    } else {
      SpendGood(st, b, Email, now, false, releasing);
      MarkAllGood(st, Spend(st, b, Email, now, false), ids, now, releasing);
    }
  }

  /** The whole digest leaves no alert undecided: every one is stamped, those below the email floor
      and those of text-only rules included. */
  lemma SendDigestGood(st: Settings, b: Book, ids: seq<nat>, facts: map<nat, Facts>, now: real)
    requires Good(st, b, {}, now) && Distinct(ids)
    requires forall id :: id in ids ==> id in b.alerts && id in facts && Unsent(b, id)
    ensures
      var after := SendDigest(st, b, ids, facts, now);
      && Good(st, after, {}, now) && after.alerts.Keys == b.alerts.Keys
      && (forall id :: id in b.alerts ==>
            after.alerts[id] == if id in ids then Marked(b.alerts[id], now, false) else b.alerts[id])
      && forall e: Entry :: e.Submitted? && e in after.log && e !in b.log ==> e.id in ids
  {
    var releasing := Elements(ids);
    var mailable := Mailable(st, b.alerts, ids, facts);
    var emailable, textable := Emailable(ids, facts), Textable(st, b.alerts, ids, facts);
    SubsetIsAFilter(ids, emailable);
    SubsetIsAFilter(ids, textable);
    SubsetIsAFilter(ids, releasing - mailable);
    SubsetIsAFilter(ids, mailable);
    WebhookDigestGood(st, b, Subset(ids, emailable), now, releasing);
    var b1 := WebhookDigest(st, b, Subset(ids, emailable), now);
    SmsDigestGood(st, b1, Subset(ids, textable), now, releasing);
    var b2 := SmsDigest(st, b1, Subset(ids, textable), now);
    MarkAllGood(st, b2, Subset(ids, releasing - mailable), now, releasing);
    var b3 := MarkAll(b2, Subset(ids, releasing - mailable), now);
    assert releasing - Elements(Subset(ids, releasing - mailable)) == mailable;
    EmailDigestGood(st, b3, Subset(ids, mailable), now, mailable);
    assert mailable - Elements(Subset(ids, mailable)) == {};
  }

  // --------------------------------------------------------------- the sweep

  ghost predicate DueList(b: Book, due: seq<nat>, facts: map<nat, Facts>) {
    Distinct(due) && forall id :: id in due ==> id in b.alerts && id in facts && b.alerts[id].notifiedTs.None?
  }

  /** Alerts settled as decided; the others as they were, or re-armed. */
  ghost predicate SettledSoFar(st: Settings, b: Book, after: Book, done: seq<nat>, facts: map<nat, Facts>,
                               maintenance: set<nat>, now: real)
    requires forall id :: id in done ==> id in b.alerts && id in facts
  {
    && after.alerts.Keys == b.alerts.Keys
    && (forall id :: id in done && !DecisionFor(st, b, facts, maintenance, id).Release? ==>
          Settled(DecisionFor(st, b, facts, maintenance, id), b.alerts[id], after.alerts[id], now))
    && (forall id :: id in b.alerts && (id in done ==> DecisionFor(st, b, facts, maintenance, id).Release?) ==>
          LeftAlone(b.alerts[id], after.alerts[id]))
    && forall e: Entry :: e.Submitted? ==> (e in after.log <==> e in b.log)
  }

  /** Re-arming, or holding a quiet alert, touches only rows without a submitted first notice. */
  lemma RearmGood(st: Settings, b: Book, d: nat, now: real)
    requires Good(st, b, {}, now)
    ensures Good(st, Rearm(b, d), {}, now)
  {
  }

  lemma HoldQuietGood(st: Settings, b: Book, id: nat, now: real)
    requires Good(st, b, {}, now) && id in b.alerts && b.alerts[id].notifiedTs.None?
    ensures Good(st, HoldQuiet(b, id, now), {}, now)
  {
  }

  lemma SettleOneGood(st: Settings, b: Book, id: nat, d: Decision, now: real)
    requires Good(st, b, {}, now) && HoldOn(st) && id in b.alerts && b.alerts[id].notifiedTs.None?
    ensures Good(st, SettleOne(st, b, id, d, now), {}, now)
    ensures forall e: Entry :: e.Submitted? ==> (e in SettleOne(st, b, id, d, now).log <==> e in b.log)
  {
    assert Unsent(b, id);
    match d
    case Stamp => MarkGood(st, b, id, now, false, {});
    case Record => NoteMarkGood(st, b, id, now, {});
    case RecordHeld =>
      NoteGood(st, b, id, now, {});
      assert Unsent(Note(b, id), id);
      MarkGood(st, Note(b, id), id, now, true, {});
    case KeepQuiet => HoldQuietGood(st, b, id, now);
    case Release =>
  }

  /** Settling one more alert disturbs no settled one: what it may re-arm is on its own device, which
      is not in maintenance. */
  lemma SettleOneKeepsOthers(st: Settings, b: Book, was: Book, done: seq<nat>, facts: map<nat, Facts>,
                             maintenance: set<nat>, id: nat, now: real)
    requires HoldOn(st) && DueList(b, done + [id], facts) && id !in done
    requires SettledSoFar(st, b, was, done, facts, maintenance, now)
    requires id in b.alerts && id in facts
    ensures
      var after := SettleOne(st, was, id, DecisionFor(st, b, facts, maintenance, id), now);
      after.alerts.Keys == b.alerts.Keys
      && (forall x :: x in done && !DecisionFor(st, b, facts, maintenance, x).Release? ==>
            Settled(DecisionFor(st, b, facts, maintenance, x), b.alerts[x], after.alerts[x], now))
      && (forall x :: x in b.alerts && x != id && (x in done ==> DecisionFor(st, b, facts, maintenance, x).Release?) ==>
            LeftAlone(b.alerts[x], after.alerts[x]))
  {
    var d := DecisionFor(st, b, facts, maintenance, id);
    var after := SettleOne(st, was, id, d, now);
    assert forall x :: x in done ==> x in done + [id];
    assert id in done + [id];
    assert was.alerts[id] == b.alerts[id];
    SettleOneRows(st, was, id, d, maintenance, now);
  }

  /** What settling one alert does to the others: nothing, or re-arming those held on its own device. */
  lemma SettleOneRows(st: Settings, was: Book, id: nat, d: Decision, maintenance: set<nat>, now: real)
    requires id in was.alerts && (d.KeepQuiet? ==> !InMaintenance(was.alerts[id], maintenance))
    ensures
      var after := SettleOne(st, was, id, d, now);
      && after.alerts.Keys == was.alerts.Keys
      && forall x :: x in was.alerts && x != id ==>
           || after.alerts[x] == was.alerts[x]
           || (was.alerts[x].state.Open? && was.alerts[x].heldTs.Some? && !InMaintenance(was.alerts[x], maintenance)
               && after.alerts[x] == was.alerts[x].(notifiedTs := None))
  {
  }

  lemma SettleOneSettles(st: Settings, b: Book, was: Book, facts: map<nat, Facts>, maintenance: set<nat>, id: nat,
                         now: real)
    requires HoldOn(st) && id in b.alerts && id in facts && id in was.alerts && was.alerts[id] == b.alerts[id]
    requires b.alerts[id].notifiedTs.None?
    ensures
      var d := DecisionFor(st, b, facts, maintenance, id);
      var after := SettleOne(st, was, id, d, now);
      id in after.alerts && if d.Release? then after.alerts[id] == b.alerts[id]
          else Settled(d, b.alerts[id], after.alerts[id], now)
  {
  }

  /** Decided without a send, and not because the rule never notifies: the reason is recorded. */
  predicate Recorded(d: Decision) {
    d.Record? || d.RecordHeld?
  }

  lemma SettleOneRecords(st: Settings, was: Book, id: nat, d: Decision, now: real)
    requires HoldOn(st) && id in was.alerts && was.alerts[id].notifiedTs.None?
    ensures forall e :: e in was.log ==> e in SettleOne(st, was, id, d, now).log
    ensures Recorded(d) ==> NotSent(id) in SettleOne(st, was, id, d, now).log
  {
  }

  /** Every due alert that is decided without a send has the reason recorded on it. */
  lemma {:induction false} ReasonsAreRecorded(st: Settings, b: Book, due: seq<nat>, facts: map<nat, Facts>,
                                              maintenance: set<nat>, now: real)
    requires Good(st, b, {}, now) && HoldOn(st) && DueList(b, due, facts)
    ensures
      var after := SettleAll(st, b, due, facts, maintenance, now);
      forall id :: id in due && Recorded(DecisionFor(st, b, facts, maintenance, id)) ==> NotSent(id) in after.log
  {
    if due != [] {
      SplitLast(due);
      var init, last := due[..|due| - 1], due[|due| - 1];
      assert forall id :: id in due <==> id in init || id == last;
      ReasonsAreRecorded(st, b, init, facts, maintenance, now);
      SettleAllGood(st, b, init, facts, maintenance, now);
      var was := SettleAll(st, b, init, facts, maintenance, now);
      assert LeftAlone(b.alerts[last], was.alerts[last]);
      SettleOneRecords(st, was, last, DecisionFor(st, b, facts, maintenance, last), now);
    }
  }

  lemma {:induction false} SettleAllGood(st: Settings, b: Book, due: seq<nat>, facts: map<nat, Facts>,
                                         maintenance: set<nat>, now: real)
    requires Good(st, b, {}, now) && HoldOn(st) && DueList(b, due, facts)
    ensures
      var after := SettleAll(st, b, due, facts, maintenance, now);
      Good(st, after, {}, now) && SettledSoFar(st, b, after, due, facts, maintenance, now)
  {
    if due != [] {
      SplitLast(due);
      var init, last := due[..|due| - 1], due[|due| - 1];
      assert forall id :: id in due <==> id in init || id == last;
      SettleAllGood(st, b, init, facts, maintenance, now);
      var was := SettleAll(st, b, init, facts, maintenance, now);
      assert was.alerts[last] == b.alerts[last];
      SettleOneGood(st, was, last, DecisionFor(st, b, facts, maintenance, last), now);
      SettleOneKeepsOthers(st, b, was, init, facts, maintenance, last, now);
      SettleOneSettles(st, b, was, facts, maintenance, last, now);
    }
  }

  lemma {:induction false} ReleasedDistinct(st: Settings, b: Book, due: seq<nat>, facts: map<nat, Facts>,
                                            maintenance: set<nat>)
    requires DueList(b, due, facts)
    ensures Distinct(Released(st, b, due, facts, maintenance))
  {
    if due != [] {
      SplitLast(due);
      ReleasedDistinct(st, b, due[..|due| - 1], facts, maintenance);
    }
  }

  lemma {:induction false} SendEachGood(st: Settings, b: Book, ids: seq<nat>, rows: map<nat, Alert>,
                                        facts: map<nat, Facts>, now: real)
    requires Good(st, b, {}, now) && Distinct(ids)
    requires forall id :: id in ids ==> id in b.alerts && id in rows && id in facts && Unsent(b, id)
    ensures
      var after := SendEach(st, b, ids, rows, facts, now);
      && Good(st, after, {}, now) && after.alerts.Keys == b.alerts.Keys
      && (forall id :: id in b.alerts && id !in ids ==> after.alerts[id] == b.alerts[id])
      && (forall id :: id in ids ==> after.alerts[id] == Marked(b.alerts[id], now, false))
      && (forall x, k, c :: Submitted(x, k, c) in after.log && x !in ids ==> Submitted(x, k, c) in b.log)
  {
    if ids != [] {
      SplitLast(ids);
      var init, last := ids[..|ids| - 1], ids[|ids| - 1];
      assert forall id :: id in ids <==> id in init || id == last;
      SendEachGood(st, b, init, rows, facts, now);
      var before := SendEach(st, b, init, rows, facts, now);
      assert Unsent(before, last);
      SendOneGood(st, before, last, facts[last], rows[last].severity, now);
    }
  }

  /** Sending one released alert stamps it and touches no other. */
  lemma SendOneGood(st: Settings, b: Book, id: nat, f: Facts, severity: int, now: real)
    requires Good(st, b, {}, now) && id in b.alerts && Unsent(b, id)
    ensures
      var after := Mark(Notify(st, b, id, FirstNotice, f, severity, now), id, now, false);
      && Good(st, after, {}, now) && after.alerts == b.alerts[id := Marked(b.alerts[id], now, false)]
      && (forall x, k, c :: Submitted(x, k, c) in after.log && x != id ==> Submitted(x, k, c) in b.log)
  {
    var told := Notify(st, b, id, FirstNotice, f, severity, now);
    NotifyGood(st, b, id, FirstNotice, f, severity, now, {id});
    MarkGood(st, told, id, now, false, {id});
    assert {id} - {id} == {};
    StampAfter(b, told, id, now);
  }

  /** Stamping what a notice may already have stamped. */
  lemma StampAfter(b: Book, told: Book, id: nat, now: real)
    requires OnlyAbout(b, told, id, now) && id in b.alerts
    ensures
      var after := Mark(told, id, now, false);
      && after.alerts == b.alerts[id := Marked(b.alerts[id], now, false)]
      && (forall x, k, c :: Submitted(x, k, c) in after.log && x != id ==> Submitted(x, k, c) in b.log)
  {
    var after := Mark(told, id, now, false);
    assert after.alerts[id] == Marked(b.alerts[id], now, false);
    assert forall x :: x in b.alerts && x != id ==> after.alerts[x] == b.alerts[x];
  }
}
