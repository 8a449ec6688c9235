/**
 Runs of the notice machinery with the hold on, over any interleaving of alerts
 opening, repeating, clearing, being absorbed, acknowledged or re-armed, of
 reminders and of sweeps.
 */
module NoticeRuns {
  import opened Wrappers
  import opened SendBudget
  import opened Notices
  import opened FirstNotice

  /** Sending what the sweep released, one by one or as a digest, stamps each and nothing else, and
      tells about nothing else. */
  lemma SendGood(st: Settings, b: Book, ids: seq<nat>, rows: map<nat, Alert>, facts: map<nat, Facts>, now: real)
    requires Good(st, b, {}, now) && Distinct(ids)
    requires forall id :: id in ids ==> id in b.alerts && id in rows && id in facts && Unsent(b, id)
    ensures
      var after := if |ids| > DIGEST_THRESHOLD then SendDigest(st, b, ids, facts, now)
          else SendEach(st, b, ids, rows, facts, now);
      && Good(st, after, {}, now) && after.alerts.Keys == b.alerts.Keys
      && (forall id :: id in b.alerts ==>
            after.alerts[id] == if id in ids then Marked(b.alerts[id], now, false) else b.alerts[id])
      && forall e: Entry :: e.Submitted? && e in after.log && e !in b.log ==> e.id in ids
  {
    if |ids| > DIGEST_THRESHOLD {
      SendDigestGood(st, b, ids, facts, now);
    } else {
      SendEachGood(st, b, ids, rows, facts, now);
      var after := SendEach(st, b, ids, rows, facts, now);
      forall e: Entry | e.Submitted? && e in after.log && e !in b.log ensures e.id in ids {
        assert e == Submitted(e.id, e.kind, e.channel);
      }
    }
  }

  lemma ReleasedAreReady(st: Settings, b: Book, due: seq<nat>, facts: map<nat, Facts>, maintenance: set<nat>, now: real)
    requires HoldOn(st) && Good(st, b, {}, now) && DueList(b, due, facts)
    ensures
      var settled, ids := SettleAll(st, b, due, facts, maintenance, now), Released(st, b, due, facts, maintenance);
      && Good(st, settled, {}, now) && SettledSoFar(st, b, settled, due, facts, maintenance, now) && Distinct(ids)
      && forall id :: id in ids ==> id in settled.alerts && settled.alerts[id] == b.alerts[id] && Unsent(settled, id)
  {
    SettleAllGood(st, b, due, facts, maintenance, now);
    ReleasedDistinct(st, b, due, facts, maintenance);
  }

  /** One sweep decides every due alert, and leaves every row as DecidedRow says. */
  lemma SweepDecides(st: Settings, b: Book, due: seq<nat>, facts: map<nat, Facts>, maintenance: set<nat>, now: real)
    requires HoldOn(st) && Good(st, b, {}, now) && DueList(b, due, facts)
    ensures
      var after := Sweep(st, b, due, facts, maintenance, now);
      Good(st, after, {}, now) && after.alerts.Keys == b.alerts.Keys
    ensures
      var after := Sweep(st, b, due, facts, maintenance, now);
      forall id :: id in b.alerts ==> DecidedRow(st, b, after, due, facts, maintenance, id, now)
  {
    ReleasedAreReady(st, b, due, facts, maintenance, now);
    var settled := SettleAll(st, b, due, facts, maintenance, now);
    var sendable := Released(st, b, due, facts, maintenance);
    SendGood(st, settled, sendable, b.alerts, facts, now);
    forall id | id in b.alerts
      ensures DecidedRow(st, b, Sweep(st, b, due, facts, maintenance, now), due, facts, maintenance, id, now)
    {
      RowIsDecided(st, b, settled, Sweep(st, b, due, facts, maintenance, now), due, facts, maintenance, id, now);
    }
  }

  /** One row, settled and then sent if it was released. */
  lemma RowIsDecided(st: Settings, b: Book, settled: Book, after: Book, due: seq<nat>, facts: map<nat, Facts>,
                     maintenance: set<nat>, id: nat, now: real)
    requires DueList(b, due, facts) && SettledSoFar(st, b, settled, due, facts, maintenance, now)
    requires id in b.alerts && id in after.alerts
    requires
      var sendable := Released(st, b, due, facts, maintenance);
      && (id in sendable ==> settled.alerts[id] == b.alerts[id])
      && after.alerts[id] == if id in sendable then Marked(settled.alerts[id], now, false) else settled.alerts[id]
    ensures DecidedRow(st, b, after, due, facts, maintenance, id, now)
  {
  }

  /** How a sweep leaves one row. A due alert is settled as its decision says and stays undecided
      only when the decision is to keep quiet, that is when it is muted or in a window; a row that
      was not due is left alone. */
  ghost predicate DecidedRow(st: Settings, b: Book, after: Book, due: seq<nat>, facts: map<nat, Facts>,
                             maintenance: set<nat>, id: nat, now: real)
    requires id in b.alerts && id in after.alerts && (id in due ==> id in facts)
  {
    if id in due then
      var d := DecisionFor(st, b, facts, maintenance, id);
      && Settled(d, b.alerts[id], after.alerts[id], now)
      && (after.alerts[id].notifiedTs.None? <==> d.KeepQuiet?)
    else LeftAlone(b.alerts[id], after.alerts[id])
  }

  /** A notice kept quiet stays owed, however long the silence lasts, exactly when its alert is
      marked held: when it was already, or is still open and belongs to a device. One that was
      acknowledged while muted is dropped an hour after its delay. */
  lemma QuietNoticesStayOwed(st: Settings, before: Alert, after: Alert, now: real)
    requires HoldOn(st) && Due(st, before, now) && Settled(KeepQuiet, before, after, now)
    ensures (forall later :: later >= now ==> Due(st, after, later)) <==>
            before.heldTs.Some? || (before.state.Open? && before.device.Some?)
  {
    if after.heldTs.None? {
      var late := now + Delay(st) + BACKLOG_GRACE + 1.0;
      assert !Due(st, after, late);
    }
  }

  // -------------------------------------------------------------------- runs

  /** What can happen to the notice state. */
  datatype Event =
    | Opens(id: nat, row: Alert, facts: Facts)
    | Repeats(id: nat, facts: Facts)
    | Clears(id: nat, facts: Facts, quiet: bool)
    | Closes(id: nat)
    | Moves(id: nat, state: State)
    | EndsMaintenance(device: nat)
    | Reminders(dueAgain: seq<nat>, known: map<nat, Facts>, quietIds: set<nat>)
    | Sweeps(due: seq<nat>, known: map<nat, Facts>, maintenance: set<nat>)

  /** What the database contracts allow: a new row has a new id, and a sweep is handed distinct
      alerts that are due. */
  ghost predicate Allowed(st: Settings, b: Book, e: Event, now: real) {
    match e
    case Opens(id, _, _) => id !in b.alerts
    case Sweeps(due, known, _) => DueList(b, due, known) && forall id :: id in due ==> Due(st, b.alerts[id], now)
    case _ => true
  }

  function Step(st: Settings, b: Book, e: Event, now: real): Book
    requires e.Sweeps? ==> forall id :: id in e.due ==> id in b.alerts && id in e.known
  {
    match e
    case Opens(id, row, f) => Opened(st, b, id, row, f, now)
    case Repeats(id, f) => Repeated(st, b, id, f, now)
    case Clears(id, f, quiet) => Cleared(st, b, id, f, quiet, now)
    case Closes(id) => ClosedSilently(st, b, id, now)
    case Moves(id, s) => WithState(b, id, s)
    case EndsMaintenance(d) => Rearm(b, d)
    case Reminders(due, known, quiet) => Remind(st, b, due, known, quiet, now)
    case Sweeps(due, known, maintenance) => Sweep(st, b, due, known, maintenance, now)
  }

  const Empty := Book(map[], [], [], [], [])

  datatype Timed = Timed(event: Event, at: real)

  /** A run from an empty alert store, with the clock going forward. */
  ghost predicate Run(st: Settings, books: seq<Book>, events: seq<Timed>) {
    && |books| == |events| + 1 && books[0] == Empty
    && (forall i, j :: 0 <= i < j < |events| ==> events[i].at <= events[j].at)
    && forall i :: 0 <= i < |events| ==>
         Allowed(st, books[i], events[i].event, events[i].at)
             && books[i + 1] == Step(st, books[i], events[i].event, events[i].at)
  }

  lemma WithStateGood(st: Settings, b: Book, id: nat, s: State, now: real)
    requires Good(st, b, {}, now)
    ensures Good(st, WithState(b, id, s), {}, now)
  {
  }

  lemma SkipHeldGood(st: Settings, b: Book, id: nat, now: real)
    requires Good(st, b, {}, now)
    ensures Good(st, SkipHeld(st, b, id, now, false), {}, now)
    ensures forall e: Entry :: e.Submitted? ==> (e in SkipHeld(st, b, id, now, false).log <==> e in b.log)
  {
    if id in b.alerts {
      NoteMarkGood(st, b, id, now, {});
    }
  }

  /** Only the sweep submits first notices. */
  ghost predicate NoFirstNotices(before: Book, after: Book) {
    forall x, c :: Submitted(x, FirstNotice, c) in after.log ==> Submitted(x, FirstNotice, c) in before.log
  }

  /** A notice about an alert whose first notice is decided. */
  lemma LaterNoticeGood(st: Settings, b: Book, id: nat, kind: NoticeKind, f: Facts, severity: int, now: real)
    requires Good(st, b, {}, now) && id in b.alerts && b.alerts[id].notifiedTs.Some? && !kind.FirstNotice?
    ensures Good(st, Notify(st, b, id, kind, f, severity, now), {}, now)
    ensures NoFirstNotices(b, Notify(st, b, id, kind, f, severity, now))
  {
    NotifyGood(st, b, id, kind, f, severity, now, {});
    NotifySubmitsItsKind(st, b, id, kind, f, severity, now);
  }

  ghost predicate NewOfKind(before: Book, after: Book, kind: NoticeKind) {
    forall e: Entry :: e in after.log && e !in before.log && e.Submitted? ==> e.kind == kind
  }

  lemma WebhookSubmitsItsKind(st: Settings, b: Book, id: nat, kind: NoticeKind, now: real)
    ensures NewOfKind(b, NotifyWebhook(st, b, id, kind, now), kind)
  {
  }

  lemma SmsSubmitsItsKind(st: Settings, b: Book, id: nat, kind: NoticeKind, severity: int, now: real)
    ensures NewOfKind(b, NotifySms(st, b, id, kind, severity, now), kind)
  {
  }

  lemma EmailSubmitsItsKind(st: Settings, b: Book, id: nat, kind: NoticeKind, f: Facts, severity: int, now: real)
    ensures NewOfKind(b, NotifyEmail(st, b, id, kind, f, severity, now), kind)
  {
  }

  lemma NotifySubmitsItsKind(st: Settings, b: Book, id: nat, kind: NoticeKind, f: Facts, severity: int, now: real)
    ensures NewOfKind(b, Notify(st, b, id, kind, f, severity, now), kind)
  {
    var b1 := if f.emailOn then NotifyWebhook(st, b, id, kind, now) else b;
    WebhookSubmitsItsKind(st, b, id, kind, now);
    var b2 := if f.smsOn then NotifySms(st, b1, id, kind, severity, now) else b1;
    SmsSubmitsItsKind(st, b1, id, kind, severity, now);
    EmailSubmitsItsKind(st, b2, id, kind, f, severity, now);
  }

  lemma {:induction false} RemindGood(st: Settings, b: Book, due: seq<nat>, facts: map<nat, Facts>, quiet: set<nat>,
                                      now: real)
    requires HoldOn(st) && Good(st, b, {}, now)
    ensures Good(st, Remind(st, b, due, facts, quiet, now), {}, now)
    ensures NoFirstNotices(b, Remind(st, b, due, facts, quiet, now))
  {
    if due != [] {
      var init, last := due[..|due| - 1], due[|due| - 1];
      RemindGood(st, b, init, facts, quiet, now);
      var before := Remind(st, b, init, facts, quiet, now);
      if last in before.alerts && last in facts && before.alerts[last].notifiedTs.Some? {
        LaterNoticeGood(st, before, last, Reminder, facts[last], before.alerts[last].severity, now);
      }
    }
  }

  lemma ClearedGood(st: Settings, b: Book, id: nat, f: Facts, quiet: bool, now: real)
    requires HoldOn(st) && Good(st, b, {}, now)
    ensures Good(st, Cleared(st, b, id, f, quiet, now), {}, now) && NoFirstNotices(b, Cleared(st, b, id, f, quiet, now))
  {
    WithStateGood(st, b, id, Resolved, now);
    var c := WithState(b, id, Resolved);
    if id in b.alerts && st.notifyOnClear {
      SkipHeldGood(st, c, id, now);
      if c.alerts[id].notifiedTs.Some? && !quiet {
        LaterNoticeGood(st, c, id, ClearNotice, f, c.alerts[id].severity, now);
      }
    }
  }

  lemma OpenedGood(st: Settings, b: Book, id: nat, row: Alert, now: real)
    requires Good(st, b, {}, now) && id !in b.alerts
    ensures Good(st, b.(alerts := b.alerts[id := row.(notifiedTs := None, heldTs := None)]), {}, now)
  {
  }

  /** Every event keeps what is kept, and no event but a sweep submits a first notice. */
  lemma StepKeepsGood(st: Settings, b: Book, e: Event, now: real)
    requires HoldOn(st) && Good(st, b, {}, now) && Allowed(st, b, e, now)
    ensures Good(st, Step(st, b, e, now), {}, now)
    ensures !e.Sweeps? ==> NoFirstNotices(b, Step(st, b, e, now))
  {
    match e
    case Opens(id, row, _) => OpenedGood(st, b, id, row, now);
    case Repeats(id, f) =>
      if id in b.alerts && b.alerts[id].notifiedTs.Some? {
        LaterNoticeGood(st, b, id, RepeatNotice, f, b.alerts[id].severity, now);
      }
    case Clears(id, f, quiet) => ClearedGood(st, b, id, f, quiet, now);
    case Closes(id) =>
      WithStateGood(st, b, id, Resolved, now);
      SkipHeldGood(st, WithState(b, id, Resolved), id, now);
    case Moves(id, s) => WithStateGood(st, b, id, s, now);
    case EndsMaintenance(d) => RearmGood(st, b, d, now);
    case Reminders(due, known, quiet) => RemindGood(st, b, due, known, quiet, now);
    case Sweeps(due, known, maintenance) => SweepDecides(st, b, due, known, maintenance, now);
  }

  function Clock(events: seq<Timed>, i: nat): real
    requires i <= |events|
  {
    if i == 0 then if |events| == 0 then 0.0 else events[0].at else events[i - 1].at
  }

  /** Over every run: no reminder, repeat or clear notice precedes its alert's decision, no alert's
      first notice goes out twice on a channel, and the budgets' histories stay spaced. */
  lemma {:induction false} EveryRunIsGood(st: Settings, books: seq<Book>, events: seq<Timed>, i: nat)
    requires HoldOn(st) && Run(st, books, events) && i <= |events|
    ensures Good(st, books[i], {}, Clock(events, i))
  {
    if i > 0 {
      EveryRunIsGood(st, books, events, i - 1);
      GoodLater(st, books[i - 1], {}, Clock(events, i - 1), events[i - 1].at);
      StepKeepsGood(st, books[i - 1], events[i - 1].event, events[i - 1].at);
    }
  }

  /** In no hour of any run does a capped channel make more attempts than its cap, single notices,
      reminders, clear notices and digests together. */
  lemma NoHourOverTheCap(st: Settings, books: seq<Book>, events: seq<Timed>, i: nat, c: Channel, from: real)
    requires HoldOn(st) && Run(st, books, events) && i <= |events|
    ensures
      var cap := match c case Email => st.emailCap case Webhook => st.webhookCap case Sms => st.smsCap;
      cap > 0 ==> InWindow(AttemptsOn(books[i].log, c), from, from + 3600.0) <= cap
  {
    EveryRunIsGood(st, books, events, i);
    if Cap(st, c) > 0 {
      SpacedHistoryFitsTheWindow(AttemptsOn(books[i].log, c), Cap(st, c), from);
    }
  }

  /** A first notice goes out only in a sweep, and only about an alert whose delay has passed and
      that is neither covered, resolved, muted nor in maintenance at that moment. */
  lemma FirstNoticesWaitForTheSweep(st: Settings, books: seq<Book>, events: seq<Timed>, i: nat, id: nat, c: Channel)
    requires HoldOn(st) && Run(st, books, events) && i < |events|
    requires Submitted(id, FirstNotice, c) in books[i + 1].log && Submitted(id, FirstNotice, c) !in books[i].log
    ensures
      var e, b := events[i].event, books[i];
      e.Sweeps? && id in e.due && Due(st, b.alerts[id], events[i].at)
      && DecisionFor(st, b, e.known, e.maintenance, id).Release?
  {
    EveryRunIsGood(st, books, events, i);
    GoodLater(st, books[i], {}, Clock(events, i), events[i].at);
    StepKeepsGood(st, books[i], events[i].event, events[i].at);
    var e, b := events[i].event, books[i];
    SweepTellsOnlyTheReleased(st, b, e.due, e.known, e.maintenance, events[i].at);
  }

  lemma SweepTellsOnlyTheReleased(st: Settings, b: Book, due: seq<nat>, facts: map<nat, Facts>, maintenance: set<nat>,
                                  now: real)
    requires HoldOn(st) && Good(st, b, {}, now) && DueList(b, due, facts)
    ensures
      var after := Sweep(st, b, due, facts, maintenance, now);
      forall e: Entry :: e.Submitted? && e in after.log && e !in b.log ==>
        e.id in due && DecisionFor(st, b, facts, maintenance, e.id).Release?
  {
    ReleasedAreReady(st, b, due, facts, maintenance, now);
    var settled := SettleAll(st, b, due, facts, maintenance, now);
    SendGood(st, settled, Released(st, b, due, facts, maintenance), b.alerts, facts, now);
  }
}
