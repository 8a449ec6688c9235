/**
 The first notice of an alert: held while related alerts may still absorb it, then
 decided once -- sent alone, sent in a digest, or recorded as not sent -- before
 any reminder or clear notice goes out. Submission, recording and stamping are
 modelled; delivery and rendering are not.
 */
module Notices {
  import opened Wrappers
  import opened SendBudget

  const DIGEST_THRESHOLD: nat := 3
  const DELAY_MAX := 3600.0
  const BACKLOG_GRACE := 3600.0

  datatype State = Open | Acked | Resolved

  /** An alert row: `notifiedTs` is last_notified_ts, `heldTs` maint_held_notify_ts. */
  datatype Alert = Alert(
    severity: int, state: State, device: Option<nat>, openedTs: real,
    notifiedTs: Option<real>, heldTs: Option<real>)

  /** What the engine looks up about an alert: its rule, the rollup answer, and its mutes. */
  datatype Facts = Facts(
    ruleEnabled: bool, systemRule: bool, emailOn: bool, smsOn: bool, hasTemplate: bool,
    rolledUp: bool, muted: bool)

  /** `smsReady` and `smsDigestReady` are whether a single text and a text digest get as far as the
      budget: only the single text checks the kind of credentials first. `smsReach` is whether there
      is anyone to text and a token to do it with. */
  datatype Settings = Settings(
    delay: real, rollup: bool, floor: int, smsFloor: int, notifyOnClear: bool,
    emailReady: bool, recipients: bool, webhookReady: bool, smsReady: bool, smsDigestReady: bool, smsReach: bool,
    emailCap: int, webhookCap: int, smsCap: int)

  datatype NoticeKind = FirstNotice | RepeatNotice | Reminder | ClearNotice

  datatype Channel = Email | Webhook | Sms

  /** What happened, in order: a notice about an alert submitted on a channel (alone or in a digest),
      one attempt charged to a channel's hourly budget, a reason recorded for not sending, and an
      undecided alert stamped. */
  datatype Entry =
    | Submitted(id: nat, kind: NoticeKind, channel: Channel)
    | Attempt(channel: Channel, at: real)
    | NotSent(id: nat)
    | Decided(id: nat)

  /** The alert rows, what has happened, and each channel's list of recent attempts. */
  datatype Book = Book(alerts: map<nat, Alert>, log: seq<Entry>, email: seq<real>, webhook: seq<real>, sms: seq<real>)

  /** _notify_rollup_delay. */
  function Delay(st: Settings): real {
    if st.delay <= 0.0 then 0.0 else if st.delay > DELAY_MAX then DELAY_MAX else st.delay
  }

  predicate HoldOn(st: Settings) {
    Delay(st) > 0.0
  }

  /** alerts_due_first_notify. */
  predicate Due(st: Settings, a: Alert, now: real) {
    && a.notifiedTs.None? && a.openedTs <= now - Delay(st)
    && (a.openedTs >= now - Delay(st) - BACKLOG_GRACE || a.heldTs.Some?)
  }

  function Marked(a: Alert, now: real, held: bool): Alert {
    a.(notifiedTs := Some(now), heldTs := if held then Some(now) else None)
  }

  /** What the sweep does about one due alert. */
  datatype Decision = Stamp | Record | RecordHeld | KeepQuiet | Release

  predicate InMaintenance(a: Alert, maintenance: set<nat>) {
    a.device.Some? && a.device.value in maintenance
  }

  function Decide(st: Settings, f: Facts, a: Alert, maintenance: set<nat>): Decision {
    if !f.ruleEnabled || f.systemRule || (!f.emailOn && !f.smsOn) then Stamp
    else if a.severity > st.floor && !(f.smsOn && a.severity <= st.smsFloor) then Record
    else if a.state.Resolved? || (st.rollup && f.rolledUp) then Record
    else if InMaintenance(a, maintenance) then RecordHeld
    else if f.muted then KeepQuiet
    else Release
  }

  /** How the sweep leaves a due alert. */
  predicate Settled(d: Decision, before: Alert, after: Alert, now: real) {
    match d
    case Stamp | Record | Release => after == Marked(before, now, false)
    case RecordHeld => after == Marked(before, now, true)
    case KeepQuiet =>
      after.notifiedTs.None? &&
      after == if before.state.Open? && before.heldTs.None? && before.device.Some? then before.(heldTs := Some(now))
          else before
  }

  /** A row the sweep did not decide: as it was, or re-armed with its device's held notices. */
  predicate LeftAlone(before: Alert, after: Alert) {
    after == before || (before.state.Open? && before.heldTs.Some? && after == before.(notifiedTs := None))
  }

  // ------------------------------------------------------------ single steps

  function Cap(st: Settings, c: Channel): int {
    match c case Email => st.emailCap case Webhook => st.webhookCap case Sms => st.smsCap
  }

  function SentOn(b: Book, c: Channel): seq<real> {
    match c case Email => b.email case Webhook => b.webhook case Sms => b.sms
  }

  function Over(st: Settings, b: Book, c: Channel, now: real): bool {
    OverCap(SentOn(b, c), now, Cap(st, c))
  }

  /** One budget decision on a channel. */
  function Spend(st: Settings, b: Book, c: Channel, now: real, wanted: bool): Book {
    var list := Charge(SentOn(b, c), now, Cap(st, c), wanted);
    var log := if wanted && !Over(st, b, c, now) then b.log + [Attempt(c, now)] else b.log;
    match c
    case Email => b.(email := list, log := log)
    case Webhook => b.(webhook := list, log := log)
    case Sms => b.(sms := list, log := log)
  }

  function Note(b: Book, id: nat): Book {
    b.(log := b.log + [NotSent(id)])
  }

  function Submit(b: Book, id: nat, kind: NoticeKind, c: Channel): Book {
    b.(log := b.log + [Submitted(id, kind, c)])
  }

  /** mark_notified. */
  function Mark(b: Book, id: nat, now: real, held: bool): Book {
    if id !in b.alerts then b
    else b.(alerts := b.alerts[id := Marked(b.alerts[id], now, held)],
            log := if b.alerts[id].notifiedTs.None? then b.log + [Decided(id)] else b.log)
  }

  // ------------------------------------------------------------ single sends

  predicate AnnouncesProblem(kind: NoticeKind) {
    kind.FirstNotice? || kind.RepeatNotice?
  }

  function NotifyWebhook(st: Settings, b: Book, id: nat, kind: NoticeKind, now: real): Book {
    if !st.webhookReady then b
    else
      var paid := Spend(st, b, Webhook, now, true);
      if Over(st, b, Webhook, now) then Note(paid, id) else Submit(paid, id, kind, Webhook)
  }

  function NotifySms(st: Settings, b: Book, id: nat, kind: NoticeKind, severity: int, now: real): Book {
    if !st.smsReady || severity > st.smsFloor then b
    else
      var paid := Spend(st, b, Sms, now, st.smsReach);
      if Over(st, b, Sms, now) then Mark(Note(paid, id), id, now, false)
      else if st.smsReach then Mark(Submit(paid, id, kind, Sms), id, now, false)
      else paid
  }

  predicate WantsEmail(st: Settings, f: Facts, kind: NoticeKind) {
    st.emailReady && (f.hasTemplate || kind.ClearNotice?) && st.recipients
  }

  function NotifyEmail(st: Settings, b: Book, id: nat, kind: NoticeKind, f: Facts, severity: int, now: real): Book {
    if severity > st.floor then Mark(if AnnouncesProblem(kind) then Note(b, id) else b, id, now, false)
    else
      var paid := Spend(st, b, Email, now, WantsEmail(st, f, kind));
      if Over(st, b, Email, now) then Note(paid, id)
      else if WantsEmail(st, f, kind) then Mark(Submit(paid, id, kind, Email), id, now, false)
      else if st.emailReady && !f.hasTemplate && AnnouncesProblem(kind) then Note(paid, id)
      else paid
  }

  /** _notify: each channel decides for itself. */
  function Notify(st: Settings, b: Book, id: nat, kind: NoticeKind, f: Facts, severity: int, now: real): Book {
    if f.systemRule || (!f.emailOn && !f.smsOn) then b
    else
      var b1 := if f.emailOn then NotifyWebhook(st, b, id, kind, now) else b;
      var b2 := if f.smsOn then NotifySms(st, b1, id, kind, severity, now) else b1;
      if f.emailOn then NotifyEmail(st, b2, id, kind, f, severity, now) else b2
  }

  // ----------------------------------------------------------------- digests

  function NoteAll(b: Book, ids: seq<nat>): Book {
    if ids == [] then b else Note(NoteAll(b, ids[..|ids| - 1]), ids[|ids| - 1])
  }

  function SubmitAll(b: Book, ids: seq<nat>, c: Channel): Book {
    if ids == [] then b else Submit(SubmitAll(b, ids[..|ids| - 1], c), ids[|ids| - 1], FirstNotice, c)
  }

  function MarkAll(b: Book, ids: seq<nat>, now: real): Book {
    if ids == [] then b else Mark(MarkAll(b, ids[..|ids| - 1], now), ids[|ids| - 1], now, false)
  }

  /** The alerts of a digest that a channel speaks for, in order. */
  function Subset(ids: seq<nat>, keep: set<nat>): seq<nat> {
    if ids == [] then []
    else
      var init := Subset(ids[..|ids| - 1], keep);
      if ids[|ids| - 1] in keep then init + [ids[|ids| - 1]] else init
  }

  /** One channel's digest: one attempt for all of `ids`, or a reason recorded on each. */
  function DigestOn(st: Settings, b: Book, ids: seq<nat>, c: Channel, now: real): Book {
    var paid := Spend(st, b, c, now, true);
    if Over(st, b, c, now) then NoteAll(paid, ids) else SubmitAll(paid, ids, c)
  }

  /** Who the webhook digest speaks for: rules that notify. */
  function Emailable(ids: seq<nat>, facts: map<nat, Facts>): set<nat> {
    set id | id in ids && id in facts && facts[id].emailOn
  }

  /** Who the text digest speaks for: rules that text, of alerts severe enough. */
  function Textable(st: Settings, alerts: map<nat, Alert>, ids: seq<nat>, facts: map<nat, Facts>): set<nat> {
    set id | id in ids && id in facts && facts[id].smsOn && id in alerts && alerts[id].severity <= st.smsFloor
  }

  /** Who the email digest speaks for: rules that notify, of alerts severe enough. */
  function Mailable(st: Settings, alerts: map<nat, Alert>, ids: seq<nat>, facts: map<nat, Facts>): set<nat> {
    set id | id in Emailable(ids, facts) && id in alerts && alerts[id].severity <= st.floor
  }

  function WebhookDigest(st: Settings, b: Book, ids: seq<nat>, now: real): Book {
    if st.webhookReady && ids != [] then DigestOn(st, b, ids, Webhook, now) else b
  }

  function SmsDigest(st: Settings, b: Book, ids: seq<nat>, now: real): Book {
    if !st.smsDigestReady || ids == [] then b
    else if Over(st, b, Sms, now) || st.smsReach then DigestOn(st, b, ids, Sms, now)
    else Spend(st, b, Sms, now, false)
  }

  /** The email digest; whichever guard stops it, every alert it speaks for is stamped. */
  function EmailDigest(st: Settings, b: Book, ids: seq<nat>, now: real): Book {
    if ids == [] then b
    else MarkAll(if Over(st, b, Email, now) || (st.emailReady && st.recipients) then DigestOn(st, b, ids, Email, now)
                 else Spend(st, b, Email, now, false), ids, now)
  }

  /** _send_digest: the webhook's, the texts' and the email's digest, each for the alerts it speaks
      for; an alert the email digest does not speak for is stamped before it. */
  function SendDigest(st: Settings, b: Book, ids: seq<nat>, facts: map<nat, Facts>, now: real): Book {
    var mailable := Mailable(st, b.alerts, ids, facts);
    var b1 := WebhookDigest(st, b, Subset(ids, Emailable(ids, facts)), now);
    var b2 := SmsDigest(st, b1, Subset(ids, Textable(st, b.alerts, ids, facts)), now);
    var b3 := MarkAll(b2, Subset(ids, (set id | id in ids) - mailable), now);
    EmailDigest(st, b3, Subset(ids, mailable), now)
  }

  // --------------------------------------------------------------- the sweep

  /** _skip_held_open_notify, for an alert whose first notice is undecided while the hold is on. */
  function SkipHeld(st: Settings, b: Book, id: nat, now: real, held: bool): Book {
    if !HoldOn(st) || id !in b.alerts || b.alerts[id].notifiedTs.Some? then b
    else Mark(Note(b, id), id, now, held)
  }

  /** rearm_maintenance_held: the device's open held alerts owe their first notice again. */
  function Rearm(b: Book, d: nat): Book {
    b.(alerts := map id | id in b.alerts ::
      if b.alerts[id].state.Open? && b.alerts[id].heldTs.Some? && b.alerts[id].device == Some(d)
      then b.alerts[id].(notifiedTs := None) else b.alerts[id])
  }

  /** _hold_quiet_notify: the notice stays owed, and marked so that its age does not drop it. */
  function HoldQuiet(b: Book, id: nat, now: real): Book {
    if id !in b.alerts || !b.alerts[id].state.Open? || b.alerts[id].heldTs.Some? || b.alerts[id].device.None? then b
    else Rearm(b.(alerts := b.alerts[id := Marked(b.alerts[id], now, true)]), b.alerts[id].device.value)
  }

  /** What the sweep does with one due alert before it releases any. */
  function SettleOne(st: Settings, b: Book, id: nat, d: Decision, now: real): Book {
    match d
    case Stamp => Mark(b, id, now, false)
    case Record => Mark(Note(b, id), id, now, false)
    case RecordHeld => SkipHeld(st, b, id, now, true)
    case KeepQuiet => HoldQuiet(b, id, now)
    case Release => b
  }

  function DecisionFor(st: Settings, b: Book, facts: map<nat, Facts>, maintenance: set<nat>, id: nat): Decision
    requires id in b.alerts && id in facts
  {
    Decide(st, facts[id], b.alerts[id], maintenance)
  }

  function SettleAll(st: Settings, b: Book, due: seq<nat>, facts: map<nat, Facts>, maintenance: set<nat>,
                     now: real): Book
    requires forall id :: id in due ==> id in b.alerts && id in facts
  {
    if due == [] then b
    else
      var last := due[|due| - 1];
      SettleOne(st, SettleAll(st, b, due[..|due| - 1], facts, maintenance, now), last,
                DecisionFor(st, b, facts, maintenance, last), now)
  }

  function Released(st: Settings, b: Book, due: seq<nat>, facts: map<nat, Facts>, maintenance: set<nat>): (r: seq<nat>)
    requires forall id :: id in due ==> id in b.alerts && id in facts
    ensures forall id :: id in r <==> id in due && DecisionFor(st, b, facts, maintenance, id).Release?
  {
    if due == [] then []
    else
      var last := due[|due| - 1];
      assert forall id :: id in due <==> id in due[..|due| - 1] || id == last;
      var init := Released(st, b, due[..|due| - 1], facts, maintenance);
      if DecisionFor(st, b, facts, maintenance, last).Release? then init + [last] else init
  }

  function SendEach(st: Settings, b: Book, ids: seq<nat>, rows: map<nat, Alert>, facts: map<nat, Facts>,
                    now: real): Book
    requires forall id :: id in ids ==> id in rows && id in facts
  {
    if ids == [] then b
    else
      var last := ids[|ids| - 1];
      var before := SendEach(st, b, ids[..|ids| - 1], rows, facts, now);
      Mark(Notify(st, before, last, FirstNotice, facts[last], rows[last].severity, now), last, now, false)
  }

  /** _sweep_notify_rollup over the alerts the database reports due. */
  function Sweep(st: Settings, b: Book, due: seq<nat>, facts: map<nat, Facts>, maintenance: set<nat>, now: real): Book
    requires forall id :: id in due ==> id in b.alerts && id in facts
  {
    if !HoldOn(st) then b
    else
      var settled := SettleAll(st, b, due, facts, maintenance, now);
      var sendable := Released(st, b, due, facts, maintenance);
      if |sendable| > DIGEST_THRESHOLD then SendDigest(st, settled, sendable, facts, now)
      else SendEach(st, settled, sendable, b.alerts, facts, now)
  }

  // ------------------------------------------------- the other entry points

  /** The insert of _apply: with the hold on a new alert's first notice waits for the sweep. */
  function Opened(st: Settings, b: Book, id: nat, a: Alert, f: Facts, now: real): Book {
    var stored := b.(alerts := b.alerts[id := a.(notifiedTs := None, heldTs := None)]);
    if HoldOn(st) then stored else Notify(st, stored, id, FirstNotice, f, a.severity, now)
  }

  /** A further occurrence of a rule that notifies about each one, unless its first notice is held. */
  function Repeated(st: Settings, b: Book, id: nat, f: Facts, now: real): Book {
    if id !in b.alerts || (HoldOn(st) && b.alerts[id].notifiedTs.None?) then b
    else Notify(st, b, id, RepeatNotice, f, b.alerts[id].severity, now)
  }

  function WithState(b: Book, id: nat, s: State): Book {
    if id in b.alerts then b.(alerts := b.alerts[id := b.alerts[id].(state := s)]) else b
  }

  /** An alert absorbed by its rollup parent, or expired: closed, and its held notice with it. */
  function ClosedSilently(st: Settings, b: Book, id: nat, now: real): Book {
    SkipHeld(st, WithState(b, id, Resolved), id, now, false)
  }

  /** An alert cleared: _notify_clear tells only those who were told there was a problem. `quiet` is
      whether its device is muted, or the recovery template is missing. */
  function Cleared(st: Settings, b: Book, id: nat, f: Facts, quiet: bool, now: real): Book {
    var c := WithState(b, id, Resolved);
    if id !in b.alerts || !st.notifyOnClear then c
    else if HoldOn(st) && c.alerts[id].notifiedTs.None? then SkipHeld(st, c, id, now, false)
    else if quiet then c
    else Notify(st, c, id, ClearNotice, f, c.alerts[id].severity, now)
  }

  function RemindOne(st: Settings, b: Book, id: nat, facts: map<nat, Facts>, quiet: set<nat>, now: real): Book {
    if id !in b.alerts || id !in facts || !facts[id].ruleEnabled || id in quiet
       || (HoldOn(st) && b.alerts[id].notifiedTs.None?) then b
    else Notify(st, b, id, Reminder, facts[id], b.alerts[id].severity, now)
  }

  /** _sweep_renotify over the alerts due a reminder. */
  function Remind(st: Settings, b: Book, due: seq<nat>, facts: map<nat, Facts>, quiet: set<nat>, now: real): Book {
    if due == [] then b
    else RemindOne(st, Remind(st, b, due[..|due| - 1], facts, quiet, now), due[|due| - 1], facts, quiet, now)
  }

  // --------------------------------------------------------------- the class

  class Notifier {
    const st: Settings
    var alerts: map<nat, Alert>
    var log: seq<Entry>
    var email: seq<real>
    var webhook: seq<real>
    var sms: seq<real>

    constructor (st: Settings)
      ensures this.st == st && State() == Book(map[], [], [], [], [])
    {
      this.st := st;
      alerts, log, email, webhook, sms := map[], [], [], [], [];
    }

    function State(): Book
      reads this
    {
      Book(alerts, log, email, webhook, sms)
    }

    method SpendOn(c: Channel, now: real, wanted: bool) returns (over: bool)
      modifies this
      ensures over == Over(st, old(State()), c, now) && State() == Spend(st, old(State()), c, now, wanted)
    {
      var sent := Recent(SentOn(State(), c), now);
      var cap := Cap(st, c);
      over := cap != 0 && |sent| >= cap;
      if !over && wanted {
        sent := sent + [now];
        log := log + [Attempt(c, now)];
      }
      match c
      case Email => email := sent;
      case Webhook => webhook := sent;
      case Sms => sms := sent;
    }

    method MarkNotified(id: nat, now: real, held: bool)
      modifies this
      ensures State() == Mark(old(State()), id, now, held)
    {
      if id in alerts {
        if alerts[id].notifiedTs.None? {
          log := log + [Decided(id)];
        }
        alerts := alerts[id := Marked(alerts[id], now, held)];
      }
    }

    method SendWebhook(id: nat, kind: NoticeKind, now: real)
      modifies this
      ensures State() == NotifyWebhook(st, old(State()), id, kind, now)
    {
      if st.webhookReady {
        var over := SpendOn(Webhook, now, true);
        log := log + [if over then NotSent(id) else Submitted(id, kind, Webhook)];
      }
    }

    method SendSms(id: nat, kind: NoticeKind, severity: int, now: real)
      modifies this
      ensures State() == NotifySms(st, old(State()), id, kind, severity, now)
    {
      if !st.smsReady || severity > st.smsFloor {
        return;
      }
      var over := SpendOn(Sms, now, st.smsReach);
      if over || st.smsReach {
        log := log + [if over then NotSent(id) else Submitted(id, kind, Sms)];
        MarkNotified(id, now, false);
      }
    }

    method SendEmail(id: nat, kind: NoticeKind, f: Facts, severity: int, now: real)
      modifies this
      ensures State() == NotifyEmail(st, old(State()), id, kind, f, severity, now)
    {
      if severity > st.floor {
        if AnnouncesProblem(kind) {
          log := log + [NotSent(id)];
        }
        MarkNotified(id, now, false);
        return;
      }
      var over := SpendOn(Email, now, WantsEmail(st, f, kind));
      if over {
        log := log + [NotSent(id)];
      } else if WantsEmail(st, f, kind) {
        log := log + [Submitted(id, kind, Email)];
        MarkNotified(id, now, false);
      } else if st.emailReady && !f.hasTemplate && AnnouncesProblem(kind) {
        log := log + [NotSent(id)];
      }
    }

    method NotifyOne(id: nat, kind: NoticeKind, f: Facts, severity: int, now: real)
      modifies this
      ensures State() == Notify(st, old(State()), id, kind, f, severity, now)
    {
      if f.systemRule || (!f.emailOn && !f.smsOn) {
        return;
      }
      if f.emailOn {
        SendWebhook(id, kind, now);
      }
      if f.smsOn {
        SendSms(id, kind, severity, now);
      }
      if f.emailOn {
        SendEmail(id, kind, f, severity, now);
      }
    }

    method MarkEvery(ids: seq<nat>, now: real)
      modifies this
      ensures State() == MarkAll(old(State()), ids, now)
    {
      for i := 0 to |ids|
        invariant State() == MarkAll(old(State()), ids[..i], now)
      {
        assert ids[..i + 1][..i] == ids[..i];
        MarkNotified(ids[i], now, false);
      }
      assert ids[..|ids|] == ids;
    }

    method DigestChannel(ids: seq<nat>, c: Channel, now: real)
      modifies this
      ensures State() == DigestOn(st, old(State()), ids, c, now)
    {
      var over := SpendOn(c, now, true);
      ghost var paid := State();
      for i := 0 to |ids|
        invariant State() == if over then NoteAll(paid, ids[..i]) else SubmitAll(paid, ids[..i], c)
      {
        assert ids[..i + 1][..i] == ids[..i];
        log := log + [if over then NotSent(ids[i]) else Submitted(ids[i], FirstNotice, c)];
      }
      assert ids[..|ids|] == ids;
    }

    method SendWebhookDigest(ids: seq<nat>, now: real)
      modifies this
      ensures State() == WebhookDigest(st, old(State()), ids, now)
    {
      if st.webhookReady && ids != [] {
        DigestChannel(ids, Webhook, now);
      }
    }

    method SendSmsDigest(ids: seq<nat>, now: real)
      modifies this
      ensures State() == SmsDigest(st, old(State()), ids, now)
    {
      if !st.smsDigestReady || ids == [] {
        return;
      }
      if Over(st, State(), Sms, now) || st.smsReach {
        DigestChannel(ids, Sms, now);
      } else {
        var _ := SpendOn(Sms, now, false);
      }
    }

    method SendEmailDigest(ids: seq<nat>, now: real)
      modifies this
      ensures State() == EmailDigest(st, old(State()), ids, now)
    {
      if ids == [] {
        return;
      }
      if Over(st, State(), Email, now) || (st.emailReady && st.recipients) {
        DigestChannel(ids, Email, now);
      } else {
        var _ := SpendOn(Email, now, false);
      }
      MarkEvery(ids, now);
    }

    method Digest(ids: seq<nat>, facts: map<nat, Facts>, now: real)
      modifies this
      ensures State() == SendDigest(st, old(State()), ids, facts, now)
    {
      var mailable, textable := Mailable(st, alerts, ids, facts), Textable(st, alerts, ids, facts);
      SendWebhookDigest(Subset(ids, Emailable(ids, facts)), now);
      SendSmsDigest(Subset(ids, textable), now);
      MarkEvery(Subset(ids, (set id | id in ids) - mailable), now);
      SendEmailDigest(Subset(ids, mailable), now);
    }

    method Settle(id: nat, d: Decision, now: real)
      modifies this
      ensures State() == SettleOne(st, old(State()), id, d, now)
    {
      match d {
        case Stamp =>
          MarkNotified(id, now, false);
        case Record =>
          log := log + [NotSent(id)];
          MarkNotified(id, now, false);
        case RecordHeld =>
          if HoldOn(st) && id in alerts && alerts[id].notifiedTs.None? {
            log := log + [NotSent(id)];
            MarkNotified(id, now, true);
          }
        case KeepQuiet =>
          if id in alerts && alerts[id].state.Open? && alerts[id].heldTs.None? && alerts[id].device.Some? {
            var d := alerts[id].device.value;
            alerts := alerts[id := Marked(alerts[id], now, true)];
            alerts := Rearm(State(), d).alerts;
          }
        case Release =>
      }
    }

    method SettleDue(due: seq<nat>, facts: map<nat, Facts>, maintenance: set<nat>,
                     now: real) returns (sendable: seq<nat>)
      requires forall id :: id in due ==> id in alerts && id in facts
      modifies this
      ensures State() == SettleAll(st, old(State()), due, facts, maintenance, now)
      ensures sendable == Released(st, old(State()), due, facts, maintenance)
    {
      var rows := State();
      sendable := [];
      for i := 0 to |due|
        invariant State() == SettleAll(st, rows, due[..i], facts, maintenance, now)
        invariant sendable == Released(st, rows, due[..i], facts, maintenance)
      {
        assert due[..i + 1][..i] == due[..i] && due[..i + 1][i] == due[i];
        var d := DecisionFor(st, rows, facts, maintenance, due[i]);
        if d.Release? {
          sendable := sendable + [due[i]];
        } else {
          Settle(due[i], d, now);
        }
      }
      assert due[..|due|] == due;
    }

    method SendOneByOne(ids: seq<nat>, rows: map<nat, Alert>, facts: map<nat, Facts>, now: real)
      requires forall id :: id in ids ==> id in rows && id in facts
      modifies this
      ensures State() == SendEach(st, old(State()), ids, rows, facts, now)
    {
      for i := 0 to |ids|
        invariant State() == SendEach(st, old(State()), ids[..i], rows, facts, now)
      {
        assert ids[..i + 1][..i] == ids[..i] && ids[..i + 1][i] == ids[i];
        NotifyOne(ids[i], FirstNotice, facts[ids[i]], rows[ids[i]].severity, now);
        MarkNotified(ids[i], now, false);
      }
      assert ids[..|ids|] == ids;
    }

    /** _sweep_notify_rollup: settle every due alert or set it aside, then send those set aside one by
        one or as one digest. */
    method SweepRollup(due: seq<nat>, facts: map<nat, Facts>, maintenance: set<nat>, now: real)
      requires forall id :: id in due ==> id in alerts && id in facts
      modifies this
      ensures State() == Sweep(st, old(State()), due, facts, maintenance, now)
    {
      if !HoldOn(st) {
        return;
      }
      var rows := alerts;
      var sendable := SettleDue(due, facts, maintenance, now);
      if |sendable| > DIGEST_THRESHOLD {
        Digest(sendable, facts, now);
      } else {
        SendOneByOne(sendable, rows, facts, now);
      }
    }

    /** _sweep_renotify. */
    method SweepRenotify(due: seq<nat>, facts: map<nat, Facts>, quiet: set<nat>, now: real)
      modifies this
      ensures State() == Remind(st, old(State()), due, facts, quiet, now)
    {
      for i := 0 to |due|
        invariant State() == Remind(st, old(State()), due[..i], facts, quiet, now)
      {
        assert due[..i + 1][..i] == due[..i] && due[..i + 1][i] == due[i];
        var id := due[i];
        if id !in alerts || (HoldOn(st) && alerts[id].notifiedTs.None?) {
          continue;
        }
        if id !in facts || !facts[id].ruleEnabled || id in quiet {
          continue;
        }
        NotifyOne(id, Reminder, facts[id], alerts[id].severity, now);
      }
      assert due[..|due|] == due;
    }

    /** The resolve of a cleared alert, and _notify_clear. */
    method Clear(id: nat, f: Facts, quiet: bool, now: real)
      modifies this
      ensures State() == Cleared(st, old(State()), id, f, quiet, now)
    {
      if id !in alerts {
        return;
      }
      alerts := alerts[id := alerts[id].(state := Resolved)];
      if !st.notifyOnClear {
        return;
      }
      if HoldOn(st) && alerts[id].notifiedTs.None? {
        log := log + [NotSent(id)];
        MarkNotified(id, now, false);
      } else if !quiet {
        NotifyOne(id, ClearNotice, f, alerts[id].severity, now);
      }
    }
  }
}
