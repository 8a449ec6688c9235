/**
 What each notification channel does with one notice and with one digest: it decides
 for itself, tells exactly those it should, and pays one attempt for it -- neither the
 other channels' decisions nor their budgets come into it.
 */
module NoticeChannels {
  import opened Wrappers
  import opened Notices
  import opened FirstNotice

  /** When a single notice goes out on a channel. */
  predicate Passes(st: Settings, b: Book, f: Facts, kind: NoticeKind, severity: int, c: Channel, now: real) {
    && !f.systemRule && !Over(st, b, c, now)
    && match c
       case Webhook => f.emailOn && st.webhookReady
       case Sms => f.smsOn && st.smsReady && severity <= st.smsFloor && st.smsReach
       case Email => f.emailOn && severity <= st.floor && WantsEmail(st, f, kind)
  }

  /** Only this channel spent anything or told anyone: if `told`, one attempt, and a notice about
      each of `ids`; otherwise neither. */
  ghost predicate OnlyOn(before: Book, after: Book, ids: set<nat>, kind: NoticeKind, c: Channel, told: bool,
                         now: real) {
    && after.alerts.Keys == before.alerts.Keys
    && (forall d :: d != c ==>
          SentOn(after, d) == SentOn(before, d) && AttemptsOn(after.log, d) == AttemptsOn(before.log, d))
    && AttemptsOn(after.log, c) == AttemptsOn(before.log, c) + (if told then [now] else [])
    && forall e: Entry :: e.Submitted? ==>
         (e in after.log <==> e in before.log || (told && e.id in ids && e == Submitted(e.id, kind, c)))
  }

  /** Nothing spent, nobody told. */
  ghost predicate Silent(before: Book, after: Book) {
    && after.alerts.Keys == before.alerts.Keys
    && (forall d :: SentOn(after, d) == SentOn(before, d) && AttemptsOn(after.log, d) == AttemptsOn(before.log, d))
    && forall e: Entry :: e.Submitted? ==> (e in after.log <==> e in before.log)
  }

  /** Nothing at all on channel c. */
  ghost predicate SameOn(before: Book, after: Book, c: Channel) {
    && SentOn(after, c) == SentOn(before, c) && AttemptsOn(after.log, c) == AttemptsOn(before.log, c)
    && forall e: Entry :: e.Submitted? && e.channel == c ==> (e in after.log <==> e in before.log)
  }

  /** On channel c, if `told`: one attempt, and a notice about each of `ids`; otherwise neither. */
  ghost predicate ToldOn(before: Book, after: Book, ids: set<nat>, kind: NoticeKind, c: Channel, told: bool,
                         now: real) {
    && AttemptsOn(after.log, c) == AttemptsOn(before.log, c) + (if told then [now] else [])
    && forall e: Entry :: e.Submitted? && e.channel == c ==>
         (e in after.log <==> e in before.log || (told && e.id in ids && e == Submitted(e.id, kind, c)))
  }

  lemma OneChannel(before: Book, after: Book, ids: set<nat>, kind: NoticeKind, c: Channel, told: bool, now: real)
    requires OnlyOn(before, after, ids, kind, c, told, now)
    ensures ToldOn(before, after, ids, kind, c, told, now)
    ensures forall d :: d != c ==> SameOn(before, after, d)
  {
  }

  /** Steps on other channels before and after do not matter. */
  lemma Between(a: Book, b: Book, c: Book, d: Book, ids: set<nat>, kind: NoticeKind, ch: Channel, told: bool, now: real)
    requires SameOn(a, b, ch) && ToldOn(b, c, ids, kind, ch, told, now) && SameOn(c, d, ch)
    ensures ToldOn(a, d, ids, kind, ch, told, now)
  {
  }

  lemma SameTwice(a: Book, b: Book, c: Book, ch: Channel)
    requires SameOn(a, b, ch) && SameOn(b, c, ch)
    ensures SameOn(a, c, ch)
  {
  }

  lemma NoteSilent(b: Book, id: nat)
    ensures Silent(b, Note(b, id))
  {
    forall d ensures AttemptsOn(Note(b, id).log, d) == AttemptsOn(b.log, d) {
      AttemptsOneMore(b.log, NotSent(id), d);
    }
  }

  lemma MarkSilent(b: Book, id: nat, now: real, held: bool)
    ensures Silent(b, Mark(b, id, now, held))
  {
    forall d ensures AttemptsOn(Mark(b, id, now, held).log, d) == AttemptsOn(b.log, d) {
      AttemptsOneMore(b.log, Decided(id), d);
    }
  }

  lemma SpendOnly(st: Settings, b: Book, c: Channel, now: real, wanted: bool)
    ensures OnlyOn(b, Spend(st, b, c, now, wanted), {}, FirstNotice, c, wanted && !Over(st, b, c, now), now)
  {
    var after := Spend(st, b, c, now, wanted);
    forall d
      ensures AttemptsOn(after.log, d) == AttemptsOn(b.log, d) + if d == c && wanted && !Over(st, b, c, now) then [now]
              else []
      ensures d != c ==> SentOn(after, d) == SentOn(b, d)
    {
      SpendSplits(st, b, c, now, wanted, d);
      AttemptsOneMore(b.log, Attempt(c, now), d);
    }
  }

  lemma SubmitOnly(b: Book, id: nat, kind: NoticeKind, c: Channel)
    ensures
      var after := Submit(b, id, kind, c);
      && after.alerts == b.alerts
      && forall d :: SentOn(after, d) == SentOn(b, d) && AttemptsOn(after.log, d) == AttemptsOn(b.log, d)
  {
    forall d ensures AttemptsOn(Submit(b, id, kind, c).log, d) == AttemptsOn(b.log, d) {
      AttemptsOneMore(b.log, Submitted(id, kind, c), d);
    }
  }

  // ----------------------------------------------------------- single notices

  lemma WebhookAlone(st: Settings, b: Book, id: nat, kind: NoticeKind, now: real)
    ensures OnlyOn(b, NotifyWebhook(st, b, id, kind, now), {id}, kind, Webhook, st.webhookReady
                   && !Over(st, b, Webhook, now), now)
  {
    var paid := Spend(st, b, Webhook, now, true);
    SpendOnly(st, b, Webhook, now, true);
    NoteSilent(paid, id);
    SubmitOnly(paid, id, kind, Webhook);
  }

  lemma SmsAlone(st: Settings, b: Book, id: nat, kind: NoticeKind, severity: int, now: real)
    ensures
      OnlyOn(b, NotifySms(st, b, id, kind, severity, now), {id}, kind, Sms,
             st.smsReady && severity <= st.smsFloor && st.smsReach && !Over(st, b, Sms, now), now)
  {
    var paid := Spend(st, b, Sms, now, st.smsReach);
    SpendOnly(st, b, Sms, now, st.smsReach);
    NoteSilent(paid, id);
    MarkSilent(Note(paid, id), id, now, false);
    SubmitOnly(paid, id, kind, Sms);
    MarkSilent(Submit(paid, id, kind, Sms), id, now, false);
  }

  lemma EmailAlone(st: Settings, b: Book, id: nat, kind: NoticeKind, f: Facts, severity: int, now: real)
    ensures
      OnlyOn(b, NotifyEmail(st, b, id, kind, f, severity, now), {id}, kind, Email,
             severity <= st.floor && WantsEmail(st, f, kind) && !Over(st, b, Email, now), now)
  {
    if severity > st.floor {
      NoteSilent(b, id);
      MarkSilent(Note(b, id), id, now, false);
      MarkSilent(b, id, now, false);
    } else {
      var wanted := WantsEmail(st, f, kind);
      var paid := Spend(st, b, Email, now, wanted);
      SpendOnly(st, b, Email, now, wanted);
      NoteSilent(paid, id);
      SubmitOnly(paid, id, kind, Email);
      MarkSilent(Submit(paid, id, kind, Email), id, now, false);
    }
  }

  /** A notice goes out on a channel exactly when that channel's own conditions pass, for exactly one
      attempt, whatever the other channels do. */
  lemma EachChannelDecidesForItself(st: Settings, b: Book, id: nat, kind: NoticeKind, f: Facts, severity: int,
                                    now: real, c: Channel)
    ensures ToldOn(b, Notify(st, b, id, kind, f, severity, now), {id}, kind, c,
                   Passes(st, b, f, kind, severity, c, now), now)
  {
    if !f.systemRule && (f.emailOn || f.smsOn) {
      var b1 := if f.emailOn then NotifyWebhook(st, b, id, kind, now) else b;
      var b2 := if f.smsOn then NotifySms(st, b1, id, kind, severity, now) else b1;
      var b3 := if f.emailOn then NotifyEmail(st, b2, id, kind, f, severity, now) else b2;
      WebhookPart(st, b, id, kind, f, now);
      SmsPart(st, b1, id, kind, f, severity, now);
      EmailPart(st, b2, id, kind, f, severity, now);
      match c
      case Webhook =>
        SameTwice(b1, b2, b3, c);
        Between(b, b, b1, b3, {id}, kind, c, f.emailOn && st.webhookReady && !Over(st, b, c, now), now);
      case Sms =>
        Between(b, b1, b2, b3, {id}, kind, c, SmsPasses(st, b1, f, severity, now), now);
      case Email =>
        SameTwice(b, b1, b2, c);
        Between(b, b2, b3, b3, {id}, kind, c, EmailPasses(st, b2, f, kind, severity, now), now);
    }
  }

  predicate SmsPasses(st: Settings, b: Book, f: Facts, severity: int, now: real) {
    f.smsOn && st.smsReady && severity <= st.smsFloor && st.smsReach && !Over(st, b, Sms, now)
  }

  predicate EmailPasses(st: Settings, b: Book, f: Facts, kind: NoticeKind, severity: int, now: real) {
    f.emailOn && severity <= st.floor && WantsEmail(st, f, kind) && !Over(st, b, Email, now)
  }

  lemma WebhookPart(st: Settings, b: Book, id: nat, kind: NoticeKind, f: Facts, now: real)
    ensures
      var after := if f.emailOn then NotifyWebhook(st, b, id, kind, now) else b;
      && ToldOn(b, after, {id}, kind, Webhook, f.emailOn && st.webhookReady && !Over(st, b, Webhook, now), now)
      && SameOn(b, after, Sms) && SameOn(b, after, Email)
  {
    if f.emailOn {
      WebhookAlone(st, b, id, kind, now);
      OneChannel(b, NotifyWebhook(st, b, id, kind, now), {id}, kind, Webhook, st.webhookReady
                 && !Over(st, b, Webhook, now), now);
    }
  }

  lemma SmsPart(st: Settings, b: Book, id: nat, kind: NoticeKind, f: Facts, severity: int, now: real)
    ensures
      var after := if f.smsOn then NotifySms(st, b, id, kind, severity, now) else b;
      && ToldOn(b, after, {id}, kind, Sms, SmsPasses(st, b, f, severity, now), now)
      && SameOn(b, after, Webhook) && SameOn(b, after, Email)
  {
    if f.smsOn {
      SmsAlone(st, b, id, kind, severity, now);
      OneChannel(b, NotifySms(st, b, id, kind, severity, now), {id}, kind, Sms, SmsPasses(st, b, f, severity, now),
                 now);
    }
  }

  lemma EmailPart(st: Settings, b: Book, id: nat, kind: NoticeKind, f: Facts, severity: int, now: real)
    ensures
      var after := if f.emailOn then NotifyEmail(st, b, id, kind, f, severity, now) else b;
      && ToldOn(b, after, {id}, kind, Email, EmailPasses(st, b, f, kind, severity, now), now)
      && SameOn(b, after, Webhook) && SameOn(b, after, Sms)
  {
    if f.emailOn {
      EmailAlone(st, b, id, kind, f, severity, now);
      OneChannel(b, NotifyEmail(st, b, id, kind, f, severity, now), {id}, kind, Email,
                 EmailPasses(st, b, f, kind, severity, now), now);
    }
  }

  // ----------------------------------------------------------------- digests

  lemma {:induction false} MarkAllSilent(b: Book, ids: seq<nat>, now: real)
    ensures Silent(b, MarkAll(b, ids, now))
  {
    if ids != [] {
      var init, last := ids[..|ids| - 1], ids[|ids| - 1];
      MarkAllSilent(b, init, now);
      MarkSilent(MarkAll(b, init, now), last, now, false);
    }
  }

  lemma {:induction false} NoteAllSilent(b: Book, ids: seq<nat>)
    ensures Silent(b, NoteAll(b, ids))
  {
    if ids != [] {
      var init, last := ids[..|ids| - 1], ids[|ids| - 1];
      NoteAllSilent(b, init);
      NoteSilent(NoteAll(b, init), last);
    }
  }

  lemma {:induction false} SubmitAllTells(b: Book, ids: seq<nat>, c: Channel)
    ensures
      var after := SubmitAll(b, ids, c);
      && after.alerts == b.alerts
      && (forall d :: SentOn(after, d) == SentOn(b, d) && AttemptsOn(after.log, d) == AttemptsOn(b.log, d))
      && forall e: Entry :: e.Submitted? ==>
           (e in after.log <==> e in b.log || (e.id in ids && e == Submitted(e.id, FirstNotice, c)))
  {
    if ids != [] {
      var init, last := ids[..|ids| - 1], ids[|ids| - 1];
      assert ids == init + [last];
      SubmitAllTells(b, init, c);
      SubmitOnly(SubmitAll(b, init, c), last, FirstNotice, c);
    }
  }

  /** One channel's digest: one attempt, however many it tells. */
  lemma DigestAlone(st: Settings, b: Book, ids: seq<nat>, c: Channel, now: real)
    ensures OnlyOn(b, DigestOn(st, b, ids, c, now), Elements(ids), FirstNotice, c, !Over(st, b, c, now), now)
  {
    var paid := Spend(st, b, c, now, true);
    SpendOnly(st, b, c, now, true);
    NoteAllSilent(paid, ids);
    SubmitAllTells(paid, ids, c);
  }

  /** When a channel's digest for `ids` goes out. */
  predicate DigestPasses(st: Settings, b: Book, ids: seq<nat>, c: Channel, now: real) {
    && ids != [] && !Over(st, b, c, now)
    && match c
       case Webhook => st.webhookReady
       case Sms => st.smsDigestReady && st.smsReach
       case Email => st.emailReady && st.recipients
  }

  lemma WebhookDigestAlone(st: Settings, b: Book, ids: seq<nat>, now: real)
    ensures OnlyOn(b, WebhookDigest(st, b, ids, now), Elements(ids), FirstNotice, Webhook,
                   DigestPasses(st, b, ids, Webhook, now), now)
  {
    DigestAlone(st, b, ids, Webhook, now);
  }

  lemma SmsDigestAlone(st: Settings, b: Book, ids: seq<nat>, now: real)
    ensures OnlyOn(b, SmsDigest(st, b, ids, now), Elements(ids), FirstNotice, Sms, DigestPasses(st, b, ids, Sms, now),
                   now)
  {
    DigestAlone(st, b, ids, Sms, now);
    SpendOnly(st, b, Sms, now, false);
  }

  lemma EmailDigestAlone(st: Settings, b: Book, ids: seq<nat>, now: real)
    ensures OnlyOn(b, EmailDigest(st, b, ids, now), Elements(ids), FirstNotice, Email,
                   DigestPasses(st, b, ids, Email, now), now)
  {
    DigestAlone(st, b, ids, Email, now);
    MarkAllSilent(DigestOn(st, b, ids, Email, now), ids, now);
    SpendOnly(st, b, Email, now, false);
    MarkAllSilent(Spend(st, b, Email, now, false), ids, now);
  }

  /** Who a channel's digest speaks for. */
  function SpokenFor(st: Settings, alerts: map<nat, Alert>, ids: seq<nat>, facts: map<nat, Facts>,
                     c: Channel): set<nat> {
    match c
    case Webhook => Emailable(ids, facts)
    case Sms => Textable(st, alerts, ids, facts)
    case Email => Mailable(st, alerts, ids, facts)
  }

  /** A digest tells, on each channel, exactly the alerts that channel speaks for, when its own
      conditions pass, for one attempt in all. */
  lemma EachDigestDecidesForItself(st: Settings, b: Book, ids: seq<nat>, facts: map<nat, Facts>, now: real, c: Channel)
    ensures
      var told := Subset(ids, SpokenFor(st, b.alerts, ids, facts, c));
      ToldOn(b, SendDigest(st, b, ids, facts, now), Elements(told), FirstNotice, c, DigestPasses(st, b, told, c, now),
             now)
  {
    var mailable := Mailable(st, b.alerts, ids, facts);
    var webhook, sms := Subset(ids, Emailable(ids, facts)), Subset(ids, Textable(st, b.alerts, ids, facts));
    var mail, rest := Subset(ids, mailable), Subset(ids, (set id | id in ids) - mailable);
    var b1 := WebhookDigest(st, b, webhook, now);
    var b2 := SmsDigest(st, b1, sms, now);
    var b3 := MarkAll(b2, rest, now);
    var b4 := EmailDigest(st, b3, mail, now);
    WebhookDigestAlone(st, b, webhook, now);
    OneChannel(b, b1, Elements(webhook), FirstNotice, Webhook, DigestPasses(st, b, webhook, Webhook, now), now);
    SmsDigestAlone(st, b1, sms, now);
    OneChannel(b1, b2, Elements(sms), FirstNotice, Sms, DigestPasses(st, b1, sms, Sms, now), now);
    StampsAreSilent(b2, rest, now, c);
    EmailDigestAlone(st, b3, mail, now);
    OneChannel(b3, b4, Elements(mail), FirstNotice, Email, DigestPasses(st, b3, mail, Email, now), now);
    DigestParts(st, b, b1, b2, b3, b4, webhook, sms, mail, c, now);
  }

  lemma StampsAreSilent(b: Book, ids: seq<nat>, now: real, c: Channel)
    ensures SameOn(b, MarkAll(b, ids, now), c)
  {
    MarkAllSilent(b, ids, now);
  }

  lemma DigestParts(st: Settings, b: Book, b1: Book, b2: Book, b3: Book, b4: Book,
                    webhook: seq<nat>, sms: seq<nat>, mail: seq<nat>, c: Channel, now: real)
    requires ToldOn(b, b1, Elements(webhook), FirstNotice, Webhook, DigestPasses(st, b, webhook, Webhook, now), now)
    requires ToldOn(b1, b2, Elements(sms), FirstNotice, Sms, DigestPasses(st, b1, sms, Sms, now), now)
    requires ToldOn(b3, b4, Elements(mail), FirstNotice, Email, DigestPasses(st, b3, mail, Email, now), now)
    requires (c != Webhook ==> SameOn(b, b1, c)) && (c != Sms ==> SameOn(b1, b2, c)) && SameOn(b2, b3, c)
             && (c != Email ==> SameOn(b3, b4, c))
    ensures
      var told := match c case Webhook => webhook case Sms => sms case Email => mail;
      ToldOn(b, b4, Elements(told), FirstNotice, c, DigestPasses(st, b, told, c, now), now)
  {
    match c
    case Webhook =>
      SameTwice(b1, b2, b3, c);
      SameTwice(b1, b3, b4, c);
      Between(b, b, b1, b4, Elements(webhook), FirstNotice, c, DigestPasses(st, b, webhook, c, now), now);
    case Sms =>
      SameTwice(b2, b3, b4, c);
      Between(b, b1, b2, b4, Elements(sms), FirstNotice, c, DigestPasses(st, b1, sms, c, now), now);
    case Email =>
      SameTwice(b, b1, b2, c);
      SameTwice(b, b2, b3, c);
      Between(b, b3, b4, b4, Elements(mail), FirstNotice, c, DigestPasses(st, b3, mail, c, now), now);
  }
}
