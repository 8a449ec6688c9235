/**
 The sliding hourly budget of each notification channel: a list of recent attempt
 times, pruned to the last hour before every decision. Whatever is attempted and
 whenever, no window of 3600 seconds holds more attempts than the cap.
 */
module SendBudget {
  const HOUR := 3600.0

  /** The attempts still inside the hour before `now`. */
  function Recent(sent: seq<real>, now: real): seq<real> {
    if sent == [] then []
    else if sent[|sent| - 1] >= now - HOUR then Recent(sent[..|sent| - 1], now) + [sent[|sent| - 1]]
    else Recent(sent[..|sent| - 1], now)
  }

  /** A cap of zero is no cap. */
  predicate OverCap(sent: seq<real>, now: real, cap: int) {
    cap != 0 && |Recent(sent, now)| >= cap
  }

  /** The list after one decision: pruned, and with the attempt if one was made. A send that is
      within the cap may still not be attempted (`wanted` is false: channel off, no recipients). */
  function Charge(sent: seq<real>, now: real, cap: int, wanted: bool): seq<real> {
    if !OverCap(sent, now, cap) && wanted then Recent(sent, now) + [now] else Recent(sent, now)
  }

  predicate InOrder(a: seq<real>) {
    forall i, j :: 0 <= i < j < |a| ==> a[i] <= a[j]
  }

  /** `sent` is what is left of the whole history `attempts`: a suffix that has lost only attempts
      more than an hour before `clock`. */
  ghost predicate Remembers(sent: seq<real>, attempts: seq<real>, clock: real) {
    && InOrder(attempts) && (attempts != [] ==> attempts[|attempts| - 1] <= clock)
    && |sent| <= |attempts| && sent == attempts[|attempts| - |sent|..]
    && forall i :: 0 <= i < |attempts| - |sent| ==> attempts[i] < clock - HOUR
  }

  /** Any `cap` + 1 consecutive attempts span more than an hour. */
  ghost predicate Spaced(attempts: seq<real>, cap: nat) {
    forall i, j :: 0 <= i && j == i + cap && j < |attempts| ==> attempts[i] + HOUR < attempts[j]
  }

  lemma {:induction false} OldAreForgotten(sent: seq<real>, now: real)
    requires forall i :: 0 <= i < |sent| ==> sent[i] < now - HOUR
    ensures Recent(sent, now) == []
  {
    if sent != [] {
      OldAreForgotten(sent[..|sent| - 1], now);
    }
  }

  /** Where pruning cuts: the attempts before are old, those from there on are not. */
  ghost predicate CutAt(sent: seq<real>, now: real, lo: nat) {
    && lo <= |sent| && Recent(sent, now) == sent[lo..]
    && forall i :: 0 <= i < |sent| ==> (sent[i] < now - HOUR <==> i < lo)
  }

  lemma {:induction false} PruningCuts(sent: seq<real>, now: real) returns (lo: nat)
    requires InOrder(sent)
    ensures CutAt(sent, now, lo)
  {
    var n := |sent| - 1;
    if sent == [] || sent[n] < now - HOUR {
      forall i | 0 <= i < |sent| ensures sent[i] < now - HOUR {
        assert sent[i] <= sent[n];
      }
      OldAreForgotten(sent, now);
      lo := |sent|;
    } else {
      lo := PruningCuts(sent[..n], now);
      assert sent[lo..] == sent[..n][lo..] + [sent[n]];
      assert forall i :: 0 <= i < n ==> sent[..n][i] == sent[i];
    }
  }

  /** Pruning an ordered list cuts it at one place. */
  lemma RecentIsSuffix(sent: seq<real>, now: real)
    requires InOrder(sent)
    ensures |Recent(sent, now)| <= |sent| && CutAt(sent, now, |sent| - |Recent(sent, now)|)
  {
    var lo := PruningCuts(sent, now);
  }

  lemma PruningForgetsOnlyTheOld(sent: seq<real>, attempts: seq<real>, clock: real, now: real)
    requires Remembers(sent, attempts, clock) && clock <= now
    ensures Remembers(Recent(sent, now), attempts, now)
  {
    RecentIsSuffix(sent, now);
  }

  /** One decision keeps the memory of the history, and keeps it spaced. */
  lemma ChargeKeepsSpacing(sent: seq<real>, attempts: seq<real>, clock: real, now: real, cap: nat, wanted: bool)
    requires Remembers(sent, attempts, clock) && clock <= now && cap > 0 && Spaced(attempts, cap)
    ensures
      var after := if !OverCap(sent, now, cap) && wanted then attempts + [now] else attempts;
      Remembers(Charge(sent, now, cap, wanted), after, now) && Spaced(after, cap)
  {
    PruningForgetsOnlyTheOld(sent, attempts, clock, now);
    if !OverCap(sent, now, cap) && wanted {
      AttemptIsRemembered(Recent(sent, now), attempts, now);
      AttemptIsSpaced(Recent(sent, now), attempts, now, cap);
    }
  }

  lemma AttemptIsRemembered(sent: seq<real>, attempts: seq<real>, now: real)
    requires Remembers(sent, attempts, now)
    ensures Remembers(sent + [now], attempts + [now], now)
  {
  }

  lemma AttemptIsSpaced(sent: seq<real>, attempts: seq<real>, now: real, cap: nat)
    requires Remembers(sent, attempts, now) && Spaced(attempts, cap) && |sent| < cap
    ensures Spaced(attempts + [now], cap)
  {
  }

  lemma RemembersLater(sent: seq<real>, attempts: seq<real>, clock: real, now: real)
    requires Remembers(sent, attempts, clock) && clock <= now
    ensures Remembers(sent, attempts, now)
  {
  }

  /** How many attempts fall in the closed window from..to. */
  function InWindow(attempts: seq<real>, from: real, to: real): nat {
    if attempts == [] then 0
    else InWindow(attempts[..|attempts| - 1], from, to) + if from <= attempts[|attempts| - 1] <= to then 1 else 0
  }

  /** In an ordered history the attempts of a window are consecutive: those from index lo on. */
  lemma {:induction false} WindowIsARange(attempts: seq<real>, from: real, to: real, lo: nat)
    requires InOrder(attempts) && lo <= |attempts|
    requires forall i :: 0 <= i < |attempts| ==> (attempts[i] < from <==> i < lo)
    requires forall i :: lo <= i < |attempts| ==> attempts[i] <= to
    ensures InWindow(attempts, from, to) == |attempts| - lo
  {
    if attempts != [] {
      var n := |attempts| - 1;
      WindowIsARange(attempts[..n], from, to, if lo <= n then lo else n);
    }
  }

  /** In a spaced history an attempt within the hour of the last one is among the last `cap`. */
  lemma SpanOf(attempts: seq<real>, cap: nat, lo: nat)
    requires InOrder(attempts) && Spaced(attempts, cap) && lo < |attempts| && cap > 0
    ensures attempts[|attempts| - 1] <= attempts[lo] + HOUR ==> |attempts| - lo <= cap
  {
    if |attempts| - lo > cap {
      assert attempts[lo] + HOUR < attempts[lo + cap];
    }
  }

  /** A spaced history puts at most `cap` attempts in any hour. */
  lemma {:induction false} SpacedHistoryFitsTheWindow(attempts: seq<real>, cap: nat, from: real)
    requires InOrder(attempts) && Spaced(attempts, cap) && cap > 0
    ensures InWindow(attempts, from, from + HOUR) <= cap
  {
    if attempts != [] {
      var n := |attempts| - 1;
      if from <= attempts[n] <= from + HOUR {
        var lo := FirstFrom(attempts, from);
        WindowIsARange(attempts, from, from + HOUR, lo);
        SpanOf(attempts, cap, lo);
      } else {
        SpacedHistoryFitsTheWindow(attempts[..n], cap, from);
      }
    }
  }

  lemma {:induction false} FirstFrom(attempts: seq<real>, from: real) returns (lo: nat)
    requires InOrder(attempts)
    ensures lo <= |attempts| && forall i :: 0 <= i < |attempts| ==> (attempts[i] < from <==> i < lo)
  {
    lo := |attempts|;
    if attempts != [] && attempts[|attempts| - 1] >= from {
      lo := FirstFrom(attempts[..|attempts| - 1], from);
    }
  }

  // ------------------------------------------------------------- whole runs

  /** One decision on a channel: a single notice or a digest, either costs one attempt. */
  datatype Request = Request(now: real, wanted: bool)

  ghost predicate ClockForward(ds: seq<Request>) {
    forall i, j :: 0 <= i < j < |ds| ==> ds[i].now <= ds[j].now
  }

  /** The channel's list, and every attempt it ever made. */
  function RunBudget(cap: nat, ds: seq<Request>): (seq<real>, seq<real>) {
    if ds == [] then ([], [])
    else
      var (sent, attempts) := RunBudget(cap, ds[..|ds| - 1]);
      var d := ds[|ds| - 1];
      (Charge(sent, d.now, cap, d.wanted), if !OverCap(sent, d.now, cap) && d.wanted then attempts + [d.now]
       else attempts)
  }

  lemma {:induction false} RunStaysSpaced(cap: nat, ds: seq<Request>)
    requires cap > 0 && ClockForward(ds)
    ensures
      var (sent, attempts) := RunBudget(cap, ds);
      Spaced(attempts, cap) && Remembers(sent, attempts, if ds == [] then 0.0 else ds[|ds| - 1].now)
  {
    if ds != [] {
      var init := ds[..|ds| - 1];
      RunStaysSpaced(cap, init);
      var (sent, attempts) := RunBudget(cap, init);
      if init == [] {
        assert Remembers(sent, attempts, ds[0].now);
        ChargeKeepsSpacing(sent, attempts, ds[0].now, ds[0].now, cap, ds[0].wanted);
      } else {
        var d := ds[|ds| - 1];
        ChargeKeepsSpacing(sent, attempts, init[|init| - 1].now, d.now, cap, d.wanted);
      }
    }
  }

  /** Over any run with the clock going forward, no hour holds more attempts than the cap. */
  lemma NoHourHoldsMoreThanTheCap(cap: nat, ds: seq<Request>, from: real)
    requires cap > 0 && ClockForward(ds)
    ensures InWindow(RunBudget(cap, ds).1, from, from + 3600.0) <= cap
  {
    RunStaysSpaced(cap, ds);
    SpacedHistoryFitsTheWindow(RunBudget(cap, ds).1, cap, from);
  }

  /** And nothing is refused needlessly: a decision is over the cap only when the hour before it
      already holds that many attempts. */
  lemma RefusedOnlyWhenTheHourIsFull(cap: nat, ds: seq<Request>, now: real)
    requires cap > 0 && ClockForward(ds) && (forall i :: 0 <= i < |ds| ==> ds[i].now <= now)
    ensures
      var (sent, attempts) := RunBudget(cap, ds);
      OverCap(sent, now, cap) <==> InWindow(attempts, now - 3600.0, now) >= cap
  {
    RunStaysSpaced(cap, ds);
    var (sent, attempts) := RunBudget(cap, ds);
    if ds == [] {
      HourCounted([], [], now, now);
    } else {
      HourCounted(sent, attempts, ds[|ds| - 1].now, now);
    }
  }

  /** What is left after pruning is exactly the last hour of the whole history. */
  lemma HourCounted(sent: seq<real>, attempts: seq<real>, clock: real, now: real)
    requires Remembers(sent, attempts, clock) && clock <= now
    ensures |Recent(sent, now)| == InWindow(attempts, now - HOUR, now)
  {
    PruningForgetsOnlyTheOld(sent, attempts, clock, now);
    RecentIsSuffix(sent, now);
    var lo := |attempts| - |Recent(sent, now)|;
    RecentStartsTheHour(sent, attempts, clock, now, lo);
    WindowIsARange(attempts, now - HOUR, now, lo);
  }

  lemma RecentStartsTheHour(sent: seq<real>, attempts: seq<real>, clock: real, now: real, lo: nat)
    requires Remembers(sent, attempts, clock) && clock <= now && lo + |Recent(sent, now)| == |attempts|
    requires |Recent(sent, now)| <= |sent|
    requires CutAt(sent, now, |sent| - |Recent(sent, now)|)
    ensures forall i :: 0 <= i < |attempts| ==> (attempts[i] < now - HOUR <==> i < lo) && attempts[i] <= now
  {
    var cut := |attempts| - |sent|;
    forall i | 0 <= i < |attempts| ensures (attempts[i] < now - HOUR <==> i < lo) && attempts[i] <= now {
      assert attempts[i] <= attempts[|attempts| - 1];
      if i >= cut {
        assert attempts[i] == sent[i - cut];
      } else {
        assert attempts[i] < clock - HOUR;
      }
    }
  }
}
