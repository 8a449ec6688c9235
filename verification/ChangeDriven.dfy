/**
 Change-driven threshold scanning refines the scan it replaced. The engine used
 to evaluate every device on every tick; it now evaluates a device when a new
 sample marks it dirty, and everything on a full pass. For any run the two give
 every look the same verdict, and a skipped tick could have said nothing new.
 */
module ChangeDriven {
  import opened Thresholds

  /** One tick, for one target: the clock, the newest stored sample, and whether the
      change-driven scan looks at the target (it is dirty, or the pass is a full one). */
  datatype View = View(now: real, sample: Sample, looks: bool)

  function EagerStep(rule: ThresholdRule, l: Limits, staleAfter: real, e: Entry, v: View): (Entry, Verdict) {
    DeviceStep(rule, l, e, v.sample, v.now, staleAfter)
  }

  /** The every-device-every-tick scan. */
  function Eager(rule: ThresholdRule, l: Limits, staleAfter: real, h: seq<View>): Entry {
    if h == [] then NO_ENTRY
    else EagerStep(rule, l, staleAfter, Eager(rule, l, staleAfter, h[..|h| - 1]), h[|h| - 1]).0
  }

  /** The change-driven scan. */
  function Lazy(rule: ThresholdRule, l: Limits, staleAfter: real, h: seq<View>): Entry {
    if h == [] then NO_ENTRY
    else
      var before := Lazy(rule, l, staleAfter, h[..|h| - 1]);
      if h[|h| - 1].looks then EagerStep(rule, l, staleAfter, before, h[|h| - 1]).0 else before
  }

  /** The first tick is a full pass, the clock never goes back, a new sample marks its device
      dirty, and it is on show by the first tick after its timestamp. */
  ghost predicate Prompt(h: seq<View>) {
    && (h != [] ==> h[0].looks)
    && forall i :: 0 < i < |h| ==>
         && h[i - 1].now <= h[i].now
         && (h[i].sample != h[i - 1].sample ==>
               h[i].looks && h[i].sample.ts.Some? && h[i].sample.ts.value > h[i - 1].now)
  }

  lemma PromptPrefix(h: seq<View>)
    requires Prompt(h) && h != []
    ensures Prompt(h[..|h| - 1])
  {
  }

  /** The lazy entry is the eager one, or it is older only because the eager one has since been
      reset by staleness. */
  ghost predicate Related(l: Limits, staleAfter: real, eager: Entry, lazy: Entry, last: View) {
    && eager.limits == l && lazy.limits == l
    && eager.run.ts == Seen(last.sample, last.now, staleAfter).ts
    && (lazy == eager ||
        (eager.run == NO_RUN && lazy.run.ts == last.sample.ts && IsStale(last.sample, last.now, staleAfter)))
  }

  /** A stale or absent sample leaves no run behind, and no verdict. */
  lemma StaleLookResets(rule: ThresholdRule, l: Limits, staleAfter: real, e: Entry, v: View)
    requires IsStale(v.sample, v.now, staleAfter)
    ensures EagerStep(rule, l, staleAfter, e, v) == (Entry(NO_RUN, l), Quiet)
  {
  }

  /** Looking again at a fresh sample changes nothing. */
  lemma FreshLookAgain(rule: ThresholdRule, l: Limits, staleAfter: real, before: Entry, v: View, w: View)
    requires v.sample == w.sample && v.now <= w.now && !IsStale(w.sample, w.now, staleAfter)
    ensures
      var (after, verdict) := EagerStep(rule, l, staleAfter, before, v);
      EagerStep(rule, l, staleAfter, after, w) == (after, verdict)
  {
  }

  /** A new sample after a silence long enough to have reset the eager entry: the gap between the
      samples resets the lazy one, and the two agree again. */
  lemma GapReconciles(rule: ThresholdRule, l: Limits, staleAfter: real, lazy: Entry, last: View, v: View)
    requires lazy.limits == l && lazy.run.ts == last.sample.ts && IsStale(last.sample, last.now, staleAfter)
    requires v.sample.ts.Some? && v.sample.ts.value > last.now
    ensures EagerStep(rule, l, staleAfter, lazy, v) == EagerStep(rule, l, staleAfter, Entry(NO_RUN, l), v)
  {
  }

  /** The change-driven scan simulates the full one, tick by tick. */
  lemma {:induction false} LazySimulatesEager(rule: ThresholdRule, l: Limits, staleAfter: real, h: seq<View>)
    requires Prompt(h) && h != []
    ensures Related(l, staleAfter, Eager(rule, l, staleAfter, h), Lazy(rule, l, staleAfter, h), h[|h| - 1])
  {
    var n := |h| - 1;
    var eager, lazy := Eager(rule, l, staleAfter, h[..n]), Lazy(rule, l, staleAfter, h[..n]);
    if n > 0 {
      PromptPrefix(h);
      LazySimulatesEager(rule, l, staleAfter, h[..n]);
      var last, v := h[n - 1], h[n];
      assert h[..n][n - 1] == last;
      if v.sample != last.sample {
        if lazy != eager {
          GapReconciles(rule, l, staleAfter, lazy, last, v);
        }
      } else if IsStale(v.sample, v.now, staleAfter) {
        StaleLookResets(rule, l, staleAfter, eager, v);
        StaleLookResets(rule, l, staleAfter, lazy, v);
      } else {
        assert !IsStale(last.sample, last.now, staleAfter);
        FreshLookAgain(rule, l, staleAfter, Eager(rule, l, staleAfter, h[..n - 1]), last, v);
        assert h[..n][..n - 1] == h[..n - 1];
      }
    }
  }

  /** At every tick where the change-driven scan looks, it reaches the verdict the full scan
      reaches -- in particular for every new sample. */
  lemma SameVerdictAtEveryLook(rule: ThresholdRule, l: Limits, staleAfter: real, h: seq<View>)
    requires Prompt(h) && h != [] && h[|h| - 1].looks
    ensures
      var n := |h| - 1;
      EagerStep(rule, l, staleAfter, Lazy(rule, l, staleAfter, h[..n]), h[n]).1 ==
      EagerStep(rule, l, staleAfter, Eager(rule, l, staleAfter, h[..n]), h[n]).1
  {
    var n := |h| - 1;
    if n > 0 {
      PromptPrefix(h);
      LazySimulatesEager(rule, l, staleAfter, h[..n]);
      var eager, lazy := Eager(rule, l, staleAfter, h[..n]), Lazy(rule, l, staleAfter, h[..n]);
      if lazy != eager {
        if h[n].sample != h[n - 1].sample {
          GapReconciles(rule, l, staleAfter, lazy, h[n - 1], h[n]);
        } else {
          StaleLookResets(rule, l, staleAfter, eager, h[n]);
          StaleLookResets(rule, l, staleAfter, lazy, h[n]);
        }
      }
    }
  }

  /** A tick the change-driven scan skips loses nothing: the full scan would have repeated its
      previous verdict on the same sample, or said nothing of one gone stale. */
  lemma SkippedTicksSayNothingNew(rule: ThresholdRule, l: Limits, staleAfter: real, h: seq<View>)
    requires Prompt(h) && |h| > 1 && !h[|h| - 1].looks
    ensures
      var n := |h| - 1;
      var verdict := EagerStep(rule, l, staleAfter, Eager(rule, l, staleAfter, h[..n]), h[n]).1;
      && h[n].sample == h[n - 1].sample
      && (verdict == Quiet ||
          verdict == EagerStep(rule, l, staleAfter, Eager(rule, l, staleAfter, h[..n - 1]), h[n - 1]).1)
  {
    var n := |h| - 1;
    if IsStale(h[n].sample, h[n].now, staleAfter) {
      StaleLookResets(rule, l, staleAfter, Eager(rule, l, staleAfter, h[..n]), h[n]);
    } else {
      FreshLookAgain(rule, l, staleAfter, Eager(rule, l, staleAfter, h[..n - 1]), h[n - 1], h[n]);
      assert h[..n][..n - 1] == h[..n - 1];
    }
  }
}
