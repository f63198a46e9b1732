/** The nightly rollup timer of metrics.js, and what firing once a day means for the stored counts. */
module RollupSchedule {
  import opened Prelude
  import opened Ledger
  import opened LedgerRuns
  import opened Metrics

  /** Today at the given time of day, or tomorrow when that is not strictly after now. */
  function NextFire(now: nat, timeOfDay: nat): (next: nat)
    requires timeOfDay < DAY
    ensures now < next && TimeOfDay(next) == timeOfDay
    ensures forall t :: now < t < next ==> TimeOfDay(t) != timeOfDay
  {
    var today := DayStart(DayOf(now)) + timeOfDay;
    var next := if today <= now then today + DAY else today;
    NextFireIsLeast(now, timeOfDay, next);
    next
  }

  lemma NextFireIsLeast(now: nat, timeOfDay: nat, next: nat)
    requires timeOfDay < DAY
    requires next == if DayStart(DayOf(now)) + timeOfDay <= now then DayStart(DayOf(now)) + timeOfDay + DAY
                     else DayStart(DayOf(now)) + timeOfDay
    ensures now < next && TimeOfDay(next) == timeOfDay
    ensures forall t :: now < t < next ==> TimeOfDay(t) != timeOfDay
  {}

  /** The module state of startRollupSchedule: `rollupTimer`, here the instant it is armed for. */
  class RollupTimer {
    var armedFor: Option<nat>
    const timeOfDay: nat
    const retentionDays: nat

    ghost predicate Valid() {
      timeOfDay < DAY
    }

    constructor (timeOfDay: nat, retentionDays: nat)
      requires timeOfDay < DAY
      ensures Valid() && armedFor == None
      ensures this.timeOfDay == timeOfDay
      ensures this.retentionDays == if retentionDays == 0 then 90 else retentionDays
    {
      this.armedFor := None;
      this.timeOfDay := timeOfDay;
      this.retentionDays := if retentionDays == 0 then DEFAULT_RETENTION_DAYS else retentionDays;
    }

    /** A second start while a timer is armed is ignored. */
    method Start(now: nat)
      requires Valid()
      modifies this
      ensures armedFor == if old(armedFor).Some? then old(armedFor) else Some(NextFire(now, timeOfDay))
    {
      if armedFor.None? {
        armedFor := Some(NextFire(now, timeOfDay));
      }
    }

    method Stop()
      modifies this
      ensures armedFor == None
    {
      armedFor := None;
    }

    /** The timer callback, at whatever time it runs: roll up, unless the transaction fails, then re-arm from the time
        the rollup finished. */
    method Fire(now: nat, finished: nat, fails: bool, db: MetricsDb)
      requires Valid() && armedFor.Some?
      modifies this, db
      ensures db.Contents()
        == if fails then old(db.Contents()) else Rollup(old(db.Contents()), CutoffMs(now, retentionDays))
      ensures !fails ==> RolledUp(old(db.Contents()), db.Contents(), now, retentionDays)
      ensures armedFor == Some(NextFire(finished, timeOfDay))
    {
      if !fails {
        var _ := db.RollupAndPrune(now, retentionDays);
      }
      armedFor := None;
      armedFor := Some(NextFire(finished, timeOfDay));
    }
  }

  /** One firing: when the timer was armed and when its callback ran. */
  datatype Firing = Firing(armed: nat, fired: nat)

  /** No firing ran early or so late that midnight passed but not yet the next target, and each timer was armed
      after the previous firing, whether by that firing itself or by a restart of the process. A firing just
      before its target, or a clock set back, violates this like a long delay does: the time of day is then before
      the one meant. */
  predicate OnSchedule(fs: seq<Firing>, timeOfDay: nat)
    requires timeOfDay < DAY
  {
    && (forall i :: 0 <= i < |fs| ==>
          NextFire(fs[i].armed, timeOfDay) <= fs[i].fired && TimeOfDay(fs[i].fired) >= timeOfDay)
    && (forall i :: 0 < i < |fs| ==> fs[i - 1].fired <= fs[i].armed)
  }

  /** No two firings share a UTC day. */
  lemma {:induction false} DaysIncrease(fs: seq<Firing>, timeOfDay: nat, i: nat, j: nat)
    requires timeOfDay < DAY && OnSchedule(fs, timeOfDay) && i < j < |fs|
    ensures DayOf(fs[i].fired) < DayOf(fs[j].fired)
    decreases j
  {
    var fired, next := fs[j - 1].fired, NextFire(fs[j].armed, timeOfDay);
    assert TimeOfDay(fired) >= timeOfDay && fired < next;
    LaterDay(fired, next, timeOfDay);
    if i < j - 1 {
      DaysIncrease(fs, timeOfDay, i, j - 1);
    }
  }

  lemma LaterDay(fired: nat, next: nat, timeOfDay: nat)
    requires fired < next && TimeOfDay(fired) >= timeOfDay == TimeOfDay(next)
    ensures DayOf(fired) < DayOf(next)
  {}

  /** The second condition is needed, and exactly so: a timer re-armed right after a firing is due again on the same
      UTC day precisely when that firing ran between midnight and the time of day it was meant for, be it long after
      its target or a millisecond before it. */
  lemma DueAgainSameDayIff(fired: nat, timeOfDay: nat)
    requires timeOfDay < DAY
    ensures DayOf(NextFire(fired, timeOfDay)) == DayOf(fired) <==> TimeOfDay(fired) < timeOfDay
  {
    var today := DayStart(DayOf(fired)) + timeOfDay;
    assert TimeOfDay(today) == timeOfDay && DayOf(today) == DayOf(fired);
    var next := NextFire(fired, timeOfDay);
    if TimeOfDay(fired) < timeOfDay {
      assert fired < today && next <= today;
    } else {
      LaterDay(fired, next, timeOfDay);
    }
  }

  /** The cutoffs of a list of firings. */
  function CutoffsOf(fs: seq<Firing>, retentionDays: nat): (cuts: seq<nat>)
    ensures |cuts| == |fs|
    ensures forall i :: 0 <= i < |fs| ==> cuts[i] == CutoffMs(fs[i].fired, retentionDays)
  {
    seq(|fs|, i requires 0 <= i < |fs| => CutoffMs(fs[i].fired, retentionDays))
  }

  lemma {:induction false} NoCutoffInside(cuts: seq<nat>, day: nat)
    requires forall i :: 0 <= i < |cuts| ==> !InsideDay(cuts[i], day)
    ensures CutoffsInside(cuts, day) == 0
  {
    if cuts == [] {
    } else {
      NoCutoffInside(cuts[..|cuts| - 1], day);
    }
  }

  predicate DistinctDays(cuts: seq<nat>) {
    forall i, j :: 0 <= i < j < |cuts| ==> cuts[i] == 0 || DayOf(cuts[i]) < DayOf(cuts[j])
  }

  lemma {:induction false} OneCutoffPerDay(cuts: seq<nat>, day: nat)
    requires DistinctDays(cuts)
    ensures CutoffsInside(cuts, day) <= 1
  {
    if cuts == [] {
    } else {
      var init, last := cuts[..|cuts| - 1], cuts[|cuts| - 1];
      if InsideDay(last, day) {
        forall i | 0 <= i < |init|
          ensures !InsideDay(init[i], day)
        {
          SameDay(cuts[i], last, day);
        }
        NoCutoffInside(init, day);
      } else {
        OneCutoffPerDay(init, day);
      }
    }
  }

  lemma SameDay(a: nat, b: nat, day: nat)
    requires a == 0 || DayOf(a) < DayOf(b)
    requires InsideDay(b, day)
    ensures !InsideDay(a, day)
  {}

  /** Rolled up by the timer once a day, a summary count is at most twice the true one. */
  lemma AtMostDouble(events: seq<Event>, fs: seq<Firing>, timeOfDay: nat, retentionDays: nat, k: Key, peer: bool)
    requires Orderly(events) && timeOfDay < DAY
    requires OnSchedule(fs, timeOfDay) && Cutoffs(events) == CutoffsOf(fs, retentionDays)
    ensures |TrueClients(events, k, peer)| <= Stored(Run(events).summary, k).Count(peer)
         <= 2 * |TrueClients(events, k, peer)|
  {
    hide Run, History, OnSchedule, DistinctDays, Times, CutoffsInside;
    CutoffsOnDistinctDays(fs, timeOfDay, retentionDays);
    OneCutoffPerDay(Cutoffs(events), k.day);
    BoundedReinflation(events, k, peer);
    TwiceAtMost(CutoffsInside(Cutoffs(events), k.day), |TrueClients(events, k, peer)|);
  }

  lemma TwiceAtMost(inside: nat, truth: nat)
    requires inside <= 1
    ensures Times(1 + inside, truth) <= 2 * truth
  {
    assert Times(1, truth) == truth + Times(0, truth);
    assert Times(2, truth) == truth + Times(1, truth);
  }

  lemma CutoffsOnDistinctDays(fs: seq<Firing>, timeOfDay: nat, retentionDays: nat)
    requires timeOfDay < DAY && OnSchedule(fs, timeOfDay)
    ensures DistinctDays(CutoffsOf(fs, retentionDays))
  {
    var cuts := CutoffsOf(fs, retentionDays);
    forall i, j | 0 <= i < j < |cuts|
      ensures cuts[i] == 0 || DayOf(cuts[i]) < DayOf(cuts[j])
    {
      DaysIncrease(fs, timeOfDay, i, j);
      ShiftDays(fs[i].fired, fs[j].fired, retentionDays);
    }
  }

  lemma ShiftDays(a: nat, b: nat, days: nat)
    requires DayOf(a) < DayOf(b)
    ensures CutoffMs(a, days) == 0 || DayOf(CutoffMs(a, days)) < DayOf(CutoffMs(b, days))
  {
    if a >= DayStart(days) {
      assert DayOf(a - DayStart(days)) == DayOf(a) - days && DayOf(b - DayStart(days)) == DayOf(b) - days;
    }
  }
}
