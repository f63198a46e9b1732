/** The bound on stored counts is attained: one client, seen once between any two of many cutoffs in one day. */
module LedgerTightness {
  import opened Prelude
  import opened Ledger
  import opened LedgerRuns

  /** A delivery to the one client. */
  function Pull(k: Key, ts: nat): Row {
    Row(ts, "192.0.2.1", k.subnet, None, k.path, 1, 1, true, 200, 0)
  }

  /** A delivery `n` milliseconds into the day, and a rollup up to `cutoff`. */
  function Round(k: Key, n: nat, cutoff: nat): seq<Event> {
    [Record(Pull(k, DayStart(k.day) + n)), RollupAt(cutoff)]
  }

  /** `n` deliveries in the first milliseconds of the day, each rolled up before the next. */
  function Prefix(k: Key, n: nat): seq<Event> {
    if n == 0 then [] else Prefix(k, n - 1) + Round(k, n - 1, DayStart(k.day) + n)
  }

  /** One more delivery, and a rollup after the day. */
  function Dense(k: Key, n: nat): seq<Event> {
    Prefix(k, n) + Round(k, n, DayStart(k.day + 1))
  }

  lemma RunTwo(events: seq<Event>, row: Row, cutoff: nat)
    ensures var more := events + [Record(row), RollupAt(cutoff)];
      && Run(more) == Rollup(State(Run(events).raw + [row], Run(events).summary), cutoff)
      && History(more) == History(events) + [row]
      && Cutoffs(more) == Cutoffs(events) + [cutoff]
      && (Orderly(more) <==> Orderly(events) && LastCutoff(events) <= row.ts && LastCutoff(events) <= cutoff)
  {
    var one, more := events + [Record(row)], events + [Record(row), RollupAt(cutoff)];
    assert more[..|more| - 1] == one && one[..|one| - 1] == events;
    assert Run(more) == Rollup(Run(one), cutoff) && Run(one) == State(Run(events).raw + [row], Run(events).summary);
    assert History(more) == History(one) && Cutoffs(more) == Cutoffs(one) + [cutoff] && Cutoffs(one) == Cutoffs(events);
    hide Rollup;
  }

  lemma PullAggregate(row: Row)
    requires row.peerdist
    ensures Aggregate([row]).installs == 1 && Aggregate([row]).peerInstalls == 1
  {
    assert Clients([row], false) == {row.ip} && Clients([row], true) == {row.ip};
    hide Sent, MaxSize;
  }

  lemma PullBatch(k: Key, ts: nat, cutoff: nat)
    requires ts < cutoff && DayOf(ts) == k.day
    ensures Batch([Pull(k, ts)], cutoff, k) == [Pull(k, ts)] && Kept([Pull(k, ts)], cutoff) == []
  {
    var row := Pull(k, ts);
    OnlyRow(row, Since(cutoff));
    OnlyRow(row, DeliveredBefore(cutoff));
    OnlyRow(row, InGroup(KeyOf, k));
    hide Where;
  }

  /** Rolling up a single pull adds one to both counts and empties the table. */
  lemma OneMore(summary: map<Key, Agg>, k: Key, ts: nat, cutoff: nat)
    requires ts < cutoff && DayOf(ts) == k.day
    ensures var s := Rollup(State([Pull(k, ts)], summary), cutoff);
      && s.raw == [] && Stored(s.summary, k).installs == Stored(summary, k).installs + 1
      && Stored(s.summary, k).peerInstalls == Stored(summary, k).peerInstalls + 1
  {
    RollupStored(State([Pull(k, ts)], summary), cutoff, k);
    PullBatch(k, ts, cutoff);
    PullAggregate(Pull(k, ts));
    hide Merge, GroupBy, Expired, Batch, Aggregate, Kept, Stored;
  }

  lemma OnlyRow(row: Row, p: Row -> bool)
    ensures Where([row], p) == if p(row) then [row] else []
  {
    assert [] + [row] == [row];
    WhereSnoc([], row, p);
    assert Where([], p) == [];
  }

  /** What has been rolled up after `n` rounds. */
  predicate Stores(s: State, k: Key, n: nat) {
    s.raw == [] && Stored(s.summary, k).installs == n && Stored(s.summary, k).peerInstalls == n
  }

  predicate OneClient(rows: seq<Row>) {
    forall r :: r in rows ==> r.ip == "192.0.2.1"
  }

  predicate Rounds(events: seq<Event>, k: Key, n: nat) {
    && Orderly(events) && Stores(Run(events), k, n) && OneClient(History(events))
    && LastCutoff(events) <= DayStart(k.day) + n && CutoffsInside(Cutoffs(events), k.day) == n
  }

  lemma DayOfEarly(day: nat, n: nat)
    requires n < 86_400_000
    ensures DayOf(DayStart(day) + n) == day
    ensures n > 0 ==> InsideDay(DayStart(day) + n, day)
    ensures !InsideDay(DayStart(day + 1), day)
  {}

  lemma OneClientMore(rows: seq<Row>, row: Row)
    requires OneClient(rows) && row.ip == "192.0.2.1"
    ensures OneClient(rows + [row])
  {}

  lemma InsideMore(cuts: seq<nat>, cutoff: nat, day: nat)
    ensures CutoffsInside(cuts + [cutoff], day) == CutoffsInside(cuts, day) + if InsideDay(cutoff, day) then 1 else 0
    ensures Last(cuts + [cutoff]) == cutoff
  {
    assert (cuts + [cutoff])[..|cuts|] == cuts;
  }

  /** The parts of Rounds, by name. */
  lemma RoundsParts(events: seq<Event>, k: Key, n: nat)
    requires Rounds(events, k, n)
    ensures Orderly(events) && OneClient(History(events)) && LastCutoff(events) <= DayStart(k.day) + n
    ensures CutoffsInside(Cutoffs(events), k.day) == n
    ensures Run(events) == State([], Run(events).summary)
    ensures Stored(Run(events).summary, k).installs == n && Stored(Run(events).summary, k).peerInstalls == n
  {
    hide Orderly, Run, OneClient, History, LastCutoff, Cutoffs, CutoffsInside, DayStart, Stored;
  }

  lemma StoresIf(s: State, k: Key, n: nat)
    requires s.raw == [] && Stored(s.summary, k).installs == n && Stored(s.summary, k).peerInstalls == n
    ensures Stores(s, k, n)
  {}

  lemma NextRound(events: seq<Event>, k: Key, n: nat, cutoff: nat)
    requires n < 86_400_000 && Rounds(events, k, n) && DayStart(k.day) + n < cutoff
    ensures var more := events + Round(k, n, cutoff);
      && Orderly(more) && Stores(Run(more), k, n + 1) && OneClient(History(more)) && LastCutoff(more) == cutoff
      && CutoffsInside(Cutoffs(more), k.day) == n + (if InsideDay(cutoff, k.day) then 1 else 0)
      && History(more) == History(events) + [Pull(k, DayStart(k.day) + n)]
  {
    var row := Pull(k, DayStart(k.day) + n);
    assert row.ts == DayStart(k.day) + n && row.ip == "192.0.2.1";
    assert Round(k, n, cutoff) == [Record(row), RollupAt(cutoff)];
    var more := events + Round(k, n, cutoff);
    assert LastCutoff(more) == Last(Cutoffs(more));
    hide *;
    DayOfEarly(k.day, n);
    RoundsParts(events, k, n);
    RunTwo(events, row, cutoff);
    OneMore(Run(events).summary, k, row.ts, cutoff);
    assert [] + [row] == [row];
    InsideMore(Cutoffs(events), cutoff, k.day);
    OneClientMore(History(events), row);
    StoresIf(Run(more), k, n + 1);
  }

  lemma RoundsIf(events: seq<Event>, k: Key, n: nat)
    requires Orderly(events) && Stores(Run(events), k, n) && OneClient(History(events))
    requires LastCutoff(events) == DayStart(k.day) + n && CutoffsInside(Cutoffs(events), k.day) == n
    ensures Rounds(events, k, n)
  {
    hide Run, History, Cutoffs, Orderly, Stores, OneClient, CutoffsInside, LastCutoff, DayStart;
  }

  lemma NoRounds(k: Key)
    ensures Rounds(Prefix(k, 0), k, 0)
  {
    assert Prefix(k, 0) == [];
    Nothing(k);
    hide *;
  }

  lemma Nothing(k: Key)
    ensures Rounds([], k, 0)
  {}

  lemma PrefixStep(k: Key, n: nat)
    requires n > 0
    ensures Prefix(k, n) == Prefix(k, n - 1) + Round(k, n - 1, DayStart(k.day) + n)
  {
    hide Pull, DayStart;
  }

  lemma {:induction false} PrefixRounds(k: Key, n: nat)
    requires n < 86_400_000
    ensures Rounds(Prefix(k, n), k, n)
  {
    hide *;
    if n == 0 {
      NoRounds(k);
    } else {
      PrefixStep(k, n);
      PrefixRounds(k, n - 1);
      DayOfEarly(k.day, n);
      NextRound(Prefix(k, n - 1), k, n - 1, DayStart(k.day) + n);
      RoundsIf(Prefix(k, n), k, n);
    }
  }

  lemma AfterDay(k: Key, n: nat)
    requires n < 86_400_000
    ensures DayStart(k.day) + n < DayStart(k.day + 1)
  {}

  lemma CountOf(a: Agg, n: nat, peer: bool)
    requires a.installs == n && a.peerInstalls == n
    ensures a.Count(peer) == n
  {}

  lemma StoresParts(s: State, k: Key, n: nat)
    requires Stores(s, k, n)
    ensures Stored(s.summary, k).installs == n && Stored(s.summary, k).peerInstalls == n
  {
    hide Stored;
  }

  /** For every number of cutoffs that fit inside a UTC day there is an orderly run with one true client whose stored
      counts are exactly one more than those cutoffs: the bound cannot be improved. */
  lemma BoundAttained(k: Key, n: nat, peer: bool)
    requires n < 86_400_000
    ensures var events := Dense(k, n);
      && Orderly(events) && CutoffsInside(Cutoffs(events), k.day) == n && |TrueClients(events, k, peer)| == 1
      && Stored(Run(events).summary, k).Count(peer) == 1 + n
  {
    var events, row, cutoff := Dense(k, n), Pull(k, DayStart(k.day) + n), DayStart(k.day + 1);
    assert events == Prefix(k, n) + Round(k, n, cutoff);
    hide *;
    PrefixRounds(k, n);
    DayOfEarly(k.day, n);
    AfterDay(k, n);
    NextRound(Prefix(k, n), k, n, cutoff);
    StoresParts(Run(events), k, n + 1);
    CountOf(Stored(Run(events).summary, k), n + 1, peer);
    assert row in History(events);
    OneTrueClient(events, k, n, peer);
  }

  lemma OneTrueClient(events: seq<Event>, k: Key, n: nat, peer: bool)
    requires n < 86_400_000 && Pull(k, DayStart(k.day) + n) in History(events)
    requires LastCutoff(events) == DayStart(k.day + 1)
    requires OneClient(History(events))
    ensures |TrueClients(events, k, peer)| == 1
  {
    DayOfEarly(k.day, n);
    var row := Pull(k, DayStart(k.day) + n);
    assert Counted(row, k, peer);
    hide Run, History, LastCutoff;
    assert TrueClients(events, k, peer) == {"192.0.2.1"};
  }
}
