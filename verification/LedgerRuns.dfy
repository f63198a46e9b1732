/** Whole runs of the ledger: any interleaving of recorded requests and rollups, against the full history. */
module LedgerRuns {
  import opened Ledger

  datatype Event = Record(row: Row) | RollupAt(cutoff: nat)

  function Run(events: seq<Event>): State {
    if events == [] then State([], map[]) else
      var s, e := Run(events[..|events| - 1]), events[|events| - 1];
      match e
      case Record(row) => State(s.raw + [row], s.summary)
      case RollupAt(cutoff) => Rollup(s, cutoff)
  }

  /** Every row ever recorded. */
  function History(events: seq<Event>): seq<Row> {
    if events == [] then [] else
      var h, e := History(events[..|events| - 1]), events[|events| - 1];
      if e.Record? then h + [e.row] else h
  }

  function Cutoffs(events: seq<Event>): seq<nat> {
    if events == [] then [] else
      var c, e := Cutoffs(events[..|events| - 1]), events[|events| - 1];
      if e.RollupAt? then c + [e.cutoff] else c
  }

  // ----- What one rollup does to one key

  /** The rows that a rollup at `cutoff` adds to key `k`. */
  function Batch(raw: seq<Row>, cutoff: nat, k: Key): seq<Row> {
    Having(Expired(raw, cutoff), KeyOf, k)
  }

  /** What merging does to one key. */
  lemma MergeStored(summary: map<Key, Agg>, groups: map<Key, Agg>, k: Key)
    ensures Stored(Merge(summary, groups), k)
         == if k in groups then Combine(Stored(summary, k), groups[k]) else Stored(summary, k)
  {}

  lemma GroupOf<K>(rows: seq<Row>, key: Row -> K, k: K)
    ensures k in GroupBy(rows, key) ==> GroupBy(rows, key)[k] == Aggregate(Having(rows, key, k))
    ensures k !in GroupBy(rows, key) ==> Aggregate(Having(rows, key, k)) == Agg(0, 0, 0, 0)
  {
    EmptyGroup(rows, key, k);
    hide Aggregate, KeysOf, Having;
  }

  lemma RollupStored(s: State, cutoff: nat, k: Key)
    ensures Stored(Rollup(s, cutoff).summary, k)
         == Combine(Stored(s.summary, k), Aggregate(Batch(s.raw, cutoff, k)))
  {
    GroupOf(Expired(s.raw, cutoff), KeyOf, k);
    MergeStored(s.summary, GroupBy(Expired(s.raw, cutoff), KeyOf), k);
    hide Stored, Merge, GroupBy, Aggregate, Expired, Having, Kept;
  }

  lemma EmptyGroup<K>(rows: seq<Row>, key: Row -> K, k: K)
    ensures k !in KeysOf(rows, key) <==> Having(rows, key, k) == []
    ensures Aggregate([]) == Agg(0, 0, 0, 0)
  {
    var group := Having(rows, key, k);
    WhereMembers(rows, InGroup(key, k));
    if group != [] {
      assert group[0] in group;
    }
    if k in KeysOf(rows, key) {
      var r :| r in rows && key(r) == k;
      assert r in group;
    }
    assert Clients([], false) == {} && Clients([], true) == {};
  }

  /** Adding one row at the end of a table. */
  lemma Snoc(rows: seq<Row>, last: Row)
    ensures Sent(rows + [last]) == Sent(rows) + last.sent
    ensures MaxSize(rows + [last]) == Max(MaxSize(rows), last.size)
  {
    assert (rows + [last])[..|rows|] == rows;
  }

  lemma {:induction false} WhereWhere(rows: seq<Row>, p: Row -> bool, q: Row -> bool, both: Row -> bool)
    requires forall r :: r in rows ==> both(r) == (p(r) && q(r))
    ensures Where(Where(rows, p), q) == Where(rows, both)
  {
    if rows == [] {
    } else {
      var init, last := rows[..|rows| - 1], rows[|rows| - 1];
      assert rows == init + [last] && last in rows;
      WhereWhere(init, p, q, both);
      WhereSnoc(Where(init, p), last, q);
    }
  }

  /** `a` and `b` together select what `p` selects, and never the same row. */
  ghost predicate Cuts(rows: seq<Row>, p: Row -> bool, a: Row -> bool, b: Row -> bool) {
    forall r :: r in rows ==> p(r) == (a(r) || b(r)) && !(a(r) && b(r))
  }

  lemma CutsInit(rows: seq<Row>, p: Row -> bool, a: Row -> bool, b: Row -> bool)
    requires rows != [] && Cuts(rows, p, a, b)
    ensures Cuts(rows[..|rows| - 1], p, a, b)
    ensures var r := rows[|rows| - 1]; p(r) == (a(r) || b(r)) && !(a(r) && b(r))
  {}

  /** Egress of a table cut in two. */
  lemma {:induction false} SplitSent(rows: seq<Row>, p: Row -> bool, a: Row -> bool, b: Row -> bool)
    requires Cuts(rows, p, a, b)
    ensures Sent(Where(rows, a)) + Sent(Where(rows, b)) == Sent(Where(rows, p))
  {
    if rows == [] {
    } else {
      var init, last := rows[..|rows| - 1], rows[|rows| - 1];
      CutsInit(rows, p, a, b);
      hide Cuts;
      SplitSent(init, p, a, b);
      Snoc(Where(init, p), last);
      Snoc(Where(init, a), last);
      Snoc(Where(init, b), last);
    }
  }

  /** File size of a table cut in two. */
  lemma {:induction false} SplitSize(rows: seq<Row>, p: Row -> bool, a: Row -> bool, b: Row -> bool)
    requires Cuts(rows, p, a, b)
    ensures Max(MaxSize(Where(rows, a)), MaxSize(Where(rows, b))) == MaxSize(Where(rows, p))
  {
    if rows == [] {
    } else {
      var init, last := rows[..|rows| - 1], rows[|rows| - 1];
      CutsInit(rows, p, a, b);
      hide Cuts;
      SplitSize(init, p, a, b);
      Snoc(Where(init, p), last);
      Snoc(Where(init, a), last);
      Snoc(Where(init, b), last);
    }
  }

  lemma SplitWhere(rows: seq<Row>, p: Row -> bool, a: Row -> bool, b: Row -> bool)
    requires Cuts(rows, p, a, b)
    ensures Sent(Where(rows, a)) + Sent(Where(rows, b)) == Sent(Where(rows, p))
    ensures Max(MaxSize(Where(rows, a)), MaxSize(Where(rows, b))) == MaxSize(Where(rows, p))
  {
    SplitSent(rows, p, a, b);
    SplitSize(rows, p, a, b);
  }

  lemma WrittenOut(r: Row, k: Key)
    ensures DeliveredTo(k)(r) <==> Delivers(r) && KeyOf(r) == k
  {
    assert KeyOf(r) == k <==> KeyOf(r).day == k.day && KeyOf(r).subnet == k.subnet && KeyOf(r).path == k.path;
  }

  /** A cutoff splits the deliveries of a key into the rolled-up batch and the rows that stay. */
  lemma SplitCell(rows: seq<Row>, cutoff: nat, k: Key)
    ensures Sent(Batch(rows, cutoff, k)) + Sent(Cell(Kept(rows, cutoff), k)) == Sent(Cell(rows, k))
    ensures Max(MaxSize(Batch(rows, cutoff, k)), MaxSize(Cell(Kept(rows, cutoff), k))) == MaxSize(Cell(rows, k))
  {
    var p := DeliveredTo(k);
    var a := (r: Row) => r.ts < cutoff && p(r);
    var b := (r: Row) => r.ts >= cutoff && p(r);
    forall r | r in rows
      ensures a(r) == (DeliveredBefore(cutoff)(r) && InGroup(KeyOf, k)(r))
    {
      WrittenOut(r, k);
    }
    WhereWhere(rows, DeliveredBefore(cutoff), InGroup(KeyOf, k), a);
    WhereWhere(rows, Since(cutoff), p, b);
    SplitWhere(rows, p, a, b);
  }

  // ----- Conservation

  lemma CellSnoc(rows: seq<Row>, row: Row, k: Key)
    ensures var more, cell := Cell(rows + [row], k), Cell(rows, k);
      if DeliveredTo(k)(row) then Sent(more) == Sent(cell) + row.sent && MaxSize(more) == Max(MaxSize(cell), row.size)
      else more == cell
  {
    WhereSnoc(rows, row, DeliveredTo(k));
    Snoc(Cell(rows, k), row);
    hide Where, Sent, MaxSize;
  }

  /** The summary plus the raw rows still there account for the egress and the file size of `all`. */
  ghost predicate Accounts(s: State, all: seq<Row>, k: Key) {
    && Stored(s.summary, k).sent + Sent(Cell(s.raw, k)) == Sent(Cell(all, k))
    && Max(Stored(s.summary, k).fileSize, MaxSize(Cell(s.raw, k))) == MaxSize(Cell(all, k))
  }

  lemma RecordAccounts(s: State, all: seq<Row>, row: Row, k: Key)
    requires Accounts(s, all, k)
    ensures Accounts(State(s.raw + [row], s.summary), all + [row], k)
  {
    CellSnoc(s.raw, row, k);
    CellSnoc(all, row, k);
    hide Cell, Sent, MaxSize, Stored;
  }

  lemma RollupAccounts(s: State, all: seq<Row>, cutoff: nat, k: Key)
    requires Accounts(s, all, k)
    ensures Accounts(Rollup(s, cutoff), all, k)
  {
    RollupTotals(s, cutoff, k);
    SplitCell(s.raw, cutoff, k);
    hide Rollup, Cell, Sent, MaxSize, Stored, Batch, Kept;
  }

  /** No interleaving of requests and rollups loses or invents egress or file size: for every day, subnet and path the
      summary plus the raw rows still there account for everything ever delivered. */
  lemma {:induction false} Conservation(events: seq<Event>, k: Key)
    ensures Accounts(Run(events), History(events), k)
  {
    if events == [] {
    } else {
      var init, last := events[..|events| - 1], events[|events| - 1];
      hide Accounts, Rollup;
      Conservation(init, k);
      match last
      case Record(row) => RecordAccounts(Run(init), History(init), row, k);
      case RollupAt(cutoff) => RollupAccounts(Run(init), History(init), cutoff, k);
    }
  }

  /** Rolling up in two steps stores the same egress and size as rolling up once, and leaves the same raw table. */
  lemma RollupTwice(s: State, c1: nat, c2: nat, k: Key)
    requires c1 <= c2
    ensures var twice, once := Rollup(Rollup(s, c1), c2), Rollup(s, c2);
      && twice.raw == once.raw
      && Stored(twice.summary, k).sent == Stored(once.summary, k).sent
      && Stored(twice.summary, k).fileSize == Stored(once.summary, k).fileSize
  {
    hide *;
    KeptTwice(s.raw, c1, c2);
    RollupTotals(s, c1, k);
    RollupTotals(Rollup(s, c1), c2, k);
    RollupTotals(s, c2, k);
    SplitBatch(s.raw, c1, c2, k);
    MaxAssociative(Stored(s.summary, k).fileSize, MaxSize(Batch(s.raw, c1, k)),
                   MaxSize(Batch(Kept(s.raw, c1), c2, k)));
  }

  lemma KeptTwice(rows: seq<Row>, c1: nat, c2: nat)
    requires c1 <= c2
    ensures Kept(Kept(rows, c1), c2) == Kept(rows, c2)
  {
    WhereWhere(rows, Since(c1), Since(c2), Since(c2));
    hide Where;
  }

  lemma MaxAssociative(a: nat, b: nat, c: nat)
    ensures Max(Max(a, b), c) == Max(a, Max(b, c))
  {}

  lemma RollupTotals(s: State, cutoff: nat, k: Key)
    ensures Stored(Rollup(s, cutoff).summary, k).sent == Stored(s.summary, k).sent + Sent(Batch(s.raw, cutoff, k))
    ensures Stored(Rollup(s, cutoff).summary, k).fileSize
         == Max(Stored(s.summary, k).fileSize, MaxSize(Batch(s.raw, cutoff, k)))
    ensures forall peer :: Stored(Rollup(s, cutoff).summary, k).Count(peer)
                        == Stored(s.summary, k).Count(peer) + |Clients(Batch(s.raw, cutoff, k), peer)|
    ensures Rollup(s, cutoff).raw == Kept(s.raw, cutoff)
  {
    RollupStored(s, cutoff, k);
    hide Stored, Merge, GroupBy, Expired, Batch, Kept, Sent, MaxSize, Clients;
  }

  /** Two batches make up the one batch of the later cutoff. */
  lemma SplitBatch(rows: seq<Row>, c1: nat, c2: nat, k: Key)
    requires c1 <= c2
    ensures Sent(Batch(rows, c1, k)) + Sent(Batch(Kept(rows, c1), c2, k)) == Sent(Batch(rows, c2, k))
    ensures Max(MaxSize(Batch(rows, c1, k)), MaxSize(Batch(Kept(rows, c1), c2, k))) == MaxSize(Batch(rows, c2, k))
  {
    var p := (r: Row) => r.ts < c2 && Delivers(r) && KeyOf(r) == k;
    var a := (r: Row) => r.ts < c1 && Delivers(r) && KeyOf(r) == k;
    var b := (r: Row) => c1 <= r.ts < c2 && Delivers(r) && KeyOf(r) == k;
    var late := (r: Row) => c1 <= r.ts < c2 && Delivers(r);
    WhereWhere(rows, DeliveredBefore(c2), InGroup(KeyOf, k), p);
    WhereWhere(rows, DeliveredBefore(c1), InGroup(KeyOf, k), a);
    WhereWhere(rows, Since(c1), DeliveredBefore(c2), late);
    WhereWhere(rows, late, InGroup(KeyOf, k), b);
    SplitWhere(rows, p, a, b);
  }

  // ----- Bounded reinflation

  function Last(cuts: seq<nat>): nat {
    if cuts == [] then 0 else cuts[|cuts| - 1]
  }

  function LastCutoff(events: seq<Event>): nat {
    Last(Cutoffs(events))
  }

  /** Time moves forward: cutoffs never go back, and no request is stamped before a cutoff already applied. */
  predicate Orderly(events: seq<Event>) {
    events == [] ||
    var init, last := events[..|events| - 1], events[|events| - 1];
    Orderly(init) && LastCutoff(init) <= match last case Record(row) => row.ts case RollupAt(cutoff) => cutoff
  }

  /** The rows behind a stored count of `k`: its deliveries, or those that negotiated peerdist. */
  predicate Counted(r: Row, k: Key, peer: bool) {
    Delivers(r) && KeyOf(r) == k && (peer ==> r.peerdist)
  }

  /** The distinct clients of key `k` with a delivery in [lo, hi). */
  ghost function ClientsIn(rows: seq<Row>, k: Key, peer: bool, lo: nat, hi: nat): set<string> {
    set r | r in rows && Counted(r, k, peer) && lo <= r.ts < hi :: r.ip
  }

  /** The true number of distinct clients behind what has been rolled up for `k`. */
  ghost function TrueClients(events: seq<Event>, k: Key, peer: bool): set<string> {
    ClientsIn(History(events), k, peer, 0, LastCutoff(events))
  }

  predicate InsideDay(cutoff: nat, day: nat) {
    DayStart(day) < cutoff < DayStart(day + 1)
  }

  /** How many of the cutoffs lie strictly inside the UTC day. */
  function CutoffsInside(cuts: seq<nat>, day: nat): nat {
    if cuts == [] then 0 else
      CutoffsInside(cuts[..|cuts| - 1], day) + if InsideDay(cuts[|cuts| - 1], day) then 1 else 0
  }

  /** Some client delivered to `k` both before and after one of the cutoffs, both times before the last one. */
  ghost predicate StraddlesAny(rows: seq<Row>, cuts: seq<nat>, k: Key, peer: bool) {
    exists c, before, after {:trigger StraddlesAt(before, after, c, k, peer)} ::
      && c in cuts && before in rows && after in rows && StraddlesAt(before, after, c, k, peer) && after.ts < Last(cuts)
  }

  predicate StraddlesAt(before: Row, after: Row, c: nat, k: Key, peer: bool) {
    && Counted(before, k, peer) && Counted(after, k, peer)
    && before.ip == after.ip && before.ts < c <= after.ts
  }

  ghost predicate Straddles(events: seq<Event>, k: Key, peer: bool) {
    StraddlesAny(History(events), Cutoffs(events), k, peer)
  }

  /** The raw table holds exactly the rows that no cutoff has passed yet. */
  ghost predicate Recent(raw: seq<Row>, h: seq<Row>, cuts: seq<nat>) {
    && (forall r :: r in raw <==> r in h && r.ts >= Last(cuts))
    && (forall c :: c in cuts ==> c <= Last(cuts))
  }

  /** A rollup at `cutoff` counts the clients since the previous cutoff. */
  lemma BatchClients(raw: seq<Row>, h: seq<Row>, cuts: seq<nat>, cutoff: nat, k: Key, peer: bool)
    requires Recent(raw, h, cuts)
    ensures Clients(Batch(raw, cutoff, k), peer) == ClientsIn(h, k, peer, Last(cuts), cutoff)
  {
    WhereMembers(raw, DeliveredBefore(cutoff));
    WhereMembers(Expired(raw, cutoff), InGroup(KeyOf, k));
  }

  /** A new row is not yet rolled up, so it changes neither the true count nor the straddling clients. */
  lemma RecordKeepsCounts(h: seq<Row>, cuts: seq<nat>, row: Row, k: Key, peer: bool)
    requires Last(cuts) <= row.ts && forall c :: c in cuts ==> c <= Last(cuts)
    ensures ClientsIn(h + [row], k, peer, 0, Last(cuts)) == ClientsIn(h, k, peer, 0, Last(cuts))
    ensures StraddlesAny(h + [row], cuts, k, peer) <==> StraddlesAny(h, cuts, k, peer)
  {
    if StraddlesAny(h, cuts, k, peer) {
      var c, before, after :|
        c in cuts && before in h && after in h && StraddlesAt(before, after, c, k, peer) && after.ts < Last(cuts);
      assert before in h + [row] && after in h + [row];
    }
  }

  /** A rollup adds the clients since the previous cutoff; those seen before it are the ones it counts again. */
  lemma RollupCounts(h: seq<Row>, cuts: seq<nat>, cutoff: nat, k: Key, peer: bool)
    requires Last(cuts) <= cutoff && forall c :: c in cuts ==> c <= Last(cuts)
    ensures var newer := ClientsIn(h, k, peer, Last(cuts), cutoff);
      && ClientsIn(h, k, peer, 0, cutoff) == ClientsIn(h, k, peer, 0, Last(cuts)) + newer
      && (StraddlesAny(h, cuts + [cutoff], k, peer) <==>
          StraddlesAny(h, cuts, k, peer) || ClientsIn(h, k, peer, 0, Last(cuts)) * newer != {})
  {
    ClientsJoin(h, k, peer, Last(cuts), cutoff);
    EarlierOf(cuts, cutoff);
    if StraddlesAny(h, cuts, k, peer) {
      StillStraddles(h, cuts, cutoff, k, peer);
    }
    if ClientsIn(h, k, peer, 0, Last(cuts)) * ClientsIn(h, k, peer, Last(cuts), cutoff) != {} {
      CountedTwice(h, cuts, cutoff, k, peer);
    }
    if StraddlesAny(h, cuts + [cutoff], k, peer) && !StraddlesAny(h, cuts, k, peer) {
      NewStraddler(h, cuts, cutoff, k, peer);
    }
    hide StraddlesAny, ClientsIn, Last;
  }

  lemma StillStraddles(h: seq<Row>, cuts: seq<nat>, cutoff: nat, k: Key, peer: bool)
    requires Last(cuts) <= cutoff && StraddlesAny(h, cuts, k, peer)
    ensures StraddlesAny(h, cuts + [cutoff], k, peer)
  {
    hide StraddlesAt;
    var c, before, after :|
      c in cuts && before in h && after in h && StraddlesAt(before, after, c, k, peer) && after.ts < Last(cuts);
    assert c in cuts + [cutoff];
  }

  lemma CountedTwice(h: seq<Row>, cuts: seq<nat>, cutoff: nat, k: Key, peer: bool)
    requires ClientsIn(h, k, peer, 0, Last(cuts)) * ClientsIn(h, k, peer, Last(cuts), cutoff) != {}
    ensures StraddlesAny(h, cuts + [cutoff], k, peer)
  {
    hide Counted;
    var last := Last(cuts);
    var ip :| ip in ClientsIn(h, k, peer, 0, last) * ClientsIn(h, k, peer, last, cutoff);
    var before :| before in h && Counted(before, k, peer) && before.ts < last && before.ip == ip;
    var after :| after in h && Counted(after, k, peer) && last <= after.ts < cutoff && after.ip == ip;
    assert last in cuts + [cutoff] && StraddlesAt(before, after, last, k, peer);
  }

  lemma NewStraddler(h: seq<Row>, cuts: seq<nat>, cutoff: nat, k: Key, peer: bool)
    requires Last(cuts) <= cutoff && forall c :: c in cuts ==> c <= Last(cuts)
    requires StraddlesAny(h, cuts + [cutoff], k, peer) && !StraddlesAny(h, cuts, k, peer)
    ensures ClientsIn(h, k, peer, 0, Last(cuts)) * ClientsIn(h, k, peer, Last(cuts), cutoff) != {}
  {
    hide Counted;
    var last, all := Last(cuts), cuts + [cutoff];
    var c, before, after :|
      c in all && before in h && after in h && StraddlesAt(before, after, c, k, peer) && after.ts < cutoff;
    assert c in cuts;
    assert after.ts < last ==> StraddlesAny(h, cuts, k, peer);
    assert before.ip in ClientsIn(h, k, peer, 0, last) && after.ip in ClientsIn(h, k, peer, last, cutoff);
    assert before.ip in ClientsIn(h, k, peer, 0, last) * ClientsIn(h, k, peer, last, cutoff);
  }

  /** All cutoffs but the last. */
  function Earlier(cuts: seq<nat>): seq<nat> {
    if cuts == [] then [] else cuts[..|cuts| - 1]
  }

  lemma UnionSize<T>(a: set<T>, b: set<T>)
    ensures |a + b| == |a| + |b| - |a * b|
    ensures a * b == {} <==> |a * b| == 0
    ensures |a * b| <= |a| && |a * b| <= |b|
  {
    assert a + b == a + (b - a) && b == (b - a) + a * b;
    assert a == (a - b) + a * b;
  }

  lemma DayBounds(ts: nat)
    ensures DayStart(DayOf(ts)) <= ts < DayStart(DayOf(ts) + 1)
  {}

  /** When a rollup finds both clients already counted and newer ones, the previous cutoff lies inside the day. */
  lemma CutoffSplitsDay(h: seq<Row>, cuts: seq<nat>, cutoff: nat, k: Key, peer: bool)
    ensures CutoffsInside(Earlier(cuts), k.day) <= CutoffsInside(cuts, k.day)
    ensures ClientsIn(h, k, peer, 0, Last(cuts)) != {} && ClientsIn(h, k, peer, Last(cuts), cutoff) != {} ==>
      CutoffsInside(Earlier(cuts), k.day) + 1 == CutoffsInside(cuts, k.day)
  {
    if ClientsIn(h, k, peer, 0, Last(cuts)) != {} && ClientsIn(h, k, peer, Last(cuts), cutoff) != {} {
      var a, b :| a in ClientsIn(h, k, peer, 0, Last(cuts)) && b in ClientsIn(h, k, peer, Last(cuts), cutoff);
      var before :| before in h && KeyOf(before) == k && before.ts < Last(cuts);
      var after :| after in h && KeyOf(after) == k && Last(cuts) <= after.ts;
      assert KeyOf(before).day == k.day == KeyOf(after).day;
      DayBounds(before.ts);
      DayBounds(after.ts);
      assert DayStart(k.day) <= before.ts && after.ts < DayStart(k.day + 1);
    }
  }

  /** `n * m` by repeated addition, which keeps products out of the proofs about counts. */
  ghost function Times(n: nat, m: nat): nat {
    if n == 0 then 0 else m + Times(n - 1, m)
  }

  lemma {:induction false} TimesProduct(n: nat, m: nat)
    ensures Times(n, m) == n * m
  {
    if n == 0 {
    } else {
      TimesProduct(n - 1, m);
      assert n * m == m + (n - 1) * m;
    }
  }

  lemma {:induction false} TimesMonotone(n: nat, n': nat, m: nat, m': nat)
    requires n <= n' && m <= m'
    ensures Times(n, m) <= Times(n', m')
    decreases n'
  {
    if n' == 0 {
    } else {
      TimesMonotone(if n == 0 then 0 else n - 1, n' - 1, m, m');
    }
  }

  /** The arithmetic of one rollup: `stored` grows by all newer clients, the truth only by the new ones among them. */
  lemma CountOnce(before: nat, after: nat, stored: nat, seen: set<string>, newer: set<string>)
    requires |seen| <= stored <= Times(1 + before, |seen|) && before <= after
    requires seen != {} && newer != {} ==> before + 1 == after
    ensures |seen + newer| <= stored + |newer| <= Times(1 + after, |seen + newer|)
  {
    UnionSize(seen, newer);
    TimesMonotone(1 + before, 1 + before, |seen|, |seen + newer|);
    TimesMonotone(1 + before, 1 + after, |seen + newer|, |seen + newer|);
    TimesMonotone(1, 1 + after, |seen + newer|, |seen + newer|);
    if seen == {} {
      TimesProduct(1 + before, 0);
    }
  }

  /** At most one count per true client and stretch of the day; a cutoff matters once another rollup followed it. */
  ghost predicate Bounded(stored: nat, h: seq<Row>, cuts: seq<nat>, k: Key, peer: bool) {
    var truth := |ClientsIn(h, k, peer, 0, Last(cuts))|;
    truth <= stored <= Times(1 + CutoffsInside(Earlier(cuts), k.day), truth)
  }

  /** The stored count is the true one exactly when no client straddles. */
  ghost predicate ExactUnlessStraddled(stored: nat, h: seq<Row>, cuts: seq<nat>, k: Key, peer: bool) {
    stored == |ClientsIn(h, k, peer, 0, Last(cuts))| <==> !StraddlesAny(h, cuts, k, peer)
  }

  /** What is claimed of the stored count of `k` after a run. */
  ghost predicate CountInvariant(stored: nat, h: seq<Row>, cuts: seq<nat>, k: Key, peer: bool) {
    Bounded(stored, h, cuts, k, peer) && ExactUnlessStraddled(stored, h, cuts, k, peer)
  }

  lemma RecordKeepsInvariant(stored: nat, h: seq<Row>, cuts: seq<nat>, row: Row, k: Key, peer: bool)
    requires CountInvariant(stored, h, cuts, k, peer)
    requires Last(cuts) <= row.ts && forall c :: c in cuts ==> c <= Last(cuts)
    ensures CountInvariant(stored, h + [row], cuts, k, peer)
  {
    RecordKeepsCounts(h, cuts, row, k, peer);
  }

  lemma EarlierOf(cuts: seq<nat>, cutoff: nat)
    ensures Earlier(cuts + [cutoff]) == cuts && Last(cuts + [cutoff]) == cutoff
  {}

  lemma ClientsJoin(h: seq<Row>, k: Key, peer: bool, middle: nat, hi: nat)
    requires middle <= hi
    ensures ClientsIn(h, k, peer, 0, hi) == ClientsIn(h, k, peer, 0, middle) + ClientsIn(h, k, peer, middle, hi)
  {
    hide Counted;
  }

  lemma RollupKeepsBound(stored: nat, h: seq<Row>, cuts: seq<nat>, cutoff: nat, k: Key, peer: bool)
    requires Bounded(stored, h, cuts, k, peer)
    requires Last(cuts) <= cutoff
    ensures Bounded(stored + |ClientsIn(h, k, peer, Last(cuts), cutoff)|, h, cuts + [cutoff], k, peer)
  {
    var seen, newer := ClientsIn(h, k, peer, 0, Last(cuts)), ClientsIn(h, k, peer, Last(cuts), cutoff);
    hide ClientsIn, Times, CutoffsInside, Earlier, Last;
    CutoffSplitsDay(h, cuts, cutoff, k, peer);
    CountOnce(CutoffsInside(Earlier(cuts), k.day), CutoffsInside(cuts, k.day), stored, seen, newer);
    ClientsJoin(h, k, peer, Last(cuts), cutoff);
    EarlierOf(cuts, cutoff);
  }

  lemma RollupKeepsExact(stored: nat, h: seq<Row>, cuts: seq<nat>, cutoff: nat, k: Key, peer: bool)
    requires ExactUnlessStraddled(stored, h, cuts, k, peer) && |ClientsIn(h, k, peer, 0, Last(cuts))| <= stored
    requires Last(cuts) <= cutoff && forall c :: c in cuts ==> c <= Last(cuts)
    ensures ExactUnlessStraddled(stored + |ClientsIn(h, k, peer, Last(cuts), cutoff)|, h, cuts + [cutoff], k, peer)
  {
    RollupCounts(h, cuts, cutoff, k, peer);
    UnionSize(ClientsIn(h, k, peer, 0, Last(cuts)), ClientsIn(h, k, peer, Last(cuts), cutoff));
  }

  lemma RollupKeepsInvariant(stored: nat, h: seq<Row>, cuts: seq<nat>, cutoff: nat, k: Key, peer: bool)
    requires CountInvariant(stored, h, cuts, k, peer)
    requires Last(cuts) <= cutoff && forall c :: c in cuts ==> c <= Last(cuts)
    ensures CountInvariant(stored + |ClientsIn(h, k, peer, Last(cuts), cutoff)|, h, cuts + [cutoff], k, peer)
  {
    RollupKeepsBound(stored, h, cuts, cutoff, k, peer);
    RollupKeepsExact(stored, h, cuts, cutoff, k, peer);
  }

  /** One rollup, on the tables. */
  lemma RollupStep(s: State, h: seq<Row>, cuts: seq<nat>, cutoff: nat, k: Key, peer: bool)
    requires Recent(s.raw, h, cuts) && Last(cuts) <= cutoff
    requires CountInvariant(Stored(s.summary, k).Count(peer), h, cuts, k, peer)
    ensures Recent(Rollup(s, cutoff).raw, h, cuts + [cutoff])
    ensures CountInvariant(Stored(Rollup(s, cutoff).summary, k).Count(peer), h, cuts + [cutoff], k, peer)
  {
    WhereMembers(s.raw, Since(cutoff));
    BatchClients(s.raw, h, cuts, cutoff, k, peer);
    RollupTotals(s, cutoff, k);
    RollupKeepsInvariant(Stored(s.summary, k).Count(peer), h, cuts, cutoff, k, peer);
  }

  /** Every orderly run keeps the invariant. */
  lemma {:induction false} RunKeepsInvariant(events: seq<Event>, k: Key, peer: bool)
    requires Orderly(events)
    ensures Recent(Run(events).raw, History(events), Cutoffs(events))
    ensures CountInvariant(Stored(Run(events).summary, k).Count(peer), History(events), Cutoffs(events), k, peer)
  {
    if events == [] {
      assert ClientsIn([], k, peer, 0, 0) == {};
    } else {
      var init, last := events[..|events| - 1], events[|events| - 1];
      RunKeepsInvariant(init, k, peer);
      match last
      case Record(row) =>
        RecordKeepsInvariant(Stored(Run(init).summary, k).Count(peer), History(init), Cutoffs(init), row, k, peer);
      case RollupAt(cutoff) =>
        RollupStep(Run(init), History(init), Cutoffs(init), cutoff, k, peer);
    }
  }

  /** The summary counts every true client, and counts one at most once for each stretch of the day between cutoffs;
      it is exact precisely when no client straddles a cutoff. */
  lemma BoundedReinflation(events: seq<Event>, k: Key, peer: bool)
    requires Orderly(events)
    ensures var truth, stored := |TrueClients(events, k, peer)|, Stored(Run(events).summary, k).Count(peer);
      && truth <= stored <= Times(1 + CutoffsInside(Cutoffs(events), k.day), truth)
      && (stored == truth <==> !Straddles(events, k, peer))
  {
    hide Run, History, Cutoffs, Times, CutoffsInside;
    RunKeepsInvariant(events, k, peer);
    LooserBound(Stored(Run(events).summary, k).Count(peer), History(events), Cutoffs(events), k, peer);
  }

  lemma LooserBound(stored: nat, h: seq<Row>, cuts: seq<nat>, k: Key, peer: bool)
    requires CountInvariant(stored, h, cuts, k, peer)
    ensures stored <= Times(1 + CutoffsInside(cuts, k.day), |ClientsIn(h, k, peer, 0, Last(cuts))|)
  {
    CutoffSplitsDay([], cuts, 0, k, peer);
    var truth := |ClientsIn(h, k, peer, 0, Last(cuts))|;
    TimesMonotone(1 + CutoffsInside(Earlier(cuts), k.day), 1 + CutoffsInside(cuts, k.day), truth, truth);
  }
}
