/** The bandwidth ledger of metrics.js: a raw request table, a daily summary table that the nightly rollup adds to,
    and the rollup itself.  Times are milliseconds since the Unix epoch; fixed-width ISO text sorts like them. */
module Ledger {
  import opened Prelude

  const DAY: nat := 86_400_000

  // The day length is written out where it divides or multiplies, which keeps the arithmetic linear.
  /** date(ts). */
  function DayOf(ts: nat): nat { ts / 86_400_000 }

  function DayStart(day: nat): nat { day * 86_400_000 }

  function TimeOfDay(ts: nat): nat { ts % 86_400_000 }
  const DEFAULT_RETENTION_DAYS: nat := 90

  /** One row of installer_request. */
  datatype Row = Row(ts: nat, ip: string, subnet: string, ua: Option<string>, path: string, size: nat, sent: nat,
                     peerdist: bool, status: nat, durationMs: nat)

  /** The primary key of installer_request_summary. */
  datatype Key = Key(day: nat, subnet: string, path: string)

  /** What one GROUP BY group aggregates to; also the non-key columns of a summary row. */
  datatype Agg = Agg(installs: nat, peerInstalls: nat, fileSize: nat, sent: nat) {
    function Count(peer: bool): nat {
      if peer then peerInstalls else installs
    }
  }

  datatype State = State(raw: seq<Row>, summary: map<Key, Agg>)

  /** DELIVERY_FILTER: a successful content response that moved bytes. */
  predicate Delivers(r: Row) {
    (r.status == 200 || r.status == 206) && r.size > 0 && r.sent > 0
  }

  function KeyOf(r: Row): Key {
    Key(DayOf(r.ts), r.subnet, r.path)
  }

  function Max(a: nat, b: nat): nat {
    if a >= b then a else b
  }

  /** `Date.now() - days * 24h`; before the epoch nothing is older than the cutoff. */
  function CutoffMs(now: nat, days: nat): nat {
    if now >= DayStart(days) then now - DayStart(days) else 0
  }

  // ----- SQL over row tables

  /** WHERE. */
  function Where(rows: seq<Row>, p: Row -> bool): seq<Row> {
    if rows == [] then [] else
      var some, last := Where(rows[..|rows| - 1], p), rows[|rows| - 1];
      if p(last) then some + [last] else some
  }

  lemma {:induction false} WhereMembers(rows: seq<Row>, p: Row -> bool)
    ensures forall r :: r in Where(rows, p) <==> r in rows && p(r)
    ensures |Where(rows, p)| <= |rows|
  {
    if rows == [] {
    } else {
      WhereMembers(rows[..|rows| - 1], p);
      assert rows == rows[..|rows| - 1] + [rows[|rows| - 1]];
    }
  }

  lemma {:induction false} WhereCounts(rows: seq<Row>, p: Row -> bool, r: Row)
    ensures multiset(Where(rows, p))[r] == if p(r) then multiset(rows)[r] else 0
  {
    if rows == [] {
    } else {
      var init, last := rows[..|rows| - 1], rows[|rows| - 1];
      assert rows == init + [last];
      WhereCounts(init, p, r);
    }
  }

  /** Appending a row. */
  lemma WhereSnoc(init: seq<Row>, last: Row, p: Row -> bool)
    ensures Where(init + [last], p) == if p(last) then Where(init, p) + [last] else Where(init, p)
  {
    assert (init + [last])[..|init|] == init;
  }

  // The row conditions of the queries, as values.
  function Since(cutoff: nat): Row -> bool { (r: Row) => r.ts >= cutoff }

  function DeliveredBefore(cutoff: nat): Row -> bool { (r: Row) => r.ts < cutoff && Delivers(r) }

  function DeliveredSince(cutoff: nat): Row -> bool { (r: Row) => r.ts >= cutoff && Delivers(r) }

  /** The deliveries of one day, subnet and path, with everything written out. */
  function DeliveredTo(k: Key): Row -> bool {
    (r: Row) =>
      && (r.status == 200 || r.status == 206) && r.size > 0 && r.sent > 0
      && r.ts / 86_400_000 == k.day && r.subnet == k.subnet && r.path == k.path
  }

  function InGroup<K(==)>(key: Row -> K, k: K): Row -> bool { (r: Row) => key(r) == k }

  function Expired(rows: seq<Row>, cutoff: nat): seq<Row> { Where(rows, DeliveredBefore(cutoff)) }

  function Kept(rows: seq<Row>, cutoff: nat): seq<Row> { Where(rows, Since(cutoff)) }

  /** The rows a dashboard query reads. */
  function Window(rows: seq<Row>, cutoff: nat): seq<Row> { Where(rows, DeliveredSince(cutoff)) }

  function Having<K(==)>(rows: seq<Row>, key: Row -> K, k: K): seq<Row> { Where(rows, InGroup(key, k)) }

  /** The delivery rows of one summary key. */
  function Cell(rows: seq<Row>, k: Key): seq<Row> { Where(rows, DeliveredTo(k)) }

  /** SUM(bytes_sent). */
  function Sent(rows: seq<Row>): nat {
    if rows == [] then 0 else Sent(rows[..|rows| - 1]) + rows[|rows| - 1].sent
  }

  /** MAX(installer_size). */
  function MaxSize(rows: seq<Row>): nat {
    if rows == [] then 0 else Max(MaxSize(rows[..|rows| - 1]), rows[|rows| - 1].size)
  }

  /** COUNT(DISTINCT client_ip) counts these; with `peer`, only rows that negotiated peerdist name a client. */
  function Clients(rows: seq<Row>, peer: bool): set<string> {
    set r | r in rows && (peer ==> r.peerdist) :: r.ip
  }

  function Aggregate(rows: seq<Row>): Agg {
    Agg(|Clients(rows, false)|, |Clients(rows, true)|, MaxSize(rows), Sent(rows))
  }

  function KeysOf<K(==)>(rows: seq<Row>, key: Row -> K): set<K> {
    set r | r in rows :: key(r)
  }

  function GroupBy<K(==)>(rows: seq<Row>, key: Row -> K): map<K, Agg> {
    map k | k in KeysOf(rows, key) :: Aggregate(Having(rows, key, k))
  }

  // ----- Rollup

  /** ON CONFLICT DO UPDATE: counts and egress add up, file_size takes the larger. */
  function Combine(s: Agg, excluded: Agg): Agg {
    Agg(s.installs + excluded.installs, s.peerInstalls + excluded.peerInstalls,
        Max(s.fileSize, excluded.fileSize), s.sent + excluded.sent)
  }

  function Upsert(summary: map<Key, Agg>, k: Key, excluded: Agg): map<Key, Agg> {
    summary[k := if k in summary then Combine(summary[k], excluded) else excluded]
  }

  /** The stored aggregate of a key, zero when there is no row. */
  function Stored(summary: map<Key, Agg>, k: Key): Agg {
    if k in summary then summary[k] else Agg(0, 0, 0, 0)
  }

  /** INSERT ... SELECT ... ON CONFLICT: every selected group is inserted or merged. */
  function Merge(summary: map<Key, Agg>, groups: map<Key, Agg>): map<Key, Agg> {
    map k | k in summary.Keys + groups.Keys ::
      if k !in groups then summary[k] else if k in summary then Combine(summary[k], groups[k]) else groups[k]
  }

  function Rollup(s: State, cutoff: nat): State {
    State(Kept(s.raw, cutoff), Merge(s.summary, GroupBy(Expired(s.raw, cutoff), KeyOf)))
  }

  /** Merging one more group into a partly merged table. */
  lemma MergeOneMore(summary: map<Key, Agg>, groups: map<Key, Agg>, pending: set<Key>, k: Key)
    requires k in pending && pending <= groups.Keys
    ensures Upsert(Merge(summary, groups - pending), k, groups[k]) == Merge(summary, groups - (pending - {k}))
  {
    var before, after := groups - pending, groups - (pending - {k});
    assert after.Keys == before.Keys + {k};
    assert forall x :: x in before ==> before[x] == after[x] == groups[x];
    assert Upsert(Merge(summary, before), k, groups[k]).Keys == Merge(summary, after).Keys;
  }
}
