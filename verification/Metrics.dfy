/** The database object of metrics.js, and what one rollup does to it in terms of the ages of its rows. */
module Metrics {
  import opened Ledger
  import opened LedgerRuns

  /** The deliveries of a key that are older than `days` days. */
  function Due(rows: seq<Row>, k: Key, now: nat, days: nat): seq<Row> {
    Where(rows, OverdueFor(k, now, days))
  }

  function OverdueFor(k: Key, now: nat, days: nat): Row -> bool {
    (r: Row) =>
      && (r.status == 200 || r.status == 206) && r.size > 0 && r.sent > 0
      && r.ts / 86_400_000 == k.day && r.subnet == k.subnet && r.path == k.path
      && r.ts + days * 86_400_000 < now
  }

  /** The raw rows that stay are exactly those at most `days` days old, and every key has gained what its older
      deliveries amount to. */
  ghost predicate RolledUp(before: State, after: State, now: nat, days: nat) {
    && (forall r :: r in after.raw <==> r in before.raw && r.ts + days * 86_400_000 >= now)
    && (forall r :: r in after.raw ==> multiset(after.raw)[r] == multiset(before.raw)[r])
    && forall k :: Gains(Stored(before.summary, k), Stored(after.summary, k), Due(before.raw, k, now, days))
  }

  /** The stored columns have gained these deliveries. */
  ghost predicate Gains(before: Agg, after: Agg, due: seq<Row>) {
    && after.sent == before.sent + Sent(due) && after.fileSize == Max(before.fileSize, MaxSize(due))
    && after.installs == before.installs + |Clients(due, false)|
    && after.peerInstalls == before.peerInstalls + |Clients(due, true)|
  }

  lemma DueIsBatch(rows: seq<Row>, k: Key, now: nat, days: nat)
    ensures Due(rows, k, now, days) == Batch(rows, CutoffMs(now, days), k)
  {
    forall r: Row
      ensures OverdueFor(k, now, days)(r) <==> DeliveredBefore(CutoffMs(now, days))(r) && KeyOf(r) == k
    {
      assert KeyOf(r) == k <==> r.ts / 86_400_000 == k.day && r.subnet == k.subnet && r.path == k.path;
    }
    WhereWhere(rows, DeliveredBefore(CutoffMs(now, days)), InGroup(KeyOf, k), OverdueFor(k, now, days));
  }

  lemma RollupIsDue(s: State, now: nat, days: nat)
    ensures RolledUp(s, Rollup(s, CutoffMs(now, days)), now, days)
  {
    var after := Rollup(s, CutoffMs(now, days));
    YoungRowsStay(s, now, days);
    forall k {
      KeyGains(s, now, days, k);
    }
    hide Rollup, Stored, Due, Gains, CutoffMs;
  }

  lemma YoungRowsStay(s: State, now: nat, days: nat)
    ensures var after := Rollup(s, CutoffMs(now, days));
      && (forall r :: r in after.raw <==> r in s.raw && r.ts + days * 86_400_000 >= now)
      && (forall r :: r in after.raw ==> multiset(after.raw)[r] == multiset(s.raw)[r])
  {
    var cutoff := CutoffMs(now, days);
    WhereMembers(s.raw, Since(cutoff));
    forall r | r in Kept(s.raw, cutoff)
      ensures multiset(Kept(s.raw, cutoff))[r] == multiset(s.raw)[r]
    {
      WhereCounts(s.raw, Since(cutoff), r);
    }
    hide Where, Merge, GroupBy, Expired;
  }

  lemma KeyGains(s: State, now: nat, days: nat, k: Key)
    ensures Gains(Stored(s.summary, k), Stored(Rollup(s, CutoffMs(now, days)).summary, k), Due(s.raw, k, now, days))
  {
    RollupStored(s, CutoffMs(now, days), k);
    DueIsBatch(s.raw, k, now, days);
    hide Rollup, Stored, Batch, Due, Sent, MaxSize, Clients, CutoffMs;
  }

  /** The database object: dbInstance with its two tables. */
  class MetricsDb {
    var raw: seq<Row>
    var summary: map<Key, Agg>

    ghost function Contents(): State
      reads this
    {
      State(raw, summary)
    }

    constructor ()
      ensures Contents() == State([], map[])
    {
      raw, summary := [], map[];
    }

    method RecordInstallerRequest(row: Row)
      modifies this
      ensures Contents() == State(old(raw) + [row], old(summary))
    {
      raw := raw + [row];
    }

    /** The upsert runs group by group, in whatever order the engine visits the groups. */
    method RollupAndPrune(now: nat, retentionDays: nat) returns (pruned: nat)
      modifies this
      ensures Contents() == Rollup(old(Contents()), CutoffMs(now, retentionDays))
      ensures RolledUp(old(Contents()), Contents(), now, retentionDays)
      ensures pruned == |old(raw)| - |raw|
    {
      hide RolledUp;
      var cutoff := CutoffMs(now, retentionDays);
      var groups := GroupBy(Expired(raw, cutoff), KeyOf);
      var pending := groups.Keys;
      assert groups - pending == map[];
      while pending != {}
        invariant pending <= groups.Keys && raw == old(raw)
        invariant summary == Merge(old(summary), groups - pending)
        decreases pending
      {
        var k :| k in pending;
        MergeOneMore(old(summary), groups, pending, k);
        summary, pending := Upsert(summary, k, groups[k]), pending - {k};
      }
      assert groups - pending == groups;
      var kept := Kept(raw, cutoff);
      WhereMembers(raw, Since(cutoff));
      pruned, raw := |raw| - |kept|, kept;
      RollupIsDue(old(Contents()), now, retentionDays);
    }
  }
}
