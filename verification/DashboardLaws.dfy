/** What the Bandwidth views promise: they agree with each other, ignore rollups and range fan-out, and book no savings
    that did not happen. */
module DashboardLaws {
  import Prelude
  import opened Ledger
  import opened LedgerRuns
  import opened Tally
  import opened Dashboard

  // ----- Agreement on one window

  /** The stored subnet is a function of the stored client address, as the recording middleware computes it. */
  ghost predicate SubnetFixedByIp(rows: seq<Row>) {
    forall r, t :: r in rows && t in rows && r.ip == t.ip ==> r.subnet == t.subnet
  }

  lemma WindowMembers(rows: seq<Row>, cutoff: nat)
    ensures forall r :: r in Window(rows, cutoff) <==> r in rows && r.ts >= cutoff && Delivers(r)
  {
    WhereMembers(rows, DeliveredSince(cutoff));
  }

  lemma SubnetGrouping(rows: seq<Row>, cutoff: nat)
    requires SubnetFixedByIp(rows)
    ensures RefinesPath(Window(rows, cutoff), SubnetPath) && ClientFixesPath(Window(rows, cutoff), SubnetPath)
  {
    WindowMembers(rows, cutoff);
    hide Window, Delivers;
  }

  lemma HeadlineColumn(rows: seq<Row>, cutoff: nat, c: Column)
    ensures RowValue(Headline(rows, cutoff), c) == Sum(PathColumn(Window(rows, cutoff), c))
  {
    hide Sum, Window, GroupBy, Value;
    match c
    case Installs =>
    case PeerInstalls =>
    case Naive =>
    case Egress =>
  }

  /** Subnet rows add up to the headline's installs, peer installs and egress. Their baseline can only be too small,
      and is the headline's exactly when every subnet saw each file at full size; then the savings shown per subnet
      are at least the headline's. */
  lemma SubnetsAgree(rows: seq<Row>, cutoff: nat)
    requires SubnetFixedByIp(rows)
    ensures var view, head, w := Subnets(rows, cutoff), Headline(rows, cutoff), Window(rows, cutoff);
      && Sum(ViewColumn(view, Installs)) == head.installs
      && Sum(ViewColumn(view, PeerInstalls)) == head.peerInstalls
      && Sum(ViewColumn(view, Egress)) == head.actual
      && Sum(ViewColumn(view, Naive)) <= head.naive
      && (Sum(ViewColumn(view, Naive)) == head.naive <==> FullSizeInEvery(w, SubnetPath))
      && (ConstantSize(w) ==> Sum(ViewColumn(view, Naive)) == head.naive)
      && (ConstantSize(w) ==> Sum(SavedColumn(view)) >= head.saved)
  {
    var w := Window(rows, cutoff);
    SubnetGrouping(rows, cutoff);
    TwoLevelTotals(w, SubnetPath);
    ViewTotals(rows, cutoff, SubnetPath);
    HeadlineSaved(rows, cutoff);
    if ConstantSize(w) {
      SameSizeIsFull(w, SubnetPath);
    }
    hide *;
  }

  /** Day rows keep the egress; a client seen on several days counts once a day, so their installs, and with constant
      sizes their baseline and savings, are at least the headline's. */
  lemma DaysAgree(rows: seq<Row>, cutoff: nat)
    ensures var view, head, w := Days(rows, cutoff), Headline(rows, cutoff), Window(rows, cutoff);
      && Sum(ViewColumn(view, Installs)) >= head.installs
      && Sum(ViewColumn(view, Egress)) == head.actual
      && (ConstantSize(w) ==> Sum(ViewColumn(view, Naive)) >= head.naive)
      && (ConstantSize(w) ==> Sum(SavedColumn(view)) >= head.saved)
  {
    var w := Window(rows, cutoff);
    assert RefinesPath(w, DayPath);
    TwoLevelTotals(w, DayPath);
    ViewTotals(rows, cutoff, DayPath);
    HeadlineSaved(rows, cutoff);
    if ConstantSize(w) {
      SameSizeIsFull(w, DayPath);
    }
    hide *;
  }

  /** All installer rows together carry the headline's installs, baseline and egress, and show at least its saving. */
  lemma InstallersAgree(rows: seq<Row>, cutoff: nat)
    ensures var view, head := Installers(rows, cutoff), Headline(rows, cutoff);
      && (forall c :: Sum(ViewColumn(view, c)) == RowValue(head, c))
      && Sum(SavedColumn(view)) >= head.saved
  {
    var view := Installers(rows, cutoff);
    forall c
      ensures Sum(ViewColumn(view, c)) == RowValue(Headline(rows, cutoff), c)
    {
      InstallerColumn(rows, cutoff, c);
      HeadlineColumn(rows, cutoff, c);
      hide *;
    }
    HeadlineSaved(rows, cutoff);
    InstallerSaved(rows, cutoff);
    ClampedSavings(view);
    HeadlineRowValues(Headline(rows, cutoff));
    hide *;
  }

  lemma HeadlineRowValues(row: ViewRow)
    ensures RowValue(row, Naive) == row.naive && RowValue(row, Egress) == row.actual
  {}

  lemma InstallerColumn(rows: seq<Row>, cutoff: nat, c: Column)
    ensures ViewColumn(Installers(rows, cutoff), c) == PathColumn(Window(rows, cutoff), c)
  {
    hide Window, GroupBy;
    match c
    case Installs =>
    case PeerInstalls =>
    case Naive =>
    case Egress =>
  }

  /** The totals of a two-level view in terms of its groups. */
  lemma ViewTotals<X>(rows: seq<Row>, cutoff: nat, fine: Row -> (X, string))
    ensures var view, g := PerGroup(rows, cutoff, fine), GroupBy(Window(rows, cutoff), fine);
      && (forall c :: Sum(ViewColumn(view, c)) == Sum(Values(g, c)))
      && Sum(SavedColumn(view)) >= ClampSaved(Sum(Values(g, Naive)), Sum(Values(g, Egress)))
  {
    forall c {
      PerGroupTotal(rows, cutoff, fine, c);
    }
    var view := PerGroup(rows, cutoff, fine);
    assert forall x :: x in view ==> view[x].saved == ClampSaved(view[x].naive, view[x].actual);
    ClampedSavings(view);
    hide *;
  }

  lemma HeadlineSaved(rows: seq<Row>, cutoff: nat)
    ensures var w, head := Window(rows, cutoff), Headline(rows, cutoff);
      && head.installs == Sum(PathColumn(w, Installs)) && head.peerInstalls == Sum(PathColumn(w, PeerInstalls))
      && head.naive == Sum(PathColumn(w, Naive)) && head.actual == Sum(PathColumn(w, Egress))
      && head.saved == ClampSaved(head.naive, head.actual)
      && CountColumn(false) == Installs && CountColumn(true) == PeerInstalls
  {
    hide Sum, Window, GroupBy, Value;
  }

  // ----- No phantom installs or savings

  /** An install is a distinct (client, installer) pair with a delivery in the window, however many rows it took. */
  lemma InstallsArePairs(rows: seq<Row>, cutoff: nat)
    ensures var head, w := Headline(rows, cutoff), Window(rows, cutoff);
      && head.installs == |Pairs(w, PathOf, false)|
      && head.peerInstalls == |Pairs(w, PathOf, true)| <= head.installs
      && head.actual == Sent(w)
  {
    var w := Window(rows, cutoff);
    HeadlineSaved(rows, cutoff);
    GroupsCountPairs(w, PathOf, false);
    GroupsCountPairs(w, PathOf, true);
    GroupsKeepEgress(w, PathOf);
    SubsetSize(Pairs(w, PathOf, true), Pairs(w, PathOf, false));
    hide Sum, GroupBy, Sent, Window, Value;
  }

  lemma {:induction false} SubsetSize<T>(a: set<T>, b: set<T>)
    requires a <= b
    ensures |a| <= |b|
  {
    assert b == a + (b - a);
  }

  lemma InstallerSaved(rows: seq<Row>, cutoff: nat)
    ensures var view, w := Installers(rows, cutoff), Window(rows, cutoff);
      view.Keys == KeysOf(w, PathOf) &&
      forall p :: p in view ==>
        && view[p].saved == ClampSaved(view[p].naive, view[p].actual)
        && view[p].saved == ClampSaved(PathColumn(w, Naive)[p], PathColumn(w, Egress)[p])
  {
    hide Window, Having, Aggregate;
  }

  lemma NothingSaved(row: ViewRow)
    requires row.saved == ClampSaved(row.naive, row.actual) && row.naive <= row.actual
    ensures row.saved == 0 && SavingsRatio(row) == 0.0
  {}

  /** A savings ratio is a proper fraction: something is always served before anything is saved. */
  lemma RatioBelowOne(rows: seq<Row>, cutoff: nat)
    ensures 0.0 <= SavingsRatio(Headline(rows, cutoff)) < 1.0
  {
    var w, head := Window(rows, cutoff), Headline(rows, cutoff);
    InstallsArePairs(rows, cutoff);
    HeadlineSaved(rows, cutoff);
    if w == [] {
      assert PathColumn(w, Naive) == map[];
    } else {
      WindowMembers(rows, cutoff);
      assert w[0] in w;
      SentPositive(w);
    }
    hide *;
    FractionBelowOne(head);
  }

  lemma FractionBelowOne(row: ViewRow)
    requires row.saved == ClampSaved(row.naive, row.actual)
    requires row.naive == 0 || row.actual > 0
    ensures 0.0 <= SavingsRatio(row) < 1.0
  {
    if row.naive > 0 {
      assert row.saved < row.naive;
      Divide(row.saved as real, row.naive as real);
    }
  }

  lemma Divide(a: real, b: real)
    requires 0.0 <= a < b
    ensures 0.0 <= a / b < 1.0
  {}

  lemma SentPositive(rows: seq<Row>)
    requires rows != [] && forall r :: r in rows ==> r.sent > 0
    ensures Sent(rows) > 0
  {
    assert rows[|rows| - 1] in rows;
  }

  // ----- Rollups do not show

  /** `Math.max(1, Math.min(90, Number(days) || fallback))`; None stands for NaN. */
  function WindowDays(requested: Prelude.Option<real>, fallback: real): (days: real)
    requires 1.0 <= fallback <= 90.0
    ensures 1.0 <= days <= 90.0
    ensures requested.None? || requested.value == 0.0 ==> days == fallback
    ensures requested.Some? && requested.value < 1.0 && requested.value != 0.0 ==> days == 1.0
    ensures requested.Some? && 1.0 <= requested.value <= 90.0 ==> days == requested.value
    ensures requested.Some? && requested.value > 90.0 ==> days == 90.0
  {
    var n := if requested.None? || requested.value == 0.0 then fallback else requested.value;
    var capped := if n <= 90.0 then n else 90.0;
    if capped >= 1.0 then capped else 1.0
  }

  /** cutoffIso: the window may be a fraction of a day, the timestamp is whole milliseconds. */
  function QueryCutoff(now: nat, days: real): nat
    requires 0.0 <= days
  {
    var at := now as real - days * 86_400_000.0;
    if at >= 0.0 then at.Floor else 0
  }

  /** A dashboard window never reaches behind a rollup that ran before the query. */
  lemma WindowAfterRollup(rolledAt: nat, now: nat, days: real)
    requires rolledAt <= now && 0.0 <= days <= 90.0
    ensures CutoffMs(rolledAt, DEFAULT_RETENTION_DAYS) <= QueryCutoff(now, days)
  {
    assert days * 86_400_000.0 <= 90.0 * 86_400_000.0;
  }

  /** The rows a window reads are those it would read had no rollup ever run. */
  lemma {:induction false} RollupsInvisible(events: seq<Event>, cutoff: nat)
    requires forall c :: c in Cutoffs(events) ==> c <= cutoff
    ensures Window(Run(events).raw, cutoff) == Window(History(events), cutoff)
  {
    if events == [] {
    } else {
      var init, last := events[..|events| - 1], events[|events| - 1];
      assert forall c :: c in Cutoffs(init) ==> c in Cutoffs(events);
      RollupsInvisible(init, cutoff);
      match last
      case Record(row) =>
        WhereSnoc(Run(init).raw, row, DeliveredSince(cutoff));
        WhereSnoc(History(init), row, DeliveredSince(cutoff));
      case RollupAt(c) =>
        assert c in Cutoffs(events);
        WhereWhere(Run(init).raw, Since(c), DeliveredSince(cutoff), DeliveredSince(cutoff));
    }
  }

  /** After any run of requests and 90-day rollups, every view equals the view of the full history, whatever number of
      days is requested. */
  lemma ViewsOfHistory(events: seq<Event>, rolledAt: seq<nat>, now: nat, requested: Prelude.Option<real>,
                       fallback: real)
    requires |rolledAt| == |Cutoffs(events)| && 1.0 <= fallback <= 90.0
    requires forall i :: 0 <= i < |rolledAt| ==>
      rolledAt[i] <= now && Cutoffs(events)[i] == CutoffMs(rolledAt[i], DEFAULT_RETENTION_DAYS)
    ensures var raw, all, cutoff := Run(events).raw, History(events), QueryCutoff(now, WindowDays(requested, fallback));
      && Headline(raw, cutoff) == Headline(all, cutoff)
      && Subnets(raw, cutoff) == Subnets(all, cutoff)
      && Days(raw, cutoff) == Days(all, cutoff)
      && Installers(raw, cutoff) == Installers(all, cutoff)
  {
    var days := WindowDays(requested, fallback);
    var cutoff := QueryCutoff(now, days);
    forall c | c in Cutoffs(events)
      ensures c <= cutoff
    {
      var i :| 0 <= i < |rolledAt| && Cutoffs(events)[i] == c;
      WindowAfterRollup(rolledAt[i], now, days);
    }
    RollupsInvisible(events, cutoff);
    hide Run, History, Cutoffs, QueryCutoff, Window, GroupBy, Sum;
  }

  // ----- Range fan-out does not show

  /** `chunks` deliver what `r` delivered, in pieces: same client, file, UTC day and peerdist flag, same bytes in all,
      and on the same side of the cutoff. */
  ghost predicate SplitsInto(r: Row, chunks: seq<Row>, cutoff: nat) {
    && Delivers(r) && chunks != [] && Sent(chunks) == r.sent
    && forall c :: c in chunks ==> SamePull(r, c, cutoff)
  }

  predicate SamePull(r: Row, c: Row, cutoff: nat) {
    && Delivers(c) && c.ip == r.ip && c.subnet == r.subnet && c.path == r.path && c.size == r.size
    && c.peerdist == r.peerdist && DayOf(c.ts) == DayOf(r.ts) && (c.ts >= cutoff <==> r.ts >= cutoff)
  }

  lemma {:induction false} WhereConcat(a: seq<Row>, b: seq<Row>, p: Row -> bool)
    ensures Where(a + b, p) == Where(a, p) + Where(b, p)
  {
    if b == [] {
      assert a + b == a;
    } else {
      var init, last := b[..|b| - 1], b[|b| - 1];
      assert a + b == (a + init) + [last] && b == init + [last];
      WhereConcat(a, init, p);
      WhereSnoc(a + init, last, p);
      WhereSnoc(init, last, p);
    }
  }

  lemma {:induction false} WhereUniform(rows: seq<Row>, p: Row -> bool, all: bool)
    requires forall r :: r in rows ==> p(r) == all
    ensures Where(rows, p) == if all then rows else []
  {
    if rows == [] {
    } else {
      var init, last := rows[..|rows| - 1], rows[|rows| - 1];
      assert rows == init + [last] && last in rows;
      WhereUniform(init, p, all);
    }
  }

  lemma {:induction false} AggregateConcat(a: seq<Row>, b: seq<Row>)
    ensures Sent(a + b) == Sent(a) + Sent(b)
    ensures MaxSize(a + b) == Max(MaxSize(a), MaxSize(b))
    ensures forall peer :: Clients(a + b, peer) == Clients(a, peer) + Clients(b, peer)
  {
    if b == [] {
      assert a + b == a;
    } else {
      var init, last := b[..|b| - 1], b[|b| - 1];
      assert a + b == (a + init) + [last] && b == init + [last];
      AggregateConcat(a, init);
      Snoc(a + init, last);
      Snoc(init, last);
      assert forall r :: r in a + b <==> r in a || r in b;
    }
  }

  /** Inside any table, the pieces aggregate like the whole. */
  lemma ReplaceAggregate(a: seq<Row>, r: Row, chunks: seq<Row>, b: seq<Row>, cutoff: nat)
    requires SplitsInto(r, chunks, cutoff)
    ensures Aggregate(a + chunks + b) == Aggregate(a + [r] + b)
  {
    AggregateConcat(a, chunks);
    AggregateConcat(a + chunks, b);
    AggregateConcat(a, [r]);
    AggregateConcat(a + [r], b);
    PiecesAggregate(r, chunks, cutoff);
    hide Sent, MaxSize, Clients, SplitsInto;
  }

  lemma PiecesAggregate(r: Row, chunks: seq<Row>, cutoff: nat)
    requires SplitsInto(r, chunks, cutoff)
    ensures Sent([r]) == Sent(chunks) && MaxSize([r]) == MaxSize(chunks)
    ensures forall peer :: Clients([r], peer) == Clients(chunks, peer)
  {
    Snoc([], r);
    assert [] + [r] == [r];
    assert chunks[0] in chunks && SamePull(r, chunks[0], cutoff);
    UniformSize(chunks, chunks[0]);
    assert forall c :: c in chunks ==> c.ip == r.ip && c.peerdist == r.peerdist;
    hide Sent, MaxSize;
    forall peer
      ensures Clients([r], peer) == Clients(chunks, peer)
    {
      assert r in [r];
    }
  }

  /** Splitting a delivery leaves every grouping of a window as it was. */
  lemma FanOutGroups<K>(a: seq<Row>, r: Row, chunks: seq<Row>, b: seq<Row>, cutoff: nat, key: Row -> K)
    requires SplitsInto(r, chunks, cutoff) && forall c :: SamePull(r, c, cutoff) ==> key(c) == key(r)
    ensures GroupBy(Window(a + chunks + b, cutoff), key) == GroupBy(Window(a + [r] + b, cutoff), key)
  {
    var p := DeliveredSince(cutoff);
    WhereConcat(a, chunks, p);
    WhereConcat(a + chunks, b, p);
    WhereConcat(a, [r], p);
    WhereConcat(a + [r], b, p);
    WhereUniform([r], p, p(r));
    WhereUniform(chunks, p, p(r));
    if p(r) {
      SplitGroups(Window(a, cutoff), r, chunks, Window(b, cutoff), cutoff, key);
    }
    hide Where, GroupBy, Sent, SplitsInto;
  }

  lemma SplitGroups<K>(a: seq<Row>, r: Row, chunks: seq<Row>, b: seq<Row>, cutoff: nat, key: Row -> K)
    requires SplitsInto(r, chunks, cutoff) && forall c :: SamePull(r, c, cutoff) ==> key(c) == key(r)
    ensures GroupBy(a + chunks + b, key) == GroupBy(a + [r] + b, key)
  {
    SplitKeys(a, r, chunks, b, cutoff, key);
    hide KeysOf, Aggregate;
    forall k | k in KeysOf(a + [r] + b, key)
      ensures Aggregate(Having(a + chunks + b, key, k)) == Aggregate(Having(a + [r] + b, key, k))
    {
      SplitGroup(a, r, chunks, b, cutoff, key, k);
    }
  }

  lemma SplitKeys<K>(a: seq<Row>, r: Row, chunks: seq<Row>, b: seq<Row>, cutoff: nat, key: Row -> K)
    requires SplitsInto(r, chunks, cutoff) && forall c :: SamePull(r, c, cutoff) ==> key(c) == key(r)
    ensures KeysOf(a + chunks + b, key) == KeysOf(a + [r] + b, key)
  {
    hide Sent;
    assert chunks[0] in chunks;
    assert forall c :: c in a + chunks + b <==> c in a || c in chunks || c in b;
    assert forall c :: c in a + [r] + b <==> c in a || c == r || c in b;
    assert chunks[0] in a + chunks + b && r in a + [r] + b;
    assert forall c :: c in chunks ==> key(c) == key(r);
  }

  lemma SplitGroup<K>(a: seq<Row>, r: Row, chunks: seq<Row>, b: seq<Row>, cutoff: nat, key: Row -> K, k: K)
    requires SplitsInto(r, chunks, cutoff) && forall c :: SamePull(r, c, cutoff) ==> key(c) == key(r)
    ensures Aggregate(Having(a + chunks + b, key, k)) == Aggregate(Having(a + [r] + b, key, k))
  {
    var q := InGroup(key, k);
    WhereConcat(a, chunks, q);
    WhereConcat(a + chunks, b, q);
    WhereConcat(a, [r], q);
    WhereConcat(a + [r], b, q);
    WhereUniform([r], q, q(r));
    assert forall c :: c in chunks ==> q(c) == q(r);
    WhereUniform(chunks, q, q(r));
    ReplaceAggregate(Where(a, q), r, chunks, Where(b, q), cutoff);
    hide Where, Sent, Aggregate, SplitsInto;
  }

  // The order of the rows does not show either.

  lemma {:induction false} SameTotals(a: seq<Row>, b: seq<Row>)
    requires multiset(a) == multiset(b)
    ensures Sent(a) == Sent(b) && MaxSize(a) == MaxSize(b)
    decreases |a|
  {
    if a == [] {
      assert |multiset(b)| == 0;
    } else {
      var init, x := a[..|a| - 1], a[|a| - 1];
      assert a == init + [x] && x in multiset(b);
      var i :| 0 <= i < |b| && b[i] == x;
      Snoc(init, x);
      WithoutOne(init, x, b, i);
      hide Sent, MaxSize;
      SameTotals(init, b[..i] + b[i + 1..]);
    }
  }

  /** Taking one row out of the middle of a table. */
  lemma WithoutOne(init: seq<Row>, x: Row, b: seq<Row>, i: nat)
    requires i < |b| && b[i] == x && multiset(init + [x]) == multiset(b)
    ensures var rest := b[..i] + b[i + 1..];
      && multiset(init) == multiset(rest)
      && Sent(b) == Sent(rest) + x.sent && MaxSize(b) == Max(MaxSize(rest), x.size)
  {
    assert b == b[..i] + [x] + b[i + 1..];
    Cancel(multiset(init), multiset(b[..i] + b[i + 1..]), multiset{x});
    AggregateConcat(b[..i] + [x], b[i + 1..]);
    AggregateConcat(b[..i], b[i + 1..]);
    Snoc(b[..i], x);
    hide Sent, MaxSize;
  }

  lemma Cancel<T>(a: multiset<T>, b: multiset<T>, c: multiset<T>)
    ensures a + c == b + c ==> a == b
  {
    if a + c == b + c {
      forall x
        ensures a[x] == b[x]
      {
        assert (a + c)[x] == (b + c)[x];
      }
    }
  }

  lemma WhereReordered(a: seq<Row>, b: seq<Row>, p: Row -> bool)
    requires multiset(a) == multiset(b)
    ensures multiset(Where(a, p)) == multiset(Where(b, p))
  {
    forall r
      ensures multiset(Where(a, p))[r] == multiset(Where(b, p))[r]
    {
      WhereCounts(a, p, r);
      WhereCounts(b, p, r);
    }
    hide Where;
  }

  lemma SameRows(a: seq<Row>, b: seq<Row>)
    requires multiset(a) == multiset(b)
    ensures forall r :: r in a <==> r in b
  {
    assert forall r :: r in a <==> r in multiset(a);
    assert forall r :: r in b <==> r in multiset(b);
  }

  lemma SameAggregate(a: seq<Row>, b: seq<Row>)
    requires multiset(a) == multiset(b)
    ensures Aggregate(a) == Aggregate(b)
  {
    SameTotals(a, b);
    SameRows(a, b);
    assert Clients(a, false) == Clients(b, false) && Clients(a, true) == Clients(b, true);
    hide Sent, MaxSize;
  }

  /** No grouping of a window depends on the order of the table. */
  lemma ReorderedGroups<K>(a: seq<Row>, b: seq<Row>, cutoff: nat, key: Row -> K)
    requires multiset(a) == multiset(b)
    ensures GroupBy(Window(a, cutoff), key) == GroupBy(Window(b, cutoff), key)
  {
    WhereReordered(a, b, DeliveredSince(cutoff));
    var v, w := Window(a, cutoff), Window(b, cutoff);
    SameRows(v, w);
    assert KeysOf(v, key) == KeysOf(w, key);
    hide Window, Where, Aggregate, KeysOf;
    forall k | k in KeysOf(v, key)
      ensures Aggregate(Having(v, key, k)) == Aggregate(Having(w, key, k))
    {
      WhereReordered(v, w, InGroup(key, k));
      SameAggregate(Having(v, key, k), Having(w, key, k));
    }
  }

  lemma InterleavedGroups<K>(rest: seq<Row>, r: Row, chunks: seq<Row>, whole: seq<Row>, split: seq<Row>, cutoff: nat,
                             key: Row -> K)
    requires SplitsInto(r, chunks, cutoff) && forall c :: SamePull(r, c, cutoff) ==> key(c) == key(r)
    requires multiset(whole) == multiset(rest + [r]) && multiset(split) == multiset(rest + chunks)
    ensures GroupBy(Window(split, cutoff), key) == GroupBy(Window(whole, cutoff), key)
  {
    FanOutGroups(rest, r, chunks, [], cutoff, key);
    assert rest + chunks + [] == rest + chunks && rest + [r] + [] == rest + [r];
    ReorderedGroups(split, rest + chunks, cutoff, key);
    ReorderedGroups(whole, rest + [r], cutoff, key);
    hide Window, GroupBy, SplitsInto, SamePull;
  }

  /** However many range requests one download is recorded as, and however they are spread over its day and interleave
      with other requests, all four views are the same. */
  lemma FanOutInvisible(rest: seq<Row>, r: Row, chunks: seq<Row>, whole: seq<Row>, split: seq<Row>, cutoff: nat)
    requires SplitsInto(r, chunks, cutoff)
    requires multiset(whole) == multiset(rest + [r]) && multiset(split) == multiset(rest + chunks)
    ensures Headline(split, cutoff) == Headline(whole, cutoff)
    ensures Subnets(split, cutoff) == Subnets(whole, cutoff)
    ensures Days(split, cutoff) == Days(whole, cutoff)
    ensures Installers(split, cutoff) == Installers(whole, cutoff)
  {
    InterleavedGroups(rest, r, chunks, whole, split, cutoff, PathOf);
    InterleavedGroups(rest, r, chunks, whole, split, cutoff, SubnetPath);
    InterleavedGroups(rest, r, chunks, whole, split, cutoff, DayPath);
    hide Window, GroupBy, Sum, SplitsInto;
  }
}
