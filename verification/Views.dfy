/** What each row of the four Bandwidth views shows, in terms of the recorded requests alone. */
module Views {
  import opened Ledger
  import opened LedgerRuns
  import opened Tally
  import opened Dashboard
  import opened DashboardLaws

  // ----- The deliveries of a window

  /** A successful content response, whole or partial, that moved bytes, at most `days` days (and the fraction of a
      millisecond that the timestamp drops) before `now`. */
  function CountedIn(now: nat, days: real): Row -> bool {
    (r: Row) =>
      && (r.status == 200 || r.status == 206) && r.size > 0 && r.sent > 0
      && now as real - r.ts as real < days * 86_400_000.0 + 1.0
  }

  function DeliveredIn(rows: seq<Row>, now: nat, days: real): seq<Row> {
    Where(rows, CountedIn(now, days))
  }

  lemma WindowIs(rows: seq<Row>, now: nat, days: real)
    requires 0.0 <= days
    ensures Window(rows, QueryCutoff(now, days)) == DeliveredIn(rows, now, days)
  {
    forall r: Row
      ensures DeliveredSince(QueryCutoff(now, days))(r) <==> CountedIn(now, days)(r)
    {
      YoungEnough(r.ts, now, days);
      hide QueryCutoff;
    }
    WhereSame(rows, DeliveredSince(QueryCutoff(now, days)), CountedIn(now, days));
  }

  lemma YoungEnough(ts: nat, now: nat, days: real)
    requires 0.0 <= days
    ensures ts >= QueryCutoff(now, days) <==> now as real - ts as real < days * 86_400_000.0 + 1.0
  {}

  lemma {:induction false} WhereSame(rows: seq<Row>, p: Row -> bool, q: Row -> bool)
    requires forall r :: r in rows ==> p(r) == q(r)
    ensures Where(rows, p) == Where(rows, q)
  {
    if rows == [] {
    } else {
      var init, last := rows[..|rows| - 1], rows[|rows| - 1];
      assert rows == init + [last] && last in rows;
      WhereSame(init, p, q);
    }
  }

  // ----- A row of a view

  function SubnetOf(r: Row): string { r.subnet }

  function DateOf(r: Row): nat { r.ts / 86_400_000 }

  function InstallerOf(r: Row): string { r.path }

  /** The baseline of each installer: its largest reported size for each of its clients. */
  ghost function Baseline(some: seq<Row>): map<string, nat> {
    map p | p in set r | r in some :: r.path ::
      MaxSize(Having(some, InstallerOf, p)) * |set r | r in some && r.path == p :: r.ip|
  }

  /** The row shows these deliveries: an install is a distinct pair of installer and client, the baseline is one full
      pull for each install, and what was sent is taken from it. */
  ghost predicate Shows(row: ViewRow, some: seq<Row>) {
    && row.installs == |set r | r in some :: (r.path, r.ip)|
    && row.peerInstalls == |set r | r in some && r.peerdist :: (r.path, r.ip)|
    && row.actual == Sent(some) && row.naive == Sum(Baseline(some))
    && row.saved == if row.naive >= row.actual then row.naive - row.actual else 0
  }

  lemma PairsWritten(some: seq<Row>)
    ensures Pairs(some, PathOf, false) == set r | r in some :: (r.path, r.ip)
    ensures Pairs(some, PathOf, true) == set r | r in some && r.peerdist :: (r.path, r.ip)
  {}

  lemma BaselineIs(some: seq<Row>)
    ensures PathColumn(some, Naive) == Baseline(some)
  {
    assert KeysOf(some, PathOf) == set r | r in some :: r.path;
    forall p | p in KeysOf(some, PathOf)
      ensures PathColumn(some, Naive)[p] == Baseline(some)[p]
    {
      BaselineAt(some, p);
    }
    hide KeysOf, Having, MaxSize;
  }

  lemma BaselineAt(some: seq<Row>, p: string)
    requires p in KeysOf(some, PathOf)
    ensures p in Baseline(some) && PathColumn(some, Naive)[p] == Baseline(some)[p]
  {
    WhereMembers(some, InGroup(PathOf, p));
    forall r: Row
      ensures InGroup(PathOf, p)(r) == InGroup(InstallerOf, p)(r)
    {
      assert PathOf(r) == r.path == InstallerOf(r);
    }
    WhereSame(some, InGroup(PathOf, p), InGroup(InstallerOf, p));
    AggregateValues(Having(some, PathOf, p));
    assert Clients(Having(some, PathOf, p), false) == set r | r in some && r.path == p :: r.ip;
    hide Having, MaxSize, Value, Aggregate, Clients;
  }

  /** The headline shows all deliveries of its window. */
  lemma HeadlineShows(rows: seq<Row>, cutoff: nat)
    ensures Shows(Headline(rows, cutoff), Window(rows, cutoff))
  {
    var w := Window(rows, cutoff);
    InstallsArePairs(rows, cutoff);
    HeadlineSaved(rows, cutoff);
    PairsWritten(w);
    BaselineIs(w);
    hide Headline, Window, Pairs, Sum, Sent, Baseline, PathColumn;
  }

  /** A successful content response, whole or partial, that moved bytes, at or after the cutoff. */
  predicate Counts(r: Row, cutoff: nat) {
    r.ts >= cutoff && (r.status == 200 || r.status == 206) && r.size > 0 && r.sent > 0
  }

  /** An install is a distinct pair of installer and client that such a response names, however many rows it took; the
      egress is what exactly those rows sent. */
  lemma InstallsAreDistinctPairs(rows: seq<Row>, cutoff: nat)
    ensures var head := Headline(rows, cutoff);
      && head.installs == |set r | r in rows && Counts(r, cutoff) :: (r.path, r.ip)|
      && head.peerInstalls == |set r | r in rows && Counts(r, cutoff) && r.peerdist :: (r.path, r.ip)|
      && head.peerInstalls <= head.installs && head.actual == Sent(Where(rows, (r: Row) => Counts(r, cutoff)))
  {
    hide *;
    HeadlineShows(rows, cutoff);
    InstallsArePairs(rows, cutoff);
    CountedRows(rows, cutoff);
    ShownParts(Headline(rows, cutoff), Window(rows, cutoff));
  }

  lemma ShownParts(row: ViewRow, some: seq<Row>)
    requires Shows(row, some)
    ensures row.installs == |set r | r in some :: (r.path, r.ip)|
    ensures row.peerInstalls == |set r | r in some && r.peerdist :: (r.path, r.ip)|
    ensures row.actual == Sent(some)
  {
    hide Sent, Sum, Baseline;
  }

  lemma CountedRows(rows: seq<Row>, cutoff: nat)
    ensures var w := Window(rows, cutoff);
      && (set r | r in w :: (r.path, r.ip)) == (set r | r in rows && Counts(r, cutoff) :: (r.path, r.ip))
      && (set r | r in w && r.peerdist :: (r.path, r.ip))
         == (set r | r in rows && Counts(r, cutoff) && r.peerdist :: (r.path, r.ip))
      && w == Where(rows, (r: Row) => Counts(r, cutoff))
  {
    var w := Window(rows, cutoff);
    WindowMembers(rows, cutoff);
    assert forall r :: r in w <==> r in rows && Counts(r, cutoff);
    WhereSame(rows, DeliveredSince(cutoff), (r: Row) => Counts(r, cutoff));
    hide Where, Counts, Window;
  }

  // ----- The two-level views

  /** One row of a view whose inner grouping pairs `outer` with the installer. */
  ghost predicate Outer<X>(w: seq<Row>, fine: Row -> (X, string), outer: Row -> X) {
    forall r :: r in w ==> fine(r) == (outer(r), r.path)
  }

  lemma OuterProjects<X>(w: seq<Row>, fine: Row -> (X, string), outer: Row -> X)
    requires Outer(w, fine, outer)
    ensures Projects(w, fine, First, outer) && Projects(w, fine, Second, PathOf)
  {}

  /** Re-keying a column of one row's groups by installer changes nothing, as its groups differ in nothing else. */
  lemma SliceColumn<X>(w: seq<Row>, fine: Row -> (X, string), outer: Row -> X, x: X, c: Column)
    requires Outer(w, fine, outer)
    ensures Sum(Fiber(Values(GroupBy(w, fine), c), First, x)) == Sum(PathColumn(Having(w, outer, x), c))
  {
    var some := Having(w, outer, x);
    OuterProjects(w, fine, outer);
    FiberOf(w, fine, First, outer, x, c);
    SliceOuter(w, fine, outer, x);
    hide *;
    SumRegroup(Values(GroupBy(some, fine), c), Second);
    OneFineGroup(some, fine, x, c);
  }

  /** All rows of the slice have the same first component. */
  ghost predicate SameFirst<X>(some: seq<Row>, fine: Row -> (X, string), x: X) {
    forall r :: r in some ==> fine(r) == (x, r.path)
  }

  lemma SliceOuter<X>(w: seq<Row>, fine: Row -> (X, string), outer: Row -> X, x: X)
    requires Outer(w, fine, outer)
    ensures SameFirst(Having(w, outer, x), fine, x)
  {
    WhereMembers(w, InGroup(outer, x));
  }

  lemma OneFineGroup<X>(some: seq<Row>, fine: Row -> (X, string), x: X, c: Column)
    requires SameFirst(some, fine, x)
    ensures Regroup(Values(GroupBy(some, fine), c), Second) == PathColumn(some, c)
  {
    var values := Values(GroupBy(some, fine), c);
    var fineSums := Regroup(values, Second);
    forall p | p in fineSums.Keys + PathColumn(some, c).Keys
      ensures SameAt(fineSums, PathColumn(some, c), p)
    {
      OneFineGroupAt(some, fine, x, c, p);
    }
    hide *;
    SameMap(fineSums, PathColumn(some, c));
  }

  lemma OneFineGroupAt<X>(some: seq<Row>, fine: Row -> (X, string), x: X, c: Column, p: string)
    requires SameFirst(some, fine, x)
    ensures SameAt(Regroup(Values(GroupBy(some, fine), c), Second), PathColumn(some, c), p)
  {
    var values := Values(GroupBy(some, fine), c);
    FineKeys(some, fine, x, p);
    ColumnAt(some, PathOf, c, p);
    ColumnAt(some, fine, c, (x, p));
    RegroupAt(values, Second, p);
    hide Sum, Having, Aggregate, Value, GroupBy, Values, KeysOf, Regroup, SameFirst, Fiber;
    if p in KeysOf(some, PathOf) {
      OnlyFiber(some, fine, x, c, p);
      SumOfOne(Fiber(values, Second, p), (x, p));
      FiberAt(values, Second, p, (x, p));
    } else {
      NoFiber(some, fine, x, c, p);
    }
  }

  lemma FineKeys<X>(some: seq<Row>, fine: Row -> (X, string), x: X, p: string)
    requires SameFirst(some, fine, x)
    ensures p in KeysOf(some, PathOf) <==> (x, p) in KeysOf(some, fine)
    ensures forall k :: k in KeysOf(some, fine) ==> k.0 == x
    ensures Having(some, fine, (x, p)) == Having(some, PathOf, p)
  {
    forall r | r in some
      ensures InGroup(fine, (x, p))(r) == InGroup(PathOf, p)(r)
    {
      assert fine(r) == (x, r.path) && fine(r).1 == PathOf(r);
    }
    WhereAlike(some, InGroup(fine, (x, p)), InGroup(PathOf, p));
    if p in KeysOf(some, PathOf) {
      var r :| r in some && PathOf(r) == p;
      assert fine(r) == (x, p);
    }
  }

  lemma WhereAlike(rows: seq<Row>, p: Row -> bool, q: Row -> bool)
    requires forall r :: r in rows ==> p(r) == q(r)
    ensures Where(rows, p) == Where(rows, q)
  {
    WhereSame(rows, p, q);
  }

  lemma RegroupAt<K, G>(m: map<K, nat>, key: K -> G, g: G)
    ensures g in Regroup(m, key) <==> exists k :: k in m && key(k) == g
    ensures g in Regroup(m, key) ==> Regroup(m, key)[g] == Sum(Fiber(m, key, g))
  {
    hide Sum, Fiber;
  }

  lemma OnlyFiber<X>(some: seq<Row>, fine: Row -> (X, string), x: X, c: Column, p: string)
    requires SameFirst(some, fine, x) && p in KeysOf(some, PathOf)
    ensures Fiber(Values(GroupBy(some, fine), c), Second, p).Keys == {(x, p)}
    ensures (x, p) in Values(GroupBy(some, fine), c) && Second((x, p)) == p
  {
    var values := Values(GroupBy(some, fine), c);
    FineKeys(some, fine, x, p);
    forall k: (X, string)
      ensures k in Fiber(values, Second, p).Keys <==> k == (x, p)
    {
      FiberAt(values, Second, p, k);
      ColumnAt(some, fine, c, k);
    }
    ColumnAt(some, fine, c, (x, p));
    hide Having, Value, Aggregate, GroupBy, Values, Fiber, KeysOf, SameFirst;
  }

  lemma NoFiber<X>(some: seq<Row>, fine: Row -> (X, string), x: X, c: Column, p: string)
    requires SameFirst(some, fine, x) && p !in KeysOf(some, PathOf)
    ensures forall k :: k in Values(GroupBy(some, fine), c) ==> Second(k) != p
  {
    FineKeys(some, fine, x, p);
    forall k | k in Values(GroupBy(some, fine), c)
      ensures Second(k) != p
    {
      ColumnAt(some, fine, c, k);
    }
    hide Having, Value, Aggregate, GroupBy, Values, KeysOf, SameFirst;
  }

  lemma SumOfOne<K>(m: map<K, nat>, k: K)
    requires m.Keys == {k}
    ensures Sum(m) == m[k]
  {
    SumRemove(m, k);
    assert m - {k} == map[];
  }

  /** A row of a two-level view is the headline of its own deliveries. */
  lemma SliceShows<X>(rows: seq<Row>, cutoff: nat, fine: Row -> (X, string), outer: Row -> X, x: X)
    requires Outer(Window(rows, cutoff), fine, outer)
    ensures x in PerGroup(rows, cutoff, fine) <==> exists r :: r in Window(rows, cutoff) && outer(r) == x
    ensures x in PerGroup(rows, cutoff, fine) ==>
      Shows(PerGroup(rows, cutoff, fine)[x], Having(Window(rows, cutoff), outer, x))
  {
    var w := Window(rows, cutoff);
    SliceKeys(rows, cutoff, fine, outer, x);
    if x in PerGroup(rows, cutoff, fine) {
      hide *;
      SliceColumn(w, fine, outer, x, Installs);
      SliceColumn(w, fine, outer, x, PeerInstalls);
      SliceColumn(w, fine, outer, x, Naive);
      SliceColumn(w, fine, outer, x, Egress);
      RowOfSlice(rows, cutoff, fine, x);
      ColumnsShow(Having(w, outer, x), PerGroup(rows, cutoff, fine)[x]);
    }
  }

  lemma SliceKeys<X>(rows: seq<Row>, cutoff: nat, fine: Row -> (X, string), outer: Row -> X, x: X)
    requires Outer(Window(rows, cutoff), fine, outer)
    ensures x in PerGroup(rows, cutoff, fine) <==> exists r :: r in Window(rows, cutoff) && outer(r) == x
  {
    hide Window, GroupRow, Aggregate, Having;
    var w := Window(rows, cutoff);
    if x in PerGroup(rows, cutoff, fine) {
      var k :| k in GroupBy(w, fine) && First(k) == x;
      var r :| r in w && fine(r) == k;
      assert outer(r) == x;
    }
    if exists r :: r in w && outer(r) == x {
      var r :| r in w && outer(r) == x;
      assert fine(r) in GroupBy(w, fine) && First(fine(r)) == x;
    }
  }

  lemma RowOfSlice<X>(rows: seq<Row>, cutoff: nat, fine: Row -> (X, string), x: X)
    requires x in PerGroup(rows, cutoff, fine)
    ensures var g, row := GroupBy(Window(rows, cutoff), fine), PerGroup(rows, cutoff, fine)[x];
      && row.installs == Sum(Fiber(Values(g, Installs), First, x))
      && row.peerInstalls == Sum(Fiber(Values(g, PeerInstalls), First, x))
      && row.naive == Sum(Fiber(Values(g, Naive), First, x)) && row.actual == Sum(Fiber(Values(g, Egress), First, x))
      && row.saved == ClampSaved(row.naive, row.actual)
  {
    hide Window, GroupBy, Sum, Fiber, Values;
  }

  /** The four columns of a grouping by installer, added up. */
  lemma ColumnsShow(some: seq<Row>, row: ViewRow)
    requires row.installs == Sum(PathColumn(some, Installs)) && row.peerInstalls == Sum(PathColumn(some, PeerInstalls))
    requires row.naive == Sum(PathColumn(some, Naive)) && row.actual == Sum(PathColumn(some, Egress))
    requires row.saved == ClampSaved(row.naive, row.actual)
    ensures Shows(row, some)
  {
    GroupsCountPairs(some, PathOf, false);
    GroupsCountPairs(some, PathOf, true);
    GroupsKeepEgress(some, PathOf);
    PairsWritten(some);
    BaselineIs(some);
    hide GroupBy, Values, Sum, Sent, Pairs, Baseline;
  }

  lemma SubnetShows(rows: seq<Row>, cutoff: nat, subnet: string)
    ensures var w, view := Window(rows, cutoff), Subnets(rows, cutoff);
      && (subnet in view <==> exists r :: r in w && SubnetOf(r) == subnet)
      && (subnet in view ==> Shows(view[subnet], Having(w, SubnetOf, subnet)))
  {
    assert Outer(Window(rows, cutoff), SubnetPath, SubnetOf);
    SliceShows(rows, cutoff, SubnetPath, SubnetOf, subnet);
    hide Window, PerGroup, Having, Shows;
  }

  lemma DayShows(rows: seq<Row>, cutoff: nat, day: nat)
    ensures var w, view := Window(rows, cutoff), Days(rows, cutoff);
      && (day in view <==> exists r :: r in w && DateOf(r) == day)
      && (day in view ==> Shows(view[day], Having(w, DateOf, day)))
  {
    assert Outer(Window(rows, cutoff), DayPath, DateOf);
    SliceShows(rows, cutoff, DayPath, DateOf, day);
    hide Window, PerGroup, Having, Shows;
  }

  // ----- The installer view

  lemma InstallerShows(rows: seq<Row>, cutoff: nat, path: string)
    ensures var w, view := Window(rows, cutoff), Installers(rows, cutoff);
      && (path in view <==> exists r :: r in w && InstallerOf(r) == path)
      && (path in view ==> Shows(view[path], Having(w, InstallerOf, path)))
  {
    var w := Window(rows, cutoff);
    forall r: Row
      ensures InGroup(InstallerOf, path)(r) == InGroup(PathOf, path)(r)
    {
      assert PathOf(r) == r.path == InstallerOf(r);
    }
    WhereAlike(w, InGroup(InstallerOf, path), InGroup(PathOf, path));
    InstallerRow(rows, cutoff, path);
    if path in Installers(rows, cutoff) {
      OnlyPath(w, path);
      hide *;
      OnePathColumn(Having(w, PathOf, path), path, Installs);
      OnePathColumn(Having(w, PathOf, path), path, PeerInstalls);
      OnePathColumn(Having(w, PathOf, path), path, Naive);
      OnePathColumn(Having(w, PathOf, path), path, Egress);
      ColumnsShow(Having(w, PathOf, path), Installers(rows, cutoff)[path]);
    }
  }

  lemma InstallerRow(rows: seq<Row>, cutoff: nat, path: string)
    ensures var w, view := Window(rows, cutoff), Installers(rows, cutoff);
      && (path in view <==> exists r :: r in w && InstallerOf(r) == path)
      && (path in view ==>
            var a, row := Aggregate(Having(w, PathOf, path)), view[path];
            && row.installs == Value(a, Installs) && row.peerInstalls == Value(a, PeerInstalls)
            && row.naive == Value(a, Naive) && row.actual == Value(a, Egress)
            && row.saved == ClampSaved(row.naive, row.actual))
  {
    hide Window, Aggregate, Having;
    assert forall r :: InstallerOf(r) == PathOf(r);
  }

  lemma OnlyPath(w: seq<Row>, path: string)
    requires exists r :: r in w && InstallerOf(r) == path
    ensures var some := Having(w, PathOf, path); some != [] && forall r :: r in some ==> r.path == path
  {
    WhereMembers(w, InGroup(PathOf, path));
    var r :| r in w && InstallerOf(r) == path;
    assert r in Having(w, PathOf, path);
  }

  lemma OnePathColumn(some: seq<Row>, path: string, c: Column)
    requires some != [] && forall r :: r in some ==> r.path == path
    ensures Sum(PathColumn(some, c)) == Value(Aggregate(some), c)
  {
    assert some[0] in some;
    assert KeysOf(some, PathOf) == {path};
    AllOfThem(some, InGroup(PathOf, path));
    ColumnAt(some, PathOf, c, path);
    hide Having, Aggregate, Value, Sum;
    assert PathColumn(some, c).Keys == {path};
    SumOfOne(PathColumn(some, c), path);
  }

  lemma {:induction false} AllOfThem(rows: seq<Row>, p: Row -> bool)
    requires forall r :: r in rows ==> p(r)
    ensures Where(rows, p) == rows
  {
    WhereUniform(rows, p, true);
  }

  // ----- The ratio

  /** The ratio is the saved share of the baseline. */
  lemma RatioIs(row: ViewRow)
    ensures SavingsRatio(row) * row.naive as real == if row.naive > 0 then row.saved as real else 0.0
    ensures row.naive == 0 ==> SavingsRatio(row) == 0.0
  {}
}
