/** The exported query functions of metrics.js: what they compute from the database object and in which order they list
    it. */
module DashboardQueries {
  import opened Ledger
  import opened LedgerRuns
  import opened Metrics
  import opened Tally
  import opened Dashboard
  import opened DashboardLaws
  import opened Views

  function Weight<K(==)>(weight: map<K, int>, k: K): int {
    if k in weight then weight[k] else 0
  }

  ghost predicate Descending<K>(order: seq<K>, weight: map<K, int>) {
    forall i, j :: 0 <= i < j < |order| ==> Weight(weight, order[j]) <= Weight(weight, order[i])
  }

  ghost predicate Distinct<K>(order: seq<K>) {
    forall i, j :: 0 <= i < j < |order| ==> order[i] != order[j]
  }

  /** `order` lists the keys of `weight` once each, heaviest first. */
  ghost predicate Ranked<K>(order: seq<K>, weight: map<K, int>) {
    (set k | k in order) == weight.Keys && Distinct(order) && Descending(order, weight)
  }

  function InsertAt<K>(order: seq<K>, i: nat, k: K): (longer: seq<K>)
    requires i <= |order|
    ensures |longer| == |order| + 1
    ensures forall j :: 0 <= j < |longer| ==>
      longer[j] == if j < i then order[j] else if j == i then k else order[j - 1]
  {
    order[..i] + [k] + order[i..]
  }

  /** The listing with one more key in its place: before the first key that is lighter. */
  method Insert<K(==)>(order: seq<K>, weight: map<K, int>, k: K) returns (longer: seq<K>)
    requires k in weight && Ranked(order, weight - {k})
    ensures Ranked(longer, weight)
  {
    var i := 0;
    while i < |order| && weight[k] <= Weight(weight, order[i])
      invariant 0 <= i <= |order|
      invariant forall j :: 0 <= j < i ==> weight[k] <= Weight(weight, order[j])
    {
      i := i + 1;
    }
    longer := InsertAt(order, i, k);
    InsertMembers(order, weight, k, i);
    InsertDescending(order, weight, k, i);
    hide *;
  }

  lemma InsertHas<K>(order: seq<K>, k: K, i: nat, x: K)
    requires i <= |order|
    ensures x in InsertAt(order, i, k) <==> x == k || x in order
  {
    var longer := InsertAt(order, i, k);
    if x in longer {
      var j :| 0 <= j < |longer| && longer[j] == x;
      assert j < i ==> x == order[j];
      assert j > i ==> x == order[j - 1];
    }
    if x in order {
      var j :| 0 <= j < |order| && order[j] == x;
      assert longer[if j < i then j else j + 1] == x;
    }
    assert longer[i] == k;
  }

  lemma InsertDistinct<K>(order: seq<K>, k: K, i: nat)
    requires i <= |order| && k !in order && Distinct(order)
    ensures Distinct(InsertAt(order, i, k))
  {
    assert forall j :: 0 <= j < |order| ==> order[j] in order && order[j] != k;
  }

  lemma InsertMembers<K>(order: seq<K>, weight: map<K, int>, k: K, i: nat)
    requires k in weight && (set x | x in order) == (weight - {k}).Keys && Distinct(order) && i <= |order|
    ensures (set x | x in InsertAt(order, i, k)) == weight.Keys
    ensures Distinct(InsertAt(order, i, k))
  {
    assert k !in order by {
      assert k !in set x | x in order;
    }
    InsertDistinct(order, k, i);
    hide InsertAt, Distinct;
    forall x
      ensures x in InsertAt(order, i, k) <==> x in weight
    {
      InsertHas(order, k, i, x);
      assert x in order <==> x in (set y | y in order);
      assert x in (weight - {k}).Keys <==> x in weight && x != k;
    }
  }

  lemma InsertDescending<K>(order: seq<K>, weight: map<K, int>, k: K, i: nat)
    requires k in weight && (set x | x in order) == (weight - {k}).Keys && Descending(order, weight - {k})
    requires i <= |order| && forall j :: 0 <= j < i ==> weight[k] <= Weight(weight, order[j])
    requires i < |order| ==> Weight(weight, order[i]) < weight[k]
    ensures Descending(InsertAt(order, i, k), weight)
  {
    forall j | 0 <= j < |order|
      ensures Weight(weight - {k}, order[j]) == Weight(weight, order[j])
    {
      assert order[j] in (set x | x in order);
    }
    forall j | i <= j < |order|
      ensures Weight(weight, order[j]) < weight[k]
    {
      assert i == j || Weight(weight - {k}, order[j]) <= Weight(weight - {k}, order[i]);
    }
  }

  /** `rows.sort((a, b) => b.weight - a.weight)` on the rows of a map. */
  method Rank<K(==)>(weight: map<K, int>) returns (order: seq<K>)
    ensures Ranked(order, weight)
  {
    order := [];
    var done := map[];
    var pending := weight;
    while pending != map[]
      invariant done.Keys !! pending.Keys && done + pending == weight
      invariant Ranked(order, done)
      decreases pending.Keys
    {
      var k :| k in pending;
      var more := done[k := pending[k]];
      assert more - {k} == done;
      assert more + (pending - {k}) == weight;
      order := Insert(order, more, k);
      done, pending := more, pending - {k};
    }
  }

  lemma HeadlineOf(rows: seq<Row>, now: nat, days: real)
    requires 0.0 <= days
    ensures var head := Headline(rows, QueryCutoff(now, days));
      && Shows(head, DeliveredIn(rows, now, days))
      && SavingsRatio(head) * head.naive as real == (if head.naive > 0 then head.saved as real else 0.0)
      && (head.naive == 0 ==> SavingsRatio(head) == 0.0)
  {
    hide *;
    WindowIs(rows, now, days);
    HeadlineShows(rows, QueryCutoff(now, days));
    RatioIs(Headline(rows, QueryCutoff(now, days)));
  }

  lemma HeadlineRow(rows: seq<Row>, cutoff: nat)
    ensures var g := GroupBy(Window(rows, cutoff), PathOf);
      Headline(rows, cutoff)
      == MakeRow(Sum(Values(g, Installs)), Sum(Values(g, Naive)), Sum(Values(g, Egress)), Sum(Values(g, PeerInstalls)))
  {
    hide Sum, Window, GroupBy, Values, MakeRow;
  }

  /** getHeadlineSummary. */
  method GetHeadlineSummary(db: MetricsDb, now: nat, windowDays: real) returns (head: ViewRow, ratio: real)
    requires 0.0 <= windowDays
    ensures head == Headline(db.raw, QueryCutoff(now, windowDays)) && ratio == SavingsRatio(head)
    ensures Shows(head, DeliveredIn(db.raw, now, windowDays))
    ensures ratio * head.naive as real == (if head.naive > 0 then head.saved as real else 0.0)
    ensures head.naive == 0 ==> ratio == 0.0
  {
    hide *;
    HeadlineRow(db.raw, QueryCutoff(now, windowDays));
    HeadlineOf(db.raw, now, windowDays);
    var g := GroupBy(Window(db.raw, QueryCutoff(now, windowDays)), PathOf);
    var installs := Total(Values(g, Installs));
    var naive := Total(Values(g, Naive));
    var actual := Total(Values(g, Egress));
    var peers := Total(Values(g, PeerInstalls));
    head := MakeRow(installs, naive, actual, peers);
    ratio := SavingsRatio(head);
  }

  /** One row of a two-level view. */
  method RowOfGroup<X(==)>(g: map<(X, string), Agg>, x: X) returns (row: ViewRow)
    ensures row == MakeRow(Sum(Fiber(Values(g, Installs), First, x)), Sum(Fiber(Values(g, Naive), First, x)),
                           Sum(Fiber(Values(g, Egress), First, x)), Sum(Fiber(Values(g, PeerInstalls), First, x)))
  {
    var installs := Total(Fiber(Values(g, Installs), First, x));
    var naive := Total(Fiber(Values(g, Naive), First, x));
    var actual := Total(Fiber(Values(g, Egress), First, x));
    var peers := Total(Fiber(Values(g, PeerInstalls), First, x));
    row := MakeRow(installs, naive, actual, peers);
  }

  /** The outer GROUP BY of the two-level queries. */
  method GroupRows<X(==)>(rows: seq<Row>, cutoff: nat, fine: Row -> (X, string)) returns (view: map<X, ViewRow>)
    ensures view == PerGroup(rows, cutoff, fine)
  {
    hide Sum, Window, GroupBy, MakeRow, Values, Fiber;
    var g := GroupBy(Window(rows, cutoff), fine);
    var xs := set k | k in g :: First(k);
    ghost var all := PerGroup(rows, cutoff, fine);
    assert all.Keys == xs;
    view := map[];
    var pending := xs;
    while pending != {}
      invariant pending <= xs && view.Keys == xs - pending
      invariant forall x :: x in view ==> x in all && view[x] == all[x]
      decreases pending
    {
      var x :| x in pending;
      var row := RowOfGroup(g, x);
      view, pending := view[x := row], pending - {x};
    }
  }

  /** Every row of the view once, under its key. */
  ghost predicate Lists<X>(rows: seq<(X, ViewRow)>, view: map<X, ViewRow>) {
    && (forall i :: 0 <= i < |rows| ==> rows[i].0 in view && rows[i].1 == view[rows[i].0])
    && (forall i, j :: 0 <= i < j < |rows| ==> rows[i].0 != rows[j].0)
    && (forall x :: x in view ==> Shown(rows, x))
  }

  ghost predicate Shown<X>(rows: seq<(X, ViewRow)>, x: X) {
    exists i :: 0 <= i < |rows| && rows[i].0 == x
  }

  /** Every listed row shows the deliveries under its key, of which there are some, and no delivery is without a row. */
  ghost predicate ListsDeliveries<X>(rows: seq<(X, ViewRow)>, some: seq<Row>, outer: Row -> X) {
    && (forall i :: 0 <= i < |rows| ==> ShowsItsOwn(rows[i], some, outer))
    && (forall r :: r in some ==> Shown(rows, outer(r)))
    && (forall i, j :: 0 <= i < j < |rows| ==> rows[i].0 != rows[j].0)
  }

  ghost predicate ShowsItsOwn<X>(row: (X, ViewRow), some: seq<Row>, outer: Row -> X) {
    (exists r :: r in some && outer(r) == row.0) && Shows(row.1, Having(some, outer, row.0))
  }

  /** What the view's own laws say about its rows. */
  ghost predicate ViewOf<X>(view: map<X, ViewRow>, some: seq<Row>, outer: Row -> X) {
    && (forall x :: x in view ==> ShowsItsOwn((x, view[x]), some, outer))
    && (forall r :: r in some ==> outer(r) in view)
  }

  lemma ListedDeliveries<X>(rows: seq<(X, ViewRow)>, view: map<X, ViewRow>, some: seq<Row>, outer: Row -> X)
    requires Lists(rows, view) && ViewOf(view, some, outer)
    ensures ListsDeliveries(rows, some, outer)
  {
    forall i | 0 <= i < |rows|
      ensures ShowsItsOwn(rows[i], some, outer)
    {
      assert ShowsItsOwn((rows[i].0, view[rows[i].0]), some, outer);
    }
    hide ShowsItsOwn;
  }

  lemma SubnetsOf(rows: seq<Row>, now: nat, days: real)
    requires 0.0 <= days
    ensures ViewOf(Subnets(rows, QueryCutoff(now, days)), DeliveredIn(rows, now, days), SubnetOf)
  {
    var cutoff := QueryCutoff(now, days);
    WindowIs(rows, now, days);
    hide PerGroup, QueryCutoff, DeliveredIn, Window, Having, Shows;
    forall s: string {
      SubnetShows(rows, cutoff, s);
    }
  }

  lemma DaysOf(rows: seq<Row>, now: nat, days: real)
    requires 0.0 <= days
    ensures ViewOf(Days(rows, QueryCutoff(now, days)), DeliveredIn(rows, now, days), DateOf)
  {
    var cutoff := QueryCutoff(now, days);
    WindowIs(rows, now, days);
    hide PerGroup, QueryCutoff, DeliveredIn, Window, Having, Shows;
    forall d: nat {
      DayShows(rows, cutoff, d);
    }
  }

  lemma InstallersOf(rows: seq<Row>, now: nat, days: real)
    requires 0.0 <= days
    ensures ViewOf(Installers(rows, QueryCutoff(now, days)), DeliveredIn(rows, now, days), InstallerOf)
  {
    var cutoff := QueryCutoff(now, days);
    WindowIs(rows, now, days);
    hide Installers, QueryCutoff, DeliveredIn, Window, Having, Shows;
    forall p: string {
      InstallerShows(rows, cutoff, p);
    }
  }

  /** The rows of a view, sorted by descending weight. */
  method ListBy<X(==)>(view: map<X, ViewRow>, weight: map<X, int>) returns (rows: seq<(X, ViewRow)>)
    requires weight.Keys == view.Keys
    ensures Lists(rows, view)
    ensures forall i, j :: 0 <= i < j < |rows| ==> weight[rows[j].0] <= weight[rows[i].0]
  {
    var order := Rank(weight);
    assert forall i :: 0 <= i < |order| ==> order[i] in (set k | k in order);
    rows := seq(|order|, i requires 0 <= i < |order| => (order[i], view[order[i]]));
    forall x | x in view
      ensures Shown(rows, x)
    {
      assert x in (set k | k in order);
      var i :| 0 <= i < |order| && order[i] == x;
      assert rows[i].0 == x;
    }
    forall i, j | 0 <= i < j < |rows|
      ensures weight[rows[j].0] <= weight[rows[i].0]
    {
      assert Weight(weight, order[j]) <= Weight(weight, order[i]);
    }
  }

  /** getTimeSeries: one row per day, in order of day. */
  method GetTimeSeries(db: MetricsDb, now: nat, windowDays: real) returns (series: seq<(nat, ViewRow)>)
    requires 0.0 <= windowDays
    ensures Lists(series, Days(db.raw, QueryCutoff(now, windowDays)))
    ensures ListsDeliveries(series, DeliveredIn(db.raw, now, windowDays), DateOf)
    ensures forall i, j :: 0 <= i < j < |series| ==> series[i].0 < series[j].0
  {
    hide PerGroup, QueryCutoff, DeliveredIn, ViewOf, ListsDeliveries;
    var view := GroupRows(db.raw, QueryCutoff(now, windowDays), DayPath);
    series := ListBy(view, map d | d in view :: -d);
    DaysOf(db.raw, now, windowDays);
    ListedDeliveries(series, view, DeliveredIn(db.raw, now, windowDays), DateOf);
  }

  /** getSubnetEffectiveness: most saved first. */
  method GetSubnetEffectiveness(db: MetricsDb, now: nat, windowDays: real) returns (rows: seq<(string, ViewRow)>)
    requires 0.0 <= windowDays
    ensures Lists(rows, Subnets(db.raw, QueryCutoff(now, windowDays)))
    ensures ListsDeliveries(rows, DeliveredIn(db.raw, now, windowDays), SubnetOf)
    ensures forall i, j :: 0 <= i < j < |rows| ==> rows[j].1.saved <= rows[i].1.saved
  {
    hide PerGroup, QueryCutoff, DeliveredIn, ViewOf, ListsDeliveries;
    var view := GroupRows(db.raw, QueryCutoff(now, windowDays), SubnetPath);
    rows := ListBy(view, map s | s in view :: view[s].saved);
    SubnetsOf(db.raw, now, windowDays);
    ListedDeliveries(rows, view, DeliveredIn(db.raw, now, windowDays), SubnetOf);
  }

  /** getTopInstallers: at most `limit` rows, and nothing left out saves more than what is shown. */
  method GetTopInstallers(db: MetricsDb, now: nat, windowDays: real, limit: nat) returns (rows: seq<(string, ViewRow)>)
    requires 0.0 <= windowDays
    ensures TopOf(rows, Installers(db.raw, QueryCutoff(now, windowDays)), limit)
    ensures TopDeliveries(rows, DeliveredIn(db.raw, now, windowDays), limit)
  {
    hide Installers, QueryCutoff, TopOf, TopDeliveries, DeliveredIn, ViewOf;
    var view := Installers(db.raw, QueryCutoff(now, windowDays));
    var ranked := ListBy(view, map p | p in view :: view[p].saved);
    rows := if |ranked| <= limit then ranked else ranked[..limit];
    TopOfRanked(ranked, view, limit);
    InstallersOf(db.raw, now, windowDays);
    TopIsTop(rows, view, DeliveredIn(db.raw, now, windowDays), limit);
  }

  lemma TopOfRanked<X>(ranked: seq<(X, ViewRow)>, view: map<X, ViewRow>, limit: nat)
    requires Lists(ranked, view)
    requires forall i, j :: 0 <= i < j < |ranked| ==> ranked[j].1.saved <= ranked[i].1.saved
    ensures TopOf(if |ranked| <= limit then ranked else ranked[..limit], view, limit)
  {
    var rows := if |ranked| <= limit then ranked else ranked[..limit];
    forall x, i | x in view && !Shown(rows, x) && 0 <= i < |rows|
      ensures view[x].saved <= rows[i].1.saved
    {
      assert Shown(ranked, x);
      var at :| 0 <= at < |ranked| && ranked[at].0 == x;
      assert at >= |rows|;
    }
  }

  /** The `limit` rows of the view that save the most, in order; all of it when it is shorter. */
  ghost predicate TopOf<X>(rows: seq<(X, ViewRow)>, view: map<X, ViewRow>, limit: nat) {
    && (forall i :: 0 <= i < |rows| ==> rows[i].0 in view && rows[i].1 == view[rows[i].0])
    && (forall i, j :: 0 <= i < j < |rows| ==> rows[i].0 != rows[j].0 && rows[j].1.saved <= rows[i].1.saved)
    && |rows| <= limit && (|rows| < limit ==> Lists(rows, view))
    && (forall x, i :: x in view && !Shown(rows, x) && 0 <= i < |rows| ==> view[x].saved <= rows[i].1.saved)
  }

  /** At most `limit` rows in order of what they save, each showing the deliveries of its installer; an installer
      without a row saves no more than any row shown, and there is none while rows are left. */
  ghost predicate TopDeliveries(rows: seq<(string, ViewRow)>, some: seq<Row>, limit: nat) {
    && |rows| <= limit
    && (forall i :: 0 <= i < |rows| ==> ShowsItsOwn(rows[i], some, InstallerOf))
    && (forall i, j :: 0 <= i < j < |rows| ==> rows[i].0 != rows[j].0 && rows[j].1.saved <= rows[i].1.saved)
    && forall r :: r in some && !Shown(rows, r.path) ==> |rows| == limit && LeftOut(rows, some, r.path)
  }

  ghost predicate LeftOut(rows: seq<(string, ViewRow)>, some: seq<Row>, path: string) {
    forall row: ViewRow :: Shows(row, Having(some, InstallerOf, path)) ==>
      forall i :: 0 <= i < |rows| ==> row.saved <= rows[i].1.saved
  }

  lemma TopIsTop(rows: seq<(string, ViewRow)>, view: map<string, ViewRow>, some: seq<Row>, limit: nat)
    requires TopOf(rows, view, limit) && ViewOf(view, some, InstallerOf)
    ensures TopDeliveries(rows, some, limit)
  {
    hide Shows;
    forall i | 0 <= i < |rows|
      ensures ShowsItsOwn(rows[i], some, InstallerOf)
    {
      assert ShowsItsOwn((rows[i].0, view[rows[i].0]), some, InstallerOf);
    }
    forall r | r in some && !Shown(rows, r.path)
      ensures |rows| == limit && LeftOut(rows, some, r.path)
    {
      assert InstallerOf(r) == r.path && r.path in view;
      assert ShowsItsOwn((r.path, view[r.path]), some, InstallerOf);
      forall row: ViewRow | Shows(row, Having(some, InstallerOf, r.path))
        ensures row == view[r.path]
      {
        OneRowShows(row, view[r.path], Having(some, InstallerOf, r.path));
      }
    }
    hide ShowsItsOwn, LeftOut, Lists;
  }

  lemma OneRowShows(a: ViewRow, b: ViewRow, some: seq<Row>)
    requires Shows(a, some) && Shows(b, some)
    ensures a == b
  {
    hide Sent, Sum, Baseline;
  }
}
