/** The four Bandwidth views of metrics.js, as SQL over the raw table, and how they agree. */
module Dashboard {
  import opened Ledger
  import opened LedgerRuns
  import opened Tally

  // ----- Queries

  function PathOf(r: Row): string { r.path }

  function IpOf(r: Row): string { r.ip }

  function SubnetPath(r: Row): (string, string) { (r.subnet, r.path) }

  function DayPath(r: Row): (nat, string) { (DayOf(r.ts), r.path) }

  /** A numeric column of a grouped table; Naive is file_size * installs. */
  datatype Column = Installs | PeerInstalls | Naive | Egress

  function Value(a: Agg, c: Column): nat {
    match c
    case Installs => a.installs
    case PeerInstalls => a.peerInstalls
    case Naive => a.fileSize * a.installs
    case Egress => a.sent
  }

  function Values<K>(g: map<K, Agg>, c: Column): map<K, nat> {
    map k | k in g :: Value(g[k], c)
  }

  /** A row of any view: installs, baseline, true egress, clamped saving, peer-accelerated installs. */
  datatype ViewRow = ViewRow(installs: nat, naive: nat, actual: nat, saved: nat, peerInstalls: nat)

  function MakeRow(installs: nat, naive: nat, actual: nat, peerInstalls: nat): ViewRow {
    ViewRow(installs, naive, actual, ClampSaved(naive, actual), peerInstalls)
  }

  function SavingsRatio(row: ViewRow): real {
    if row.naive > 0 then row.saved as real / row.naive as real else 0.0
  }

  /** getHeadlineSummary: aggregate per installer, then add up. */
  ghost function Headline(rows: seq<Row>, cutoff: nat): ViewRow {
    var g := GroupBy(Window(rows, cutoff), PathOf);
    MakeRow(Sum(Values(g, Installs)), Sum(Values(g, Naive)), Sum(Values(g, Egress)), Sum(Values(g, PeerInstalls)))
  }

  function First<X, Y>(k: (X, Y)): X { k.0 }

  function Second<X, Y>(k: (X, Y)): Y { k.1 }

  /** getTimeSeries and getSubnetEffectiveness: aggregate per (x, installer), then add up per x. */
  ghost function PerGroup<X>(rows: seq<Row>, cutoff: nat, fine: Row -> (X, string)): map<X, ViewRow> {
    var g := GroupBy(Window(rows, cutoff), fine);
    map x | x in set k | k in g :: First(k) :: GroupRow(g, x)
  }

  ghost function GroupRow<X>(g: map<(X, string), Agg>, x: X): ViewRow {
    MakeRow(Sum(Fiber(Values(g, Installs), First, x)), Sum(Fiber(Values(g, Naive), First, x)),
            Sum(Fiber(Values(g, Egress), First, x)), Sum(Fiber(Values(g, PeerInstalls), First, x)))
  }

  ghost function Subnets(rows: seq<Row>, cutoff: nat): map<string, ViewRow> {
    PerGroup(rows, cutoff, SubnetPath)
  }

  ghost function Days(rows: seq<Row>, cutoff: nat): map<nat, ViewRow> {
    PerGroup(rows, cutoff, DayPath)
  }

  /** getTopInstallers before sorting and slicing. */
  function Installers(rows: seq<Row>, cutoff: nat): map<string, ViewRow> {
    var g := GroupBy(Window(rows, cutoff), PathOf);
    map p | p in g :: MakeRow(g[p].installs, Value(g[p], Naive), g[p].sent, g[p].peerInstalls)
  }

  // ----- Group totals

  /** Every view row's group keys and values, one row more at a time. */
  lemma GroupBySnoc<K>(init: seq<Row>, last: Row, key: Row -> K)
    ensures GroupBy(init + [last], key)
         == GroupBy(init, key)[key(last) := Aggregate(Having(init, key, key(last)) + [last])]
  {
    var all := init + [last];
    assert KeysOf(all, key) == KeysOf(init, key) + {key(last)} by {
      assert last in all;
      forall r | r in init ensures r in all {}
    }
    forall k
      ensures Having(all, key, k) == if key(last) == k then Having(init, key, k) + [last] else Having(init, key, k)
    {
      WhereSnoc(init, last, InGroup(key, k));
    }
  }

  /** No egress is lost or counted twice by grouping. */
  lemma {:induction false} GroupsKeepEgress<K>(rows: seq<Row>, key: Row -> K)
    ensures Sum(Values(GroupBy(rows, key), Egress)) == Sent(rows)
  {
    if rows == [] {
      assert Values(GroupBy(rows, key), Egress) == map[];
    } else {
      var init, last := rows[..|rows| - 1], rows[|rows| - 1];
      assert rows == init + [last];
      var group := Having(init, key, key(last));
      GroupsKeepEgress(init, key);
      GroupTotalSnoc(init, last, key, Egress);
      Snoc(group, last);
      Snoc(init, last);
      AggregateValues(group);
      AggregateValues(group + [last]);
      hide *;
    }
  }

  lemma AggregateValues(rows: seq<Row>)
    ensures Value(Aggregate(rows), Egress) == Sent(rows)
    ensures forall peer :: Value(Aggregate(rows), CountColumn(peer)) == |Clients(rows, peer)|
    ensures Value(Aggregate(rows), Naive) == MaxSize(rows) * |Clients(rows, false)|
  {}

  /** Adding a row replaces one group's contribution to a column total. */
  lemma GroupTotalSnoc<K>(init: seq<Row>, last: Row, key: Row -> K, c: Column)
    ensures var group := Having(init, key, key(last));
      Sum(Values(GroupBy(init + [last], key), c)) + Value(Aggregate(group), c)
      == Sum(Values(GroupBy(init, key), c)) + Value(Aggregate(group + [last]), c)
  {
    var group, k := Having(init, key, key(last)), key(last);
    var before, added := GroupBy(init, key), Aggregate(group + [last]);
    GroupBySnoc(init, last, key);
    GroupValue(init, key, k, c);
    ValuesUpdate(before, k, added, c);
    hide *;
    SumUpdate(Values(before, c), k, Value(added, c));
  }

  lemma ValuesUpdate<K>(g: map<K, Agg>, k: K, a: Agg, c: Column)
    ensures Values(g[k := a], c) == Values(g, c)[k := Value(a, c)]
  {
    hide Value;
  }

  /** The contribution of group `k`, zero when it has no row. */
  lemma GroupValue<K>(rows: seq<Row>, key: Row -> K, k: K, c: Column)
    ensures var v := Values(GroupBy(rows, key), c);
      (if k in v then v[k] else 0) == Value(Aggregate(Having(rows, key, k)), c)
  {
    EmptyGroup(rows, key, k);
  }

  /** The distinct (group, client) pairs behind the count columns. */
  ghost function Pairs<K>(rows: seq<Row>, key: Row -> K, peer: bool): set<(K, string)> {
    set r | r in rows && (peer ==> r.peerdist) :: (key(r), r.ip)
  }

  function CountColumn(peer: bool): Column {
    if peer then PeerInstalls else Installs
  }

  /** An install is a distinct (client, group) pair: the per-group distinct counts add up to the distinct pairs. */
  lemma {:induction false} GroupsCountPairs<K>(rows: seq<Row>, key: Row -> K, peer: bool)
    ensures Sum(Values(GroupBy(rows, key), CountColumn(peer))) == |Pairs(rows, key, peer)|
  {
    var c := CountColumn(peer);
    if rows == [] {
      assert Values(GroupBy(rows, key), c) == map[];
      assert Pairs(rows, key, peer) == {};
    } else {
      var init, last := rows[..|rows| - 1], rows[|rows| - 1];
      assert rows == init + [last];
      var group := Having(init, key, key(last));
      GroupsCountPairs(init, key, peer);
      GroupTotalSnoc(init, last, key, c);
      PairsSnoc(init, last, key, peer);
      AggregateValues(group);
      AggregateValues(group + [last]);
      hide *;
    }
  }

  /** A new row adds a pair exactly when it adds a client to its group. */
  lemma PairsSnoc<K>(init: seq<Row>, last: Row, key: Row -> K, peer: bool)
    ensures var group := Having(init, key, key(last));
      |Pairs(init + [last], key, peer)| + |Clients(group, peer)|
      == |Pairs(init, key, peer)| + |Clients(group + [last], peer)|
  {
    var group, k := Having(init, key, key(last)), key(last);
    var was, now := Pairs(init, key, peer), Pairs(init + [last], key, peer);
    var had, has := Clients(group, peer), Clients(group + [last], peer);
    SamePair(init, last, key, peer);
    MembersSnoc(init, group, last, key, peer);
    AddOne(was, (k, last.ip));
    AddOne(had, last.ip);
    hide *;
  }

  lemma MembersSnoc<K>(init: seq<Row>, group: seq<Row>, last: Row, key: Row -> K, peer: bool)
    ensures Pairs(init + [last], key, peer)
         == Pairs(init, key, peer) + if peer ==> last.peerdist then {(key(last), last.ip)} else {}
    ensures Clients(group + [last], peer) == Clients(group, peer) + if peer ==> last.peerdist then {last.ip} else {}
  {
    assert forall r :: r in init + [last] <==> r in init || r == last;
    assert forall r :: r in group + [last] <==> r in group || r == last;
  }

  lemma SamePair<K>(init: seq<Row>, last: Row, key: Row -> K, peer: bool)
    ensures (key(last), last.ip) in Pairs(init, key, peer) <==> last.ip in Clients(Having(init, key, key(last)), peer)
  {
    var group, k := Having(init, key, key(last)), key(last);
    WhereMembers(init, InGroup(key, k));
    hide Having;
    if last.ip in Clients(group, peer) {
      var r :| r in group && (peer ==> r.peerdist) && r.ip == last.ip;
      assert r in init && key(r) == k;
    }
  }

  lemma AddOne<T>(s: set<T>, x: T)
    ensures |s + {x}| == |s| + if x in s then 0 else 1
  {
    if x in s {
      assert s + {x} == s;
    }
  }

  // ----- Adding up a view

  function RowValue(row: ViewRow, c: Column): nat {
    match c
    case Installs => row.installs
    case PeerInstalls => row.peerInstalls
    case Naive => row.naive
    case Egress => row.actual
  }

  function ViewColumn<X>(view: map<X, ViewRow>, c: Column): map<X, nat> {
    map x | x in view :: RowValue(view[x], c)
  }

  function SavedColumn<X>(view: map<X, ViewRow>): map<X, nat> {
    map x | x in view :: view[x].saved
  }

  /** The rows of a two-level view add up to the totals of its inner grouping. */
  lemma PerGroupTotal<X>(rows: seq<Row>, cutoff: nat, fine: Row -> (X, string), c: Column)
    ensures Sum(ViewColumn(PerGroup(rows, cutoff, fine), c)) == Sum(Values(GroupBy(Window(rows, cutoff), fine), c))
  {
    SumRegroup(Values(GroupBy(Window(rows, cutoff), fine), c), First);
    PerGroupColumn(rows, cutoff, fine, c);
    hide *;
  }

  lemma GroupRowColumn<X>(g: map<(X, string), Agg>, x: X, c: Column)
    ensures RowValue(GroupRow(g, x), c) == Sum(Fiber(Values(g, c), First, x))
  {
    hide Sum, Fiber, Values;
  }

  lemma PerGroupColumn<X>(rows: seq<Row>, cutoff: nat, fine: Row -> (X, string), c: Column)
    ensures ViewColumn(PerGroup(rows, cutoff, fine), c)
         == Regroup(Values(GroupBy(Window(rows, cutoff), fine), c), First)
  {
    var g, view := GroupBy(Window(rows, cutoff), fine), PerGroup(rows, cutoff, fine);
    hide Window, GroupBy, Sum, Value, Fiber, GroupRow, RowValue;
    assert (set k | k in Values(g, c) :: First(k)) == set k | k in g :: First(k);
    forall x | x in view
      ensures RowValue(view[x], c) == Sum(Fiber(Values(g, c), First, x))
    {
      GroupRowColumn(g, x, c);
    }
  }

  /** The total of the clamped savings of a view is at least the clamped saving of its totals. */
  lemma ClampedSavings<X>(view: map<X, ViewRow>)
    requires forall x :: x in view ==> view[x].saved == ClampSaved(view[x].naive, view[x].actual)
    ensures Sum(SavedColumn(view)) >= ClampSaved(Sum(ViewColumn(view, Naive)), Sum(ViewColumn(view, Egress)))
  {
    SumClamp(ViewColumn(view, Naive), ViewColumn(view, Egress), SavedColumn(view));
  }

  /** A coarser grouping `coarse` is a projection of the finer one. */
  ghost predicate Projects<K, G>(rows: seq<Row>, fine: Row -> K, proj: K -> G, coarse: Row -> G) {
    forall r :: r in rows ==> proj(fine(r)) == coarse(r)
  }

  /** The groups of a finer grouping that belong to one coarse group are the groups of that group's rows. */
  lemma FiberOf<K, G>(rows: seq<Row>, fine: Row -> K, proj: K -> G, coarse: Row -> G, x: G, c: Column)
    requires Projects(rows, fine, proj, coarse)
    ensures Fiber(Values(GroupBy(rows, fine), c), proj, x) == Values(GroupBy(Having(rows, coarse, x), fine), c)
  {
    var all := Fiber(Values(GroupBy(rows, fine), c), proj, x);
    var part := Values(GroupBy(Having(rows, coarse, x), fine), c);
    forall k | k in all.Keys + part.Keys
      ensures SameAt(all, part, k)
    {
      FiberOfAt(rows, fine, proj, coarse, x, c, k);
    }
    hide *;
    SameMap(all, part);
  }

  /** The two maps agree about the key `k`. */
  ghost predicate SameAt<K, V>(a: map<K, V>, b: map<K, V>, k: K) {
    (k in a <==> k in b) && (k in a && k in b ==> a[k] == b[k])
  }

  lemma SameMap<K, V>(a: map<K, V>, b: map<K, V>)
    requires forall k :: k in a.Keys + b.Keys ==> SameAt(a, b, k)
    ensures a == b
  {
    forall k | k in a.Keys + b.Keys
      ensures k in a && k in b && a[k] == b[k]
    {
      assert SameAt(a, b, k);
    }
    assert a.Keys == b.Keys;
  }

  lemma FiberOfAt<K, G>(rows: seq<Row>, fine: Row -> K, proj: K -> G, coarse: Row -> G, x: G, c: Column, k: K)
    requires Projects(rows, fine, proj, coarse)
    ensures SameAt(Fiber(Values(GroupBy(rows, fine), c), proj, x), Values(GroupBy(Having(rows, coarse, x), fine), c), k)
  {
    hide Fiber, Values, GroupBy, Having, Value, Aggregate, KeysOf, Projects;
    GroupIn(rows, fine, proj, coarse, x, k);
    FiberAt(Values(GroupBy(rows, fine), c), proj, x, k);
    ColumnAt(rows, fine, c, k);
    ColumnAt(Having(rows, coarse, x), fine, c, k);
  }

  lemma FiberAt<K, G>(m: map<K, nat>, key: K -> G, g: G, k: K)
    ensures k in Fiber(m, key, g) <==> k in m && key(k) == g
    ensures k in Fiber(m, key, g) ==> Fiber(m, key, g)[k] == m[k]
  {}

  lemma ColumnAt<K>(rows: seq<Row>, key: Row -> K, c: Column, k: K)
    ensures k in Values(GroupBy(rows, key), c) <==> k in KeysOf(rows, key)
    ensures k in KeysOf(rows, key) ==> Values(GroupBy(rows, key), c)[k] == Value(Aggregate(Having(rows, key, k)), c)
  {
    hide Value, Aggregate, Having, KeysOf;
  }

  lemma GroupIn<K, G>(rows: seq<Row>, fine: Row -> K, proj: K -> G, coarse: Row -> G, x: G, k: K)
    requires Projects(rows, fine, proj, coarse)
    ensures k in KeysOf(Having(rows, coarse, x), fine) <==> k in KeysOf(rows, fine) && proj(k) == x
    ensures proj(k) == x ==> Having(Having(rows, coarse, x), fine, k) == Having(rows, fine, k)
  {
    var some := Having(rows, coarse, x);
    WhereMembers(rows, InGroup(coarse, x));
    if k in KeysOf(rows, fine) && proj(k) == x {
      var r :| r in rows && fine(r) == k;
      assert r in some;
    }
    if k in KeysOf(some, fine) {
      var r :| r in some && fine(r) == k;
      assert r in rows && proj(fine(r)) == coarse(r) == x;
    }
    if proj(k) == x {
      forall r | r in rows
        ensures InGroup(fine, k)(r) == (InGroup(coarse, x)(r) && InGroup(fine, k)(r))
      {
        assert proj(fine(r)) == coarse(r);
      }
      WhereWhere(rows, InGroup(coarse, x), InGroup(fine, k), InGroup(fine, k));
    }
  }

  ghost function Image<A, B>(s: set<A>, f: A -> B): set<B> {
    set a | a in s :: f(a)
  }

  lemma {:induction false} ImageSize<A, B>(s: set<A>, f: A -> B)
    ensures |Image(s, f)| <= |s|
    ensures (forall a, b :: a in s && b in s && f(a) == f(b) ==> a == b) ==> |Image(s, f)| == |s|
  {
    if s == {} {
    } else {
      var x :| x in s;
      var rest := s - {x};
      ImageSize(rest, f);
      var image, part := Image(s, f), Image(rest, f);
      assert image == part + {f(x)};
      AddOne(part, f(x));
    }
  }

  /** Rows of the same client fall in the same group. */
  ghost predicate ClientFixes<K>(rows: seq<Row>, fine: Row -> K) {
    forall r, t :: r in rows && t in rows && r.ip == t.ip ==> fine(r) == fine(t)
  }

  /** One client per group it appears in, so at least one per client; exactly one when the client fixes the group. */
  lemma PairsOfOnePath<X>(rows: seq<Row>, fine: Row -> (X, string), peer: bool)
    ensures |Clients(rows, peer)| <= |Pairs(rows, fine, peer)|
    ensures ClientFixes(rows, fine) ==> |Clients(rows, peer)| == |Pairs(rows, fine, peer)|
  {
    var pairs, second := Pairs(rows, fine, peer), (pair: ((X, string), string)) => pair.1;
    ImageSize(pairs, second);
    if ClientFixes(rows, fine) {
      forall a, b | a in pairs && b in pairs && second(a) == second(b)
        ensures a == b
      {
        var r :| r in rows && a == (fine(r), r.ip);
        var t :| t in rows && b == (fine(t), t.ip);
      }
    }
    var image := Image(pairs, second);
    forall ip | ip in Clients(rows, peer)
      ensures ip in image
    {
      var r :| r in rows && (peer ==> r.peerdist) && r.ip == ip;
      assert (fine(r), ip) in pairs && second((fine(r), ip)) == ip;
    }
    assert Clients(rows, peer) == image;
  }

  /** The baseline had every group seen the full size. */
  ghost function FullNaive<K>(g: map<K, Agg>, size: nat): map<K, nat> {
    map k | k in g :: size * g[k].installs
  }

  lemma InstallsScaled<K>(g: map<K, Agg>, size: nat)
    ensures Sum(FullNaive(g, size)) == size * Sum(Values(g, Installs))
  {
    SumScale(FullNaive(g, size), Values(g, Installs), size);
    hide Sum;
  }

  lemma GroupSizes<K>(rows: seq<Row>, key: Row -> K)
    ensures var g := GroupBy(rows, key);
      forall k :: k in g ==> 0 < g[k].installs && g[k].fileSize <= MaxSize(rows)
  {
    hide MaxSize, Clients;
    forall k | k in GroupBy(rows, key) {
      GroupSize(rows, key, k);
    }
  }

  /** Every group has seen the file at the size `size`. */
  ghost predicate AllOfSize<K>(g: map<K, Agg>, size: nat) {
    forall k :: k in g ==> g[k].fileSize == size
  }

  lemma NaiveBelow<K>(g: map<K, Agg>, size: nat)
    requires forall k :: k in g ==> 0 < g[k].installs && g[k].fileSize <= size
    ensures Sum(Values(g, Naive)) <= Sum(FullNaive(g, size))
    ensures Sum(Values(g, Naive)) == Sum(FullNaive(g, size)) <==> AllOfSize(g, size)
  {
    var full := FullNaive(g, size);
    forall k | k in g
      ensures Values(g, Naive)[k] <= full[k] && (Values(g, Naive)[k] == full[k] <==> g[k].fileSize == size)
    {
      Cancel(g[k].fileSize, size, g[k].installs);
    }
    SumMonotone(Values(g, Naive), full);
  }

  lemma Cancel(a: nat, b: nat, n: nat)
    requires a <= b && 0 < n
    ensures a * n <= b * n
    ensures a * n == b * n <==> a == b
  {}

  lemma GroupSize<K>(rows: seq<Row>, key: Row -> K, k: K)
    requires k in KeysOf(rows, key)
    ensures MaxSize(Having(rows, key, k)) <= MaxSize(rows)
    ensures 0 < |Clients(Having(rows, key, k), false)|
  {
    var r :| r in rows && key(r) == k;
    WhereMembers(rows, InGroup(key, k));
    assert r.ip in Clients(Having(rows, key, k), false);
    SizeOfSubset(Having(rows, key, k), rows);
  }

  lemma {:induction false} SizeOfSubset(some: seq<Row>, rows: seq<Row>)
    requires forall r :: r in some ==> r in rows
    ensures MaxSize(some) <= MaxSize(rows)
  {
    if some == [] {
    } else {
      var init, last := some[..|some| - 1], some[|some| - 1];
      SizeOfSubset(init, rows);
      assert last in some;
      SizeOfMember(rows, last);
    }
  }

  lemma {:induction false} SizeOfMember(rows: seq<Row>, r: Row)
    requires r in rows
    ensures r.size <= MaxSize(rows)
  {
    var init, last := rows[..|rows| - 1], rows[|rows| - 1];
    if r in init {
      SizeOfMember(init, r);
    } else {
      assert rows == init + [last];
    }
  }

  // ----- A finer grouping against the grouping by path

  /** The grouping's second component is the installer path. */
  ghost predicate RefinesPath<X>(rows: seq<Row>, fine: Row -> (X, string)) {
    forall r :: r in rows ==> fine(r).1 == r.path
  }

  /** A column of the finer grouping, added up per path. */
  ghost function ByPath<X>(w: seq<Row>, fine: Row -> (X, string), c: Column): map<string, nat> {
    map p | p in KeysOf(w, PathOf) :: Sum(Values(GroupBy(Having(w, PathOf, p), fine), c))
  }

  lemma FineTotal<X>(w: seq<Row>, fine: Row -> (X, string), c: Column)
    requires RefinesPath(w, fine)
    ensures Sum(Values(GroupBy(w, fine), c)) == Sum(ByPath(w, fine, c))
  {
    SumRegroup(Values(GroupBy(w, fine), c), Second);
    RegroupByPath(w, fine, c);
    hide *;
  }

  lemma RegroupByPath<X>(w: seq<Row>, fine: Row -> (X, string), c: Column)
    requires RefinesPath(w, fine)
    ensures Regroup(Values(GroupBy(w, fine), c), Second) == ByPath(w, fine, c)
  {
    hide Value, Aggregate, Having, Sum, Fiber;
    var values := Values(GroupBy(w, fine), c);
    assert (set k | k in values :: Second(k)) == KeysOf(w, PathOf) by {
      forall r | r in w
        ensures fine(r) in values && Second(fine(r)) == PathOf(r)
      {}
    }
    forall p | p in KeysOf(w, PathOf)
      ensures Fiber(values, Second, p) == Values(GroupBy(Having(w, PathOf, p), fine), c)
    {
      FiberOf(w, fine, Second, PathOf, p, c);
    }
  }

  /** Every delivery of a path reports the same installer size. */
  ghost predicate ConstantSize(w: seq<Row>) {
    forall r, t :: r in w && t in w && r.path == t.path ==> r.size == t.size
  }

  /** In every group of the finer grouping some delivery reported the full size of its path. */
  ghost predicate FullSizeInEvery<X>(w: seq<Row>, fine: Row -> (X, string)) {
    forall r :: r in w ==> FullSizeAt(w, fine, r)
  }

  predicate FullSizeAt<X(==)>(w: seq<Row>, fine: Row -> (X, string), r: Row) {
    MaxSize(Having(w, fine, fine(r))) == MaxSize(Having(w, PathOf, r.path))
  }

  /** A column of the grouping by path. */
  ghost function PathColumn(w: seq<Row>, c: Column): map<string, nat> {
    Values(GroupBy(w, PathOf), c)
  }

  lemma PathCounts<X>(w: seq<Row>, fine: Row -> (X, string), peer: bool, p: string)
    requires p in KeysOf(w, PathOf)
    ensures PathColumn(w, CountColumn(peer))[p] <= ByPath(w, fine, CountColumn(peer))[p]
    ensures ClientFixesPath(w, fine) ==>
      PathColumn(w, CountColumn(peer))[p] == ByPath(w, fine, CountColumn(peer))[p]
  {
    var some := Having(w, PathOf, p);
    WhereMembers(w, InGroup(PathOf, p));
    assert forall r :: r in some ==> r in w && r.path == p;
    assert ClientFixesPath(w, fine) ==> ClientFixes(some, fine);
    hide Having;
    GroupsCountPairs(some, fine, peer);
    PairsOfOnePath(some, fine, peer);
    AggregateValues(some);
    hide Sum, Clients, Pairs, ClientFixes, ClientFixesPath, Value;
  }

  /** Rows of the same client and path fall in the same group. */
  ghost predicate ClientFixesPath<X>(w: seq<Row>, fine: Row -> (X, string)) {
    forall r, t :: r in w && t in w && r.ip == t.ip && r.path == t.path ==> fine(r) == fine(t)
  }

  /** Whether every group of path `p` has seen the file at its full size. */
  ghost predicate FullSizeOn<X>(w: seq<Row>, fine: Row -> (X, string), p: string) {
    forall r :: r in w && r.path == p ==> FullSizeAt(w, fine, r)
  }

  lemma FullSizeGroups<X>(w: seq<Row>, fine: Row -> (X, string), p: string)
    requires RefinesPath(w, fine)
    ensures var some := Having(w, PathOf, p);
      FullSizeOn(w, fine, p) <==>
        forall k :: k in KeysOf(some, fine) ==> MaxSize(Having(some, fine, k)) == MaxSize(some)
  {
    hide MaxSize;
    var some := Having(w, PathOf, p);
    WhereMembers(w, InGroup(PathOf, p));
    assert forall r :: r in some <==> r in w && r.path == p;
    hide Having;
    forall r | r in w && r.path == p
      ensures fine(r) in KeysOf(some, fine) && Having(some, fine, fine(r)) == Having(w, fine, fine(r))
    {
      GroupIn(w, fine, Second, PathOf, p, fine(r));
      assert r in some;
    }
    forall k | k in KeysOf(some, fine)
      ensures exists r :: r in w && r.path == p && fine(r) == k
    {
      var r :| r in some && fine(r) == k;
      assert r in w && r.path == p;
    }
  }

  lemma PathNaive<X>(w: seq<Row>, fine: Row -> (X, string), p: string)
    requires RefinesPath(w, fine) && p in KeysOf(w, PathOf)
    ensures ClientFixesPath(w, fine) ==> ByPath(w, fine, Naive)[p] <= PathColumn(w, Naive)[p]
    ensures ClientFixesPath(w, fine) ==>
      (ByPath(w, fine, Naive)[p] == PathColumn(w, Naive)[p] <==> FullSizeOn(w, fine, p))
    ensures FullSizeOn(w, fine, p) ==> ByPath(w, fine, Naive)[p] >= PathColumn(w, Naive)[p]
  {
    NaiveExact(w, fine, p);
    PathCounts(w, fine, false, p);
    PathColumns(w, fine, p);
    ScaleMonotone(MaxSize(Having(w, PathOf, p)), PathColumn(w, Installs)[p], ByPath(w, fine, Installs)[p]);
    hide *;
  }

  /** The baseline of path `p` had every group seen the file at its full size. */
  ghost function FullOfPath<X>(w: seq<Row>, fine: Row -> (X, string), p: string): nat {
    Sum(FullNaive(GroupBy(Having(w, PathOf, p), fine), MaxSize(Having(w, PathOf, p))))
  }

  lemma NaiveExact<X>(w: seq<Row>, fine: Row -> (X, string), p: string)
    requires RefinesPath(w, fine) && p in KeysOf(w, PathOf)
    ensures ByPath(w, fine, Naive)[p] <= FullOfPath(w, fine, p)
    ensures ByPath(w, fine, Naive)[p] == FullOfPath(w, fine, p) <==> FullSizeOn(w, fine, p)
  {
    hide *;
    var some := Having(w, PathOf, p);
    ByPathAt(w, fine, p, Naive);
    FullOfPathIs(w, fine, p);
    GroupSizes(some, fine);
    NaiveBelow(GroupBy(some, fine), MaxSize(some));
    FullGroups(w, fine, p);
  }

  lemma FullGroups<X>(w: seq<Row>, fine: Row -> (X, string), p: string)
    requires RefinesPath(w, fine)
    ensures var some := Having(w, PathOf, p);
      FullSizeOn(w, fine, p) <==> AllOfSize(GroupBy(some, fine), MaxSize(some))
  {
    FullSizeGroups(w, fine, p);
    GroupFileSizes(Having(w, PathOf, p), fine);
    hide Having, MaxSize, GroupBy, KeysOf, FullSizeOn;
  }

  lemma ByPathAt<X>(w: seq<Row>, fine: Row -> (X, string), p: string, c: Column)
    requires p in KeysOf(w, PathOf)
    ensures p in ByPath(w, fine, c) && ByPath(w, fine, c)[p] == Sum(Values(GroupBy(Having(w, PathOf, p), fine), c))
  {
    hide Sum, Values, GroupBy, Having, KeysOf;
  }

  lemma FullOfPathIs<X>(w: seq<Row>, fine: Row -> (X, string), p: string)
    ensures var some := Having(w, PathOf, p);
      FullOfPath(w, fine, p) == Sum(FullNaive(GroupBy(some, fine), MaxSize(some)))
  {
    hide Sum, FullNaive, GroupBy, Having, MaxSize;
  }

  lemma ScaleMonotone(size: nat, a: nat, b: nat)
    requires a <= b
    ensures size * a <= size * b
  {}

  lemma PathColumns<X>(w: seq<Row>, fine: Row -> (X, string), p: string)
    requires p in KeysOf(w, PathOf)
    ensures var some := Having(w, PathOf, p);
      && PathColumn(w, Naive)[p] == MaxSize(some) * |Clients(some, false)|
      && PathColumn(w, Installs)[p] == |Clients(some, false)|
      && ByPath(w, fine, Naive)[p] == Sum(Values(GroupBy(some, fine), Naive))
      && ByPath(w, fine, Installs)[p] == Sum(Values(GroupBy(some, fine), Installs))
      && FullOfPath(w, fine, p) == MaxSize(some) * ByPath(w, fine, Installs)[p]
      && CountColumn(false) == Installs
  {
    hide Sum, Having, Clients, MaxSize;
    InstallsScaled(GroupBy(Having(w, PathOf, p), fine), MaxSize(Having(w, PathOf, p)));
  }

  lemma GroupFileSizes<K>(rows: seq<Row>, key: Row -> K)
    ensures forall k :: k in GroupBy(rows, key) <==> k in KeysOf(rows, key)
    ensures forall k :: k in GroupBy(rows, key) ==> GroupBy(rows, key)[k].fileSize == MaxSize(Having(rows, key, k))
  {}

  lemma SameSizeIsFull<X>(w: seq<Row>, fine: Row -> (X, string))
    requires RefinesPath(w, fine) && ConstantSize(w)
    ensures FullSizeInEvery(w, fine)
  {
    forall r | r in w
      ensures FullSizeAt(w, fine, r)
    {
      SameSizeAt(w, fine, r);
    }
  }

  lemma SameSizeAt<X>(w: seq<Row>, fine: Row -> (X, string), r: Row)
    requires RefinesPath(w, fine) && ConstantSize(w) && r in w
    ensures FullSizeAt(w, fine, r)
  {
    var group, some := Having(w, fine, fine(r)), Having(w, PathOf, r.path);
    WhereMembers(w, InGroup(fine, fine(r)));
    WhereMembers(w, InGroup(PathOf, r.path));
    forall t | t in group
      ensures t.size == r.size
    {
      assert t in w && fine(t).1 == fine(r).1;
      assert fine(t).1 == t.path && fine(r).1 == r.path;
    }
    forall t | t in some
      ensures t.size == r.size
    {
      assert t in w && PathOf(t) == r.path;
    }
    assert r in group && r in some;
    hide Having, Where;
    UniformSize(group, r);
    UniformSize(some, r);
  }

  lemma UniformSize(rows: seq<Row>, r: Row)
    requires r in rows && forall t :: t in rows ==> t.size == r.size
    ensures MaxSize(rows) == r.size
  {
    SizeOfMember(rows, r);
    AtMostSize(rows, r.size);
  }

  lemma {:induction false} AtMostSize(rows: seq<Row>, size: nat)
    requires forall t :: t in rows ==> t.size <= size
    ensures MaxSize(rows) <= size
  {
    if rows == [] {
    } else {
      assert rows[|rows| - 1] in rows;
      AtMostSize(rows[..|rows| - 1], size);
    }
  }

  // ----- The views agree

  /** The three per-path facts, added up over the paths. */
  lemma TwoLevelTotals<X>(w: seq<Row>, fine: Row -> (X, string))
    requires RefinesPath(w, fine)
    ensures forall peer :: Sum(PathColumn(w, CountColumn(peer))) <= Sum(Values(GroupBy(w, fine), CountColumn(peer)))
    ensures Sum(PathColumn(w, Egress)) == Sum(Values(GroupBy(w, fine), Egress))
    ensures ClientFixesPath(w, fine) ==>
      forall peer :: Sum(PathColumn(w, CountColumn(peer))) == Sum(Values(GroupBy(w, fine), CountColumn(peer)))
    ensures ClientFixesPath(w, fine) ==> Sum(Values(GroupBy(w, fine), Naive)) <= Sum(PathColumn(w, Naive))
    ensures ClientFixesPath(w, fine) ==>
      (Sum(Values(GroupBy(w, fine), Naive)) == Sum(PathColumn(w, Naive)) <==> FullSizeInEvery(w, fine))
    ensures FullSizeInEvery(w, fine) ==> Sum(Values(GroupBy(w, fine), Naive)) >= Sum(PathColumn(w, Naive))
  {
    forall peer {
      CountTotals(w, fine, peer);
    }
    GroupsKeepEgress(w, PathOf);
    GroupsKeepEgress(w, fine);
    NaiveTotals(w, fine);
    hide *;
  }

  lemma CountTotals<X>(w: seq<Row>, fine: Row -> (X, string), peer: bool)
    requires RefinesPath(w, fine)
    ensures Sum(PathColumn(w, CountColumn(peer))) <= Sum(Values(GroupBy(w, fine), CountColumn(peer)))
    ensures ClientFixesPath(w, fine) ==>
      Sum(PathColumn(w, CountColumn(peer))) == Sum(Values(GroupBy(w, fine), CountColumn(peer)))
  {
    var c := CountColumn(peer);
    FineTotal(w, fine, c);
    forall p | p in KeysOf(w, PathOf) {
      PathCounts(w, fine, peer, p);
    }
    ColumnKeys(w, fine, c);
    hide *;
    var a, b := PathColumn(w, c), ByPath(w, fine, c);
    if ClientFixesPath(w, fine) {
      assert a == b;
    }
    SumMonotone(a, b);
  }

  lemma ColumnKeys<X>(w: seq<Row>, fine: Row -> (X, string), c: Column)
    ensures PathColumn(w, c).Keys == ByPath(w, fine, c).Keys == KeysOf(w, PathOf)
  {}

  lemma NaiveTotals<X>(w: seq<Row>, fine: Row -> (X, string))
    requires RefinesPath(w, fine)
    ensures ClientFixesPath(w, fine) ==> Sum(Values(GroupBy(w, fine), Naive)) <= Sum(PathColumn(w, Naive))
    ensures ClientFixesPath(w, fine) ==>
      (Sum(Values(GroupBy(w, fine), Naive)) == Sum(PathColumn(w, Naive)) <==> FullSizeInEvery(w, fine))
    ensures FullSizeInEvery(w, fine) ==> Sum(Values(GroupBy(w, fine), Naive)) >= Sum(PathColumn(w, Naive))
  {
    FineTotal(w, fine, Naive);
    forall p | p in KeysOf(w, PathOf) {
      PathNaive(w, fine, p);
    }
    ColumnKeys(w, fine, Naive);
    assert FullSizeInEvery(w, fine) <==> forall p :: p in KeysOf(w, PathOf) ==> FullSizeOn(w, fine, p) by {
      forall r | r in w ensures PathOf(r) in KeysOf(w, PathOf) {}
    }
    hide Sum, ByPath, PathColumn, FullSizeInEvery, FullSizeOn, KeysOf;
    var fineCol, pathCol := ByPath(w, fine, Naive), PathColumn(w, Naive);
    if ClientFixesPath(w, fine) {
      SumMonotone(fineCol, pathCol);
    }
    if FullSizeInEvery(w, fine) {
      SumMonotone(pathCol, fineCol);
    }
  }
}
