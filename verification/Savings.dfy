/** When the Bandwidth views show nothing as saved, and where they show savings that did not happen. */
module Savings {
  import opened Ledger
  import opened LedgerRuns
  import opened Tally
  import opened Dashboard
  import opened DashboardLaws
  import opened Views

  // ----- One group

  /** Every client of these rows pulled at least `size` bytes. */
  ghost predicate AllAtLeast(some: seq<Row>, size: nat) {
    forall ip :: ip in KeysOf(some, IpOf) ==> Sent(Having(some, IpOf, ip)) >= size
  }

  ghost predicate AllAtMost(some: seq<Row>, size: nat) {
    forall ip :: ip in KeysOf(some, IpOf) ==> Sent(Having(some, IpOf, ip)) <= size
  }

  /** In group `k` every client pulled at least the whole file. */
  ghost predicate PulledInFull<K>(w: seq<Row>, key: Row -> K, k: K) {
    AllAtLeast(Having(w, key, k), MaxSize(Having(w, key, k)))
  }

  /** In group `k` no client pulled more than the whole file. */
  ghost predicate PulledOnce<K>(w: seq<Row>, key: Row -> K, k: K) {
    AllAtMost(Having(w, key, k), MaxSize(Having(w, key, k)))
  }

  ghost predicate AllPulledInFull<K>(w: seq<Row>, key: Row -> K) {
    forall k :: k in KeysOf(w, key) ==> PulledInFull(w, key, k)
  }

  ghost predicate AllPulledOnce<K>(w: seq<Row>, key: Row -> K) {
    forall k :: k in KeysOf(w, key) ==> PulledOnce(w, key, k)
  }

  ghost function Constant<K>(s: set<K>, c: nat): map<K, nat> {
    map k | k in s :: c
  }

  lemma {:induction false} SumConstant<K>(s: set<K>, c: nat)
    ensures Sum(Constant(s, c)) == c * |s|
  {
    if s == {} {
      assert Constant(s, c) == map[];
    } else {
      var k :| k in s;
      SumRemove(Constant(s, c), k);
      assert Constant(s, c) - {k} == Constant(s - {k}, c);
      SumConstant(s - {k}, c);
      assert c * |s| == c + c * |s - {k}|;
    }
  }

  /** The egress of each client. */
  ghost function PerClient(some: seq<Row>): map<string, nat> {
    Values(GroupBy(some, IpOf), Egress)
  }

  lemma PerClientAt(some: seq<Row>)
    ensures PerClient(some).Keys == KeysOf(some, IpOf)
    ensures forall ip :: ip in PerClient(some) ==> PerClient(some)[ip] == Sent(Having(some, IpOf, ip))
  {
    hide Having, KeysOf, Sent;
  }

  /** The egress of a group against that of one full pull for each of its clients. */
  lemma ClientTotals(some: seq<Row>, size: nat)
    ensures AllAtLeast(some, size) ==> size * |KeysOf(some, IpOf)| <= Sent(some)
    ensures AllAtMost(some, size) ==> Sent(some) <= size * |KeysOf(some, IpOf)|
    ensures AllAtMost(some, size) ==>
      (Sent(some) == size * |KeysOf(some, IpOf)| <==> AllAtLeast(some, size))
  {
    var sent, full := PerClient(some), Constant(KeysOf(some, IpOf), size);
    GroupsKeepEgress(some, IpOf);
    PerClientAt(some);
    SumConstant(KeysOf(some, IpOf), size);
    hide Sum, Having, KeysOf, Sent, GroupBy, Values;
    if AllAtLeast(some, size) {
      SumMonotone(full, sent);
    }
    if AllAtMost(some, size) {
      SumMonotone(sent, full);
      assert sent == full ==> AllAtLeast(some, size);
      assert AllAtLeast(some, size) ==> sent == full;
    }
  }

  /** The egress of a group against its baseline. */
  lemma GroupCovered<K>(w: seq<Row>, key: Row -> K, k: K)
    ensures var a := Aggregate(Having(w, key, k));
      && (PulledInFull(w, key, k) ==> Value(a, Naive) <= Value(a, Egress))
      && (PulledOnce(w, key, k) ==> Value(a, Egress) <= Value(a, Naive))
      && (PulledOnce(w, key, k) ==> (Value(a, Egress) == Value(a, Naive) <==> PulledInFull(w, key, k)))
  {
    var some := Having(w, key, k);
    ClientTotals(some, MaxSize(some));
    AggregateValues(some);
    ClientsAreKeys(some);
    hide Having, Sent, MaxSize, Clients, KeysOf, Value, Aggregate, AllAtLeast, AllAtMost;
  }

  lemma ClientsAreKeys(some: seq<Row>)
    ensures Clients(some, false) == KeysOf(some, IpOf)
  {}

  // ----- Views

  ghost predicate NothingSavedIn<X>(view: map<X, ViewRow>) {
    forall x :: x in view ==> view[x].saved == 0
  }

  lemma ClampedAway(naive: nat, actual: nat)
    ensures ClampSaved(naive, actual) == 0 <==> naive <= actual
  {}

  /** The baseline, or the egress, of the groups that make up one row of a two-level view. */
  ghost function RowGroups<X>(w: seq<Row>, fine: Row -> (X, string), c: Column, x: X): map<(X, string), nat> {
    Fiber(Values(GroupBy(w, fine), c), First, x)
  }

  lemma RowGroupsAt<X>(w: seq<Row>, fine: Row -> (X, string), c: Column, x: X, k: (X, string))
    ensures k in RowGroups(w, fine, c, x) <==> k in KeysOf(w, fine) && k.0 == x
    ensures k in RowGroups(w, fine, c, x) ==> RowGroups(w, fine, c, x)[k] == Value(Aggregate(Having(w, fine, k)), c)
  {
    ColumnAt(w, fine, c, k);
    hide Having, Value, Aggregate, KeysOf, GroupBy, Values;
  }

  lemma RowGroupKeys<X>(w: seq<Row>, fine: Row -> (X, string), x: X)
    ensures RowGroups(w, fine, Naive, x).Keys == RowGroups(w, fine, Egress, x).Keys
  {
    forall k: (X, string) | k in RowGroups(w, fine, Naive, x).Keys + RowGroups(w, fine, Egress, x).Keys
      ensures k in RowGroups(w, fine, Naive, x).Keys && k in RowGroups(w, fine, Egress, x).Keys
    {
      RowGroupsAt(w, fine, Naive, x, k);
      RowGroupsAt(w, fine, Egress, x, k);
    }
    hide RowGroups;
  }

  lemma RowSaved<X>(rows: seq<Row>, cutoff: nat, fine: Row -> (X, string), x: X)
    requires x in PerGroup(rows, cutoff, fine)
    ensures var w := Window(rows, cutoff);
      PerGroup(rows, cutoff, fine)[x].saved
      == ClampSaved(Sum(RowGroups(w, fine, Naive, x)), Sum(RowGroups(w, fine, Egress, x)))
  {
    hide Sum, Fiber, Values, Window, Having, Aggregate, KeysOf;
  }

  lemma RowFrom<X>(rows: seq<Row>, cutoff: nat, fine: Row -> (X, string), x: X) returns (k: (X, string))
    requires x in PerGroup(rows, cutoff, fine)
    ensures k in KeysOf(Window(rows, cutoff), fine) && k.0 == x
  {
    hide Sum, Fiber, Values, Window, Having, Aggregate, KeysOf, GroupRow;
    k :| k in GroupBy(Window(rows, cutoff), fine) && First(k) == x;
  }

  lemma RowOf<X>(rows: seq<Row>, cutoff: nat, fine: Row -> (X, string), k: (X, string))
    requires k in KeysOf(Window(rows, cutoff), fine)
    ensures k.0 in PerGroup(rows, cutoff, fine)
  {
    assert k in GroupBy(Window(rows, cutoff), fine) && First(k) == k.0;
    hide Sum, Fiber, Values, Window, Having, Aggregate, KeysOf, GroupRow;
  }

  /** Where every client of every group pulled the whole file, no row shows a saving. */
  lemma RowCovered<X>(w: seq<Row>, fine: Row -> (X, string), x: X)
    requires AllPulledInFull(w, fine)
    ensures Sum(RowGroups(w, fine, Naive, x)) <= Sum(RowGroups(w, fine, Egress, x))
  {
    var naive, actual := RowGroups(w, fine, Naive, x), RowGroups(w, fine, Egress, x);
    RowGroupKeys(w, fine, x);
    hide RowGroups, Having, Value, Aggregate, KeysOf, PulledInFull, PulledOnce;
    forall k | k in naive
      ensures naive[k] <= actual[k]
    {
      RowGroupsAt(w, fine, Naive, x, k);
      RowGroupsAt(w, fine, Egress, x, k);
      GroupCovered(w, fine, k);
    }
    SumMonotone(naive, actual);
  }

  lemma NoSavingsPerGroup<X>(rows: seq<Row>, cutoff: nat, fine: Row -> (X, string))
    requires AllPulledInFull(Window(rows, cutoff), fine)
    ensures NothingSavedIn(PerGroup(rows, cutoff, fine))
  {
    var w, view := Window(rows, cutoff), PerGroup(rows, cutoff, fine);
    forall x | x in view
      ensures view[x].saved == 0
    {
      hide *;
      RowSaved(rows, cutoff, fine, x);
      RowCovered(w, fine, x);
      ClampedAway(Sum(RowGroups(w, fine, Naive, x)), Sum(RowGroups(w, fine, Egress, x)));
    }
    hide PerGroup, AllPulledInFull, Window;
  }

  /** Where no client pulled more than the whole file, a row without a saving means that all pulled it whole. */
  lemma RowExact<X>(w: seq<Row>, fine: Row -> (X, string), k: (X, string))
    requires AllPulledOnce(w, fine) && k in KeysOf(w, fine)
    requires Sum(RowGroups(w, fine, Naive, k.0)) <= Sum(RowGroups(w, fine, Egress, k.0))
    ensures PulledInFull(w, fine, k)
  {
    var naive, actual := RowGroups(w, fine, Naive, k.0), RowGroups(w, fine, Egress, k.0);
    RowGroupKeys(w, fine, k.0);
    hide RowGroups, Having, Value, Aggregate, KeysOf, PulledInFull, PulledOnce;
    forall j | j in actual
      ensures actual[j] <= naive[j]
    {
      RowGroupsAt(w, fine, Naive, k.0, j);
      RowGroupsAt(w, fine, Egress, k.0, j);
      GroupCovered(w, fine, j);
    }
    SumMonotone(actual, naive);
    RowGroupsAt(w, fine, Naive, k.0, k);
    RowGroupsAt(w, fine, Egress, k.0, k);
    GroupCovered(w, fine, k);
  }

  lemma SavingsPerGroupIff<X>(rows: seq<Row>, cutoff: nat, fine: Row -> (X, string))
    requires AllPulledOnce(Window(rows, cutoff), fine)
    ensures NothingSavedIn(PerGroup(rows, cutoff, fine)) <==> AllPulledInFull(Window(rows, cutoff), fine)
  {
    var w, view := Window(rows, cutoff), PerGroup(rows, cutoff, fine);
    if AllPulledInFull(w, fine) {
      NoSavingsPerGroup(rows, cutoff, fine);
    }
    hide PerGroup, Window, KeysOf, PulledInFull, PulledOnce, RowGroups, Sum;
    if NothingSavedIn(view) {
      forall k | k in KeysOf(w, fine)
        ensures PulledInFull(w, fine, k)
      {
        RowOf(rows, cutoff, fine, k);
        RowSaved(rows, cutoff, fine, k.0);
        ClampedAway(Sum(RowGroups(w, fine, Naive, k.0)), Sum(RowGroups(w, fine, Egress, k.0)));
        RowExact(w, fine, k);
      }
    }
  }

  // ----- All clients pulled from the server

  /** A client's pulls of a path all fall in one group of a grouping that its address and the path determine. */
  lemma SamePulls<X>(w: seq<Row>, fine: Row -> (X, string), k: (X, string), ip: string)
    requires RefinesPath(w, fine) && ClientFixesPath(w, fine) && ip in KeysOf(Having(w, fine, k), IpOf)
    ensures Having(Having(w, fine, k), IpOf, ip) == Having(Having(w, PathOf, k.1), IpOf, ip)
    ensures ip in KeysOf(Having(w, PathOf, k.1), IpOf)
  {
    WhereMembers(w, InGroup(fine, k));
    WhereMembers(w, InGroup(PathOf, k.1));
    var t :| t in Having(w, fine, k) && t.ip == ip;
    assert t in w && fine(t) == k && t.path == k.1 && t in Having(w, PathOf, k.1);
    SameFilter(w, InGroup(fine, k), InGroup(PathOf, k.1), InGroup(IpOf, ip));
  }

  /** Two filters that agree on the rows a third keeps. */
  lemma {:induction false} SameFilter(rows: seq<Row>, p: Row -> bool, q: Row -> bool, keep: Row -> bool)
    requires forall r :: r in rows && keep(r) ==> p(r) == q(r)
    ensures Where(Where(rows, p), keep) == Where(Where(rows, q), keep)
  {
    if rows == [] {
    } else {
      var init, last := rows[..|rows| - 1], rows[|rows| - 1];
      assert rows == init + [last] && last in rows;
      SameFilter(init, p, q, keep);
      WhereSnoc(init, last, p);
      WhereSnoc(init, last, q);
      WhereSnoc(Where(init, p), last, keep);
      WhereSnoc(Where(init, q), last, keep);
      hide Where;
    }
  }

  lemma FullInFiner<X>(w: seq<Row>, fine: Row -> (X, string))
    requires RefinesPath(w, fine) && ClientFixesPath(w, fine) && AllPulledInFull(w, PathOf)
    ensures AllPulledInFull(w, fine)
  {
    forall k | k in KeysOf(w, fine)
      ensures PulledInFull(w, fine, k)
    {
      var t :| t in w && fine(t) == k;
      assert t.path == k.1 && k.1 in KeysOf(w, PathOf);
      hide Having, KeysOf, RefinesPath, ClientFixesPath;
      FullAtFiner(w, fine, k);
    }
  }

  lemma FullAtFiner<X>(w: seq<Row>, fine: Row -> (X, string), k: (X, string))
    requires RefinesPath(w, fine) && ClientFixesPath(w, fine) && PulledInFull(w, PathOf, k.1)
    ensures PulledInFull(w, fine, k)
  {
    hide *;
    var part, some := Having(w, fine, k), Having(w, PathOf, k.1);
    PartOfPath(w, fine, k);
    forall ip | ip in KeysOf(part, IpOf)
      ensures Sent(Having(part, IpOf, ip)) >= MaxSize(part)
    {
      SamePulls(w, fine, k, ip);
      ClientInFull(w, PathOf, k.1, ip);
    }
    EachInFull(w, fine, k);
  }

  lemma PartOfPath<X>(w: seq<Row>, fine: Row -> (X, string), k: (X, string))
    requires RefinesPath(w, fine)
    ensures MaxSize(Having(w, fine, k)) <= MaxSize(Having(w, PathOf, k.1))
  {
    WhereMembers(w, InGroup(fine, k));
    WhereMembers(w, InGroup(PathOf, k.1));
    SizeOfSubset(Having(w, fine, k), Having(w, PathOf, k.1));
    hide MaxSize;
  }

  lemma ClientInFull<K>(w: seq<Row>, key: Row -> K, k: K, ip: string)
    requires PulledInFull(w, key, k) && ip in KeysOf(Having(w, key, k), IpOf)
    ensures Sent(Having(Having(w, key, k), IpOf, ip)) >= MaxSize(Having(w, key, k))
  {
    hide KeysOf, Having, Sent, MaxSize;
  }

  lemma EachInFull<K>(w: seq<Row>, key: Row -> K, k: K)
    requires forall ip :: ip in KeysOf(Having(w, key, k), IpOf) ==>
      Sent(Having(Having(w, key, k), IpOf, ip)) >= MaxSize(Having(w, key, k))
    ensures PulledInFull(w, key, k)
  {
    hide KeysOf, Having, Sent, MaxSize;
  }

  /** When every device pulled every file from the server, nothing is shown as saved, in total, per installer or, with
      the subnets that the server files, per subnet. */
  lemma NoPeersNoSavings(rows: seq<Row>, cutoff: nat)
    requires AllPulledInFull(Window(rows, cutoff), PathOf)
    ensures Headline(rows, cutoff).saved == 0 && SavingsRatio(Headline(rows, cutoff)) == 0.0
    ensures NothingSavedIn(Installers(rows, cutoff))
    ensures SubnetFixedByIp(rows) ==> NothingSavedIn(Subnets(rows, cutoff))
  {
    var w := Window(rows, cutoff);
    PathsCovered(w);
    InstallerSaved(rows, cutoff);
    HeadlineSaved(rows, cutoff);
    if SubnetFixedByIp(rows) {
      SubnetGrouping(rows, cutoff);
      FullInFiner(w, SubnetPath);
      NoSavingsPerGroup(rows, cutoff, SubnetPath);
      hide *;
    }
    hide Window, Sum, Headline, Installers, PathColumn, AllPulledInFull, KeysOf;
    SumMonotone(PathColumn(w, Naive), PathColumn(w, Egress));
    NothingSaved(Headline(rows, cutoff));
  }

  lemma PathsCovered(w: seq<Row>)
    requires AllPulledInFull(w, PathOf)
    ensures PathColumn(w, Naive).Keys == PathColumn(w, Egress).Keys == KeysOf(w, PathOf)
    ensures forall p :: p in KeysOf(w, PathOf) ==> PathColumn(w, Naive)[p] <= PathColumn(w, Egress)[p]
  {
    forall p | p in KeysOf(w, PathOf)
      ensures PathColumn(w, Naive)[p] <= PathColumn(w, Egress)[p]
    {
      GroupCovered(w, PathOf, p);
      hide Having, Aggregate, Value, PulledInFull, PulledOnce, KeysOf;
    }
    hide Having, Aggregate, Value, KeysOf;
  }

  // ----- Days

  /** Per day nothing is shown as saved where every client pulled the whole file on each day it appears; and only then,
      unless some client pulled more than the whole on one day, which can make up for another. */
  lemma NoDailySavingsIff(rows: seq<Row>, cutoff: nat)
    ensures var w := Window(rows, cutoff);
      && (AllPulledInFull(w, DayPath) ==> NothingSavedIn(Days(rows, cutoff)))
      && (AllPulledOnce(w, DayPath) ==> (NothingSavedIn(Days(rows, cutoff)) <==> AllPulledInFull(w, DayPath)))
  {
    hide Window, PerGroup, AllPulledInFull, AllPulledOnce;
    var w := Window(rows, cutoff);
    if AllPulledInFull(w, DayPath) {
      NoSavingsPerGroup(rows, cutoff, DayPath);
    }
    if AllPulledOnce(w, DayPath) {
      SavingsPerGroupIff(rows, cutoff, DayPath);
    }
  }

  /** One client's download of a whole file in two pieces. */
  predicate TwoPieces(a: Row, b: Row) {
    && Delivers(a) && Delivers(b) && a.ip == b.ip && a.subnet == b.subnet && a.path == b.path && a.size == b.size
    && a.sent + b.sent == a.size
  }

  /** Around midnight such a download shows savings that did not happen: on each day what the other day sent, in all the
      size of the file, while the headline shows none. */
  lemma MidnightSavings(a: Row, b: Row, cutoff: nat)
    requires TwoPieces(a, b) && cutoff <= a.ts && cutoff <= b.ts && DayOf(a.ts) != DayOf(b.ts)
    ensures var days := Days([a, b], cutoff);
      && days.Keys == {DayOf(a.ts), DayOf(b.ts)}
      && days[DayOf(a.ts)].saved == b.sent && days[DayOf(b.ts)].saved == a.sent
    ensures Headline([a, b], cutoff).saved == 0
  {
    hide *;
    BothInWindow(a, b, cutoff);
    TwoDays(a, b, cutoff);
    DaySaved(a, b, cutoff, a, b.sent);
    DaySaved(a, b, cutoff, b, a.sent);
    PulledTogether(a, b);
    NoPeersNoSavings([a, b], cutoff);
  }

  lemma BothInWindow(a: Row, b: Row, cutoff: nat)
    requires TwoPieces(a, b) && cutoff <= a.ts && cutoff <= b.ts
    ensures Window([a, b], cutoff) == [a, b]
    ensures a.size == a.sent + b.sent && b.size == b.sent + a.sent
  {
    WhereSnoc([], a, DeliveredSince(cutoff));
    WhereSnoc([a], b, DeliveredSince(cutoff));
    assert [] + [a] == [a] && [a] + [b] == [a, b];
  }

  lemma TwoDays(a: Row, b: Row, cutoff: nat)
    requires Window([a, b], cutoff) == [a, b]
    ensures Days([a, b], cutoff).Keys == {DayOf(a.ts), DayOf(b.ts)}
  {
    TwoKeys(a, b);
    hide KeysOf, Window, PerGroup;
    RowOf([a, b], cutoff, DayPath, DayPath(a));
    RowOf([a, b], cutoff, DayPath, DayPath(b));
    forall x | x in Days([a, b], cutoff)
      ensures x == DayOf(a.ts) || x == DayOf(b.ts)
    {
      var k := RowFrom([a, b], cutoff, DayPath, x);
    }
  }

  lemma TwoKeys(a: Row, b: Row)
    ensures KeysOf([a, b], DayPath) == {DayPath(a), DayPath(b)}
  {
    assert [a, b][0] == a && [a, b][1] == b;
  }

  /** One of the two days. */
  lemma DaySaved(a: Row, b: Row, cutoff: nat, one: Row, other: nat)
    requires Window([a, b], cutoff) == [a, b] && DayOf(a.ts) != DayOf(b.ts) && (one == a || one == b)
    requires DayOf(one.ts) in Days([a, b], cutoff) && one.size == one.sent + other
    ensures Days([a, b], cutoff)[DayOf(one.ts)].saved == other
  {
    var k := DayPath(one);
    assert k.0 == DayOf(one.ts);
    hide *;
    RowSaved([a, b], cutoff, DayPath, k.0);
    AloneThatDay(a, b, one, Naive);
    AloneThatDay(a, b, one, Egress);
    OneRow(one);
    ClampedRest(one.size, one.sent, other);
  }

  lemma ClampedRest(naive: nat, actual: nat, rest: nat)
    requires naive == actual + rest
    ensures ClampSaved(naive, actual) == rest
  {}

  lemma OneRow(r: Row)
    ensures Value(Aggregate([r]), Naive) == r.size && Value(Aggregate([r]), Egress) == r.sent
  {
    Snoc([], r);
    assert [] + [r] == [r] && Clients([r], false) == {r.ip};
  }

  lemma AloneThatDay(a: Row, b: Row, one: Row, c: Column)
    requires DayOf(a.ts) != DayOf(b.ts) && (one == a || one == b)
    ensures Sum(RowGroups([a, b], DayPath, c, DayOf(one.ts))) == Value(Aggregate([one]), c)
  {
    hide *;
    var k, row := DayPath(one), RowGroups([a, b], DayPath, c, DayOf(one.ts));
    OneOfTwo(a, b, one);
    forall j: (nat, string)
      ensures j in row.Keys <==> j == k
    {
      OneKey(a, b, one, j);
      RowGroupsAt([a, b], DayPath, c, DayOf(one.ts), j);
    }
    RowGroupsAt([a, b], DayPath, c, DayOf(one.ts), k);
    SumOfOne(row, k);
  }

  lemma OneKey(a: Row, b: Row, one: Row, j: (nat, string))
    requires DayOf(a.ts) != DayOf(b.ts) && (one == a || one == b)
    ensures j in KeysOf([a, b], DayPath) && j.0 == DayOf(one.ts) <==> j == DayPath(one)
  {
    TwoKeys(a, b);
    hide KeysOf, DayOf;
  }

  lemma OneOfTwo(a: Row, b: Row, one: Row)
    requires DayOf(a.ts) != DayOf(b.ts) && (one == a || one == b)
    ensures Having([a, b], DayPath, DayPath(one)) == [one]
  {
    var p := InGroup(DayPath, DayPath(one));
    assert p(a) <==> one == a;
    assert p(b) <==> one == b;
    WhereTwo(a, b, p);
    hide InGroup, DayOf, Where;
  }

  lemma WhereTwo(a: Row, b: Row, p: Row -> bool)
    ensures p(a) && !p(b) ==> Where([a, b], p) == [a]
    ensures !p(a) && p(b) ==> Where([a, b], p) == [b]
  {
    assert [] + [a] == [a] && [a] + [b] == [a, b] && [] + [b] == [b] && Where([], p) == [];
    hide Where;
    WhereSnoc([], a, p);
    WhereSnoc([a], b, p);
  }

  lemma PulledTogether(a: Row, b: Row)
    requires TwoPieces(a, b)
    ensures AllPulledInFull([a, b], PathOf)
  {
    WhereSnoc([], a, InGroup(PathOf, a.path));
    WhereSnoc([a], b, InGroup(PathOf, a.path));
    WhereSnoc([], a, InGroup(IpOf, a.ip));
    WhereSnoc([a], b, InGroup(IpOf, a.ip));
    assert [] + [a] == [a] && [a] + [b] == [a, b];
    assert Having([a, b], PathOf, a.path) == [a, b] == Having([a, b], IpOf, a.ip);
    Snoc([], a);
    Snoc([a], b);
    assert forall r :: r in [a, b] ==> r.path == a.path && r.ip == a.ip;
    hide Where, Sent, MaxSize;
  }
}
