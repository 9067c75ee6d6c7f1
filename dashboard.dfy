/** The dashboard page (client/src/pages/Dashboard.tsx): the period filter
    on sales, the financial summary, the payment-status chart, the sales
    series per day and the top-5 client ranking. */
module Dashboard {
  import opened Wrappers
  import opened Schema
  import opened Calendar
  import opened Seqs
  import opened Grouping
  import opened ExportFilter

  // ---------------------------------------------------------------------
  // Period filter
  // ---------------------------------------------------------------------

  /** `filteredSales`: a start day keeps sales from its midnight on, an end
      day keeps sales up to its last millisecond; each applies only when
      given. */
  function FilteredSales(sales: seq<Sale>, startDay: Option<int>, endDay: Option<int>): seq<Sale>
  {
    var byStart := if startDay.Some? then Filter(sales, (s: Sale) => s.date >= StartOfDay(startDay.value)) else sales;
    if endDay.Some? then Filter(byStart, (s: Sale) => s.date <= EndOfDay(endDay.value)) else byStart
  }

  /** The filter keeps, in input order, exactly the sales inside the period
      (both ends inclusive, in whole days). */
  lemma FilteredSalesIsFilter(sales: seq<Sale>, startDay: Option<int>, endDay: Option<int>)
    ensures FilteredSales(sales, startDay, endDay) == Filter(sales, (s: Sale) => InPeriod(Filters(startDay, endDay, None), s.date))
  {
    var f := Filters(startDay, endDay, None);
    var p1 := (s: Sale) => startDay.None? || s.date >= StartOfDay(startDay.value);
    var p2 := (s: Sale) => endDay.None? || s.date <= EndOfDay(endDay.value);
    var byStart := if startDay.Some? then Filter(sales, (s: Sale) => s.date >= StartOfDay(startDay.value)) else sales;
    assert byStart == Filter(sales, p1) by {
      if startDay.Some? {
        FilterSame(sales, (s: Sale) => s.date >= StartOfDay(startDay.value), p1);
      } else {
        FilterAll(sales, p1);
      }
    }
    var byEnd := if endDay.Some? then Filter(byStart, (s: Sale) => s.date <= EndOfDay(endDay.value)) else byStart;
    assert byEnd == Filter(byStart, p2) by {
      if endDay.Some? {
        FilterSame(byStart, (s: Sale) => s.date <= EndOfDay(endDay.value), p2);
      } else {
        FilterAll(byStart, p2);
      }
    }
    FilterFilter(sales, p1, p2, (s: Sale) => InPeriod(f, s.date));
  }

  // ---------------------------------------------------------------------
  // Summary
  // ---------------------------------------------------------------------

  function SaleTotal(s: Sale): int
  {
    s.total
  }

  function RowAmount(r: InstallmentRow): int
  {
    r.inst.amount
  }

  /** Stored pending and due before today. */
  predicate OverdueRow(today: int, r: InstallmentRow)
  {
    r.inst.status == Pending && DayOf(r.inst.dueDate) < today
  }

  /** Stored pending and due between today and seven days later, both
      included. */
  predicate UpcomingRow(today: int, r: InstallmentRow)
  {
    r.inst.status == Pending && today <= DayOf(r.inst.dueDate) <= today + 7
  }

  datatype Summary = Summary(
    totalRevenue: int,
    totalSales: int,
    totalReceivable: int,
    totalPaid: int,
    totalPending: int,
    totalOverdue: int,
    paidInstallments: int,
    pendingInstallments: int,
    upcoming: seq<InstallmentRow>,
    overdue: seq<InstallmentRow>)

  /** `summary`: revenue and count over the filtered sales; every
      installment figure over all installments. */
  function Summarize(filtered: seq<Sale>, rows: seq<InstallmentRow>, today: int): Summary
  {
    var overdue := Filter(rows, (r: InstallmentRow) => OverdueRow(today, r));
    Summary(
      SumBy(filtered, SaleTotal),
      |filtered|,
      SumBy(rows, RowAmount),
      SumBy(Filter(rows, (r: InstallmentRow) => r.inst.status == Paid), RowAmount),
      SumBy(Filter(rows, (r: InstallmentRow) => r.inst.status == Pending), RowAmount),
      SumBy(overdue, RowAmount),
      Count(rows, (r: InstallmentRow) => r.inst.status == Paid),
      Count(rows, (r: InstallmentRow) => r.inst.status == Pending),
      Filter(rows, (r: InstallmentRow) => UpcomingRow(today, r)),
      overdue)
  }

  /** The installment figures do not depend on the sales period. */
  lemma SummaryIgnoresPeriod(a: seq<Sale>, b: seq<Sale>, rows: seq<InstallmentRow>, today: int)
    ensures var x := Summarize(a, rows, today);
      var y := Summarize(b, rows, today);
      x.(totalRevenue := 0, totalSales := 0) == y.(totalRevenue := 0, totalSales := 0)
  {
  }

  /** The upcoming and overdue lists hold exactly the rows in their windows,
      and no row is in both. */
  lemma SummaryWindows(filtered: seq<Sale>, rows: seq<InstallmentRow>, today: int)
    ensures var s := Summarize(filtered, rows, today);
      (forall r :: r in s.upcoming <==> r in rows && UpcomingRow(today, r)) &&
      (forall r :: r in s.overdue <==> r in rows && OverdueRow(today, r)) &&
      (forall r :: r in s.upcoming ==> r !in s.overdue)
  {
  }

  /** Paid, pending and stored-overdue amounts make up the receivable; with
      non-negative amounts the overdue amount is part of the pending one. */
  lemma SummaryAmounts(filtered: seq<Sale>, rows: seq<InstallmentRow>, today: int)
    requires forall r :: r in rows ==> r.inst.amount >= 0
    ensures var s := Summarize(filtered, rows, today);
      s.totalPaid + s.totalPending
        + SumBy(Filter(rows, (r: InstallmentRow) => r.inst.status == Overdue), RowAmount) == s.totalReceivable &&
      0 <= s.totalOverdue <= s.totalPending
  {
    SumByThreeWay(rows, (r: InstallmentRow) => r.inst.status == Paid, (r: InstallmentRow) => r.inst.status == Pending,
      (r: InstallmentRow) => r.inst.status == Overdue, RowAmount);
    SumByFilterMono(rows, (r: InstallmentRow) => OverdueRow(today, r), (r: InstallmentRow) => r.inst.status == Pending, RowAmount);
    SumByFilterMono(rows, (r: InstallmentRow) => false, (r: InstallmentRow) => OverdueRow(today, r), RowAmount);
    FilterNone(rows, (r: InstallmentRow) => false);
  }

  lemma {:induction false} FilterNone(rows: seq<InstallmentRow>, p: InstallmentRow -> bool)
    requires forall r :: !p(r)
    ensures Filter(rows, p) == []
  {
    if rows != [] {
      FilterNone(rows[1..], p);
    }
  }

  // ---------------------------------------------------------------------
  // Payment-status chart
  // ---------------------------------------------------------------------

  datatype Slice = Slice(name: string, value: int)

  /** Position of a category in the chart's fixed order. */
  function CategoryRank(name: string): int
  {
    if name == "Pagos" then 0 else if name == "Pendentes" then 1 else 2
  }

  function Categories(s: Summary): seq<Slice>
  {
    [Slice("Pagos", s.totalPaid), Slice("Pendentes", s.totalPending), Slice("Atrasados", s.totalOverdue)]
  }

  /** `paymentStatusData`: the categories with a positive value, in the
      order Pagos, Pendentes, Atrasados. */
  function PaymentStatusData(s: Summary): (r: seq<Slice>)
    ensures forall c :: c in r <==> c in Categories(s) && c.value > 0
    ensures forall i, j :: 0 <= i < j < |r| ==> CategoryRank(r[i].name) < CategoryRank(r[j].name)
  {
    var c := Categories(s);
    var p := (x: Slice) => x.value > 0;
    assert c == [c[0]] + [c[1]] + [c[2]];
    FilterConcat([c[0]] + [c[1]], [c[2]], p);
    FilterConcat([c[0]], [c[1]], p);
    assert Filter([c[0]], p) == Kept(c[0]);
    assert Filter([c[1]], p) == Kept(c[1]);
    assert Filter([c[2]], p) == Kept(c[2]);
    assert CategoryRank(c[0].name) == 0 && CategoryRank(c[1].name) == 1 && CategoryRank(c[2].name) == 2;
    KeptInOrder(c[0], c[1], c[2]);
    Filter(c, p)
  }

  /** A category on its own, kept when its value is positive. */
  function Kept(x: Slice): seq<Slice>
  {
    if x.value > 0 then [x] else []
  }

  /** Keeping three ranked categories keeps exactly the positive ones, in
      rank order. */
  lemma KeptInOrder(a: Slice, b: Slice, c: Slice)
    requires CategoryRank(a.name) < CategoryRank(b.name) < CategoryRank(c.name)
    ensures var r := Kept(a) + Kept(b) + Kept(c);
      (forall x :: x in r <==> (x == a || x == b || x == c) && x.value > 0) &&
      (forall i, j :: 0 <= i < j < |r| ==> CategoryRank(r[i].name) < CategoryRank(r[j].name))
  {
  }

  // ---------------------------------------------------------------------
  // Sales per day
  // ---------------------------------------------------------------------

  /** `Math.round(cents / 100)`: whole reais, halves rounded up. */
  function RoundReais(cents: int): (r: int)
    ensures 100 * r - 50 <= cents < 100 * r + 50
  {
    (cents + 50) / 100
  }

  function SaleDay(s: Sale): int
  {
    DayOf(s.date)
  }

  datatype DayTotal = DayTotal(day: int, total: int)

  /** `salesByDateData`: one point per day on which some sale falls, in
      ascending day order, with the day's total in whole reais. */
  method SalesByDate(sales: seq<Sale>) returns (series: seq<DayTotal>)
    ensures forall i, j :: 0 <= i < j < |series| ==> series[i].day < series[j].day
    ensures forall d :: d in Keys(sales, SaleDay) <==> exists i :: 0 <= i < |series| && series[i].day == d
    ensures forall i :: 0 <= i < |series| ==>
      series[i].total == RoundReais(KeySum(sales, SaleDay, SaleTotal, series[i].day))
  {
    var grouped: map<int, int> := map[];
    var order: seq<int> := [];
    for i := 0 to |sales|
      invariant grouped.Keys == Keys(sales[..i], SaleDay)
      invariant forall d :: d in grouped ==> grouped[d] == KeySum(sales[..i], SaleDay, SaleTotal, d)
      invariant Distinct(order) && forall d :: d in order <==> d in grouped
    {
      var d := SaleDay(sales[i]);
      assert sales[..i + 1][..i] == sales[..i];
      if d !in grouped {
        KeyAbsent(sales[..i], SaleDay, SaleTotal, d);
        order := order + [d];
      }
      grouped := grouped[d := (if d in grouped then grouped[d] else 0) + sales[i].total];
    }
    assert sales[..|sales|] == sales;
    var days := SortKeys(order);
    series := seq(|days|, j requires 0 <= j < |days| && days[j] in grouped => DayTotal(days[j], RoundReais(grouped[days[j]])));
    forall d
      ensures d in Keys(sales, SaleDay) <==> exists i :: 0 <= i < |series| && series[i].day == d
    {
      if d in days {
        var i :| 0 <= i < |days| && days[i] == d;
        assert series[i].day == d;
      }
    }
  }

  // ---------------------------------------------------------------------
  // Client ranking
  // ---------------------------------------------------------------------

  function SaleClient(s: Sale): int
  {
    s.clientId
  }

  /** The client's name, or "Desconhecido" when it is missing or empty. */
  function RankingName(clients: seq<Client>, id: int): (name: string)
    ensures name != ""
  {
    var c := Find(clients, (c: Client) => c.id == id);
    if c.Some? && c.value.name != "" then c.value.name else "Desconhecido"
  }

  /** One client's accumulated sales. */
  datatype Tally = Tally(clientId: int, name: string, total: int, count: int)

  /** Higher total first; equal totals in ascending client id, as a stable
      sort of `Object.values` (ascending integer keys) leaves them. */
  predicate Before(a: Tally, b: Tally)
  {
    a.total > b.total || (a.total == b.total && a.clientId < b.clientId)
  }

  predicate Ranked(xs: seq<Tally>)
  {
    forall i, j :: 0 <= i < j < |xs| ==> Before(xs[i], xs[j])
  }

  /** `t` put into its place in a ranked list of other clients. */
  function InsertRanked(xs: seq<Tally>, t: Tally): (r: seq<Tally>)
    requires Ranked(xs)
    requires forall i :: 0 <= i < |xs| ==> xs[i].clientId != t.clientId
    ensures Ranked(r) && |r| == |xs| + 1
    ensures forall u :: u in r <==> u in xs || u == t
  {
    if xs == [] || Before(t, xs[0]) then [t] + xs
    else
      var rest := InsertRanked(xs[1..], t);
      assert forall i :: 0 <= i < |rest| ==> Before(xs[0], rest[i]) by {
        forall i | 0 <= i < |rest|
          ensures Before(xs[0], rest[i])
        {
          assert rest[i] in rest;
          if rest[i] != t {
            var j :| 0 <= j < |xs[1..]| && xs[1..][j] == rest[i];
            assert xs[j + 1] == rest[i];
          }
        }
      }
      [xs[0]] + rest
  }

  /** The sort of the ranking: the tallies of `ids` ranked. */
  method RankTallies(ids: seq<int>, acc: map<int, Tally>) returns (ranked: seq<Tally>)
    requires Distinct(ids)
    requires forall id :: id in ids ==> id in acc && acc[id].clientId == id
    ensures Ranked(ranked) && |ranked| == |ids|
    ensures forall t :: t in ranked <==> t.clientId in ids && t.clientId in acc && t == acc[t.clientId]
  {
    ranked := [];
    for j := 0 to |ids|
      invariant Ranked(ranked) && |ranked| == j
      invariant forall t :: t in ranked <==> t.clientId in ids[..j] && t.clientId in acc && t == acc[t.clientId]
    {
      assert ids[..j + 1] == ids[..j] + [ids[j]];
      assert forall i :: 0 <= i < |ranked| ==> ranked[i].clientId != ids[j] by {
        forall i | 0 <= i < |ranked|
          ensures ranked[i].clientId != ids[j]
        {
          assert ranked[i] in ranked;
        }
      }
      assert ids[j] in ids;
      ranked := InsertRanked(ranked, acc[ids[j]]);
    }
    assert ids[..|ids|] == ids;
  }

  /** The accumulation of `clientRanking`: one tally per client, created at
      the client's first sale and then incremented. */
  method TallyByClient(sales: seq<Sale>, clients: seq<Client>) returns (acc: map<int, Tally>, order: seq<int>)
    ensures Tallied(acc, sales, clients)
    ensures Distinct(order) && forall id :: id in order <==> id in acc
  {
    acc := map[];
    order := [];
    for i := 0 to |sales|
      invariant Tallied(acc, sales[..i], clients)
      invariant Distinct(order) && forall id :: id in order <==> id in acc
    {
      var id := sales[i].clientId;
      TalliedStep(acc, sales, i, clients);
      ghost var before := acc;
      if id !in acc {
        DistinctAppend(order, id);
        acc := acc[id := Tally(id, RankingName(clients, id), 0, 0)];
        order := order + [id];
      }
      acc := acc[id := acc[id].(total := acc[id].total + sales[i].total, count := acc[id].count + 1)];
      assert acc == TallyOne(before, sales[i], clients);
    }
    assert sales[..|sales|] == sales;
  }

  /** The tallies hold exactly the clients with sales in `xs`, each with its
      name, the sum of its totals and its number of sales. */
  predicate Tallied(acc: map<int, Tally>, xs: seq<Sale>, clients: seq<Client>)
  {
    acc.Keys == Keys(xs, SaleClient)
    && forall id :: id in acc ==>
      acc[id] == Tally(id, RankingName(clients, id), KeySum(xs, SaleClient, SaleTotal, id), KeyCount(xs, SaleClient, id))
  }

  /** One sale added to the tallies: its client's tally, created empty if
      needed, gains the sale's total and one sale. */
  function TallyOne(acc: map<int, Tally>, s: Sale, clients: seq<Client>): map<int, Tally>
  {
    var id := s.clientId;
    var a := if id in acc then acc else acc[id := Tally(id, RankingName(clients, id), 0, 0)];
    a[id := a[id].(total := a[id].total + s.total, count := a[id].count + 1)]
  }

  lemma TalliedStep(acc: map<int, Tally>, sales: seq<Sale>, i: nat, clients: seq<Client>)
    requires i < |sales| && Tallied(acc, sales[..i], clients)
    ensures Tallied(TallyOne(acc, sales[i], clients), sales[..i + 1], clients)
  {
    var id := sales[i].clientId;
    var xs, ys := sales[..i], sales[..i + 1];
    var r := TallyOne(acc, sales[i], clients);
    PrefixKeys(sales, i, SaleClient);
    if id !in acc {
      KeyAbsent(xs, SaleClient, SaleTotal, id);
    }
    assert r.Keys == acc.Keys + {id};
    forall k | k in r
      ensures r[k] == Tally(k, RankingName(clients, k), KeySum(ys, SaleClient, SaleTotal, k), KeyCount(ys, SaleClient, k))
    {
      PrefixSum(sales, i, SaleClient, SaleTotal, k);
    }
  }

  function Min(a: int, b: int): int
  {
    if a <= b then a else b
  }

  datatype RankEntry = RankEntry(rank: int, clientId: int, name: string, total: int, count: int)

  /** `a` ranks above `b` by their sales totals. */
  predicate RanksAbove(sales: seq<Sale>, a: int, b: int)
  {
    var ta := KeySum(sales, SaleClient, SaleTotal, a);
    var tb := KeySum(sales, SaleClient, SaleTotal, b);
    ta > tb || (ta == tb && a < b)
  }

  predicate Listed(ranking: seq<RankEntry>, id: int)
  {
    exists k :: 0 <= k < |ranking| && ranking[k].clientId == id
  }

  /** `clientRanking`: the five clients with the highest sales totals (or
      all, if fewer), best first, ranked 1, 2, …, each with the client's
      name, total in whole reais and number of sales; every client left out
      ranks below every client listed. */
  method ClientRanking(sales: seq<Sale>, clients: seq<Client>) returns (ranking: seq<RankEntry>)
    ensures |ranking| == Min(5, |Keys(sales, SaleClient)|)
    ensures forall k :: 0 <= k < |ranking| ==>
      var id := ranking[k].clientId;
      ranking[k].rank == k + 1 && id in Keys(sales, SaleClient) &&
      ranking[k].name == RankingName(clients, id) &&
      ranking[k].total == RoundReais(KeySum(sales, SaleClient, SaleTotal, id)) &&
      ranking[k].count == KeyCount(sales, SaleClient, id)
    ensures forall k, l :: 0 <= k < l < |ranking| ==> RanksAbove(sales, ranking[k].clientId, ranking[l].clientId)
    ensures forall id, k :: id in Keys(sales, SaleClient) && !Listed(ranking, id) && 0 <= k < |ranking| ==>
      RanksAbove(sales, ranking[k].clientId, id)
  {
    var acc, order := TallyByClient(sales, clients);
    DistinctCard(order, acc.Keys);
    var ids := SortKeys(order);
    var ranked := RankTallies(ids, acc);
    assert forall t :: t in ranked <==> t.clientId in acc && t == acc[t.clientId];
    ranking := TopEntries(ranked);
    RankingFacts(sales, clients, acc, ranked, ranking);
  }

  /** The first five ranked tallies, numbered from 1. */
  function TopEntries(ranked: seq<Tally>): seq<RankEntry>
  {
    seq(Min(5, |ranked|), k requires 0 <= k < Min(5, |ranked|) =>
      RankEntry(k + 1, ranked[k].clientId, ranked[k].name, RoundReais(ranked[k].total), ranked[k].count))
  }

  /** What the ranking inherits from the ranked tallies. */
  lemma RankingFacts(sales: seq<Sale>, clients: seq<Client>, acc: map<int, Tally>, ranked: seq<Tally>, ranking: seq<RankEntry>)
    requires acc.Keys == Keys(sales, SaleClient)
    requires forall id :: id in acc ==>
      acc[id] == Tally(id, RankingName(clients, id), KeySum(sales, SaleClient, SaleTotal, id), KeyCount(sales, SaleClient, id))
    requires Ranked(ranked) && |ranked| == |acc.Keys|
    requires forall t :: t in ranked <==> t.clientId in acc && t == acc[t.clientId]
    requires ranking == TopEntries(ranked)
    ensures |ranking| == Min(5, |Keys(sales, SaleClient)|)
    ensures forall k :: 0 <= k < |ranking| ==>
      var id := ranking[k].clientId;
      ranking[k].rank == k + 1 && id in Keys(sales, SaleClient) &&
      ranking[k].name == RankingName(clients, id) &&
      ranking[k].total == RoundReais(KeySum(sales, SaleClient, SaleTotal, id)) &&
      ranking[k].count == KeyCount(sales, SaleClient, id)
    ensures forall k, l :: 0 <= k < l < |ranking| ==> RanksAbove(sales, ranking[k].clientId, ranking[l].clientId)
    ensures forall id, k :: id in Keys(sales, SaleClient) && !Listed(ranking, id) && 0 <= k < |ranking| ==>
      RanksAbove(sales, ranking[k].clientId, id)
  {
    forall k | 0 <= k < |ranking|
      ensures ranking[k].clientId == ranked[k].clientId && ranked[k] == acc[ranked[k].clientId]
    {
      assert ranked[k] in ranked;
    }
    forall k, l | 0 <= k < l < |ranking|
      ensures RanksAbove(sales, ranking[k].clientId, ranking[l].clientId)
    {
      assert Before(ranked[k], ranked[l]);
    }
    forall id, k | id in acc && !Listed(ranking, id) && 0 <= k < |ranking|
      ensures RanksAbove(sales, ranking[k].clientId, id)
    {
      assert acc[id] in ranked;
      var p :| 0 <= p < |ranked| && ranked[p] == acc[id];
      assert Before(ranked[k], ranked[p]);
    }
  }
}
