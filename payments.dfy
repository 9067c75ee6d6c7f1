/** The payments page (client/src/pages/Payments.tsx): the status shown for
    an installment, the status and client-name filters, the statistic cards
    and the report filters. "Today" is a day number given by the caller. */
module Payments {
  import opened Wrappers
  import opened Schema
  import opened Calendar
  import opened Seqs
  import opened Text
  import opened ExportFilter
  import Dashboard

  // ---------------------------------------------------------------------
  // Status shown
  // ---------------------------------------------------------------------

  datatype Badge = Pago | Atrasado | Pendente

  /** `getStatusBadge`: paid whatever the due date; otherwise late when the
      due day is before today; otherwise pending. The stored "overdue"
      status plays no part. */
  function StatusBadge(status: InstallmentStatus, dueDate: int, today: int): Badge
  {
    if status == Paid then Pago
    else if DayOf(dueDate) < today then Atrasado
    else Pendente
  }

  /** `isOverdue`: not paid and due before today. */
  function IsOverdue(dueDate: int, status: InstallmentStatus, today: int): (r: bool)
    ensures r <==> status != Paid && DayOf(dueDate) < today
  {
    if status == Paid then false else DayOf(dueDate) < today
  }

  /** The badge says "Atrasado" exactly when `isOverdue` holds, and "Pago"
      exactly for the stored paid status. */
  lemma BadgeMatchesIsOverdue(status: InstallmentStatus, dueDate: int, today: int)
    ensures StatusBadge(status, dueDate, today) == Atrasado <==> IsOverdue(dueDate, status, today)
    ensures StatusBadge(status, dueDate, today) == Pago <==> status == Paid
  {
  }

  /** A row stored as "overdue" whose due day has not come yet is shown as
      pending. */
  lemma StoredOverdueShownPending(dueDate: int, today: int)
    requires today <= DayOf(dueDate)
    ensures StatusBadge(Overdue, dueDate, today) == Pendente
  {
  }

  // ---------------------------------------------------------------------
  // Status and client filters
  // ---------------------------------------------------------------------

  datatype StatusFilter = AllRows | PaidRows | PendingRows | OverdueRows

  /** The status part of `filteredInstallments`. */
  predicate StatusKeeps(filter: StatusFilter, r: InstallmentRow, today: int)
  {
    match filter
    case AllRows => true
    case PaidRows => r.inst.status == Paid
    case PendingRows => r.inst.status == Pending
    case OverdueRows => r.inst.status == Pending && DayOf(r.inst.dueDate) < today
  }

  /** `filteredInstallments`: the rows that pass the status filter and whose
      client name contains the search text, in input order. */
  function FilteredInstallments(rows: seq<InstallmentRow>, filter: StatusFilter, query: string, today: int): (r: seq<InstallmentRow>)
    ensures forall x :: x in r <==> x in rows && StatusKeeps(filter, x, today) && SearchKeeps(query, x.clientName)
  {
    Filter(rows, (x: InstallmentRow) => StatusKeeps(filter, x, today) && SearchKeeps(query, x.clientName))
  }

  /** With the "all" filter and a blank search every row is listed. */
  lemma NoFilterKeepsAll(rows: seq<InstallmentRow>, query: string, today: int)
    requires Trim(query) == []
    ensures FilteredInstallments(rows, AllRows, query, today) == rows
  {
    FilterAll(rows, (x: InstallmentRow) => StatusKeeps(AllRows, x, today) && SearchKeeps(query, x.clientName));
  }

  /** A row stored as "overdue" and past due is shown as late, yet the
      "overdue" filter does not list it. */
  lemma OverdueFilterSkipsStoredOverdue(r: InstallmentRow, today: int)
    requires r.inst.status == Overdue && DayOf(r.inst.dueDate) < today
    ensures StatusBadge(r.inst.status, r.inst.dueDate, today) == Atrasado
    ensures FilteredInstallments([r], OverdueRows, "", today) == []
  {
  }

  // ---------------------------------------------------------------------
  // Statistic cards
  // ---------------------------------------------------------------------

  datatype Stats = Stats(total: int, paid: int, pending: int, overdue: int)

  /** `stats`: amounts of all rows, of the stored paid rows, of the stored
      pending rows, and of the stored pending rows due before today. */
  function ComputeStats(rows: seq<InstallmentRow>, today: int): Stats
  {
    Stats(
      SumBy(rows, Dashboard.RowAmount),
      SumBy(Filter(rows, (r: InstallmentRow) => r.inst.status == Paid), Dashboard.RowAmount),
      SumBy(Filter(rows, (r: InstallmentRow) => r.inst.status == Pending), Dashboard.RowAmount),
      SumBy(Filter(rows, (r: InstallmentRow) => r.inst.status == Pending && DayOf(r.inst.dueDate) < today), Dashboard.RowAmount))
  }

  /** The cards show the same amounts as the dashboard's summary. */
  lemma StatsMatchDashboard(rows: seq<InstallmentRow>, sales: seq<Sale>, today: int)
    ensures var s := ComputeStats(rows, today);
      var d := Dashboard.Summarize(sales, rows, today);
      s == Stats(d.totalReceivable, d.totalPaid, d.totalPending, d.totalOverdue)
  {
    FilterSame(rows, (r: InstallmentRow) => r.inst.status == Pending && DayOf(r.inst.dueDate) < today,
      (r: InstallmentRow) => Dashboard.OverdueRow(today, r));
  }

  /** Paid and pending leave out exactly the rows stored as "overdue"; with
      non-negative amounts the overdue card is part of the pending one. */
  lemma StatsPartition(rows: seq<InstallmentRow>, today: int)
    requires forall r :: r in rows ==> r.inst.amount >= 0
    ensures var s := ComputeStats(rows, today);
      s.paid + s.pending + SumBy(Filter(rows, (r: InstallmentRow) => r.inst.status == Overdue), Dashboard.RowAmount) == s.total &&
      0 <= s.overdue <= s.pending
  {
    StatsMatchDashboard(rows, [], today);
    Dashboard.SummaryAmounts([], rows, today);
  }

  /** Number of rows on the overdue card: it counts with `isOverdue`. */
  function OverdueCount(rows: seq<InstallmentRow>, today: int): nat
  {
    Count(rows, (r: InstallmentRow) => IsOverdue(r.inst.dueDate, r.inst.status, today))
  }

  /** The overdue card's count and amount can describe different rows: one
      row stored as "overdue" and past due is counted, but its amount is not
      in the card's total. */
  lemma OverdueCardDisagrees(r: InstallmentRow, today: int)
    requires r.inst.status == Overdue && DayOf(r.inst.dueDate) < today && r.inst.amount > 0
    ensures OverdueCount([r], today) == 1
    ensures ComputeStats([r], today).overdue == 0
  {
  }

  // ---------------------------------------------------------------------
  // Report filters (handleExportPDF)
  // ---------------------------------------------------------------------

  /** The sale of an installment, looked up in the sales list. */
  function SaleOf(sales: seq<Sale>, saleId: int): Option<Sale>
  {
    Find(sales, (s: Sale) => s.id == saleId)
  }

  /** The client filter of the report: the row's sale is found and belongs
      to the client. */
  predicate OfClient(sales: seq<Sale>, clientId: int, r: InstallmentRow)
  {
    var sale := SaleOf(sales, r.inst.saleId);
    sale.Some? && sale.value.clientId == clientId
  }

  /** The installments kept for the report: each given filter narrows the
      list in turn (first day, last day, client through the sale). */
  function ExportInstallments(rows: seq<InstallmentRow>, sales: seq<Sale>, f: Filters): seq<InstallmentRow>
  {
    var byStart := if f.startDay.Some? then Filter(rows, (r: InstallmentRow) => r.inst.dueDate >= StartOfDay(f.startDay.value)) else rows;
    var byEnd := if f.endDay.Some? then Filter(byStart, (r: InstallmentRow) => r.inst.dueDate <= EndOfDay(f.endDay.value)) else byStart;
    if f.clientId.Some? then Filter(byEnd, (r: InstallmentRow) => OfClient(sales, f.clientId.value, r)) else byEnd
  }

  predicate ExportedRow(sales: seq<Sale>, f: Filters, r: InstallmentRow)
  {
    InPeriod(f, r.inst.dueDate) && (f.clientId.None? || OfClient(sales, f.clientId.value, r))
  }

  /** The chained filters keep, in input order, exactly the rows due in the
      period and, when a client is chosen, whose sale belongs to it; a row
      whose sale is not in the list is then dropped. */
  lemma ExportInstallmentsIsFilter(rows: seq<InstallmentRow>, sales: seq<Sale>, f: Filters)
    ensures ExportInstallments(rows, sales, f) == Filter(rows, (r: InstallmentRow) => ExportedRow(sales, f, r))
    ensures f.clientId.Some? ==> forall r :: r in ExportInstallments(rows, sales, f) ==> SaleOf(sales, r.inst.saleId).Some?
  {
    var p1 := (r: InstallmentRow) => f.startDay.None? || r.inst.dueDate >= StartOfDay(f.startDay.value);
    var p2 := (r: InstallmentRow) => f.endDay.None? || r.inst.dueDate <= EndOfDay(f.endDay.value);
    var p3 := (r: InstallmentRow) => f.clientId.None? || OfClient(sales, f.clientId.value, r);
    var p12 := (r: InstallmentRow) => p1(r) && p2(r);
    var byStart := if f.startDay.Some? then Filter(rows, (r: InstallmentRow) => r.inst.dueDate >= StartOfDay(f.startDay.value)) else rows;
    if f.startDay.Some? {
      FilterSame(rows, (r: InstallmentRow) => r.inst.dueDate >= StartOfDay(f.startDay.value), p1);
    } else {
      FilterAll(rows, p1);
    }
    var byEnd := if f.endDay.Some? then Filter(byStart, (r: InstallmentRow) => r.inst.dueDate <= EndOfDay(f.endDay.value)) else byStart;
    if f.endDay.Some? {
      FilterSame(byStart, (r: InstallmentRow) => r.inst.dueDate <= EndOfDay(f.endDay.value), p2);
    } else {
      FilterAll(byStart, p2);
    }
    FilterFilter(rows, p1, p2, p12);
    if f.clientId.Some? {
      FilterSame(byEnd, (r: InstallmentRow) => OfClient(sales, f.clientId.value, r), p3);
    } else {
      FilterAll(byEnd, p3);
    }
    FilterFilter(rows, p12, p3, (r: InstallmentRow) => ExportedRow(sales, f, r));
  }
}
