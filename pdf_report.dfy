/** The text of the two PDF reports (client/src/lib/pdfGenerator.ts): the
    filter line, the summary figures and the table rows. Page layout, fonts
    and the dates' locale formatting are not modelled; a date arrives
    already formatted, or as a day number in a row. */
module PdfReport {
  import opened Wrappers
  import opened Schema
  import opened Seqs
  import opened Text
  import Calendar
  import Currency

  // ---------------------------------------------------------------------
  // Money
  // ---------------------------------------------------------------------

  function Abs(n: int): nat
  {
    if n < 0 then -n else n
  }

  /** `(cents / 100).toFixed(2).replace(".", ",")` for integer cents: an
      optional minus, the whole reais without grouping, a comma and two
      digits. */
  function FixedComma(cents: int): (r: string)
    ensures |r| >= 4 && r[|r| - 3] == ','
  {
    (if cents < 0 then "-" else "") + NatToString(Abs(cents) / 100) + "," + Currency.TwoDigits(Abs(cents) % 100)
  }

  /** Every amount of both reports: `R$ ` and the fixed-point text. */
  function Money(cents: int): string
  {
    "R$ " + FixedComma(cents)
  }

  /** Turning the comma back into a dot, `parseFloat` reads exactly the
      amount in reais: the report text loses nothing. */
  lemma MoneyReadsBack(cents: int)
    ensures Currency.ParseFloat(Currency.ReplaceFirst(FixedComma(cents), ',', '.')) == Some(cents as real / 100.0)
  {
    var a := Abs(cents);
    var u := NatToString(a / 100) + "." + Currency.TwoDigits(a % 100);
    var x := Currency.ReplaceFirst(FixedComma(cents), ',', '.');
    DottedFixed(cents);
    if cents < 0 {
      UnsignedReadsBack(a);
      Negated(x, u, cents);
    } else {
      NonNegative(x, u, cents);
    }
  }

  lemma NonNegative(x: string, u: string, cents: int)
    requires cents >= 0
    requires x == u && u == NatToString(cents / 100) + "." + Currency.TwoDigits(cents % 100)
    ensures Currency.ParseFloat(x) == Some(cents as real / 100.0)
  {
    Currency.ReadsBackCents(cents, u);
  }

  /** `parseFloat` of a minus and the unsigned text of a negative amount. */
  lemma Negated(x: string, u: string, cents: int)
    requires cents < 0
    requires x == "-" + u && Currency.ParseUnsigned(u) == Some(Abs(cents) as real / 100.0)
    ensures Currency.ParseFloat(x) == Some(cents as real / 100.0)
  {
    assert x[1..] == u;
  }

  lemma UnsignedReadsBack(a: nat)
    ensures Currency.ParseUnsigned(NatToString(a / 100) + "." + Currency.TwoDigits(a % 100)) == Some(a as real / 100.0)
  {
    var d, t := NatToString(a / 100), Currency.TwoDigits(a % 100);
    Currency.ReadsBackCents(a, d + "." + t);
    Currency.UnsignedWhenDigitFirst(d, t);
  }

  lemma DottedFixed(cents: int)
    ensures var a := Abs(cents);
      Currency.ReplaceFirst(FixedComma(cents), ',', '.')
        == (if cents < 0 then "-" else "") + (NatToString(a / 100) + "." + Currency.TwoDigits(a % 100))
  {
    var a := Abs(cents);
    var d, t := NatToString(a / 100), Currency.TwoDigits(a % 100);
    Currency.CommaToDot(d, t);
    if cents < 0 {
      assert FixedComma(cents) == "-" + (d + "," + t);
      Currency.ReplaceFirstSkip("-", d + "," + t, ',', '.');
    } else {
      assert FixedComma(cents) == d + "," + t;
    }
  }

  /** Reading a money text back: `R$ `, then the number with its comma
      turned into a dot, read by `parseFloat`. */
  function ReadMoney(v: string): Option<real>
  {
    if |v| >= 3 && v[..3] == "R$ " then Currency.ParseFloat(Currency.ReplaceFirst(v[3..], ',', '.')) else None
  }

  /** Every money text of the reports reads back as its amount. */
  lemma MoneyText(v: string, cents: int)
    requires v == Money(cents)
    ensures ReadMoney(v) == Some(cents as real / 100.0)
  {
    assert v[..3] == "R$ " && v[3..] == FixedComma(cents);
    MoneyReadsBack(cents);
  }

  /** The report prints the same digits as the app's pt-BR formatting,
      without its thousands separators. */
  lemma MoneyIsUngroupedDecimal(cents: nat)
    ensures FixedComma(cents) == Currency.RemoveChar(Currency.FormatDecimal(cents), '.')
  {
    Currency.FormatDecimalWithoutDots(cents);
  }

  // ---------------------------------------------------------------------
  // Filter line
  // ---------------------------------------------------------------------

  /** What the filter line shows: the generation date, and the optional
      period ends and client name, all already formatted. A period end is a
      `Date`, always truthy once given; a client name is a string, falsy when
      empty. */
  datatype ReportFilters = ReportFilters(generatedOn: string, start: Option<string>, end: Option<string>, clientName: Option<string>)

  function PeriodSegment(f: ReportFilters): string
  {
    if f.start.None? && f.end.None? then ""
    else " | Período: " + f.start.GetOr("Início") + " a " + f.end.GetOr("Fim")
  }

  function ClientSegment(f: ReportFilters): string
  {
    if f.clientName.Some? && f.clientName.value != [] then " | Cliente: " + f.clientName.value else ""
  }

  /** `filterText`, the same in both reports. */
  function FilterText(f: ReportFilters): (r: string)
    ensures IsPrefix("Gerado em: " + f.generatedOn, r)
  {
    var head := "Gerado em: " + f.generatedOn;
    assert (head + PeriodSegment(f) + ClientSegment(f))[..|head|] == head;
    head + PeriodSegment(f) + ClientSegment(f)
  }

  /** Which segments the line carries: nothing after the date without
      filters; a period naming both ends, a missing end shown as "Início"
      or "Fim"; the client name only when it is not empty. */
  lemma FilterTextSegments(f: ReportFilters)
    ensures f.start.None? && f.end.None? && (f.clientName.None? || f.clientName.value == []) ==>
      FilterText(f) == "Gerado em: " + f.generatedOn
    ensures f.start.Some? || f.end.Some? ==>
      Contains(FilterText(f), " | Período: " + f.start.GetOr("Início") + " a " + f.end.GetOr("Fim"))
    ensures f.clientName.Some? && f.clientName.value != [] ==>
      Contains(FilterText(f), " | Cliente: " + f.clientName.value)
    ensures f.clientName.Some? && f.clientName.value != [] ==>
      FilterText(f)[|FilterText(f)| - |f.clientName.value|..] == f.clientName.value
  {
    var head := "Gerado em: " + f.generatedOn;
    var p, c := PeriodSegment(f), ClientSegment(f);
    assert FilterText(f) == head + p + c;
    ContainsMiddle(head, p, c);
    ContainsMiddle(head + p, c, []);
    assert head + p + c + [] == head + p + c;
    if c != [] {
      assert head + p + c == (head + p + " | Cliente: ") + f.clientName.value;
    }
  }

  // ---------------------------------------------------------------------
  // Sales report
  // ---------------------------------------------------------------------

  /** A sale as the report receives it, with its client's name. */
  datatype ReportSale = ReportSale(sale: Sale, clientName: string)

  function ReportTotal(s: ReportSale): int
  {
    s.sale.total
  }

  predicate IsCash(s: ReportSale)
  {
    s.sale.paymentType == Cash
  }

  predicate IsInstallments(s: ReportSale)
  {
    s.sale.paymentType == Installments
  }

  datatype SalesSummary = SalesSummary(totalSales: nat, totalRevenue: int, cashSales: nat, installmentSales: nat)

  /** The summary block of `generateSalesPDF`. */
  function SummarizeSales(sales: seq<ReportSale>): SalesSummary
  {
    SalesSummary(|sales|, SumBy(sales, ReportTotal), Count(sales, IsCash), Count(sales, IsInstallments))
  }

  /** Every sale is either cash or in installments, so the two counts add up
      to the number of sales and the revenue splits between them. */
  lemma SalesSummaryPartition(sales: seq<ReportSale>)
    ensures var s := SummarizeSales(sales);
      s.cashSales + s.installmentSales == s.totalSales
      && SumBy(Filter(sales, IsCash), ReportTotal) + SumBy(Filter(sales, IsInstallments), ReportTotal) == s.totalRevenue
  {
    CountComplement(sales, IsCash, IsInstallments);
    SumByPartition(sales, IsCash, ReportTotal);
    FilterSame(sales, (x: ReportSale) => !IsCash(x), IsInstallments);
  }

  /** The payment column. */
  function PaymentText(s: Sale): (r: string)
    ensures |r| >= 2
    ensures r == "À Vista" <==> s.paymentType == Cash
  {
    if s.paymentType == Cash then "À Vista"
    else
      var r := IntToString(s.installmentCount) + "x";
      assert r[|r| - 1] == 'x';
      r
  }

  /** For installments the column reads back as the installment count. */
  lemma PaymentTextCount(s: Sale)
    requires s.paymentType == Installments && s.installmentCount >= 0
    ensures PaymentText(s)[..|PaymentText(s)| - 1] == NatToString(s.installmentCount)
    ensures DigitsValue(PaymentText(s)[..|PaymentText(s)| - 1]) == s.installmentCount
  {
    var d := NatToString(s.installmentCount);
    assert PaymentText(s) == d + "x";
    assert (d + "x")[..|d|] == d;
    NatToStringValue(s.installmentCount);
  }

  datatype SalesRow = SalesRow(day: int, client: string, payment: string, value: string)

  function SalesRowOf(s: ReportSale): SalesRow
  {
    SalesRow(Calendar.DayOf(s.sale.date), s.clientName, PaymentText(s.sale), Money(s.sale.total))
  }

  /** `tableData`: one row per sale, in the order given. */
  function SalesTable(sales: seq<ReportSale>): (rows: seq<SalesRow>)
    ensures |rows| == |sales|
    ensures forall i :: 0 <= i < |sales| ==> rows[i] == SalesRowOf(sales[i])
  {
    if sales == [] then [] else [SalesRowOf(sales[0])] + SalesTable(sales[1..])
  }

  /** A row's value column reads back as its sale's total. */
  lemma SalesRowAmount(s: ReportSale)
    ensures ReadMoney(SalesRowOf(s).value) == Some(s.sale.total as real / 100.0)
  {
    MoneyText(SalesRowOf(s).value, s.sale.total);
  }

  // ---------------------------------------------------------------------
  // Payments report
  // ---------------------------------------------------------------------

  function Amount(i: Installment): int
  {
    i.amount
  }

  predicate IsPaid(i: Installment)
  {
    i.status == Paid
  }

  predicate IsPending(i: Installment)
  {
    i.status == Pending
  }

  predicate IsStoredOverdue(i: Installment)
  {
    i.status == Overdue
  }

  datatype PaymentsSummary = PaymentsSummary(
    count: nat, totalAmount: int, paidAmount: int, pendingAmount: int, paidCount: nat, pendingCount: nat)

  /** The summary block of `generatePaymentsPDF`: sums and counts by the
      stored status. */
  function SummarizePayments(insts: seq<Installment>): PaymentsSummary
  {
    PaymentsSummary(|insts|, SumBy(insts, Amount),
      SumBy(Filter(insts, IsPaid), Amount), SumBy(Filter(insts, IsPending), Amount),
      Count(insts, IsPaid), Count(insts, IsPending))
  }

  /** Rows stored as "overdue" are in neither count nor sum: paid and pending
      cover all rows exactly when none is stored overdue, and the amounts
      miss precisely the overdue rows' sum. */
  lemma PaymentsSummaryGap(insts: seq<Installment>)
    ensures var s := SummarizePayments(insts);
      s.paidCount + s.pendingCount + Count(insts, IsStoredOverdue) == s.count
      && s.paidAmount + s.pendingAmount + SumBy(Filter(insts, IsStoredOverdue), Amount) == s.totalAmount
      && s.paidCount + s.pendingCount <= s.count
      && (s.paidCount + s.pendingCount == s.count <==> forall k :: 0 <= k < |insts| ==> !IsStoredOverdue(insts[k]))
  {
    SumByThreeWay(insts, IsPaid, IsPending, IsStoredOverdue, Amount);
    CountThreeWay(insts);
    CountNone(insts);
  }

  lemma {:induction false} CountThreeWay(insts: seq<Installment>)
    ensures Count(insts, IsPaid) + Count(insts, IsPending) + Count(insts, IsStoredOverdue) == |insts|
  {
    if insts != [] {
      CountThreeWay(insts[1..]);
    }
  }

  lemma {:induction false} CountNone(insts: seq<Installment>)
    ensures Count(insts, IsStoredOverdue) == 0 <==> forall k :: 0 <= k < |insts| ==> !IsStoredOverdue(insts[k])
  {
    if insts != [] {
      CountNone(insts[1..]);
      assert forall k :: 1 <= k < |insts| ==> insts[k] == insts[1..][k - 1];
    }
  }

  /** The status column: "Pago" exactly for the stored paid status, so a
      row stored as "overdue" reads "Pendente". */
  function StatusText(status: InstallmentStatus): (r: string)
    ensures r == "Pago" <==> status == Paid
    ensures r == "Pendente" <==> status != Paid
  {
    if status == Paid then "Pago" else "Pendente"
  }

  datatype PaymentsRow = PaymentsRow(day: int, title: string, value: string, status: string)

  function PaymentsRowOf(i: Installment): PaymentsRow
  {
    PaymentsRow(Calendar.DayOf(i.dueDate), "Parcela " + IntToString(i.number), Money(i.amount), StatusText(i.status))
  }

  /** `tableData` of the payments report: one row per installment, in the
      order given. */
  function PaymentsTable(insts: seq<Installment>): (rows: seq<PaymentsRow>)
    ensures |rows| == |insts|
    ensures forall i :: 0 <= i < |insts| ==> rows[i] == PaymentsRowOf(insts[i])
  {
    if insts == [] then [] else [PaymentsRowOf(insts[0])] + PaymentsTable(insts[1..])
  }

  /** A row's value column reads back as its installment's amount. */
  lemma PaymentsRowAmount(i: Installment)
    ensures ReadMoney(PaymentsRowOf(i).value) == Some(i.amount as real / 100.0)
  {
    MoneyText(PaymentsRowOf(i).value, i.amount);
  }

  /** The rows reading "Pago" are as many as the summary's paid count. */
  lemma {:induction false} PaidRowsCounted(insts: seq<Installment>)
    ensures Count(PaymentsTable(insts), (r: PaymentsRow) => r.status == "Pago") == SummarizePayments(insts).paidCount
  {
    if insts != [] {
      PaidRowsCounted(insts[1..]);
      assert PaymentsTable(insts)[1..] == PaymentsTable(insts[1..]);
    }
  }
}
