/** The collections page (client/src/pages/Collections.tsx): the due
    installments grouped by client, the client search, the statistic cards,
    the per-client totals, the days-until-due badge and the contacted
    toggle. "Today" is a day number given by the caller. */
module Collections {
  import opened Wrappers
  import opened Schema
  import opened Calendar
  import opened Seqs
  import opened Text
  import opened Grouping

  // ---------------------------------------------------------------------
  // Grouping by client
  // ---------------------------------------------------------------------

  datatype ClientGroup = ClientGroup(
    clientId: int,
    clientName: string,
    clientPhone: Option<string>,
    installments: seq<DueRow>)

  function RowClient(r: DueRow): int
  {
    r.clientId
  }

  /** The group a client's first row opens: its name and phone, no rows. */
  function OpenGroup(r: DueRow): ClientGroup
  {
    ClientGroup(r.clientId, r.clientName, r.clientPhone, [])
  }

  /** What `groupedByClient` holds for a client after the rows `xs`: the
      group opened by the client's first row, with all of the client's rows
      in input order. */
  predicate GroupOf(xs: seq<DueRow>, id: int, g: ClientGroup)
  {
    var rows := KeyRows(xs, RowClient, id);
    rows != [] && g == OpenGroup(rows[0]).(installments := rows)
  }

  /** The accumulation of `groupedByClient`: a group is opened at a client's
      first row and every row is pushed onto its client's group. */
  method GroupRows(rows: seq<DueRow>) returns (grouped: map<int, ClientGroup>, order: seq<int>)
    ensures grouped.Keys == Keys(rows, RowClient)
    ensures forall id :: id in grouped ==> grouped[id].clientId == id && GroupOf(rows, id, grouped[id])
    ensures Distinct(order) && forall id :: id in order <==> id in grouped
  {
    grouped := map[];
    order := [];
    for i := 0 to |rows|
      invariant grouped.Keys == Keys(rows[..i], RowClient)
      invariant forall id :: id in grouped ==> grouped[id].clientId == id && GroupOf(rows[..i], id, grouped[id])
      invariant Distinct(order) && forall id :: id in order <==> id in grouped
    {
      var r := rows[i];
      assert rows[..i + 1][..i] == rows[..i];
      if r.clientId !in grouped {
        KeyAbsent(rows[..i], RowClient, RowClient, r.clientId);
        grouped := grouped[r.clientId := OpenGroup(r)];
        order := order + [r.clientId];
      }
      grouped := grouped[r.clientId := grouped[r.clientId].(installments := grouped[r.clientId].installments + [r])];
    }
    assert rows[..|rows|] == rows;
  }

  /** `groupedByClient`: one group per client with due rows, in ascending
      client id (the order `Object.values` gives integer keys); each group
      has its client's rows in input order and the name and phone of the
      first of them. */
  method GroupedByClient(rows: seq<DueRow>) returns (groups: seq<ClientGroup>)
    ensures forall i, j :: 0 <= i < j < |groups| ==> groups[i].clientId < groups[j].clientId
    ensures forall id :: id in Keys(rows, RowClient) <==> exists i :: 0 <= i < |groups| && groups[i].clientId == id
    ensures forall i :: 0 <= i < |groups| ==> GroupOf(rows, groups[i].clientId, groups[i])
  {
    var grouped, order := GroupRows(rows);
    var ids := SortKeys(order);
    assert forall i :: 0 <= i < |ids| ==> ids[i] in grouped by {
      forall i | 0 <= i < |ids|
        ensures ids[i] in grouped
      {
        assert ids[i] in ids;
      }
    }
    groups := seq(|ids|, i requires 0 <= i < |ids| && ids[i] in grouped => grouped[ids[i]]);
    forall id
      ensures id in Keys(rows, RowClient) <==> exists i :: 0 <= i < |groups| && groups[i].clientId == id
    {
      if id in ids {
        var i :| 0 <= i < |ids| && ids[i] == id;
        assert groups[i].clientId == id;
      }
    }
  }

  /** Every due row is in the group of its own client and in no other. */
  lemma RowInOneGroup(rows: seq<DueRow>, g: ClientGroup, r: DueRow)
    requires GroupOf(rows, g.clientId, g)
    ensures r in g.installments <==> r in rows && r.clientId == g.clientId
  {
    KeyRowsMembers(rows, RowClient, g.clientId);
  }

  // ---------------------------------------------------------------------
  // Client search
  // ---------------------------------------------------------------------

  /** `filteredClients`: every group for a blank search, otherwise the
      groups whose client name contains the search text. */
  function FilteredClients(groups: seq<ClientGroup>, query: string): seq<ClientGroup>
  {
    if Trim(query) == [] then groups
    else Filter(groups, (g: ClientGroup) => Contains(ToLower(g.clientName), ToLower(query)))
  }

  /** The search keeps whole groups, in order, exactly those whose name
      passes; the rows inside a group are never filtered. */
  lemma FilteredClientsIsSearch(groups: seq<ClientGroup>, query: string)
    ensures FilteredClients(groups, query) == Filter(groups, (g: ClientGroup) => SearchKeeps(query, g.clientName))
  {
    if Trim(query) == [] {
      FilterAll(groups, (g: ClientGroup) => SearchKeeps(query, g.clientName));
    } else {
      FilterSame(groups, (g: ClientGroup) => Contains(ToLower(g.clientName), ToLower(query)),
        (g: ClientGroup) => SearchKeeps(query, g.clientName));
    }
  }

  // ---------------------------------------------------------------------
  // Statistics and per-client totals
  // ---------------------------------------------------------------------

  function DueAmount(r: DueRow): int
  {
    r.amount
  }

  datatype DueStats = DueStats(totalAmount: int, contactedCount: nat, notContactedCount: nat, totalCount: nat)

  /** `stats`: over all due rows, whatever the search. */
  function ComputeStats(rows: seq<DueRow>): DueStats
  {
    DueStats(
      SumBy(rows, DueAmount),
      Count(rows, (r: DueRow) => r.contacted == 1),
      Count(rows, (r: DueRow) => r.contacted == 0),
      |rows|)
  }

  /** Contacted and not contacted never exceed the total, and make it up
      exactly when every flag is 0 or 1. */
  lemma StatsCounts(rows: seq<DueRow>)
    ensures var s := ComputeStats(rows);
      s.contactedCount + s.notContactedCount <= s.totalCount
    ensures (forall r :: r in rows ==> r.contacted == 0 || r.contacted == 1) ==>
      var s := ComputeStats(rows);
      s.contactedCount + s.notContactedCount == s.totalCount
  {
    CountDisjoint(rows, (r: DueRow) => r.contacted == 1, (r: DueRow) => r.contacted == 0);
    if forall r :: r in rows ==> r.contacted == 0 || r.contacted == 1 {
      CountComplement(rows, (r: DueRow) => r.contacted == 1, (r: DueRow) => r.contacted == 0);
    }
  }

  /** A group's card: the sum of its amounts and the number contacted. */
  function GroupTotal(g: ClientGroup): int
  {
    SumBy(g.installments, DueAmount)
  }

  function GroupContacted(g: ClientGroup): nat
  {
    Count(g.installments, (r: DueRow) => r.contacted == 1)
  }

  /** `allContacted`: the card shows "Cobrado" when every row of the group
      is contacted. */
  predicate AllContacted(g: ClientGroup)
  {
    forall i :: 0 <= i < |g.installments| ==> g.installments[i].contacted == 1
  }

  /** A group is fully contacted exactly when its contacted count is its
      size. */
  lemma AllContactedIsFullCount(g: ClientGroup)
    ensures AllContacted(g) <==> GroupContacted(g) == |g.installments|
  {
    CountAll(g.installments, (r: DueRow) => r.contacted == 1);
  }

  /** The per-client totals of the groups of `GroupedByClient` add up, client
      by client, to the amounts of that client's rows. */
  lemma GroupTotalIsClientSum(rows: seq<DueRow>, g: ClientGroup)
    requires GroupOf(rows, g.clientId, g)
    ensures GroupTotal(g) == KeySum(rows, RowClient, DueAmount, g.clientId)
  {
    KeyRowsSum(rows, g.clientId);
  }

  lemma {:induction false} KeyRowsSum(rows: seq<DueRow>, id: int)
    ensures SumBy(KeyRows(rows, RowClient, id), DueAmount) == KeySum(rows, RowClient, DueAmount, id)
  {
    if rows != [] {
      var n := |rows|;
      KeyRowsSum(rows[..n - 1], id);
      var last := if rows[n - 1].clientId == id then [rows[n - 1]] else [];
      SumByConcat(KeyRows(rows[..n - 1], RowClient, id), last, DueAmount);
    }
  }

  // ---------------------------------------------------------------------
  // Days until due
  // ---------------------------------------------------------------------

  /** `getDaysUntilDue`: whole days from today to the due day (both taken at
      midnight, so the division is exact). */
  function DaysUntilDue(dueDate: int, today: int): int
  {
    DayOf(dueDate) - today
  }

  datatype Tone = Red | Yellow | Blue

  datatype DueBadge = DueBadge(text: string, tone: Tone)

  /** The badge next to a due row: none for a past day; "Hoje", "Amanhã" or
      "<n> dias"; red up to 2 days, yellow up to 5, blue beyond. */
  function DueBadgeFor(days: int): Option<DueBadge>
  {
    if days < 0 then None
    else
      var text := if days == 0 then "Hoje" else if days == 1 then "Amanhã" else IntToString(days) + " dias";
      var tone := if days <= 2 then Red else if days <= 5 then Yellow else Blue;
      Some(DueBadge(text, tone))
  }

  /** Rows from the due query (due between today and `daysAhead` days later)
      always carry a badge, and its tone follows the distance. */
  lemma DueRowsHaveBadge(dueDate: int, today: int, daysAhead: int)
    requires StartOfDay(today) <= dueDate <= EndOfDay(today + daysAhead)
    ensures var b := DueBadgeFor(DaysUntilDue(dueDate, today));
      b.Some? && 0 <= DaysUntilDue(dueDate, today) <= daysAhead &&
      (b.value.tone == Red <==> DayOf(dueDate) <= today + 2) &&
      (b.value.tone == Blue <==> DayOf(dueDate) > today + 5)
  {
    WithinDays(dueDate, today, today + daysAhead);
  }

  // ---------------------------------------------------------------------
  // Contacted toggle
  // ---------------------------------------------------------------------

  /** `handleToggleContacted`: asks for "contacted" exactly when the row's
      flag is 0. */
  function ToggleRequest(current: int): bool
  {
    current == 0
  }

  /** The flag the store writes for a request (`contacted ? 1 : 0`). */
  function ContactedFlag(contacted: bool): int
  {
    if contacted then 1 else 0
  }

  /** For 0/1 flags, the toggle stores the other value; twice restores it. */
  lemma ToggleFlips(current: int)
    requires current == 0 || current == 1
    ensures ContactedFlag(ToggleRequest(current)) == 1 - current
    ensures ContactedFlag(ToggleRequest(ContactedFlag(ToggleRequest(current)))) == current
  {
  }
}
