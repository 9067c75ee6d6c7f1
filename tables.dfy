/** What the server's database operations compute, as functions on table
    contents: the rows `sales.create` inserts, the two installment joins,
    the single-row updates, and the insert values and update set that
    `upsertUser` assembles. The `SalesStore` class is proved against these. */
module Tables {
  import opened Wrappers
  import opened Schema
  import opened Seqs
  import opened Calendar

  // ---------------------------------------------------------------------
  // Primary keys
  // ---------------------------------------------------------------------

  function UserId(u: User): int { u.id }
  function ClientId(c: Client): int { c.id }
  function SaleId(s: Sale): int { s.id }
  function ProductId(p: Product): int { p.id }
  function InstallmentId(i: Installment): int { i.id }

  /** Auto-increment keys: positive, strictly increasing in insertion order,
      and below the next key to be handed out. Stated from the last row
      back: its key is below `next` and bounds the keys before it. */
  predicate IdsIncreasing<T>(s: seq<T>, id: T -> int, next: int)
    decreases |s|
  {
    s == [] || (0 < id(s[|s| - 1]) < next && IdsIncreasing(s[..|s| - 1], id, id(s[|s| - 1])))
  }

  /** The same order, pair of rows by pair of rows. */
  predicate IdsOrdered<T>(s: seq<T>, id: T -> int, next: int)
  {
    (forall i, j {:trigger id(s[i]), id(s[j])} :: 0 <= i < j < |s| ==> id(s[i]) < id(s[j]))
    && (forall i :: 0 <= i < |s| ==> 0 < id(s[i]) < next)
  }

  /** Both statements of the key order agree. */
  lemma {:induction false} IdsIncreasingOrdered<T>(s: seq<T>, id: T -> int, next: int)
    ensures IdsIncreasing(s, id, next) <==> IdsOrdered(s, id, next)
    decreases |s|
  {
    if s != [] {
      var front, last := s[..|s| - 1], s[|s| - 1];
      IdsIncreasingOrdered(front, id, id(last));
      assert forall i :: 0 <= i < |front| ==> front[i] == s[i];
      if IdsOrdered(s, id, next) {
        assert IdsOrdered(front, id, id(last)) by {
          forall i | 0 <= i < |front|
            ensures 0 < id(front[i]) < id(last)
          {
            assert id(s[i]) < id(s[|s| - 1]);
          }
        }
      }
      if IdsIncreasing(s, id, next) {
        assert IdsOrdered(front, id, id(last));
        forall i, j | 0 <= i < j < |s|
          ensures id(s[i]) < id(s[j])
        {
          if j < |s| - 1 {
            assert id(front[i]) < id(front[j]);
          } else {
            assert 0 < id(front[i]) < id(last);
          }
        }
      }
    }
  }

  /** Rows whose keys agree pointwise are ordered alike. */
  lemma IdsIncreasingSameKeys<T>(s: seq<T>, t: seq<T>, id: T -> int, next: int)
    requires |s| == |t| && forall i :: 0 <= i < |s| ==> id(s[i]) == id(t[i])
    requires IdsIncreasing(s, id, next)
    ensures IdsIncreasing(t, id, next)
  {
    IdsIncreasingOrdered(s, id, next);
    IdsIncreasingOrdered(t, id, next);
  }

  lemma IdsIncreasingAppend<T>(s: seq<T>, x: T, id: T -> int, next: int)
    requires IdsIncreasing(s, id, next) && id(x) == next && next > 0
    ensures IdsIncreasing(s + [x], id, next + 1)
  {
    assert (s + [x])[..|s|] == s;
  }

  /** Deleting rows keeps the remaining keys increasing. */
  lemma IdsIncreasingFilter<T(!new)>(s: seq<T>, p: T -> bool, id: T -> int, next: int)
    requires IdsIncreasing(s, id, next)
    ensures IdsIncreasing(Filter(s, p), id, next)
  {
    IdsIncreasingOrdered(s, id, next);
    IdsOrderedFilter(s, p, id, next);
    IdsIncreasingOrdered(Filter(s, p), id, next);
  }

  lemma {:induction false} IdsOrderedFilter<T(!new)>(s: seq<T>, p: T -> bool, id: T -> int, next: int)
    requires IdsOrdered(s, id, next)
    ensures IdsOrdered(Filter(s, p), id, next)
  {
    if s != [] {
      var x, tail := s[0], s[1..];
      assert IdsOrdered(tail, id, next);
      IdsOrderedFilter(tail, p, id, next);
      var rest := Filter(tail, p);
      assert forall y :: y in tail ==> id(x) < id(y) by {
        forall y | y in tail
          ensures id(x) < id(y)
        {
          var k :| 0 <= k < |tail| && tail[k] == y;
          assert s[k + 1] == y;
        }
      }
      if p(x) {
        IdsOrderedCons(x, rest, id, next);
      }
    }
  }

  lemma IdsOrderedCons<T>(x: T, rest: seq<T>, id: T -> int, next: int)
    requires IdsOrdered(rest, id, next) && 0 < id(x) < next
    requires forall y :: y in rest ==> id(x) < id(y)
    ensures IdsOrdered([x] + rest, id, next)
  {
    var s := [x] + rest;
    forall i, j | 0 <= i < j < |s|
      ensures id(s[i]) < id(s[j])
    {
      assert s[j] == rest[j - 1];
      if i > 0 {
        assert s[i] == rest[i - 1];
      } else {
        assert rest[j - 1] in rest;
      }
    }
  }

  // ---------------------------------------------------------------------
  // sales.create (server/routers.ts)
  // ---------------------------------------------------------------------

  function SaleRow(id: int, userId: int, input: SaleInput): Sale
  {
    Sale(id, userId, input.clientId, input.date, input.total, input.paymentType, input.installmentCount)
  }

  /** One product row per input line, in input order, with consecutive keys
      from `firstId`; description, price and quantity are copied. */
  function ProductRows(saleId: int, lines: seq<ProductInput>, firstId: int): (r: seq<Product>)
    ensures |r| == |lines|
    ensures forall k :: 0 <= k < |lines| ==>
      r[k] == Product(firstId + k, saleId, lines[k].description, lines[k].price, lines[k].quantity)
  {
    if lines == [] then []
    else
      var last := lines[|lines| - 1];
      ProductRows(saleId, lines[..|lines| - 1], firstId)
        + [Product(firstId + |lines| - 1, saleId, last.description, last.price, last.quantity)]
  }

  /** One installment row per listed installment, in input order, with
      number, due date and amount copied and the column defaults for the
      rest: pending, not paid, not contacted. */
  function ListedRows(saleId: int, list: seq<InstallmentInput>, firstId: int): (r: seq<Installment>)
    ensures |r| == |list|
    ensures forall k :: 0 <= k < |list| ==>
      r[k] == Installment(firstId + k, saleId, list[k].number, list[k].dueDate, list[k].amount,
                          DefaultStatus, None, DefaultContacted)
  {
    if list == [] then []
    else
      var last := list[|list| - 1];
      ListedRows(saleId, list[..|list| - 1], firstId)
        + [Installment(firstId + |list| - 1, saleId, last.number, last.dueDate, last.amount,
                       DefaultStatus, None, DefaultContacted)]
  }

  /** The rows of one more product line: the earlier rows and the new one. */
  lemma ProductRowsStep(before: seq<Product>, saleId: int, lines: seq<ProductInput>, k: nat, firstId: int)
    requires k < |lines|
    ensures before + ProductRows(saleId, lines[..k + 1], firstId)
      == before + ProductRows(saleId, lines[..k], firstId)
         + [Product(firstId + k, saleId, lines[k].description, lines[k].price, lines[k].quantity)]
  {
    assert lines[..k + 1][..k] == lines[..k];
  }

  /** The rows of one more listed installment. */
  lemma ListedRowsStep(before: seq<Installment>, saleId: int, list: seq<InstallmentInput>, k: nat, firstId: int)
    requires k < |list|
    ensures before + ListedRows(saleId, list[..k + 1], firstId)
      == before + ListedRows(saleId, list[..k], firstId)
         + [Installment(firstId + k, saleId, list[k].number, list[k].dueDate, list[k].amount,
                        DefaultStatus, None, DefaultContacted)]
  {
    assert list[..k + 1][..k] == list[..k];
  }

  predicate HasListedInstallments(input: SaleInput)
  {
    input.installments.Some? && |input.installments.value| > 0
  }

  /** The installment rows `sales.create` inserts: the listed ones when the
      list is non-empty, whatever the payment type; otherwise, for a cash
      sale, one installment already paid at `now`; otherwise none. */
  function InstallmentRowsFor(saleId: int, input: SaleInput, now: int, firstId: int): seq<Installment>
  {
    if HasListedInstallments(input) then ListedRows(saleId, input.installments.value, firstId)
    else if input.paymentType == Cash then
      [Installment(firstId, saleId, 1, input.date, input.total, Paid, Some(now), DefaultContacted)]
    else []
  }

  /** A cash sale without listed installments gets exactly one installment:
      number 1, due on the sale date, for the whole total, paid at `now`. */
  lemma CashSaleSettled(saleId: int, input: SaleInput, now: int, firstId: int)
    requires !HasListedInstallments(input) && input.paymentType == Cash
    ensures var rows := InstallmentRowsFor(saleId, input, now, firstId);
      |rows| == 1 && rows[0].saleId == saleId && rows[0].number == 1 && rows[0].dueDate == input.date
      && rows[0].amount == input.total && rows[0].status == Paid && rows[0].paidAt == Some(now)
  {
  }

  /** An installment sale submitted without installments gets none. */
  lemma InstallmentSaleWithoutList(saleId: int, input: SaleInput, now: int, firstId: int)
    requires !HasListedInstallments(input) && input.paymentType == Installments
    ensures InstallmentRowsFor(saleId, input, now, firstId) == []
  {
  }

  /** A non-empty list is copied as it stands, even on a cash sale, and
      every copied installment starts out pending. */
  lemma ListedInstallmentsCopied(saleId: int, input: SaleInput, now: int, firstId: int)
    requires HasListedInstallments(input)
    ensures var rows := InstallmentRowsFor(saleId, input, now, firstId);
      var list := input.installments.value;
      |rows| == |list| &&
      forall k :: 0 <= k < |list| ==>
        rows[k].saleId == saleId && rows[k].number == list[k].number && rows[k].dueDate == list[k].dueDate
        && rows[k].amount == list[k].amount && rows[k].status == Pending && rows[k].paidAt.None?
  {
  }

  function InstallmentAmount(i: Installment): int { i.amount }

  function InputAmount(i: InstallmentInput): int { i.amount }

  /** The listed rows carry exactly the listed amounts. */
  lemma {:induction false} ListedRowsSum(saleId: int, list: seq<InstallmentInput>, firstId: int)
    ensures SumBy(ListedRows(saleId, list, firstId), InstallmentAmount) == SumBy(list, InputAmount)
  {
    if list != [] {
      var rows := ListedRows(saleId, list, firstId);
      ListedRowsSum(saleId, list[1..], firstId + 1);
      assert rows[1..] == ListedRows(saleId, list[1..], firstId + 1);
    }
  }

  /** The server accepts whatever amounts it is sent: a sale of 100 cents
      with a single listed installment of 50 cents is stored as it is. */
  lemma AmountsNotChecked()
    ensures var input := SaleInput(1, 0, 100, Installments, 1, [], Some([InstallmentInput(1, 0, 50)]));
      var rows := InstallmentRowsFor(1, input, 0, 1);
      SumBy(rows, InstallmentAmount) == 50 != input.total
  {
    var input := SaleInput(1, 0, 100, Installments, 1, [], Some([InstallmentInput(1, 0, 50)]));
    var rows := InstallmentRowsFor(1, input, 0, 1);
    assert rows == [Installment(1, 1, 1, 0, 50, Pending, None, 0)];
  }

  // ---------------------------------------------------------------------
  // deleteSale (server/db.ts)
  // ---------------------------------------------------------------------

  predicate ProductOfOtherSale(saleId: int, p: Product) { p.saleId != saleId }
  predicate InstallmentOfOtherSale(saleId: int, i: Installment) { i.saleId != saleId }
  predicate OtherSale(saleId: int, s: Sale) { s.id != saleId }

  /** The products left once those of `saleId` are deleted, in table order. */
  function ProductsWithout(products: seq<Product>, saleId: int): (r: seq<Product>)
    ensures forall p :: p in r <==> p in products && p.saleId != saleId
  {
    Filter(products, p => ProductOfOtherSale(saleId, p))
  }

  function InstallmentsWithout(installments: seq<Installment>, saleId: int): (r: seq<Installment>)
    ensures forall i :: i in r <==> i in installments && i.saleId != saleId
  {
    Filter(installments, i => InstallmentOfOtherSale(saleId, i))
  }

  function SalesWithout(sales: seq<Sale>, saleId: int): (r: seq<Sale>)
    ensures forall s :: s in r <==> s in sales && s.id != saleId
  {
    Filter(sales, s => OtherSale(saleId, s))
  }

  /** Every product and installment row points at an existing sale. */
  predicate SaleExists(sales: seq<Sale>, saleId: int)
  {
    exists k :: 0 <= k < |sales| && sales[k].id == saleId
  }

  predicate Linked(sales: seq<Sale>, products: seq<Product>, installments: seq<Installment>)
  {
    (forall k :: 0 <= k < |products| ==> SaleExists(sales, products[k].saleId))
    && (forall k :: 0 <= k < |installments| ==> SaleExists(sales, installments[k].saleId))
  }

  /** Adding a sale, or a row that points at a stored sale, keeps the
      tables linked. */
  lemma LinkedAddSale(sales: seq<Sale>, products: seq<Product>, installments: seq<Installment>, s: Sale)
    requires Linked(sales, products, installments)
    ensures Linked(sales + [s], products, installments)
  {
    forall id | SaleExists(sales, id)
      ensures SaleExists(sales + [s], id)
    {
      var k :| 0 <= k < |sales| && sales[k].id == id;
      assert (sales + [s])[k] == sales[k];
    }
  }

  lemma LinkedAddProduct(sales: seq<Sale>, products: seq<Product>, installments: seq<Installment>, p: Product)
    requires Linked(sales, products, installments) && SaleExists(sales, p.saleId)
    ensures Linked(sales, products + [p], installments)
  {
  }

  lemma LinkedAddInstallment(sales: seq<Sale>, products: seq<Product>, installments: seq<Installment>, i: Installment)
    requires Linked(sales, products, installments) && SaleExists(sales, i.saleId)
    ensures Linked(sales, products, installments + [i])
  {
  }

  /** An update that keeps every row's sale keeps the tables linked. */
  lemma LinkedSameSales(sales: seq<Sale>, products: seq<Product>, installments: seq<Installment>, updated: seq<Installment>)
    requires Linked(sales, products, installments)
    requires |updated| == |installments| && forall k :: 0 <= k < |updated| ==> updated[k].saleId == installments[k].saleId
    ensures Linked(sales, products, updated)
  {
  }

  /** The cascade keeps each table's keys increasing below its counter. */
  lemma CascadeKeepsIds(sales: seq<Sale>, products: seq<Product>, installments: seq<Installment>, saleId: int,
                        nextSale: int, nextProduct: int, nextInstallment: int)
    requires IdsIncreasing(sales, SaleId, nextSale)
    requires IdsIncreasing(products, ProductId, nextProduct)
    requires IdsIncreasing(installments, InstallmentId, nextInstallment)
    ensures IdsIncreasing(SalesWithout(sales, saleId), SaleId, nextSale)
    ensures IdsIncreasing(ProductsWithout(products, saleId), ProductId, nextProduct)
    ensures IdsIncreasing(InstallmentsWithout(installments, saleId), InstallmentId, nextInstallment)
  {
    IdsIncreasingFilter(sales, s => OtherSale(saleId, s), SaleId, nextSale);
    IdsIncreasingFilter(products, p => ProductOfOtherSale(saleId, p), ProductId, nextProduct);
    IdsIncreasingFilter(installments, i => InstallmentOfOtherSale(saleId, i), InstallmentId, nextInstallment);
  }

  /** The cascade leaves no row pointing at the deleted sale, so the tables
      stay linked. */
  lemma CascadeKeepsLinked(sales: seq<Sale>, products: seq<Product>, installments: seq<Installment>, saleId: int)
    requires Linked(sales, products, installments)
    ensures Linked(SalesWithout(sales, saleId), ProductsWithout(products, saleId),
                   InstallmentsWithout(installments, saleId))
  {
    var s2 := SalesWithout(sales, saleId);
    var p2 := ProductsWithout(products, saleId);
    var i2 := InstallmentsWithout(installments, saleId);
    forall k | 0 <= k < |p2|
      ensures SaleExists(s2, p2[k].saleId)
    {
      assert p2[k] in products;
      var j :| 0 <= j < |products| && products[j] == p2[k];
      var m :| 0 <= m < |sales| && sales[m].id == products[j].saleId;
      assert sales[m] in s2;
      var n :| 0 <= n < |s2| && s2[n] == sales[m];
    }
    forall k | 0 <= k < |i2|
      ensures SaleExists(s2, i2[k].saleId)
    {
      assert i2[k] in installments;
      var j :| 0 <= j < |installments| && installments[j] == i2[k];
      var m :| 0 <= m < |sales| && sales[m].id == installments[j].saleId;
      assert sales[m] in s2;
      var n :| 0 <= n < |s2| && s2[n] == sales[m];
    }
  }

  // ---------------------------------------------------------------------
  // updateInstallmentStatus / updateInstallmentContacted (server/db.ts)
  // ---------------------------------------------------------------------

  /** The row after `.set({status, paidAt})`: an absent `paidAt` is skipped
      by the update and leaves the stored one in place. */
  function StatusSet(i: Installment, status: InstallmentStatus, paidAt: Option<int>): Installment
  {
    i.(status := status, paidAt := if paidAt.Some? then paidAt else i.paidAt)
  }

  /** The table after updating the row(s) with key `id`; every other row is
      unchanged and the addressed row changes in status and paidAt only. */
  function WithStatus(rows: seq<Installment>, id: int, status: InstallmentStatus, paidAt: Option<int>): (r: seq<Installment>)
    ensures |r| == |rows|
    ensures forall k :: 0 <= k < |rows| && rows[k].id != id ==> r[k] == rows[k]
    ensures forall k :: 0 <= k < |rows| && rows[k].id == id ==>
      r[k].status == status && r[k].paidAt == (if paidAt.Some? then paidAt else rows[k].paidAt)
      && r[k].(status := rows[k].status, paidAt := rows[k].paidAt) == rows[k]
  {
    seq(|rows|, k requires 0 <= k < |rows| => if rows[k].id == id then StatusSet(rows[k], status, paidAt) else rows[k])
  }

  /** Marking as paid twice keeps only the second time: the first `paidAt`
      is overwritten. */
  lemma MarkAsPaidTwice(rows: seq<Installment>, id: int, first: int, second: int)
    ensures WithStatus(WithStatus(rows, id, Paid, Some(first)), id, Paid, Some(second))
         == WithStatus(rows, id, Paid, Some(second))
  {
    var a := WithStatus(WithStatus(rows, id, Paid, Some(first)), id, Paid, Some(second));
    var b := WithStatus(rows, id, Paid, Some(second));
    assert |a| == |b|;
    forall k | 0 <= k < |a|
      ensures a[k] == b[k]
    {
    }
  }

  /** Moving a paid row back to pending keeps its payment time: nothing ties
      `paidAt` to `status`. */
  lemma PendingKeepsPaidAt(rows: seq<Installment>, id: int, k: int)
    requires 0 <= k < |rows| && rows[k].id == id && rows[k].status == Paid && rows[k].paidAt.Some?
    ensures var r := WithStatus(rows, id, Pending, None);
      r[k].status == Pending && r[k].paidAt == rows[k].paidAt
  {
  }

  /** `contacted ? 1 : 0` written to the addressed row only. */
  function WithContacted(rows: seq<Installment>, id: int, contacted: bool): (r: seq<Installment>)
    ensures |r| == |rows|
    ensures forall k :: 0 <= k < |rows| && rows[k].id != id ==> r[k] == rows[k]
    ensures forall k :: 0 <= k < |rows| && rows[k].id == id ==>
      (r[k].contacted == 1 <==> contacted) && (r[k].contacted == 0 <==> !contacted)
      && r[k].(contacted := rows[k].contacted) == rows[k]
  {
    seq(|rows|, k requires 0 <= k < |rows| =>
      if rows[k].id == id then rows[k].(contacted := if contacted then 1 else 0) else rows[k])
  }

  // ---------------------------------------------------------------------
  // Lookups and joins (server/db.ts)
  // ---------------------------------------------------------------------

  function UserByOpenId(users: seq<User>, openId: string): (r: Option<User>)
    ensures r.None? <==> forall k :: 0 <= k < |users| ==> users[k].openId != openId
    ensures r.Some? ==> r.value in users && r.value.openId == openId
  {
    Find(users, (u: User) => u.openId == openId)
  }

  function SaleById(sales: seq<Sale>, id: int): (r: Option<Sale>)
    ensures r.None? <==> !SaleExists(sales, id)
    ensures r.Some? ==> r.value in sales && r.value.id == id
  {
    Find(sales, (s: Sale) => s.id == id)
  }

  function ClientById(clients: seq<Client>, id: int): (r: Option<Client>)
    ensures r.None? <==> forall k :: 0 <= k < |clients| ==> clients[k].id != id
    ensures r.Some? ==> r.value in clients && r.value.id == id
  {
    Find(clients, (c: Client) => c.id == id)
  }

  /** An installment joined to its sale and that sale's client. */
  datatype Joined = Joined(inst: Installment, sale: Sale, client: Client)

  /** The inner joins installment → sale → client, restricted to sales of
      `userId`: keys are unique, so each installment joins at most once. */
  function JoinOne(inst: Installment, sales: seq<Sale>, clients: seq<Client>, userId: int): (r: Option<Joined>)
    ensures r.Some? <==>
      SaleById(sales, inst.saleId).Some? && SaleById(sales, inst.saleId).value.userId == userId
      && ClientById(clients, SaleById(sales, inst.saleId).value.clientId).Some?
    ensures r.Some? ==>
      (r.value.inst == inst && r.value.sale in sales && r.value.client in clients
       && r.value.sale.id == inst.saleId && r.value.sale.userId == userId && r.value.client.id == r.value.sale.clientId)
  {
    var sale := SaleById(sales, inst.saleId);
    if sale.None? || sale.value.userId != userId then None
    else
      var client := ClientById(clients, sale.value.clientId);
      if client.None? then None else Some(Joined(inst, sale.value, client.value))
  }

  /** The joined rows, in table order: an installment appears, joined,
      exactly when its sale belongs to the user and its client exists. */
  function JoinAll(insts: seq<Installment>, sales: seq<Sale>, clients: seq<Client>, userId: int): (r: seq<Joined>)
    ensures |r| <= |insts|
    ensures forall j :: j in r <==> j.inst in insts && JoinOne(j.inst, sales, clients, userId) == Some(j)
  {
    if insts == [] then []
    else
      var rest := JoinAll(insts[1..], sales, clients, userId);
      assert forall i :: i in insts <==> i == insts[0] || i in insts[1..];
      match JoinOne(insts[0], sales, clients, userId)
      case Some(j) => [j] + rest
      case None => rest
  }

  function JoinedDue(j: Joined): int { j.inst.dueDate }

  /** `desc(installments.dueDate)` as an ascending key. */
  function JoinedDueDesc(j: Joined): int { -j.inst.dueDate }

  function AsInstallmentRow(j: Joined): InstallmentRow
  {
    InstallmentRow(j.inst, j.client.name)
  }

  function AsDueRow(j: Joined): DueRow
  {
    DueRow(j.client.id, j.client.name, j.client.phone, j.inst.id, j.inst.number, j.inst.dueDate,
           j.inst.amount, j.inst.status, j.inst.contacted, j.inst.saleId)
  }

  function InstallmentRows(js: seq<Joined>): (r: seq<InstallmentRow>)
    ensures |r| == |js| && forall k :: 0 <= k < |js| ==> r[k] == AsInstallmentRow(js[k])
  {
    if js == [] then [] else [AsInstallmentRow(js[0])] + InstallmentRows(js[1..])
  }

  function DueRows(js: seq<Joined>): (r: seq<DueRow>)
    ensures |r| == |js| && forall k :: 0 <= k < |js| ==> r[k] == AsDueRow(js[k])
  {
    if js == [] then [] else [AsDueRow(js[0])] + DueRows(js[1..])
  }

  /** Adjacent order gives order between any two positions. */
  lemma SortedByPairs<T(!new)>(s: seq<T>, key: T -> int)
    requires SortedBy(s, key)
    ensures forall a, b :: 0 <= a < b < |s| ==> key(s[a]) <= key(s[b])
  {
    forall a, b | 0 <= a < b < |s|
      ensures key(s[a]) <= key(s[b])
    {
      var c := a;
      while c < b
        invariant a <= c <= b
        invariant key(s[a]) <= key(s[c])
      {
        c := c + 1;
      }
    }
  }

  /** A permutation has the same members. */
  lemma SameMembers<T>(a: seq<T>, b: seq<T>)
    requires multiset(a) == multiset(b)
    ensures forall x :: x in a <==> x in b
  {
    forall x ensures x in a <==> x in b {
      assert x in a <==> x in multiset(a);
      assert x in b <==> x in multiset(b);
    }
  }

  /** `getInstallmentsByUserId`: the user's joined installments, latest due
      date first. */
  function InstallmentsOfUser(insts: seq<Installment>, sales: seq<Sale>, clients: seq<Client>, userId: int): (r: seq<InstallmentRow>)
    ensures forall a, b :: 0 <= a < b < |r| ==> r[a].inst.dueDate >= r[b].inst.dueDate
  {
    var sorted := SortBy(JoinAll(insts, sales, clients, userId), JoinedDueDesc);
    SortedByPairs(sorted, JoinedDueDesc);
    InstallmentRows(sorted)
  }

  /** A row is listed exactly when its installment is in the table, its sale
      belongs to the user and its client exists; the row carries that
      client's name. */
  lemma InstallmentsOfUserMembers(insts: seq<Installment>, sales: seq<Sale>, clients: seq<Client>, userId: int, row: InstallmentRow)
    ensures row in InstallmentsOfUser(insts, sales, clients, userId) <==>
      row.inst in insts && JoinOne(row.inst, sales, clients, userId).Some?
      && row.clientName == JoinOne(row.inst, sales, clients, userId).value.client.name
  {
    var joined := JoinAll(insts, sales, clients, userId);
    var sorted := SortBy(joined, JoinedDueDesc);
    SameMembers(sorted, joined);
    RowsOfJoined(sorted, row);
  }

  /** A row comes from a joined installment exactly when it is that
      installment with that client's name. */
  lemma RowsOfJoined(js: seq<Joined>, row: InstallmentRow)
    ensures row in InstallmentRows(js) <==> exists j :: j in js && j.inst == row.inst && j.client.name == row.clientName
  {
    var r := InstallmentRows(js);
    if row in r {
      var a :| 0 <= a < |r| && r[a] == row;
      assert js[a] in js;
    }
    if exists j :: j in js && j.inst == row.inst && j.client.name == row.clientName {
      var j :| j in js && j.inst == row.inst && j.client.name == row.clientName;
      var a :| 0 <= a < |js| && js[a] == j;
      assert r[a] == row;
    }
  }

  const DefaultDaysAhead: int := 7

  /** Stored pending, due between today 00:00 and the end of the last day
      of the window, both included. */
  predicate DueWithin(j: Joined, from: int, to: int)
  {
    j.inst.status == Pending && from <= j.inst.dueDate <= to
  }

  function DueJoined(insts: seq<Installment>, sales: seq<Sale>, clients: seq<Client>,
                     userId: int, today: int, daysAhead: Option<int>): (r: seq<Joined>)
    ensures SortedBy(r, JoinedDue)
    ensures forall j :: j in r <==>
      (j in JoinAll(insts, sales, clients, userId)
       && DueWithin(j, StartOfDay(today), EndOfDay(today + daysAhead.GetOr(DefaultDaysAhead))))
  {
    var kept := InWindow(JoinAll(insts, sales, clients, userId),
                         StartOfDay(today), EndOfDay(today + daysAhead.GetOr(DefaultDaysAhead)));
    SameMembers(SortBy(kept, JoinedDue), kept);
    SortBy(kept, JoinedDue)
  }

  function InWindow(js: seq<Joined>, from: int, to: int): (r: seq<Joined>)
    ensures forall j :: j in r <==> j in js && DueWithin(j, from, to)
  {
    Filter(js, j => DueWithin(j, from, to))
  }

  /** `getClientsWithDueInstallments`: the user's pending installments due
      from today's midnight to 23:59:59.999 `daysAhead` days later (7 when
      not given), earliest first. */
  function DueInstallments(insts: seq<Installment>, sales: seq<Sale>, clients: seq<Client>,
                           userId: int, today: int, daysAhead: Option<int>): (r: seq<DueRow>)
    ensures forall a, b :: 0 <= a < b < |r| ==> r[a].dueDate <= r[b].dueDate
  {
    var sorted := DueJoined(insts, sales, clients, userId, today, daysAhead);
    SortedByPairs(sorted, JoinedDue);
    DueRows(sorted)
  }

  /** The joined installments in the window are those stored pending whose
      due day runs from today to today + daysAhead. */
  lemma DueJoinedMembers(insts: seq<Installment>, sales: seq<Sale>, clients: seq<Client>,
                         userId: int, today: int, daysAhead: Option<int>, j: Joined)
    ensures j in DueJoined(insts, sales, clients, userId, today, daysAhead) <==>
      j.inst in insts && JoinOne(j.inst, sales, clients, userId) == Some(j)
      && j.inst.status == Pending && today <= DayOf(j.inst.dueDate) <= today + daysAhead.GetOr(DefaultDaysAhead)
  {
    DueJoinedWindow(insts, sales, clients, userId, today, daysAhead, j);
    DueWithinDays(j, today, today + daysAhead.GetOr(DefaultDaysAhead));
  }

  lemma DueJoinedWindow(insts: seq<Installment>, sales: seq<Sale>, clients: seq<Client>,
                        userId: int, today: int, daysAhead: Option<int>, j: Joined)
    ensures j in DueJoined(insts, sales, clients, userId, today, daysAhead) <==>
      j.inst in insts && JoinOne(j.inst, sales, clients, userId) == Some(j)
      && DueWithin(j, StartOfDay(today), EndOfDay(today + daysAhead.GetOr(DefaultDaysAhead)))
  {
    var due := DueJoined(insts, sales, clients, userId, today, daysAhead);
    var all := JoinAll(insts, sales, clients, userId);
    assert j in all <==> j.inst in insts && JoinOne(j.inst, sales, clients, userId) == Some(j);
  }

  lemma DueWithinDays(j: Joined, first: int, last: int)
    ensures DueWithin(j, StartOfDay(first), EndOfDay(last)) <==>
      j.inst.status == Pending && first <= DayOf(j.inst.dueDate) <= last
  {
    WithinDays(j.inst.dueDate, first, last);
  }

  /** A row is listed exactly when one of the user's joined installments is
      stored pending and falls on a day from today to today + daysAhead. */
  lemma DueInstallmentsMembers(insts: seq<Installment>, sales: seq<Sale>, clients: seq<Client>,
                               userId: int, today: int, daysAhead: Option<int>, row: DueRow)
    ensures row in DueInstallments(insts, sales, clients, userId, today, daysAhead) <==>
      exists j :: j in DueJoined(insts, sales, clients, userId, today, daysAhead) && row == AsDueRow(j)
    ensures row in DueInstallments(insts, sales, clients, userId, today, daysAhead) ==>
      row.status == Pending && today <= DayOf(row.dueDate) <= today + daysAhead.GetOr(DefaultDaysAhead)
  {
    var sorted := DueJoined(insts, sales, clients, userId, today, daysAhead);
    DueRowsOfJoined(sorted, row);
    if row in DueRows(sorted) {
      var j :| j in sorted && row == AsDueRow(j);
      DueJoinedMembers(insts, sales, clients, userId, today, daysAhead, j);
    }
  }

  lemma DueRowsOfJoined(js: seq<Joined>, row: DueRow)
    ensures row in DueRows(js) <==> exists j :: j in js && row == AsDueRow(j)
  {
    var r := DueRows(js);
    if row in r {
      var a :| 0 <= a < |r| && r[a] == row;
      assert js[a] in js;
    }
    if exists j :: j in js && row == AsDueRow(j) {
      var j :| j in js && row == AsDueRow(j);
      var a :| 0 <= a < |js| && js[a] == j;
      assert r[a] == row;
    }
  }

  // ---------------------------------------------------------------------
  // upsertUser (server/db.ts)
  // ---------------------------------------------------------------------

  /** A column of the users table as named in the insert values and the
      update set. */
  datatype Column = OpenIdCol | NameCol | EmailCol | LoginMethodCol | PasswordHashCol | LastSignedInCol | RoleCol

  datatype Value = Text(text: Option<string>) | Time(at: int) | RoleValue(role: Role)

  /** A nullable text property of the argument: left undefined, null, or a
      string. */
  datatype Field = Undefined | Null | Given(s: string)

  /** The argument of `upsertUser` (an `InsertUser`). */
  datatype UserInput = UserInput(
    openId: string,
    name: Field,
    email: Field,
    loginMethod: Field,
    passwordHash: Field,
    lastSignedIn: Option<int>,
    role: Option<Role>)

  predicate IsTextColumn(c: Column)
  {
    c == NameCol || c == EmailCol || c == LoginMethodCol || c == PasswordHashCol
  }

  /** The argument's property for a text column; other columns are not
      walked as text and read as undefined. */
  function FieldOf(user: UserInput, c: Column): (f: Field)
    ensures !IsTextColumn(c) ==> f == Undefined
  {
    match c
    case NameCol => user.name
    case EmailCol => user.email
    case LoginMethodCol => user.loginMethod
    case PasswordHashCol => user.passwordHash
    case _ => Undefined
  }

  /** `value ?? null`. */
  function Normalized(f: Field): Value
  {
    Text(if f.Given? then Some(f.s) else None)
  }

  /** The `textFields` list walked by `forEach(assignNullable)`. */
  const TextFields: seq<Column> := [NameCol, EmailCol, LoginMethodCol]

  /** The same walk including the password hash that the e-mail sign-up
      passes in; see the finding on `TextFields`. */
  const StoredTextFields: seq<Column> := TextFields + [PasswordHashCol]

  /** What `assignNullable` puts in one of the two dictionaries after
      walking `fields`: each defined field, normalised. */
  function TextEntries(user: UserInput, fields: seq<Column>): (m: map<Column, Value>)
    ensures forall c :: c in m <==> c in fields && FieldOf(user, c) != Undefined
    ensures forall c :: c in m ==> m[c] == Normalized(FieldOf(user, c))
  {
    if fields == [] then map[]
    else
      var c := fields[|fields| - 1];
      var m := TextEntries(user, fields[..|fields| - 1]);
      assert forall d :: d in fields <==> d in fields[..|fields| - 1] || d == c by {
        assert fields == fields[..|fields| - 1] + [c];
      }
      if FieldOf(user, c) == Undefined then m else m[c := Normalized(FieldOf(user, c))]
  }

  /** Walking one more field adds that field's entry, when it is defined. */
  lemma TextEntriesStep(user: UserInput, fields: seq<Column>, k: nat)
    requires k < |fields|
    ensures var m := TextEntries(user, fields[..k]);
      TextEntries(user, fields[..k + 1])
        == if FieldOf(user, fields[k]) == Undefined then m else m[fields[k] := Normalized(FieldOf(user, fields[k]))]
  {
    assert fields[..k + 1][..k] == fields[..k];
  }

  lemma MergeThenSet<K, V>(a: map<K, V>, b: map<K, V>, c: K, v: V)
    ensures a + b[c := v] == (a + b)[c := v]
  {
  }

  /** A given sign-in time. */
  function WithSignIn(m: map<Column, Value>, user: UserInput): map<Column, Value>
  {
    if user.lastSignedIn.Some? then m[LastSignedInCol := Time(user.lastSignedIn.value)] else m
  }

  /** An explicit role, else admin for the owner's openId, else nothing. */
  function WithRole(m: map<Column, Value>, user: UserInput, ownerOpenId: string): map<Column, Value>
  {
    if user.role.Some? then m[RoleCol := RoleValue(user.role.value)]
    else if user.openId == ownerOpenId then m[RoleCol := RoleValue(AdminRole)]
    else m
  }

  /** The insert values: the openId and the defined text fields, the
      sign-in time and role when they apply, and `now` as the sign-in time
      when none was given. */
  function ValuesFor(user: UserInput, fields: seq<Column>, ownerOpenId: string, now: int): map<Column, Value>
  {
    var m := WithRole(WithSignIn(map[OpenIdCol := Text(Some(user.openId))] + TextEntries(user, fields), user), user, ownerOpenId);
    if LastSignedInCol in m then m else m[LastSignedInCol := Time(now)]
  }

  /** The update set before the emptiness fallback. */
  function SetEntries(user: UserInput, fields: seq<Column>, ownerOpenId: string): map<Column, Value>
  {
    WithRole(WithSignIn(TextEntries(user, fields), user), user, ownerOpenId)
  }

  /** The update set applied on a duplicate openId; an otherwise empty set
      gets the sign-in time. */
  function UpdateSetFor(user: UserInput, fields: seq<Column>, ownerOpenId: string, now: int): map<Column, Value>
  {
    var m := SetEntries(user, fields, ownerOpenId);
    if |m| == 0 then map[LastSignedInCol := Time(now)] else m
  }

  /** Text fields: a walked field goes into both dictionaries exactly when it
      is defined, with null kept as null; an unwalked one into neither. */
  lemma UpsertTextFields(user: UserInput, fields: seq<Column>, ownerOpenId: string, now: int, c: Column)
    requires IsTextColumn(c)
    ensures var values := ValuesFor(user, fields, ownerOpenId, now);
      var updateSet := UpdateSetFor(user, fields, ownerOpenId, now);
      (c in values <==> c in fields && FieldOf(user, c) != Undefined)
      && (c in updateSet <==> c in fields && FieldOf(user, c) != Undefined)
      && (c in values ==> values[c] == updateSet[c] == Normalized(FieldOf(user, c)))
  {
    ValuesText(user, fields, ownerOpenId, now, c);
    UpdateSetText(user, fields, ownerOpenId, now, c);
  }

  lemma ValuesText(user: UserInput, fields: seq<Column>, ownerOpenId: string, now: int, c: Column)
    requires IsTextColumn(c)
    ensures var values := ValuesFor(user, fields, ownerOpenId, now);
      (c in values <==> c in fields && FieldOf(user, c) != Undefined)
      && (c in values ==> values[c] == Normalized(FieldOf(user, c)))
  {
    var t := TextEntries(user, fields);
    var base := map[OpenIdCol := Text(Some(user.openId))] + t;
    assert (c in base <==> c in t) && (c in t ==> base[c] == t[c]);
    TextEntryThrough(base, user, ownerOpenId, c);
  }

  lemma UpdateSetText(user: UserInput, fields: seq<Column>, ownerOpenId: string, now: int, c: Column)
    requires IsTextColumn(c)
    ensures var updateSet := UpdateSetFor(user, fields, ownerOpenId, now);
      (c in updateSet <==> c in fields && FieldOf(user, c) != Undefined)
      && (c in updateSet ==> updateSet[c] == Normalized(FieldOf(user, c)))
  {
    var t := TextEntries(user, fields);
    TextEntryThrough(t, user, ownerOpenId, c);
    var us := SetEntries(user, fields, ownerOpenId);
    assert c in us ==> |us| > 0 by {
      if c in us {
        assert c in us.Keys;
      }
    }
  }

  /** The role and sign-in columns leave a text column as it was. */
  lemma TextEntryThrough(m: map<Column, Value>, user: UserInput, ownerOpenId: string, c: Column)
    requires IsTextColumn(c)
    ensures var r := WithRole(WithSignIn(m, user), user, ownerOpenId);
      (c in r <==> c in m) && (c in m ==> r[c] == m[c])
  {
  }

  /** A walked text field given a value: the inserted and the updated row
      both read that value from their dictionary. */
  lemma UpsertGivenText(user: UserInput, fields: seq<Column>, ownerOpenId: string, now: int, c: Column, fallback: Option<string>)
    requires IsTextColumn(c) && c in fields && FieldOf(user, c).Given?
    ensures TextOr(ValuesFor(user, fields, ownerOpenId, now), c, fallback) == Some(FieldOf(user, c).s)
    ensures TextOr(UpdateSetFor(user, fields, ownerOpenId, now), c, fallback) == Some(FieldOf(user, c).s)
  {
    UpsertTextFields(user, fields, ownerOpenId, now, c);
  }

  /** Role: an explicit role wins, then admin for the owner's openId;
      otherwise neither dictionary mentions the role. */
  lemma UpsertRole(user: UserInput, fields: seq<Column>, ownerOpenId: string, now: int)
    ensures var values := ValuesFor(user, fields, ownerOpenId, now);
      var updateSet := UpdateSetFor(user, fields, ownerOpenId, now);
      (user.role.Some? ==> values[RoleCol] == updateSet[RoleCol] == RoleValue(user.role.value))
      && (user.role.None? && user.openId == ownerOpenId ==> values[RoleCol] == updateSet[RoleCol] == RoleValue(AdminRole))
      && (user.role.None? && user.openId != ownerOpenId ==> RoleCol !in values && RoleCol !in updateSet)
  {
  }

  /** The insert always carries the openId and a sign-in time, `now` by
      default; the openId is never in the update set. */
  lemma UpsertValuesSignIn(user: UserInput, fields: seq<Column>, ownerOpenId: string, now: int)
    ensures var values := ValuesFor(user, fields, ownerOpenId, now);
      values[LastSignedInCol] == Time(user.lastSignedIn.GetOr(now))
      && values[OpenIdCol] == Text(Some(user.openId))
      && OpenIdCol !in UpdateSetFor(user, fields, ownerOpenId, now)
  {
    var t := TextEntries(user, fields);
    assert OpenIdCol !in t && LastSignedInCol !in t;
  }

  /** The update set is never empty, and a given sign-in time is in it. */
  lemma UpdateSetNonEmpty(user: UserInput, fields: seq<Column>, ownerOpenId: string, now: int)
    ensures var updateSet := UpdateSetFor(user, fields, ownerOpenId, now);
      |updateSet| > 0
      && (user.lastSignedIn.Some? ==> updateSet[LastSignedInCol] == Time(user.lastSignedIn.value))
  {
    var m := SetEntries(user, fields, ownerOpenId);
    if user.lastSignedIn.Some? {
      assert LastSignedInCol in m.Keys;
      assert |m.Keys| > 0;
    } else if |m| == 0 {
      assert LastSignedInCol in UpdateSetFor(user, fields, ownerOpenId, now).Keys;
    }
  }

  function TextOr(m: map<Column, Value>, c: Column, fallback: Option<string>): Option<string>
  {
    if c in m && m[c].Text? then m[c].text else fallback
  }

  /** The row inserted from the values; absent columns take their
      defaults (null text, role `user`). */
  function InsertedUser(id: int, values: map<Column, Value>, openId: string, now: int): User
  {
    User(id, openId,
         TextOr(values, NameCol, None), TextOr(values, EmailCol, None), TextOr(values, LoginMethodCol, None),
         if RoleCol in values && values[RoleCol].RoleValue? then values[RoleCol].role else DefaultRole,
         if LastSignedInCol in values && values[LastSignedInCol].Time? then values[LastSignedInCol].at else now,
         TextOr(values, PasswordHashCol, None))
  }

  /** An existing row after the update set is applied: only the columns it
      names change. */
  function UpdatedUser(u: User, updateSet: map<Column, Value>): User
  {
    u.(name := TextOr(updateSet, NameCol, u.name),
       email := TextOr(updateSet, EmailCol, u.email),
       loginMethod := TextOr(updateSet, LoginMethodCol, u.loginMethod),
       passwordHash := TextOr(updateSet, PasswordHashCol, u.passwordHash),
       role := if RoleCol in updateSet && updateSet[RoleCol].RoleValue? then updateSet[RoleCol].role else u.role,
       lastSignedIn := if LastSignedInCol in updateSet && updateSet[LastSignedInCol].Time? then updateSet[LastSignedInCol].at else u.lastSignedIn)
  }

  function IndexOfOpenId(users: seq<User>, openId: string): (r: Option<nat>)
    ensures r.None? <==> forall k :: 0 <= k < |users| ==> users[k].openId != openId
    ensures r.Some? ==> r.value < |users| && users[r.value].openId == openId
  {
    if users == [] then None
    else if users[|users| - 1].openId == openId then Some(|users| - 1)
    else IndexOfOpenId(users[..|users| - 1], openId)
  }

  /** `insert … onDuplicateKeyUpdate` keyed by the unique openId. */
  function Upserted(users: seq<User>, nextId: int, user: UserInput, fields: seq<Column>, ownerOpenId: string, now: int): seq<User>
  {
    UpsertWith(users, nextId, user.openId, ValuesFor(user, fields, ownerOpenId, now), UpdateSetFor(user, fields, ownerOpenId, now), now)
  }

  /** The upsert once its two maps are assembled: the update set changes the
      row holding `openId`, or the values make a new row under `nextId`. */
  function UpsertWith(users: seq<User>, nextId: int, openId: string, values: map<Column, Value>, updateSet: map<Column, Value>, now: int): seq<User>
  {
    match IndexOfOpenId(users, openId)
    case Some(k) => users[k := UpdatedUser(users[k], updateSet)]
    case None => users + [InsertedUser(nextId, values, openId, now)]
  }

  predicate OpenIdsUnique(users: seq<User>)
  {
    forall i, j :: 0 <= i < j < |users| ==> users[i].openId != users[j].openId
  }

  /** The upserted openId has exactly one row afterwards: the updated row,
      or the appended one. */
  lemma UpsertedRow(users: seq<User>, nextId: int, user: UserInput, fields: seq<Column>, ownerOpenId: string, now: int)
    requires OpenIdsUnique(users)
    ensures var r := Upserted(users, nextId, user, fields, ownerOpenId, now);
      OpenIdsUnique(r) && UserByOpenId(r, user.openId).Some?
      && UserByOpenId(r, user.openId).value ==
         match IndexOfOpenId(users, user.openId)
         case Some(k) => UpdatedUser(users[k], UpdateSetFor(user, fields, ownerOpenId, now))
         case None => InsertedUser(nextId, ValuesFor(user, fields, ownerOpenId, now), user.openId, now)
  {
    var r := Upserted(users, nextId, user, fields, ownerOpenId, now);
    match IndexOfOpenId(users, user.openId)
    case Some(k) =>
      assert r[k].openId == user.openId;
      assert forall i :: 0 <= i < |r| && i != k ==> r[i] == users[i];
    case None =>
      assert r[|users|].openId == user.openId;
      assert forall i :: 0 <= i < |users| ==> r[i] == users[i];
  }

  /** A given name is stored whether the row is new or updated. */
  lemma UpsertedName(users: seq<User>, nextId: int, user: UserInput, fields: seq<Column>, ownerOpenId: string, now: int)
    requires OpenIdsUnique(users) && user.name.Given? && NameCol in fields
    ensures var r := Upserted(users, nextId, user, fields, ownerOpenId, now);
      UserByOpenId(r, user.openId).Some? && UserByOpenId(r, user.openId).value.name == Some(user.name.s)
  {
    UpsertedRow(users, nextId, user, fields, ownerOpenId, now);
    UpsertTextFields(user, fields, ownerOpenId, now, NameCol);
  }

  /** A new row carries the given password hash exactly when the hash's
      column is among the walked fields. */
  lemma UpsertedHash(users: seq<User>, nextId: int, user: UserInput, fields: seq<Column>, ownerOpenId: string, now: int)
    requires OpenIdsUnique(users) && IndexOfOpenId(users, user.openId).None?
    ensures var r := Upserted(users, nextId, user, fields, ownerOpenId, now);
      UserByOpenId(r, user.openId).Some?
      && UserByOpenId(r, user.openId).value.passwordHash ==
         (if PasswordHashCol in fields && user.passwordHash.Given? then Some(user.passwordHash.s) else None)
  {
    UpsertedRow(users, nextId, user, fields, ownerOpenId, now);
    InsertedHash(nextId, user, fields, ownerOpenId, now);
  }

  lemma InsertedHash(nextId: int, user: UserInput, fields: seq<Column>, ownerOpenId: string, now: int)
    ensures InsertedUser(nextId, ValuesFor(user, fields, ownerOpenId, now), user.openId, now).passwordHash ==
      (if PasswordHashCol in fields && user.passwordHash.Given? then Some(user.passwordHash.s) else None)
  {
    var values := ValuesFor(user, fields, ownerOpenId, now);
    ValuesText(user, fields, ownerOpenId, now, PasswordHashCol);
    TextOrNormalized(values, PasswordHashCol, fields, user.passwordHash);
    assert InsertedUser(nextId, values, user.openId, now).passwordHash == TextOr(values, PasswordHashCol, None);
  }

  /** The columns of an inserted user: the given text of each walked text
      column (null otherwise) and the sign-in time, given or now. */
  lemma InsertedUserFields(nextId: int, user: UserInput, fields: seq<Column>, ownerOpenId: string, now: int)
    ensures var u := InsertedUser(nextId, ValuesFor(user, fields, ownerOpenId, now), user.openId, now);
      u.id == nextId && u.openId == user.openId
      && u.name == (if NameCol in fields && user.name.Given? then Some(user.name.s) else None)
      && u.email == (if EmailCol in fields && user.email.Given? then Some(user.email.s) else None)
      && u.loginMethod == (if LoginMethodCol in fields && user.loginMethod.Given? then Some(user.loginMethod.s) else None)
      && u.passwordHash == (if PasswordHashCol in fields && user.passwordHash.Given? then Some(user.passwordHash.s) else None)
      && u.lastSignedIn == user.lastSignedIn.GetOr(now)
  {
    var values := ValuesFor(user, fields, ownerOpenId, now);
    ValuesText(user, fields, ownerOpenId, now, NameCol);
    TextOrNormalized(values, NameCol, fields, user.name);
    ValuesText(user, fields, ownerOpenId, now, EmailCol);
    TextOrNormalized(values, EmailCol, fields, user.email);
    ValuesText(user, fields, ownerOpenId, now, LoginMethodCol);
    TextOrNormalized(values, LoginMethodCol, fields, user.loginMethod);
    ValuesText(user, fields, ownerOpenId, now, PasswordHashCol);
    TextOrNormalized(values, PasswordHashCol, fields, user.passwordHash);
    UpsertValuesSignIn(user, fields, ownerOpenId, now);
  }

  /** A text column read back from the values: the given text, or null. */
  lemma TextOrNormalized(values: map<Column, Value>, c: Column, fields: seq<Column>, f: Field)
    requires c in values <==> c in fields && f != Undefined
    requires c in values ==> values[c] == Normalized(f)
    ensures TextOr(values, c, None) == if c in fields && f.Given? then Some(f.s) else None
  {
  }

  /** As written, the walked list leaves out the password hash: a new user
      inserted with a hash is stored without one. */
  lemma HashDroppedAsWritten(users: seq<User>, nextId: int, user: UserInput, ownerOpenId: string, now: int)
    requires OpenIdsUnique(users) && IndexOfOpenId(users, user.openId).None? && user.passwordHash.Given?
    ensures var r := Upserted(users, nextId, user, TextFields, ownerOpenId, now);
      UserByOpenId(r, user.openId).Some? && UserByOpenId(r, user.openId).value.passwordHash.None?
  {
    UpsertedHash(users, nextId, user, TextFields, ownerOpenId, now);
  }

  /** With the hash's column walked, the hash is stored. */
  lemma HashStored(users: seq<User>, nextId: int, user: UserInput, ownerOpenId: string, now: int)
    requires OpenIdsUnique(users) && IndexOfOpenId(users, user.openId).None? && user.passwordHash.Given?
    ensures var r := Upserted(users, nextId, user, StoredTextFields, ownerOpenId, now);
      UserByOpenId(r, user.openId).Some? && UserByOpenId(r, user.openId).value.passwordHash == Some(user.passwordHash.s)
  {
    UpsertedHash(users, nextId, user, StoredTextFields, ownerOpenId, now);
  }

  /** An upsert keeps keys increasing and openIds unique; it hands out a
      new key only when it inserts. */
  lemma UpsertWithValid(users: seq<User>, nextId: int, openId: string, values: map<Column, Value>, updateSet: map<Column, Value>, now: int)
    requires IdsIncreasing(users, UserId, nextId) && OpenIdsUnique(users) && nextId > 0
    ensures var next := if IndexOfOpenId(users, openId).None? then nextId + 1 else nextId;
      IdsIncreasing(UpsertWith(users, nextId, openId, values, updateSet, now), UserId, next)
      && OpenIdsUnique(UpsertWith(users, nextId, openId, values, updateSet, now))
  {
    var r := UpsertWith(users, nextId, openId, values, updateSet, now);
    match IndexOfOpenId(users, openId)
    case Some(k) =>
      assert forall i :: 0 <= i < |r| ==> r[i].id == users[i].id && r[i].openId == users[i].openId;
      IdsIncreasingSameKeys(users, r, UserId, nextId);
    case None =>
      IdsIncreasingAppend(users, InsertedUser(nextId, values, openId, now), UserId, nextId);
  }}
