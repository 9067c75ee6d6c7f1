/** The server's database as an in-memory store (server/db.ts over the
    tables of drizzle/schema.ts), together with the tRPC procedures of
    server/routers.ts that write to it. One sequence per table in insertion
    order, one auto-increment counter per table, and `available` for
    whether `getDb()` found a connection: without one, reads answer empty
    and writes fail with "Database not available". */
module Store {
  import opened Wrappers
  import opened Schema
  import opened Tables
  import WhatsApp
  import Seqs
  import Text

  datatype StoreError = DatabaseNotAvailable | InvalidStatus | OpenIdRequired

  /** The lookup failures of `installments.sendNotification`, in the order
      they are checked. */
  datatype NotifyError = InstallmentNotFound | SaleNotFound | ClientNotFound | NoPhone

  /** A handled notification: the address and text handed to the messaging
      service, whether it was delivered, and the text returned to the
      caller. */
  datatype Notice = Notice(to: string, body: string, success: bool, message: string)

  /** `sendNotification` reads the installments of this user, whoever calls. */
  const NotifyingUser: int := 1

  /** The last step of `sendNotification`: refused without a phone number;
      otherwise the message goes to the client's normalised number, names
      the client, and the reply reports the send's outcome. */
  function ComposeNotice(client: Client, inst: Installment, formatDate: int -> string, delivered: bool): (r: Result<Notice, NotifyError>)
    ensures r.Err? <==> client.phone.None? || client.phone.value == []
    ensures r.Err? ==> r.error == NoPhone
    ensures r.Ok? ==>
      r.value.to == WhatsApp.Destination(client.phone.value) && Text.Contains(r.value.body, client.name)
      && r.value.success == delivered && r.value.message == (if delivered then "Notificacao enviada!" else "Erro ao enviar")
  {
    if client.phone.None? || client.phone.value == [] then Err(NoPhone)
    else
      var due := formatDate(inst.dueDate);
      WhatsApp.NotificationNamesClient(client.name, inst.number, inst.amount, due);
      Ok(Notice(WhatsApp.Destination(client.phone.value),
                WhatsApp.FormatInstallmentNotification(client.name, inst.number, inst.amount, due), delivered,
                if delivered then "Notificacao enviada!" else "Erro ao enviar"))
  }

  class SalesStore {
    var available: bool
    var users: seq<User>
    var clients: seq<Client>
    var sales: seq<Sale>
    var products: seq<Product>
    var installments: seq<Installment>
    var nextUserId: int
    var nextClientId: int
    var nextSaleId: int
    var nextProductId: int
    var nextInstallmentId: int

    /** Keys are positive, increasing and below their counters; openIds are
        unique (the column's UNIQUE constraint). */
    ghost predicate Valid()
      reads this
    {
      nextUserId > 0 && nextClientId > 0 && nextSaleId > 0 && nextProductId > 0 && nextInstallmentId > 0
      && IdsIncreasing(users, UserId, nextUserId) && OpenIdsUnique(users)
      && IdsIncreasing(clients, ClientId, nextClientId)
      && IdsIncreasing(sales, SaleId, nextSaleId)
      && IdsIncreasing(products, ProductId, nextProductId)
      && IdsIncreasing(installments, InstallmentId, nextInstallmentId)
    }

    /** Every product and installment belongs to a stored sale. */
    ghost predicate RowsLinked()
      reads this
    {
      Linked(sales, products, installments)
    }

    constructor(connected: bool)
      ensures Valid() && RowsLinked()
      ensures available == connected
      ensures users == [] && clients == [] && sales == [] && products == [] && installments == []
    {
      available := connected;
      users, clients, sales, products, installments := [], [], [], [], [];
      nextUserId, nextClientId, nextSaleId, nextProductId, nextInstallmentId := 1, 1, 1, 1, 1;
    }

    // -------------------------------------------------------------------
    // Inserts (server/db.ts)
    // -------------------------------------------------------------------

    /** `createSale`: inserts the sale row and answers its key. */
    method CreateSaleRow(userId: int, input: SaleInput) returns (r: Result<int, StoreError>)
      requires Valid()
      modifies this
      ensures Valid()
      ensures old(RowsLinked()) ==> RowsLinked()
      ensures !old(available) ==> r == Err(DatabaseNotAvailable) && unchanged(this)
      ensures old(available) ==>
        (r == Ok(old(nextSaleId)) && SaleExists(sales, old(nextSaleId))
         && sales == old(sales) + [SaleRow(old(nextSaleId), userId, input)]
         && nextSaleId == old(nextSaleId) + 1
         && unchanged(this`available, this`users, this`clients, this`products, this`installments)
         && unchanged(this`nextUserId, this`nextClientId, this`nextProductId, this`nextInstallmentId))
    {
      if !available {
        return Err(DatabaseNotAvailable);
      }
      var row := SaleRow(nextSaleId, userId, input);
      IdsIncreasingAppend(sales, row, SaleId, nextSaleId);
      if RowsLinked() {
        LinkedAddSale(sales, products, installments, row);
      }
      sales := sales + [row];
      assert sales[|sales| - 1].id == nextSaleId;
      r := Ok(nextSaleId);
      nextSaleId := nextSaleId + 1;
    }

    /** `createProduct`. */
    method CreateProduct(saleId: int, line: ProductInput) returns (r: Result<int, StoreError>)
      requires Valid()
      modifies this
      ensures Valid()
      ensures old(RowsLinked()) && SaleExists(sales, saleId) ==> RowsLinked()
      ensures !old(available) ==> r == Err(DatabaseNotAvailable) && unchanged(this)
      ensures old(available) ==>
        (r == Ok(old(nextProductId))
         && products == old(products) + [Product(old(nextProductId), saleId, line.description, line.price, line.quantity)]
         && nextProductId == old(nextProductId) + 1
         && unchanged(this`available, this`users, this`clients, this`sales, this`installments)
         && unchanged(this`nextUserId, this`nextClientId, this`nextSaleId, this`nextInstallmentId))
    {
      if !available {
        return Err(DatabaseNotAvailable);
      }
      var row := Product(nextProductId, saleId, line.description, line.price, line.quantity);
      IdsIncreasingAppend(products, row, ProductId, nextProductId);
      if RowsLinked() && SaleExists(sales, saleId) {
        LinkedAddProduct(sales, products, installments, row);
      }
      products := products + [row];
      r := Ok(nextProductId);
      nextProductId := nextProductId + 1;
    }

    /** `createInstallment`; `contacted` starts at its default 0. */
    method CreateInstallment(saleId: int, number: int, dueDate: int, amount: int,
                             status: InstallmentStatus, paidAt: Option<int>) returns (r: Result<int, StoreError>)
      requires Valid()
      modifies this
      ensures Valid()
      ensures old(RowsLinked()) && SaleExists(sales, saleId) ==> RowsLinked()
      ensures !old(available) ==> r == Err(DatabaseNotAvailable) && unchanged(this)
      ensures old(available) ==>
        (r == Ok(old(nextInstallmentId))
         && installments == old(installments)
              + [Installment(old(nextInstallmentId), saleId, number, dueDate, amount, status, paidAt, DefaultContacted)]
         && nextInstallmentId == old(nextInstallmentId) + 1
         && unchanged(this`available, this`users, this`clients, this`sales, this`products)
         && unchanged(this`nextUserId, this`nextClientId, this`nextSaleId, this`nextProductId))
    {
      if !available {
        return Err(DatabaseNotAvailable);
      }
      var row := Installment(nextInstallmentId, saleId, number, dueDate, amount, status, paidAt, DefaultContacted);
      IdsIncreasingAppend(installments, row, InstallmentId, nextInstallmentId);
      if RowsLinked() && SaleExists(sales, saleId) {
        LinkedAddInstallment(sales, products, installments, row);
      }
      installments := installments + [row];
      r := Ok(nextInstallmentId);
      nextInstallmentId := nextInstallmentId + 1;
    }

    // -------------------------------------------------------------------
    // sales.create (server/routers.ts)
    // -------------------------------------------------------------------

    /** The sale row, then one product row per line, then the installment
      rows: the listed ones, or a single paid one for a cash sale. */
    method CreateSale(userId: int, input: SaleInput, now: int) returns (r: Result<int, StoreError>)
      requires Valid()
      modifies this
      ensures Valid()
      ensures old(RowsLinked()) ==> RowsLinked()
      ensures !old(available) ==> r == Err(DatabaseNotAvailable) && unchanged(this)
      ensures old(available) ==>
        (r == Ok(old(nextSaleId))
         && sales == old(sales) + [SaleRow(old(nextSaleId), userId, input)]
         && products == old(products) + ProductRows(old(nextSaleId), input.products, old(nextProductId))
         && installments == old(installments) + InstallmentRowsFor(old(nextSaleId), input, now, old(nextInstallmentId))
         && unchanged(this`available, this`users, this`clients))
    {
      var created := CreateSaleRow(userId, input);
      if created.Err? {
        return Err(created.error);
      }
      var saleId := created.value;
      InsertProducts(saleId, input.products);
      InsertInstallments(saleId, input, now);
      r := Ok(saleId);
    }

    /** The `for` loop over the products of `sales.create`. */
    method InsertProducts(saleId: int, lines: seq<ProductInput>)
      requires Valid() && available && SaleExists(sales, saleId)
      modifies this
      ensures Valid() && available
      ensures old(RowsLinked()) ==> RowsLinked()
      ensures products == old(products) + ProductRows(saleId, lines, old(nextProductId))
      ensures unchanged(this`users, this`clients, this`sales, this`installments, this`nextInstallmentId)
    {
      var first := nextProductId;
      for k := 0 to |lines|
        invariant Valid() && available && sales == old(sales)
        invariant old(RowsLinked()) ==> RowsLinked()
        invariant products == old(products) + ProductRows(saleId, lines[..k], first)
        invariant nextProductId == first + k
        invariant installments == old(installments) && nextInstallmentId == old(nextInstallmentId)
        invariant users == old(users) && clients == old(clients)
      {
        ProductRowsStep(old(products), saleId, lines, k, first);
        ghost var before := products;
        var _ := CreateProduct(saleId, lines[k]);
        assert products == before + [Product(first + k, saleId, lines[k].description, lines[k].price, lines[k].quantity)];
      }
      assert lines[..|lines|] == lines;
    }

    /** The installment branch of `sales.create`: the listed installments
      one by one, or the single paid one of a cash sale. */
    method InsertInstallments(saleId: int, input: SaleInput, now: int)
      requires Valid() && available && SaleExists(sales, saleId)
      modifies this
      ensures Valid() && available
      ensures old(RowsLinked()) ==> RowsLinked()
      ensures installments == old(installments) + InstallmentRowsFor(saleId, input, now, old(nextInstallmentId))
      ensures unchanged(this`users, this`clients, this`sales, this`products)
    {
      var first := nextInstallmentId;
      if HasListedInstallments(input) {
        var list := input.installments.value;
        for k := 0 to |list|
          invariant Valid() && available && sales == old(sales) && products == old(products)
          invariant old(RowsLinked()) ==> RowsLinked()
          invariant installments == old(installments) + ListedRows(saleId, list[..k], first)
          invariant nextInstallmentId == first + k
          invariant users == old(users) && clients == old(clients)
        {
          ListedRowsStep(old(installments), saleId, list, k, first);
          ghost var before := installments;
          var _ := CreateInstallment(saleId, list[k].number, list[k].dueDate, list[k].amount, DefaultStatus, None);
          assert installments == before + [Installment(first + k, saleId, list[k].number, list[k].dueDate, list[k].amount,
                                                       DefaultStatus, None, DefaultContacted)];
        }
        assert list[..|list|] == list;
      } else if input.paymentType == Cash {
        var _ := CreateInstallment(saleId, 1, input.date, input.total, Paid, Some(now));
      }
    }

    // -------------------------------------------------------------------
    // Deletes and updates (server/db.ts, server/routers.ts)
    // -------------------------------------------------------------------

    /** `deleteSale`: the sale's products, then its installments, then the
      sale itself; rows of other sales stay, in order. */
    method DeleteSale(saleId: int) returns (r: Result<(), StoreError>)
      requires Valid()
      modifies this
      ensures Valid()
      ensures old(RowsLinked()) ==> RowsLinked()
      ensures !old(available) ==> r == Err(DatabaseNotAvailable) && unchanged(this)
      ensures old(available) ==>
        (r == Ok(())
         && products == ProductsWithout(old(products), saleId)
         && installments == InstallmentsWithout(old(installments), saleId)
         && sales == SalesWithout(old(sales), saleId)
         && unchanged(this`available, this`users, this`clients)
         && unchanged(this`nextUserId, this`nextClientId, this`nextSaleId, this`nextProductId, this`nextInstallmentId))
    {
      if !available {
        return Err(DatabaseNotAvailable);
      }
      var s2, p2, i2 := SalesWithout(sales, saleId), ProductsWithout(products, saleId), InstallmentsWithout(installments, saleId);
      CascadeKeepsIds(sales, products, installments, saleId, nextSaleId, nextProductId, nextInstallmentId);
      if RowsLinked() {
        CascadeKeepsLinked(sales, products, installments, saleId);
      }
      sales, products, installments := s2, p2, i2;
      r := Ok(());
    }

    /** `updateInstallmentStatus`: sets the status, and `paidAt` only when
      one is given. */
    method UpdateInstallmentStatus(id: int, status: InstallmentStatus, paidAt: Option<int>) returns (r: Result<(), StoreError>)
      requires Valid()
      modifies this
      ensures Valid()
      ensures old(RowsLinked()) ==> RowsLinked()
      ensures !old(available) ==> r == Err(DatabaseNotAvailable) && unchanged(this)
      ensures old(available) ==>
        (r == Ok(())
         && installments == WithStatus(old(installments), id, status, paidAt)
         && unchanged(this`available, this`users, this`clients, this`sales, this`products)
         && unchanged(this`nextUserId, this`nextClientId, this`nextSaleId, this`nextProductId, this`nextInstallmentId))
    {
      if !available {
        return Err(DatabaseNotAvailable);
      }
      var updated := WithStatus(installments, id, status, paidAt);
      assert forall k :: 0 <= k < |updated| ==> updated[k].id == installments[k].id && updated[k].saleId == installments[k].saleId;
      IdsIncreasingSameKeys(installments, updated, InstallmentId, nextInstallmentId);
      if RowsLinked() {
        LinkedSameSales(sales, products, installments, updated);
      }
      installments := updated;
      r := Ok(());
    }

    /** `installments.markAsPaid`: paid, at `now`, on every call. */
    method MarkAsPaid(id: int, now: int) returns (r: Result<(), StoreError>)
      requires Valid()
      modifies this
      ensures Valid()
      ensures old(RowsLinked()) ==> RowsLinked()
      ensures !old(available) ==> r == Err(DatabaseNotAvailable) && unchanged(this)
      ensures old(available) ==>
        (r == Ok(())
         && installments == WithStatus(old(installments), id, Paid, Some(now))
         && unchanged(this`available, this`users, this`clients, this`sales, this`products))
    {
      r := UpdateInstallmentStatus(id, Paid, Some(now));
    }

    /** `installments.updateStatus`: the status text must be one of the three
      column values (checked before the store is touched), and `paidAt`
      is supplied only when the new status is paid. */
    method UpdateStatus(id: int, status: string, now: int) returns (r: Result<(), StoreError>)
      requires Valid()
      modifies this
      ensures Valid()
      ensures old(RowsLinked()) ==> RowsLinked()
      ensures ParseStatus(status).None? ==> r == Err(InvalidStatus) && unchanged(this)
      ensures ParseStatus(status).Some? && !old(available) ==> r == Err(DatabaseNotAvailable) && unchanged(this)
      ensures ParseStatus(status).Some? && old(available) ==>
        (r == Ok(())
         && installments == WithStatus(old(installments), id, ParseStatus(status).value,
                                       if status == "paid" then Some(now) else None)
         && unchanged(this`available, this`users, this`clients, this`sales, this`products))
    {
      var parsed := ParseStatus(status);
      if parsed.None? {
        return Err(InvalidStatus);
      }
      r := UpdateInstallmentStatus(id, parsed.value, if status == "paid" then Some(now) else None);
    }

    /** `updateInstallmentContacted`: stores 1 for true and 0 for false on
      the addressed row. */
    method UpdateInstallmentContacted(id: int, contacted: bool) returns (r: Result<(), StoreError>)
      requires Valid()
      modifies this
      ensures Valid()
      ensures old(RowsLinked()) ==> RowsLinked()
      ensures !old(available) ==> r == Err(DatabaseNotAvailable) && unchanged(this)
      ensures old(available) ==>
        (r == Ok(())
         && installments == WithContacted(old(installments), id, contacted)
         && unchanged(this`available, this`users, this`clients, this`sales, this`products)
         && unchanged(this`nextUserId, this`nextClientId, this`nextSaleId, this`nextProductId, this`nextInstallmentId))
    {
      if !available {
        return Err(DatabaseNotAvailable);
      }
      var updated := WithContacted(installments, id, contacted);
      assert forall k :: 0 <= k < |updated| ==> updated[k].id == installments[k].id && updated[k].saleId == installments[k].saleId;
      IdsIncreasingSameKeys(installments, updated, InstallmentId, nextInstallmentId);
      if RowsLinked() {
        LinkedSameSales(sales, products, installments, updated);
      }
      installments := updated;
      r := Ok(());
    }

    // -------------------------------------------------------------------
    // upsertUser (server/db.ts)
    // -------------------------------------------------------------------

    /** `upsertUser`: fails without an openId, does nothing without a
      connection, and otherwise inserts the assembled values or, for an
      existing openId, applies the update set to that row. The text
      columns walked are name, e-mail and login method only, so a password
      hash in the input is not written. */
    method UpsertUser(user: UserInput, ownerOpenId: string, now: int) returns (r: Result<(), StoreError>)
      requires Valid()
      modifies this
      ensures Valid()
      ensures old(RowsLinked()) ==> RowsLinked()
      ensures user.openId == [] ==> r == Err(OpenIdRequired) && unchanged(this)
      ensures user.openId != [] && !old(available) ==> r == Ok(()) && unchanged(this)
      ensures user.openId != [] && old(available) ==>
        (r == Ok(())
         && users == Upserted(old(users), old(nextUserId), user, TextFields, ownerOpenId, now)
         && unchanged(this`available, this`clients, this`sales, this`products, this`installments))
    {
      if user.openId == [] {
        return Err(OpenIdRequired);
      }
      if !available {
        return Ok(());
      }
      WriteUser(user, TextFields, ownerOpenId, now);
      r := Ok(());
    }

    /** The insert-or-update itself, with the text fields walked in the
      order given. */
    method WriteUser(user: UserInput, fields: seq<Column>, ownerOpenId: string, now: int)
      requires Valid() && available
      modifies this`users, this`nextUserId
      ensures Valid()
      ensures users == Upserted(old(users), old(nextUserId), user, fields, ownerOpenId, now)
      ensures unchanged(this`available, this`clients, this`sales, this`products, this`installments)
    {
      var values, updateSet := AssembleUpsert(user, fields, ownerOpenId, now);
      StoreUpsert(user.openId, values, updateSet, now);
    }

    /** The row write of an upsert, on maps already assembled. */
    method StoreUpsert(openId: string, values: map<Column, Value>, updateSet: map<Column, Value>, now: int)
      requires Valid()
      modifies this`users, this`nextUserId
      ensures Valid()
      ensures users == UpsertWith(old(users), old(nextUserId), openId, values, updateSet, now)
      ensures unchanged(this`available, this`clients, this`sales, this`products, this`installments)
    {
      UpsertWithValid(users, nextUserId, openId, values, updateSet, now);
      match IndexOfOpenId(users, openId)
      case Some(k) =>
        users := users[k := UpdatedUser(users[k], updateSet)];
      case None =>
        users := users + [InsertedUser(nextUserId, values, openId, now)];
        nextUserId := nextUserId + 1;
    }

    // -------------------------------------------------------------------
    // Reads (server/db.ts): empty answers without a connection
    // -------------------------------------------------------------------

    function GetUserByOpenId(openId: string): (r: Option<User>)
      reads this
      ensures r.Some? <==> available && exists k :: 0 <= k < |users| && users[k].openId == openId
      ensures r.Some? ==> r.value in users && r.value.openId == openId
    {
      if !available then None else UserByOpenId(users, openId)
    }

    function GetSaleById(id: int): (r: Option<Sale>)
      reads this
      ensures r.Some? <==> available && SaleExists(sales, id)
      ensures r.Some? ==> r.value in sales && r.value.id == id
    {
      if !available then None else SaleById(sales, id)
    }

    function GetClientById(id: int): (r: Option<Client>)
      reads this
      ensures r.Some? <==> available && exists k :: 0 <= k < |clients| && clients[k].id == id
      ensures r.Some? ==> r.value in clients && r.value.id == id
    {
      if !available then None else ClientById(clients, id)
    }

    /** `getInstallmentsByUserId`. */
    function InstallmentsByUser(userId: int): (r: seq<InstallmentRow>)
      reads this
      ensures !available ==> r == []
      ensures forall a, b :: 0 <= a < b < |r| ==> r[a].inst.dueDate >= r[b].inst.dueDate
    {
      if !available then [] else InstallmentsOfUser(installments, sales, clients, userId)
    }

    /** `getClientsWithDueInstallments`. */
    function ClientsWithDueInstallments(userId: int, today: int, daysAhead: Option<int>): (r: seq<DueRow>)
      reads this
      ensures !available ==> r == []
      ensures forall a, b :: 0 <= a < b < |r| ==> r[a].dueDate <= r[b].dueDate
    {
      if !available then [] else DueInstallments(installments, sales, clients, userId, today, daysAhead)
    }

    // -------------------------------------------------------------------
    // installments.sendNotification (server/routers.ts)
    // -------------------------------------------------------------------

    /** The lookup chain and the message. `formatDate` stands for the
      pt-BR date rendering and `delivered` for the outcome of the send,
      which never throws. */
    function SendNotification(installmentId: int, formatDate: int -> string, delivered: bool): (r: Result<Notice, NotifyError>)
      reads this
    {
      match NotifyRow(installmentId)
      case None => Err(InstallmentNotFound)
      case Some(row) =>
        match GetSaleById(row.inst.saleId)
        case None => Err(SaleNotFound)
        case Some(sale) =>
          match GetClientById(sale.clientId)
          case None => Err(ClientNotFound)
          case Some(client) =>
            ComposeNotice(client, row.inst, formatDate, delivered)
    }

    /** The first of user 1's installment rows with the given id. */
    function NotifyRow(installmentId: int): Option<InstallmentRow>
      reads this
    {
      Seqs.Find(InstallmentsByUser(NotifyingUser), (row: InstallmentRow) => row.inst.id == installmentId)
    }

    /** The installment is looked up among user 1's rows only: one whose
      sale belongs to another user is never found. */
    lemma NotifyOnlyUserOne(installmentId: int, formatDate: int -> string, delivered: bool)
      requires forall k :: 0 <= k < |installments| && installments[k].id == installmentId ==>
        SaleById(sales, installments[k].saleId).None? || SaleById(sales, installments[k].saleId).value.userId != NotifyingUser
      ensures SendNotification(installmentId, formatDate, delivered) == Err(InstallmentNotFound)
    {
      var rows := InstallmentsByUser(NotifyingUser);
      forall a | 0 <= a < |rows|
        ensures rows[a].inst.id != installmentId
      {
        if available {
          InstallmentsOfUserMembers(installments, sales, clients, NotifyingUser, rows[a]);
        }
      }
    }

    /** The sale and client checks never fire: the installment was found
      through the joins, which already required both. */
    lemma NotifyLookupsAfterJoin(installmentId: int, formatDate: int -> string, delivered: bool)
      ensures SendNotification(installmentId, formatDate, delivered) != Err(SaleNotFound)
      ensures SendNotification(installmentId, formatDate, delivered) != Err(ClientNotFound)
    {
      var found := NotifyRow(installmentId);
      if found.Some? {
        var row := found.value;
        assert available;
        InstallmentsOfUserMembers(installments, sales, clients, NotifyingUser, row);
        var j := JoinOne(row.inst, sales, clients, NotifyingUser).value;
        assert GetSaleById(row.inst.saleId) == Some(j.sale);
        assert GetClientById(j.sale.clientId).Some?;
      }
    }

    /** A handled notification goes to the client's normalised number, its
      text names the client, and the reply reports the send's outcome. */
    lemma NotifySent(installmentId: int, formatDate: int -> string, delivered: bool)
      requires SendNotification(installmentId, formatDate, delivered).Ok?
      ensures var n := SendNotification(installmentId, formatDate, delivered).value;
        n.success == delivered
        && n.message == (if delivered then "Notificacao enviada!" else "Erro ao enviar")
        && exists c :: c in clients && c.phone.Some? && c.phone.value != []
             && n.to == WhatsApp.Destination(c.phone.value) && Text.Contains(n.body, c.name)
    {
      var row := NotifyRow(installmentId).value;
      var sale := GetSaleById(row.inst.saleId).value;
      var client := GetClientById(sale.clientId).value;
      assert SendNotification(installmentId, formatDate, delivered) == ComposeNotice(client, row.inst, formatDate, delivered);
      assert client in clients;
    }
  }

  /** `forEach(assignNullable)` over `fields`: each defined field, null
      kept as null, into both dictionaries. */
  method AssignTextFields(user: UserInput, fields: seq<Column>, start: map<Column, Value>)
    returns (values: map<Column, Value>, updateSet: map<Column, Value>)
    ensures values == start + TextEntries(user, fields)
    ensures updateSet == TextEntries(user, fields)
  {
    values := start;
    updateSet := map[];
    for k := 0 to |fields|
      invariant values == start + TextEntries(user, fields[..k])
      invariant updateSet == TextEntries(user, fields[..k])
    {
      var field := fields[k];
      var value := FieldOf(user, field);
      TextEntriesStep(user, fields, k);
      if value != Undefined {
        var normalized := Normalized(value);
        MergeThenSet(start, updateSet, field, normalized);
        values := values[field := normalized];
        updateSet := updateSet[field := normalized];
      }
    }
    assert fields[..|fields|] == fields;
  }

  /** The insert values and update set of `upsertUser`: the text fields,
      then the sign-in time, the role, and the two fallbacks for
      `lastSignedIn`. */
  method AssembleUpsert(user: UserInput, fields: seq<Column>, ownerOpenId: string, now: int)
    returns (values: map<Column, Value>, updateSet: map<Column, Value>)
    ensures values == ValuesFor(user, fields, ownerOpenId, now)
    ensures updateSet == UpdateSetFor(user, fields, ownerOpenId, now)
  {
    values, updateSet := AssignTextFields(user, fields, map[OpenIdCol := Text(Some(user.openId))]);
    ghost var text := TextEntries(user, fields);
    ghost var base := map[OpenIdCol := Text(Some(user.openId))] + text;
    if user.lastSignedIn.Some? {
      values := values[LastSignedInCol := Time(user.lastSignedIn.value)];
      updateSet := updateSet[LastSignedInCol := Time(user.lastSignedIn.value)];
    }
    assert values == WithSignIn(base, user) && updateSet == WithSignIn(text, user);
    if user.role.Some? {
      values := values[RoleCol := RoleValue(user.role.value)];
      updateSet := updateSet[RoleCol := RoleValue(user.role.value)];
    } else if user.openId == ownerOpenId {
      values := values[RoleCol := RoleValue(AdminRole)];
      updateSet := updateSet[RoleCol := RoleValue(AdminRole)];
    }
    assert values == WithRole(WithSignIn(base, user), user, ownerOpenId);
    assert updateSet == SetEntries(user, fields, ownerOpenId);
    values, updateSet := SignInFallbacks(values, updateSet, now);
  }

  /** `lastSignedIn` defaults to now in the values, and an empty update set
      gets it too. */
  method SignInFallbacks(values: map<Column, Value>, updateSet: map<Column, Value>, now: int)
    returns (values': map<Column, Value>, updateSet': map<Column, Value>)
    ensures values' == if LastSignedInCol in values then values else values[LastSignedInCol := Time(now)]
    ensures updateSet' == if |updateSet| == 0 then map[LastSignedInCol := Time(now)] else updateSet
  {
    values', updateSet' := values, updateSet;
    if LastSignedInCol !in values' {
      values' := values'[LastSignedInCol := Time(now)];
    }
    if |updateSet'| == 0 {
      updateSet' := map[LastSignedInCol := Time(now)];
    }
  }
}
