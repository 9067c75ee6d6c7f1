/** The five tables of the database (drizzle/schema.ts) as row datatypes.
    Money columns hold integer cents and timestamps are instants in
    milliseconds; `createdAt`/`updatedAt` bookkeeping columns are not kept. */
module Schema {
  import opened Wrappers

  datatype Role = UserRole | AdminRole

  datatype PaymentType = Cash | Installments

  datatype InstallmentStatus = Pending | Paid | Overdue

  datatype User = User(
    id: int,
    openId: string,
    name: Option<string>,
    email: Option<string>,
    loginMethod: Option<string>,
    role: Role,
    lastSignedIn: int,
    /** The `users` table of drizzle/schema.ts has no such column;
        server/_core/emailAuth.ts:184 writes it and :237 reads it. */
    passwordHash: Option<string>)

  /** `whatsappEnabled` is an integer flag: 0 is false, 1 is true. */
  datatype Client = Client(
    id: int,
    userId: int,
    name: string,
    phone: Option<string>,
    whatsappEnabled: int,
    notes: Option<string>)

  datatype Sale = Sale(
    id: int,
    userId: int,
    clientId: int,
    date: int,
    total: int,
    paymentType: PaymentType,
    installmentCount: int)

  datatype Product = Product(
    id: int,
    saleId: int,
    description: string,
    price: int,
    quantity: int)

  /** `paidAt` is nullable and independent of `status`; `contacted` is the
      0/1 flag that the collection queries read and write. */
  datatype Installment = Installment(
    id: int,
    saleId: int,
    number: int,
    dueDate: int,
    amount: int,
    status: InstallmentStatus,
    paidAt: Option<int>,
    contacted: int)

  const DefaultRole: Role := UserRole
  const DefaultStatus: InstallmentStatus := Pending
  const DefaultInstallmentCount: int := 1
  const DefaultQuantity: int := 1
  const DefaultWhatsappEnabled: int := 0
  const DefaultContacted: int := 0

  /** The text stored in the `status` enum column. */
  function StatusName(s: InstallmentStatus): string
  {
    match s
    case Pending => "pending"
    case Paid => "paid"
    case Overdue => "overdue"
  }

  /** `z.enum(["pending", "paid", "overdue"])`: only the three column values
      are accepted. */
  function ParseStatus(name: string): (r: Option<InstallmentStatus>)
    ensures r.Some? <==> name == "pending" || name == "paid" || name == "overdue"
    ensures r.Some? ==> StatusName(r.value) == name
  {
    if name == "pending" then Some(Pending)
    else if name == "paid" then Some(Paid)
    else if name == "overdue" then Some(Overdue)
    else None
  }

  function PaymentTypeName(p: PaymentType): string
  {
    match p
    case Cash => "cash"
    case Installments => "installment"
  }

  /** `z.enum(["cash", "installment"])`. */
  function ParsePaymentType(name: string): (r: Option<PaymentType>)
    ensures r.Some? <==> name == "cash" || name == "installment"
    ensures r.Some? ==> PaymentTypeName(r.value) == name
  {
    if name == "cash" then Some(Cash)
    else if name == "installment" then Some(Installments)
    else None
  }

  /** A row of `getInstallmentsByUserId`: the installment and the name of
      its sale's client. */
  datatype InstallmentRow = InstallmentRow(inst: Installment, clientName: string)

  /** A row of `getClientsWithDueInstallments`. */
  datatype DueRow = DueRow(
    clientId: int,
    clientName: string,
    clientPhone: Option<string>,
    installmentId: int,
    installmentNumber: int,
    dueDate: int,
    amount: int,
    status: InstallmentStatus,
    contacted: int,
    saleId: int)

  // The input of the `sales.create` procedure (server/routers.ts).

  datatype ProductInput = ProductInput(description: string, price: int, quantity: int)

  datatype InstallmentInput = InstallmentInput(number: int, dueDate: int, amount: int)

  datatype SaleInput = SaleInput(
    clientId: int,
    date: int,
    total: int,
    paymentType: PaymentType,
    installmentCount: int,
    products: seq<ProductInput>,
    installments: Option<seq<InstallmentInput>>)
}
