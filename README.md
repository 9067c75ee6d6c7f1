# Sales and installment tracking: a Dafny model of the business rules

The application records clients, their sales (cash or in installments), the
products of each sale and the installments to be collected. It shows
dashboards, payment and collection lists, PDF reports, and it signs users
in by OAuth, e-mail and password, or name only. This project models the
rules behind those screens and endpoints and proves what they promise.

Modules, one per part of the program:

- `Schema`: the tables (users, clients, sales, products, installments) as
  datatypes, with their enums and column defaults. Money is `int` cents and
  instants are `int` milliseconds.
- `Calendar`: day numbers, midnight and the last millisecond of a day.
- `Currency`: the money helpers of the client: `parseCommaDecimal` (over a
  model of `parseFloat`), `formatDecimal` with "." grouping and ","
  decimals, `isValidDecimal`, `formatCurrencyInput` and the right-to-left
  cents entry.
- `SaleForm`: the sale form: product total, adding and removing
  installment slots, the amount branch of `handleInstallmentChange`, which
  works in place on an array of slots, the ordered rejection rules of
  `handleCreateSale`, the conversion to cents, and the export filter.
- `ExportFilter`: the date and client filters shared by the report exports.
- `Payments`, `Dashboard`, `Collections`: the payment list (status badge,
  filters, search, cards), the dashboard (period filter, summary, series
  by date, top-5 ranking) and the collection list (grouping by client,
  search, counts, due badges, contacted toggle). The accumulations into
  dictionaries are methods with loops.
- `Grouping`, `Seqs`, `Text`: shared definitions. They cover grouping by
  key, filter, find, sums and counts, stable sort, trim, lower-case and
  digits.
- `ClientForm`: the phone mask, and the open/save mapping of the client
  dialog.
- `WhatsApp`: phone normalisation and the reminder text.
- `Tables`: the pure side of the database: the rows inserted by
  `sales.create`, deletion by sale, status and contacted updates, joins
  and the two installment queries, and `upsertUser`'s value assembly.
- `Store`: class `SalesStore` holds the tables as fields and mutates
  them. It covers the inserts, the cascade delete, the updates,
  `upsertUser`, the routers `sales.create`, `installments.markAsPaid`,
  `installments.updateStatus` and `installments.sendNotification`, and the
  behaviour when no database is available.
- `Session`: session tokens. Signing and verifying are modelled as an
  ideal round trip. The payload check and the expiry arithmetic are
  modelled as written.
- `EmailAuth`, `LocalAuth`, `Context`: the sign-up, login and
  request-authentication flows of the two cookie strategies, and
  `createContext`'s ordered fallback over OAuth, e-mail and local.
- `PdfReport`: the summaries, filter line and table rows of the two PDF
  reports.

Times are milliseconds in UTC. "Today" is a day number passed in. The
current time, the outcome of the OAuth sdk and the outcome of the WhatsApp
send are parameters.

## Model

| member | source | states |
|---|---|---|
| Schema.ParseStatus | drizzle/schema.ts:87 | exactly "pending", "paid" and "overdue" are accepted, and each maps back to its own column text |
| Schema.ParsePaymentType | drizzle/schema.ts:54 | exactly "cash" and "installment" are accepted, each mapping back to its own text |
| Calendar.WithinDays | client/src/pages/Dashboard.tsx:22-38 | an instant lies between midnight of one day and 23:59:59.999 of another exactly when its day lies between the two days |
| Calendar.DayOfBounds | client/src/pages/Dashboard.tsx:24-33 | every instant lies between the midnight and the last millisecond of its own day |
| Currency.ReplaceFirst | client/src/lib/currencyUtils.ts:12 | only the first occurrence of the character is replaced; length and all other characters are kept |
| Currency.ValidWithoutMinus | client/src/lib/currencyUtils.ts:45-48 | any text without a minus sign is a valid decimal |
| Currency.DigitlessReadsZero | client/src/lib/currencyUtils.ts:5-18 | empty text, and any text without a digit, reads as 0 |
| Currency.FormatCurrencyInputShape | client/src/lib/currencyUtils.ts:55-75 | the mask's output holds only digits and at most one comma, and keeps every typed digit in order |
| Currency.FormatCurrencyInputSeparator | client/src/lib/currencyUtils.ts:55-75 | with a first '.' or ',' among the kept characters, the output is the digits before it, one comma, and the digits after it: dots become the comma and only the first separator stays |
| Currency.FormatCurrencyInputNoSeparator | client/src/lib/currencyUtils.ts:55-75 | without a separator the output is the kept characters, all digits |
| Currency.FormatCurrencyInputDotExample | client/src/lib/currencyUtils.ts:51-53 | "150.50" becomes "150,50" |
| Currency.KeepFirstCommaCount | client/src/lib/currencyUtils.ts:68-72 | dropping the extra commas leaves at most one comma |
| Currency.KeepFirstCommaDigits | client/src/lib/currencyUtils.ts:68-72 | dropping the extra commas keeps all digits |
| Currency.RightToLeftReadsCents | client/src/lib/currencyUtils.ts:84-105 | the right-to-left mask reads the typed digits as integer cents and shows them with two decimals; the previous value plays no part |
| Currency.RightToLeftLeadingZero | client/src/lib/currencyUtils.ts:91-96 | a leading zero changes nothing |
| Currency.RightToLeftIdempotent | client/src/lib/currencyUtils.ts:84-105 | masking an already masked amount leaves it as it is |
| Currency.FormatDecimalDigits | client/src/lib/currencyUtils.ts:35-40 | the digits of a formatted amount, read as an integer, are its cents |
| Currency.GroupRemoveDots | client/src/lib/currencyUtils.ts:35-40 | removing the thousands dots gives back the plain digits |
| Currency.CommaDecimalRoundTrip | client/src/lib/currencyUtils.ts:5-18 | as written, parsing a formatted amount gives the amount back exactly when it is below R$ 1.000,00 |
| Currency.FirstGroupBelowThousand | client/src/lib/currencyUtils.ts:12-15 | from R$ 1.000,00 on, the parse stops at the first thousands dot and reads less than 1000 |
| Currency.ThousandReaisReadAsOne | client/src/pages/Sales.tsx:204-209 | typing "100000" shows "1.000,00" and, as written, stores 1 real |
| Currency.EnteredAmountAsWrittenWrong | client/src/pages/Sales.tsx:204-209 | as written, a typed amount is read as its cents over 100 exactly when it is below R$ 1.000,00 |
| Currency.GroupedDecimalRoundTrip | client/src/lib/currencyUtils.ts:35-40 | with the thousands dots removed first, every formatted amount reads back exactly |
| Currency.EnteredAmountIsCents | client/src/pages/Sales.tsx:204-209 | the corrected reading takes a typed amount as its digits in cents, over 100 |
| SaleForm.CalculateTotalConcat | client/src/pages/Sales.tsx:123-128 | the product total of a list is the sum of the totals of its parts |
| SaleForm.AddProductKeepsTotal | client/src/pages/Sales.tsx:130-132 | adding a blank product line leaves the total unchanged |
| SaleForm.CalculateTotalNonNegative | client/src/pages/Sales.tsx:123-128 | with non-negative prices and quantities the total is not negative; an unset price counts as 0 |
| SaleForm.AddInstallment | client/src/pages/Sales.tsx:218-224 | appends one slot numbered length+1 with no date and no amount, keeping the others |
| SaleForm.RemoveInstallment | client/src/pages/Sales.tsx:226-228 | drops only the slot at the index; the others keep their order and numbers; an index out of range changes nothing |
| SaleForm.RemoveUndoesAdd | client/src/pages/Sales.tsx:218-228 | removing the slot just added restores the list |
| SaleForm.RemoveThenAddRepeatsNumber | client/src/pages/Sales.tsx:218-228 | slots are never renumbered, so a later add can repeat an existing number |
| SaleForm.AmountChangeKeepsSlots | client/src/pages/Sales.tsx:230-294 | typing an amount keeps the number of slots, their numbers and their due dates |
| SaleForm.AmountChangeOnlyEdited | client/src/pages/Sales.tsx:236-294 | in cash mode, or when the balance is within the 0.01 tolerance, only the edited slot changes |
| SaleForm.AmountChangeSplitsBalance | client/src/pages/Sales.tsx:257-277 | a balance above the tolerance is split equally over the other empty slots; the amounts then add up to the product total exactly; the edited and filled slots keep their amounts |
| SaleForm.AmountChangeClampsExcess | client/src/pages/Sales.tsx:278-293 | an excess above the tolerance lowers the edited slot to what the others leave, never below 0; the sum is then the total when the others do not exceed it; the other slots are untouched |
| SaleForm.CurrentTotal | client/src/pages/Sales.tsx:249-253 | the loop sums all slot amounts, the edited slot counted with the new amount |
| SaleForm.OtherTotal | client/src/pages/Sales.tsx:280-284 | the loop sums the amounts of the slots other than the edited one |
| SaleForm.EmptyPositions | client/src/pages/Sales.tsx:259-265 | lists, in increasing order, exactly the positions of the other empty slots |
| SaleForm.GiveShare | client/src/pages/Sales.tsx:268-276 | each listed slot gets the share; every other slot is unchanged |
| SaleForm.RebalanceSlots | client/src/pages/Sales.tsx:246-294 | the in-place installment-mode update leaves the array equal to the rebalancing function of the old array |
| SaleForm.SplitBalanceSlots | client/src/pages/Sales.tsx:257-277 | the in-place split leaves the array equal to the split function of the old array |
| SaleForm.HandleInstallmentAmountChange | client/src/pages/Sales.tsx:230-294 | the in-place amount branch leaves the array equal to the amount-change function of the old slots, the product total and the typed text read as the page reads it (`parseCommaDecimal` of its right-to-left mask, which stops at the first thousands dot) |
| SaleForm.AnyIncompleteLine | client/src/pages/Sales.tsx:308 | true exactly when some product line lacks a description or has an unset or non-positive price |
| SaleForm.AnyIncompleteSlot | client/src/pages/Sales.tsx:320-322 | true exactly when some slot lacks a due date or has an unset or non-positive amount |
| SaleForm.SubmitSaleOrder | client/src/pages/Sales.tsx:302-337 | the rejections come in a fixed order, and each one is given exactly when every earlier check passed and its own failed |
| SaleForm.SubmitSaleAccepted | client/src/pages/Sales.tsx:339-363 | an accepted sale carries its total, prices and amounts in cents and one product per line; the installment count is the number of slots (1 for cash); a cash sale has no installments; an installment sale has one installment per slot, with its number, the start of its due day and its own amount rounded to cents |
| SaleForm.ProductInputs | client/src/pages/Sales.tsx:356-360 | one product per line, in order, with its description, its price rounded to cents and its quantity |
| SaleForm.InstallmentCentsAsWritten | client/src/pages/Sales.tsx:342-349 | as written, each installment is rounded to cents on its own |
| SaleForm.SplitCentsAsWritten | client/src/pages/Sales.tsx:342-349 | as written, for a total of 1,01 over three slots the form's check passes but the installments come to 102 cents |
| SaleForm.InstallmentCents | client/src/pages/Sales.tsx:342-349 | corrected conversion: one installment per slot, with the rounding difference carried by the last one |
| SaleForm.InstallmentCentsAddUp | client/src/pages/Sales.tsx:342-349 | the corrected installment cents add up to the total in cents; all but the last are the rounded amounts |
| SaleForm.ExportSalesIsFilter | client/src/pages/Sales.tsx:144-166 | the chained export filters keep, in input order, exactly the sales that pass every given filter |
| ExportFilter.InPeriodByDay | client/src/pages/Payments.tsx:111-130 | the period is inclusive at both ends, counted in whole days; each bound is optional |
| Payments.IsOverdue | client/src/pages/Payments.tsx:216-223 | overdue exactly when the stored status is not paid and the due day is before today |
| Payments.BadgeMatchesIsOverdue | client/src/pages/Payments.tsx:199-223 | the badge says "Atrasado" exactly when `isOverdue` holds, and "Pago" exactly for the stored paid status |
| Payments.StoredOverdueShownPending | client/src/pages/Payments.tsx:199-214 | a row stored as overdue whose due day has not come is shown as pending |
| Payments.FilteredInstallments | client/src/pages/Payments.tsx:159-185 | a row is listed exactly when it passes the status filter and its client name contains the search text |
| Payments.NoFilterKeepsAll | client/src/pages/Payments.tsx:163-184 | the "all" filter with a blank search lists every row, in order |
| Payments.OverdueFilterSkipsStoredOverdue | client/src/pages/Payments.tsx:170-172 | a row stored as overdue and past due is shown late, yet the "overdue" filter does not list it |
| Payments.StatsMatchDashboard | client/src/pages/Payments.tsx:233-253 | the cards show the same amounts as the dashboard summary |
| Payments.StatsPartition | client/src/pages/Payments.tsx:233-253 | paid, pending and stored-overdue amounts make up the total; with non-negative amounts the overdue card is part of the pending one |
| Payments.OverdueCardDisagrees | client/src/pages/Payments.tsx:244-250 | one row stored as overdue and past due is counted on the overdue card, but its amount is not in the card's total |
| Payments.ExportInstallmentsIsFilter | client/src/pages/Payments.tsx:106-130 | the export keeps, in order, the rows due in the period whose sale belongs to the chosen client; with a client chosen, a row whose sale is missing is dropped |
| Dashboard.FilteredSalesIsFilter | client/src/pages/Dashboard.tsx:22-38 | the period filter keeps, in order, exactly the sales inside the period, both ends inclusive in whole days |
| Dashboard.SummaryIgnoresPeriod | client/src/pages/Dashboard.tsx:49-77 | the installment figures do not depend on the sales period |
| Dashboard.SummaryWindows | client/src/pages/Dashboard.tsx:63-77 | the overdue list holds exactly the pending rows due before today, and the upcoming list those due from today to today+7; no row is in both |
| Dashboard.SummaryAmounts | client/src/pages/Dashboard.tsx:54-68 | paid, pending and stored-overdue amounts make up the receivable; the overdue amount is part of the pending one |
| Dashboard.PaymentStatusData | client/src/pages/Dashboard.tsx:112-118 | exactly the categories with a positive value, in the order Pagos, Pendentes, Atrasados |
| Dashboard.RoundReais | client/src/pages/Dashboard.tsx:106 | whole reais within half a real of the cents |
| Dashboard.SalesByDate | client/src/pages/Dashboard.tsx:94-109 | one point per day that has a sale, in ascending day order, each with that day's total rounded to reais |
| Dashboard.TallyByClient | client/src/pages/Dashboard.tsx:124-135 | one tally per client with sales, holding the client's name, the sum of its totals and its number of sales; the client order lists each tallied client exactly once |
| Dashboard.RankTallies | client/src/pages/Dashboard.tsx:137-138 | the tallies ranked by descending total, ties to the lower client id, none lost or added |
| Dashboard.ClientRanking | client/src/pages/Dashboard.tsx:121-145 | at most five clients, best first, ranked 1..n without gaps, with name, rounded total and count; every client left out ranks below every client listed |
| Dashboard.RankingName | client/src/pages/Dashboard.tsx:126-128 | the displayed name is never empty ("Desconhecido" for a missing client) |
| Collections.GroupRows | client/src/pages/Collections.tsx:65-75 | one group per client with due rows, holding that client's rows in input order and the name and phone of the first of them |
| Collections.GroupedByClient | client/src/pages/Collections.tsx:54-78 | the groups come in ascending client id, one for each client with due rows |
| Collections.RowInOneGroup | client/src/pages/Collections.tsx:65-75 | a row is in a group exactly when it is a row of that group's client |
| Collections.FilteredClientsIsSearch | client/src/pages/Collections.tsx:81-88 | the search keeps, in order, the groups whose client name contains the query; the installments inside are not filtered |
| Collections.StatsCounts | client/src/pages/Collections.tsx:119-124 | contacted plus not contacted never exceeds the total count, and equals it when every flag is 0 or 1 |
| Collections.AllContactedIsFullCount | client/src/pages/Collections.tsx:222-231 | a group is "Cobrado" exactly when all of its installments are contacted |
| Collections.GroupTotalIsClientSum | client/src/pages/Collections.tsx:222-231 | a group's total is the sum of its client's due amounts |
| Collections.DueRowsHaveBadge | client/src/pages/Collections.tsx:101-109 | a row in the due window has a badge; it is red up to two days ahead and blue beyond five |
| Collections.ToggleFlips | client/src/pages/Collections.tsx:111-116 | the toggle stores the opposite flag, and toggling twice restores it |
| ClientForm.FormatPhoneInput | client/src/pages/Clients.tsx:84-90 | the output's digits are the first min(n, 11) digits of the input |
| ClientForm.FormatPhoneIdempotent | client/src/pages/Clients.tsx:84-90 | masking an already masked number changes nothing |
| ClientForm.SaveClientRules | client/src/pages/Clients.tsx:117-144 | an empty name is refused first, then WhatsApp enabled with an empty phone; otherwise the save updates in edit mode with an id and creates otherwise, with phone "" sent as null and the flag as 1/0 |
| ClientForm.OpenThenSave | client/src/pages/Clients.tsx:99-144 | opening a client and saving without changes updates that client with its own, normalised fields |
| ClientForm.EmptyFormRefused | client/src/pages/Clients.tsx:99-123 | saving a new, empty form is refused for the missing name |
| WhatsApp.NormalizePhone | server/whatsapp.ts:12-17 | the normalised number holds only digits |
| WhatsApp.NormalizePhoneShape | server/whatsapp.ts:12-17 | "55" is prefixed to the digits exactly when there are 11 of them |
| WhatsApp.NormalizePhoneIdempotent | server/whatsapp.ts:12-17 | normalising twice is normalising once |
| WhatsApp.DestinationDigits | server/whatsapp.ts:21 | the destination's digits are the normalised number |
| WhatsApp.NotificationNamesClient | server/whatsapp.ts:33-51 | the reminder names the client |
| WhatsApp.NotificationNamesInstallment | server/whatsapp.ts:33-51 | the reminder names "#" and the installment number |
| WhatsApp.NotificationNamesAmount | server/whatsapp.ts:33-51 | the reminder names the amount in reais |
| WhatsApp.NotificationNamesDueDate | server/whatsapp.ts:33-51 | the reminder names the due date |
| Tables.ProductRows | server/routers.ts:146-155 | one product row per line, in order, with consecutive keys and the line's description, price and quantity |
| Tables.ListedRows | server/routers.ts:157-164 | one installment row per listed installment, in order, with number, due date and amount copied, pending and not contacted |
| Tables.CashSaleSettled | server/routers.ts:165-177 | a cash sale without listed installments gets exactly one: number 1, due on the sale date, the whole total, paid at now |
| Tables.InstallmentSaleWithoutList | server/routers.ts:156-177 | an installment sale submitted without installments gets none |
| Tables.ListedInstallmentsCopied | server/routers.ts:157-164 | a non-empty list is copied as it stands, even for a cash sale, every row pending |
| Tables.ListedRowsSum | server/routers.ts:157-164 | the stored rows carry exactly the listed amounts |
| Tables.AmountsNotChecked | server/routers.ts:106-178 | the server stores installments that do not add up to the total |
| Tables.ProductsWithout | server/db.ts:189-196 | exactly the products of other sales remain |
| Tables.InstallmentsWithout | server/db.ts:189-196 | exactly the installments of other sales remain |
| Tables.SalesWithout | server/db.ts:189-196 | exactly the other sales remain |
| Tables.CascadeKeepsLinked | server/db.ts:189-196 | after the cascade no row points at the deleted sale |
| Tables.WithStatus | server/db.ts:258-269 | only the addressed row changes, and only in status and, when one is given, paidAt |
| Tables.MarkAsPaidTwice | server/routers.ts:202-207 | marking as paid twice keeps only the second payment time |
| Tables.PendingKeepsPaidAt | server/routers.ts:208-222 | moving a paid row back to pending keeps its payment time: nothing ties paidAt to status |
| Tables.WithContacted | server/db.ts:327-334 | only the addressed row changes, to 1 for true and 0 for false |
| Tables.UserByOpenId | server/db.ts:91-105 | the row with that openId, or none exactly when no row has it |
| Tables.SaleById | server/db.ts:162-171 | the sale with that key, or none exactly when it does not exist |
| Tables.ClientById | server/db.ts:118-127 | the client with that key, or none exactly when it does not exist |
| Tables.JoinOne | server/db.ts:227-249 | an installment joins exactly when its sale belongs to the user and the sale's client exists |
| Tables.InstallmentsOfUser | server/db.ts:227-249 | the user's installment rows, latest due date first |
| Tables.InstallmentsOfUserMembers | server/db.ts:227-249 | a row is listed exactly when its sale belongs to the user and its client exists; it carries that client's name |
| Tables.DueInstallments | server/db.ts:289-324 | the due rows, earliest due date first |
| Tables.DueInstallmentsMembers | server/db.ts:289-324 | a row is listed exactly when one of the user's installments is stored pending and due from today's midnight to 23:59:59.999 daysAhead days later (7 by default) |
| Tables.TextEntries | server/db.ts:49-60 | a walked text field is put in exactly when it is defined, with null kept as null |
| Tables.UpsertTextFields | server/db.ts:49-60 | a walked text field goes into both dictionaries exactly when defined; an unwalked one goes into neither |
| Tables.UpsertRole | server/db.ts:66-72 | an explicit role wins, then admin for the owner's openId; otherwise neither dictionary has a role |
| Tables.UpsertValuesSignIn | server/db.ts:62-80 | the insert always has the openId and a sign-in time, now by default; the update set never has the openId |
| Tables.UpdateSetNonEmpty | server/db.ts:74-80 | the update set is never empty and holds a given sign-in time |
| Tables.InsertedUserFields | server/db.ts:49-71 | a new user row keeps its openId and key, holds each walked text column's given text (null when left out or given as null) and the given sign-in time, or now |
| Tables.UpsertedRow | server/db.ts:82-84 | afterwards the openId has exactly one row: the updated one or the appended one |
| Tables.UpsertedName | server/db.ts:49-60 | a given name is stored whether the row is new or updated |
| Tables.UpsertedHash | server/db.ts:49-60 | a new row carries the given password hash exactly when the hash's column is walked |
| Tables.HashDroppedAsWritten | server/db.ts:49 | as written, a new user inserted with a password hash is stored without one |
| Tables.HashStored | server/db.ts:49 | with the hash's column walked, the hash is stored |
| Tables.UpsertWithValid | server/db.ts:32-89 | an upsert keeps keys increasing and openIds unique, and hands out a key only when it inserts |
| Store.SalesStore.constructor | server/db.ts:17-30 | an empty store, available or not |
| Store.SalesStore.CreateSaleRow | server/db.ts:173-178 | without a connection it fails and changes nothing; otherwise it appends the sale row with a fresh key |
| Store.SalesStore.CreateProduct | server/db.ts:209-214 | without a connection it fails; otherwise it appends the product row |
| Store.SalesStore.CreateInstallment | server/db.ts:251-256 | without a connection it fails; otherwise it appends the installment, not contacted |
| Store.SalesStore.CreateSale | server/routers.ts:106-178 | the sale row, then one product row per line, then the listed installments or a cash sale's single paid one; the tables stay linked |
| Store.SalesStore.InsertProducts | server/routers.ts:146-155 | the loop appends exactly the product rows of the lines |
| Store.SalesStore.InsertInstallments | server/routers.ts:156-177 | the loop appends exactly the installment rows the input calls for |
| Store.SalesStore.DeleteSale | server/db.ts:189-196 | removes the sale's products and installments and then the sale; rows of other sales stay, in order |
| Store.SalesStore.UpdateInstallmentStatus | server/db.ts:258-269 | sets the addressed row's status, and paidAt only when given |
| Store.SalesStore.MarkAsPaid | server/routers.ts:202-207 | sets the row paid at now on every call |
| Store.SalesStore.UpdateStatus | server/routers.ts:208-222 | refuses a status outside the three values before touching the store; supplies paidAt only for paid |
| Store.SalesStore.UpdateInstallmentContacted | server/db.ts:327-334 | stores 1 or 0 on the addressed row only |
| Store.SalesStore.UpsertUser | server/db.ts:32-89 | fails without an openId; does nothing without a connection; otherwise inserts the values assembled from the walked name, e-mail and login method (a password hash in the input is not walked), or applies the update set to the existing row |
| Store.SalesStore.WriteUser | server/db.ts:82-84 | the users table becomes the upserted table |
| Store.SalesStore.GetUserByOpenId | server/db.ts:91-105 | a user is found exactly when the store is available and has that openId |
| Store.SalesStore.GetSaleById | server/db.ts:162-171 | a sale is found exactly when the store is available and has that key |
| Store.SalesStore.GetClientById | server/db.ts:118-127 | a client is found exactly when the store is available and has that key |
| Store.SalesStore.InstallmentsByUser | server/db.ts:227-249 | no rows without a connection; latest due date first |
| Store.SalesStore.ClientsWithDueInstallments | server/db.ts:289-324 | no rows without a connection; earliest due date first |
| Store.SalesStore.NotifyOnlyUserOne | server/routers.ts:229-232 | an installment is looked up among user 1's rows only, whoever calls |
| Store.SalesStore.NotifyLookupsAfterJoin | server/routers.ts:233-236 | the sale and client checks never fire, because the joins already required both |
| Store.ComposeNotice | server/routers.ts:236-240 | refused exactly when the client has no phone number; otherwise addressed to the normalised number, naming the client, reporting the send's outcome |
| Store.SalesStore.NotifySent | server/routers.ts:237-244 | a handled notification goes to the client's normalised number, names the client, and reports the send's outcome |
| Store.AssignTextFields | server/db.ts:49-60 | the loop fills both dictionaries with exactly the defined walked fields |
| Store.AssembleUpsert | server/db.ts:43-80 | the insert values and the update set are those the assembly rules define |
| Session.AppIdOf | server/_core/emailAuth.ts:52 | the app id, or "local-dev" when none is configured; never empty |
| Session.ExpirationSeconds | server/_core/emailAuth.ts:45-47 | the expiry is the floor of issue time plus lifetime (one year by default), in seconds |
| Session.CreateSessionToken | server/_core/emailAuth.ts:41-58 | fails exactly without a secret; otherwise the token carries the openId, app id, name or "", and the expiry |
| Session.VerifySession | server/_core/emailAuth.ts:60-86 | a payload is returned exactly when the cookie verifies under the secret, has not expired, and its openId, app id and name are non-empty |
| Session.SessionRoundTrip | server/_core/localAuth.ts:41-86 | a token minted with a non-empty openId and name verifies to exactly those until it expires |
| Session.EmptyNameNeverVerifies | server/_core/emailAuth.ts:53 | a token minted without a name is refused by every later verification |
| Session.DefaultLifetime | server/_core/emailAuth.ts:46 | with the default lifetime a token verifies a second short of a year later and not a second past it |
| Session.SignInUpdate | server/_core/emailAuth.ts:106-109 | the sign-in upsert on an existing row changes only the sign-in time, and the role for the owner |
| EmailAuth.SignUpOpenId | server/_core/emailAuth.ts:117-120 | the openId is "email_" followed by the stored address, which is the trimmed address in lower case |
| EmailAuth.EmailPattern | server/_core/emailAuth.ts:159 | the e-mail check holds exactly when the address matches `^[^\s@]+@[^\s@]+\.[^\s@]+$` |
| EmailAuth.CompareHashed | server/_core/emailAuth.ts:125-135 | a password matches a hash exactly when it is the hashed password |
| EmailAuth.UserByEmail | server/_core/emailAuth.ts:170 | the first row with that stored address, or none exactly when no row has it |
| EmailAuth.RegisterCheck | server/_core/emailAuth.ts:143-163 | the sign-up checks in their order: address, password length, name, address pattern; each failure is given exactly when the earlier checks passed |
| EmailAuth.Register | server/_core/emailAuth.ts:140-209 | refuses a failed check or a taken address without touching the store; otherwise upserts the new user, without its password hash since the upsert walks only name, e-mail and login method, and mints its session |
| EmailAuth.RegisterSessionVerifies | server/_core/emailAuth.ts:189-192 | a sign-up that passes the checks mints a session that verifies |
| EmailAuth.LoginCheck | server/_core/emailAuth.ts:217-225 | the login checks in their order: address, then password |
| EmailAuth.LoginLookup | server/_core/emailAuth.ts:228-247 | success exactly when the stored row has the password's hash; an unknown address and a wrong password get the same refusal; a row without a hash gets its own |
| EmailAuth.Login | server/_core/emailAuth.ts:214-282 | the body checks, then the lookup and session on the stored address |
| EmailAuth.RegisteredRefusedAsWritten | server/_core/emailAuth.ts:177-188 | as written, a new sign-up is stored without its hash, so logging in with the right password is refused as having no password |
| EmailAuth.RegisteredCanLogIn | server/_core/emailAuth.ts:177-188 | corrected upsert: with the hash stored, logging in with the address and password of a sign-up finds the new row |
| EmailAuth.Authenticate | server/_core/emailAuth.ts:88-112 | the session must verify and name an existing user; that user, as read before the sign-in upsert, is the answer |
| LocalAuth.LocalOpenId | server/_core/localAuth.ts:154-155 | the openId starts with "local_" |
| LocalAuth.Underscored | server/_core/localAuth.ts:154 | the result has no whitespace left |
| LocalAuth.SameLocalUser | server/_core/localAuth.ts:154-155 | names that lower-case to the same text up to the length of a whitespace run log in as the same user |
| LocalAuth.LeadingSpaceOtherUser | server/_core/localAuth.ts:154-155 | the name is not trimmed before the openId is derived, so a leading space gives another user |
| LocalAuth.LeadingSpaceTrimmed | server/_core/localAuth.ts:167 | a leading space does not change the stored, trimmed name |
| LocalAuth.LocalLoginCheck | server/_core/localAuth.ts:146-149 | refused exactly when the name is missing, not a string or blank; otherwise the trimmed name |
| LocalAuth.HandleLocalLogin | server/_core/localAuth.ts:143-191 | the name check, then the upsert under the derived openId with the trimmed name, then the session |
| LocalAuth.LocalSessionVerifies | server/_core/localAuth.ts:176-178 | a local login's session verifies to the derived openId and trimmed name until it expires |
| LocalAuth.Authenticate | server/_core/localAuth.ts:88-138 | the session must verify; a missing user is created with login method "local" and read again; only a user still missing is refused |
| LocalAuth.CreatedUserShape | server/_core/localAuth.ts:115-121 | a created user carries the session's name and the "local" login method, and no e-mail or hash |
| Context.CreateContext | server/_core/context.ts:14-56 | the OAuth user when OAuth is configured and succeeds; else the e-mail strategy's user; else the local one's; else none; it never fails |
| Context.MissingUserBecomesLocal | server/_core/context.ts:32-45 | a verified session for an openId without a row signs in a new local user with the session's name |
| PdfReport.FixedComma | client/src/lib/pdfGenerator.ts:67 | the money text ends in a comma and two digits |
| PdfReport.MoneyReadsBack | client/src/lib/pdfGenerator.ts:67 | the money text, with its comma turned back into a dot, reads back as the cents over 100, negatives included |
| PdfReport.MoneyText | client/src/lib/pdfGenerator.ts:77 | "R$ " and the money text reads back as the cents over 100 |
| PdfReport.MoneyIsUngroupedDecimal | client/src/lib/pdfGenerator.ts:173 | for non-negative cents the report's money text is the form's formatted amount without thousands dots |
| PdfReport.FilterText | client/src/lib/pdfGenerator.ts:47 | the filter line starts with "Gerado em: " and the date |
| PdfReport.FilterTextSegments | client/src/lib/pdfGenerator.ts:47-53 | no filters gives the bare line; a period shows with "Início"/"Fim" for a missing side; a client shows, last, when named |
| PdfReport.SalesSummaryPartition | client/src/lib/pdfGenerator.ts:58-61 | cash plus installment sales are all sales, and the revenue splits the same way |
| PdfReport.PaymentText | client/src/lib/pdfGenerator.ts:76 | "À Vista" exactly for a cash sale |
| PdfReport.PaymentTextCount | client/src/lib/pdfGenerator.ts:76 | an installment sale shows its installment count followed by "x" |
| PdfReport.SalesTable | client/src/lib/pdfGenerator.ts:73-78 | one row per sale, in input order |
| PdfReport.SalesRowAmount | client/src/lib/pdfGenerator.ts:77 | a sales row's value reads back as the sale's total |
| PdfReport.PaymentsSummaryGap | client/src/lib/pdfGenerator.ts:146-154 | paid, pending and stored-overdue counts and amounts make up the whole; paid + pending ≤ count, with equality exactly when no row is stored overdue |
| PdfReport.StatusText | client/src/lib/pdfGenerator.ts:174 | "Pago" exactly for a paid row, "Pendente" otherwise |
| PdfReport.PaymentsTable | client/src/lib/pdfGenerator.ts:170-175 | one row per installment, in input order |
| PdfReport.PaymentsRowAmount | client/src/lib/pdfGenerator.ts:173 | a payments row's value reads back as the installment's amount |
| PdfReport.PaidRowsCounted | client/src/lib/pdfGenerator.ts:150-174 | the rows shown "Pago" number as many as the summary's paid count |

## Left out

- Rendering, dialogs, toasts and request hooks; the text-box state of the installment inputs.
- Floating point: form amounts are exact reals, and the 0.01 tolerance is compared exactly. `Math.round` is floor(x + 1/2); `toFixed` is exact for integer cents.
- `parseFloat` is modelled for an optional sign, digits and an optional fraction. Exponents, "Infinity" and leading whitespace inside the text are not modelled.
- `toLocaleString` / `Intl.NumberFormat`: `formatDecimal` is modelled as "." thousands groups and a "," with two decimals. Dates are shown as strings passed in.
- Time zones and daylight saving: days are UTC day numbers, and "today" is a parameter.
- `toLowerCase` lower-cases ASCII letters only. The whitespace of `trim` and `\s` is a fixed set of characters.
- SQL, drizzle and auto-increment: tables are sequences in a class; keys are consecutive; ties in ORDER BY keep table order.
- JWT signing and verification are an ideal oracle: a token verifies under its own secret until its expiry. The HS256 algorithm and tampered tokens are not modelled.
- bcrypt is an ideal hash: a password matches exactly its own hash. Salt and cost are not modelled.
- The OAuth sdk and server/_core/googleAuth.ts: the outcome of `authenticateRequest` is a parameter of `Context.CreateContext`. Whatever the sdk writes to the database is not modelled, so an OAuth sign-in leaves the modelled store unchanged.
- Cookie parsing and Express responses: the cookie value is a parameter; status codes are a function of the refusal; cookie options are not modelled.
- Twilio: the outcome of the send is a parameter, and `sendWhatsAppMessage`'s catch-all is that parameter being false.
- The `getUserByEmail` query and the `passwordHash` column appear in neither drizzle/schema.ts nor server/db.ts; the `contacted` column is missing from drizzle/schema.ts, although server/db.ts:239, :309 and :327-334 read and write it. All three are modelled as the code that uses them expects.
- The collection router (`markAsContacted`) is not in server/routers.ts; `updateInstallmentContacted` (server/db.ts:327-334) is modelled directly.
- Other router procedures (clients, products and listing endpoints) are plain store reads or writes without rules of their own.
- Console logging, async ordering, and the jsPDF layout (fonts, positions, footer).
- server/_core/index.ts, client/src/App.tsx, client/src/pages/Login.tsx, client/src/components/ExportReportModal.tsx, check-database.js and check-oauth-config.js are not part of this model.
- The Dashboard's `|| 0` for a missing sale total: totals are never missing in the model.
- EmailAuth.Authenticate, LocalAuth.Authenticate, Context.CreateContext: a failure of the sign-in upsert inside `authenticateRequest` is not modelled, because the model's store never throws once available.
- SaleForm.SubmitSaleAccepted: does not promise that the installment cents add up to the sale's total cents, because the page rounds each slot on its own (client/src/pages/Sales.tsx:344-348) and the sum can miss the total (see Findings); the carried-difference conversion `InstallmentCents` with `InstallmentCentsAddUp` is the corrected form, not used by `SubmitSale`.

## Findings

| source | as written | input that shows it | evidently intended | confidence | as-written member | corrected member |
|---|---|---|---|---|---|---|
| client/src/pages/Sales.tsx:204-209 | the amount shown by `formatCurrencyInputRightToLeft` is read back with `parseCommaDecimal`, which stops at the first thousands dot | typing "100000" shows "1.000,00" and stores 1 real instead of 1000 | the typed digits read as cents over 100 | high, not executed | Currency.ThousandReaisReadAsOne | Currency.EnteredAmountIsCents |
| client/src/pages/Sales.tsx:342-349 | each installment amount is rounded to cents on its own after the form checked the exact sum | total 1,01 with three slots, first slot 0,50: the other two get 0,255 each and round to 26, giving 102 cents | installment cents adding up to the sale's total cents | medium, not executed | SaleForm.SplitCentsAsWritten | SaleForm.InstallmentCentsAddUp |
| server/db.ts:49 | `upsertUser` copies only name, email and loginMethod, so the passwordHash from sign-up is dropped | sign up with a free address and any password, then log in with the same: "no password" refusal | the hash stored, so the sign-up can log in | low, not executed | EmailAuth.RegisteredRefusedAsWritten | EmailAuth.RegisteredCanLogIn |
