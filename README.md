# Cash ledger of a pizzeria point-of-sale client

This Dafny project models the core of a small point-of-sale web client. The client keeps money in two buckets: cash (EFECTIVO) and a mobile wallet (YAPE). Every movement is a row of a hosted `transactions` table. The client holds a replica of that table, newest row first, and computes the two balances by folding over it:
- an income adds to the bucket of its method;
- an expense takes from the bucket of its method;
- a transfer moves money from one bucket to the other;
- a voided row or a shift marker (opening, close, day zero) adds nothing.

The screens are built on top of that fold:
- the cash screen records an expense, an income or a transfer after checking the balances;
- the sales screen records one income per product with takings;
- the history screen filters and voids rows and exports them as CSV;
- the report screen sums the sales of the current shift and counts income per category;
- the admin screen makes transfers, writes shift markers and saves the configuration;
- the stock screen builds an order message.

There is also a PIN login with role-based access to the screens.

Modules, one per source file, plus small libraries:

| module | file | models |
|---|---|---|
| `Wrappers` | wrappers.dfy | optional members, JavaScript `||` on strings |
| `Text` | text.dfy | `join`/`split`, `trim`, ASCII `toUpperCase`, string order, number rendering |
| `Seqs` | seqs.dfy | `filter` |
| `PeruTime` | peru_time.dfy | `src/utils.ts` |
| `Ledger` | ledger.dfy | the record type and the balance fold of `src/context/DataContext.tsx` |
| `DataStore` | data_store.dfy | the data provider of `src/context/DataContext.tsx` and its hosted tables |
| `Auth` | auth.dfy | `src/context/AuthContext.tsx` |
| `History` | history.dfy | `src/pages/Historial.tsx` |
| `Cash` | cash.dfy | `src/pages/Caja.tsx` |
| `Reports` | reports.dfy | `src/pages/Reportes.tsx` |
| `Admin` | admin.dfy | `src/pages/Admin.tsx` (money and configuration operations) |
| `Sales` | sales.dfy | `src/pages/Ventas.tsx` |
| `Stock` | stock.dfy | `src/pages/Stock.tsx` |

Inputs that stand in for the outside world:
- **Clock.** A clock reading is a list of formatter parts (`PeruTime.Part`). Where the source reads the clock twice, the model takes two readings.
- **Store outcomes.** Whether the hosted store accepts a write is a boolean parameter (`accepted`, `reachable`, `SaveInputs.accepts`).
- **Date library.** The calendar projection of a timestamp to its Lima day (`project`) and its display rendering (`render`) are function parameters. The sales day is an optional calendar day (`SaveInputs.date`), None when the field does not hold a valid date.
- **Numbers.** Amounts are integers in the currency's smallest unit (cents). Text fields that hold numbers are modelled by the number they read as: `None` for text that is not a number, `Some(0)` for a cleared field.
- **Store ids.** The store hands out ids from a counter.

The hosted store is a class, `DataStore.Store`:
- `rows` and `configRows` are the hosted tables;
- `transactions` and `config` are the client's replicas;
- refreshing copies `rows` into `transactions`.
- `State()` is the whole state as a value, a `DataStore.Snapshot`. Each write states its new snapshot as a function of the old one: `Added`, `VoidedIn`, `ConfigSaved` or, for the sales save, `SaveUpTo`.

Each screen is a class holding its form state and a reference to the store. Its handlers are methods whose `ensures` state the new form state and the new store state in terms of specification functions. Lemmas then prove what the application promises about those functions.

Where the screens' stated intent and the code differ, the code is modelled:
- An expense paid in any method other than cash is taken from the wallet.
- A transfer with an unknown category moves nothing.
- The sales save clears its entries even when the store refuses an insert, because `addTransaction` reports failure by returning false, not by throwing.
- The admin transfer clears its amount even when the store refuses the insert.
- The CSV export writes a missing category as `"undefined"`.

The sales screen stamps a sale with midnight UTC of the chosen day, which is the evening before in Lima. The sales save stores that stamp (`Sales.SourceSaleStamp`), and `Sales.SaveStepStamp` states what a stored sale then carries. The intended stamp, noon of the chosen day in Lima, is modelled beside it (`Sales.SaleReading`, `Sales.SaleStamp`; see "## Findings").

## Model

| member | source | states |
|---|---|---|
| Wrappers.OrElse | src/context/DataContext.tsx:110 | `s || d`: the value when it is present and non-empty, else the default |
| Seqs.Filter | src/pages/Reportes.tsx:8 | `filter` keeps only elements satisfying the test, each taken from the input, and every element of the input that satisfies it |
| Seqs.FilterCounts | src/pages/Reportes.tsx:8 | each element is kept exactly as often as it occurs when it satisfies the test, and never otherwise |
| Seqs.FilterAppend | src/pages/Reportes.tsx:15-17 | filtering a concatenation is the concatenation of the filtered parts |
| Seqs.FilterIsSubsequence | src/pages/Historial.tsx:18 | the filtered list keeps the original order |
| Text.SplitJoin | src/pages/Historial.tsx:41 | joining the pieces of a split with the separator gives back the text |
| Text.JoinSplit | src/pages/Historial.tsx:45-46 | joining pieces without the separator, then splitting, gives back the pieces |
| Text.JoinAvoids | src/pages/Historial.tsx:46 | a character that is not the separator and not in any part is not in the joined text |
| Text.Trim | src/context/AuthContext.tsx:73 | `trim` is empty exactly for blank text, and never starts or ends with white space |
| Text.TrimPadded | src/context/AuthContext.tsx:73 | trimming blank padding off a word gives the word |
| Text.LexLeTrans | src/pages/Historial.tsx:23 | string order is transitive |
| Text.LexLeTotal | src/pages/Historial.tsx:23 | string order is total |
| Text.LexLeAntisymmetric | src/pages/Historial.tsx:23 | string order is antisymmetric |
| Text.NatToStringRoundTrip | src/pages/Historial.tsx:45 | the decimal digits of a number read back as that number |
| Text.Money | src/pages/Historial.tsx:45 | an amount rendered as optional sign, whole units, a decimal comma and two digits |
| Text.MoneyReadBack | src/pages/Historial.tsx:45 | the rendering reads back as its amount: a sign iff negative, the whole units, and the hundredths in two digits |
| Text.Padded | src/pages/Ventas.tsx:47 | a number written in exactly the given number of digits |
| Text.PaddedRoundTrip | src/pages/Ventas.tsx:47 | a number that fits reads back from its padded digits |
| PeruTime.FindPart | src/utils.ts:18 | `find` gives the first part of that kind, none exactly when no part has it |
| PeruTime.GetPart | src/utils.ts:18 | `getPart` is never empty: the value of the first part of that kind, or "00" when the kind is missing or that value is empty |
| PeruTime.PeruDate | src/utils.ts:5-30 | `getPeruDate` always ends in the literal offset `-05:00` |
| PeruTime.PeruDateString | src/utils.ts:49-51 | `getPeruDateString` has no `T` in it |
| PeruTime.PeruDateStringIsDate | src/utils.ts:49-51 | for digit parts the date string is exactly `year-month-day` |
| PeruTime.FormatPeruDate | src/utils.ts:34-46 | `formatPeruDate` is "-" for an empty timestamp and the library rendering otherwise |
| PeruTime.DaysInMonth | src/pages/Ventas.tsx:47 | 28 to 31 days, 29 exactly for February of a leap year |
| PeruTime.NextDay | src/pages/Historial.tsx:19-23 | the next calendar day is a day, and later |
| PeruTime.PreviousDay | src/pages/Historial.tsx:19-23 | the previous calendar day is a day, earlier, and its next day is the given one |
| PeruTime.PreviousOfNext | src/pages/Historial.tsx:19-23 | the previous day of the next day is the given day |
| PeruTime.DateText | src/pages/Ventas.tsx:47 | a day as `yyyy-mm-dd`: ten characters, digits around two dashes, no `T` |
| PeruTime.DateTextReadBack | src/pages/Ventas.tsx:47 | year, month and day read back from the text |
| PeruTime.LimaDay | src/pages/Historial.tsx:19-23 | the Lima day of an instant: its own day at Lima's offset, else the day before or after as the shift crosses midnight |
| PeruTime.StampText | src/pages/Ventas.tsx:47 | the ISO text of an instant at UTC ends in `.000Z`, at Lima in `-05:00` |
| PeruTime.StampTextDay | src/pages/Ventas.tsx:47 | the text before the `T` of a stamp is the day of its reading |
| Ledger.Active | src/pages/Reportes.tsx:8 | the active list holds exactly the non-voided records of the list, in the original order |
| Ledger.ActiveCounts | src/pages/Reportes.tsx:8 | every occurrence of a non-voided record is kept and no voided one |
| Ledger.VoidedAddsNothing | src/context/DataContext.tsx:87 | a voided record changes neither bucket |
| Ledger.TransferConserves | src/context/DataContext.tsx:99-101 | a transfer keeps the total and moves its amount in its direction |
| Ledger.MarkersAddNothing | src/context/DataContext.tsx:89-102 | opening, close and day-zero markers change no bucket |
| Ledger.Delta | src/context/DataContext.tsx:86-103 | the loop body of `getBalance` for one record; no contract of its own, stated by VoidedAddsNothing, TransferConserves, MarkersAddNothing and TotalOnlyByIncomeAndExpense |
| Ledger.Balance | src/context/DataContext.tsx:83-105 | the fold of the deltas from the first record to the last; no contract of its own, stated by BalanceStep, BalanceAppend, BalanceCons, BalancePermutation and Store.GetBalance |
| Ledger.BalanceStep | src/context/DataContext.tsx:86-103 | one loop step adds the record's delta to the running balances |
| Ledger.BalanceAppend | src/context/DataContext.tsx:83-105 | the balance of a concatenation is the sum of the balances |
| Ledger.BalanceCons | src/context/DataContext.tsx:83-105 | prepending a record (a newer row) adds its delta |
| Ledger.BalancePermutation | src/context/DataContext.tsx:83-105 | the balance does not depend on the order of the rows |
| Ledger.BalanceOfActive | src/context/DataContext.tsx:87 | dropping the voided records does not change the balance |
| Ledger.VoidExcludes | src/pages/Historial.tsx:32 | voiding a record gives the balance of the list without it |
| Ledger.TotalOnlyByIncomeAndExpense | src/context/DataContext.tsx:89-102 | the total of both buckets is decided by income and expense records alone |
| Ledger.FilterStepKeepsTotal | src/context/DataContext.tsx:89-102 | one record changes the total of the list as much as it changes the total of the list without transfers and markers |
| Ledger.TotalCons | src/context/DataContext.tsx:83-105 | the total of a list is the first record's total effect plus the total of the rest |
| Ledger.MovesKeepTotal | src/context/DataContext.tsx:99-102 | a record that is neither an income nor an expense does not change the total |
| Ledger.ScenarioBalances | src/context/DataContext.tsx:83-105 | an illustration of the general lemmas: income 100, expense 30 and a cash-to-wallet transfer of 20 leave 50 in cash and 20 in the wallet |
| DataStore.FinalizeKeepsFields | src/context/DataContext.tsx:108-112 | defaulting fills a missing or empty date with now and a missing status with ACTIVO, keeps every other member and the delta |
| DataStore.Finalize | src/context/DataContext.tsx:108-112 | the record `addTransaction` sends; no contract of its own, stated by FinalizeKeepsFields |
| DataStore.Insert | src/context/DataContext.tsx:113-114 | the insert fails iff the store refuses or the id is taken, leaving the table as it was; otherwise the row goes in front with an unused id |
| DataStore.InsertedBalance | src/context/DataContext.tsx:113-116 | an accepted insert adds the record's delta to the balance |
| DataStore.VoidWhere | src/pages/Historial.tsx:32 | the update voids every row of that id and leaves the others |
| DataStore.VoidWhereExactlyOne | src/pages/Historial.tsx:32 | with distinct ids exactly one row is voided, and the balance becomes that of the table without it |
| DataStore.VoidWhereMissing | src/pages/Historial.tsx:32 | an update of a missing id changes nothing |
| DataStore.ApplyPayload | src/context/DataContext.tsx:121-125 | the update writes the name and the defined telegram members and keeps the row's id |
| DataStore.UpdateConfigWhere | src/context/DataContext.tsx:128 | only the row of that id is updated |
| DataStore.ConfigTarget | src/context/DataContext.tsx:127-139 | update the given id unless it is missing or 0 (falsy in the test); else the first row; with no rows, insert |
| DataStore.NewConfigRow | src/context/DataContext.tsx:136 | an inserted configuration row carries the payload's three members under the id the store assigns |
| DataStore.Added | src/context/DataContext.tsx:107-117 | refused or colliding: false and nothing changes; otherwise the defaulted record is the new first row with an unused id, older rows follow, the configuration table stays, both replicas are reloaded and the balance gains the record's delta |
| DataStore.VoidedIn | src/pages/Historial.tsx:30-34 | the rows of the id are voided when the store accepts and the record has an id; the configuration table and the id counter stay, both replicas are reloaded, and with distinct ids the balance becomes that of the table without the voided row |
| DataStore.ConfigSaved | src/context/DataContext.tsx:119-148 | refused: false and nothing changes; otherwise the target row is updated (or the payload inserted under the next id), the transaction table stays and both replicas are reloaded |
| DataStore.SavedConfigReloads | src/context/DataContext.tsx:119-148 | with one configuration row the reloaded configuration is that row updated by the payload; with none it is the inserted row |
| DataStore.SaveToMissingIdChangesNothing | src/context/DataContext.tsx:127-129 | an update for an id no row has succeeds and leaves both tables unchanged |
| DataStore.Store.constructor | src/context/DataContext.tsx:42-46 | an empty replica and the default configuration `PIZZA SYSTEM` |
| DataStore.Store.GetBalance | src/context/DataContext.tsx:83-105 | the loop with two accumulators computes the balance fold of the replica |
| DataStore.Store.Refresh | src/context/DataContext.tsx:49-68 | the replica becomes the table; the configuration is taken only when there is exactly one row |
| DataStore.Store.AddTransaction | src/context/DataContext.tsx:107-117 | the new store state and the result are exactly `Added` of the old state |
| DataStore.Store.VoidById | src/pages/Historial.tsx:32 | an accepted write voids the rows of that id; otherwise nothing changes |
| DataStore.Store.UpdateConfig | src/context/DataContext.tsx:119-148 | the new store state and the result are exactly `ConfigSaved` of the old state |
| Auth.NoUserNoAccess | src/context/AuthContext.tsx:70 | without a user no screen is open |
| Auth.IsAdminRole | src/context/AuthContext.tsx:73-76 | the trimmed, upper-cased role is ADMIN; no contract of its own, stated by PaddedAdminRole and SpacedLowerAdmin |
| Auth.CanAccess | src/context/AuthContext.tsx:69-80 | `canAccess`; no contract of its own, stated by NoUserNoAccess, AdminAccessesAll and NonAdminAccess |
| Auth.AdminAccessesAll | src/context/AuthContext.tsx:73-76 | the administrator role opens every screen |
| Auth.NonAdminAccess | src/context/AuthContext.tsx:79 | for others, access is exactly membership in the allowed list; a missing list opens nothing |
| Auth.PaddedAdminRole | src/context/AuthContext.tsx:73-76 | "admin" in any letter case, padded with white space, is the administrator role |
| Auth.SpacedLowerAdmin | src/context/AuthContext.tsx:73-76 | the role " admin " opens every screen |
| Auth.Matches | src/context/AuthContext.tsx:39-43 | the query selects exactly the rows with that pin that are active: each such row as often as it occurs in the table, no other row |
| Auth.Lookup | src/context/AuthContext.tsx:44-46 | `maybeSingle` gives a user iff the store is reachable and exactly one row matches; that user has the pin, is active, occurs once in the table and is the only row that matches |
| Auth.Normalise | src/context/AuthContext.tsx:49-52 | the kept user has an allowed list (empty when missing) and the row's other members |
| Auth.NormalisePreservesAccess | src/context/AuthContext.tsx:49-52 | normalising the user does not change what they may open |
| Auth.Session.constructor | src/context/AuthContext.tsx:25-28 | the session starts with the persisted user, or nobody |
| Auth.Session.Login | src/context/AuthContext.tsx:37-61 | success iff the lookup finds one user, who becomes the user and is persisted; on failure nothing changes |
| Auth.Session.Logout | src/context/AuthContext.tsx:63-66 | nobody is logged in and the saved slot is cleared |
| Auth.LoggedOutSeesNothing | src/context/AuthContext.tsx:83 | after logout the session is not authenticated and nothing is open |
| History.Stamp | src/pages/Historial.tsx:19 | the transaction date, else the creation date, else empty |
| History.Filtered | src/pages/Historial.tsx:17-28 | exactly the records that match the date range and the type, in order |
| History.FilteredCounts | src/pages/Historial.tsx:17-28 | every occurrence of a record that passes both tests is kept and none of one that does not |
| History.DateMatch | src/pages/Historial.tsx:23 | the inclusive range test by string order; no contract of its own, stated by ReversedRangeMatchesNothing and SingleDayRange |
| History.TypeMatch | src/pages/Historial.tsx:24-25 | the type selector; no contract of its own, stated by TypeMatchCases |
| History.Keep | src/pages/Historial.tsx:19-25 | both tests on the Lima day of the stamp; no contract of its own, stated by Filtered and FilteredCounts |
| History.ReversedRangeMatchesNothing | src/pages/Historial.tsx:23 | a start after the end matches no day |
| History.ReversedRangeIsEmpty | src/pages/Historial.tsx:17-28 | so a reversed range gives an empty view |
| History.SingleDayRange | src/pages/Historial.tsx:23 | a one-day range matches exactly that day |
| History.TypeMatchCases | src/pages/Historial.tsx:24 | TODO keeps all; ANULADO keeps exactly the voided ones; another type keeps exactly the active records of that type |
| History.CsvEfectivo | src/pages/Historial.tsx:42 | the cash column is the non-zero split part, else the amount of a cash record, else 0 |
| History.CsvYape | src/pages/Historial.tsx:43 | the wallet column is the non-zero split part, else the amount of a wallet record, else 0 |
| History.CsvColumnsOfPlainRecord | src/pages/Historial.tsx:42-43 | without a split, only the column of the record's method holds the amount |
| History.DateAndTime | src/pages/Historial.tsx:41 | date and time are the first two space-separated pieces of the rendering; no space means no time |
| History.CsvFields | src/pages/Historial.tsx:38-45 | eleven members in header order: date and time of the rendered stamp, user, type, quoted category, method, the three amounts, status, quoted reason |
| History.CsvRow | src/pages/Historial.tsx:45 | the members joined by `;`; no contract of its own, stated by CsvRowRoundTrip |
| History.UnstampedRow | src/pages/Historial.tsx:40-41 | a record without a timestamp shows "-" and no time |
| History.CsvRowRoundTrip | src/pages/Historial.tsx:45 | a row without separators in its members splits back into its eleven members |
| History.HeaderRoundTrip | src/pages/Historial.tsx:38 | the header splits into its eleven names |
| History.Rows | src/pages/Historial.tsx:39-46 | one line per record of the view, in order |
| History.Export | src/pages/Historial.tsx:36-47 | refused exactly for an empty view |
| History.ExportLines | src/pages/Historial.tsx:36-47 | the export splits back into the marked header line followed by one line per record of the view, in order |
| History.HeaderHasNoBreak | src/pages/Historial.tsx:38-47 | the marked header line holds no line break |
| History.MarkedJoinAvoidsBreak | src/pages/Historial.tsx:38-47 | names without line breaks, joined after the byte-order mark, hold no line break |
| History.HistoryScreen.constructor | src/pages/Historial.tsx:14-15 | no selection and an empty justification |
| History.HistoryScreen.Select | src/pages/Historial.tsx:116-117 | only a record that is not voided can be selected |
| History.HistoryScreen.SetJustification | src/pages/Historial.tsx:129 | the typed text becomes the justification |
| History.HistoryScreen.Cancel | src/pages/Historial.tsx:131 | closing the dialog drops the selection |
| History.HistoryScreen.HandleVoid | src/pages/Historial.tsx:30-34 | a void happens iff there is a selection and a non-empty justification; then the store becomes `VoidedIn` of the old one (the id voided if the store accepts, both replicas reloaded) and the dialog is cleared; otherwise dialog and store are unchanged |
| Cash.Check | src/pages/Caja.tsx:29-41 | valid iff the amount is positive, the origin bucket covers an expense or transfer, and a detail is given where required; each refusal holds exactly when its own test fails after the earlier ones passed, in source order |
| Cash.RecordDateIsChosenDay | src/pages/Caja.tsx:46 | the record's day is the chosen day for another day; for today it is the day of the second clock reading, which is the chosen day when both readings fall on one day |
| Cash.RecordDate | src/pages/Caja.tsx:46 | now when the chosen day is today by the first reading, else noon of that day at -05:00; no contract of its own, stated by RecordDateIsChosenDay |
| Cash.RecordCategory | src/pages/Caja.tsx:53-59 | a transfer carries its direction marker; other modes the selected category |
| Cash.RecordDescription | src/pages/Caja.tsx:51-64 | the typed text, else the direction text of a transfer, else the category |
| Cash.UserName | src/pages/Caja.tsx:72 | the user's name, or 'Anon' |
| Cash.Record | src/pages/Caja.tsx:46-75 | the record the save sends; no contract of its own, stated by RecordCategory, RecordDescription, UserName, RecordDateIsChosenDay and RecordDelta |
| Cash.RecordDelta | src/pages/Caja.tsx:66-75 | income adds to the chosen bucket; an expense takes from it; a transfer moves the amount out of it |
| Cash.FormDelta | src/context/DataContext.tsx:86-103 | an active record's delta follows from its kind, method and direction marker alone |
| Cash.NoOverdraft | src/pages/Caja.tsx:34-37 | after a valid expense or transfer the origin bucket is not negative, and a transfer keeps the total |
| Cash.CashScreen.constructor | src/pages/Caja.tsx:16-25 | mode GASTO, category INSUMOS, cash, a cleared amount, today's date, not submitting |
| Cash.CashScreen.HandleSave | src/pages/Caja.tsx:28-45 | busy: refused, nothing changes; a failed check: its refusal and nothing changes; otherwise the flag is raised and the record to send is built, and an expense or transfer leaves its origin bucket non-negative |
| Cash.CashScreen.FinishSave | src/pages/Caja.tsx:66-82 | the store and the result are exactly `Added` of the old store and the record; amount and detail are cleared iff it was stored; the flag is lowered |
| Reports.FirstClose | src/pages/Reportes.tsx:11 | `findIndex`: the first close marker, or none when there is none |
| Reports.CurrentShift | src/pages/Reportes.tsx:11-13 | the shift is all records when there is no close, otherwise the prefix before the latest close, and holds no close marker |
| Reports.SalesSnoc | src/pages/Reportes.tsx:15-17 | one more record adds its amount to the sales exactly when it is an income |
| Reports.Sales | src/pages/Reportes.tsx:15-17 | the filter-then-sum of income amounts; no contract of its own, stated by SalesSnoc, SalesIsIncomeSum and ShiftSalesWithinAll |
| Reports.SalesIsIncomeSum | src/pages/Reportes.tsx:15-17 | the filter-then-sum equals the record-by-record sum of income amounts |
| Reports.ShiftSalesWithinAll | src/pages/Reportes.tsx:13-17 | the shift's sales never exceed the sales of the whole active list |
| Reports.ShiftHasNoVoided | src/pages/Reportes.tsx:8-13 | a voided record never enters the shift |
| Reports.CategoryName | src/pages/Reportes.tsx:22 | the category, or 'Varios' |
| Reports.Tally | src/pages/Reportes.tsx:20-24 | the dictionary is well formed and empty iff no record was counted |
| Reports.Incomes | src/pages/Reportes.tsx:21 | only income records, none iff the list has none |
| Reports.TallyStep | src/pages/Reportes.tsx:21-23 | counting one more record bumps the count of its name, adding the name at the end when it is new |
| Reports.CountCategories | src/pages/Reportes.tsx:20-24 | the counting loop builds the dictionary of the tally |
| Reports.TallyCounts | src/pages/Reportes.tsx:23 | each count is the number of income records under that name |
| Reports.TallySum | src/pages/Reportes.tsx:21-24 | the counts add up to the number of income records |
| Reports.Entries | src/pages/Reportes.tsx:25 | one entry per key, in key order |
| Reports.Top | src/pages/Reportes.tsx:25 | the first entry of maximal count (a stable sort), none for no entries |
| Reports.TopCountsMost | src/pages/Reportes.tsx:25 | the first entry of the count-sorted list carries its name's count and no name counts more |
| Reports.EntryAt | src/pages/Reportes.tsx:25 | every entry of the dictionary carries the count of its key |
| Reports.TopProduct | src/pages/Reportes.tsx:20-25 | the top is undefined iff there is no income; otherwise no name counts more |
| Reports.PieData | src/pages/Reportes.tsx:28 | one slice per entry, in key order |
| Reports.PieDataCounts | src/pages/Reportes.tsx:20-28 | slices have distinct names and positive counts equal to the name's records, and every counted name has a slice |
| Reports.TallyPositive | src/pages/Reportes.tsx:23 | every key's count is positive |
| Admin.TransferRecord | src/pages/Admin.tsx:115-119 | a mixed, active transfer with the direction marker and no user name |
| Admin.TransferRecordDelta | src/pages/Admin.tsx:115-119 | a transfer moves its amount out of the origin bucket and keeps the total |
| Admin.MarkerRecord | src/pages/Admin.tsx:125 | a zero-amount cash record of the marker kind, described `Manual: <kind>` |
| Admin.TransferCheck | src/pages/Admin.tsx:107-113 | valid iff the amount is positive and covered by the origin bucket |
| Admin.TransferKeepsBalance | src/pages/Admin.tsx:110-119 | after a valid transfer the origin bucket is not negative and the total is unchanged |
| Admin.TransferStored | src/pages/Admin.tsx:110-119 | storing a valid transfer keeps the total of the rows and, with a current replica, leaves the origin bucket non-negative |
| Admin.FormOf | src/pages/Admin.tsx:24-32 | the configuration form shows missing members as empty text |
| Admin.FormPayload | src/pages/Admin.tsx:42-46 | the saved configuration carries the loaded id and the form's three members, all present |
| Admin.SaveThenLoadForm | src/pages/Admin.tsx:24-46 | with at most one configuration row named by the loaded id, saving the form and reloading fills the form with what was saved |
| Admin.AdminScreen.constructor | src/pages/Admin.tsx:22 | not submitting, a cleared amount, an empty form |
| Admin.AdminScreen.BeginAction | src/pages/Admin.tsx:35-37 | an action starts iff none is in flight, and the flag is raised |
| Admin.AdminScreen.EndAction | src/pages/Admin.tsx:38 | the flag is lowered |
| Admin.AdminScreen.HandleTransfer | src/pages/Admin.tsx:106-121 | ignored while busy; refused per `TransferCheck` with the store unchanged; otherwise the amount is cleared and the store becomes `Added` of the transfer record; a stored transfer keeps the total and leaves the origin bucket non-negative |
| Admin.AdminScreen.HandleOp | src/pages/Admin.tsx:123-127 | busy or unconfirmed: the store is unchanged; otherwise the store becomes `Added` of the marker record; the balance does not change |
| Admin.AdminScreen.LoadForm | src/pages/Admin.tsx:24-32 | the form is filled from the loaded configuration |
| Admin.AdminScreen.SaveSystemConfig | src/pages/Admin.tsx:42-46 | busy: the store is unchanged; otherwise the store becomes `ConfigSaved` of the form's three members for the loaded id, and the result is the write's outcome |
| Sales.IndexOf | src/pages/Ventas.tsx:16 | the position of a product's entry, none iff it has none |
| Sales.SetField | src/pages/Ventas.tsx:14-17 | a negative value changes nothing; otherwise only that field of that product changes, a new product added at the end |
| Sales.TotalOfUpdate | src/pages/Ventas.tsx:19-23 | replacing an entry changes the total by the difference |
| Sales.SetFieldTotal | src/pages/Ventas.tsx:14-23 | typing a value changes the total by its difference with the old value |
| Sales.SaleMethod | src/pages/Ventas.tsx:40-42 | mixed iff both parts are positive; wallet iff only it is; cash otherwise |
| Sales.FindProduct | src/pages/Ventas.tsx:38 | `find`: the first product with that id, none iff there is none |
| Sales.SaleCategory | src/pages/Ventas.tsx:45 | the found product's name; 'Venta' for an unknown product or one with an empty name |
| Sales.SaleRecord | src/pages/Ventas.tsx:44-48 | an active income of both parts, split in the details, by ADMIN, stamped with the given text |
| Sales.SaleRecordDelta | src/pages/Ventas.tsx:44-48 | a sale raises each bucket by its own part |
| Sales.SourceSaleReading | src/pages/Ventas.tsx:47 | the instant of `new Date(date).toISOString()`: midnight UTC of the chosen day |
| Sales.SourceSaleStamp | src/pages/Ventas.tsx:47 | the text `toISOString` gives: 24 characters ending in `.000Z`, the chosen day before the `T` |
| Sales.SourceSaleStampIsPreviousDay | src/pages/Ventas.tsx:47 | that stamp's text names the chosen day, but its Lima day is the day before |
| Sales.SourceSaleStampExample | src/pages/Ventas.tsx:47 | a sale for 2026-03-01 falls on 2026-02-28 in Lima |
| Sales.SaleReading | src/pages/Ventas.tsx:47 | noon of the chosen day at Lima's offset, whose Lima day is the chosen day |
| Sales.SaleStamp | src/pages/Ventas.tsx:47 | the corrected stamp, noon of the chosen day at -05:00; its text before the `T` is the chosen day |
| Sales.SaleStampText | src/pages/Caja.tsx:46 | the corrected sale stamp is the ISO text of noon at Lima's offset, the form the cash screen writes for another day |
| Sales.HasTakings | src/pages/Ventas.tsx:33-37 | an entry is sent iff its two parts add up to more than zero; no contract of its own, stated by SaveStep and FinishSave |
| Sales.SaveStep | src/pages/Ventas.tsx:32-48 | an entry without takings, or with a day that is not a date, leaves the store; otherwise its record, stamped as written, is added; the store stays valid |
| Sales.SaveUpTo | src/pages/Ventas.tsx:32-56 | the store after the first n entries, each stored sale stamped as written; with non-negative takings its balance gains exactly the accepted takings |
| Sales.SaveStepStamp | src/pages/Ventas.tsx:44-48 | a stored sale is the new first row and carries the as-written stamp, whose text names the chosen day while its Lima day is the day before |
| Sales.SaveStepBalance | src/pages/Ventas.tsx:32-48 | saving one more entry adds that entry's accepted takings to the balance the earlier ones left |
| Sales.AllAcceptedAddsInputTotal | src/pages/Ventas.tsx:19-56 | when every insert is taken, the balance grows by the total on the screen |
| Sales.SalesScreen.constructor | src/pages/Ventas.tsx:9-10 | no entries, not submitting |
| Sales.SalesScreen.HandleInputChange | src/pages/Ventas.tsx:14-17 | the entries become the updated entries |
| Sales.SalesScreen.InputTotal | src/pages/Ventas.tsx:19-23 | the loop computes the sum of both parts of every entry |
| Sales.SalesScreen.HandleSave | src/pages/Ventas.tsx:27-29 | the save starts iff none is in flight, the flag is raised, and the entries of the moment are the ones sent |
| Sales.SalesScreen.FinishSave | src/pages/Ventas.tsx:31-63 | the store becomes `SaveUpTo` of the entries; nothing entered: nothing happens; otherwise the entries are cleared unless an entry with takings met a day that is not a date; the balance gains the accepted takings; the flag is lowered |
| Stock.Toggle | src/pages/Stock.tsx:10-16 | a selected name is removed everywhere; another is appended |
| Stock.ToggleFlips | src/pages/Stock.tsx:10-16 | the toggled name changes membership; every other name keeps it |
| Stock.ToggleKeepsOthers | src/pages/Stock.tsx:10-16 | the other names keep their order |
| Stock.ToggleTwice | src/pages/Stock.tsx:10-16 | toggling an unselected name twice restores the selection |
| Stock.Lines | src/pages/Stock.tsx:21 | one bulleted line per selected name, in order |
| Stock.Message | src/pages/Stock.tsx:18-22 | none iff nothing is selected; otherwise the header and the lines |
| Stock.MessageLines | src/pages/Stock.tsx:21-22 | the list part splits back into one line per name |
| Stock.StockScreen.constructor | src/pages/Stock.tsx:7 | nothing is selected |
| Stock.StockScreen.ToggleItem | src/pages/Stock.tsx:10-16 | the selection is toggled |
| Stock.StockScreen.SendList | src/pages/Stock.tsx:18-26 | the message of the selection; the selection is cleared once it is sent, else kept |

## Left out

- The network and the hosted database are not modelled. A write's success is an input (`accepted`), and so is whether the store can be reached at login.
- The realtime subscription that re-fetches on every table change (src/context/DataContext.tsx:70-81) is not modelled; the replica changes only through `Refresh`.
- The parallel inserts of the sales save (`Promise.all`) are modelled one after the other, in entry order. Interleaving with other writers is left out.
- `Intl.DateTimeFormat` and `Date` are inputs. A clock reading is a list of formatter parts, and the day projection and the display rendering are function parameters. Only the one instant conversion the findings need is modelled, by `PeruTime.LimaDay` and `PeruTime.StampText`.
- The `RangeError` the formatter throws in the history filter for a record whose timestamp is not a date is not modelled; the projection is total.
- Floating point is not modelled: amounts are integers in cents, and `toFixed(2)` is `Text.Money` on cents.
- Parsing of numeric text fields (`Number(...)`) is not modelled; a field is the number it reads as.
- Failed reads in `fetchData` are not modelled, and neither is the refresh of products, stock items and users (src/context/DataContext.tsx:55-62). The catalogue is a parameter of the sales save.
- Reports.Tally: JavaScript lists integer-like object keys (in numeric order) before the other keys; the model keeps plain insertion order, which agrees only for names that are not integers.
- Reports.CountCategories: the counting object is a plain `{}`, so the names it inherits from `Object.prototype` behave differently. For "constructor", "toString" or "valueOf" the count becomes a string. For "__proto__" the assignment is ignored. The model counts these names like any other.
- Sales.SetField: the entries are an object keyed by product id, and JavaScript lists integer-like keys first. The model keeps insertion order, so it saves in insertion order.
- `Text.Upper`: only ASCII letters are upper-cased. `Text.LexLe` compares by code point, not by UTF-16 code unit; the two agree on the text the screens compare.
- The hosted database filling in a row's `created_at` on insert is not modelled: `DataStore.Insert` keeps whatever `createdAt` the row was given, and `History.Stamp` falls back to it as the screen does. The `user_id` member is not modelled. Ids come from a counter.
- JSON serialisation of the persisted user is not modelled. The persisted slot holds the user itself.
- The second session restore on mount (src/context/AuthContext.tsx:30-35) is not modelled. It only acts when the user is null but the slot is not, which cannot happen right after the initial restore.
- The backup, Telegram, restore and wipe operations of the admin screen (src/pages/Admin.tsx:49-101) are not modelled.
- The product, stock item and user editing of the admin screen (src/pages/Admin.tsx:129-152) is not modelled.
- Opening the messaging app with the order text (src/pages/Stock.tsx:24) is not modelled. `SendList` returns the text.
- Alerts, confirmation dialogs and rendering are not modelled. A confirmation's answer is a parameter of `HandleOp`.
- `DataStore.Store.UpdateConfig`: a failed read of the first configuration row is not modelled apart from the empty table.
- `Admin.AdminScreen.HandleTransfer`, `Admin.AdminScreen.HandleOp`, `Cash.CashScreen.FinishSave`: exceptions thrown by the store client are not modelled, because the store's answer is a value. The flag is lowered on every path, as the `finally` blocks do.
- The cash and sales saves are each split into a start step (`HandleSave`), which raises the in-flight flag, and a completion step (`FinishSave`), which is what happens once the awaited inserts return. A second click between the two is refused or ignored. Other writes between the two steps are not modelled: the completion step runs on the store as it finds it.
- Cash.RecordDateIsChosenDay: when the two clock readings of the save fall on different days, which only happens across Lima midnight, the record is stamped with the second reading's day. The lemma states that case; it does not claim the chosen day.
- `DataContext.tsx` at the repository root is an older copy of the data provider and is not part of this model.

## Findings

| source | as written | input that shows it | evidently intended | confidence | as-written member | corrected member |
|---|---|---|---|---|---|---|
| src/pages/Ventas.tsx:47 | `new Date(date).toISOString()` reads the date-only field as midnight UTC | a sale entered for 2026-03-01 is stamped 2026-03-01T00:00:00.000Z, which is 19:00 on 2026-02-28 in Lima, so the history screen lists it under 2026-02-28 | the sale falls on the chosen day in Lima, as the cash screen's noon stamp at -05:00 does (src/pages/Caja.tsx:46) | not executed | Sales.SourceSaleStampIsPreviousDay | Sales.SaleReading |
