# migra-facil back office, modelled in Dafny

migra-facil is the back office of an immigration-paperwork agency
(gestoría). Staff keep clients, open case files (expedientes) for a kind
of procedure (tipo de trámite), tick off the documents each case needs,
move case files through their seven states, and record payments. A
dashboard summarises all of it. This project models the domain logic
behind those screens as pure functions over immutable rows, and proves
what the screens promise about them:

- **Numbering** (`numbering.dfy`): case numbers `YY/NNN`, from the last two
  characters of the year and a per-year counter padded to three digits.
- **Lifecycle** (`lifecycle.dfy`):
  - creating a case file: its number, the initial state, the seeded
    checklist and the first history row, including what a failing backend
    call leaves behind;
  - ticking checklist documents, with the one automatic transition from
    pending-documents to documents-complete;
  - manual state changes;
  - the table invariants these operations keep.
- **Money**:
  - `rollups.dfy`: paid totals per case file and per client, and the
    unclamped pending amount;
  - `payment_forms.dfy`: the strict standalone payment form and the lax
    form of the case-file page;
  - `receipt.dfy`: the receipt number, the method line, the name line and
    the totals block.
- **Dashboard** (`dashboard.dfy`, on `grouping.dfy` and `sorting.dfy`):
  - the four counters;
  - the charts per state, per month and per procedure type;
  - the ten most recent case files;
  - residence-card (NIE) expiry alerts and case files without movement.
- **Catalogue** (`catalog.dfy`):
  - swapping a required document with its neighbour;
  - switching types and documents on and off;
  - the default selection;
  - the type and document forms, where `??` and `||` defaults differ.
- **Clients** (`clients.dfy`): the client form's validator and starting
  values, saving an edit, and the address line.
- **Sidebar** (`sidebar.dfy`): which menu entry is highlighted for a path.

Shared building blocks:

- `records.dfy` holds the table rows.
- `text.dfy` holds the JavaScript string and number primitives the code
  relies on: `toString`, `parseInt` with its white-space, sign, hex-prefix
  and longest-digit-run rules, `padStart`, `trim`, `split`, `slice`,
  `lastIndexOf`, `charAt(0).toUpperCase()`, and `||` on strings.
- `seqs.dfy` holds filter, count and sum.
- `wrappers.dfy` holds `Option` and `Result`.

Modelling choices:

- **Tables.** Tables are sequences in creation order. Ids generated by the
  backend are parameters.
- **Money.** Money is integer euro cents. `parseFloat` on an amount field is a
  parameter `string -> Option<Cents>`, with nothing standing for NaN.
- **Dates.** Days are integers. "Today" enters through the month bounds,
  `daysUntil` and `daysSince`, and the month-label function (`monthKey`);
  all of them are parameters.
- **Forms.** A form is a datatype of field values. Its schema is a function
  returning the set of failing fields. Saving is a function returning
  `Result`.
- **Numbering.** The next number of a year comes from the most recently
  created number that starts with `YY/`
  (`src/components/expedientes/ExpedienteForm.tsx:114-126`): one is added to
  what `parseInt` reads in its second `/`-field. It is not the largest
  suffix of the year, and a malformed latest number yields the text
  `YY/NaN` (`Numbering.MalformedLatest`). The model proves that numbering
  stays sequential, and therefore unique, as long as case files are only
  created through this form (`Numbering.GenerateKeepsSequential`,
  `Numbering.SequentialDistinct`).
- **States.** The state column is a nullable text column. The model gives
  it the seven values the application writes (`Records.Estado`), so a
  state outside those seven, or a null state, is not represented.
- **History.** The history row of a manual state change is written by the
  backend, not by the page. `Lifecycle.ChangeEstado` takes a flag `records`
  saying whether the backend appends it. The model proves the consequences
  either way.

## Model

| member | source | states |
|---|---|---|
| Numbering.YearPrefixDigits | src/components/expedientes/ExpedienteForm.tsx:112 | for every year from 10 on, the prefix is the year's tens digit and units digit |
| Numbering.YearPrefix2025 | src/components/expedientes/ExpedienteForm.tsx:112 | 2025 gives the prefix "25" |
| Numbering.FirstOfYear | src/components/expedientes/ExpedienteForm.tsx:123-129 | with no number of the year on record, the number is `YY/001` |
| Numbering.NextCounterOf | src/components/expedientes/ExpedienteForm.tsx:124-126 | the counter after a latest number `p/q` is one more than `parseInt(q)` |
| Numbering.MalformedLatest | src/components/expedientes/ExpedienteForm.tsx:124-129 | a latest number `YY/abc`, whose suffix `parseInt` cannot read, makes the new number `YY/NaN` |
| Numbering.FormatCounterShape | src/components/expedientes/ExpedienteForm.tsx:129 | the counter text is all digits and denotes the counter; it is three characters below 100 and the plain numeral from 100 on, so it is never truncated |
| Numbering.FirstCounterText | src/components/expedientes/ExpedienteForm.tsx:129 | counter 1 is written "001" |
| Numbering.ParseFormattedCounter | src/components/expedientes/ExpedienteForm.tsx:126-129 | `parseInt` reads a padded counter back to the same counter, and "NaN" back to NaN |
| Numbering.SplitGenerated | src/components/expedientes/ExpedienteForm.tsx:112-129 | splitting a generated number at `/` gives back the year prefix and the counter it was built from |
| Numbering.LatestWithPrefix | src/components/expedientes/ExpedienteForm.tsx:114-120 | the latest number is absent exactly when no number starts with `YY/`; otherwise it is the last created one that does |
| Numbering.NextAfterGenerated | src/components/expedientes/ExpedienteForm.tsx:123-129 | after the number with counter n, the next counter is n + 1 |
| Numbering.GenerateKeepsSequential | src/components/expedientes/ExpedienteForm.tsx:111-130 | if a year's numbers read YY/001, YY/002, … in creation order, they still do after one more number is generated |
| Numbering.OtherYearKeepsSequential | src/components/expedientes/ExpedienteForm.tsx:111-130 | generating a number of another year leaves this year's sequence as it was |
| Numbering.SequentialDistinct | src/components/expedientes/ExpedienteForm.tsx:111-130 | numbers of a sequential year are pairwise distinct |
| Numbering.GenerateNumero | src/components/expedientes/ExpedienteForm.tsx:111-130 | a generated number starts with the year prefix and a slash, followed by at least three counter characters |
| Numbering.NumbersDistinct | src/components/expedientes/ExpedienteForm.tsx:129 | different counters give different numbers |
| Text.ParseIntToString | src/components/expedientes/ExpedienteForm.tsx:126-129 | `parseInt` of the decimal text of an integer gives back that integer (for the model's unbounded integers; see Left out) |
| Text.ParseIntNotNumeric | src/components/expedientes/ExpedienteForm.tsx:126 | text starting with neither white space, a sign nor a digit reads as NaN |
| Text.PadStart | src/components/expedientes/ExpedienteForm.tsx:129 | padding never truncates: the result ends with the input and is filled on the left up to the width |
| Records.EstadoKeyRoundTrip | src/pages/ExpedienteDetalle.tsx:50-58 | the seven stored state values and the states correspond one to one |
| Records.EstadoKeyInjective | src/pages/ExpedienteDetalle.tsx:50-58 | distinct states are stored and labelled differently |
| Lifecycle.FindExpediente | src/pages/ExpedienteDetalle.tsx:231-236 | the lookup by id finds a case file with that id when one exists, and nothing otherwise |
| Lifecycle.SetEstadoRows | src/pages/ExpedienteDetalle.tsx:233-236 | the update by id sets the state of the rows with that id and changes no other field of any row |
| Lifecycle.FindSetEstado | src/pages/ExpedienteDetalle.tsx:233-236 | after the update, a lookup by any id finds the same row as before, with the new state when it is the updated case file |
| Lifecycle.ChangeEstado | src/pages/ExpedienteDetalle.tsx:231-236 | a state change leaves the checklist alone, and the history grows by one row exactly when the backend records and the case file exists |
| Lifecycle.ChangeEstadoEffect | src/pages/ExpedienteDetalle.tsx:231-236 | a state change sets the state of the named case file, when it exists, and leaves every other case file's state as it was |
| Lifecycle.ChangeEstadoHistory | src/pages/ExpedienteDetalle.tsx:604-606 | with the backend recording, a state change appends exactly one row (previous state, new state, user) to that case file's history and none to others |
| Lifecycle.SameEstadoStillRecorded | src/pages/ExpedienteDetalle.tsx:231-236 | confirming the state a case file already has still adds a history row and leaves the state alone |
| Lifecycle.ChangeEstadoKeepsConsistent | src/pages/ExpedienteDetalle.tsx:231-236 | state changes keep every checklist item and history row attached to an existing case file, and every history starting with a row without a previous state |
| Lifecycle.RecordedChangeTracksEstado | src/pages/ExpedienteDetalle.tsx:604-606 | with the backend recording, every case file's newest history row keeps naming its current state |
| Lifecycle.UnrecordedChangeLosesTrack | src/pages/ExpedienteDetalle.tsx:231-236 | if the backend did not record, a change to a different state would leave the history behind the state |
| Lifecycle.MarkDocumento | src/pages/ExpedienteDetalle.tsx:199-205 | the checklist update by id: ticked rows become received with the timestamp, unticked ones pending with no date, no other field or row changes |
| Lifecycle.ToggleDocumento | src/pages/ExpedienteDetalle.tsx:197-205 | ticking sets the document received with the given timestamp, unticking sets it pending with no date, and no other checklist row or field changes |
| Lifecycle.ToggleEstado | src/pages/ExpedienteDetalle.tsx:211-221 | with the page showing the current state, the case becomes documents-complete exactly when it was pending-documents and its whole checklist is now received; every other state is unchanged |
| Lifecycle.ToggleHistory | src/pages/ExpedienteDetalle.tsx:217-221 | the automatic transition writes exactly one history row, pending-documents to documents-complete, and only when it fires |
| Lifecycle.UntickNeverReverts | src/pages/ExpedienteDetalle.tsx:217-221 | unticking a document of the case only changes the checklist: no state moves back |
| Lifecycle.PendingDocumentBlocks | src/pages/ExpedienteDetalle.tsx:217 | while another document of the case is still pending, ticking changes no state |
| Lifecycle.UntickUndoesTick | src/pages/ExpedienteDetalle.tsx:199-205 | ticking and then unticking a pending document restores the checklist |
| Lifecycle.ToggleKeepsConsistent | src/pages/ExpedienteDetalle.tsx:197-221 | ticking documents keeps the tables consistent |
| Lifecycle.ExpedienteErrors | src/components/expedientes/ExpedienteForm.tsx:44-50 | the new-case form is accepted exactly when a client and a tipo are chosen and a start date is picked |
| Lifecycle.ExpedienteDefaultsRejected | src/components/expedientes/ExpedienteForm.tsx:44-50 | the form as it opens fails on client, tipo and date, and the price and notes never block it |
| Lifecycle.TipoTramiteChange | src/components/expedientes/ExpedienteForm.tsx:198-203 | choosing a tipo either keeps the price field or puts in the base price of an offered tipo with that id whose base price is set and non-zero |
| Lifecycle.TipoTramiteChangeKeeps | src/components/expedientes/ExpedienteForm.tsx:198-203 | a tipo whose base price is null or zero leaves the price field unchanged |
| Lifecycle.TipoTramiteChangeCopies | src/components/expedientes/ExpedienteForm.tsx:198-203 | choosing an offered tipo whose base price is set and non-zero puts exactly that price, as the field shows it, into the price field (tipo ids are unique) |
| Lifecycle.CreateExpediente | src/components/expedientes/ExpedienteForm.tsx:132-194 | a submission completes exactly when the form passes the schema and no backend call fails (a failing checklist insert matters only when there is something to insert); a submission refused by the schema or failing before the case insert writes nothing |
| Lifecycle.NewCase | src/components/expedientes/ExpedienteForm.tsx:139-147 | the inserted row has the given id, the next number, pending documents, the form's client, tipo and start date, the parsed price and the notes or null |
| Lifecycle.CreateInsertsCase | src/components/expedientes/ExpedienteForm.tsx:132-150 | a submission refused by the schema or failing before the insert leaves the case table unchanged; otherwise the table gains exactly one case file at its end with the new id, the form's client, tipo, start date, parsed price and notes, pending documents, numbered by the scheme, with the year's numbers still sequential |
| Lifecycle.CreateSeedsChecklist | src/components/expedientes/ExpedienteForm.tsx:152-173 | a completed submission gives the case one pending, undated checklist item per active required document of the tipo, in the order the requirements are read, and none when there are none |
| Lifecycle.CreateStartsHistory | src/components/expedientes/ExpedienteForm.tsx:175-184 | a completed submission gives the case exactly one history row: no previous state, pending documents, the submitting user |
| Lifecycle.CreateKeepsConsistent | src/components/expedientes/ExpedienteForm.tsx:132-186 | a completed submission keeps the tables consistent and every newest history row in step with its case's state |
| Lifecycle.PartialCreateBreaksHistory | src/components/expedientes/ExpedienteForm.tsx:137-186 | a submission failing after the case insert leaves a case file without history, so the tables are no longer consistent |
| Lifecycle.EmptyTemplateStaysPending | src/components/expedientes/ExpedienteForm.tsx:161-184 | a tipo with no active documents gives an empty (hence complete) checklist, yet the case stays pending documents |
| Lifecycle.FreshCaseIsBare | src/components/expedientes/ExpedienteForm.tsx:137-150 | in consistent tables a fresh case id has no checklist and no history |
| Rollups.Pending | src/pages/ExpedienteDetalle.tsx:191 | pending plus paid is the agreed price, a missing price counting as zero; nothing is clamped |
| Rollups.RecordPaymentTotals | src/pages/ExpedienteDetalle.tsx:271 | a new payment raises its case file's paid total by its amount, lowers its pending amount by as much, and leaves other case files alone |
| Rollups.PendingAtMostPrice | src/pages/ExpedienteDetalle.tsx:271 | with positive payments, pending never exceeds the price |
| Rollups.OverpaymentNotHighlighted | src/pages/ExpedienteDetalle.tsx:506-516 | paying the price or more removes the highlight, and overpaying leaves a negative pending amount |
| Rollups.PendingExample | src/pages/ExpedienteDetalle.tsx:271 | 500.00 agreed, 200.00 and 150.00 paid: 350.00 paid and 150.00 pending, highlighted; another case's payment does not count |
| Rollups.CasesTotalEmpty | src/components/clientes/ClienteDetalle.tsx:131 | no payments add up to zero |
| Rollups.ClientTotalIsCasesTotal | src/components/clientes/ClienteDetalle.tsx:52-131 | a client's total equals the sum of the totals of distinct case files when the client's payments are exactly those case files' payments |
| Rollups.ClientTotalMatchesCases | src/components/clientes/ClienteDetalle.tsx:131 | with unique case ids and every payment naming its case file's client, the client page's total is the sum of the totals of the client's case files |
| Rollups.CaseIdsDistinct | src/components/clientes/ClienteDetalle.tsx:52 | the ids of a client's case files are distinct when all case ids are |
| PaymentForms.StandaloneErrors | src/components/pagos/PagoStandaloneForm.tsx:45-55 | the standalone form is accepted exactly when a case file is chosen, a date picked, the amount non-empty and parsing above zero, and a method chosen |
| PaymentForms.LaxErrors | src/components/expedientes/PagoForm.tsx:35-41 | the case-page form is accepted exactly when a date is picked and the amount is non-empty |
| PaymentForms.StrictImpliesLax | src/components/expedientes/PagoForm.tsx:35-41 | whatever the standalone form accepts, the case-page form accepts too |
| PaymentForms.NonPositiveAmountOnlyThroughCasePage | src/components/expedientes/PagoForm.tsx:37 | an amount parsing to zero or less is refused by the standalone form on the amount field and stored as it is by the case-page form |
| PaymentForms.DefaultsRejected | src/components/pagos/PagoStandaloneForm.tsx:82-88 | neither form can be submitted as it opens, and which fields fail |
| PaymentForms.CaseDetails | src/components/pagos/PagoStandaloneForm.tsx:114-150 | details exist exactly for an existing case file; they carry its client, its price (null as 0) and its paid total, so price less paid is its pending amount |
| PaymentForms.SubmitStandalone | src/components/pagos/PagoStandaloneForm.tsx:152-168 | refused exactly when the schema fails or no details are loaded; otherwise one payment is appended with the chosen case, the details' client, the picked date, the parsed (positive) amount, the chosen method, and concept and notes with "" stored as null |
| PaymentForms.SubmitPagoForm | src/components/expedientes/PagoForm.tsx:63-75 | one payment is appended for the page's case and client, with the picked date, the parsed amount, and method, concept and notes with "" stored as null |
| PaymentForms.StandaloneKeepsPaymentsMatched | src/components/pagos/PagoStandaloneForm.tsx:163 | when the loaded details are those of the chosen case file, a standalone payment names that case file's client, so payments keep matching their case files |
| PaymentForms.StaleDetailsBreakMatch | src/components/pagos/PagoStandaloneForm.tsx:126-139 | when the details still loaded belong to an earlier choice of another client, the form accepts the payment and stores it under the new case file with the old client, so payments no longer match their case files |
| PaymentForms.CasePageKeepsPaymentsMatched | src/components/expedientes/PagoForm.tsx:68-69 | a case-page payment for the page's case and client keeps payments matching their case files |
| PaymentForms.StandaloneLowersPending | src/components/pagos/PagoStandaloneForm.tsx:141-146 | a standalone payment strictly lowers the chosen case file's pending amount |
| Text.OrEmptyOrNull | src/components/pagos/PagoStandaloneForm.tsx:167-168 | a form text stored with `|| null` and read back with `|| ""` is unchanged |
| Receipt.ReceiptNumberRoundTrip | src/pages/ExpedienteDetalle.tsx:165 | splitting a receipt number at its last slash gives back the case number and the first eight characters of the payment id |
| Receipt.ReceiptNumbersDiffer | src/pages/ExpedienteDetalle.tsx:165 | receipts of different case files, or of payments whose ids differ in their first eight characters, get different numbers |
| Receipt.ReceiptNumber | src/pages/ExpedienteDetalle.tsx:165 | a receipt number starts with the case number and a slash, followed by at most eight characters of the payment id |
| Receipt.MethodLabel | src/lib/generateRecibo.ts:192 | the method line is as long as the stored method, or as "efectivo" when none is stored |
| Receipt.CashLabel | src/pages/ExpedienteDetalle.tsx:185 | the line reads "Efectivo" exactly when no method is stored or the stored method is cash |
| Receipt.MethodLabelsDistinct | src/lib/generateRecibo.ts:192 | different lower-case methods print as different lines |
| Receipt.MethodLabels | src/lib/generateRecibo.ts:192 | the four methods print capitalised ("efectivo" gives "Efectivo"), and a payment without a method prints as cash |
| Text.Capitalize | src/lib/generateRecibo.ts:192 | the first character is upper-cased and the rest kept as it is |
| Receipt.ClientNameLine | src/lib/generateRecibo.ts:148 | the name line starts with the surnames, ends with the given name, and has two characters between them |
| Receipt.NameLineRoundTrip | src/lib/generateRecibo.ts:148 | splitting the name line at its first comma gives back the surnames and the given name, when the surnames hold no comma |
| Receipt.TotalesAsWritten | src/pages/ExpedienteDetalle.tsx:186-193 | the totals the page hands to the receipt: pending plus total paid is the price (a null price counting as 0), and "this payment" is the payment's amount |
| Receipt.TotalesAt | src/pages/ExpedienteDetalle.tsx:186-193 | corrected totals as of the payment: the same balance between price, paid and pending, with only this payment and older ones paid |
| Receipt.TotalPaidSplit | src/lib/generateRecibo.ts:203-211 | the total paid splits into the newer payments, this payment and the older ones |
| Receipt.AsWrittenCountsLaterPayments | src/pages/ExpedienteDetalle.tsx:187-192 | as written, "previously paid" adds up every other payment of the case file, the newer ones included |
| Receipt.AsWrittenOlderReceipt | src/pages/ExpedienteDetalle.tsx:187-192 | as written, the receipt of a 100.00 payment followed by a 50.00 one says 50.00 was paid before it |
| Receipt.CorrectedCountsOlderPayments | src/lib/generateRecibo.ts:203 | corrected, "previously paid" is the total of the older payments, zero for the oldest, and the newest receipt is unchanged |
| Receipt.CorrectedTotalsChain | src/lib/generateRecibo.ts:203-211 | corrected, each receipt's total paid is the previous receipt's total plus this payment |
| Dashboard.ActiveMeansUndecided | src/pages/Dashboard.tsx:113 | a state is active exactly when it is not approved, refused or archived |
| Dashboard.ComputeStats | src/pages/Dashboard.tsx:103-124 | the client count is the number of clients, the pending-documents counter is the number of case files in that state and never exceeds the active counter, which never exceeds the case files, and the month's income is what was paid between its first and last day |
| Dashboard.ActivePlusClosed | src/pages/Dashboard.tsx:110-113 | active case files plus closed case files are all the case files |
| Dashboard.MonthIncomeAppend | src/pages/Dashboard.tsx:116-117 | a payment dated within the month raises its income by the amount, one outside leaves it alone |
| Dashboard.DashboardLabelsDistinct | src/pages/Dashboard.tsx:73-81 | no two states share a chart label |
| Dashboard.EstadoChart | src/pages/Dashboard.tsx:125-139 | every slice of the state chart counts at least one case file |
| Dashboard.EstadoChartCounts | src/pages/Dashboard.tsx:125-139 | a state has a slice exactly when some case file is in it, and its slice counts the case files in that state |
| Dashboard.EstadoChartTotal | src/pages/Dashboard.tsx:130-137 | the slices add up to the number of case files |
| Grouping.CountBucketsPositive | src/pages/Dashboard.tsx:130-133 | every bucket of a count counts at least one row |
| Grouping.GroupSumDistinct | src/pages/Dashboard.tsx:130-137 | no key has two buckets, and a key has a bucket exactly when some row has it |
| Grouping.GroupSumKeys | src/pages/Dashboard.tsx:134-137 | buckets come in the order their keys first occur in the rows |
| Grouping.GroupSumPermutation | src/pages/Dashboard.tsx:147-153 | grouping any reordering of the rows gives each key the total of the original rows with that key |
| Dashboard.CasesByMonth | src/pages/Dashboard.tsx:140-159 | no month has two bars, and every bar counts at least one case file |
| Dashboard.IncomeByMonth | src/pages/Dashboard.tsx:160-179 | no month has two bars |
| Dashboard.CasesByMonthCounts | src/pages/Dashboard.tsx:140-159 | each month's bar counts the recent case files started that month, no month repeats, and the bars add up to the recent case files |
| Dashboard.IncomeByMonthTotals | src/pages/Dashboard.tsx:160-179 | each month's bar is what was paid that month, no month repeats, and the bars add up to everything paid in the window |
| Dashboard.TipoNames | src/pages/Dashboard.tsx:183-189 | at most one type name per case file: case files whose type is not found are dropped, as the inner join does |
| Dashboard.TopTipos | src/pages/Dashboard.tsx:190-193 | five entries, or one per type name when there are fewer names, in non-increasing order of count, each a distinct bucket (no bucket repeated) |
| Dashboard.TopTiposCounts | src/pages/Dashboard.tsx:183-193 | each entry counts the case files whose type has that name, and at least one |
| Dashboard.TopTiposAreTop | src/pages/Dashboard.tsx:185-193 | a type name with case files that is not shown has no more case files than any name shown |
| Dashboard.Recent | src/pages/Dashboard.tsx:196-210 | the ten newest case files (all when fewer), newest first |
| Dashboard.RecentAfterCreate | src/pages/Dashboard.tsx:206-208 | a new case file heads the list and pushes the others down one place |
| Dashboard.NieAlerts | src/pages/Dashboard.tsx:224 | alerts come in ascending order of days left |
| Dashboard.NieAlertsExact | src/pages/Dashboard.tsx:211-226 | a client appears, with its days left, exactly when it has an expiry date between today and thirty days ahead |
| Dashboard.StaleCases | src/pages/Dashboard.tsx:245 | five entries, or all idle active case files when there are fewer, longest idle first, each an idle active case file, none listed more often than it is idle |
| Dashboard.StaleCasesListed | src/pages/Dashboard.tsx:227-245 | every listed case file is active, shown with its days since update, and idle for more than thirty days |
| Dashboard.StaleCasesAreTop | src/pages/Dashboard.tsx:235-245 | an idle active case file left out has been idle no longer than any listed one |
| Sorting.SortBy | src/pages/Dashboard.tsx:224 | sorting keeps the same elements and orders them by the key |
| Sorting.TopOfSortDesc | src/pages/Dashboard.tsx:193 | the first n of a descending sort are a top n |
| Catalog.FindDocIndex | src/pages/TiposTramite.tsx:162 | `findIndex` gives the first position of the id, or -1 when it is absent |
| Catalog.ReorderDoc | src/pages/TiposTramite.tsx:161-181 | a move keeps the list's length and every field but the position, and writes only position values the list already had |
| Catalog.ReorderNoOp | src/pages/TiposTramite.tsx:162-168 | moving an unknown document, the first one up or the last one down changes nothing |
| Catalog.ReorderSwaps | src/pages/TiposTramite.tsx:170-181 | otherwise exactly the document and its neighbour exchange their position values, and nothing else changes |
| Catalog.ReorderKeepsOrdenes | src/pages/TiposTramite.tsx:173-181 | a move keeps the multiset of position values |
| Catalog.ReorderInverse | src/pages/TiposTramite.tsx:161-181 | moving a document up writes the same rows as moving its upper neighbour down, and the swap of two position values is its own inverse on the rows (the page re-sorts before a second move; see Left out) |
| Catalog.SetTipoActive | src/pages/TiposTramite.tsx:95-100 | switching a type changes only that row's flag |
| Catalog.SetDocActive | src/pages/TiposTramite.tsx:111-116 | switching a document changes only that row's flag |
| Catalog.TipoToggleBack | src/pages/TiposTramite.tsx:95-100 | switching a type back restores it, and the last switch wins |
| Catalog.DocToggleBack | src/pages/TiposTramite.tsx:111-116 | switching a document back restores it, and the last switch wins |
| Catalog.DocToggleChecklist | src/pages/TiposTramite.tsx:111-116 | a switched-off document is left out of new case files' checklists, and switching it on puts it back |
| Catalog.SelectAfterFetch | src/pages/TiposTramite.tsx:59-70 | with nothing selected the first type in name order is selected; an existing selection is kept |
| Catalog.SelectionSticks | src/pages/TiposTramite.tsx:68-70 | a selection is made whenever there is a type, and a later read never replaces it |
| Catalog.DocDefaults | src/components/tipos-tramite/DocumentoRequeridoForm.tsx:43-48 | a new document starts as "", "", "0", on; an existing one shows its name and its flag, a missing flag shown as on |
| Catalog.DocErrors | src/components/tipos-tramite/DocumentoRequeridoForm.tsx:19-24 | only the name is checked; any position text passes |
| Catalog.DocRow | src/components/tipos-tramite/DocumentoRequeridoForm.tsx:53-59 | the row carries the given name, the selected type, an empty description as null, the position as `parseInt` reads it, and the flag |
| Catalog.SaveDoc | src/components/tipos-tramite/DocumentoRequeridoForm.tsx:51-76 | refused exactly when the name is empty; an edit rewrites the edited row in place, a new document is appended |
| Catalog.DocFormEdges | src/components/tipos-tramite/DocumentoRequeridoForm.tsx:22 | a new document is refused until named, and a position of -3 is accepted and stored |
| Catalog.DocEditRoundTrip | src/components/tipos-tramite/DocumentoRequeridoForm.tsx:43-59 | opening a document and saving it unchanged writes back the same row |
| Catalog.TipoDefaults | src/components/tipos-tramite/TipoTramiteForm.tsx:36-41 | a new type starts as "", "", "0", on; an existing one shows its name, code and flag, a missing flag shown as on |
| Catalog.TipoErrors | src/components/tipos-tramite/TipoTramiteForm.tsx:18-23 | name and code must be non-empty; any price text passes |
| Catalog.TipoRow | src/components/tipos-tramite/TipoTramiteForm.tsx:46-51 | the row holds exactly the name, code, parsed price and flag |
| Catalog.SaveTipo | src/components/tipos-tramite/TipoTramiteForm.tsx:44-68 | refused exactly when name or code is empty; an edit rewrites the edited row in place, a new type is appended |
| Catalog.TipoFormEdges | src/components/tipos-tramite/TipoTramiteForm.tsx:36-41 | a new type is refused until named and coded, and is saved with whatever "0" parses to |
| Catalog.TipoEditRoundTrip | src/components/tipos-tramite/TipoTramiteForm.tsx:36-51 | opening a type and saving it unchanged writes back the same row when the shown price parses back |
| Clients.ClienteErrors | src/components/clientes/ClienteForm.tsx:28-42 | a field is listed exactly when it fails its rule, so the form is accepted exactly when every field passes |
| Clients.NewClientRejected | src/components/clientes/ClienteForm.tsx:28-42 | an empty form fails on the five required texts and on the e-mail unless "" is a valid address, never on the optional texts |
| Clients.ClienteDefaults | src/components/clientes/ClienteForm.tsx:55-69 | a new client's form is all empty; an existing client's name, surnames, NIE/passport and dates fill it, and its e-mail and street read back as stored, null and "" alike |
| Clients.EditClient | src/components/clientes/ClienteDetalle.tsx:90-100 | an edit is refused exactly when the schema fails; otherwise the id is kept, every text is the trimmed form text, the dates are the form's, and the saved client passes the schema again when reopened |
| Clients.TrimIdempotent | src/components/clientes/ClienteForm.tsx:29-41 | trimming twice is trimming once |
| Clients.SavedClientValid | src/components/clientes/ClienteForm.tsx:29-41 | values that passed the schema, saved trimmed, pass it again when reopened |
| Clients.EditUnchangedRoundTrip | src/components/clientes/ClienteDetalle.tsx:90-100 | opening a client with trimmed, stored texts and saving it unchanged writes back the same client |
| Clients.MissingStreetSavedEmpty | src/components/clientes/ClienteDetalle.tsx:95-99 | a client without a street is saved with an empty street, not null |
| Clients.Direccion | src/components/clientes/ClienteDetalle.tsx:202-210 | "No especificada" without street and number; otherwise the line starts with street, a space and number, grows by ", floor" and " door" when those are set, and ends with the door |
| Clients.DireccionFloor | src/components/clientes/ClienteDetalle.tsx:202-210 | with an address shown, ", " and the floor follow street and number exactly when a floor is set; otherwise only the door, if any, follows |
| Clients.DireccionExamples | src/components/clientes/ClienteDetalle.tsx:202-210 | "Mayor 5, 2 B" for a full address, " 7" for a number alone, "No especificada" for a floor alone |
| Sidebar.ActiveOnBoundary | src/components/layout/AppSidebar.tsx:40 | a page below an entry's path lights it; a path that only shares its letters does not |
| Sidebar.SingleSegmentsExclusive | src/components/layout/AppSidebar.tsx:40 | two single-segment urls lit by the same path are the same url |
| Sidebar.ItemsSingleSegment | src/components/layout/AppSidebar.tsx:24-32 | the seven menu urls are single segments and pairwise different |
| Sidebar.AtMostOneActive | src/components/layout/AppSidebar.tsx:24-40 | whatever the path, at most one menu entry is lit |
| Sidebar.ActiveExamples | src/components/layout/AppSidebar.tsx:40 | "/clientes/abc" lights "/clientes", "/clientesX" does not, and "/" lights nothing |

## Left out

- Backend I/O, toasts, navigation, React state and effects are not modelled. Each operation is a function from tables to tables.
- Atomicity and concurrency are not modelled. The read-then-insert race on the year counter and the two-update reorder swap are single steps. Case creation models which call fails (`CreateStep`), but not interleavings with other users.
- Floating-point money is not modelled: `parseFloat`, `Number`, `toFixed(2)` and the bar-width percentages. Amounts are integer cents, and parsing an amount is a parameter.
- Dates are not modelled: date-fns formatting, locale month labels, `differenceInDays` and `new Date()`. They are parameters.
- The receipt's HTML, CSS and print window are not modelled. Only its number, lines and totals are.
- Authentication, roles and the configuration pages are not modelled. They belong to the backend's auth. The stored numbering format is never read by the generator.
- Deleting clients, types and documents, and the backend's cascades, are not modelled.
- The backend's `updated_at` trigger is not modelled. Day counts since update are taken as given.
- The e-mail regular expression is not modelled. It is the parameter `validEmail`.
- `Object.entries` lists integer-like keys first. The model lists keys in insertion order, which is right for the state and month keys the dashboard uses. Type names are free text; see Dashboard.TopTipos below.
- Case and accent conversion beyond ASCII is not modelled. `Text.ToUpper` maps `a`–`z` only; the method names it is applied to are ASCII.
- The reorder buttons act on the list as the page last loaded it, and after each move the page re-reads the list sorted by position (`src/pages/TiposTramite.tsx:185`, `79-85`). The model acts on the rows as stored and does not re-sort them. That is why `Catalog.ReorderInverse` is about rows, not about two clicks.
- A null agreed price is not modelled as a failure. `toFixed(2)` on it throws on the case-file page (`src/pages/ExpedienteDetalle.tsx:496`) and in the receipt (`src/lib/generateRecibo.ts:199`), which gets the price as it is. The model uses a null price as 0, which is what JavaScript's `null - x` does in the pending amounts and what the standalone form does explicitly.
- The order of a new case file's checklist is not modelled. The requirements query has no ordering (`src/components/expedientes/ExpedienteForm.tsx:153-157`), and the model takes the rows in table order.
- A state outside the seven known ones, or a null state, is not modelled (see States above). The dashboard shows such a key as it is (`src/pages/Dashboard.tsx:135`).
- Text.ParseIntToString: holds for the model's unbounded integers. JavaScript numbers lose integers above 2^53, and `toString` writes 10^21 and above in exponent form. Counters that large are out of reach of this application.
- Lifecycle.ChangeEstado: whether the backend appends the history row of a manual change is the parameter `records`. The code that appends it is not part of this model.
- Lifecycle.ToggleDocumento: the automatic transition is decided on `shown`, the state the page last loaded. `Lifecycle.ToggleEstado` states the exact effect only when `shown` is the current state.
- Dashboard.TopTipos: the order among names with equal counts is not stated. The model sorts stably; the browser's sort is stable too, but it runs over `Object.entries` order, which the model gives only for non-numeric keys.
- Dashboard.StaleCases: the order among case files idle for the same number of days is not stated. The backend returns rows without an ordering, so no order among ties is promised.
- PaymentForms.StandaloneKeepsPaymentsMatched: holds only when the loaded details are the chosen case file's. The form starts the fetch without waiting for it, and a failed fetch keeps the previous details (`src/components/pagos/PagoStandaloneForm.tsx:126-139`, `180-184`). `PaymentForms.StaleDetailsBreakMatch` shows what is stored then.
- Clients.ClienteDefaults: the contract names the fields the round-trip lemmas need. The remaining texts are filled the same way by the body.
- Clients.Direccion: the contract fixes the street-and-number prefix, the length and the door suffix, but not the floor text in between. `Clients.DireccionFloor` states the floor part, and `Clients.DireccionExamples` pins whole lines.
- Receipt.ClientNameLine: the contract fixes the surnames at the start and the given name at the end, but not the two characters ", " between them. `Receipt.NameLineRoundTrip` states that the surnames end at the line's first comma.
- PaymentForms.SubmitPagoForm: an amount that `parseFloat` reads as NaN is refused here. The page sends null and the amount column rejects it.

## Findings

| source | as written | input that shows it | evidently intended | confidence | as-written member | corrected member |
|---|---|---|---|---|---|---|
| src/pages/ExpedienteDetalle.tsx:187-192 | the receipt's totals use the case file's total over all its payments, so "Total Pagado Anteriormente" (src/lib/generateRecibo.ts:203) is every other payment, newer ones included | payments 100.00 (older) then 50.00 (newer): the older payment's receipt says 50.00 was paid before it | the payments up to and including this one, so "previously paid" is the older payments only | medium, not executed | Receipt.AsWrittenOlderReceipt | Receipt.CorrectedCountsOlderPayments |
