# Data integrity of a multi-tenant point of sale

A Dafny model of the parts of the back end where data can silently go wrong, and proofs of
what those parts keep. `dafny verify dfyconfig.toml` checks all of it.

| file | what it models |
|---|---|
| `TenantSchema.dfy` | every foreign key of the tenant tables, before, right after and long after the tenant-cascade migration |
| `CascadeDelete.dfy` | what one `DELETE` does: CASCADE and SET NULL actions queued and run in any order, RESTRICT checked at once, NO ACTION at the end |
| `TenantWipe.dfy` | deleting a company, or a main company with its branches, on each of these schemas |
| `ProductDedupe.dfy` | the three loops that rename products with repeated codes and names, and the unique indexes created after them |
| `SalesViews.dfy` | the four consolidated-sales views, as queries over tables held as sequences (`Bags.dfy`) |
| `Precision.dfy` | money arithmetic over exact decimals with half-up rounding (`Decimals.dfy`) |
| `SerializableRetry.dfy` | the retry loop for serializable transactions, and any number of concurrent callers of it |
| `TicketFolio.dfy` | the ticket counter inside such a transaction, and its resynchronization |
| `LoanStartDate.dfy` | which strings are taken as the start date of a loan (`CivilDate.dfy`, `DecimalText.dfy`) |
| `CategorySync.dfy` | the one-statement backfill of presentation categories |
| `SaleStatusHistory.dfy` | the backfill of the status history of sales |
| `FixedExpensePeriods.dfy` | the payment state of fixed-expense periods: its migration and reversal, and payments shared out from the oldest period (`Waterfall.dfy`) |

Tables are read in an arbitrary order wherever the SQL leaves it open: sets are visited
through `:|`, and sequences stand for any scan order.

## What the proofs found

- **Tenant wipe.** The theorems hold on every database, whatever its foreign keys join: memberships,
  shares and the sales that branches make of shared products do cross companies. A wipe reaches the
  companies' own rows, the rows that hang from one of these by CASCADE, and those that hang from these
  in turn, and nothing else (`DoomedIsReach`). Right after the migration it commits, in every order of its
  actions, if and only if no row outside the reach points into it by NO ACTION; where no other company's row
  points at one of theirs it commits and removes just their rows (`WipeTenants`).
- **Tenant wipe today.** In the schema that later migrations leave, five tables came back with RESTRICT
  to their company (customer advances, inventory shares on either side, roles, sale status history,
  customer categories); a row in any of them refuses the delete at once. Without such a row some order
  commits if and only if no row outside the reach points into it by NO ACTION or RESTRICT
  (`SomeRunCommitsIff`), and every order does if and only if, besides, the companies have no loan to a customer
  of theirs, for `loans` came back with RESTRICT to their customer (`EveryRunCommitsIff`). A branch is created
  with two roles (`src/modules/auth/actions/create-branch.action.ts:95-98`), which is enough for a refusal;
  one sale of a shared product by a branch holds its main company back when that is deleted without the
  branch (`SharedSaleHoldsBack`).
- **Product codes.** The loops skip empty codes, the indexes do not: the migration succeeds
  exactly when no company has two active products with an empty SKU, nor two with an empty
  bar code (`ProductTable.Up`).
- **Margin.** "Never round in intermediate steps" is not what a ten-decimal quotient gives: the
  margin is the exact one rounded once except where the exact one falls short of a tie by at most
  half a unit of the eighth decimal (`MarginRoundsOnceIff`, in closed form). That never happens up to
  a price of 100.00; it does at 100.01 with a cost of 0.50.
- **Payments by method.** The cap on what a method collected does not reach across methods: with a
  positive total, what the view shows over all of them stays within it if and only if the live payments
  do or all the positive ones are of one method (`ShownWithinTotalIff`).
- **Folios.** "The counter is never below the greatest folio issued" is proved for each kind of document,
  but credit and debit notes share a column and its unique index, and the resynchronization reads each
  kind by itself. A counter is ahead afterwards if and only if no folio of the other kind is one it has yet
  to write (`RaisedIsAheadIff`). Where each kind has kept its configuration, that is excluded when the two
  never write the same folio (`RaisedApartIsAhead`), for which `DisjointIff` gives the exact condition.
  Without suffixes it is that their prefixes differ (`PrefixesTellIff`); with suffixes different prefixes are not
  enough: NC with suffix 001 and NC-001 without one both write NC-001-001. Two empty prefixes, or that pair, all of
  which the settings accept, can leave a counter blocked for good (`PlainNotesStayBlocked`,
  `CrossedNotesStayBlocked`, `BlockedSale`).
- **Category sync.** The migration calls itself idempotent. It is, for every assignment of
  categories, exactly when no presentation has presentations of its own (`SettlesIff` with
  `k = 1`); on a cycle of parents, which no CHECK excludes, it need never settle.
- **Period status.** The documented equivalences between status and amounts follow from the
  CHECKs exactly for periods that cost something (`DocumentedIff`): one of amount 0 can be PENDING
  with balance 0. `down` says partially paid periods keep their balance; after another `up` they
  owe their whole amount again (`DownThenUpIff`).
- **Period payments.** Deriving the balance from the amount matters exactly for payments that end in
  half a cent: there rounding both would make a cent too much (`RoundingApartBreaksIff`). It does not
  save the status: a first payment below half a cent would leave PARTIALLY_PAID with nothing paid
  (`SettleKeepsChecksIff`). Requests are limited to two decimals.
- **Loan start date.** The function alone also accepts months of years beyond four digits, such as
  `+012026-10`, and never takes them for the future (`AcceptedIff`, `ResolveIff`). The request
  checks the shape dddd-dd-dd first; behind that check exactly the real dates up to today pass.
- **Status history.** The PAID query does not join the sale and the CREDIT_OPENED query does
  (`PaidAreOpenedIff`). The COLLECTED/INSTALLMENT query multiplies amounts exactly when a live
  payment meets two credits (`AmountsAddUpIff`), which the unique index excludes.

## Model

| member | source | states |
|---|---|---|
| TenantSchema.UpMakesSweepable | src/database/migrations/1747011300000-enable-tenant-cascade-delete.ts:22-88 | After all the statements of `forward`, no foreign key of the schema is RESTRICT and every company key is CASCADE. |
| TenantSchema.ForwardFacts | src/database/migrations/1747011300000-enable-tenant-cascade-delete.ts:6-17 | Each rewritten key was RESTRICT to the same parent; company keys become CASCADE and all others NO ACTION. |
| TenantSchema.LatestIsPatched | src/database/migrations/1747011560000-create-customer-advances-table.ts:117-140 | In the schema of all migrations RESTRICT is back exactly on the five withheld tables, on loans to customers and on keys to the global tax rates; every other tenant table still hangs from its company by CASCADE. |
| CascadeDelete.Database.Alter | src/database/migrations/1747011300000-enable-tenant-cascade-delete.ts:158-168 | Running the statements in any order overrides exactly the listed keys. |
| CascadeDelete.Database.Delete | src/database/migrations/1747011300000-enable-tenant-cascade-delete.ts:6-14 | A delete that commits removes exactly the least set closed under CASCADE, clears exactly the SET NULL columns into it and leaves nothing dangling; one that does not commits nothing. RESTRICT into the roots always refuses it; without RESTRICT pointers it commits exactly when no NO ACTION pointer dangles. |
| CascadeDelete.Database.Drain | src/database/migrations/1747011300000-enable-tenant-cascade-delete.ts:10-14 | The queued actions always run out, in any order, and keep the invariant that ties the running database to the original; without RESTRICT pointers none fails. |
| CascadeDelete.CommittedRunsAgree | src/database/migrations/1747011300000-enable-tenant-cascade-delete.ts:6-14 | Confluence: every order of the referential actions that commits leaves one and the same database, described without reference to any order. |
| CascadeDelete.RunKeeps | src/database/migrations/1747011300000-enable-tenant-cascade-delete.ts:6-14 | Every single action, CASCADE or SET NULL, keeps that invariant unless it fails. |
| CascadeDelete.FinishedIsSwept | src/database/migrations/1747011300000-enable-tenant-cascade-delete.ts:6-14 | With no action left the removed rows are exactly the least closed set and the rest is the original with the right columns cleared. |
| CascadeDelete.DoomedIsLeastClosed | src/database/migrations/1747011300000-enable-tenant-cascade-delete.ts:6-9 | The doomed rows are a closed set and are contained in every closed set. |
| CascadeDelete.UnrestrictedRunsDoNotAbort | src/database/migrations/1747011300000-enable-tenant-cascade-delete.ts:10-14 | Without RESTRICT pointers into the doomed rows and dangling NO ACTION pointers no order aborts. |
| CascadeDelete.CanFinish | src/database/migrations/1747011300000-enable-tenant-cascade-delete.ts:6-14 | From every state of a running delete without RESTRICT pointers some order runs to the end. |
| CascadeDelete.SomeRunEnds | src/database/migrations/1747011300000-enable-tenant-cascade-delete.ts:6-14 | Every delete has an order that commits or aborts. |
| TenantWipe.SweepableWipe | src/database/migrations/1747011300000-enable-tenant-cascade-delete.ts:6-14 | On the schema after `up`, for every set of companies and every database, the doomed rows are the reach; if no row outside points into it by NO ACTION no order aborts, otherwise none commits; the rest is unchanged if and only if no other company's row points at one of theirs by CASCADE or SET NULL. |
| TenantWipe.WipeTenants | src/database/migrations/1747011300000-enable-tenant-cascade-delete.ts:4-14 | The delete commits exactly under that condition and leaves everything outside the reach; where no other company's row points at one of theirs it commits and removes just the companies' rows; otherwise nothing changes. |
| TenantWipe.OthersUntouchedIff | src/database/migrations/1747011300000-enable-tenant-cascade-delete.ts:6-9 | In any database where the companies' rows hang from them, these all go, and nothing else changes if and only if no other row points into them by CASCADE or SET NULL. |
| TenantWipe.EnclosedReach | src/database/migrations/1747011300000-enable-tenant-cascade-delete.ts:6-14 | Where no row of another company points at one of theirs, the reach is exactly their rows, no other row is touched and none is left dangling. |
| TenantSchema.LatestIsShort | src/database/migrations/1747012980000-create-subscription-payments.ts:60-65 | In the latest schema a CASCADE key leads to the row's company or from one of the attached tables, and chains of attached rows have at most two links. |
| TenantWipe.DoomedIsReach | src/database/migrations/1747011300000-enable-tenant-cascade-delete.ts:6-14 | On every database the rows a wipe must remove are exactly those of the companies, those hanging from one of them, and those hanging from these. |
| TenantWipe.MembershipsGoWithTheirUser | src/database/migrations/1747011640000-create-company-members-and-branch-flag.ts:15-16 | A membership of any company is removed when the company of its user is. |
| TenantWipe.WipeBeforeUp | src/database/migrations/1747011300000-enable-tenant-cascade-delete.ts:6-14 | Before the migration one row of the companies in any tenant table but `subscriptions` refuses the delete. |
| TenantWipe.MigrateUp | src/database/migrations/1747011300000-enable-tenant-cascade-delete.ts:22-88 | Takes the schema before to the schema after, which can be swept. |
| TenantWipe.MigrateDown | src/database/migrations/1747011300000-enable-tenant-cascade-delete.ts:90-156 | Takes the schema after back to the schema before, key by key. |
| TenantWipe.DownUndoesUpIff | src/database/migrations/1747011300000-enable-tenant-cascade-delete.ts:90-168 | `down` after `up` restores a schema if and only if each listed key was RESTRICT in it. |
| TenantWipe.WithheldIsRestricted | src/database/migrations/1747011760000-create-inventory-shares-table.ts:79-100 | One row of the companies in a withheld table, or a share between one of them and any company, refuses their delete at once. |
| TenantWipe.LatestWipe | src/database/migrations/1747012640000-create-customer-categories-table.ts:108-118 | In the latest schema, on every database, a withheld row refuses the wipe at once; otherwise the doomed rows are the reach, and if nothing outside holds it back the only RESTRICT pointers into it join own loans to own customers. |
| TenantWipe.LoansAbort | src/lending/database/migrations/1747012980000-create-loans.ts:73-76 | With a loan, the order that deletes the customers first aborts. |
| TenantWipe.LoansFirstCommits | src/lending/database/migrations/1747012980000-create-loans.ts:73-76 | The order that deletes the loans first, company by company, can be completed and commits. |
| TenantWipe.EveryRunCommitsIff | src/database/migrations/1747011840000-create-roles-table.ts:91-101 | On every database no order of a wipe aborts if and only if the companies have no withheld row, no row outside the reach points into it by NO ACTION or RESTRICT, and no loan of theirs is to a customer of theirs. |
| TenantWipe.SomeRunCommitsIff | src/database/migrations/1747011980000-create-sale-status-history-table.ts:69-71 | On every database some order commits if and only if the companies have no withheld row and no row outside the reach points into it by NO ACTION or RESTRICT. |
| TenantWipe.CommittedWipe | src/modules/superadmin/actions/delete-tenant.action.ts:17-25 | Every order that commits leaves one and the same database: exactly the rows outside the reach, and exactly the other companies' rows as they were if and only if none of these points at one of theirs by CASCADE or SET NULL. |
| TenantWipe.SharedSaleHoldsBack | src/modules/sales/actions/create-sale.action.ts:191-196 | A sale line of another company, of a sale of another company, for a product of these defeats every order. |
| TenantWipe.DeleteTenant | src/modules/superadmin/actions/delete-tenant.action.ts:41-66 | On every database: with a main company goes each other company that is a branch and of which a user of the main company is a member, and no further company; deleting a branch leaves every other company; an unknown company changes nothing; all go or nothing does, only where no withheld row and no row outside the reach holds them back, and certainly there without own loans. |
| ProductDedupe.ProductTable.FirstFreeSuffix | src/database/migrations/1747011740000-dedupe-and-reassure-product-unique-indexes.ts:72-80 | The inner loop ends within as many tries as the company has active products, with the first suffix from the row's rank up that is free in the changing table. |
| ProductDedupe.ProductTable.Dedupe | src/database/migrations/1747011740000-dedupe-and-reassure-product-unique-indexes.ts:60-150 | After a block, in any order of the snapshot, the field is unique; rows of rank 1, ineligible and archived rows are unchanged, each row of higher rank took the first suffix it had to; the second of a group of two takes 2 unless another product uses it before or after. A table without repeats is left alone. |
| ProductDedupe.ProductTable.Up | src/database/migrations/1747011740000-dedupe-and-reassure-product-unique-indexes.ts:56-174 | The three blocks leave no two active products of a company with one non-empty SKU, one non-empty bar code, or names that agree but for case and outer blanks; the indexes can be created, and the migration succeeds, if and only if no company had two active products with an empty SKU nor two with an empty bar code. On failure nothing changes. |
| ProductDedupe.CandidatesDiffer | src/database/migrations/1747011740000-dedupe-and-reassure-product-unique-indexes.ts:138-146 | Candidates for different suffixes have different index keys, also trimmed and lower-cased, and none has the key of the original. |
| ProductDedupe.KeyOfCandidate | src/database/migrations/1747011740000-dedupe-and-reassure-product-unique-indexes.ts:138-143 | The index key of a candidate is a stem of its row followed by the digits of the suffix. |
| ProductDedupe.RepeatedIff | src/database/migrations/1747011740000-dedupe-and-reassure-product-unique-indexes.ts:64-71 | A row is selected by `rn > 1` if and only if an eligible row of smaller id is in its group, so the smallest id keeps its value. |
| ProductDedupe.RankStarts | src/database/migrations/1747011740000-dedupe-and-reassure-product-unique-indexes.ts:64-71 | `rn` is 1 exactly for the eligible rows with no row of smaller id in their group, and 0 exactly for the ineligible ones. |
| ProductDedupe.RankNext | src/database/migrations/1747011740000-dedupe-and-reassure-product-unique-indexes.ts:64-71 | From one row of a group to the next in order of id, `rn` grows by one. |
| ProductDedupe.PairTakesTwo | src/database/migrations/1747011740000-dedupe-and-reassure-product-unique-indexes.ts:72-83 | In a group of two the first row stays as it is, and the second takes suffix 2 when nobody else uses what that gives before or after the block. |
| ProductDedupe.OneColumnWritten | src/database/migrations/1747011740000-dedupe-and-reassure-product-unique-indexes.ts:82 | A block writes its own column and no other, and nothing of archived rows. |
| ProductDedupe.TrimLeavesBlanks | src/database/migrations/1747011740000-dedupe-and-reassure-product-unique-indexes.ts:132-138 | Trimming takes off blanks at both ends, all of them and nothing else. |
| ProductDedupe.UniqueHasNoWork | src/database/migrations/1747011740000-dedupe-and-reassure-product-unique-indexes.ts:36-41 | The snapshot is empty if and only if the field is already unique. |
| ProductDedupe.IndexableIff | src/database/migrations/1747011740000-dedupe-and-reassure-product-unique-indexes.ts:157-173 | After a block its index can be created if and only if each company had at most one active empty code before it. |
| ProductDedupe.IndexableMeans | src/database/migrations/1747011740000-dedupe-and-reassure-product-unique-indexes.ts:157-173 | An index accepts a table if and only if non-empty keys are unique and empty ones occur once per company. |
| ProductDedupe.OtherFieldsKept | src/database/migrations/1747011740000-dedupe-and-reassure-product-unique-indexes.ts:81-147 | A block for one field leaves what the other two are indexed by alone. |
| ProductDedupe.ThreeBlocks | src/database/migrations/1747011740000-dedupe-and-reassure-product-unique-indexes.ts:56-174 | The blocks in a row establish uniqueness of all three fields and neither add nor remove empty codes. |
| SalesViews.OneRowPerInvoice | src/database/migrations/1747012360000-add-consolidated-sales-views.ts:81-110 | In every database the header view has one row per invoice, with the figures of a direct definition that neither groups nor joins. |
| SalesViews.LineShares | src/database/migrations/1747012360000-add-consolidated-sales-views.ts:117-158 | What the line view says of an invoice, by source, of quantity, total or cost, and of all products or of a single one, is the sum of its live notes' lines with their sign and of its own lines. |
| SalesViews.LineInViewIff | src/database/migrations/1747012360000-add-consolidated-sales-views.ts:117-158 | A row is in the line view if and only if, column by column, it says what a sale line with its invoice says, or what a line of a live note with its invoice says, with the sign of the note's type. |
| SalesViews.NoteCostsAgree | src/database/migrations/1747012360000-add-consolidated-sales-views.ts:54-158 | For every invoice the signed cost of its NOTE rows is the cost adjustment of the header view. |
| SalesViews.NoteTotalsAgreeIff | src/database/migrations/1747012360000-add-consolidated-sales-views.ts:54-158 | The totals of both views agree if and only if the differences between note totals and their lines cancel out. |
| SalesViews.NoteTotalsAgree | src/database/migrations/1747012360000-add-consolidated-sales-views.ts:54-158 | In particular when each live note is the sum of its lines. |
| SalesViews.FullCostsAgreeIff | src/database/migrations/1747012360000-add-consolidated-sales-views.ts:81-158 | All lines of an invoice cost what the header view says if and only if the invoice's own cost is that of its own lines. |
| SalesViews.AddedNoteAdjustsItsSale | src/database/migrations/1747012360000-add-consolidated-sales-views.ts:14-110 | A new live note changes the columns of the row of its own invoice as its type and operation say, totals, costs, profit, credits, debits and the full-void flag, and changes no other row. |
| SalesViews.SaleWithoutNotes | src/database/migrations/1747012360000-add-consolidated-sales-views.ts:81-110 | Without live notes the row of an invoice has the invoice's own figures, dated by its sale or else by its creation. |
| SalesViews.NoteCostGrows | src/database/migrations/1747012360000-add-consolidated-sales-views.ts:22-33 | A note costs nothing without lines, and each further line of it adds its unit cost times its quantity. |
| SalesViews.VoidedNoteIsGone | src/database/migrations/1747012360000-add-consolidated-sales-views.ts:41 | Voiding a note gives the view of the database without it. |
| SalesViews.AddThenVoid | src/database/migrations/1747012360000-add-consolidated-sales-views.ts:41 | Adding a note and voiding it leaves the view as it was. |
| SalesViews.ChosenSalesFigure | src/database/migrations/1747012360000-add-consolidated-sales-views.ts:15-40 | The total, the cost and the profit over any choice of invoices are their own plus those of the live notes of exactly those invoices, each once and with its cost. |
| SalesViews.JoinedLinesMultiply | src/database/migrations/1747012360000-add-consolidated-sales-views.ts:15-16 | Joining the note lines before adding up counts each note once per line. |
| SalesViews.PaymentRowIff | src/database/migrations/1747012360000-add-consolidated-sales-views.ts:164-180 | The payment view has a row for invoice and method if and only if a live payment joins them; it counts those payments and shows the least of their sum and the invoice total. |
| SalesViews.OneRowPerMethod | src/database/migrations/1747012360000-add-consolidated-sales-views.ts:164-180 | In every database there is at most one row for an invoice and a method. |
| SalesViews.RowInViewIff | src/database/migrations/1747012360000-add-consolidated-sales-views.ts:164-180 | A row is in the view if and only if a live payment is left for its invoice and method and it says what a direct definition says of them. |
| SalesViews.PaidIgnoresOrder | src/database/migrations/1747012360000-add-consolidated-sales-views.ts:161-180 | Reordering the payments changes no row of the view. |
| SalesViews.PaidIgnoresSplits | src/database/migrations/1747012360000-add-consolidated-sales-views.ts:161-180 | Splitting a payment in two of the same method changes nothing in the view but the count of its own row. |
| SalesViews.VoidingNeverRaises | src/database/migrations/1747012360000-add-consolidated-sales-views.ts:170-178 | After voiding a payment no row of the view shows more paid than before; its row goes if and only if no other live payment of its invoice and method is left. |
| SalesViews.RawsAddUp | src/database/migrations/1747012360000-add-consolidated-sales-views.ts:164-179 | Over all its rows the uncapped amounts of an invoice add up to its live payments. |
| SalesViews.ShownWithinTotalIff | src/database/migrations/1747012360000-add-consolidated-sales-views.ts:161-179 | With no negative payment, what the view shows as paid of an invoice over all methods stays within a positive total if and only if its live payments do or all the positive ones are of one method; within a total of zero it always does. |
| Decimals.RoundIff | src/main.ts:18-19 | Half-up rounding is the only function that gives a nearest integer and takes ties away from zero. |
| Decimals.DoubleRoundingIff | src/main.ts:18-19 | Rounding twice, finer first, equals rounding once if and only if the exact value does not fall short of a tie by at most half a fine step, a condition on the remainder of the exact quotient. |
| Decimals.FalseTieIff | src/main.ts:18-19 | That remainder tells exactly when the finer rounding lands on a tie that the exact value does not reach. |
| Decimals.SmallDenominator | src/common/utils/precision.ts:82-83 | No false tie is possible while the denominator does not exceed the number of fine steps. |
| Precision.BreakdownOf | src/common/utils/precision.ts:74-86 | The base is the quotient rounded to ten decimals and then to cents, and the tax the exact rest. |
| Precision.BaseRoundsOnce | src/common/utils/precision.ts:82-83 | For prices in cents and rates with two decimals up to 999900 % the two roundings of the base equal one rounding of the exact quotient. |
| Precision.BaseAndTaxMakeThePrice | src/common/utils/precision.ts:61-64 | Base and tax add up to the price to the cent for every price and rate. |
| Precision.BaseAndTaxAreParts | src/common/utils/precision.ts:74-86 | Both lie between zero and the price. |
| Precision.DearerIsNotTaxedLess | src/common/utils/precision.ts:74-86 | Base and tax are non-decreasing in the price. |
| Precision.RefundsMirrorSales | src/common/utils/precision.ts:74-86 | The base and the tax of a negative price are those of its amount, negated. |
| Precision.TaxWithout | src/common/utils/precision.ts:75-80 | A missing price or a missing rate bears no tax. |
| Precision.HigherRateTaxesNoLess | src/common/utils/precision.ts:74-86 | The tax is non-decreasing in the rate. |
| Precision.SplitsDoNotDrift | src/common/utils/precision.ts:61-64 | Over any list of lines with any rates the bases and taxes add up to the prices. |
| Precision.ProfitIsExact | src/common/utils/precision.ts:39-41 | The profit of amounts in cents is their exact difference. |
| Precision.ProfitWithout | src/common/utils/precision.ts:24-41 | A missing price or cost counts as zero in the profit. |
| Precision.MarginOf | src/common/utils/precision.ts:48-55 | The margin is the exact percentage rounded to the tenth decimal of the quotient and then to four decimals. |
| Precision.MarginRoundsOnceIff | src/common/utils/precision.ts:43-55 | The margin equals the exact one rounded once except exactly when 2 * ((abs(price - cost) * 10^10) mod (10^4 * price)) is at least 9999 * price and below 10^4 * price, amounts in cents. |
| Precision.SmallPriceMarginRoundsOnce | src/common/utils/precision.ts:48-55 | Up to a price of 100.00 it always does. |
| Precision.FirstFalseTie | src/common/utils/precision.ts:48-55 | At 100.01 with cost 0.50 it does not: 99.5001 for 99.5000. |
| Precision.MarginError | src/common/utils/precision.ts:48-55 | The margin is within 0.00005 + 0.000000005 of the exact one. |
| Precision.DearerCostEarnsNoMore | src/common/utils/precision.ts:48-55 | The margin is non-increasing in the cost. |
| Precision.MarginWithout | src/common/utils/precision.ts:48-55 | Without a price, or with one of zero, the margin is 0; without a cost it is 100 % for every other price. |
| Precision.NegativePrice | src/common/utils/precision.ts:48-55 | Price and cost both negated give the same margin. |
| SerializableRetry.RunSerializableWithRetry | src/common/utils/serializable-retry.ts:28-63 | At most maxRetries + 1 attempts, 3 without that option, and that many if each fails with 40001; all but the last failed with 40001 and left no trace; the last either committed once or failed with its error and no effect; the total wait is exactly the linear sum plus, with jitter, the backoff times the random numbers drawn, and nothing without a backoff. |
| SerializableRetry.RetriesIff | src/common/utils/serializable-retry.ts:43-44 | A failure is retried if and only if a retry is left and its string code is 40001, or it has no string code and its driver error's is 40001. |
| SerializableRetry.LinearWaitsAre | src/common/utils/serializable-retry.ts:52-56 | The linear waits before r retries add up to backoff * r * (r + 1) / 2. |
| SerializableRetry.TakeKeepsSerial | src/common/utils/serializable-retry.ts:37-62 | Every attempt of every caller keeps: the state is the replay of the log, the log names the callers that succeeded, each once, and each got what its callback returned in its turn. |
| SerializableRetry.EveryRunIsSerial | src/common/utils/serializable-retry.ts:8-20 | However any number of callers interleave, the state is the serial composition of the committed callbacks and nothing of the others is in it. |
| SerializableRetry.RunsAreShort | src/common/utils/serializable-retry.ts:16-17 | In no run of any number of callers does one of them take more than maxRetries + 1 attempts. |
| TicketFolio.FormatInjective | src/modules/ticket-settings/internal/format-ticket-number.ts:20-39 | Under one prefix and suffix different numbers have different folios. |
| TicketFolio.PaddedIs | src/modules/ticket-settings/internal/format-ticket-number.ts:25 | The padded number is a numeral of the number, of at least three digits and without a leading zero beyond three. |
| TicketFolio.FormatExamples | src/modules/ticket-settings/internal/format-ticket-number.ts:12-16 | The documented examples F-001, 042, A-007-B and 009, and 007-A and 1234. |
| TicketFolio.DisjointIff | src/modules/ticket-settings/internal/format-ticket-number.ts:20-39 | For all prefixes and suffixes: two configurations never write the same folio if and only if neither runs into the other, that is unless one heading continues the other with a padded number whose rest, a number and the longer one's ending make the shorter one's ending, or both headings and endings are equal. |
| TicketFolio.PrefixesTellIff | src/modules/ticket-settings/actions/update-ticket-setting.action.ts:59-79 | Without suffixes that is when their prefixes differ, an empty one counting as none. |
| TicketFolio.SuffixMeetsPrefix | src/modules/ticket-settings/dto/update-ticket-setting.dto.ts:12-18 | With suffixes different prefixes are not enough: two accepted configurations both write NC-001-001. |
| TicketFolio.HeadsApartAreDisjoint | src/modules/ticket-settings/internal/format-ticket-number.ts:20-39 | With any suffixes they never do when neither prefix with its hyphen begins with the other's. |
| TicketFolio.NumberIsASegment | src/modules/ticket-settings/internal/resync-ticket-counters.ts:51-58 | The padded number is a whole segment of its folio, whatever hyphens prefix and suffix contain. |
| TicketFolio.SplitJoins | src/modules/ticket-settings/internal/resync-ticket-counters.ts:51-53 | The segments hold no hyphen and, joined by hyphens, give the folio back. |
| TicketFolio.ReadsGreatestSegment | src/modules/ticket-settings/internal/resync-ticket-counters.ts:51-60 | The number read is the greatest of the segments of one to fifteen digits, none if there is no such segment. |
| TicketFolio.NeverUnderestimatesIff | src/modules/ticket-settings/internal/resync-ticket-counters.ts:51-60 | Reading a folio back gives at least its number if and only if the number has at most fifteen digits. |
| TicketFolio.AheadIssues | src/modules/ticket-settings/actions/increment-ticket-number.action.ts:18-48 | A counter ahead of every folio in its column issues one that is new to it and stays ahead. |
| TicketFolio.SiblingStaysAhead | src/database/migrations/1747009500000-create-credit-notes-table.ts:249-253 | So does the other counter of the column when the configurations never write the same folio. |
| TicketFolio.TakenBlocks | src/database/migrations/1747012180000-resync-ticket-counters.ts:20-26 | Issuing fails if and only if the next folio is taken, with 23505, which is never retried. |
| TicketFolio.ReplayIssues | src/modules/ticket-settings/actions/increment-ticket-number.action.ts:39-42 | Any serial run of documents of both kinds moves each counter once per commit of its kind and stores exactly the folios in between. |
| TicketFolio.ConcurrentFoliosAreFresh | src/modules/ticket-settings/actions/increment-ticket-number.action.ts:25-33 | Any number of interleaved, retried documents of both kinds get folios that are new to the column, consecutive within their kind in commit order; at the end the column has gained these and no others. |
| TicketFolio.BlockedSale | src/database/migrations/1747012180000-resync-ticket-counters.ts:20-26 | With the next folio taken every call fails and the rollback restores the counter, so the block is permanent; unless the engine aborts it, the call stops after one attempt with 23505. |
| TicketFolio.TicketSettings.GreatestNumber | src/modules/ticket-settings/internal/resync-ticket-counters.ts:116-122 | The greatest number read from the folios, attained by one of them. |
| TicketFolio.TicketSettings.Raise | src/modules/ticket-settings/internal/resync-ticket-counters.ts:157-171 | A counter becomes the greater of itself and the greatest number read from the folios of its own kind. |
| TicketFolio.TicketSettings.Resync | src/modules/ticket-settings/internal/resync-ticket-counters.ts:79-174 | Both counters of every column are raised, each by its own folios; folios are untouched. |
| TicketFolio.RaisedIsAheadIff | src/modules/ticket-settings/internal/resync-ticket-counters.ts:51-58 | After it a counter is ahead, under whatever prefix and suffix it is given, if and only if no folio of the other kind in its column is one it has yet to write. |
| TicketFolio.RaisedAloneIsAhead | src/modules/ticket-settings/internal/resync-ticket-counters.ts:79-110 | A counter with a column of its own always is. |
| TicketFolio.RaisedApartIsAhead | src/database/migrations/1747009500000-create-credit-notes-table.ts:249-253 | So is one whose sibling's folios were all written by a configuration that never meets its own. |
| TicketFolio.PlainNotesStayBlocked | src/modules/ticket-settings/internal/resync-ticket-counters.ts:90-102 | With two empty configurations, five credit notes and a debit counter at 2, every resynchronization leaves the column as it is and the next debit note is refused. |
| TicketFolio.CrossedNotesStayBlocked | src/modules/ticket-settings/internal/resync-ticket-counters.ts:90-102 | The same with the two configurations of different prefixes, one credit note and a debit counter at 0. |
| TicketFolio.RaisedOnce | src/database/migrations/1747012180000-resync-ticket-counters.ts:35-39 | A second run, or one on a healthy counter, changes nothing. |
| CivilDate.MakeDayOfCivil | src/lending/domain/loan-start-date.ts:17-18 | Every day number is that of the real Gregorian date computed from it. |
| CivilDate.CivilOfMakeDay | src/lending/domain/loan-start-date.ts:17-18 | Every real date is the one computed from its day number, for all years. |
| CivilDate.EarlierIff | src/lending/domain/loan-start-date.ts:21 | Calendar order of real dates is the order of their day numbers. |
| CivilDate.RealIff | src/lending/domain/loan-start-date.ts:11 | A date is real if and only if its day is within the 31, 30, 28 or, in leap years, 29 days of its month. |
| CivilDate.DaysFollow | src/lending/domain/loan-start-date.ts:17-18 | The day after a real date, of its month, the next month or the next year, has the next day number. |
| CivilDate.Anchored | src/lending/domain/loan-start-date.ts:17-18 | 1 January 1970 is day 0, and 400 years are 146097 days. |
| LoanStartDate.AcceptedIff | src/lending/domain/loan-start-date.ts:17-20 | The parse-then-print test accepts exactly the real dates of four-digit years and the months of the other years, whatever the engine makes of other strings. |
| LoanStartDate.DigitsAcceptedIff | src/lending/domain/loan-start-date.ts:17-20 | Of all four, two and two digits exactly those that make a real date pass. |
| LoanStartDate.FarMonthAccepted | src/lending/domain/loan-start-date.ts:18 | `+012026-10` passes it. |
| LoanStartDate.StringOrderIsCalendarOrder | src/lending/domain/loan-start-date.ts:21 | On strings of the shape dddd-dd-dd string order is calendar order. |
| LoanStartDate.FutureIff | src/lending/domain/loan-start-date.ts:21-23 | A real date compares after today's string if and only if its day is after today in Bogota. |
| LoanStartDate.BusinessDayIff | src/lending/domain/loan-start-date.ts:5-7 | Today is the date D exactly from 05:00 UTC of D to 05:00 UTC of the next day, and is printed as D. |
| LoanStartDate.ResolveIff | src/lending/domain/loan-start-date.ts:14-25 | For every non-empty input, exactly when it is returned, refused as no date, or refused as future. |
| LoanStartDate.GuardedResolveIff | src/lending/loans/dto/create-loan.dto.ts:48 | Behind the request's shape check exactly the real dates not after today are accepted. |
| LoanStartDate.TodayIsAFixedPoint | src/lending/domain/loan-start-date.ts:15-16 | No input gives today, and today given back is accepted as it is. |
| CategorySync.ProductTable.Up | src/database/migrations/1747012890000-sync-presentation-categories-with-base.ts:18-27 | In any order of the rows each product with a parent of its own company takes the category that the parent had before the statement, any other keeps its own, and exactly the rows that differed are counted. |
| CategorySync.RunsFollowAncestors | src/database/migrations/1747012890000-sync-presentation-categories-with-base.ts:20-25 | After k runs every product carries the category its k-th ancestor started with, on trees and cycles alike. |
| CategorySync.RootCategoryArrives | src/database/migrations/1747012890000-sync-presentation-categories-with-base.ts:4-10 | A product at depth k or less carries its root's category after k runs and any more. |
| CategorySync.RunsStayInCompany | src/database/migrations/1747012890000-sync-presentation-categories-with-base.ts:12 | Categories of the product's own company stay so, whatever the parents are. |
| CategorySync.SettlesIff | src/database/migrations/1747012890000-sync-presentation-categories-with-base.ts:12 | k runs settle every assignment of categories if and only if no product is deeper than k; idempotence is the case k = 1. |
| CategorySync.CycleRotates | src/database/migrations/1747008240000-create-products-table.ts:200-207 | On a cycle of n products the categories come round every n runs, for ever. |
| CategorySync.MixedCycleNeverSettles | src/database/migrations/1747008240000-create-products-table.ts:200-207 | A cycle with two categories on it is never settled by any number of runs. |
| CategorySync.SettlesEventuallyIff | src/database/migrations/1747008240000-create-products-table.ts:200-207 | Some number of runs settles every assignment if and only if no parents form a cycle, and then as many runs as there are products do. |
| SaleStatusHistory.StatusHistory.Insert | src/database/migrations/1747011980000-create-sale-status-history-table.ts:61-68 | Appends the rows with consecutive ids. |
| SaleStatusHistory.NumberedFollow | src/database/migrations/1747011980000-create-sale-status-history-table.ts:61-68 | The rows added follow the others in their order, each with the id after the one before. |
| SaleStatusHistory.StatusHistory.Backfill | src/database/migrations/1747011980000-create-sale-status-history-table.ts:88-160 | An empty table receives the five queries' rows one after the other; a table with rows is left alone. |
| SaleStatusHistory.BackfillTwice | src/database/migrations/1747011980000-create-sale-status-history-table.ts:21-23 | Running it again never changes anything, also when the first run had nothing to insert. |
| SaleStatusHistory.IdsFollowStages | src/database/migrations/1747011980000-create-sale-status-history-table.ts:23-26 | Ids respect CREATED < COLLECTED, INSTALLMENT < CREDIT_OPENED < PAID < VOIDED across all sales. |
| SaleStatusHistory.EventsTell | src/database/migrations/1747011980000-create-sale-status-history-table.ts:94-156 | Every event says, field by field, what its sale, live payment, credit or void on record says, of the kind that the credit of the sale decides. |
| SaleStatusHistory.AllIsTold | src/database/migrations/1747011980000-create-sale-status-history-table.ts:94-156 | Conversely everything on record is told: each such entry is in the history, a void at the date of the last full void. |
| SaleStatusHistory.OneCreatedEach | src/database/migrations/1747011980000-create-sale-status-history-table.ts:94-98 | The CREATED events are one for each invoice, with its data. |
| SaleStatusHistory.OneEventPerPayment | src/database/migrations/1747011980000-create-sale-status-history-table.ts:100-115 | Without fan-out the payment events are one for each live payment, of the kind its sale's credit decides. |
| SaleStatusHistory.IndexPreventsFanOut | src/database/migrations/1747009440000-create-sale-credits-table.ts:194-199 | The unique index on company and sale excludes fan-out. |
| SaleStatusHistory.NeverBothKinds | src/database/migrations/1747011980000-create-sale-status-history-table.ts:100-115 | No sale has both COLLECTED and INSTALLMENT events, even with fan-out. |
| SaleStatusHistory.AmountsAddUpIff | src/database/migrations/1747011980000-create-sale-status-history-table.ts:104-115 | With positive payments the event amounts add up to the live payments if and only if no live payment meets two credits. |
| SaleStatusHistory.SaleAmountsConserved | src/database/migrations/1747011980000-create-sale-status-history-table.ts:104-115 | Then they do so sale by sale. |
| SaleStatusHistory.OpenedOnce | src/database/migrations/1747011980000-create-sale-status-history-table.ts:117-125 | A credit gives one CREDIT_OPENED with its total if its sale is of its company, and none otherwise. |
| SaleStatusHistory.OnePaidEach | src/database/migrations/1747011980000-create-sale-status-history-table.ts:127-132 | The PAID events are one for each paid credit. |
| SaleStatusHistory.PaidAreOpenedIff | src/database/migrations/1747011980000-create-sale-status-history-table.ts:117-132 | Every PAID event has a CREDIT_OPENED of its sale if and only if the sale of every paid credit is of the credit's company. |
| SaleStatusHistory.OneVoidedEach | src/database/migrations/1747011980000-create-sale-status-history-table.ts:134-156 | The VOIDED events are one for each deleted invoice. |
| SaleStatusHistory.VoidedWhen | src/database/migrations/1747011980000-create-sale-status-history-table.ts:33-34 | Each is dated and signed by the latest live FULL_VOID note of the sale, or by the sale itself when there is none. |
| FixedExpensePeriods.BackfillIff | src/database/migrations/1747011620000-add-payment-state-to-fixed-expense-periods.ts:48-91 | A backfilled row meets every CHECK added afterwards if and only if it met the old ones, amount 0 included. |
| FixedExpensePeriods.DocumentedIff | src/database/migrations/1747011620000-add-payment-state-to-fixed-expense-periods.ts:17-21 | A row that meets the CHECKs meets the documented equivalences if and only if its amount is positive. |
| FixedExpensePeriods.UpThenDown | src/database/migrations/1747011620000-add-payment-state-to-fixed-expense-periods.ts:112-145 | `down` after `up` is the identity. |
| FixedExpensePeriods.DownThenUpIff | src/database/migrations/1747011620000-add-payment-state-to-fixed-expense-periods.ts:112-145 | `up` after `down` is the identity on exactly the rows that are not partially paid and resets those to unpaid. |
| FixedExpensePeriods.PeriodTable.Up | src/database/migrations/1747011620000-add-payment-state-to-fixed-expense-periods.ts:39-110 | Succeeds, with every row backfilled, if and only if every row met the old CHECKs; otherwise nothing changes. |
| FixedExpensePeriods.PeriodTable.Down | src/database/migrations/1747011620000-add-payment-state-to-fixed-expense-periods.ts:112-146 | Rewrites exactly the partially paid statuses, drops the columns and restores the old CHECKs. |
| FixedExpensePeriods.RoundingApartBreaksIff | src/modules/fixed-expenses/actions/pay-fixed-expense-periods.action.ts:218-230 | Rounding paid and balance each by itself gives the same paid amount, and a sum that is a cent too high if and only if the payment ends in half a cent. |
| FixedExpensePeriods.SettleKeepsChecksIff | src/modules/fixed-expenses/actions/pay-fixed-expense-periods.action.ts:218-240 | All CHECKs hold after it if and only if something was already paid or the payment is at least half a cent. |
| FixedExpensePeriods.RunIsAsPromised | src/modules/fixed-expenses/actions/pay-fixed-expense-periods.action.ts:155-249 | The loop gives each period its closed-form share, or fails on some share exactly when the account cannot pay the whole amount. |
| FixedExpensePeriods.PeriodTable.Distribute | src/modules/fixed-expenses/actions/pay-fixed-expense-periods.action.ts:152-249 | On success the account paid the amount, the expenses add its shares and every CHECK holds; on failure everything is as it was. |
| FixedExpensePeriods.PeriodTable.PayPeriod | src/modules/expenses/internal/debit-expense-source.ts:62-92 | Debits the account, records the expense and updates the period, or changes nothing. |
| FixedExpensePeriods.PeriodTable.Pay | src/modules/fixed-expenses/actions/pay-fixed-expense-periods.action.ts:89-277 | A payment succeeds if and only if the amount is positive, periods and an account are named, the expense is of the company, the ids are distinct periods of that expense and company, the amount is within what they owe, and the account is found with that much; each error has its exact condition in the source's order, without effect. On success the new expenses add up to the amount, one for each period that gets something; each period is paid just what they say, later periods only once the earlier ones owe nothing, and no other period changes. |
| FixedExpensePeriods.PeriodsFoundIff | src/modules/fixed-expenses/actions/pay-fixed-expense-periods.action.ts:132-137 | Comparing lengths detects every repeated id and every id of another expense or company, and nothing else. |
| FixedExpensePeriods.RefusalSays | src/modules/fixed-expenses/actions/pay-fixed-expense-periods.action.ts:96-148 | The first fault of a request decides its error, each by its condition on request, rows and account. |
| FixedExpensePeriods.SettledIsShared | src/modules/fixed-expenses/actions/pay-fixed-expense-periods.action.ts:151-249 | The closed-form outcome, read off rows and expenses: each period moves by the expenses recorded for it, oldest first, with the status its balance gives. |
| FixedExpensePeriods.PaymentReconciles | src/modules/fixed-expenses/actions/pay-fixed-expense-periods.action.ts:179-200 | Every payment keeps: what a period has paid is what it had at the start plus the expenses recorded for it. |
| FixedExpensePeriods.InstalmentsDoNotMatter | src/modules/fixed-expenses/actions/pay-fixed-expense-periods.action.ts:51-75 | Paying a and then b leaves all periods, statuses included, as paying a + b does. |
| FixedExpensePeriods.InstalmentsAcceptedIff | src/modules/fixed-expenses/actions/pay-fixed-expense-periods.action.ts:95-148 | Two payments in a row are both accepted if and only if one of their sum is. |
| Waterfall.ShareInClosedForm | src/modules/fixed-expenses/actions/pay-fixed-expense-periods.action.ts:63-74 | A period's share is what is left of the amount after all that is owed before it, up to its balance. |
| Waterfall.OldestFirst | src/modules/fixed-expenses/actions/pay-fixed-expense-periods.action.ts:48 | No period gets anything before every earlier one is paid in full. |
| Waterfall.AmountIsSpent | src/modules/fixed-expenses/actions/pay-fixed-expense-periods.action.ts:251 | The expenses add up to the amount, as far as anything is owed. |
| Waterfall.SpentIsShare | src/modules/fixed-expenses/actions/pay-fixed-expense-periods.action.ts:179-200 | The expenses recorded for a period add up to its share. |
| Waterfall.PayableShares | src/modules/fixed-expenses/actions/pay-fixed-expense-periods.action.ts:139-140 | Leaving out the periods without balance changes no share and no expense. |
| Waterfall.OwedConcat | src/modules/fixed-expenses/actions/pay-fixed-expense-periods.action.ts:142 | What a list owes is the sum of its positive balances, wherever the list is cut. |
| Waterfall.ShareTwice | src/modules/fixed-expenses/actions/pay-fixed-expense-periods.action.ts:155-249 | Two amounts one after the other are shared as their sum is. |

## Left out

- PostgreSQL's own scheduling of referential triggers: the model lets the actions run in any order and proves which results hold in all of them; concurrent statements during a wipe are not modelled.
- ON UPDATE actions, constraint names, index choice and `updated_at` columns.
- Foreign keys to rows outside the tenant tables other than companies, users and tax rates are as the migrations declare them; tables without rows of a tenant are not listed.
- TenantWipe.DeleteTenant: the images removed after the commit, and the lock-step of its two statements: both read one state. It takes one order of the cascade, any one; with loans whether it commits depends on it.
- ProductDedupe.ProductTable.Up: `lower` is any per-character map that keeps digits; context-dependent case rules of a locale are not modelled, and `n::text` has no `int` limit.
- `Number(...)` and IEEE conversion: money is exact, in whole cents (rates with two decimals) in the `Precision` theorems.
- SalesViews: display columns (customer, seller, ticket numbers, `last_note_at`, `bank_name`); amounts are reals, without the rounding of `numeric(15,2)`, since the views only add, subtract and multiply.
- SerializableRetry.RunSerializableWithRetry: the transaction is atomic by assumption, what other transactions and the engine do between attempts is an arbitrary parameter, and waits are added up instead of slept; the logger is left out.
- TicketFolio.ConcurrentFoliosAreFresh: prefix and suffix do not change during the run, and the numbers stay within fifteen digits, the range the resynchronization can read back; the narrower integer column of the counter is not modelled.
- LoanStartDate.ResolveIff: asks that today lies in the years 0 to 9999; Bogota is five hours behind UTC, without the daylight saving of past decades.
- What a JavaScript engine makes of date strings outside the language's formats is an arbitrary parameter of the model.
- CategorySync: the propagation in the product update action, which only handles products without a parent.
- SaleStatusHistory: the enum, the indexes and `down`, which drops the table.
- FixedExpensePeriods.PeriodTable.Pay: amounts are whole cents, as the request demands; the account is one balance, found or not, and cash register logs, financial movements, descriptions and `paid_at` are left out. The order of the selected periods is the answer of the query, any one sorted by period number.
- Guards, configuration, bootstrap, controllers and the other services: short decisions over libraries, which would only add easy members.
