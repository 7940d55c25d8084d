# Presto accounting: a Dafny model

Presto is a household budgeting server. This project models its accounting core and a few
small but dense algorithms around it, and proves what they promise. `dafny verify
dfyconfig.toml` checks everything.

## What is modelled

**The budget plan ledger** (`server/src/budget_ledger.rs`, `server/src/budget.rs`, the write
handlers in `server/src/server.rs`). `BudgetLedger` is the class: source tables (`facts`), the
append-only movement table, the closed months with their frozen balances and coverage, and
cash. `Sync` has the two passes of the original and appends, through `Move`, only differences.
`LedgerFacts` says which movements the facts call for; `LedgerEffects` which key is written by
which part; `LedgerThrough` why skipping closed months is harmless; `LedgerBalances` what the
carryover report has to arrive at; `LedgerSteps` what every handler accepts and does, and
`LedgerHandlers` what that means in terms of the tables alone;
`LedgerTotals` and `LedgerConservation` add everything up to one exact law; `LedgerSalary`
settles the rounding of income; `LedgerRuns` turns the law into conservation over whole runs;
`LedgerActivation` and `LedgerCarryover` cover switching the ledger on, and how amounts travel
through months; `LedgerEuro` says exactly which changes of receipts and plans in EUR keep
Unallocated at the projected gap, and `LedgerHousehold` follows a household in EUR from
activation to the figure its reports show. Money is a whole number of units, any number of
units to the cent, so amounts finer than a cent are included; `Posting` proves that posting a
proportion in units is posting it on decimal text.

**Exact decimals** (`server/src/finance_model.rs`, `server/src/bin/presto-admin.rs`).
`Numerals` and `Decimals` read, add and write decimal text, `DecimalForms` says which texts are
numbers and of what value; `DecimalRounding` has the three
rounding modes on a truncated quotient; `ExactDecimals` is the second implementation, on
strings of digits with carry and borrow, proved to return the same text as the first;
`Valuation` has the server's valuation and the independent check beside it; `Projection` the
account and category changes of one transaction.

**The calendar** (`server/src/finance_model.rs`): `Calendar` has day numbers, their inverse and
Easter, `BusinessDays` dates as text and the operating days of TARGET.

**Small algorithms**: localized amounts and the formula parser (`AmountText`,
`FormulaGrammar`, `FormulaParser`), with the written forms that are amounts (`AmountForms`) and
the arithmetic formulas stand for (`FormulaMeaning`); the edit distance (`EditDistance`); the
balancing proposal (`BalancingProposal`); the alert outbox as a state machine with its worker
(`PushOutbox`, `PushService`) and what each of its statements does to rows and devices
(`PushPromises`); the memoised replay of spreadsheet formulas (`FormulaReplay`) and what each
column holds (`ReplayColumns`).

## What was found

- **Conservation is exact, with named terms.** Unallocated and the projected gap differ by
  `LedgerConservation.Imbalance` in every state, and by nothing else. A household kept in EUR
  keeps them equal from activation on, whatever it enters, as long as its entries avoid the
  cases below (`LedgerHousehold.EuroFromActivation`). What makes the term change:
  - an entry whose native and EUR amounts differ, and a transfer that does not bring what it
    takes (`LedgerRuns.BackedEntries`);
  - income to Unallocated, and a reallocation touching Unallocated, in an open month before
    activation: such months accept entries, but the ledger starts later and carryover has no
    such category then (`LedgerRuns.BackedEntries`, `LedgerRuns.EarlyIncomeBreaks`);
  - a reconciliation, a one-sided category correction, an entry dated later than today;
  - receipts and plans in the five cases that follow.
- **Half a cent.** When receipts split a plan with an odd number of cents on half a cent,
  covered and outstanding part miss the plan by one cent, and in no other case
  (`LedgerSalary.FundingSplits`, `LedgerSalary.DriftOfOpenPlan`).
- **Salary dated before a legacy receipt.** Receipts are capped in date order. Salary entered
  with a date before a receipt from before activation can take over its share of the plan; the
  older receipt keeps its category effect, so the sum no longer matches cash
  (`LedgerEuro.BackdatedSalaryBreaks`; exactly when: `LedgerEuro.CreateKeepsWhen`).
- **Edited receipts.** Changing amount, day, plan or treatment of a receipt does the same to
  the receipts after it (`LedgerEuro.EditedSalaryBreaks`; exactly when:
  `LedgerEuro.EditKeepsWhen`, `LedgerEuro.EditInOrOut`; by how much: `LedgerEuro.EditMovesBy`).
- **Deleted receipts.** What was written off when an expectation was completed stays written
  off when its salary is deleted later; and the share of the plan a deleted legacy
  receipt stood for is expected once more, although Unallocated opened without it
  (`LedgerEuro.DeletionBreaks`; exactly when:
  `LedgerEuro.DeleteKeepsWhen`).
- **Replanning a month with legacy receipts.** A new expectation replans the current month
  whatever it has received; a legacy receipt that fits under one plan only changes its share
  (`LedgerEuro.ReplanningBreaks`; exactly when: `LedgerEuro.ExpectKeepsWhen`).
- **A month without a funding row.** `apply` takes a month without a funding movement for one
  whose plan is still to be made and reports the current expectation as funding. A plan worth
  nothing that was completed is not replanned, so a later expectation for the same month is
  reported although no movement holds it
  (`LedgerCarryover.CompletedNothingIsShownAsFunding`; exactly when months are read right:
  `LedgerCarryover.ShownRight`; such a month is always planned at nothing:
  `LedgerCarryover.UnfundedPlansNothing`).

## Model
| member | source | states |
|---|---|---|
| LedgerRows.SameNetsSameSum | server/src/budget_ledger.rs:607-617 | two movement tables that hold the same net in every slot of a selection have the same sum over it, whatever rows in whatever order they are made of |
| LedgerRows.ReconcilesThen | server/src/budget_ledger.rs:331-408 | appending the differences for one set of keys and then for a disjoint one is appending them for both |
| LedgerRows.ReconcilesAgain | server/src/budget_ledger.rs:320-328 | a table that already holds what is wanted gets no row |
| LedgerEffects.NetMonth | server/src/budget_ledger.rs:344-406 | of everything a month wants, only one part can write a given key, so the wanted amount of a key is what that part says |
| LedgerEffects.NetPlan | server/src/budget_ledger.rs:415-500 | what a plan wants under its excess key in a month is the sum of its receipts' excess there, and under its completion key the written-off shortfall |
| LedgerEffects.NetImproper | server/src/budget_ledger.rs:331-502 | keys that no fact can produce are wanted at zero |
| LedgerThrough.LaterReceipts | server/src/budget_ledger.rs:427-441 | receipts dated after a month do not change the excess wanted for that month, although receipts are capped one after another |
| LedgerThrough.EffectsThrough | server/src/budget_ledger.rs:339-344 | what any key of months up to k should hold depends only on the facts dated up to k |
| LedgerBalances.MonthSum | server/src/budget.rs:287-303 | the movements an open ledger month calls for sum, for each category, to its allocation, minus its spending, and minus its reallocation impact |
| LedgerBalances.SettledSum | server/src/budget.rs:287-303 | a movement table in line with the facts sums, per month, category and kind, to what the month calls for |
| LedgerBalances.BalanceThrough | server/src/budget.rs:158-183 | a category balance at the end of a month reads no later fact |
| LedgerBalances.UnallocatedThrough | server/src/budget_ledger.rs:589-605 | Unallocated at the end of a month reads no later fact |
| LedgerBalances.AllocationsNet | server/src/budget_ledger.rs:361-388 | Unallocated gives up exactly the total of the month's allocations |
| LedgerTotals.AllocationsBalance | server/src/budget_ledger.rs:361-388 | in a settled table the allocation rows of a month sum to zero |
| LedgerSteps.InsertOrdered | server/src/budget_ledger.rs:158 | an entered transaction keeps the date-and-id order receipts are scanned in |
| LedgerSteps.InsertContinues | server/src/server.rs:3090-3592 | entering a transaction changes no fact of a closed month |
| LedgerSteps.EditContinues | server/src/server.rs:3722-3750 | an edit, which must stay in its month, changes no fact of a closed month |
| LedgerSteps.RemoveContinues | server/src/server.rs:4298-4611 | a deletion changes no fact of a closed month |
| LedgerSteps.AllocateContinues | server/src/server.rs:1541-1644 | new allocations change no fact of a closed month |
| LedgerSteps.ExpectContinues | server/src/server.rs:1646-1786 | a new expectation replans open, uncompleted months only |
| LedgerHandlers.PostedIs | server/src/budget_ledger.rs:236-310 | which receipt an income entry gets and when it is refused: salary for its own month unless it names one, none for unexpected income and refunds, a completed expectation takes no new one, and an edit that says nothing keeps the one it has |
| LedgerHandlers.EntryIs | server/src/server.rs:3090-3592 | an entered transaction is added to the ordered table and nothing else is; the plan it is a receipt of has received more by what the receipt counts, no other plan has |
| LedgerHandlers.DeletionIs | server/src/server.rs:4298-4611 | a deletion takes out the entry and what it counted, and nothing else |
| LedgerHandlers.EditIs | server/src/server.rs:3722-3750 | an edit takes the old entry out, as a deletion does, and adds the new one with the receipt it asks for |
| LedgerHandlers.EditAccepted | server/src/server.rs:3594-4296 | an edit is taken exactly when its month is open, its sides and treatment fit, and an entry of that month is there to replace |
| LedgerHandlers.MatchedIs | server/src/budget_ledger.rs:152-158 | the receipts of a plan are the salary and legacy income that names it, dated up to the month asked for |
| LedgerHandlers.NativeCounts | server/src/budget_ledger.rs:161-170 | a receipt counts its amount in the currency of the plan, else that of an account in it, else its EUR value in proportion, to the nearest cent |
| LedgerHandlers.OutstandingIs | server/src/budget_ledger.rs:184-220 | nothing is outstanding of a completed or fully received plan; of any other its rest, in EUR to the nearest cent |
| LedgerHandlers.AllocatedIs | server/src/budget.rs:195-197 | the allocation of a month is that of the setting with the latest start on or before it, and nothing without one |
| LedgerHandlers.AllocatedSince | server/src/server.rs:1613-1620 | new amounts hold from their month on until another setting of the category starts; earlier months and other categories keep theirs |
| LedgerHandlers.SettingIs | server/src/budget_ledger.rs:115-125 | the expectation of a month is the setting with the latest start on or before it, 10000 USD without one |
| LedgerHandlers.ExpectedIs | server/src/server.rs:1719-1748 | a new expectation replaces the setting of its month, and exactly the open, uncompleted months from it on are planned anew, each by its setting |
| LedgerHandlers.MaterialisedIs | server/src/budget_ledger.rs:106-135 | every month from activation to now has a plan: the one it had, or its setting's in EUR of its first day |
| LedgerHandlers.LaterTakenBack | server/src/budget_ledger.rs:745-760 | taking back what is later leaves the activity dated up to today in the current month, and to its end in any other |
| LedgerTotals.CoverageTelescopes | server/src/budget_ledger.rs:427-435 | what single receipts cover, each rounded on its own, adds up to the funding portion of what was received up to the plan |
| LedgerTotals.ExcessTotal | server/src/budget_ledger.rs:427-441 | recorded excess is what salary brought less what it covered, for receipts in any number and order |
| LedgerTotals.PositionMoves | server/src/budget_ledger.rs:650-662 | category budgets and Unallocated together change, from activation to any month, by the sum of all movements |
| LedgerSalary.SalaryExcess | server/src/budget_ledger.rs:427-441 | for salary receipts in any number and order, the summed excess is the total received in EUR less the funding portion of the smaller of plan and received |
| LedgerSalary.FundingSplits | server/src/budget_ledger.rs:184-220 | covered part and outstanding part add up to the planned EUR if and only if the split is not on half a cent of a plan with an odd number of cents; then they miss it by one cent |
| LedgerSalary.DriftOfOpenPlan | server/src/budget_ledger.rs:211-220 | an open plan, with any receipts, misses being accounted for by exactly what receipts from before activation fund of it, if and only if its receipts do not split it on half a cent; otherwise by one cent more or less |
| LedgerSalary.LegacyFirst | server/src/budget_ledger.rs:158 | salary entered anywhere after a plan's receipts from before activation leaves what those fund unchanged, in any currency |
| LedgerRuns.InsertMoves | server/src/budget_ledger.rs:785-797 | any entry moves the difference between Unallocated and the projected gap by what it budgets beyond its cash and by the drift of the plan it settles, and by nothing else |
| LedgerRuns.RemoveMoves | server/src/server.rs:4298-4611 | a deletion takes back exactly what entering the same transaction among the others would move |
| LedgerRuns.EditMoves | server/src/server.rs:3722-3750 | an edit moves the difference by what the new form moves among the other entries less what the old form did |
| LedgerRuns.ExpectMoves | server/src/server.rs:1719-1748 | a new expectation moves the difference by the drift of the current month alone |
| LedgerRuns.LaterSalary | server/src/budget_ledger.rs:158 | salary dated after the plan's receipts from before activation is an ordinary step wherever the plan splits on whole cents |
| LedgerConservation.ConservationLaw | server/src/budget_ledger.rs:785-797 | in every well-formed state Unallocated and the projected gap differ by exactly the stated imbalance: opening difference, entries that budget other than they bring, corrections, plan drift and money dated later |
| LedgerRuns.StepKeeps | server/src/budget_ledger.rs:331-502 | no ordinary step (create, edit, delete, allocation, expectation, completion, new day or month, close) changes the imbalance |
| LedgerRuns.Conservation | server/src/budget_ledger.rs:785-797 | from a state where Unallocated is the projected gap, every run of ordinary steps ends in one |
| LedgerRuns.BackedEntries | server/src/server.rs:3090-3592 | in every open month: from activation on, an accepted entry budgets what it brings if and only if its native and EUR amounts agree (for a transfer: both native sides); before activation, the same, except that income to Unallocated and reallocations touching Unallocated never do |
| LedgerRuns.EarlyIncomeBreaks | server/src/budget.rs:87-104 | a concrete accepted entry of an open month before activation, native and EUR amounts alike, after which Unallocated is 50 short of the projected gap |
| LedgerEuro.EuroDrift | server/src/budget_ledger.rs:427-441 | a plan in EUR drifts, while open, by what legacy receipts take of it, and once completed by what neither salary nor the written-off rest accounts for |
| LedgerEuro.OutstandingFalls | server/src/budget_ledger.rs:211-220 | a receipt in EUR lowers what is outstanding of its plan by what it pays, down to nothing, and of no other plan |
| LedgerEuro.SharesPushed | server/src/budget_ledger.rs:427-435 | receipts that find less room take less or the same, and the same in total if and only if each single one fits both times or found nothing left both times |
| LedgerEuro.SharesInsert | server/src/budget_ledger.rs:158 | one more receipt takes its amount of room from the receipts of the other sort that come after it in date-and-id order, and from no others |
| LedgerEuro.ReceiptMoves | server/src/budget_ledger.rs:427-441 | entering salary into a plan in EUR can only lower the difference, a legacy receipt only raise it, and either keeps it if and only if it has room |
| LedgerEuro.CreateKeepsWhen | server/src/server.rs:3090-3592 | an accepted salary entry keeps the difference if and only if every positive legacy receipt dated after it still fits under the plan with it, or found the plan used up before |
| LedgerEuro.DeleteKeepsWhen | server/src/server.rs:4298-4611 | deleting a receipt of an open or completed plan keeps the difference if and only if the later receipts of the other sort are undisturbed and, for the sort the plan is settled by, the others fill the plan |
| LedgerEuro.EditKeepsWhen | server/src/server.rs:3722-3750 | an edit of a receipt's amount or day, pushing the others one way, keeps the difference if and only if the others are undisturbed between both places and, for the sort the plan is settled by, the plan is filled either way |
| LedgerEuro.EditInOrOut | server/src/server.rs:3722-3750 | an edit that makes an entry a receipt of a plan, or no longer one, keeps the difference if and only if it has room there |
| LedgerEuro.EditMovesBy | server/src/server.rs:3722-3750 | every other edit of receipts in EUR moves the difference by what the new form takes from the other receipts less what the old form took |
| LedgerEuro.ExpectKeepsWhen | server/src/server.rs:1719-1748 | replanning an open month keeps the difference if and only if the amount stays or every positive legacy receipt fits under both plans or found both used up |
| LedgerEuro.BackdatedSalaryBreaks | server/src/budget_ledger.rs:427-441 | 50 of salary dated before a legacy 80 of an expected 100 leaves Unallocated 30 short of the projected gap |
| LedgerEuro.EditedSalaryBreaks | server/src/server.rs:3722-3750 | the same salary entered as 10 and edited to 50 leaves it 30 short |
| LedgerEuro.DeletionBreaks | server/src/server.rs:4298-4611 | deleting the salary of 80 of a plan completed 20 short leaves Unallocated 80 above the projected gap, deleting a legacy 80 of an open plan 80 short of it |
| LedgerEuro.ReplanningBreaks | server/src/server.rs:1719-1748 | expecting 50 instead of 100 for the month a legacy 80 settles leaves it 30 short |
| LedgerHousehold.EuroStepOrdinary | server/src/server.rs:3090-3592 | for a household in EUR, every step that passes conditions on the entry at hand is ordinary and leaves the household in EUR |
| LedgerHousehold.EuroConservation | server/src/budget_ledger.rs:785-797 | in a household in EUR every run of such steps, of any length, keeps Unallocated at the projected gap |
| LedgerHousehold.ActivatedInEuro | server/src/budget_ledger.rs:54-105 | switching the ledger on makes such a household of one that has its expectations and this month's income in EUR |
| LedgerHousehold.FromActivation | server/src/budget_ledger.rs:54-105 | from the day the ledger is switched on, through any run of ordinary steps, Unallocated as reports show it is the projected gap, when every open month has its funding movement or expects nothing |
| LedgerHousehold.EuroFromActivation | server/src/budget_ledger.rs:785-797 | the same for a household in EUR, from conditions on its entries alone |
| LedgerActivation.ActivationKeepsBalance | server/src/budget_ledger.rs:81-89 | activation leaves a category's balance as it was, up to transfers and reconciliations of the month that carried the category |
| LedgerActivation.ActivatedIs | server/src/budget_ledger.rs:81-89 | activation marks all income so far as legacy, that of this month as receipts of its plan, changes no other field, and makes the plan of this month |
| LedgerActivation.ActivationOpens | server/src/budget_ledger.rs:93-102 | Unallocated after activation is cash less budgets plus outstanding income |
| LedgerActivation.ActivationBalances | server/src/budget_ledger.rs:54-105 | without categories on transfers and reconciliations, activation keeps every balance and makes Unallocated the projected gap |
| LedgerCarryover.CarriesForward | server/src/budget.rs:241-332 | a transaction lowers its category by what it spends and reallocates away, in its own month and by the same amount in every later one, and changes no earlier month |
| LedgerCarryover.ShownIs | server/src/budget_ledger.rs:589-662 | Unallocated as reported is the sum of the movements plus, for months without a funding movement since the last close, what reports add there |
| LedgerCarryover.ShownRight | server/src/budget_ledger.rs:618-649 | reports show every open month up to the current one as the movements have it if and only if each of them has a funding movement or a current expectation worth nothing |
| LedgerCarryover.UnfundedPlansNothing | server/src/budget_ledger.rs:345-360 | in a ledger in line with its facts a month without a funding movement is planned at nothing |
| LedgerCarryover.QuietMonth | server/src/budget_ledger.rs:345-388 | a month without transactions, corrections or completions adds its plan less its allocations |
| LedgerCarryover.ForecastMonth | server/src/budget_ledger.rs:618-649 | a month to come reads the same before and after its plan is materialised, in Unallocated and in every category |
| LedgerCarryover.CompletedNothingIsShownAsFunding | server/src/budget_ledger.rs:618-644 | a concrete state where a month without funding movement is reported as funded although no movement funds it |
| BudgetLedger.BudgetLedger.Move | server/src/budget_ledger.rs:311-330 | after it the key nets to the wanted amount; at most one row is appended, none when the key is right already |
| BudgetLedger.BudgetLedger.SyncAllocations | server/src/budget_ledger.rs:361-388 | the allocation keys of a month and the counter-key of Unallocated hold what is wanted |
| BudgetLedger.BudgetLedger.WantedTransactions | server/src/budget_ledger.rs:508-560 | gathers, by key, the net of all effects of the month's transactions |
| BudgetLedger.BudgetLedger.SyncTransactions | server/src/budget_ledger.rs:503-575 | every transaction key of the month nets to the effect of the current transactions, zero for those no transaction wants any more |
| BudgetLedger.BudgetLedger.SyncMonth | server/src/budget_ledger.rs:344-406 | all keys of an open month hold what its facts call for, other keys are untouched |
| BudgetLedger.BudgetLedger.WantedExcess | server/src/budget_ledger.rs:415-441 | the excess of a plan's receipts by month of receipt |
| BudgetLedger.BudgetLedger.SyncExcess | server/src/budget_ledger.rs:442-470 | excess keys in open months hold what the receipts call for, in closed months they are skipped |
| BudgetLedger.BudgetLedger.SyncPlan | server/src/budget_ledger.rs:415-500 | excess and completion keys of one plan hold what is wanted in open months |
| BudgetLedger.BudgetLedger.Sync | server/src/budget_ledger.rs:331-502 | appends exactly the differences that bring every key of every open month in line with the facts, and materialises missing plans |
| BudgetLedger.BudgetLedger.Activate | server/src/budget_ledger.rs:54-105 | switches the ledger on: legacy receipts, this month's plan and the stated opening, every key in line, earlier closes kept |
| BudgetLedger.BudgetLedger.CategoryFigures | server/src/budget.rs:246-332 | carryover, allocation, net spending, impact and correction of one category, read from movements or transactions, are those of the facts |
| BudgetLedger.BudgetLedger.UnallocatedDelta | server/src/budget_ledger.rs:606-662 | what a ledger month adds to reported Unallocated |
| BudgetLedger.BudgetLedger.History | server/src/budget.rs:116-346 | the report for any closed prefix: balances are those recomputed from the facts, closed months as frozen, Unallocated as reported, provisional exactly after an unclosed completed month |
| BudgetLedger.BudgetLedger.Categories | server/src/budget.rs:158-183 | a month read for a handler has the balances of the facts, or the frozen ones |
| BudgetLedger.BudgetLedger.CashAt | server/src/budget_ledger.rs:691-760 | cash as of the day coverage looks at: activity dated after today, or after the end of an earlier month, is taken back |
| BudgetLedger.BudgetLedger.OutstandingAt | server/src/budget_ledger.rs:772-784 | outstanding income over all plans up to a month |
| BudgetLedger.BudgetLedger.CoverageAt | server/src/budget_ledger.rs:731-798 | coverage of a month: frozen once closed, none before activation, otherwise cash as of the day, budgets, the gap between them, outstanding income, and the gap with it in |
| BudgetLedger.BudgetLedger.Commit | server/src/budget_ledger.rs:331-502 | any change of facts that leaves closed months alone ends in a settled ledger, with all earlier rows kept and no row in a closed month |
| BudgetLedger.BudgetLedger.Create | server/src/server.rs:3090-3592 | accepted exactly when the month is open, the id new, sides, amount and treatment fit; stores the entry with the receipt it asks for (income that says nothing is salary for its own month), the plan it settles has received that much more, cash gains it and the ledger is in line |
| BudgetLedger.BudgetLedger.Edit | server/src/server.rs:3594-4296 | accepted exactly when it stays in its open month and fits; replaces the entry, keeps the receipt of income that says nothing, and plans have received what old and new form count |
| BudgetLedger.BudgetLedger.Delete | server/src/server.rs:4298-4611 | accepted exactly for an entry of an open month; takes it out with what it counted, and its effects net to zero afterwards |
| BudgetLedger.BudgetLedger.Reconcile | server/src/server.rs:2463-3088 | records the difference to an observed balance without moving plan money |
| BudgetLedger.BudgetLedger.Allocate | server/src/server.rs:1541-1644 | accepted exactly for non-negative amounts of categories from the current month on; they hold from that month until another setting starts, all else stays |
| BudgetLedger.BudgetLedger.Expect | server/src/server.rs:1646-1786 | a new expectation from a month on, by which exactly the open, uncompleted months are planned anew |
| BudgetLedger.BudgetLedger.CompleteIncome | server/src/server.rs:5281-5360 | writes the outstanding rest of an expectation off in the current month, once; nothing is outstanding then |
| BudgetLedger.BudgetLedger.Correct | server/src/server.rs:5033-5279 | records category corrections in the current month, once per operation, for an entry of a closed or pre-budget month |
| BudgetLedger.BudgetLedger.Roll | server/src/server.rs:1240-1248 | on a later day or month the months begun since get the plan of their setting and their movements |
| BudgetLedger.BudgetLedger.Refresh | server/src/budget_ledger.rs:325-328 | a second sync appends nothing and changes nothing |
| BudgetLedger.BudgetLedger.Close | server/src/server.rs:5362-5584 | accepted exactly for the oldest completed unclosed reconciled month; freezes its balances and coverage and changes no movement |
| BudgetLedger.CommitSettled | server/src/budget_ledger.rs:339-344 | closed months stay in line although sync skips them |
| BudgetLedger.CommitFrozen | server/src/budget.rs:164-183 | frozen balances remain those of the facts after every later change |
| Rounding.HalfEvenNearest | server/src/finance_model.rs:171-200 | half-even rounding gives the nearest integer, the even one of two equally near, and no other |
| Rounding.HalfEvenParts | server/src/finance_model.rs:180-186 | two parts of a whole number of units round to that whole, except by one unit on a tie with an odd whole |
| Decimals.Normalize | server/src/finance_model.rs:81-87 | dropping zeros ends in the shortest form |
| Decimals.ReadMantissa | server/src/finance_model.rs:43-62 | the character loop accepts exactly digits around at most one point and returns them with their number after the point |
| Decimals.ParseDecimal | server/src/finance_model.rs:21-79 | reading text, with sign, exponent and their limits, character by character gives the decimal the text stands for, or refuses |
| DecimalForms.NotationRead | server/src/finance_model.rs:21-79 | every number written with blanks, a sign, digits around at most one point and an exponent of at most 10000 is read, as its digits over ten to the places after the point moved by the exponent |
| DecimalForms.NotationOf | server/src/finance_model.rs:21-79 | whatever is read was written so |
| DecimalForms.NumbersRead | server/src/finance_model.rs:21-79 | a text is a decimal number if and only if it is written so |
| Decimals.NormalUnique | server/src/finance_model.rs:81-87 | two shortest forms have the same value if and only if they are the same |
| Decimals.AddValue | server/src/finance_model.rs:89-98 | addition is exact and returns the shortest form |
| Decimals.NegatedValue | server/src/finance_model.rs:100-105 | negation is exact |
| Decimals.ReadFormat | server/src/finance_model.rs:119-134 | a number that was written is read with the same sign, digits and scale |
| Decimals.ParseFormat | server/src/finance_model.rs:21-134 | reading inverts writing on shortest forms |
| Decimals.FormatEqual | server/src/finance_model.rs:119-134 | two shortest forms have the same text if and only if they have the same value |
| Decimals.SumsReparse | server/src/finance_model.rs:225-227 | the sum of two readable texts is readable and exact |
| Decimals.ZeroDelta | server/src/budget_ledger.rs:325-326 | the difference text is "0" if and only if the two amounts are equal |
| Decimals.Canonical | server/src/finance_model.rs:21-134 | writing a read text and reading it again gives the same decimal |
| DecimalRounding.RoundedMeans | server/src/finance_model.rs:171-200 | the truncated quotient with its adjustment is, in each of the three modes, the one integer the mode stands for |
| DecimalRounding.RoundedToEven | server/src/finance_model.rs:171-200 | half-even on the signed truncated quotient is rounding to the nearest even integer |
| DecimalRounding.RoundDecimalMonotone | server/src/finance_model.rs:171-200 | larger amounts never round to smaller ones, in any mode |
| DecimalRounding.RoundDecimalOdd | server/src/finance_model.rs:190-194 | rounding treats both signs alike |
| DecimalRounding.RoundDecimalKeeps | server/src/finance_model.rs:115-117 | an amount that needs no more digits is kept as it is |
| DecimalRounding.RoundDecimalTwice | server/src/finance_model.rs:115-117 | rounding twice is rounding once |
| DecimalRounding.RoundDecimalClose | server/src/finance_model.rs:171-200 | the half modes stay within half a unit of the last digit, truncation within one unit |
| DecimalRounding.PostedTwice | server/src/finance_model.rs:217-222 | a posted text is read and posted again without change |
| Posting.ProportionPosted | server/src/finance_model.rs:247-252 | posting a proportion on decimal text gives the amount the ledger model posts in whole units |
| ExactDecimals.TrimLeadingZeros | server/src/bin/presto-admin.rs:4022-4029 | the digits without leading zeros are the numeral of their value |
| ExactDecimals.CompareMagnitudes | server/src/bin/presto-admin.rs:4016-4020 | comparing by length and then as text compares the numbers |
| ExactDecimals.AddMagnitudes | server/src/bin/presto-admin.rs:3973-3990 | column addition with carry gives the sum |
| ExactDecimals.SubtractMagnitudes | server/src/bin/presto-admin.rs:3992-4014 | column subtraction with borrow gives the difference, also when the smaller number is written longer |
| ExactDecimals.ValidMantissa | server/src/bin/presto-admin.rs:3852-3864 | the counting loop accepts exactly what the other parser accepts |
| ExactDecimals.ParseExactDecimal | server/src/bin/presto-admin.rs:3874-3912 | accepts exactly the texts the other parser accepts and stands for the same number |
| ExactDecimals.DropZeros | server/src/bin/presto-admin.rs:4046-4051 | popping zeros, and then a point, gives the text of the shortest form |
| ExactDecimals.FormatExactDecimal | server/src/bin/presto-admin.rs:4031-4058 | the text is that of the shortest form, "0" for every zero |
| ExactDecimals.AddExactDecimals | server/src/bin/presto-admin.rs:3942-3971 | returns exactly what the other addition returns, text for text, on every pair of texts |
| Calendar.TomorrowIsNext | server/src/finance_model.rs:395-422 | consecutive days of the Gregorian calendar have consecutive numbers |
| Calendar.EpochIsZero | server/src/finance_model.rs:421 | 1 January 1970 is day 0 |
| Calendar.DayNumberOrder | server/src/finance_model.rs:395-422 | later dates have larger numbers, and only equal dates equal ones |
| Calendar.CivilDateInverts | server/src/finance_model.rs:363-376 | going from any valid date to its number and back gives the date |
| Calendar.DayNumberInverts | server/src/finance_model.rs:363-376 | every number turns into a valid date that has this number |
| Calendar.EasterIsSunday | server/src/finance_model.rs:378-393 | for every non-negative year the date is valid, from 22 March to 25 April, a Sunday, and the first Sunday after the paschal full moon |
| Calendar.PaschalMoonIs | server/src/finance_model.rs:378-393 | the full moon the computation goes by is that of the Gregorian lunar calendar: golden number, century corrections and epact, with the two late epacts moved |
| BusinessDays.ParseDateText | server/src/finance_model.rs:395-401 | a date written year-month-day is read as its day number |
| BusinessDays.DatesRead | server/src/finance_model.rs:395-422 | a text is a date if and only if it names year, month and day of a valid date, each as digits with at most a plus sign, and then it stands for that day |
| BusinessDays.OperatingIs | server/src/finance_model.rs:347-361 | for years that can be read, a day operates exactly on Monday to Friday that is not 1 January, 1 May, 25 or 26 December, Good Friday or Easter Monday |
| BusinessDays.CountBusinessDays | server/src/finance_model.rs:330-345 | the day loop returns how many operating days lie after the first date up to the second, and refuses exactly when one of the two texts is not a date |
| BusinessDays.DaysCounted | server/src/finance_model.rs:330-345 | the count is the size of the set of operating days after the first day up to the second |
| BusinessDays.OperatingDaysAdd | server/src/finance_model.rs:330-345 | counts over adjacent intervals add up |
| BusinessDays.OperatingDaysBound | server/src/finance_model.rs:330-345 | there are never more operating days than days |
| BusinessDays.OperatingWeek | server/src/finance_model.rs:347-350 | seven days in a row have five operating days at most |
| BusinessDays.OperatingDaysDefined | server/src/finance_model.rs:347-361 | in years from 0 on every interval has a count |
| Valuation.LatestSame | server/src/bin/presto-admin.rs:942-946 | on upper-case currencies both selections of the prior observation agree |
| Valuation.AtMostIs | server/src/finance_model.rs:316 | dates are compared as text: a prefix or smaller where they first differ |
| Valuation.LatestIs | server/src/finance_model.rs:314-318 | the observation selected is of the currency, not after the day, of the latest such date, and the last of that date; one is selected exactly when any is eligible |
| Valuation.SelectedIs | server/src/finance_model.rs:302-328 | a rate is selected exactly when the observation in force is readable, positive and of countable age, and is then its quote; EUR is worth 1 |
| Valuation.ValuedWhen | server/src/finance_model.rs:428-500 | a transaction is valued exactly when both amounts are readable and each of the three currencies has a quote in force |
| Valuation.RoundSame | server/src/bin/presto-admin.rs:907-933 | equal fractions, however written, round to the same amount |
| Valuation.FromDecimal | server/src/bin/presto-admin.rs:882-891 | reads the same texts into a fraction of the same value |
| Valuation.RoundHalfEven2 | server/src/bin/presto-admin.rs:907-933 | rounding the magnitude and restoring the sign gives the text of the signed rounding |
| Valuation.ValuedSame | server/src/finance_model.rs:428-500 | the four amounts depend on the values of the fractions only |
| Valuation.FormulaReferenceValuation | server/src/bin/presto-admin.rs:959-998 | for upper-case currencies, whenever the server values a transaction with half-even rounding the independent check does too, with identical texts for all four amounts |
| Valuation.ValuationMeans | server/src/finance_model.rs:428-500 | with half-way rounding the four amounts are the exact ones to within half a cent: the source amount with two percent on top (none in EUR) over the EUR quotes in force on the day, unchanged between equal currencies, and the received amount as it is; stale exactly when a quote is more than three operating days old |
| Projection.AddDelta | server/src/finance_model.rs:603-609 | one total grows by exactly the delta, others are untouched |
| Projection.ProjectTransaction | server/src/finance_model.rs:552-601 | account, spending and reallocation changes are exactly the signed amounts of the two sides; it fails exactly when a needed amount cannot be read |
| Projection.ReallocationConserves | server/src/finance_model.rs:582-599 | what one category loses by a reallocation the other gains; within one category nothing changes |
| AmountText.SwapNumber | web/lib/amountInput.ts:4-34 | exchanging all points and commas does not change a localized number |
| AmountText.ReadsDotted | web/lib/amountInput.ts:4-34 | digits with a decimal point before the last k stand for n / 10^k |
| AmountForms.FormRead | web/lib/amountInput.ts:10-31 | every written form (either decimal mark, groups of three by the other mark, repeated marks alone, or spaces) is read at its worth |
| AmountForms.FormOf | web/lib/amountInput.ts:10-31 | whatever is read was written in one of these forms |
| AmountForms.EntryRead | web/lib/amountInput.ts:4-34 | currency marks before and after, a sign and blanks are taken off, and a minus negates |
| AmountForms.AmountsRead | web/lib/amountInput.ts:4-34 | a text is an amount of x if and only if it is a proper entry worth x |
| FormulaGrammar.FormulasRead | web/lib/amountInput.ts:47-96 | a text is read as a tree if and only if it is that tree written down, with blanks after it: parsing is unambiguous, with left association, precedence and signs |
| FormulaGrammar.WrittenRead | web/lib/amountInput.ts:41-105 | writing any expression with as few brackets as possible and evaluating it as a formula gives its exact result, and none exactly when it divides by zero |
| FormulaMeaning.SpeltMeans | web/lib/amountInput.ts:45-90 | the signs of a formula stand for sum, difference, product and quotient, with nothing for a division by zero |
| FormulaMeaning.CalculationEntered | web/lib/amountInput.ts:36-110 | any calculation over amounts, written with as few brackets as possible after an equals sign, is entered as its result |
| FormulaGrammar.SwapAmount | web/lib/amountInput.ts:36-105 | exchanging all points and commas never changes what was entered, formula or number |
| FormulaParser.Parser.ParseExpression | web/lib/amountInput.ts:47-57 | the loop over one shared position returns the worth of the sum read there and moves behind it, or fails |
| FormulaParser.Parser.ParseTerm | web/lib/amountInput.ts:58-69 | the same for products, failing on division by zero |
| FormulaParser.Parser.ParseUnary | web/lib/amountInput.ts:70-79 | the same for signed values |
| FormulaParser.Parser.ParsePrimary | web/lib/amountInput.ts:80-96 | the same for brackets and numbers |
| FormulaParser.Evaluate | web/lib/amountInput.ts:36-105 | the entry method returns the value of the grammar for every input, and always ends |
| EditDistance.ComputeDistance | web/transactionSuggestions.ts:5-17 | three rolling rows compute the full recurrence with exchanges of neighbours |
| EditDistance.NoCheaperScript | web/transactionSuggestions.ts:5-17 | no edit script is cheaper than the distance |
| EditDistance.LeastCost | web/transactionSuggestions.ts:5-17 | the distance is the least cost of a script of insertions, deletions, replacements and exchanges, no place edited twice |
| EditDistance.Symmetric | web/transactionSuggestions.ts:5-17 | the distance is symmetric |
| EditDistance.ZeroOnlyForEqual | web/transactionSuggestions.ts:5-17 | it is 0 exactly for equal strings |
| EditDistance.DistanceBounds | web/transactionSuggestions.ts:5-17 | it lies between the difference of the lengths and the longer length |
| BalancingProposal.SortedInOrder | web/uxHelpers.ts:18-19 | sorting loses no donor and puts larger ones first |
| BalancingProposal.SortedStable | web/uxHelpers.ts:18-19 | donors with equal amounts keep their order |
| BalancingProposal.DonorsAre | web/uxHelpers.ts:18-19 | the donors are exactly the categories with money left, in their order, with what is left to the cent |
| BalancingProposal.DeficitsAre | web/uxHelpers.ts:22-23 | the deficits are exactly the overspent categories, in their order, with what they need to the cent |
| BalancingProposal.Cover | web/uxHelpers.ts:22-29 | donors in turn cover one deficit: no donor below zero, money conserved, what stays uncovered means all donors are empty |
| BalancingProposal.Propose | web/uxHelpers.ts:17-32 | no donor below zero, no deficit above zero, donors used largest first and deficits in order, uncovered is need beyond all funds, and at most donors + deficits moves |
| BalancingProposal.NothingCoversMore | web/uxHelpers.ts:17-32 | no moves within the limits leave less uncovered |
| PushOutbox.RetryDelayBounds | server/src/push.rs:259-266 | the delay is at least the provider's minimum and the backoff of 60 to 15360 seconds, and exceeds the larger by half a backoff at most |
| PushOutbox.QueuedFacts | server/src/push.rs:41-64 | an alert queues a row for every other person's device in a live session that has none for the operation yet, and no other row |
| PushOutbox.CheckIsLawful | server/src/push.rs:289-292 | what the re-check finds is young, has attempts left, and is the device and live session the alert was queued for |
| PushOutbox.StepKeepsSafe | server/src/push.rs:307-393 | every step of anyone, in any state, keeps everything that always holds |
| PushOutbox.EveryRun | server/src/push.rs:20-393 | in every run of interleaved steps: one installation per token, one row per operation and installation, at most 12 attempts, every request sent was lawful when checked and ends within a day of its alert, and an event is sent at most 12 times plus once per interruption |
| PushPromises.SettleIs | server/src/push.rs:360-388 | a delivered or hopeless alert leaves the outbox, an unknown device loses its registration if it still has the token, a retry costs an attempt and waits for the larger of minimum and 60 seconds doubled per attempt; every other row and device stays |
| PushPromises.RowDropped | server/src/push.rs:321-327 | a refused recipient and an unregistered device take the row with them and no other |
| PushPromises.OutageIs | server/src/push.rs:330-339 | after an outage every due row waits, only the first is charged an attempt |
| PushPromises.PurgeIs | server/src/push.rs:312-313 | exactly the rows under a day old, with attempts left, on their device in its live session are kept |
| PushPromises.RecheckIs | server/src/push.rs:289-343 | the re-check goes on with exactly such a row and drops any other |
| PushPromises.SendIs | server/src/push.rs:344-359 | a request lives for the rest of the alert's day, without any none is made |
| PushPromises.EnqueueIs | server/src/push.rs:41-64 | everyone else allowed and signed in gets one row, due at once, for the person and session on the device; no row is lost or changed |
| PushPromises.RegisterIs | server/src/push.rs:20-39 | an installation has the registration made last and its token no other one |
| PushPromises.FinishIs | server/src/push.rs:390-392 | a pass ends by removing exactly the registrations of sessions that had ended when it began |
| PushPromises.OverForGood | server/src/push.rs:307-393 | an event without a row gets none again and is never sent again, in every run |
| PushPromises.SentOnce | server/src/push.rs:360-366 | an alert the provider has taken is never sent again, in every run in which the worker settles the answer before it is interrupted |
| PushService.SelectDue | server/src/push.rs:314-315 | the first 20 due rows in order of their next attempt and creation |
| PushService.Service.Register | server/src/push.rs:20-39 | other owners of the token lose it, the installation is replaced |
| PushService.Service.Enqueue | server/src/push.rs:41-64 | the loop over recipients queues exactly the rows of the step |
| PushService.Service.Recheck | server/src/push.rs:289-343 | keeps the row only for a device that still qualifies |
| PushService.Service.Settle | server/src/push.rs:360-388 | a delivered or hopeless alert is deleted, a retried one has one attempt more and its next time in the stated bounds, an unknown device is dropped |
| PushService.Service.HandleRow | server/src/push.rs:316-389 | one due row, with everyone else at work between any two statements, sends at most one request |
| PushService.Service.Drain | server/src/push.rs:307-393 | a whole pass with interference keeps everything that always holds and sends at most 20 requests |
| FormulaReplay.PriorRateIsLatest | scripts/sheets/verify-finance-formulas.py:119-123 | with one rate per date, the rate found is that of the latest date on or before the given one |
| ReplayColumns.RowReferenceIs | scripts/sheets/verify-finance-formulas.py:57-62 | the row a formula names in a column is that of its first reference that belongs to no other word, sheet or column |
| ReplayColumns.FamilyIs | scripts/sheets/verify-finance-formulas.py:64-80 | a formula is replayed exactly when it mentions, in capitals, what its column has to mention |
| ReplayColumns.ProductColumn | scripts/sheets/verify-finance-formulas.py:180-230 | L is amount times K, N amount times M, Q amount received times P, of the two cells named, empty ones counting as zero; an error unless both are numbers |
| ReplayColumns.RateColumn | scripts/sheets/verify-finance-formulas.py:165-180 | K is 1.02 times, P just, the prior rate of PHP or USD on the day named, 1 for other currencies, and an error without a day or rate |
| ReplayColumns.SourceFactorColumn | scripts/sheets/verify-finance-formulas.py:186-222 | M is 1 within a currency, the value of L into EUR, 1.02 over the prior PHP rate into PHP, and otherwise an error |
| ReplayColumns.CurrencyColumn | scripts/sheets/verify-finance-formulas.py:156-164 | J and O are the currencies of the accounts named, blank for a blank; for an expense O is what J holds |
| ReplayColumns.OtherCells | scripts/sheets/verify-finance-formulas.py:134-153 | inputs and cells without a formula hold their value, broken references are errors, other formulas cannot be evaluated |
| FormulaReplay.ReadsSmallerRanks | scripts/sheets/verify-finance-formulas.py:134-261 | the value of a cell depends on its own formula and on columns of smaller rank only, whatever rows are named |
| FormulaReplay.Replay.Evaluate | scripts/sheets/verify-finance-formulas.py:134-261 | the memoised evaluation returns what plain recursion returns (column by column as the rows above say), the cycle guard never decides, and cached values stay |
| FormulaReplay.EvaluateAll | scripts/sheets/verify-finance-formulas.py:134-261 | cells asked for in any order all have their plain values |

## Left out

- LedgerRuns.Conservation: the runs are those of ordinary steps, as the conditions in `Ordinary` say; corrections and reconciliations enter through `LedgerConservation.ConservationLaw`, which has no such condition
- LedgerHousehold.EuroConservation: salary is dated after the legacy receipts of the first month; salary dated before one conserves exactly under the condition of `LedgerEuro.CreateKeepsWhen`
- LedgerEuro.EditKeepsWhen: an edit that pushes some receipts forward and others back, or goes from one plan or sort to another, can cancel out by chance; for it `LedgerEuro.EditMovesBy` has the exact amount
- LedgerEuro.CreateKeepsWhen: it and the other exact conditions are about plans in EUR; for a plan in another currency each portion is rounded, and `LedgerRuns.InsertMoves`, `RemoveMoves`, `EditMoves` and `ExpectMoves` have the exact amounts
- Valuation.FormulaReferenceValuation: says nothing when the server refuses, since the server also refuses unreadable observation dates, which the check does not look at; lower-case currencies select different observations and are outside the statement
- BudgetLedger.BudgetLedger.Close: whether accounts are reconciled is an input, as it rests on stored responses of the reconciliation handler
- BudgetLedger.BudgetLedger.Edit: optimistic revisions, the refusal of imported entries and of entries with a recorded correction are not modelled, so more edits are accepted here than there
- BudgetLedger.BudgetLedger.Delete: as for edits, revisions, imported entries and entries tied to a reconciliation or correction are not modelled
- BudgetLedger.BudgetLedger.Reconcile: an existing reconciliation of the same date and account is amended in place by the server, here each is a new entry, as accounts are not told apart
- BudgetLedger.BudgetLedger.Correct: repeating an operation with the same content, which returns the stored answer, is not modelled
- BudgetLedger.BudgetLedger.History: imported monthly snapshots before the first ledger month, which reports show unchanged, are not modelled
- BudgetLedger.BudgetLedger.CashAt: cash is one EUR sum, so revaluing accounts in other currencies at the rates of the day is not modelled
- BudgetLedger.BudgetLedger.CoverageAt: the list of single expectations inside a coverage report, and cash in other currencies, are not modelled
- BalancingProposal.Propose: moves name donors and deficits by position, their names are looked up from there
- PushPromises.SentOnce: a worker interrupted between the provider's answer and its settlement sends the alert again; `PushOutbox.EveryRun` bounds how often
- PushOutbox.EveryRun: event ids are taken to be unique, and what the provider answers is arbitrary
- FormulaReplay.Replay.Evaluate: text functions (case folding, trimming, text of a number) are parameters, digits in references are ASCII digits
- Adding a category, retired categories, and allocation changes of retired categories
- Failures in the middle of a handler (missing allocation, missing quote), which roll the database back
- Display-only report fields
- The exchange fractions and rate dates that a valuation also returns
- Which of several messages a refused decimal text gets
- Day numbers of years so large that 64-bit arithmetic overflows
- Floating point in the TypeScript and Python parts: numbers are exact, so a formula cannot overflow; the cent check of money inputs is left out with it
- Characters outside the basic plane count once in the 256-character limit; a formula with one is refused either way
- Reading the account and rate tables of an archive (only easy members)
- SQL, JSON, HTTP, OAuth, signing of provider requests, and the mapping of provider responses to answers
- Duplicate detection, yearly fees, month-close checklist and other short helpers (only easy members)
