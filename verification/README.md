# Verification of the recovery platform's core

A model, in Dafny, of the parts of the loan-recovery platform where money, evidence and concurrent
requests meet, with proofs of what they promise. `dafny verify dfyconfig.toml` checks all of it.

Each backend request is one transaction: a request that raises leaves the state as it was, because the
session closes without a commit. The connector pull is split at every commit. Code that updates rows in
place appears twice: as a function on values, about which the properties are proved, and as a class or a
method with loops, proved to do exactly what that function says. The `Outcomes` files say of each of these
functions, in the fields of the request and of the tables alone, when it succeeds, what it leaves behind,
and what it answers otherwise.

| files | what they cover |
|---|---|
| `Registry`, `Strings` | packages, commission rules, cases and financial profiles; the order of identifiers; shared by the others |
| `LedgerModel`, `LedgerBooks`, `LedgerInvariant`, `LedgerResults`, `LedgerBookings`, `LedgerReplays`, `LedgerTerms`, `LedgerOutcomes`, `LedgerDatabase` | payment receipts, the recovery and commission ledgers, two-person reconciliation, settlement |
| `CaseValidation` | the case report's reading of the same ledger |
| `ConnectorModel`, `ConnectorResults`, `ConnectorOutcomes`, `ConnectorRow` | the incremental customer pull as interleaved steps |
| `ImportModel`, `ImportReading`, `ImportCommit`, `ImportResults`, `ImportOutcomes`, `ImportDesk`, `ImportLedger` | case imports: reading a file, previewing, committing, and what imports guarantee the catalogue and the ledger |
| `CataloguePages`, `CatalogueCursor`, `CatalogueList`, `CatalogueEligibility`, `CatalogueOutcomes` | pagination, cursors, filters, scores, and the three eligibility procedures |
| `Acceptance`, `AcceptanceOutcomes` | acceptances bound to evidence |
| `Contact`, `ContactOutcomes` | contact attempts, their limits and retries |
| `AddressText`, `AddressUpdate` | the lab address update and its rollback |
| `Csv` | the CSV printer, the header scanner, and a reader of whole files |
| `Instalments` | instalment plans, the calendar and the payment waterfall |

## What is assumed

- Digests (SHA-256) and HMACs are injective: a digest is modelled as the value digested, a signature as a boolean.
- Maps stand for tables with unique keys; `UniqueConstraint` and `CheckConstraint` declarations are taken as enforced.
- Stripping and upper-casing a case identifier change nothing, because the request schemas of payments and proposals (`backend/app/schemas.py:723` and `779`) let only `C` and three to twelve digits through.
- A database session flushes only where the code asks it to (`backend/app/db.py:20`); whether the repayment plans allocate a booking, and so flush, is an input.
- Library calls whose code is elsewhere (integer and date parsing, JSON parsing, the CSV tokeniser, SQL `ILIKE`) are parameters.

## Where an expected property is false

Each of these is a fact about the code as it stands, with the condition under which the property holds.

- Settled commission can exceed accrued commission (`LedgerTerms.SettledMayExceedAccrued`): a refund reverses accrual that was settled. A request keeps settled within accrued exactly when the entry it is about to book takes back no more than the unsettled balance, and every request that books nothing keeps it (`LedgerBookings.SettledStaysWithinAccruedIff`). Settled never passes the most that was ever accrued (`LedgerResults.SettledWithinPeak`).
- The net commission of one payment can become negative (`LedgerTerms.NetCommissionMayGoNegative`). A delivery or approval keeps every payment's net commission non-negative exactly when it is not about to book a refund whose own rounded commission exceeds the net of the payment it continues, and every other request keeps them (`LedgerBookings.NetsStayNonNegativeIff`). It never falls below half a cent for the payment and each refund (`LedgerTerms.NetCommissionBound`).
- The cached accrued-commission metric can be wrong (`LedgerTerms.MetricMayLag`): a first delivery sums the postings before its own is flushed. It is wrong after a request of the tenant that refreshes it exactly when that is a delivery about to book a non-zero commission that no repayment plan takes, and then by that commission (`LedgerReplays.MetricAccurateIff`, `LedgerReplays.MetricLagsByCommission`). Approvals refresh again after a flush (`LedgerReplays.ApprovalRefreshesAfterFlush`).
- The legacy one-step match, off by default, breaks the one-to-one relation of receipts and entries whenever it books a receipt whose review is pending and that review is then rejected (`LedgerReplays.LegacyMatchBreaksLedger`); a run reaches that (`LedgerTerms.LegacyMatchBreaksRun`).
- Not every imported case can be paid for: the importer accepts identifiers such as `LOAN-77` that the payment and proposal schemas refuse (`ImportLedger.ImporterAcceptsUnpayableCase`). A payment naming an imported case is accepted and matched exactly when the case is named `C` and three to twelve digits (`ImportLedger.PaymentsOnImportedCasesMatchIff`); on any other case no run of the ledger books an entry (`ImportLedger.OtherCasesAreNeverBooked`).
- Cancelling an attempt frees its place in the daily limit even after the call was answered (`Contact.CancelledCallsFreeTheLimit`). The calls started on a day are those that still count, at most the limit, plus the started calls that were cancelled (`Contact.StartedCallsBounded`). A request keeps the started calls within the limit exactly when it is not a new genuine event that the conditional update takes on an attempt of that day not started yet while as many calls as the limit have started (`Contact.StartedGrowsIff`, `Contact.StartedStaysWithinIff`); and that happens only on a day on which a started call was cancelled (`Contact.OnlyCancellationsExceed`).
- The header scanner silently drops a trailing empty header of a file without rows; so the headers `a` and an empty one come back as `a` alone (`Csv.TrailingHeaderDropped`); `Csv.ParsePrinted` gives its result on every printed file.
- Monthly instalments starting on day 29 to 31 can skip a month (`Instalments.MonthsCanBeSkipped`); `Instalments.DueInItsMonthIff` says when.
- A cursor whose length the route admits can raise an error the code does not handle, in exactly two ways (`CatalogueCursor.BrokenIff`): its payload is JSON other than an object, as the list `[0,0,0]` in `WzAsMCwwXQ` is (`CatalogueCursor.ListCursorBreaks`); or it is an object of this scope whose case identifier is a text the query cannot carry, such as an unpaired surrogate (`CatalogueCursor.SurrogateCursorBreaks`). No cursor that the list hands out does either (`CatalogueList.BrowseIsFollow`).

## Model

| member | source | states |
|---|---|---|
| LedgerInvariant.StepKeepsInv | backend/app/financial_ledger.py:367-896 | every delivery, proposal, decision and commission event keeps the cross-table invariant of receipts, entries, postings and reviews |
| LedgerInvariant.RunKeepsInv | backend/app/financial_ledger.py:367-896 | the invariant holds in every state reached by any requests |
| LedgerInvariant.EntryIdInjective | backend/app/financial_ledger.py:338 | provider and event number can be read back from an entry identifier, so it names one receipt of a tenant |
| LedgerResults.MatchedIffBookedOnce | backend/app/financial_ledger.py:272-364 | after any run a receipt is matched exactly when one entry, and only one, carries its identifier and points back |
| LedgerResults.EveryEntryAccountedFor | backend/app/financial_ledger.py:241-269 | after any run every entry books a matched receipt of its own case and amount and has exactly one posting, of its own commission |
| LedgerResults.OnePostingPerEntry | backend/app/financial_ledger.py:241-269 | each recovery entry has one accrual or reversal posting and no second |
| LedgerResults.ReviewsSeparateDuties | backend/app/financial_ledger.py:558-733 | a review is pending exactly when its receipt waits unbooked and its version is odd; whoever closed it did not propose it |
| LedgerResults.RefundsNeverExceed | backend/app/financial_ledger.py:295-326 | after any run the refunds of a payment never sum above it |
| LedgerResults.RefundsContinuePayments | backend/app/financial_ledger.py:295-334 | every refund continues a payment, never a refund, of the same tenant, provider, case, package, rule and rate |
| LedgerResults.RefundBookedIff | backend/app/financial_ledger.py:285-326 | a refund of a booked receipt is accepted exactly when that is a payment of the same case with enough left |
| LedgerResults.EligibleNetWithinNet | backend/app/financial_ledger.py:736-760 | after any run, per tenant and per case, 0 <= eligible net <= confirmed net |
| LedgerBooks.NetsOfPayment | backend/app/financial_ledger.py:319-336 | per payment, eligible and ineligible net are non-negative and add up to the net |
| LedgerBooks.TotalIsNets | backend/app/financial_ledger.py:736-760 | any total over the ledger is the sum over payments of the payment and its refunds |
| LedgerResults.CommissionRounds | backend/app/financial_ledger.py:193-195 | rounding is odd in the amount, within half a cent, and a commission lies between zero and its amount |
| LedgerResults.CommissionErrorBound | backend/app/financial_ledger.py:193-195 | after any run the commission of a tenant or case is off by at most half a cent for each of its own entries |
| LedgerResults.AccruedIsEntries | backend/app/financial_ledger.py:736-795 | the summary's accrued commission is what the recovery entries carry |
| LedgerResults.CasesAddUp | backend/app/asset_catalog.py:112-127 | after any run the catalogue's commission sums, grouped over exactly the cases that have entries, add up to the accrued commission of the summary |
| LedgerResults.SettledWithinPeak | backend/app/financial_ledger.py:826-896 | at every point of every run, collected <= settled <= the most ever accrued |
| LedgerBookings.BookingIs | backend/app/financial_ledger.py:272-364 | a request appends exactly the entry that can be foretold from the state before it, with its posting; one that foretells none appends none |
| LedgerBookings.SettledStaysWithinAccruedIff | backend/app/financial_ledger.py:826-896 | a request keeps settled within accrued exactly when the entry it is about to book takes back no more than the unsettled balance |
| LedgerBookings.NetsStayNonNegativeIff | backend/app/financial_ledger.py:319-349 | a request keeps every payment's net commission non-negative exactly when it is not about to book a refund whose commission exceeds what its payment has left |
| LedgerBookings.RefundKeepsNetIff | backend/app/financial_ledger.py:319-349 | the same for one refund and the payment it continues |
| LedgerBookings.RefundHasPayment | backend/app/financial_ledger.py:285-318 | a refund about to be booked continues a payment of the ledger |
| LedgerResults.StepStaysWithin | backend/app/financial_ledger.py:367-896 | a request appends at most one entry and one posting, of its own tenant and within the balances |
| LedgerReplays.RedeliveryChangesCountersOnly | backend/app/financial_ledger.py:387-393 | a stored event delivered again changes a duplicate counter at most; with another body, nothing |
| LedgerReplays.RedeliveriesErase | backend/app/financial_ledger.py:376-433 | redeliveries anywhere in a run leave the tables of the run without them |
| LedgerReplays.NothingLeftToErase | backend/app/financial_ledger.py:376-433 | the run they were removed from redelivers nothing |
| LedgerReplays.MetricAccurateIff | backend/app/financial_ledger.py:798-823 | a request keeps the cached accrued metric right exactly when it is not a delivery of the tenant about to book a non-zero commission that no repayment plan takes |
| LedgerReplays.MetricAfterRequest | backend/app/financial_ledger.py:798-823 | whatever it was before, the metric is right after a request exactly when that does not lag and either refreshed it or found it right |
| LedgerReplays.MetricLagsByCommission | backend/app/financial_ledger.py:434-455 | after a first delivery that books a commission no plan flushes, the metric is off by exactly that commission |
| LedgerReplays.ApprovalRefreshesAfterFlush | backend/app/financial_ledger.py:482-496 | an approval commits the right metric whether or not a plan takes the money |
| LedgerReplays.TenantsApart | backend/app/financial_ledger.py:272-364 | no request of one tenant moves another's money, receipts or reviews |
| LedgerReplays.NamedCaseIsOffered | backend/app/financial_ledger.py:499-555 | the case a receipt names, and the case of the payment a refund names, are always among the candidates |
| LedgerReplays.LegacyMatchBreaksLedger | backend/app/financial_ledger.py:697-701 | why the one-step match stays off: a later rejection marks a booked receipt rejected |
| LedgerTerms.PaymentBookedIff | backend/app/financial_ledger.py:198-222 | a payment can be booked exactly on a bookable case, on the newest active version of the case's own rule |
| LedgerTerms.FreshPaymentMatchedIff | backend/app/financial_ledger.py:367-457 | a first admissible delivery is matched at once exactly when its case is bookable, and books nothing otherwise |
| LedgerTerms.EligibleDaysAreAnInterval | backend/app/financial_ledger.py:225-238 | the days that earn commission are one interval, from the start of the mandate to its end or to the last instalment of a tail plan signed within it |
| LedgerTerms.PaymentEarnsWithinInterval | backend/app/financial_ledger.py:328-330 | a payment about to be booked earns on its whole amount on those days and on nothing otherwise |
| LedgerTerms.RunBooksSchemaCases | backend/app/schemas.py:723-779 | in every run receipts, reviews and entries name only cases that the request schemas let through |
| LedgerTerms.MetricMayLag | backend/app/financial_ledger.py:434-455 | one payment leaves the cached metric at zero while a cent is accrued |
| LedgerTerms.LegacyMatchBreaksRun | backend/app/financial_ledger.py:697-701 | a run in which a one-step match and a rejection mark a booked receipt rejected |
| LedgerTerms.FullRefundCancels | backend/app/financial_ledger.py:319-349 | a single full refund gives back exactly the payment's commission |
| LedgerTerms.NetCommissionBound | backend/app/financial_ledger.py:319-349 | a payment's net commission is below zero by no more than half a cent for it and each refund |
| LedgerTerms.NetCommissionMayGoNegative | backend/app/financial_ledger.py:193-195 | a concrete run that leaves a payment's net commission at minus one cent |
| LedgerTerms.SettledMayExceedAccrued | backend/app/financial_ledger.py:862-868 | a concrete run that leaves settled above accrued |
| LedgerOutcomes.DeliveryIs | backend/app/financial_ledger.py:367-457 | in any state: a delivery that is not genuine changes nothing, a stored event is a duplicate or a conflict, a new one beyond the limit or from the future changes nothing, and any other is stored unless its keys are taken |
| LedgerOutcomes.RefusalIs | backend/app/financial_ledger.py:159-190 | which refusal a delivery meets: schema, provider, configuration, tolerance, signature, limit, date |
| LedgerOutcomes.FirstDeliveryIs | backend/app/financial_ledger.py:400-457 | a first delivery is matched exactly when its receipt can be booked under free keys; otherwise it waits, for the reason that it cannot |
| LedgerOutcomes.BookingIff | backend/app/financial_ledger.py:272-364 | which requests book, told without assembling the entry, and what the entry takes over from its receipt |
| LedgerOutcomes.BookingTerms | backend/app/financial_ledger.py:285-350 | a payment is booked on the terms of its case's profile and newest rule on its day, a refund on those of its payment |
| LedgerOutcomes.Rounds | backend/app/financial_ledger.py:193-195 | half a cent is rounded away from zero |
| LedgerOutcomes.ProposalIs | backend/app/financial_ledger.py:558-661 | when a review is proposed, repeated or refused, and what a proposal leaves |
| LedgerOutcomes.DecisionIs | backend/app/financial_ledger.py:664-733 | when a review is declined or approved and what each leaves; any other decision changes nothing |
| LedgerOutcomes.ScoresAre | backend/app/financial_ledger.py:499-555 | how each candidate is scored |
| LedgerOutcomes.FewAreAllOffered | backend/app/financial_ledger.py:499-555 | up to twenty cases with a profile are all candidates |
| LedgerOutcomes.RankingIs | backend/app/financial_ledger.py:499-555 | of two candidates exactly one is ahead, by score and then by identifier |
| LedgerOutcomes.RecordIs | backend/app/financial_ledger.py:826-896 | a settlement or collection under a new key is recorded exactly within the unsettled or uncollected balance, and then moves that sum by its amount and no other |
| LedgerOutcomes.RecordAgain | backend/app/financial_ledger.py:838-858 | under a used key a record is a repetition or a conflict |
| LedgerOutcomes.SumsMove | backend/app/financial_ledger.py:736-795 | how each request moves each sum of the summary |
| LedgerOutcomes.SumsAreRequests | backend/app/financial_ledger.py:736-795 | after any run settled and collected are the amounts of the accepted requests, and confirmed is what was booked |
| LedgerDatabase.Database.FlushSession | backend/app/db.py:19-20 | pending postings become visible to queries only here |
| LedgerDatabase.Database.PriorRefunds | backend/app/financial_ledger.py:309-317 | the loop sums the refunds booked against an entry |
| LedgerDatabase.Database.FinancialSummary | backend/app/financial_ledger.py:736-795 | the sums of accrued, settled and collected commission |
| LedgerDatabase.Database.RefreshMetrics | backend/app/financial_ledger.py:798-823 | the cached metric becomes the sum of the flushed postings |
| LedgerDatabase.Database.AssembleRefund | backend/app/financial_ledger.py:285-318 | which refund is refused, with which error, and which payment it continues |
| LedgerDatabase.Database.ReconcileReceipt | backend/app/financial_ledger.py:272-364 | booking in the session: the entry flushed, its posting pending unless a plan allocates; a refusal changes nothing |
| LedgerDatabase.Database.MatchReceipt | backend/app/financial_ledger.py:460-496 | matching a receipt to a case in the session, refreshed before the flush |
| LedgerDatabase.Database.AcceptWebhook | backend/app/financial_ledger.py:367-402 | a delivery, first or repeated, moves the tables exactly as its step |
| LedgerDatabase.Database.AcceptFirst | backend/app/financial_ledger.py:403-457 | a first delivery is stored, booked if possible, and parked with the reason otherwise |
| LedgerDatabase.Database.ProposeReconciliation | backend/app/financial_ledger.py:558-661 | a proposal moves the tables exactly as its step |
| LedgerDatabase.Database.DecideReconciliation | backend/app/financial_ledger.py:664-733 | an approval or rejection moves the tables exactly as its step |
| LedgerDatabase.Database.Approve | backend/app/financial_ledger.py:702-733 | an approval through the session commits what its step says, metrics included |
| LedgerDatabase.Database.RecordCommissionEvent | backend/app/financial_ledger.py:826-896 | a settlement or collection moves the tables exactly as its step |
| CaseValidation.OutcomePassesIff | backend/app/case_validation.py:95-107 | in every run the outcome check passes exactly for the cases that have an entry |
| CaseValidation.OutcomeIs | backend/app/case_validation.py:95-107 | in any state the outcome check passes exactly when the case has entries, each with a matched receipt on the case that points back |
| CaseValidation.ReportAgrees | backend/app/case_validation.py:116-153 | payments less refunds are the net, which is the catalogue's and the summary's; refunds never exceed payments |
| CaseValidation.ComparisonAgreesIff | backend/app/case_validation.py:115-131 | the report agrees with an expected net exactly when the case has an entry and its payments less refunds are that net |
| Registry.NewestIsNewest | backend/app/asset_catalog.py:94-109 | the rule looked up is active, wanted and of the highest version, and is found whenever there is one |
| ConnectorResults.RunKeepsInv | backend/app/customer_connectors.py:222-424 | in every interleaving, pulls, moves, tests and the row agree with the versions they were made at |
| ConnectorResults.StepKeepsInv | backend/app/customer_connectors.py:222-424 | every commit keeps that, and takes back no event, version, job or move |
| ConnectorResults.PayloadsAreForever | backend/app/customer_sync.py:83-135 | an event keeps the payload it was first stored with |
| ConnectorResults.MovesAreDurable | backend/app/customer_connectors.py:402-420 | every event of the page behind every cursor move is stored with exactly its payload |
| ConnectorResults.MovesSerialise | backend/app/customer_connectors.py:405-420 | each move starts where the one before ended, and the cursor is where the last one ended |
| ConnectorResults.MovesAreGoverned | backend/app/customer_connectors.py:323-420 | each move was made at a version that passed a test, with that version's configuration, by a job of that version under the administrator then responsible; later moves never fall back |
| ConnectorResults.CursorMovesAreLogged | backend/app/customer_connectors.py:410-424 | the cursor changes only by the active job at the current version while enabled |
| ConnectorResults.ReplayIsHarmless | backend/app/customer_sync.py:83-135 | a page taken in again after any partial attempt ends in the store of one full attempt |
| ConnectorResults.PersistAllIs | backend/app/customer_sync.py:83-135 | a page is stored exactly when no event is known with another payload, and then it adds just its events |
| ConnectorResults.UndisturbedPullCompletesIff | backend/app/customer_connectors.py:391-424 | a pull nobody interferes with moves the cursor exactly when no event conflicts |
| ConnectorResults.IntakeIsWhole | backend/app/customer_connectors.py:120-165 | a page is taken in whole or not at all, with distinct identifiers, and moves the cursor unless it is empty |
| ConnectorOutcomes.IntakeIff | backend/app/customer_connectors.py:120-165 | exactly which pages are taken in, and as which rows: case, payment and refund of each record, in this order |
| ConnectorOutcomes.ConfigureIs | backend/app/customer_connectors.py:222-268 | reconfiguring makes the next version, disabled and untested, and keeps the cursor |
| ConnectorOutcomes.TestIs | backend/app/customer_connectors.py:290-320 | a test voids the one before, and counts exactly with an acceptable page at the version it began at |
| ConnectorOutcomes.EnableIs | backend/app/customer_connectors.py:323-347 | when enabling succeeds and when it unbinds the job |
| ConnectorOutcomes.SubmitIs | backend/app/customer_connectors.py:349-369 | when a job is submitted |
| ConnectorOutcomes.BeginPullIs | backend/app/customer_connectors.py:391-398 | when a pull begins and what it reads |
| ConnectorOutcomes.CheckIs | backend/app/customer_connectors.py:399-403 | between two events a pull goes on exactly while the connector stands behind its job and version |
| ConnectorOutcomes.CheckedWhileStanding | backend/app/customer_connectors.py:399-403 | no other step ever lets a pull go on |
| ConnectorOutcomes.StoredWhenChecked | backend/app/customer_connectors.py:399-404 | a pull stores only its next event, once checked, and needs another check after it |
| ConnectorOutcomes.StaleStoresAtMostOne | backend/app/customer_connectors.py:399-404 | once the connector is disabled, reconfigured or bound to another job, and as long as that lasts, a pull stores at most the one event it had checked |
| ConnectorOutcomes.AdvanceIs | backend/app/customer_connectors.py:405-420 | when the cursor moves, and that the pull ends either way |
| ConnectorRow.NormalizePage | backend/app/customer_connectors.py:120-165 | the validating loop computes the page's intake |
| ConnectorRow.Connector.constructor | backend/app/customer_connectors.py:222-268 | a connector as first configured |
| ConnectorRow.Connector.SaveConfig | backend/app/customer_connectors.py:222-268 | reconfiguring moves the row exactly as its step, keeping the cursor |
| ConnectorRow.Connector.BeginTest | backend/app/customer_connectors.py:289-303 | the earlier test is void before the request is made |
| ConnectorRow.Connector.FinishTest | backend/app/customer_connectors.py:304-320 | a test counts only for the version it was begun at |
| ConnectorRow.Connector.Enable | backend/app/customer_connectors.py:323-347 | enabling needs a current test, and a new administrator unbinds the active job |
| ConnectorRow.Connector.Submit | backend/app/customer_connectors.py:349-369 | a job is submitted only when none is waiting or to be retried |
| ConnectorRow.Connector.PersistEvent | backend/app/customer_sync.py:83-135 | one payload per source and event, or a conflict |
| ConnectorRow.Connector.CompareAndSet | backend/app/customer_connectors.py:409-421 | the cursor moves only if version, enabling, cursor and active job are as read |
| ConnectorRow.Connector.ProcessPull | backend/app/customer_connectors.py:391-424 | one worker's pull succeeds exactly when its guards, its page and every event pass, and never loses an event |
| ImportReading.RowsAccountedFor | backend/app/asset_imports.py:397-468 | valid, invalid and duplicate rows add up to the row count, for every file |
| ImportReading.AcceptedRowsAreSound | backend/app/asset_imports.py:160-319 | accepted rows are valid on their own, name distinct cases, one title a package, one package and rate a rule, and fit the tables |
| ImportReading.ReadyIff | backend/app/asset_imports.py:450-454 | a batch is ready exactly when no issue is an error and a new case is brought; then only known cases were left out |
| ImportReading.RowsReadWell | backend/app/asset_imports.py:157-320 | after any number of rows each is accepted or has an issue, never both |
| ImportReading.ScreensRows | backend/app/asset_imports.py:411-448 | screening accepts, skips or rejects each row once |
| ImportCommit.CommitsIff | backend/app/asset_imports.py:487-577 | a commit succeeds exactly for a second person, the current version and a ready batch whose rows the tables still take; otherwise nothing changes |
| ImportCommit.CommitAddsExactlyItsRows | backend/app/asset_imports.py:547-625 | a commit adds exactly its rows with profile, package and active rule, and leaves every existing row as it was |
| ImportCommit.PreviewPredictsCommit | backend/app/asset_imports.py:376-474 | on unchanged tables a fresh preview commits exactly when it is ready and the actor is another |
| ImportCommit.StillCommittableIff | backend/app/asset_imports.py:519-577 | after another batch commits, a batch is still taken exactly when the two share no case and name new packages and rules alike |
| ImportCommit.ReadyStaysCommittable | backend/app/asset_imports.py:376-633 | a ready batch commits after any previews and any commits that agree with it |
| ImportCommit.WrittenIff | backend/app/asset_imports.py:549-577 | the insertion loop completes exactly when every row fits the tables read before it |
| ImportResults.SharedCaseCommitsOnce | backend/app/asset_imports.py:519-532 | of two batches that name the same case at most one ever commits |
| ImportResults.BatchesStayWell | backend/app/asset_imports.py:455-471 | in every run counts add up, keys are unique and a committed batch has a second person's name on it |
| ImportResults.ReplaysChangeNothing | backend/app/asset_imports.py:386-395 | a repeated preview or commit is answered from what is stored; a key with another file is refused |
| ImportResults.ImportsKeepCasesBookable | backend/app/asset_imports.py:571-625 | every case reached by imports is bookable as long as no rule is deactivated |
| ImportLedger.ExecutableIsBookable | backend/app/asset_imports.py:571-625 | in every state that imports reach without a rule being deactivated, a case counted as executable can be booked on |
| ImportLedger.EligibleIsBookable | backend/app/domain.py:184-210 | and so can every case the preflight lets through |
| ImportLedger.ImportedCasesAreListed | backend/app/asset_catalog.py:357-372 | after any imports, following the cursors lists every matching case in order, once each, with no request refused |
| ImportLedger.PaymentsOnImportedCasesMatchIff | backend/app/schemas.py:717-732 | a payment naming an imported case is accepted and matched exactly when the case is named `C` and three to twelve digits, and refused otherwise |
| ImportLedger.ImportedPaymentEarns | backend/app/asset_imports.py:605-625 | a payment on an imported case earns exactly on the days from the row's start date to its end date |
| ImportLedger.OtherCasesAreNeverBooked | backend/app/schemas.py:723-779 | no run books an entry on a case named otherwise, and every delivery or proposal naming it is refused |
| ImportLedger.ImporterAcceptsUnpayableCase | backend/app/asset_imports.py:111-119 | a concrete row that the importer accepts and whose payments are refused in every state |
| ImportOutcomes.NonBlankIs | backend/app/asset_imports.py:128-133 | exactly the records with a cell that is not empty are read, in order |
| ImportOutcomes.HeadersIff | backend/app/asset_imports.py:134-155 | which header rows let a file be read |
| ImportOutcomes.RowAcceptedIff | backend/app/asset_imports.py:157-318 | exactly which rows are accepted, and that the row holds its cells column by column |
| ImportOutcomes.RowClaims | backend/app/asset_imports.py:275-315 | what a row claims for the rows after it, accepted or not |
| ImportOutcomes.FileIs | backend/app/asset_imports.py:122-155 | what reading a file gives, and how many data rows it counts |
| ImportOutcomes.ScreenRowIs | backend/app/asset_imports.py:411-448 | a known case is a duplicate; any other row is accepted exactly when the tables take it |
| ImportOutcomes.PreviewIs | backend/app/asset_imports.py:376-395 | a key used before is answered from its batch or conflicts; a new one adds a batch |
| ImportOutcomes.CommitSucceedsIff | backend/app/asset_imports.py:487-577 | when a commit succeeds, in the fields of the rows and tables |
| ImportOutcomes.CommitWrites | backend/app/asset_imports.py:547-633 | each committed row becomes its case and profile, field by field, under its package and rule; nothing else changes |
| ImportDesk.ReadAll | backend/app/asset_imports.py:157-320 | the row loop with its three collections computes the reading |
| ImportDesk.ClaimRow | backend/app/asset_imports.py:275-298 | the conflicts of a row with the rows before it, and what it claims itself |
| ImportDesk.ReadFile | backend/app/asset_imports.py:122-320 | file errors, header errors or the rows |
| ImportDesk.Screen | backend/app/asset_imports.py:411-448 | the screening loop |
| ImportDesk.NewBatch | backend/app/asset_imports.py:397-471 | reading, screening and counting a new file |
| ImportDesk.ImportDesk.Preview | backend/app/asset_imports.py:376-474 | a preview moves the state exactly as its step |
| ImportDesk.ImportDesk.Commit | backend/app/asset_imports.py:487-633 | a commit moves the state exactly as its step; a refusal on the way rolls back |
| ImportDesk.ImportDesk.Insert | backend/app/asset_imports.py:547-625 | the insertion loop writes what the row-by-row function writes |
| CatalogueList.BrowsingListsAll | backend/app/asset_catalog.py:295-375 | following the cursors lists exactly the matching cases in order, once each, `total` of them, in `pages` requests |
| CatalogueList.BrowsingMissesNothing | backend/app/asset_catalog.py:358-372 | while cases change, nothing is listed twice and a finished walk listed every case that matched all along |
| CatalogueList.BrowseIsFollow | backend/app/asset_catalog.py:357-372 | no cursor handed out is refused, for its length or otherwise, and following them follows the case order |
| CatalogueList.ForeignCursorsRefused | backend/app/asset_catalog.py:52-72 | a cursor continues another listing exactly when the two have one fingerprint of tenant, filters and view, and is refused otherwise |
| CatalogueList.QualityViewMatches | backend/app/asset_catalog.py:337-355 | under any other filters the quality view lists exactly the cases among them displayed below 70 |
| CataloguePages.WalkIsTheSortedList | backend/app/asset_catalog.py:366-372 | keyset pages of any size put together are the sorted list |
| CataloguePages.WalkListsWhatStays | backend/app/asset_catalog.py:361-372 | the same over changing tables: ascending, and complete for what stays |
| CataloguePages.OrderedIs | backend/app/asset_catalog.py:366-367 | the listing is ascending, complete and without repetition |
| CataloguePages.SameListing | backend/app/asset_catalog.py:366-367 | the ascending listing of a set is unique |
| CatalogueOutcomes.FiltersAre | backend/app/asset_catalog.py:247-355 | exactly which cases a listing matches, filter by filter |
| CatalogueOutcomes.ScopesAre | backend/app/asset_catalog.py:52-56 | two listings share a scope exactly with one tenant, view and filters, and then list the same cases |
| CatalogueOutcomes.PageIs | backend/app/asset_catalog.py:337-375 | what a request answers, with its total, and that only its cursor can refuse it |
| CatalogueCursor.CursorRoundTrip | backend/app/asset_catalog.py:59-72 | a cursor decodes to its case exactly under its own fingerprint, and the route admits it exactly when JSON spells the case identifier in at most 343 bytes |
| CatalogueCursor.DumpsInjective | backend/app/asset_catalog.py:60 | the payload that JSON spells tells the case and the fingerprint, for all texts |
| CatalogueCursor.LawfulIsMet | backend/app/asset_catalog.py:64-67 | a parser that reads every such payload back exists |
| CatalogueCursor.SpelledReads | backend/app/asset_catalog.py:60 | a reader of JSON finds every character of a payload's texts again |
| CatalogueCursor.PlainDumps | backend/app/asset_catalog.py:60 | the payload for an ordinary identifier, in full |
| CatalogueCursor.PayloadDecides | backend/app/asset_catalog.py:64-72 | the payloads a request can carry are exactly those of 6 to 384 bytes, and the payload alone decides what happens |
| CatalogueCursor.BrokenIff | backend/app/asset_catalog.py:64-72 | when a cursor is refused by the route, malformed, foreign, or raises one of the two unhandled errors |
| CatalogueCursor.ListCursorBreaks | backend/app/asset_catalog.py:70 | a concrete cursor of admitted length whose payload is not an object |
| CatalogueCursor.SurrogateCursorBreaks | backend/app/asset_catalog.py:361 | a payload that the decoder accepts and the query cannot carry |
| CatalogueCursor.StrippedLength | backend/app/asset_catalog.py:61 | without padding, a payload of n bytes takes four thirds of n characters, rounded up |
| CatalogueCursor.DecodeEncoded | backend/app/asset_catalog.py:59-72 | base64url decoding undoes encoding, for all bytes |
| CatalogueCursor.DecodeIsLenient | backend/app/asset_catalog.py:67 | which other texts the decoder takes, and which it refuses |
| CatalogueCursor.PaddingReturns | backend/app/asset_catalog.py:61-66 | stripped padding is restored by the length |
| CatalogueEligibility.ScoresAgree | backend/app/asset_catalog.py:75-91 | the score SQL filters on, with its NULLs, is the score displayed |
| CatalogueOutcomes.ScoreIs | backend/app/asset_catalog.py:75-91 | the displayed score from the case's own rows |
| CatalogueOutcomes.ReasonIs | backend/app/domain.py:150-210 | the reason a case is excluded for is the first thing that holds it |
| CatalogueOutcomes.ExecutableIff | backend/app/asset_catalog.py:522-534 | which cases count as executable |
| CatalogueOutcomes.NextIs | backend/app/asset_catalog.py:166-195 | the next step shown for a case, by the first thing that holds it up |
| CatalogueOutcomes.BrowserReasonIs | src/activity-preflight.js:18-36 | the browser's reason for leaving a candidate out |
| CatalogueOutcomes.CandidatesAre | src/activity-preflight.js:18-36 | candidates and exclusions keep their items and their order |
| CatalogueEligibility.QualityScore | backend/app/asset_catalog.py:75-91 | the accumulated score, which the cap never changes |
| CatalogueEligibility.QualityViewIs | backend/app/asset_catalog.py:271-292 | the quality view is the cases displayed below 70: under the profile constraints, those without a profile |
| CatalogueEligibility.RulesById | backend/app/asset_catalog.py:94-109 | the dictionary keeps the newest rule of each identifier |
| CatalogueEligibility.ShownRuleIsBookedIff | backend/app/asset_catalog.py:94-109 | the rule shown is the rule the ledger books on exactly when it belongs to the case's package |
| CatalogueEligibility.ReadyIff | backend/app/asset_catalog.py:166-195 | the final step is shown exactly for executable cases without an active or completed plan |
| CatalogueEligibility.EligibleIff | backend/app/asset_catalog.py:522-534 | under a published policy, eligible is executable, matching the goal and not in flight |
| CatalogueEligibility.EligibleWithinExecutable | backend/app/asset_catalog.py:522-534 | the executable count covers every eligible case |
| CatalogueEligibility.ExecutableIsBookableIff | backend/app/asset_catalog.py:522-534 | in arbitrary tables an executable case is bookable exactly when its rule has an active version in its own package |
| CatalogueEligibility.Preflight | backend/app/domain.py:150-210 | the preflight loop sorts the found cases and reports the missing ones |
| CatalogueEligibility.PreflightPartitions | backend/app/domain.py:150-210 | distinct requested identifiers are split into eligible and excluded, none in both, none lost |
| CatalogueEligibility.PreflightCutsBrowserList | src/activity-preflight.js:26-32 | server-eligible is browser-eligible cut down by the financial and contact checks |
| CatalogueEligibility.SubmittedListIsCut | src/activity-preflight.js:18-44 | the same for a whole submitted list |
| CatalogueEligibility.SelectCandidates | src/activity-preflight.js:18-44 | the browser's lists and its counters by reason |
| CatalogueEligibility.CountersAddUp | src/activity-preflight.js:34-36 | every candidate is eligible or counted under exactly one reason |
| Acceptance.AcceptedMeansPassingNow | backend/app/case_acceptance.py:43-129 | an acceptance that counts now stands on evidence that passes now (latest material, matched claim, every check of the case), is not expired and was decided by someone independent of all three submitters |
| Acceptance.PassesIff | backend/app/case_acceptance.py:43-78 | the checks of the evidence pass exactly when the link is approved on unchanged evidence, the material is the latest, its claim is matched and every check of the case holds |
| Acceptance.AcceptedCountsIff | backend/app/case_acceptance.py:93-100 | it counts exactly while unexpired and the evidence reads as when it was proposed |
| Acceptance.DecidedOnce | backend/app/case_acceptance.py:242-258 | an acceptance is decided at most once |
| Acceptance.NewLinkVersionEndsAcceptance | backend/app/case_acceptance.py:58-67 | once the link is proposed or decided again, acceptances of its earlier version never count again |
| Acceptance.StepKeepsInv | backend/app/case_acceptance.py:165-273 | every proposal, decision and change of evidence keeps the invariant |
| Acceptance.RunKeepsInv | backend/app/case_acceptance.py:165-273 | so every reachable state satisfies it |
| Acceptance.RunGrows | backend/app/material_associations.py:144-175 | link versions only grow and acceptances keep all but one decision |
| AcceptanceOutcomes.SnapshotIff | backend/app/case_acceptance.py:43-78 | what reading the evidence gives, field by field and check by check |
| AcceptanceOutcomes.LinkProposalIs | backend/app/material_associations.py:123-188 | when a link is proposed, proposed again or answered as it is |
| AcceptanceOutcomes.LinkDecisionIs | backend/app/material_associations.py:191-240 | when a link is decided, by whom, and on which evidence |
| AcceptanceOutcomes.ProposalIs | backend/app/case_acceptance.py:166-210 | when an acceptance is proposed and what it is bound to |
| AcceptanceOutcomes.DecisionIs | backend/app/case_acceptance.py:214-273 | when an acceptance can be decided, and when accepted: independent, in time, on the evidence as bound, all of it passing now |
| AcceptanceOutcomes.EffectiveIs | backend/app/case_acceptance.py:93-100 | how an acceptance shows: rejected, expired, stale or as decided |
| Acceptance.Desk.ProposeAcceptance | backend/app/case_acceptance.py:165-210 | a proposal moves the rows exactly as its step |
| Acceptance.Desk.DecideAcceptance | backend/app/case_acceptance.py:213-273 | a decision moves the rows exactly as its step |
| Contact.DailyLimitHolds | backend/app/contact_orchestration.py:73-86 | in every run a case has at most the daily limit of attempts that are not blocked on any day, and never more than ten |
| Contact.HoursHold | backend/app/contact_orchestration.py:67-70 | every attempt lies in the hours allowed when it was made |
| Contact.TerminalIsForever | backend/app/telephony.py:95-107 | completed, failed and blocked attempts never change; calls never go back |
| Contact.RetriesFormChains | backend/app/contact_orchestration.py:137-165 | retries form finite chains of failed attempts on one case, channel and contact |
| Contact.StartedCallsBounded | backend/app/contact_orchestration.py:119-134 | started calls are those that still count, within the limit, and those cancelled after they started |
| Contact.StartedGrowsIff | backend/app/telephony.py:60-107 | a request starts one call of a case and day exactly when it is a genuine event, not stored before, that the conditional update takes on an attempt not started yet, and none otherwise |
| Contact.StartedStaysWithinIff | backend/app/telephony.py:60-107 | a request keeps the started calls within a limit exactly when it is not such an event while they are as many |
| Contact.EventsActOnce | backend/app/telephony.py:60-72 | in every run an accepted event never acts again: any delivery under its key changes nothing, and is a duplicate exactly with the body first accepted |
| Contact.OnlyCancellationsExceed | backend/app/contact_orchestration.py:73-86 | in every run, a call can only start past the limit on a day on which a started call was cancelled |
| Contact.CancelledCallsFreeTheLimit | backend/app/contact_orchestration.py:73-86 | a run of requests the schemas admit with two answered calls on one day under a limit of one |
| Contact.RunKeepsSound | backend/app/contact_orchestration.py:31-165 | the hours and the retry links hold in every reachable state |
| ContactOutcomes.GateIs | backend/app/contact_orchestration.py:45-86 | which refusal an attempt meets first |
| ContactOutcomes.CreationIs | backend/app/contact_orchestration.py:31-98 | an attempt is made exactly for a case that may be contacted over that channel at that time, fewer than the limit that day |
| ContactOutcomes.RetryIs | backend/app/contact_orchestration.py:137-165 | a retry is made exactly for a failed attempt whose case may be contacted again |
| ContactOutcomes.HandoffAndCancelAre | backend/app/contact_orchestration.py:101-134 | an attempt is handed off or cancelled exactly while it is not over |
| ContactOutcomes.EventIs | backend/app/telephony.py:60-109 | what any telephony event does, refused, repeated, stored or moving its attempt |
| ContactOutcomes.OnlyContactableAreContacted | backend/app/contact_orchestration.py:53-58 | no request makes an attempt for a protected or finished case or one without a contact basis |
| Contact.Desk.CreateAttempt | backend/app/contact_orchestration.py:31-98 | creating moves the state exactly as its step, with the gates in the code's order |
| Contact.Desk.Handoff | backend/app/contact_orchestration.py:101-116 | a handoff moves the state exactly as its step |
| Contact.Desk.CancelAttempt | backend/app/contact_orchestration.py:119-134 | a cancellation moves the state exactly as its step |
| Contact.Desk.AcceptEvent | backend/app/telephony.py:60-109 | accepting a telephony event moves the state exactly as its step, with the checks in the code's order |
| Contact.Desk.RetryAttempt | backend/app/contact_orchestration.py:137-165 | a retry creates an attempt and links it |
| AddressText.ReviseTwice | scripts/sip-lab-address-update.py:62-100 | revising to one address and then another is revising straight to the second; success does not depend on the address |
| AddressText.RevisionLeavesOthers | scripts/sip-lab-address-update.py:69-100 | every line that is no address field is left alone, in order |
| AddressText.InsertedIsAField | scripts/sip-lab-address-update.py:74-80 | the line inserted into an older template is an ordinary field from then on |
| AddressText.TwoFields | scripts/sip-lab-address-update.py:62-66 | two fields of one file do not disturb each other |
| AddressText.RevisionShows | scripts/sip-lab-address-update.py:69-100 | a revision puts the address into each of its seven places |
| AddressText.RevisesIff | scripts/sip-lab-address-update.py:62-100 | a revision succeeds exactly when each field is on one line of its file |
| AddressText.InsertIs | scripts/sip-lab-address-update.py:74-80 | the inserted line comes right after the one it is keyed on |
| AddressText.DottedReads | scripts/sip-lab-address-update.py:52-59 | the text of an address reads back as its four numbers in order |
| AddressText.AllowedIff | scripts/sip-lab-address-update.py:52-59 | the addresses let through, as ranges of 32-bit numbers |
| AddressUpdate.WantedIs | scripts/sip-lab-address-update.py:128-141 | when an update is asked for, and which text goes under which name |
| AddressUpdate.Folder.Update | scripts/sip-lab-address-update.py:128-167 | under any failing file operations: all new, or all as before, or every file as before or recoverable from the retained staging directory |
| AddressUpdate.Folder.Carry | scripts/sip-lab-address-update.py:142-167 | staging, publishing and rolling back |
| AddressUpdate.Folder.Stage | scripts/sip-lab-address-update.py:146-148 | both copies of every changed file are written first |
| AddressUpdate.Folder.Publish | scripts/sip-lab-address-update.py:149-152 | the published files are a prefix, and every original stays staged |
| AddressUpdate.Folder.RollBack | scripts/sip-lab-address-update.py:153-163 | what cannot be put back stays recoverable |
| AddressUpdate.Folder.Replace | scripts/sip-lab-address-update.py:151 | a rename happens whole or not at all |
| Csv.ParsePrinted | src/customer-materials.jsx:8 | what the scanner makes of any printed file, exactly |
| Csv.TrailingHeaderDropped | src/customer-materials.jsx:8 | a concrete file without rows that loses its trailing empty header, and is refused once it has a row |
| Csv.ReturnsIff | src/customer-materials.jsx:8 | exactly which header rows come back |
| Csv.BareHeaderReturns | src/customer-materials.jsx:8 | a header row without quotes comes back, whatever line break ends it |
| Csv.FileRoundTrip | src/model.js:53 | a standard reader gets back every cell of every row of a printed file |
| Csv.HeaderRoundTrip | src/model.js:53 | any valid header row comes back, whatever commas, quotes and line breaks it holds |
| Csv.ScanLine | src/customer-materials.jsx:8 | scanning a printed line collects its cells |
| Csv.CsvHeaders | src/customer-materials.jsx:8 | the scanning loop computes the parse |
| Instalments.PlanAddsUp | src/App.jsx:49 | a plan adds up to its total, starts with the down payment and spreads the rest evenly |
| Instalments.DueDatesIncrease | src/App.jsx:48 | later instalments fall due strictly later, 28 to 31 days a month |
| Instalments.DueInItsMonthIff | src/App.jsx:48 | an instalment stays in its month exactly when the month has the day |
| Instalments.MonthsCanBeSkipped | src/App.jsx:48 | from 31 January, February has no instalment and March two |
| Instalments.DayNumbersOrder | src/App.jsx:48 | day numbers order the dates of the calendar |
| Instalments.CalendarIs | src/App.jsx:48 | the lengths of the months, leap years included |
| Instalments.StatusIs | src/repayment-state.js:13 | what each status says of the money and the due date |
| Instalments.Allocate | src/repayment-state.js:20-21 | the waterfall loop over the rows in place |
| Instalments.PaidIsMin | src/repayment-state.js:20-22 | the rows get the smaller of the money and the dues |
| Instalments.WaterfallIsOrdered | src/repayment-state.js:20-21 | paid within due, later rows only after earlier ones are full, and more money takes nothing away |
| Instalments.OverdueIs | src/repayment-state.js:13-23 | the overdue sum read off the statuses is what fell due and was not covered |
| Instalments.PlanPaidIff | src/repayment-state.js:20-26 | a plan on a stored schedule is completed exactly when it is not merely proposed and the money and the dues both reach its total |
| Instalments.AllPaidIff | src/repayment-state.js:20-21 | every row is paid exactly when the money covers all dues |

## Left out

- Concurrency inside one ledger, import, acceptance or contact request: each is one step; the row locks and advisory locks that make it so are taken as working.
- `allocate_recovery_to_plan` and the job queue: not part of this model; whether a plan takes a booking, and so flushes the session, is an input of each delivery and approval.
- Webhook configuration, secret storage, HMAC, AES-GCM, OIDC, TLS pinning and DNS checks: library or security code; a signature is a boolean.
- The legacy one-step match route: only its consequence is stated.
- Audit rows, timestamps of bookkeeping, roles and tenant membership: single-branch guards and log lines.
- SQL itself, `ILIKE` escaping, collation and the offset pages of the other sort orders: one total order of identifiers stands for the database's.
- The CSV tokeniser of the importer and issue messages: rows start as lists of stripped cells, issues keep row, severity and code.
- `CatalogueList.ForeignCursorsRefused`: the fingerprint is the first 16 hex digits of a digest; two listings on which these agree take each other's cursors.
- `CatalogueList.BrowseIsFollow`: case identifiers fit their column of 40 characters and hold none of a supplementary plane, whose JSON spelling is longer, and no NUL.
- `LedgerResults.EveryEntryAccountedFor`: runs start from empty tables. Demonstration seeding (`backend/app/seed.py:478-516`) inserts entries without a receipt, which book none.
- `CaseValidation.OutcomePassesIff`: likewise; a seeded entry has no matched receipt, so its case has an entry and still fails the outcome check.
- `Csv.ParsePrinted`: lengths count Unicode characters, not UTF-16 units.
- `Instalments.PlanAddsUp`: cents are integers; floating-point rounding of the division is not modelled.
- `AddressUpdate.Folder.Update`: texts are lines after newline translation, so a file with other line ends is restored only up to them; file permissions, symbolic links and failures of directory removal are not modelled.
- Parsing of the host address argument and address detection: an address is four numbers in the allowed networks.
- `Acceptance.AcceptedMeansPassingNow`: one tenant; the acknowledgement flag of link decisions is taken as given.
- `Contact.EventsActOnce`: the duplicate counter of a stored telephony event is not modelled; it is the one thing a repeated event moves.
- Customer material parsing and claim comparison: a claim's status is part of the evidence and may change at any time.
- `ConnectorResults.MovesAreGoverned`: the membership check of the job's administrator between events is not modelled; a worker it stops is a crash.
- `list_cases` with other sort orders or a page number, and the guards of the preflight on the package and the budget.
- Summaries over plans, activity mode selection and gate state: each counts or reads stored rows by a single condition and nothing else depends on it.
