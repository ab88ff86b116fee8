# Distributor portal: a verified model

This project models the stateful core of a distributor portal's backend in Dafny
and proves what that core promises. Database tables are maps and sequences held
by classes; each service call is one atomic step of a state machine; each class
method is proved equal to a function on table states, and the laws are lemmas
about those functions.

- **Sessions and staff** (`RefreshTokens`, `Portal`, `AuthService`, `AdminService`,
  `DefaultOfficerService`, `PortalRuns`, `SessionLaws`, `StaffLaws`, `AssignmentLaws`,
  `CustomerLockout`). Refresh tokens are rows
  linked by the row that replaced them, revoked by a loop that walks those links.
  A customer's officer is stored twice, as a pointer and as a primary join row.
  One invariant ties the four tables together and holds over every run of
  fourteen calls: logins, refresh, logout, account creation, profile edits,
  activation, the three reassignment routes, and the default officer's two.
- **Statement** (`StatementLedger`, `StatementRows`). A windowed fold against the whole-history
  fold, under a date, type and key order.
- **ERP derivations** (`AccountBalance`, `OrderStatus`, `StockBalance`,
  `StockRows`, `StripCjk`, `ProductResolver`). Single, batch and reconcile queries;
  rollups; regrouped sums; lookup maps against a scan.
- **Order lines and local stock** (`LineMerging`, `CustomerStock`). Map-building
  loops with conservation laws and rounding bounds.
- **Lists** (`UnionPaging`, `CustomersCsv`). Slices that tile, and a printer that a
  reader of section 2 of RFC 4180 undoes (LF as the record separator, CR as
  ordinary text).
- **Timed guards** (`RateLimit`, `Otp`, `OtpAnswers`) and the **loading queue**
  (`LoadingLifecycle`, `LoadingColumns`).
- `Option`, `Lists`, `Ordering`, `Grouping`, `Clock` and `Reals` are shared vocabulary.

Calls take the current time and fresh ids as parameters. A password check is a
boolean, a presented token is the row id it names, and `localeCompare` is any
total order that ties only equal strings. Money and quantities are reals.

What the code does where its own text says otherwise, or where a promise has an
exception:

- The comment at src/modules/loading/loading-status.ts:89-94 says that a load cannot
  be completed without having been started and cannot be reopened. The table and
  the `from === to` rule accept ASSIGNED to COMPLETED and a second waybill on a
  completed load, which moves the completion stamp; the model follows the code
  (`CommentsOverstate`, `CompletedAtLastCompletion`).
- Step 2 of the password reset clears the failures of a row it leaves in place. On
  runs without it a code fails at most three times (`AtMostThreeFailures`). With it
  the bound is three plus two for each clearing, and a run meets it for every
  number of clearings (`FailuresAreBounded`, `BoundIsMet`). While a code can be
  tried, its failures over the whole run and over all that follows without step 2
  stay within three if and only if every clearing so far found its row without
  failures (`ThreeHoldsIff`, `ThreeAfterClearing`); `ClearingCosts` is the form for
  one call, on the failures since the last clearing.
- The resolver's pair key joins specification and name with `||`, so two pairs can
  share a key. For a query, the maps equal a scan of every sheet exactly when its
  key has one reading (`MapsEqualScan`). The sheet shipped with the portal
  (src/modules/erp/product-specifications.ts) carries no bar, and on such a sheet
  no query collides (`BarlessSheetNeverCollides`); the exception needs another sheet.
- The stock column keeps one code per internal id and one id per code. Two codes
  that share an id with lines cannot both be shown, and a code with several ids is
  shown the last one read, while its own screen takes the freshest (`ColumnShows`).
  A code's column agrees with its own screen on every feed if and only if the
  customer rows lead back to the code from exactly the id that screen reads
  (`ColumnAgreesOnEveryFeed`); for a page and a feed with one id per code, if and
  only if no two codes share an id with lines (`ColumnAgreesWithBreakdown`).
- Lines without a product name are listed as `Unspecified`, and the product queries
  have no ORDER BY; the model reads their groups by first appearance. Where a
  product really called `Unspecified` has as much left to collect, which of the two
  rows comes first depends on the order the feed is read in; nothing else does
  (`LineOrderShowsIff`, `BalanceIgnoresLineOrder`).
- A limit below one still accepts the request that opens a window; the rate bounds
  are stated with that effective limit.

## Model

| member | source | states |
|---|---|---|
| `AuthService.AuthService.RevokeChain` | src/modules/auth/auth.service.ts:751-769 | on any store, cyclic or dangling, the walk terminates and stamps exactly the live rows reachable by forward links; no stamp is rewritten and nothing else in the table moves |
| `AuthService.AuthService.Refresh` | src/modules/auth/auth.service.ts:666-734 | the new state of all four tables and the answer, for every branch: unknown, revoked, expired, ownerless and deactivated tokens, and rotation of a live one |
| `AuthService.AuthService.GenerateToken` | src/modules/auth/auth.service.ts:617-628 | one new live row for the owner, unless the id is taken, and nothing else |
| `AuthService.AuthService.Logout` | src/modules/auth/auth.service.ts:736-749 | exactly the presented live row is stamped; anything unverifiable changes nothing |
| `AuthService.AuthService.StaffLogin` | src/modules/auth/auth.service.ts:392-418 | the email is looked up up to letter case; a wrong password and an unknown email read the same, the status is looked at only after the password, and only an active account mints a token |
| `AuthService.AuthService.ManagedStaffLogin` | src/modules/auth/auth.service.ts:289-316 | a managed account opens with its local password only, in the order password set, password right, account active |
| `AuthService.AuthService.StaffWebLogin` | src/modules/auth/auth.service.ts:207-282 | managed accounts never reach the ERP; a mirrored one is created or rewritten from the ERP, keeping its identity columns where another row holds one; a login refused for its credentials, role or status writes nothing |
| `AuthService.AuthService.CustomerLogin` | src/modules/auth/auth.service.ts:122-182 | the row and the answer for every branch: unknown, without a password, locked, wrong (counted, and locking at the fifth), right (counters cleared and a token minted) |
| `CustomerLockout.StepKeepsCounters` | src/modules/auth/auth.service.ts:155-178 | no other call of the portal moves a customer's login counters |
| `CustomerLockout.NothingWhileLocked` | src/modules/auth/auth.service.ts:146-153 | while a lock lasts no password for that customer is compared, right or wrong, whatever calls are made |
| `CustomerLockout.AnyInterval` | src/modules/auth/auth.service.ts:155-170 | the bound of five for any half hour, from any state whose counts are below the limit |
| `CustomerLockout.AtMostFiveGuesses` | src/modules/auth/auth.service.ts:122-182 | over every run of the portal in which the right password is never shown, any half hour compares at most five passwords for one customer |
| `CustomerLockout.UntilLocked` | src/modules/auth/auth.service.ts:155-170 | the bound is met: an unlocked account takes exactly what its count leaves |
| `CustomerLockout.LockHasItsCause` | src/modules/auth/auth.service.ts:155-170 | at every state of every run a locked customer has had five wrong passwords compared, one of them within the last half hour |
| `SessionLaws.ExchangedIff` | src/modules/auth/auth.service.ts:666-721 | a token is exchanged exactly when its row is there, unrevoked and not past its expiry, its owner exists and is in service, and the new id is free |
| `SessionLaws.ExchangeWrites` | src/modules/auth/auth.service.ts:718-733 | an exchange writes the new row, with the owner and a full life, the three stamps of the old one, and nothing else in any table |
| `SessionLaws.RefusedExchange` | src/modules/auth/auth.service.ts:679-716 | which refusal a known token gets, each exactly when, and that only a reuse and a deactivated owner write anything |
| `SessionLaws.AddedRow` | src/modules/auth/auth.service.ts:617-628 | every token row is added by a login or an exchange: live, unlinked, and expiring one configured life after that call |
| `SessionLaws.NeverAfterExpiry` | src/modules/auth/auth.service.ts:695-699 | over every run, a token is never exchanged later than one configured life after the call that added it |
| `SessionLaws.ExchangedWithinLife` | src/modules/auth/auth.service.ts:666-734 | and within it, unrevoked and with an owner who may enter, it is |
| `SessionLaws.StaffEntersIff` | src/modules/auth/auth.service.ts:392-418 | the app's login opens a session exactly for the right password of an account that has one and is in service; otherwise it writes nothing, and a wrong password reads like an unknown email |
| `SessionLaws.ManagedEntersIff` | src/modules/auth/auth.service.ts:289-316 | the web route for a managed account: the same, with its three refusals told apart, whatever the ERP would say |
| `SessionLaws.MirrorEntersIff` | src/modules/auth/auth.service.ts:218-282 | the web route for a mirrored account: exactly when the ERP vouches for it under an unmanaged role and it is in service, with the columns it takes from the ERP |
| `SessionLaws.ErpMustVouch` | src/modules/auth/auth.service.ts:215-221 | an account not managed here has no session without the ERP's word |
| `SessionLaws.FirstSeen` | src/modules/auth/auth.service.ts:246-256 | an account first seen is created in service, without a password, as the ERP reports it |
| `SessionLaws.SessionNeedsPassword` | src/modules/auth/auth.service.ts:207-418 | a token row of a managed account is added by a login that shows its right password, or in exchange for an older one |
| `SessionLaws.NoPasswordNoSession` | src/modules/auth/auth.service.ts:207-418 | over every run in which the right password of a managed account is never submitted, no token row of it exists |
| `SessionLaws.CustomerEntersIff` | src/modules/auth/auth.service.ts:122-182 | a customer's login opens a session exactly for the right password of an account that is not locked; it clears the counters, and no other row or column moves |
| `SessionLaws.CustomerRefusal` | src/modules/auth/auth.service.ts:136-170 | a refused customer is told of a lock while it lasts and at the fifth failure, and the same words in every other case |
| `SessionLaws.NoPasswordNoCustomerSession` | src/modules/auth/auth.service.ts:122-182 | over every run in which a customer's right password is never submitted, they have no session |
| `RefreshTokens.WalkIsComplete` | src/modules/auth/auth.service.ts:751-769 | once the walk meets an absent, unknown or already seen id, no longer walk reaches a row it has not seen |
| `RefreshTokens.WalkedEverything` | src/modules/auth/auth.service.ts:755-768 | what the loop has seen when it stops is exactly the set of reachable rows |
| `RefreshTokens.RotateKeepsLinks` | src/modules/auth/auth.service.ts:718-733 | rotating a live row keeps the table a disjoint union of finite chains in which only a last row is live |
| `RefreshTokens.MintKeepsLinks` | src/modules/auth/auth.service.ts:620-628 | a login's new row keeps that shape |
| `RefreshTokens.RevokeKeepsLinks` | src/modules/auth/auth.service.ts:751-769 | revoking any rows keeps that shape and changes what no row reaches |
| `RefreshTokens.RootExists` | src/modules/auth/auth.service.ts:723-732 | every row descends from a row that some login minted |
| `RefreshTokens.RootUnique` | src/modules/auth/auth.service.ts:723-732 | two roots never lead to one row, and a row sits at one depth only |
| `RefreshTokens.ChainsPartition` | src/modules/auth/auth.service.ts:723-732 | each row lies on the chain of exactly one root |
| `RefreshTokens.OneLivePerChain` | src/modules/auth/auth.service.ts:718-733 | of all the rows one login leads to at most one is live, and every other leads to it |
| `RefreshTokens.ForwardRevocationKillsChain` | src/modules/auth/auth.service.ts:751-769 | the forward-only walk leaves the whole chain dead, rows before the presented one included |
| `RefreshTokens.RevocationIsWriteOnce` | src/modules/auth/auth.service.ts:751-769 | a revoked row is never deleted, un-revoked, re-stamped or re-linked |
| `RefreshTokens.DeadSurvivesRotate` | src/modules/auth/auth.service.ts:718-733 | rotating a live row elsewhere leaves a dead chain dead |
| `RefreshTokens.DeadSurvivesMint` | src/modules/auth/auth.service.ts:620-628 | a new login's row joins no dead chain |
| `RefreshTokens.DeadSurvivesRevoke` | src/modules/auth/auth.service.ts:751-769 | revocation leaves a dead chain dead |
| `RefreshTokens.DeadStaysDead` | src/modules/auth/auth.service.ts:666-769 | no write any call makes brings a dead chain back or lets it grow a live row |
| `Portal.AssignKeepsAgreement` | src/modules/admin/admin.service.ts:1977-2017 | after any set of customers is repointed, the primary rows of every customer are again exactly its pointer |
| `Portal.AssignKeepsConsistency` | src/modules/admin/admin.service.ts:1977-2017 | repointing to an active officer keeps every portal invariant |
| `Portal.AssignLeavesOthers` | src/modules/admin/admin.service.ts:1996-2017 | join rows of other customers, and of officers who are neither the old nor the new one, are left exactly as they were |
| `Portal.AssignInTurn` | src/modules/admin/admin.service.ts:1545-1553 | moving two disjoint groups one after the other is moving them together, on both tables |
| `Portal.RepointInTurn` | src/modules/admin/admin.service.ts:2001-2017 | the join-row half of that law |
| `Portal.RepointAt` | src/modules/admin/admin.service.ts:2001-2017 | for each (customer, officer) pair: whether its row survives the move, and with what flag and date |
| `Portal.AssignConservesPortfolios` | src/modules/admin/admin.service.ts:1977-2017 | only the old and new officers' portfolios change, and together they keep every customer |
| `AdminService.AdminService.MovePrimaryAssignment` | src/modules/admin/admin.service.ts:2001-2017 | drops the outgoing officer's primary row only, and promotes or creates the incoming officer's |
| `AdminService.AdminService.ReassignOfficer` | src/modules/admin/admin.service.ts:799-876 | refused in the source's order for a missing customer, an ineligible officer or the officer already held; otherwise both sides of the one assignment move |
| `AdminService.AdminService.ReassignAllCustomers` | src/modules/admin/admin.service.ts:1502-1553 | the pointer update and the per-customer loop over join rows amount to one move of the whole portfolio, and the count returned is its size |
| `AdminService.AdminService.BulkReassignCustomers` | src/modules/admin/admin.service.ts:1799-1847 | the sequential loop over distinct ids moves exactly the items whose own gate passes on the state before the batch, and reports each once |
| `AdminService.AdminService.SetOfficerActive` | src/modules/admin/admin.service.ts:1849-1969 | every guard in order, then status and session revocation together, or nothing where the status is already the one asked for |
| `AdminService.AdminService.CreateOfficer` | src/modules/admin/admin.service.ts:1205-1266 | the role, region and identity checks in order, then exactly one new active row, in the scope's region where there is one |
| `AdminService.AdminService.UpdateOfficerProfile` | src/modules/admin/admin.service.ts:1621-1713 | the edit's refusals in order, whether anything was written, and only the edited columns of one row changed |
| `AdminService.GuardsAreIndependent` | src/modules/admin/admin.service.ts:1799-1847 | moving some customers changes no other item's verdict |
| `AdminService.MovedIsAssigned` | src/modules/admin/admin.service.ts:1786-1797 | an item that moved is ALREADY_ASSIGNED from then on |
| `AdminService.BulkNext` | src/modules/admin/admin.service.ts:1727-1770 | one turn of the bulk loop in terms of the state the batch started from, repeated ids included |
| `DefaultOfficerService.DefaultOfficerService.ResolveOfficerId` | src/modules/erp/default-officer.service.ts:139-181 | the configured officer only while it is an active OFFICER |
| `DefaultOfficerService.DefaultOfficerService.Reconcile` | src/modules/erp/default-officer.service.ts:191-263 | the guarded set-based pass: unavailable, skipped, or every unassigned customer of the region claimed and counted |
| `DefaultOfficerService.DefaultOfficerService.AssignIfUnassigned` | src/modules/erp/default-officer.service.ts:275-297 | claims the customer only if unassigned and in the region, writing both sides |
| `DefaultOfficerService.NobodyLeaves` | src/modules/erp/default-officer.ts:89-102 | claim-and-upsert is a full repointing, since the customers claimed had no officer to leave |
| `PortalRuns.StepKeepsConsistency` | src/modules/admin/admin.service.ts:1502-2017 | each of fourteen calls, with any arguments, keeps the five portal invariants |
| `PortalRuns.RunKeepsConsistency` | src/modules/admin/admin.service.ts:1502-2017 | every run of those calls from a consistent state ends in one |
| `PortalRuns.EveryReachableState` | src/modules/admin/admin.service.ts:1849-2017 | in every reachable state: primary rows are exactly the pointer, every pointer names an active OFFICER, an inactive staff member owns no live token, and no login has two live tokens |
| `PortalRuns.WebLoginKeepsConsistency` | src/modules/auth/auth.service.ts:207-282 | whatever the ERP reports, a web login keeps the invariants |
| `PortalRuns.RefreshKeepsConsistency` | src/modules/auth/auth.service.ts:666-734 | rotation, refusal and chain revocation keep the invariants |
| `PortalRuns.SetActiveKeepsConsistency` | src/modules/admin/admin.service.ts:1849-1969 | the customer guard and the session sweep are what a deactivation needs to keep the invariants |
| `PortalRuns.ReassignmentsKeepConsistency` | src/modules/admin/admin.service.ts:799-847 | the three administrators' assignment routes keep the invariants |
| `PortalRuns.DefaultOfficerKeepsConsistency` | src/modules/erp/default-officer.service.ts:191-297 | both default-officer routes keep the invariants |
| `PortalRuns.ErpTouchesNoManagedAccount` | src/modules/auth/auth.service.ts:228-253 | no ERP answer creates, re-roles or rewrites an internally managed account, or moves any account's status |
| `PortalRuns.OnlySetActiveMovesStatus` | src/modules/admin/admin.service.ts:1849-1969 | no other call moves an account's status |
| `PortalRuns.RolesAreStable` | src/modules/auth/auth.service.ts:207-282 | over every run a managed role is kept, and a mirrored account never becomes a managed one |
| `PortalRuns.SecondAdmin` | src/modules/admin/admin.service.ts:1897-1913 | an active administrator whose deactivation passes the guard is not the only active one |
| `PortalRuns.StepKeepsAnAdmin` | src/modules/admin/admin.service.ts:1897-1913 | no call retires the last active administrator |
| `PortalRuns.AnAdminRemains` | src/modules/admin/admin.service.ts:1897-1913 | over every run, once there is an active administrator there always is one |
| `PortalRuns.StepIsTableStep` | src/modules/auth/auth.service.ts:617-769 | all any call does to the token table is a mint, a revocation, a rotation of a live row, or nothing |
| `PortalRuns.RevokedNeverExchanges` | src/modules/auth/auth.service.ts:687-693 | a revoked token is never exchanged again and keeps its first revocation time |
| `PortalRuns.ExchangedAtMostOnce` | src/modules/auth/auth.service.ts:666-734 | single use: over any run from any state a token is exchanged at most once |
| `PortalRuns.DeadForTheRun` | src/modules/auth/auth.service.ts:666-769 | a dead chain stays dead to the end of every run |
| `PortalRuns.ReuseEndsTheChain` | src/modules/auth/auth.service.ts:687-693 | presenting a revoked token in any reachable state leaves its whole chain dead, at once and for the rest of every run |
| `PortalRuns.LoggedOutForGood` | src/modules/auth/auth.service.ts:736-749 | a token presented at logout is never exchanged in any later run |
| `PortalRuns.RetiredUntilReactivated` | src/modules/admin/admin.service.ts:1923-1966 | from a deactivation until someone reactivates the account, over every run, it stays inactive and owns no live session |
| `PortalRuns.ScopeIsRespected` | src/modules/admin/admin.service.ts:1179-1202 | a regional administrator's call writes only OFFICER and LOADING_OFFICER rows of their own region, and moves only that region's customers to officers of it |
| `AssignmentLaws.BulkMoveConserves` | src/modules/admin/admin.service.ts:1502-1553 | after a bulk move the source holds nobody, the target holds both portfolios, the count is right and nobody else's portfolio moved |
| `AssignmentLaws.BulkMoveLeavesSecondaries` | src/modules/admin/admin.service.ts:1996-2017 | a bulk move leaves every other officer's join rows as they were, row for row |
| `AssignmentLaws.MoveThenRetire` | src/modules/admin/admin.service.ts:1915-1935 | an officer's deactivation is refused for customers exactly while they hold some, with the count; moving them all is always enough, and retiring then ends the sessions and moves no assignment |
| `AssignmentLaws.ReportSplitsIds` | src/modules/admin/admin.service.ts:1727-1770 | each id lands in exactly one of the two lists, by its own verdict and with its own code |
| `AssignmentLaws.BulkReportIsTrue` | src/modules/admin/admin.service.ts:1799-1847 | every distinct id is reported once; a reported success holds the officer asked for and a reported failure is untouched |
| `AssignmentLaws.VerdictsAfterBulk` | src/modules/admin/admin.service.ts:1786-1797 | after a batch each item that went through is ALREADY_ASSIGNED and every other verdict is as before |
| `AssignmentLaws.BulkRerunIsQuiet` | src/modules/admin/admin.service.ts:1786-1797 | running a batch again changes nothing and reports exactly the same |
| `AssignmentLaws.ReconcileNeverOverrides` | src/modules/erp/default-officer.ts:89-102 | a pass touches neither pointer nor join rows of a customer who has an officer |
| `AssignmentLaws.ReconcileIsIdempotent` | src/modules/erp/default-officer.ts:85-102 | after a pass nobody in the region is unassigned and a second pass does nothing |
| `AssignmentLaws.ReconcileIsAssignEach` | src/modules/erp/default-officer.service.ts:275-297 | the set-based statement is the create path's single assignment run over the customers one by one, in any order |
| `AssignmentLaws.AssignEachIsAssign` | src/modules/erp/default-officer.service.ts:275-297 | any sequence of single assignments, repeats included, amounts to one assignment of those that were unassigned |
| `StaffLaws.ReassignedIff` | src/modules/admin/admin.service.ts:799-876 | one customer is moved exactly when they exist, the officer is an active OFFICER of their region, and they are not theirs already; each refusal exactly when; and both tables afterwards, row by row |
| `StaffLaws.PortfolioMovedIff` | src/modules/admin/admin.service.ts:1502-1553 | a portfolio is moved exactly when source and target differ, the source exists and the target may serve its region; with the refusals, the count and both tables afterwards |
| `StaffLaws.BulkMovedIff` | src/modules/admin/admin.service.ts:1799-1847 | a batch moves exactly the distinct customers that pass one by one on the state before it, and is refused as a whole only for an officer outside the caller's region |
| `StaffLaws.BulkItemCode` | src/modules/admin/admin.service.ts:1786-1797 | an item succeeds exactly when the officer may serve the customer, and otherwise with which reason it fails |
| `StaffLaws.ClaimedIff` | src/modules/erp/default-officer.ts:89-102 | a single customer is claimed exactly when unassigned, of the configured region, and the configured email names an active OFFICER |
| `StaffLaws.PassClaims` | src/modules/erp/default-officer.ts:89-102 | a pass claims exactly those, and returns their number; it is skipped only while another runs |
| `StaffLaws.StatusChangedIff` | src/modules/admin/admin.service.ts:1849-1969 | a status change goes through exactly for a managed account within reach that may retire where it is to; it moves that one column, and a retirement ends every live session of the account and no other |
| `StaffLaws.RetirementCode` | src/modules/admin/admin.service.ts:1889-1921 | a deactivation is refused for one's own account, for the last administrator in service, or for customers in hand, each exactly when |
| `StaffLaws.CreatedIff` | src/modules/admin/admin.service.ts:1205-1266 | an account is created exactly under a managed role the caller may give, with a region exactly where the role has one, and an unused email and phone |
| `StaffLaws.EditedIff` | src/modules/admin/admin.service.ts:1621-1713 | a profile edit goes through exactly for a managed account within reach, with a region only from an unrestricted caller and never for an ADMIN, and leaves email, role and status alone |
| `StatementLedger.Build` | src/modules/customer/statement-ledger.service.ts:156-208 | the two passes compute the statement defined on whole movement lists |
| `StatementLedger.BalanceByPurchase` | src/modules/customer/statement-ledger.service.ts:214-225 | the loop computes the balance map |
| `StatementLedger.LinesCarryHistoryBalances` | src/modules/customer/statement-ledger.service.ts:156-186 | for any window, the lines are exactly the movements in it and each running balance is the whole-history balance at that movement |
| `StatementLedger.WindowIsSlice` | src/modules/customer/statement-ledger.service.ts:163-172 | in a chronological history the opening part is a prefix and the window the run after it |
| `StatementLedger.ClosingIsOpeningPlusMovements` | src/modules/customer/statement-ledger.service.ts:77-88 | closing = opening + credits - debits, and both ends are whole-history balances |
| `StatementLedger.WindowsChain` | src/modules/customer/statement-ledger.service.ts:161-166 | a later window with no movement dated between opens where the earlier one closed |
| `StatementLedger.BalanceMapAt` | src/modules/customer/statement-ledger.service.ts:214-225 | each purchase maps to the history balance at its own movement |
| `StatementLedger.BalanceMapKeys` | src/modules/customer/statement-ledger.service.ts:219-222 | the map names exactly the purchases among the movements |
| `StatementLedger.StatementAgreesWithOrderScreen` | src/modules/customer/statement-ledger.service.ts:210-225 | the balance on an invoice line, in any window, is the balance the order screen shows |
| `StatementLedger.OrderIsTotal` | src/modules/customer/statement-ledger.service.ts:290-296 | date, type and key make a total order that ties only on all three |
| `StatementLedger.LoadedKeysAreDistinct` | src/modules/customer/statement-ledger.service.ts:263-285 | distinct row ids give distinct sort keys across both tables |
| `StatementLedger.LoadedIsChronological` | src/modules/customer/statement-ledger.service.ts:290-298 | what is loaded is in date order and its keys are distinct |
| `StatementLedger.RowOrderDoesNotMatter` | src/modules/customer/statement-ledger.service.ts:67-75 | any reading order of the two tables gives the same movements, statement and balance map |
| `StatementRows.HistoryBalance` | src/modules/customer/statement-ledger.service.ts:234-288 | the account stands at the sum of the payments' amounts less the sum of the purchases' values |
| `StatementRows.StatementOnRows` | src/modules/customer/statement-ledger.service.ts:150-208 | over any window: the opening is everything paid less everything bought before, the debits the values of the purchases dated in it, the credits the amounts of the payments dated in it |
| `StatementRows.EveryLineIsARow` | src/modules/customer/statement-ledger.service.ts:262-288 | every line is a purchase's or a payment's dated in the window, with its type, reference, debit and credit |
| `StatementRows.EveryRowHasALine` | src/modules/customer/statement-ledger.service.ts:262-288 | and every purchase and payment dated in the window has its line |
| `StatementRows.SameInstant` | src/modules/customer/statement-ledger.service.ts:290-299 | at one instant invoices come before payments and payments before allowances |
| `StatementRows.BalanceAtPurchase` | src/modules/customer/statement-ledger.service.ts:214-225 | the balance the order screen shows for a purchase is everything paid strictly before it less every purchase up to and including it |
| `RateLimit.RateLimitGuard.Sweep` | src/common/guards/rate-limit.guard.ts:104-110 | less than a minute after the last sweep nothing moves; otherwise exactly the unexpired buckets stay |
| `RateLimit.RateLimitGuard.CanActivate` | src/common/guards/rate-limit.guard.ts:57-88 | the table and the decision for every branch; a route without options is never limited |
| `RateLimit.SweepIsInvisible` | src/common/guards/rate-limit.guard.ts:103-110 | from any state, the sweeping guard makes the decisions of one that never sweeps |
| `RateLimit.RestOfWindow` | src/common/guards/rate-limit.guard.ts:70-87 | until the open window ends only the rest of its allowance is accepted |
| `RateLimit.FromLowerEdge` | src/common/guards/rate-limit.guard.ts:70-87 | from a given instant, one window's length accepts what is left of the window found there and at most one more allowance |
| `RateLimit.AnyInterval` | src/common/guards/rate-limit.guard.ts:70-87 | the bound for an arbitrary interval, from an arbitrary table |
| `RateLimit.AcceptsAtMostTwiceLessOne` | src/common/guards/rate-limit.guard.ts:57-88 | for a nondecreasing clock any half-open interval of one window accepts at most 2 * limit - 1 requests per key |
| `RateLimit.BoundIsMet` | src/common/guards/rate-limit.guard.ts:57-88 | for every limit there is a run that reaches that bound |
| `RateLimit.RefusedOnlyWhenFull` | src/common/guards/rate-limit.guard.ts:70-87 | over every run: where a request is refused, at least the whole allowance was accepted for its key in the window's length up to it |
| `RateLimit.QuietIsAccepted` | src/common/guards/rate-limit.guard.ts:70-73 | a request is accepted whenever none for its key was, in the window's length up to it |
| `RateLimit.RefusedLeavesNoTrace` | src/common/guards/rate-limit.guard.ts:75-84 | without a refused request every other decision of the run is the same |
| `RateLimit.AcceptedAlone` | src/common/guards/rate-limit.guard.ts:70-87 | the accepted requests of a run on their own are all accepted again |
| `RateLimit.EveryStateIsTidy` | src/common/guards/rate-limit.guard.ts:103-110 | after every request the last sweep is under a minute old and nothing it would have dropped is left |
| `RateLimit.NoSweepWithinAMinute` | src/common/guards/rate-limit.guard.ts:104-111 | between two sweeps lies a minute, in which the table loses no bucket |
| `RateLimit.OnlyRecentKeysSurvive` | src/common/guards/rate-limit.guard.ts:103-110 | every surviving bucket belongs to a request whose window had not ended a minute before the latest request |
| `CustomersCsv.ReadQuoted` | src/modules/admin/admin.service.ts:782-785 | a quoted value reads back through its doubled quotes, commas and line feeds |
| `CustomersCsv.ReadField` | src/modules/admin/admin.service.ts:782-785 | a printed field reads back as itself, whatever it contains and whatever follows it |
| `CustomersCsv.ReadRecord` | src/modules/admin/admin.service.ts:764-778 | a line of printed fields reads back as those fields, and the reader stands after it |
| `CustomersCsv.ExportReadsBack` | src/modules/admin/admin.service.ts:748-780 | reading the whole export gives back the header and every row, for all codes, names, phones and officer lists |
| `CustomersCsv.ExportIsFaithful` | src/modules/admin/admin.service.ts:748-780 | two exports are the same text only where they state the same rows |
| `CustomersCsv.ColumnsAreNamed` | src/modules/admin/admin.service.ts:748-780 | read back, each value stands under its own column's name |
| `UnionPaging.UnionPageIsSlice` | src/modules/admin/admin.service.ts:419-487 | for any page, size and split, the union view answers what paging the concatenated list answers, meta block included |
| `UnionPaging.SplitWindow` | src/modules/admin/admin.service.ts:443-465 | a window on a concatenation is the two windows the code computes |
| `UnionPaging.NextPageMeansMoreRows` | src/common/pagination/paginate.ts:24-38 | hasNextPage holds exactly when rows remain beyond the page, whatever page was asked for |
| `UnionPaging.UnionHasNextPage` | src/modules/admin/admin.service.ts:479-486 | the same for the union view's own meta block |
| `UnionPaging.PagesTileTheUnion` | src/modules/admin/admin.service.ts:419-487 | pages 1 to totalPages hold every row once and in order, and every later page is empty |
| `UnionPaging.PageNumber` | src/common/pagination/paginate.ts:73 | the clamped page: at least one, the floor of a usable number |
| `UnionPaging.PageSize` | src/common/pagination/paginate.ts:74-77 | the clamped page size: between 1 and 200, the floor of a usable number |
| `UnionPaging.MetaMeans` | src/common/pagination/paginate.ts:24-77 | the total, the last page as the first that reaches it, the flags, and what a missing or extreme page and size are read as |
| `AccountBalance.CustomerTable.Reconcile` | src/modules/erp/account-balance.ts:174-181 | writes, from the batch rollup, exactly what the single-customer query says, only where the balance differs, and counts those writes |
| `AccountBalance.SinglePicksGoverning` | src/modules/erp/account-balance.ts:189-199 | the single query picks the customer's record with the latest date, undated only if all are, the greatest id among those of one date, and finds none exactly when the customer has none |
| `AccountBalance.BatchPicksGoverning` | src/modules/erp/account-balance.ts:224-236 | DISTINCT ON picks that same record, on the same columns, for every code asked for |
| `AccountBalance.GroupedIsFiltered` | src/modules/erp/account-balance.ts:124-129 | a customer's group of the batched grants sums what filtering that customer sums |
| `AccountBalance.RollupIsBatch` | src/modules/erp/account-balance.ts:144-167 | the reconcile's rollup, which groups the grants of the whole feed, answers what the batch for the customers held answers |
| `AccountBalance.BatchIsSingle` | src/modules/erp/account-balance.ts:189-246 | batch and single query give the same balance, from the same record, and are absent together |
| `AccountBalance.BatchAnswersOnlyItsCodes` | src/modules/erp/account-balance.ts:224-246 | the batch answers for no code it was not asked about |
| `AccountBalance.ReconcileIsIdempotent` | src/modules/erp/account-balance.ts:174-181 | a second pass writes nothing; customers without a record, and stamps of unmoved balances, stay |
| `AccountBalance.BalanceIgnoresRowOrder` | src/modules/erp/account-balance.ts:189-211 | the balance does not depend on the order the feed is read in |
| `AccountBalance.FormulaIsQuery` | src/modules/erp/account-balance.ts:289-313 | the payload formula fed the governing record and every grant in force is the query's answer |
| `AccountBalance.BalanceOnColumns` | src/modules/erp/account-balance.ts:90-115 | the balance is the governing record's amount less its payments, and the sum over the whole feed of the customer's grants whose dates include today |
| `AccountBalance.EveryFormOnColumns` | src/modules/erp/account-balance.ts:144-181 | the batch, the rollup and the reconcile give that figure too, and a balance that moves is stamped with that record's own change |
| `LineMerging.MergeLinesByProduct` | src/modules/customer/customer.service.ts:57-84 | the map-building loop computes one summary per key |
| `LineMerging.OneLinePerKey` | src/modules/customer/customer.service.ts:57-73 | one line per key, in first-appearance order, each summarising exactly its own lines under its own key |
| `LineMerging.MergingConserves` | src/modules/customer/customer.service.ts:68-72 | total quantity and total stated money are conserved |
| `LineMerging.TotalAmountIsSum` | src/modules/customer/customer.service.ts:70-72 | a merged amount is the sum of the stated ones and is null only where every part's is |
| `LineMerging.EffectivePriceError` | src/modules/customer/customer.service.ts:78-81 | the rounded effective price multiplied back lands within half a kobo a carton of the amount |
| `LineMerging.MergedMoney` | src/modules/customer/customer.service.ts:76-83 | the agreed price is kept; otherwise an effective price within half a kobo a carton, and none where there is no quantity or no amount |
| `LineMerging.MergingIsIdempotent` | src/modules/customer/customer.service.ts:57-84 | merging a merged list changes nothing |
| `LineMerging.SameProductIff` | src/modules/customer/customer.service.ts:57-63 | two lines are merged exactly where they carry one item code, or neither carries any and they have one name |
| `LineMerging.MergedOnColumns` | src/modules/customer/customer.service.ts:57-84 | each merged line is the first one's identity, the cartons and stated money of its own lines, and their agreed or effective price |
| `CustomerStock.HomeTotals` | src/modules/customer/customer.service.ts:147-160 | the home card's remaining figure is the sum over orders of what each still owes, its loaded figure is the rest, and loaded never exceeds paid |
| `CustomerStock.GetStockBalanceBreakdown` | src/modules/customer/customer.service.ts:564-651 | the three nested loops over one product map compute the breakdown defined on the orders |
| `CustomerStock.ApportioningIsClose` | src/modules/customer/customer.service.ts:591-604 | half-up shares of a load over n items total within n / 2 cartons of it, strictly on the low side |
| `CustomerStock.AllShares` | src/modules/customer/customer.service.ts:591-604 | the same over every order, half a carton an item |
| `CustomerStock.DroppingCollectedKeepsTotal` | src/modules/customer/customer.service.ts:628-651 | dropping collected products keeps the sum of the remainders |
| `CustomerStock.ProgressIsNear` | src/modules/customer/customer.service.ts:640-643 | the progress bar is within half a percent of loaded over purchased, and 0 where nothing was purchased |
| `CustomerStock.BreakdownAddsUp` | src/modules/customer/customer.service.ts:607-651 | purchased is what the orders hold, loaded is near the loads apportioned, and the listed remainders add up to the remaining total |
| `CustomerStock.OrderOnRows` | src/modules/customer/customer.service.ts:564-604 | what one order purchases, has had collected and still owes, read off its items and its completed loads |
| `CustomerStock.ShareOnRows` | src/modules/customer/customer.service.ts:591-604 | an item's share of its order's collected cartons is within half a carton of its part of the order, and nothing where nothing was collected |
| `CustomerStock.ProductOnRows` | src/modules/customer/customer.service.ts:564-651 | each product listed: what all orders bought of it, its shares of what was collected, the difference, and the date of its last order |
| `CustomerStock.OwedProductIsListed` | src/modules/customer/customer.service.ts:607-651 | every product of any order is listed unless its shares have reached what was bought |
| `ProductResolver.Resolver.constructor` | src/modules/erp/product-specification.resolver.ts:58-73 | the loop leaves three maps that answer for every key as filtering the sheet would |
| `ProductResolver.Resolver.ResolveProduct` | src/modules/erp/product-specification.resolver.ts:89-140 | the lookups answer as the filtered sheet does, in the source's precedence |
| `ProductResolver.MapsEqualScan` | src/modules/erp/product-specification.resolver.ts:64-140 | the maps answer like a scan of every sheet if and only if the query's own pair key has a single reading |
| `ProductResolver.NoBarOneReading` | src/modules/erp/product-specification.resolver.ts:65-68 | a query with no bar in spec or name always has one reading |
| `ProductResolver.BarlessSheetNeverCollides` | src/modules/erp/product-specification.resolver.ts:64-140 | on a sheet whose normalised specs and names carry no bar the maps answer every query like a scan, bars in the query or not |
| `ProductResolver.CollisionExample` | src/modules/erp/product-specification.resolver.ts:65-68 | a row of another sheet and a query on which the joined key reports an exact match for another product |
| `ProductResolver.SheetOrderDoesNotMatter` | src/modules/erp/product-specification.resolver.ts:76-140 | reordering the sheet changes no NAME, SPEC or unmatched answer, nor an exact one where rows of a pair agree |
| `ProductResolver.ScanAnswers` | src/modules/erp/product-specification.resolver.ts:90-140 | the last row of the normalised spec and name; failing that the rows of the name, where they agree on code and weight; failing that what the rows of the spec agree on; otherwise nothing |
| `ProductResolver.MapsAnswer` | src/modules/erp/product-specification.resolver.ts:50-140 | on a sheet without bars the maps give that answer to every line |
| `OrderStatus.PurchaseTable.Reconcile` | src/modules/erp/order-status.ts:154-168 | every order ends as the rule on its own lines says, and the count is of statuses that moved |
| `OrderStatus.CombineIsMonoid` | src/modules/erp/order-status.ts:133-145 | rollups combine associatively and commutatively, with the empty one neutral |
| `OrderStatus.RollupIsHomomorphism` | src/modules/erp/order-status.ts:133-145 | the rollup of two batches of lines is the combination of their rollups |
| `OrderStatus.RollupIgnoresLineOrder` | src/modules/erp/order-status.ts:133-145 | permuting the lines changes no rollup |
| `OrderStatus.RollupTotals` | src/modules/erp/order-status.ts:133-145 | quantities are the lines' sums and the stamp is the latest stated one |
| `OrderStatus.StatusMeans` | src/modules/erp/order-status.ts:103-126 | each status holds exactly for the lines its published rule describes |
| `OrderStatus.GroupedIsFiltered` | src/modules/erp/order-status.ts:133-145 | grouping the whole feed and filtering one order give the same rollup, and an order without lines has no group |
| `OrderStatus.SettledOnce` | src/modules/erp/order-status.ts:147-168 | status follows the rule, the stamp moves only with it, orders without lines stay, and a second pass changes nothing |
| `OrderStatus.FeedOrderDoesNotMatter` | src/modules/erp/order-status.ts:133-168 | the feed's row order decides nothing about any order |
| `OrderStatus.SettledOnColumns` | src/modules/erp/order-status.ts:119-168 | on the feed's columns: the status a pass leaves in an order that has lines, the stamp of one that moves, and that the rest is untouched |
| `StockBalance.ErpStockBalanceService.IsAvailable` | src/modules/erp/erp-stock-balance.service.ts:105-126 | the probe's first answer, a failure counting as absence, is kept for good |
| `StockBalance.ErpStockBalanceService.GetStockBalance` | src/modules/erp/erp-stock-balance.service.ts:143-168 | no answer for an empty code, an absent feed or no rows; otherwise the rows of the code's freshest id, labelled and shaped |
| `StockBalance.ErpStockBalanceService.GetStockBalanceForCustomers` | src/modules/erp/erp-stock-balance.service.ts:182-215 | the same over a set of codes, through their internal ids |
| `StockBalance.ErpStockBalanceService.StockByErpId` | src/modules/erp/erp-stock-balance.service.ts:266-317 | the two loops build the code-keyed map from the grouped rows |
| `StockBalance.ShapeTotalsAreLineSums` | src/modules/erp/erp-stock-balance.service.ts:323-373 | the totals are the plain sums of the counted lines, however they fall into products |
| `StockBalance.SingleTotals` | src/modules/erp/stock-balance.ts:86-156 | one customer's breakdown totals that customer's lines and is absent exactly when there are none |
| `StockBalance.ListColumnOf` | src/modules/erp/erp-stock-balance.service.ts:266-317 | what the list column holds for a code, in terms of that customer's own lines |
| `StockBalance.ColumnAgreesWithBreakdown` | src/modules/erp/erp-stock-balance.service.ts:248-317 | with one internal id per code, the list column shows everyone the figures of their own screen if and only if no two codes share an id that has lines |
| `StockBalance.ColumnShows` | src/modules/erp/erp-stock-balance.service.ts:266-317 | with no assumption on ids: the column shows the lines of one internal id, the last one read of those that lead back to the code, or nothing |
| `StockBalance.ColumnAgreesOnEveryFeed` | src/modules/erp/erp-stock-balance.service.ts:248-317 | a code's column shows the figures of its own screen on every feed if and only if the customer rows lead back to the code from exactly the id that screen reads |
| `StockBalance.SharedIdExample` | src/modules/erp/erp-stock-balance.service.ts:274-281 | two codes under one id: the column has no entry for the first, whose own screen shows cartons |
| `StockBalance.SeveralIdsExample` | src/modules/erp/stock-balance.ts:141-146 | one code under two ids: the column and the code's own screen show different figures |
| `StockBalance.PortfolioIsSumOfCustomers` | src/modules/erp/stock-balance.ts:211-258 | counting a set of customers together is adding them up one by one |
| `StockBalance.PortfolioAddsUp` | src/modules/erp/erp-stock-balance.service.ts:182-215 | portfolio purchased and loaded are the sums of the customers' own |
| `StockBalance.PortfolioHeadline` | src/modules/erp/erp-stock-balance.service.ts:363-370 | the portfolio remainder is at most what its customers' own screens add up to, and equals it if and only if no customer is owed while another is over-delivered |
| `StockBalance.HeadlineVersusRows` | src/modules/erp/erp-stock-balance.service.ts:363-370 | the headline remainder is at most the sum of the row remainders, and equals it if and only if no product is owed while another is over-delivered |
| `StockBalance.BalanceHeadline` | src/modules/erp/erp-stock-balance.service.ts:323-373 | the same for the balance as returned, after sorting |
| `StockRows.BalanceOnLines` | src/modules/erp/stock-balance.ts:86-156 | one customer's balance is absent exactly where no open, approved line in the window is of the id on the code's freshest row, and otherwise sums those lines |
| `StockRows.PortfolioOnLines` | src/modules/erp/stock-balance.ts:211-258 | a portfolio's balance sums the open, approved lines in the window of every id any row gives one of its codes |
| `StockRows.OneSpecification` | src/modules/erp/stock-balance.ts:102-105 | a row carries a specification exactly where all its lines that state one state the same |
| `StockRows.ProductStates` | src/modules/erp/erp-stock-balance.service.ts:323-346 | every row of a balance states the lines of one product name: their sums, the least code they state or else the feed's or the sheet's, their one specification, their latest day |
| `StockRows.LineIsInRow` | src/modules/erp/stock-balance.ts:86-153 | and every counted line is in the row of its product name |
| `StockRows.ListedMostFirst` | src/modules/erp/erp-stock-balance.service.ts:355-359 | the rows are listed by what is left to collect, then by name |
| `StockRows.BalanceIgnoresLineOrder` | src/modules/erp/erp-stock-balance.service.ts:323-373 | the feed's row order decides no total, no row and no column; nor the listing, unless two rows tie |
| `StockRows.LineOrderShowsIff` | src/modules/erp/erp-stock-balance.service.ts:355-359 | a balance is the same under every order of the feed if and only if the row of nameless lines does not tie with a different row of a product called Unspecified |
| `StripCjk.StripKeepsTheRest` | src/modules/erp/strip-cjk.ts:18-25 | no Chinese character, no run of blanks and none at the ends is left, and every other visible character is, in order |
| `StripCjk.StripIsNoneIff` | src/modules/erp/strip-cjk.ts:18-25 | nothing is shown exactly where nothing visible is left |
| `StripCjk.StripIsIdempotent` | src/modules/erp/strip-cjk.ts:18-25 | stripping again changes nothing |
| `LoadingLifecycle.LoadingService.UpdateStatus` | src/modules/loading/loading.service.ts:163-198 | the stored request afterwards, or the refusal, for every status and caller; no other request moves |
| `LoadingLifecycle.LoadingService.RecordWaybill` | src/modules/loading/loading.service.ts:229-248 | the same for the waybill |
| `LoadingLifecycle.LoadingService.UpdateDescription` | src/modules/loading/loading.service.ts:120-156 | the same for the note, an empty one clearing it |
| `LoadingLifecycle.LoadingService.EnsureOwnAssignment` | src/modules/loading/loading.service.ts:278-293 | missing, someone else's, or the caller's own |
| `LoadingLifecycle.ApplyKeepsStamps` | src/modules/loading/loading.service.ts:173-198 | every accepted move is legal, uses up rank, keeps the stamps true to the status, and never moves a loading start |
| `LoadingLifecycle.EveryRunKeepsStamps` | src/modules/loading/loading.service.ts:163-271 | after every run from a new assignment: completedAt iff COMPLETED, cancelledAt iff CANCELLED, IN_PROGRESS has a start stamp |
| `LoadingLifecycle.HistoryIsLegal` | src/modules/loading/loading-status.ts:95-117 | every history is a legal path from ASSIGNED with at most two real moves |
| `LoadingLifecycle.TerminalForGood` | src/modules/loading/loading-status.ts:95-144 | completed and cancelled are never left, and a start stamp is write-once, however the run goes on |
| `LoadingLifecycle.StampedIffStarted` | src/modules/loading/loading.service.ts:177-180 | a load carries a start stamp exactly when some accepted call started it |
| `LoadingLifecycle.CompletedWithStamp` | src/modules/loading/loading.service.ts:173-183 | on an open load, an accepted COMPLETED leaves a start stamp if and only if the load was in progress |
| `LoadingLifecycle.CommentsOverstate` | src/modules/loading/loading-status.ts:89-144 | the code accepts completion without a start, and a second waybill on a completed load |
| `LoadingLifecycle.CompletedAtLastCompletion` | src/modules/loading/loading.service.ts:229-248 | after every run the completion stamp is the time of the latest accepted completing call |
| `LoadingLifecycle.RestampedIff` | src/modules/loading/loading-status.ts:132-144 | on a completed load exactly its own officer's waybills and repeated COMPLETED move the stamp |
| `LoadingLifecycle.NoteIsIndependent` | src/modules/loading/loading.service.ts:120-156 | note and progress are written apart |
| `LoadingColumns.AcceptedIff` | src/modules/loading/loading-status.ts:95-132 | a call goes through exactly for the assigned officer, and a status or a waybill exactly from the statuses listed |
| `LoadingColumns.StatusIsTheLast` | src/modules/loading/loading.service.ts:163-248 | after any run the load stands where the last accepted move put it |
| `LoadingColumns.WaybillIsTheLast` | src/modules/loading/loading.service.ts:229-248 | truck, driver and quantity are the last accepted waybill's, and the document the last one attached |
| `LoadingColumns.NoteIsTheLast` | src/modules/loading/loading.service.ts:120-138 | the note and its stamp are the last accepted one's, both gone where it was empty |
| `LoadingColumns.CancellationIsTheLast` | src/modules/loading/loading.service.ts:184-196 | who cancelled and when are the last accepted cancellation's, and the reason the last one given |
| `LoadingColumns.StartedAtFirstStart` | src/modules/loading/loading.service.ts:173-180 | the start stamp is the time of the first accepted start, whatever follows |
| `Otp.OtpTable.Send` | src/infrastructure/otp/otp.service.ts:50-63 | one new row at the end, nothing else |
| `Otp.OtpTable.FindNewest` | src/infrastructure/otp/otp.service.ts:66-69 | the loop finds the newest row of the number |
| `Otp.OtpTable.Verify` | src/infrastructure/otp/otp.service.ts:65-98 | the table and the answer for every branch: none, locked, expired, wrong, right |
| `Otp.OtpTable.ConfirmReset` | src/modules/auth/auth.service.ts:468-507 | the same for the one-step reset, which looks at the expiry first |
| `Otp.OtpTable.CheckReset` | src/modules/auth/auth.service.ts:515-564 | the same for step 2 of the reset, which keeps the row and clears its attempts |
| `Otp.OtpTable.FinishReset` | src/modules/auth/auth.service.ts:572-606 | an accepted reset token wipes the number's rows |
| `Otp.NewestIsThere` | src/infrastructure/otp/otp.service.ts:66-69 | the newest row is one of the number's, and none after it is |
| `Otp.FailureKeepsOk` | src/infrastructure/otp/otp.service.ts:80-91 | a third failure locks for longer than the code has left to live |
| `Otp.RunKeepsOk` | src/infrastructure/otp/otp.service.ts:50-98 | every run keeps each row locked exactly from its third failure on, beyond its expiry |
| `Otp.VerifiesIff` | src/infrastructure/otp/otp.service.ts:65-98 | a number verifies exactly with its newest code, within ten minutes and before a third failure |
| `Otp.SentCodeVerifies` | src/infrastructure/otp/otp.service.ts:50-98 | a code just sent verifies, whatever happened to the number before |
| `Otp.SuccessClearsNumber` | src/infrastructure/otp/otp.service.ts:96-97 | a success removes every row of the number and no other |
| `Otp.StepSpendsAllowance` | src/infrastructure/otp/otp.service.ts:80-91 | each failed comparison uses up one unit of a row's allowance, and a clearing gives back exactly the failures it clears, at most two |
| `Otp.FailuresAreBounded` | src/infrastructure/otp/otp.service.ts:65-98 | over every run of all five calls, a row's failed comparisons number at most three plus the failures cleared, hence at most three plus two for each clearing |
| `Otp.BoundIsMet` | src/modules/auth/auth.service.ts:541-547 | for every number of clearings there is a run with three failures and two more for each |
| `Otp.FailuresBalance` | src/infrastructure/otp/otp.service.ts:65-98 | over every run that leaves the row, its failures and what it can still fail come to its allowance and all that was cleared |
| `Otp.AfterClearing` | src/modules/auth/auth.service.ts:541-547 | right after a clearing the code's failures over the whole run are exactly those cleared in it |
| `Otp.FailuresToCome` | src/modules/auth/auth.service.ts:515-564 | at any moment of a run from the empty table, the failures so far and the most that calls without step 2 can add come to three and all that was cleared |
| `Otp.ThreeHoldsIff` | src/modules/auth/auth.service.ts:541-547 | at any moment of a run at which a code can be tried, its failures over the run and all later calls without step 2 stay within three if and only if every clearing so far found its row without failures |
| `Otp.ThreeAfterClearing` | src/modules/auth/auth.service.ts:541-547 | the same right after a clearing: three holds over the whole run if and only if neither it nor an earlier one gave failures back |
| `Otp.ClearingCosts` | src/modules/auth/auth.service.ts:541-547 | one call: the row's failures since its last clearing and all that later runs without another can add stay within three if and only if this one cleared none |
| `Otp.AtMostThreeFailures` | src/infrastructure/otp/otp.service.ts:65-98 | without step 2 of the reset, three failures a code, ever |
| `Otp.NumberIsBounded` | src/infrastructure/otp/otp.service.ts:50-98 | over every run, the failures of all codes of a number are at most three for each code sent to it and two for each clearing |
| `Otp.ThreePerCodeSent` | src/infrastructure/otp/otp.service.ts:50-98 | without step 2 of the reset, at most three wrong comparisons for each code sent to a number |
| `Otp.BurntIsNeverCompared` | src/infrastructure/otp/otp.service.ts:65-98 | a row failed three times is never compared again by any call of any later run |
| `OtpAnswers.VerifyAnswers` | src/infrastructure/otp/otp.service.ts:65-98 | what `verify` answers to a number with a code: locked while a burnt row's lock lasts, then expired after ten minutes, then by the code |
| `OtpAnswers.ResetAnswers` | src/modules/auth/auth.service.ts:468-564 | what both reset steps answer: expired after ten minutes, locked before that once burnt, and an unknown account only after the right code |
| `OtpAnswers.ResetsIff` | src/modules/auth/auth.service.ts:468-564 | both reset steps accept exactly the number's newest code, within ten minutes, before a third failure, for an account that exists |
| `OtpAnswers.WrongWrites` | src/infrastructure/otp/otp.service.ts:80-93 | a wrong code costs its row one attempt and the third locks it for half an hour, in all three calls alike |
| `OtpAnswers.RightWrites` | src/modules/auth/auth.service.ts:488-606 | a right one wipes the number's rows and no other, or in step 2 clears the row's attempts and nothing else |
| `OtpAnswers.OthersWriteNothing` | src/infrastructure/otp/otp.service.ts:71-79 | every other answer leaves the table as it was |
| `OtpAnswers.LockedForHalfAnHour` | src/infrastructure/otp/otp.service.ts:80-91 | the third wrong try locks the number to `verify` for half an hour to the millisecond, whatever is then submitted |
| `OtpAnswers.NumberBoundIsMet` | src/infrastructure/otp/otp.service.ts:50-98 | the bound of three wrong comparisons for each code sent is met, for every number of codes |

## Left out

- CustomersCsv.ExportReadsBack: the region, status, balance and ticket columns are printed without quoting, so the round trip asks that their text carries no comma, quote or line feed; they are enum names and numbers.
- AuthService.AuthService.Refresh: the payload's subject and type are taken to be the stored row's owner, which the token's signature guarantees.
- AuthService.AuthService.StaffWebLogin: the row found by username or email is a parameter, and so is whether another row holds the reported username or phone; usernames and phones are not columns of the model.
- AuthService.AuthService.StaffLogin: letter-case folding is any function; where the emails of several rows fold alike, any one of them may be the row found.
- AdminService.AdminService.CreateOfficer: whether the phone number is taken is a parameter; where both email and phone clash with different rows the model reports the email.
- AdminService.AdminService.UpdateOfficerProfile: names and phones are not columns of the model; whether they differ, and whether the new phone is taken, are part of the edit. The bulk form of the region edit is not modelled.
- ProductResolver.Resolver.ResolveProduct: `normalise` is any function, idempotent where a law needs it, rather than the source's trimming and case folding.
- StatementLedger.Build: the description text of a line and the customer's name are not carried.
- StockBalance.ErpStockBalanceService.GetStockBalance: the item codes learned from the whole feed are a map the caller passes; the background refresh that learns them is not modelled.
- StockBalance.ErpStockBalanceService.StockByErpId: ids reach the query as a set, not as text joined by commas.
- OrderStatus.PurchaseTable.Reconcile: the order's other columns and the display labels are not carried.
- Floating point: sums, prices and shares are exact reals; the cast to a double column is not modelled.
- `localeCompare` on strings that collate equal without being equal.
- Interleavings inside calls that are not one transaction, such as the last-administrator count taken before its update, or two rotations of one token at once.
- bcrypt, token signing and expiry of the signature, audit stamps, last login times.
- Notifications, email, SMS, push, PDF, logging and the flags that only drive log lines.
- Failed queries: the services' fallbacks when the database errors.
- `resolvePeriod`, the push webhook's table of order states, and which stock source a screen chooses.
- The password a reset stores: the one-time-code table and the portal's staff table are separate models.
- Row ids are never issued twice; two one-time codes created in the same millisecond are told apart by insertion order.
- The regional, waybill, ticket, upload and user services, and the seed and maintenance scripts; their sources are not part of this model.
