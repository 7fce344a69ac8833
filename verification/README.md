# KogiExportHub core, modelled in Dafny

KogiExportHub is an ASP.NET Core application for Kogi State. It runs a produce
marketplace with a shopping cart, a tax engine that turns every completed
sale into tax lines, government-revenue ledger entries and a payer receipt,
infrastructure proposals and their funding requests, a mining-licence
register, investment opportunities, and an admin review desk. This project
models the parts of it that are logic rather than plumbing. Each operation is
a pure function from the stored rows, the request's inputs and the current
time to a result:

- the tax engine (`Tax`);
- the cart value (`Carts`);
- the proposal and funding-request life cycles (`Infrastructure`);
- the admin decisions and activity log (`Admin`);
- miner registration and editing (`Mining`);
- investment opportunities (`Opportunities`);
- the revenue dashboard, reports and receipt download (`Revenue`);
- the role-authorization filter (`Authorization`).

Shared vocabulary sits in small support modules:

- `Common`: `Option`, `Result`, nullable strings, the controller reply `Reply`, and 32-bit `int` wrap-around;
- `Clock`: `DateTime` with `Date`, `AddMonths`, `AddYears` and `yyyyMMdd`;
- `Text`: the `D`-format number printing and parsing;
- `Sorting`: `OrderBy` as insertion sort under a total preorder;
- `Profiles`: user profiles, the calling user, and admin activity rows.

A controller action becomes a function returning `Reply<S>`, whose cases are:

- `Done(state)`: the record the action saves;
- `NotFound`, `Forbidden` or `Invalid`: the 404, the 403, or the form shown again;
- `ProfileRequired`;
- `Refused(message)`: an error message and a redirect;
- `Threw(saved)`: an exception after `saved` was written;
- `Crashed`: an exception before anything was written.

Database tables are sequences. A LINQ `Where`, `GroupBy`, `Sum` or `OrderBy`
becomes a filter, grouping, fold or sort over them. Money is `real`, because C#
`decimal` is exact in base 10 for these rates. Nullable strings are
`Option<string>`.

Three behaviours of the code are worth knowing before reading the model:

- **No rounding.** Tax amounts are not rounded (`Services/TaxService.cs:44`): `TaxAmount` is exactly `TotalAmount * Rate / 100`.
- **Null tax-rule filters.** The migration declares the rule's category and location columns non-nullable, but the query tests them against `null`, and only `null` is a wildcard: an empty filter string matches only an empty name.
- **Reprocessing keeps the receipt number.** The number is built from the day and the transaction id, so a second run for the same transaction on the same day repeats it (`Tax.ReprocessingDuplicatesReceipts`).

## Model

| member | source | states |
|---|---|---|
| Tax.FindFirst | Services/TaxService.cs:19-22 | the lookup used for the product and the buyer returns the first row with the key, and nothing exactly when no row has it |
| Tax.Resolve | Services/TaxService.cs:19-31 | selection goes ahead exactly when the product exists with its category and location loaded, and then it uses that product's category and location names |
| Tax.LinesFollowTheProduct | Services/TaxService.cs:19-33 | every calculated line comes from a rule whose category and location filters, when set, name the transaction's own product's category and location |
| Tax.ApplicableRules | Services/TaxService.cs:26-34 | a rule is selected if and only if it is in the table and passes all seven conjuncts (active, effective, not expired, category, location, minimum, maximum) |
| Tax.ApplicableRulesAppend | Services/TaxService.cs:26-34 | selection is a filter that distributes over concatenation, so selected rules keep their table order |
| Tax.ExpiredRuleNeverSelected | Services/TaxService.cs:27-29 | a rule whose expiry date is strictly before now is never selected |
| Tax.CategoryFilterIsExact | Services/TaxService.cs:30-31 | a non-null category filter admits only the exact category name, so an empty string is no wildcard |
| Tax.ZeroMaxAmountIsUnbounded | Services/TaxService.cs:32-33 | with MaxAmount 0 a rule that applies to an amount applies to every larger amount |
| Tax.TaxLines | Services/TaxService.cs:42-58 | one line per rule in rule order, with the transaction total as base, the rule's rate and type, and TaxAmount = BaseAmount * TaxRate / 100 |
| Tax.CalculateTaxes | Services/TaxService.cs:37-61 | the lines correspond one for one to the selected rules, each rule applying and each amount being total * rate / 100; fails exactly when the product cannot be resolved |
| Tax.TotalTaxIsCombinedRate | Services/TaxService.cs:42-58 | the total tax is the transaction amount times the sum of the selected rates over 100 |
| Tax.StampedNumberRoundTrip | Services/TaxService.cs:78 | a receipt or revenue number parses back into the day's yyyyMMdd and the id |
| Tax.StampedNumberLength | Services/TaxService.cs:118 | ids below one million give numbers of fixed length (prefix + 15) |
| Tax.RevenueEntries | Services/TaxService.cs:105-123 | one ledger entry per line with Amount = TaxAmount, Category = TaxType, Location "Kogi State", the transaction and calculation ids and the REV- reference |
| Tax.GenerateReceipt | Services/TaxService.cs:63-92 | the receipt copies the transaction, buyer and line data: total = the lines' tax sum = its breakdown's sum; one breakdown entry per line with type, rate, base and amount; TR- number that reads back as today's date and the transaction id; payer name and email from the buyer found; issued and created now; status Issued |
| Tax.PayerName | Services/TaxService.cs:84 | the payer name is the buyer's first name, one space and last name, a missing name printing as nothing, and a single space when no buyer is found |
| Tax.ReceiptReconcilesWithBreakdown | Services/TaxService.cs:66-74 | the breakdown lists each line's type, rate, base and amount in order and sums to the total tax |
| Tax.LedgerReconcilesWithLines | Services/TaxService.cs:105-123 | ledger entries copying the lines' amounts one for one sum to the lines' total tax |
| Tax.ProcessTaxes | Services/TaxService.cs:94-131 | nothing is written when no rule applies; otherwise existing rows are kept, the calculated lines are appended with consecutive ids, followed by one ledger entry per saved line and one receipt built from the saved lines, whose total equals the new entries' sum |
| Tax.ReprocessingDuplicatesReceipts | Services/TaxService.cs:94-131 | a second run for the same transaction on the same day adds a second receipt with the same number and a second set of lines |
| Carts.Total | Models/CartModels.cs:28-30 | the total is 110 % of the subtotal, and total minus subtotal is tax plus fee |
| Carts.IndexOf | Models/CartModels.cs:35 | the position found holds the product and no earlier entry does |
| Carts.AddItem | Models/CartModels.cs:33-44 | an existing product's first entry gets the summed quantity (32-bit wrap-around) and keeps its other fields, nothing else changes; a new product is appended; product ids stay unique |
| Carts.RemoveItem | Models/CartModels.cs:46-49 | the result is the cart with every entry for the product dropped and the others kept in order: none for the product remains, all others remain, an absent product changes nothing, uniqueness is kept |
| Carts.WithoutAppend | Models/CartModels.cs:48 | removal distributes over concatenation, so kept entries stay in order |
| Carts.UpdateQuantity | Models/CartModels.cs:51-65 | no-op for an absent product, removal for quantity <= 0, otherwise only the first entry's quantity changes |
| Carts.UpdateQuantityAmounts | Models/CartModels.cs:51-65 | a positive update moves the subtotal by the quantity change at the entry's unit price and the item count by the quantity change, and repeating it changes nothing |
| Carts.Clear | Models/CartModels.cs:67-70 | the cleared cart holds no entries, and its subtotal, tax, fee, total and item count are all zero |
| Carts.ClearThenAdd | Models/CartModels.cs:33-70 | a cleared cart holds no product, and adding an item to it gives the one-entry cart whose subtotal is that item's unit price times its quantity |
| Carts.AddItemAmounts | Models/CartModels.cs:33-44 | adding raises the subtotal by the added quantity at the receiving entry's unit price and the item count by the quantity |
| Carts.RemoveItemAmounts | Models/CartModels.cs:46-49 | in a cart with unique products, removing one lowers the subtotal by its total price and the count by its quantity |
| Carts.RemoveItemIdempotent | Models/CartModels.cs:46-49 | removing a product twice is removing it once |
| Infrastructure.StartFundingRequest | Controllers/InfrastructureController.cs:363-403 | the form is refused first for a signed-out caller, then for a missing proposal, then for a proposal that is not Approved, then for a missing or incomplete profile, and shown only when none of these applies |
| Infrastructure.MissingProfileFieldBlocksFunding | Controllers/InfrastructureController.cs:552-559 | for an approved proposal, a caller missing any of first name, last name, phone number, email or role is sent to complete the profile, and otherwise sees the form |
| Infrastructure.CreateFundingRequest | Controllers/InfrastructureController.cs:409-456 | invalid exactly when binding fails or a Sharia request lacks terms; a saved request is Pending, the caller's, with "N/A" for absent terms and rejection reason and the posted fields otherwise |
| Infrastructure.ApproveFunding | Controllers/InfrastructureController.cs:641-700 | only a Pending request is decided; an amount above the request is refused unchanged; approval sets exactly the decision fields; Funded with disbursement fields if and only if the transfer succeeded; a null amount throws after Approved was saved |
| Infrastructure.RejectFunding | Controllers/InfrastructureController.cs:706-738 | only a Pending request is rejected, gaining Rejected status, the reason and the approval date now, nothing else changing |
| Infrastructure.FundingDecisionIsFinal | Controllers/InfrastructureController.cs:654-658 | once a decision is recorded, every later approve or reject is refused as already processed |
| Infrastructure.CreatedRequestAwaitsDecision | Controllers/InfrastructureController.cs:420-451 | a newly created request can be rejected and is never refused as already processed |
| Infrastructure.CreateProposal | Controllers/InfrastructureController.cs:158-230 | a valid form from a caller with a profile becomes the caller's Draft stamped now, every other field as posted |
| Infrastructure.NewProposalAwaitsApproval | Controllers/InfrastructureController.cs:201-202 | a new proposal, and the same proposal once submitted, is refused funding, and its approval opens the funding form |
| Infrastructure.EditProposalAsWritten | Controllers/InfrastructureController.cs:259-329 | the edit as written: ownership is tested against the posted ProposerId, a missing row crashes, and a saved edit is the posted proposal with the stored creation time and document link and update time now |
| Infrastructure.EditProposalTrustsPostedOwner | Controllers/InfrastructureController.cs:269 | a non-owner, non-admin caller who posts their own id as ProposerId edits and takes over someone else's proposal |
| Infrastructure.EditProposal | Controllers/InfrastructureController.cs:259-329 | the corrected edit succeeds exactly for the stored proposer or an admin with a valid form, and saves the posted proposal with the stored creation time and document link and update time now |
| Infrastructure.EditProposalRespectsStoredOwner | Controllers/InfrastructureController.cs:245 | with the corrected test every successful edit was made by the stored proposer or an admin |
| Infrastructure.SubmitProposal | Controllers/InfrastructureController.cs:335-359 | the proposer or an admin submits from any status; only status, submission date and update time change |
| Infrastructure.ApproveProposal | Controllers/InfrastructureController.cs:565-581 | Approved from any status with approval date now; nothing else changes |
| Infrastructure.RejectProposal | Controllers/InfrastructureController.cs:587-603 | Rejected from any status; the reason is not stored; nothing else changes |
| Infrastructure.RejectionClosesFunding | Controllers/InfrastructureController.cs:595 | a rejected proposal is refused funding whatever its history, and rejecting it again changes only the update time |
| Infrastructure.ApprovalGatesFunding | Controllers/InfrastructureController.cs:385-389 | approval opens the funding form; a later submission closes it again while the old approval date stays |
| Admin.LogActivity | Controllers/AdminController.cs:340-352 | exactly one entry is appended with the action, description, time and the identity name or "System"; earlier entries are untouched |
| Admin.Actor | Controllers/AdminController.cs:346 | the logged actor is the identity name when there is one and "System" otherwise |
| Admin.ReadDecision | Controllers/AdminController.cs:169-178 | a decision approves exactly when it is the string "approve" and rejects exactly when it is "reject"; null and anything else do neither |
| Admin.ApproveMiner | Controllers/AdminController.cs:161-190 | approve activates the licence with issue date now and expiry exactly now.AddYears(2) (crashing when that passes year 9999), reject records Rejected and the notes, anything else changes nothing; one log entry per recognised decision |
| Admin.MinerDecisionIgnoresPriorStatus | Controllers/AdminController.cs:161-190 | the outcome of a recognised decision does not depend on the miner's prior licence status |
| Admin.ApproveInvestorDecision | Controllers/AdminController.cs:205-234 | approve sets Verified, date and comments, reject sets Rejected, date and reason; other fields and other decisions leave the row unchanged |
| Admin.InvestorDecisionIgnoresPriorStatus | Controllers/AdminController.cs:205-234 | the outcome of a recognised decision does not depend on the investor's prior verification status or date |
| Admin.ApproveInfrastructure | Controllers/AdminController.cs:249-276 | approve sets Approved and the approval date, reject sets Rejected and the notes, from any status |
| Admin.AdminApprovalOpensFunding | Controllers/AdminController.cs:257-270 | an admin approval makes the funding form available; a rejection closes it |
| Admin.ReviewTaxReturn | Controllers/AdminController.cs:291-319 | only the calculation's status changes, to Approved or Rejected, and one log entry is written |
| Admin.RepeatedDecisionOnlyLogs | Controllers/AdminController.cs:291-319 | repeating a decision leaves the record as it was after the first and only adds a log entry |
| Mining.LicenseNumberInjective | Controllers/MiningController.cs:72 | different (year, sequence) pairs give different KG-MIN licence numbers |
| Mining.CreateMiner | Controllers/MiningController.cs:52-79 | rejected exactly when validation fails or full name or mining type is blank; otherwise the posted miner with licence number for this year and register size + 1 |
| Mining.SuccessiveLicensesDiffer | Controllers/MiningController.cs:72 | while the register grows, a new registration never repeats an earlier licence number |
| Mining.EditMiner | Controllers/MiningController.cs:94-128 | unknown id is NotFound; otherwise each of the seven strings takes the posted value when it is non-empty, each of the three optional values takes the posted value when it is set, and id, licence number and dates of record never change |
| Mining.EditNeverClears | Controllers/MiningController.cs:102-122 | no field that was set can be cleared by an edit |
| Mining.EditIdempotent | Controllers/MiningController.cs:102-122 | posting the same form twice is posting it once |
| Mining.BlankEditChangesNothing | Controllers/MiningController.cs:102-122 | an all-blank form changes nothing |
| Mining.EditWithStoredValuesChangesNothing | Controllers/MiningController.cs:102-122 | posting the stored row back changes nothing |
| Opportunities.Create | Controllers/InvestmentOpportunityController.cs:62-123 | with a profile, the posted opportunity owned by the caller, Open, stamped now; without one, nothing is saved |
| Opportunities.Edit | Controllers/InvestmentOpportunityController.cs:174-223 | NotFound when the ids differ, a crash for a caller without a profile, otherwise saved exactly when the caller owns the row; each of the four texts takes the posted value unless it is blank, each of the four numbers takes it when positive, the update time becomes now, and status, owner, investor, documents and creation time never change |
| Opportunities.EditNeverBlanks | Controllers/InvestmentOpportunityController.cs:193-218 | set texts stay non-blank and positive numbers stay positive after an edit |
| Opportunities.EditIdempotent | Controllers/InvestmentOpportunityController.cs:193-218 | repeating the same edit at the same time changes nothing more |
| Opportunities.OnlyCreatorEdits | Controllers/InvestmentOpportunityController.cs:176-191 | the creating partner can edit the opportunity and a different profile gets NotFound |
| Revenue.Where | Controllers/TaxationController.cs:32-45 | the filtered entries are exactly those satisfying the condition, with their multiplicities |
| Revenue.PeriodSumsNest | Controllers/TaxationController.cs:32-45 | with no negative amounts, today's sum <= this month's <= this year's <= the total |
| Revenue.DashboardFiguresNest | Controllers/TaxationController.cs:24-69 | the dashboard's four figures are ordered today <= month <= year <= total and not negative |
| Revenue.GroupBy | Controllers/TaxationController.cs:47-53 | every row is exactly its key's group (sum, count, non-empty), every entry's key has a row, keys are distinct |
| Revenue.GroupsReconcile | Controllers/TaxationController.cs:47-53 | group amounts add up to the ledger total and counts to the number of entries |
| Revenue.SortedGroupsKeepMeaning | Controllers/TaxationController.cs:47-56 | reordering the grouped rows keeps every grouping guarantee and the totals |
| Revenue.RevenueByCategory | Controllers/TaxationController.cs:47-56 | one row per distinct category with its sum and count, largest amount first, amounts summing to TotalRevenue |
| Revenue.RecentRevenues | Controllers/TaxationController.cs:58-63 | min(10, n) entries, newest first, and no left-out entry is newer than any shown |
| Revenue.MonthlyTrend | Controllers/TaxationController.cs:200-216 | per (year, month) the sum of entries since six months back, months strictly increasing and none before the start month, sums reconciling; throws exactly early in year 1 |
| Revenue.Dashboard | Controllers/TaxationController.cs:24-69 | the figures are the sums of entries booked today, since the first of the month, since 1 January and overall; the panels are the category rows, the ten latest entries and the six-month trend; the total equals the category rows' sum; it crashes only when the trend would reach before year 1 |
| Revenue.RevenueReports | Controllers/TaxationController.cs:149-178 | each entry appears with its multiplicity exactly when its day is in [start, end] and the category, if given, matches; latest first; defaults of a month ago and today |
| Revenue.CategoryNarrowsReport | Controllers/TaxationController.cs:160-163 | a category report keeps exactly that category's entries of the unfiltered report, and an empty category filters nothing |
| Revenue.FirstFor | Controllers/TaxationController.cs:187 | the position found holds a receipt for the transaction and no earlier one does |
| Revenue.DownloadTaxReceipt | Controllers/TaxationController.cs:181-198 | NotFound exactly when the transaction has no receipt; otherwise its first receipt as text/html named TaxReceipt_{number}.html |
| Revenue.DownloadAfterProcessing | Controllers/TaxationController.cs:181-198 | after processing, the receipt downloads: the new one named after today's receipt number if it is the first, else the earlier one as before |
| Authorization.HoldsAnyRole | Infrastructure/RoleAuthorizationAttribute.cs:34-42 | true exactly when one of the listed roles is held |
| Authorization.Authorize | Infrastructure/RoleAuthorizationAttribute.cs:18-48 | anonymous endpoints pass; signed-out users are redirected to login with the path; signed-in users pass if and only if they hold a listed role, else Forbid |
| Authorization.EmptyRoleListForbids | Infrastructure/RoleAuthorizationAttribute.cs:34-47 | an endpoint listing no role forbids every signed-in user |
| Authorization.MoreRolesNeverHurt | Infrastructure/RoleAuthorizationAttribute.cs:34-47 | listing more roles never turns a pass into a refusal |
| Authorization.OnlyTheRoleSetMatters | Infrastructure/RoleAuthorizationAttribute.cs:34-47 | order and repetition in the role list do not affect the outcome |
| Clock.AddMonths | Controllers/TaxationController.cs:202 | the result moves the month index by the offset, clamps the day, keeps the time, and fails exactly outside years 1..9999 |
| Clock.AddYears | Controllers/AdminController.cs:173 | the same month `years` later, 29 February becoming 28 in a common year; fails outside years 1..9999 |
| Clock.FormatYmdSameDay | Services/TaxService.cs:78 | two valid times print the same yyyyMMdd exactly when they fall on the same day |
| Text.FormatDRoundTrip | Controllers/MiningController.cs:72 | a number printed with the D format parses back to itself |
| Text.FormatDInjective | Controllers/MiningController.cs:72 | the D format at a fixed width never prints two numbers the same way |
| Sorting.SortBy | Controllers/TaxationController.cs:55 | the result is sorted by the comparison and is a permutation of the input |
| Common.WrapInt32 | Models/CartModels.cs:38 | the result is a 32-bit value congruent to the input modulo 2^32 and equal to it when it already fits |

## Left out

- **Persistence.** Identity columns are modelled, but save order, transactions and the two separate saves of the tax pipeline are not. The store is a sequential state; races and partial failure between the saves are not modelled.
- **Reading the clock.** `DateTime.Now` is read once per operation and passed in. The source reads it several times, so its timestamps within one request could differ by a few ticks.
- **Database collation.** String equality in queries (rule filters, report category) is ordinal here. The database may compare case-insensitively.
- **Column precision.** Column precision (`decimal(18,2)`, `decimal(5,2)`) and SQL decimal overflow are left out. Stored amounts are exact `real`s.
- **Checked arithmetic and integer overflow.** LINQ's checked `Sum` overflow on `int` and `decimal` is left out. `TotalItems` is an unbounded sum.
- **Query order.** SQL gives no order without `ORDER BY`. Rule selection, `FirstOrDefault` for receipts and products, and ties in every `OrderBy` are modelled in sequence order.
- **Rendering.** The receipt breakdown is a sequence of records, not its JSON string. The receipt HTML and all views and `ViewBag` values are left out, including the report's distinct-category list and its yyyy-MM-dd echo of the dates.
- **Form validation.** ASP.NET model validation becomes a boolean parameter (`bindingValid`, `modelValid`, `otherFieldsValid`). Only the checks the actions make themselves, and `[Required]` on the miner's two fields, are modelled.
- **Payment gateway.** The transfer call in `ApproveFunding` is an input (`TransferResponse`). The gateway client and the payment callback are left out.
- **File uploads.** Document, business-plan and projection uploads, and the paths they store, are left out. A create or edit carries the stored path through unchanged.
- **Identity and roles.** Sign-in and user lookup are left out. The caller arrives as a profile and an admin flag. Role attributes on controllers are enforced by `Authorization.Authorize` but are not composed with each action.
- **Exception handlers that only redirect.** These are the database-exception catch blocks in `RejectFunding`, `CreateFundingRequest` and `Opportunities.Create`, and the concurrency-exception path of `EditProposal`.
- **Operations outside the modelled core.** These are tax-rule create and edit (`CreateTaxRule`, `EditTaxRule`), `ContributeToFunding`, `ApproveInvestorAction` and `RejectInvestorAction`, and user management.
- Carts.AddItemAmounts: stated only when the summed quantity fits in 32 bits; on overflow the count wraps as `AddItem` states.

## Findings

| source | as written | input that shows it | evidently intended | confidence | as-written member | corrected member |
|---|---|---|---|---|---|---|
| Controllers/InfrastructureController.cs:269 | POST `EditProposal` checks ownership against the `ProposerId` in the posted form, so any signed-in Seller with a profile may edit any proposal by posting their own profile id | stored proposal with proposer 5; Seller caller with profile 7, not admin; posted form for the same id with `ProposerId = 7`: the edit is saved and the proposal now belongs to 7 | test the stored proposal's proposer, as the GET of the same form does (line 245) | not executed | Infrastructure.EditProposalAsWritten, Infrastructure.EditProposalTrustsPostedOwner | Infrastructure.EditProposal, Infrastructure.EditProposalRespectsStoredOwner |
