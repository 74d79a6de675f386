# Mkani billing core in Dafny

Mkani is a property-management backend. Residents, union heads (the managers of a building's owners' union) and technicians use it to run buildings and units, recurring billing packages, wallets, maintenance requests and rental listings. This project models the part of the backend that moves money, together with the code that decides who is billed and who may see what. Each model is a pure function over an in-memory `World`. The world is one record of tables kept in key order, plus an append-only notice log. Properties of each model are proved about it.

What is modelled, by Dafny module:

- `Settlement`, `Invoicing`: settling one invoice against the payer's `('user', id)` wallet, and get-or-create of invoices keyed by package, building, resident and due date (`apps/packages/tasks.py`, `apps/packages/signals.py`).
- `MonthlyBilling`: the monthly generator, `generate_monthly_invoices`. It picks the billable resident (an approved tenant, else the owner), splits the amount over the building's units, clamps the due day to 28, creates each invoice once and tries to debit it.
- `CreationBilling`: the `post_save` hook on packages, which fans out per resident and auto-pays only recurring packages.
- `LegacyBilling`: the older generator in `apps/core/tasks.py`, which is the one the beat schedule names. It splits the amount by resident count and does not clamp the due day.
- `Money`: the zero-guarded split helper.
- `Catalog`: the package serializer's one-detail-row dispatch and the amount tables.
- `RentalSweep`: the rental-expiry sweep.
- `Rentals`: the rental-listing lifecycle.
- `BuildingViews`: join-request approval and the building views.
- `Maintenance`: the maintenance status update.
- `PackageViews`: the package views, covering visibility, creation with links and announcements, personal invoices and invoice history.
- `Commands`: the `approve_buildings`, `cleanup_rejected_profiles` and `sync_user_roles` commands.
- `Permissions`: both `DynamicRolePermission` variants.
- `Roles`: role storage, normalisation and flattening.
- `Accounts`: the password policy and reset codes.
- `Registration`: sign-up with its wallets.
- `Dashboard`: the dashboard's month window and activity feed.
- Supporting modules: `Calendar` (proleptic Gregorian dates), `Domain` (the records), `PyText` (`str`, `int`, `repr` and `strip` as Python defines them), `Seqs` and `Wrappers`.

Conventions used throughout:

- Money is an exact `real`. An uncaught exception is a `Crashed` outcome or a 500 reply. Writes made before the exception are kept, because every write commits on its own.
- The wall clock, `uuid4()` and `json.loads` are parameters.
- Where the specification of the system and its code disagree, the model follows the code:
  - wallets are not unique per owner, so a lookup can find two, and then settlement halts;
  - no uniqueness constraint protects invoices, so only get-or-create keeps one invoice per key;
  - a wallet's balance is not recomputed from its transactions; what is proved instead is that balance plus completed transactions is conserved;
  - the scheduled task is the legacy generator, not the clamped one.

## Model

| member | source | states |
|---|---|---|
| Money.MonthlyShare | apps/core/utils/payments.py:7-13 | nothing is owed when there is nobody to split over; otherwise the shares times the payer count give back the monthly amount, and a share of a non-negative amount lies between 0 and that amount |
| Money.SharesNeverExceedTotal | apps/core/utils/payments.py:7-13 | no more shares than payers ever add up to more than the amount split |
| Money.ShareWithinColumnRange | apps/payments/models.py:7 | a share of an amount the 10-digit, 2-decimal column can hold stays within that column's range |
| Money.CentsClosedUnderDebit | apps/payments/models.py:7 | debiting a whole number of cents from a balance of whole cents leaves whole cents |
| Calendar.MakeDate | apps/core/tasks.py:34 | `date(y, m, d)` yields a date exactly when the day exists in that month of a year from 1 to 9999, and it is that date; otherwise the ValueError |
| Calendar.NextMonthIsFollowingMonth | apps/core/views.py:70-72 | the first of the month plus 32 days, with the day reset to 1, is the first of the following month, December rolling into January |
| Calendar.MonthWindowIsCalendarMonth | apps/core/views.py:70-78 | an instant lies in the revenue window exactly when it falls in the same calendar month and year as now |
| Settlement.UserWalletPositions | apps/packages/tasks.py:67 | exactly the positions of the payer's `('user', id)` wallets, ascending |
| Settlement.FindUserWallet | apps/packages/tasks.py:67 | the lookup reports a missing wallet exactly when none matches, a duplicate exactly when two match, and otherwise the one matching wallet |
| Settlement.LastOfWallet | apps/packages/tasks.py:81 | the transaction found belongs to the wallet; none is found only when the wallet has no transaction |
| Settlement.Debit | apps/packages/tasks.py:68-87 | only the paying wallet's balance changes, falling by exactly the amount; one completed wallet transaction is appended and recorded on the invoice, which becomes paid by wallet; no invoice key changes; the payer is told; money is conserved |
| Settlement.Settle | apps/packages/tasks.py:63-99 | money is conserved and no catalog table or invoice key changes; a duplicated wallet halts with nothing written; a missing wallet or short balance only tells the payer; a covering balance drops by exactly the amount and the invoice is paid; the payer hears exactly once |
| Invoicing.CreateInvoice | apps/packages/signals.py:50-57 | one pending, unpaid invoice with the charge's key and amount is appended; the key's count rises by one and no other key's changes; the wallets, transactions and notices are untouched |
| Invoicing.IssueAndSettle | apps/packages/signals.py:50-94 | a new invoice with the charge's key and amount is written after the existing ones, which keep their keys and amounts, and settled from the payer's wallet; no money is created or destroyed; on success the payer is told exactly once |
| Invoicing.ExecCharge | apps/packages/tasks.py:55-99 | get-or-create finds a single existing invoice and changes nothing, and raises on a duplicated key; otherwise exactly one invoice with the key is added, and a created invoice carries the charge's key and amount; earlier invoices keep their keys and amounts; an invoice that is not settled moves no money and tells no one; a settled new invoice tells its payer once; money is conserved |
| Invoicing.Exec | apps/packages/tasks.py:23-99 | the steps run in order and an exception keeps what was written before it, earlier invoices keeping their keys and amounts; money is conserved; a finished run issued every step; non-settling runs move no money; settling runs tell one payer per new invoice; create-only and create-and-settle runs add one invoice per step |
| Invoicing.ExecLeavesOneInvoicePerKey | apps/packages/tasks.py:55-61 | after a finished get-or-create run every charge of the run has exactly one invoice, however many steps named its key |
| Invoicing.ExecIsIdempotent | apps/packages/tasks.py:55-63 | running the same get-or-create steps again, at any later instant, writes nothing, moves no money and tells no one |
| Invoicing.ExecRecordsEveryCharge | apps/packages/signals.py:48-57 | a finished create-only or create-and-settle run has written, for every step, an invoice with that charge's key and amount |
| Invoicing.ExecIssuesNewKeyAtItsAmount | apps/packages/tasks.py:55-61 | in a finished get-or-create run, a key no invoice carried before, whose charges in the run all have one amount, ends up with an invoice at that amount |
| MonthlyBilling.ActiveResident | apps/packages/tasks.py:32-41 | a unit with an approved tenant is billed to its first approved tenant; otherwise to its first owner, whatever the owner's status, and to nobody exactly when it has neither |
| MonthlyBilling.RecurringTerms | apps/packages/tasks.py:44-53 | a utilities or fixed package is priced from its own detail row, and has no terms exactly when that row is missing; prepaid and misc have none |
| MonthlyBilling.MonthlyPricing | apps/packages/tasks.py:43-61 | prepaid and misc are skipped and only they; a missing detail row raises; a priced unit's share times the unit count gives back the monthly amount, due on day `min(due_day, 28)` of the billing month; for a valid month a price exists exactly when the due day is at least 1 |
| MonthlyBilling.UnitStep | apps/packages/tasks.py:31-61 | a unit contributes nothing exactly when it has no active resident or the package type is one the job skips; it raises exactly when it is occupied and the package lacks its detail row; an occupied unit of a priced package gets exactly one charge, billed to its active resident at the unit's price; never more than one share of the monthly amount |
| MonthlyBilling.PlanUnits | apps/packages/tasks.py:29-61 | a building's units yield at most one charge each, each billing the active resident of one of those units; every occupied unit of a priced package is charged; the building raises exactly when the package lacks its detail row and one of the units is occupied |
| MonthlyBilling.LinksOf | apps/packages/tasks.py:24 | exactly the links of that package |
| MonthlyBilling.PlanLinks | apps/packages/tasks.py:24-61 | every charge planned for a package's buildings is one the job may issue (a linked building, the active resident of one of its units, the package's monthly price); every occupied unit of every linked building is billed; the package raises exactly when it lacks its detail row and a linked building has an occupied unit |
| MonthlyBilling.Plan | apps/packages/tasks.py:21-61 | every charge of the run is get-or-create and sound in that sense; every occupied unit of every building linked to a recurring package is billed; the run raises exactly when a recurring package without its detail row is linked to a building with an occupied unit |
| MonthlyBilling.Generate | apps/packages/tasks.py:10-99 | the catalog is never written; money only moves between wallets and completed transactions; each invoice created produces exactly one notification; a recurring package without its detail row, linked to a building with an occupied unit, stops the run |
| MonthlyBilling.PlannedChargesAreRecurringMonthly | apps/packages/tasks.py:21-59 | every invoice the job issues is for a recurring utilities or fixed package and falls due on a day from 1 to 28 of the billing month |
| MonthlyBilling.LinkBillsWithinMonthly | apps/packages/tasks.py:44-51 | the invoices a run plans for one package and building never add up to more than the package's monthly amount |
| MonthlyBilling.GenerateIsIdempotent | apps/packages/tasks.py:55-63 | a second run in the same month creates no invoice, moves no money and tells no one |
| MonthlyBilling.OneInvoicePerResidentAndMonth | apps/packages/tasks.py:55-61 | after a finished run every planned charge has exactly one invoice, even for a resident billable in several units, because the key leaves the unit out |
| MonthlyBilling.SharesAddUpToMonthly | apps/packages/tasks.py:46-50 | all of a building's shares together never exceed the monthly amount |
| MonthlyBilling.PlannedKeyIsPricedAlike | apps/packages/tasks.py:44-59 | with distinct package keys, every charge of the run that carries an occupied unit's invoice key is for that unit's share |
| MonthlyBilling.OwedUnitStep | apps/packages/tasks.py:24-61 | an occupied unit of a building linked to a priced recurring package has a step of the run billing it under its key |
| MonthlyBilling.GenerateBillsEveryOwedUnit | apps/packages/tasks.py:21-99 | after a finished run every occupied unit of every building linked to a priced recurring package has exactly one invoice under its key (package, building, active resident, due date); when no invoice had that key before and package keys are distinct, the invoice is for the unit's share |
| CreationBilling.HookTerms | apps/packages/signals.py:32-46 | prepaid is skipped and only prepaid; utilities and fixed fall due on their day, capped at 28, of the start date's month and are priced exactly when that day is at least 1; misc is priced at its total on its deadline exactly when its detail row exists |
| CreationBilling.ResidentCharges | apps/packages/signals.py:48-57 | one invoice per resident, in order, billed to that resident and their user, whose shares multiplied by the resident count give back the package total |
| CreationBilling.BuildingSteps | apps/packages/signals.py:24-57 | a building without residents, or a prepaid package, contributes nothing; a missing detail raises once the building has residents; otherwise the i-th step charges the i-th resident and their user an equal share, which times the resident count gives the total, due on the hook's date and settled by the recurring flag |
| CreationBilling.BuildingStepsAreShares | apps/packages/signals.py:24-57 | every charge for a building is the share of one of its residents, and for a priced package every resident has one |
| CreationBilling.HookPlan | apps/packages/signals.py:24-57 | for a priced package, exactly as many invoices as the linked buildings have residents together; every charge is a resident's share at one of the linked buildings, and every resident of every linked building is charged one; all settled the same way, by the recurring flag; the hook raises exactly when the detail row is missing and a linked building has residents |
| CreationBilling.HookPlanInvoicesEveryResident | apps/packages/signals.py:24-57 | a finished run of the plan leaves every resident of every linked building with an invoice under its key whose amount times the building's resident count is the package total |
| CreationBilling.OnPackageSaved | apps/packages/signals.py:10-94 | later saves, an unlinked package and a prepaid package change nothing; no money is created or destroyed; a non-recurring package moves no money and tells no one; one invoice per resident of each linked building, each resident holding an invoice for its equal share; a missing detail row raises once a linked building has residents; a recurring package tells each payer once per invoice |
| Catalog.HookSeesNoLinks | apps/packages/signals.py:18-23 | the creation hook fires on the bare package row, before any building is linked, so it writes nothing for a package created through the serializer |
| Catalog.BareRow | apps/packages/serializers.py:51 | the first row written carries the submitted columns, a key above every existing package and no detail row |
| Catalog.CreatePackage | apps/packages/serializers.py:48-63 | the package row is always appended with a fresh key, whatever follows; the catalog tables other than packages never change; with intact links the call succeeds exactly when a usable detail of the package's own type is given, and then the package holds exactly that detail; a failed detail leaves the package behind without one |
| Catalog.CreateHook | apps/packages/signals.py:10-23 | the hook on the freshly written row never touches the catalog, and with intact links writes nothing at all |
| Catalog.WithDetail | apps/packages/serializers.py:52-63 | a package without details gains exactly the submitted detail of its own type and keeps every other column |
| Catalog.DetailAmount | apps/buildings/serializers.py:59-83 | the amount shown is the monthly amount for fixed and utilities, the average monthly charge for prepaid and the total for misc, and nothing when the detail row is missing |
| Catalog.LinksTo | apps/buildings/serializers.py:51 | exactly the package links of that building |
| Catalog.Entries | apps/buildings/serializers.py:57-93 | one entry per link, in link order, each naming the linked package and showing the package the lookup finds for that link |
| Catalog.BuildingPackages | apps/buildings/serializers.py:56-94 | as many entries as the building has links; each one is a stored package linked to that building, shown with its own amount; every link of the building shows its package |
| Catalog.EntriesAreLinked | apps/buildings/serializers.py:55-93 | every entry of the summary is a stored package linked to the building |
| Catalog.LinksAreShown | apps/buildings/serializers.py:55-93 | every link of the building shows up in the summary with its package's entry |
| Catalog.PackagesCount | apps/buildings/serializers.py:49-51 | the count is at most the number of links, and zero exactly when no link names the building |
| Catalog.PackagesCountIsListLength | apps/buildings/serializers.py:49-94 | the package count the serializer reports equals the length of the package list it reports |
| Catalog.FindUser | apps/buildings/serializers.py:47 | finds a stored user with that key, or shows that there is none |
| Catalog.UnionHeadName | apps/buildings/serializers.py:46-47 | no name without a head; a name shown is the head's full name; a head that exists always gets a name |
| Catalog.BuildingResidents | apps/buildings/serializers.py:18-44 | the listed profiles are exactly the building's profiles, whatever their status, each with exactly its paid invoices |
| LegacyBilling.DueDate | apps/core/tasks.py:34 | as written the due date exists exactly when the package's day exists in the current month, and is that day; clamped to 28 it exists exactly when the day is at least 1; either way it lies in the current month |
| LegacyBilling.ResidentBills | apps/core/tasks.py:27-36 | one bill per resident, in order, each billed to that resident and their user for the monthly amount over the resident count |
| LegacyBilling.PackageSteps | apps/core/tasks.py:24-36 | a building without residents issues nothing and never raises; an impossible date raises at the first resident; otherwise one bill per resident |
| LegacyBilling.PlanPackageBills | apps/core/tasks.py:22-36 | every bill planned is one the source would issue (an active package, a resident of its building, the equal share and the rule's due date); every resident of an active package's building is billed its share; the plan raises exactly when an active package with residents has no due date |
| LegacyBilling.PlanBills | apps/core/tasks.py:22-36 | every bill of the run is sound in that sense; every resident of every active package's building is billed its share on the rule's due date; the run raises exactly when an active package with residents has no due date |
| LegacyBilling.CreateInstance | apps/core/tasks.py:31-36 | one pending instance with the bill's key and amount is appended and the key's count rises by one; wallets, payments and notices are untouched |
| LegacyBilling.SettleInstance | apps/core/tasks.py:38-75 | money is conserved; several wallets for the resident make `get` raise with nothing changed; no wallet leaves the instance pending and tells the resident; a covering balance is debited by the share, records a paid payment, marks the instance paid and tells the resident; a short balance marks it unpaid, moves no money and tells the resident |
| LegacyBilling.RunBill | apps/core/tasks.py:31-75 | get-or-create: an existing single instance changes nothing, a duplicated key raises, otherwise exactly one instance is added and settled; money is conserved and each new instance tells its resident once |
| LegacyBilling.RunBills | apps/core/tasks.py:24-75 | the bills run in order and an exception keeps what was written before it; money is conserved; each instance created tells its resident exactly once |
| LegacyBilling.Run | apps/core/tasks.py:12-75 | the whole job conserves money and tells one resident per instance it creates; an active package with residents and no due date stops it |
| LegacyBilling.RunIsIdempotent | apps/core/tasks.py:31-38 | a second run in the same month issues nothing, moves no money and tells no one |
| LegacyBilling.PackageStepsComplete | apps/core/tasks.py:24-36 | every resident of an active package's building has its share among that package's steps |
| LegacyBilling.RunBillsEveryResident | apps/core/tasks.py:22-38 | after a finished run every resident of every active package's building has exactly one instance under its key for the month |
| LegacyBilling.UnclampedDayRaisesInFebruary | apps/core/tasks.py:34 | as written, a package due on the 30th stops a February run at its first resident with nothing issued, where the clamped date issues its invoice |
| LegacyBilling.ClampedPlanNeverRaises | apps/core/tasks.py:34 | with the day clamped to 28, no step of a run on a valid date raises for packages whose due day is at least 1 |
| RentalSweep.Retire | apps/core/tasks.py:98-100 | a swept tenant becomes inactive and absent, and keeps every other column |
| RentalSweep.TenantNotices | apps/core/tasks.py:107-120 | a swept tenant is always told, and the building's union head is told as well exactly when the unit, the building and a head exist |
| RentalSweep.TenantNoticesEnded | apps/core/tasks.py:108-112 | exactly one rental-ended notice per swept tenant, addressed to that tenant |
| RentalSweep.SweepNotices | apps/core/tasks.py:95-120 | one rental-ended notice per swept tenant and one unit-freed notice per swept tenant with a head; each rental-ended notice goes to a swept tenant and every swept tenant gets one |
| RentalSweep.RetireExpired | apps/core/tasks.py:89-100 | nobody is left whom the filter matches; each approved tenant whose end date is before today becomes inactive and absent and keeps every other column; every other profile is unchanged |
| RentalSweep.FreedUnits | apps/core/tasks.py:103-105 | a unit is freed exactly when a swept tenant occupies it |
| RentalSweep.FreeUnits | apps/core/tasks.py:103-105 | the listed units become available and keep every other column; every other unit is unchanged |
| RentalSweep.FreeUnitsIsIdempotent | apps/core/tasks.py:102-105 | freeing the same units a second time changes nothing |
| RentalSweep.Sweep | apps/core/tasks.py:78-120 | exactly the expired tenants are retired, exactly their units become available, one notice is sent per swept tenant and one per swept tenant with a union head, every swept tenant is told, and no other table changes |
| RentalSweep.SweepIsIdempotent | apps/core/tasks.py:89-100 | a second sweep on the same day changes nothing and tells nobody |
| Rentals.CreateListing | apps/rentals/serializers.py:65-75 | 400 with nothing written exactly when the unit or building is missing or unknown or no price is given; a drawn key already in use is a 500; otherwise one available listing owned by the caller, with the given prices and no tenant, is appended |
| Rentals.FindAvailable | apps/rentals/serializers.py:83 | the first listing with that key that is available, or none exactly when no such listing exists |
| Rentals.RequestRental | apps/rentals/views.py:79-92 | it succeeds exactly when the key names an available listing with no tenant; the caller then becomes its prospective tenant and only that listing changes; a failure changes nothing; listing consistency is preserved |
| Rentals.FindRequested | apps/rentals/serializers.py:97 | the first available, requested listing with that key, or none exactly when no such listing exists |
| Rentals.DecideRental | apps/rentals/views.py:94-116 | it succeeds exactly when the action is approve or reject and the key names an available, requested listing with a tenant; approval rents it to that tenant and rejection clears the tenant; a failure changes nothing; listing consistency is preserved |
| Rentals.RequestThenApprove | apps/rentals/views.py:79-116 | a request followed by an approval leaves the listing rented to the requester |
| Rentals.RentedIsFinal | apps/rentals/serializers.py:81-101 | a rented listing can be neither requested nor decided again |
| Rentals.RejectedCanBeRequestedAgain | apps/rentals/views.py:109-111 | after a rejection another resident can request the same listing |
| Rentals.ListingRoles | apps/rentals/views.py:27-38 | the roles are the assigned ones plus `resident` for anyone with a profile and `union_head` for the head of a building that has a listing |
| Rentals.VisibleListings | apps/rentals/views.py:25-65 | staff see every listing; anyone else sees exactly the listings in buildings they head, in their first profile's building, or owned by them |
| Rentals.RolesDoNotMatter | apps/rentals/views.py:25-65 | for a caller who is not staff, the role list never changes the result: a listing is shown exactly when they head its building, live in it, or own it |
| Rentals.MyListings | apps/rentals/views.py:70-77 | exactly the caller's own listings |
| Rentals.CreatedListingIsMine | apps/rentals/views.py:67-77 | a listing just created is among its creator's listings |
| BuildingViews.ListBuildingsAsWritten | apps/buildings/views.py:28-37 | as written the building list never narrows: whatever the caller's roles, the answer is every building |
| BuildingViews.ListBuildings | apps/buildings/views.py:28-37 | as intended: a union head is shown exactly the buildings they head, any other caller every building |
| BuildingViews.UnionHeadSeesOthersBuildings | apps/buildings/views.py:28-37 | a concrete union head is shown, by the code as written, a building another user heads, which the intended list withholds |
| BuildingViews.AcceptRequest | apps/buildings/views.py:57-89 | 404 exactly when the building is missing, no request id is given or no pending profile with that id lives in the building; on success an `accept` or `reject` changes that one profile's status and adds one notice to its user, any other action changes nothing |
| BuildingViews.DecisionIsFinal | apps/buildings/views.py:57-89 | once a request is accepted or rejected it is no longer pending: deciding it again is a 404 that changes nothing |
| BuildingViews.AcceptedTenantIsNeitherBilledNorSwept | apps/buildings/views.py:66-68 | the status `accepted` written by the approval is not the `approved` that monthly billing and the rental sweep look for: an accepted tenant alone in their unit leaves it unbilled and is never swept |
| BuildingViews.MyBuildings | apps/buildings/views.py:127-160 | refused unless `union_head` is among the caller's flattened role names; otherwise exactly the buildings the caller heads |
| BuildingViews.HeadWithoutRoleRowIsRefused | apps/buildings/views.py:126-152 | a building's head who is neither staff nor superuser and holds no stored role row is refused by the single-role permission class the action names, and would be refused by the view's own role check as well |
| BuildingViews.FormRegisteredHeadIsAdmitted | apps/buildings/views.py:137-151 | a `union_head` role stored as a list's text, as the form registration stores it, is still recognised after flattening |
| BuildingViews.PaidInvoicesOf | apps/buildings/views.py:183-186 | exactly the paid invoices billed to that resident profile |
| BuildingViews.Records | apps/buildings/views.py:181-201 | one record per resident, in order, each pairing the profile with its paid invoices |
| BuildingViews.AcceptedResidents | apps/buildings/views.py:163-203 | 404 exactly when the building is missing, 403 exactly when the caller is not its head; otherwise the listed profiles are exactly the building's accepted residents, each with exactly its paid invoices |
| BuildingViews.AcceptedRequestIsListed | apps/buildings/views.py:57-89 | a request the building's head accepts then appears among the building's accepted residents |
| PackageViews.PackagesOf | apps/packages/views.py:51 | a package is listed exactly when it is in the table and linked to the building |
| PackageViews.PackagesOfAny | apps/packages/views.py:70 | a package is listed exactly when it is linked to at least one of the given buildings |
| PackageViews.FirstProfileBuilding | apps/packages/views.py:45-47 | as intended: the building found belongs to one of the caller's profiles; without a profile there is none |
| PackageViews.Visible | apps/packages/views.py:21-77 | as intended: residents see only their first profile's building (nothing when a different key is given or the profile has no building); union heads see only packages linked to buildings they head; anyone else sees every package unless a key is given; only that last branch parses the key, and it raises exactly when the key is not all digits |
| PackageViews.HeadNamingOwnBuilding | apps/packages/views.py:61-66 | a union head who names one of their own buildings gets exactly that building's packages |
| PackageViews.PaddedKeyNamesSameBuilding | apps/packages/views.py:72-75 | in the unrestricted branch a zero-padded key names the same building as the plain key |
| PackageViews.VisibleAsWritten | apps/packages/views.py:42-58 | as written every resident gets no packages, because the undeclared `user.resident_profiles` raises inside the bare `except`; every other caller gets the intended listing |
| PackageViews.ResidentSeesNoPackagesAsWritten | apps/packages/views.py:42-58 | a resident whose building has a linked package is shown it by the intended query and nothing as written |
| PackageViews.AddLinks | apps/packages/views.py:105-106 | linking succeeds exactly when every id names an existing building that is not yet linked and no id repeats; it then appends one link per id in order; in every case only the link table changes, and existing links are kept |
| PackageViews.Distinct | apps/packages/views.py:207-210 | the union heads are de-duplicated: same members, no repeats |
| PackageViews.HeadsOfLinks | apps/packages/views.py:208-210 | a user is collected exactly when they head the building of some link |
| PackageViews.LinkedProfiles | apps/packages/views.py:178-179 | a profile is collected exactly when its unit lies in a linked building |
| PackageViews.ResidentNotices | apps/packages/views.py:197-204 | every resident of a linked building gets a package announcement, and nobody else does |
| PackageViews.HeadNotices | apps/packages/views.py:206-217 | each union head of a linked building gets exactly one announcement, and nobody else does |
| PackageViews.Announce | apps/packages/views.py:172-220 | only notices are appended; each new one announces the package to a resident or union head of a linked building, and each such resident and head is told |
| PackageViews.AnnouncementReachesLinkedBuildings | apps/packages/views.py:176-217 | every announcement sent goes to a resident or union head of a building the package is linked to |
| PackageViews.PackageLinks | apps/packages/views.py:178 | the links collected are exactly those of the package |
| PackageViews.PersonalTerms | apps/packages/views.py:124-136 | amount and due date come from the first detail present, in the order utility, prepaid, fixed, misc; misc falls due on its deadline and the others on the start date; a package without details has amount zero |
| PackageViews.PersonalAmountIsShownAmount | apps/packages/views.py:124-136 | when a package has only the detail of its own type, the personal invoice amount equals the amount the building serializer shows for it |
| PackageViews.PersonalInvoice | apps/packages/views.py:110-154 | the request is rejected, with nothing written, unless the caller has a profile in a building and the amount is positive; otherwise one pending invoice for that profile's building, amount and due date is appended, plus one notice to the caller, and the catalog, wallets and transactions are untouched |
| PackageViews.LinkAndAnnounce | apps/packages/views.py:99-108 | an empty building list is a 400 with nothing written; it succeeds exactly when the list is linkable, and then appends those links; invoices, packages and profiles are never touched |
| PackageViews.PerformCreate | apps/packages/views.py:79-156 | the new package row stays whatever follows; a missing detail ends in 500; a union head or staff member links buildings and never gets an invoice; a plain resident gets one positive invoice and no links; anyone else writes only the package |
| PackageViews.InvoiceHistory | apps/packages/views.py:232-271 | as intended: a resident sees exactly their own invoices; a union head who is not a resident sees exactly the invoices of buildings they head; anyone else sees nothing; newest first |
| PackageViews.NewestFirst | apps/packages/views.py:258 | the filtered invoices in strictly descending creation order |
| PackageViews.ResidentBranchWins | apps/packages/views.py:255-263 | a caller who is both resident and union head does not see another resident's invoice of a building they head |
| PackageViews.InvoiceHistoryAsWritten | apps/packages/views.py:255-258 | as written the reply is a 500 exactly for residents, because nothing catches the AttributeError of `user.resident_profiles`; every other caller gets the intended history |
| PackageViews.ResidentHistoryFailsAsWritten | apps/packages/views.py:255-258 | a resident with an invoice of their own sees it in the intended history and gets a 500 as written |
| Maintenance.FindRequest | apps/maintenance/views.py:67 | finds the position of the request with that key, or shows there is none (the 404) |
| Maintenance.FirstResident | apps/maintenance/views.py:82-84 | the user of the lowest-keyed profile whose unit lies in the building, and none exactly when the building has no profile |
| Maintenance.FirstUserWallet | apps/payments/models.py:4-7 | the position of the first wallet owned by that user, and none exactly when the user owns no wallet |
| Maintenance.FileRequest | apps/maintenance/views.py:29-51 | 400, changing nothing, exactly when the building is missing or unknown, the description is empty once stripped or holds a NUL character, or the caller has no profile; otherwise one pending, free, unassigned request of the caller's first profile, with the stripped description, is appended with a fresh key; a building without a head then raises, else the head and the caller are told, in that order; only requests and notices change |
| Maintenance.AllRequests | apps/maintenance/views.py:144-149 | exactly the requests of the buildings the caller heads |
| Maintenance.FiledRequestReachesHead | apps/maintenance/views.py:29-149 | a request filed in a headed building appears in its head's list of requests |
| Maintenance.ParseStatus | apps/maintenance/views.py:70-71 | exactly `in_progress`, `completed` and `rejected` are accepted, each as its own status, and a request is never set back to pending |
| Maintenance.Start | apps/maintenance/views.py:87-98 | the request becomes in progress; the building's resident, if any, is told, then the head, and a missing head raises after the save |
| Maintenance.Reject | apps/maintenance/views.py:127-139 | the request becomes rejected; the head is told, then the resident, if any, and a missing head raises before the resident hears |
| Maintenance.Complete | apps/maintenance/views.py:100-125 | the request is saved completed; a covering wallet pays exactly the cost and no other wallet changes, then the resident and the head are told; a short or missing wallet is a 400 that tells only the resident and moves no money; with nobody in the building no one pays and only the head is told |
| Maintenance.Apply | apps/maintenance/views.py:73-141 | the status is saved first; only completion can touch a wallet; a 200 always told the building's head of the matching event |
| Maintenance.UpdateStatusAsWritten | apps/maintenance/views.py:66-141 | as written: 404 exactly when the request is missing, 400 with nothing changed for any other status, and the branch for the status always runs with no wallet found |
| Maintenance.CompletionNeverPaysAsWritten | apps/maintenance/views.py:100-120 | as written, completing a request in an occupied building answers 400, moves no money, and still leaves the request completed |
| Maintenance.UpdateStatus | apps/maintenance/views.py:66-141 | as intended: a covering wallet of the resident pays exactly the cost and the request is completed, with no other wallet touched; a shortfall leaves the request and every wallet as they were and tells the resident |
| Maintenance.CompletedMeansPaid | apps/maintenance/views.py:100-120 | with the correction, a request in an occupied building ends completed only if the resident's wallet was debited by its cost |
| Commands.KeptProfiles | apps/accounts/management/commands/cleanup_rejected_profiles.py:12-15 | the surviving profiles are exactly those not rejected more than fifteen days ago; when none qualifies the table is untouched |
| Commands.KeptInvoices | apps/packages/models.py:89 | the package invoices that survive the cascade are exactly those not billed to a deleted profile, and at least one goes whenever one was billed to a deleted profile |
| Commands.KeptRequests | apps/maintenance/models.py:7 | the maintenance requests that survive the cascade are exactly those not filed by a deleted profile |
| Commands.Purge | apps/accounts/management/commands/cleanup_rejected_profiles.py:11-15 | deletes the profiles rejected more than fifteen days ago, cascades to their invoices and maintenance requests, and leaves every other table as it was |
| Commands.CleanupAsWritten | apps/accounts/management/commands/cleanup_rejected_profiles.py:12-17 | as written the reported count is the total of rows deleted: the profiles, their package invoices and maintenance requests, and the maintenance invoices of those requests (apps/maintenance/models.py:19-20) |
| Commands.Cleanup | apps/accounts/management/commands/cleanup_rejected_profiles.py:11-18 | as intended: the same deletion, reporting the number of profiles deleted |
| Commands.CascadeInflatesCount | apps/accounts/management/commands/cleanup_rejected_profiles.py:12-17 | one expired profile that owes one package invoice makes the count as written exceed the profiles deleted |
| Commands.MaintenanceInvoiceCounted | apps/maintenance/models.py:19-20 | a deleted maintenance request that was invoiced adds itself and its invoice to the count as written, two more than the profiles deleted |
| Commands.CleanupCountsExpired | apps/accounts/management/commands/cleanup_rejected_profiles.py:8-17 | the corrected count is exactly the number of profiles rejected more than fifteen days ago |
| Commands.CleanupIdempotent | apps/accounts/management/commands/cleanup_rejected_profiles.py:11-15 | a second cleanup straight after the first deletes nothing and changes nothing |
| Commands.ApiRejectionsAreNeverCleaned | apps/accounts/management/commands/cleanup_rejected_profiles.py:12-15 | a profile rejected through the join-request view carries no rejection time, so the cleanup never deletes it |
| Commands.Grant | apps/accounts/management/commands/sync_user_roles.py:16-19 | granting a role only appends rows; afterwards every listed user holds the role; no row is added for anyone else; no duplicate row appears; when every user already held it nothing changes |
| Commands.ProfileUsers | apps/accounts/management/commands/sync_user_roles.py:15-17 | exactly the users who own a resident profile |
| Commands.HeadUsers | apps/accounts/management/commands/sync_user_roles.py:23-25 | exactly the users who head some building |
| Commands.SyncUserRoles | apps/accounts/management/commands/sync_user_roles.py:9-30 | the role tables stay well formed and only grow by appending; every profile owner holds `resident` and every building head holds `union_head`; nobody else gains a row; every other table is unchanged |
| Commands.TwoGrants | apps/accounts/management/commands/sync_user_roles.py:14-28 | the two passes together only append, only rows for users of either pass, and never a duplicate |
| Commands.SyncOnlyAdds | apps/accounts/management/commands/sync_user_roles.py:9-30 | the sync never takes a role away: every role name a user held before, they still hold |
| Commands.EnsurePresent | apps/accounts/management/commands/sync_user_roles.py:11-12 | with both roles already stored, the two `get_or_create` calls change nothing |
| Commands.SyncIdempotent | apps/accounts/management/commands/sync_user_roles.py:9-30 | running the sync a second time changes nothing |
| Commands.ApproveOneAsWritten | apps/buildings/management/commands/approve_buildings.py:15-19 | as written only the status changes: a pending building becomes approved and keeps its head and approver, because the assignments name attributes that are not the declared `union_head_id` and `approved_by_id` fields; any other building is untouched |
| Commands.ApproveOne | apps/buildings/management/commands/approve_buildings.py:15-19 | as intended: a pending building becomes approved, approved by the admin and headed by the admin; any other building is untouched |
| Commands.PendingCount | apps/buildings/management/commands/approve_buildings.py:14 | zero exactly when no building is pending, never more than the number of buildings |
| Commands.ApproveBuildingsAsWritten | apps/buildings/management/commands/approve_buildings.py:8-21 | as written: nothing happens exactly when no user has the admin address; otherwise every pending building becomes approved and keeps everything else, the count is the number that were pending, none is pending afterwards, and every user heads exactly the buildings they headed before |
| Commands.ApproveBuildings | apps/buildings/management/commands/approve_buildings.py:8-21 | as intended: nothing happens exactly when no user has the admin address; otherwise the first such user approves and heads every pending building, other buildings and tables are untouched, the count is the number that were pending, and none is pending afterwards |
| Commands.ApproveIdempotent | apps/buildings/management/commands/approve_buildings.py:8-21 | a second run approves nothing and changes nothing |
| Commands.StatusOnlyKeepsHeads | apps/buildings/management/commands/approve_buildings.py:15-19 | rewriting buildings without changing their keys or heads leaves every user heading the same buildings |
| Commands.ApprovedBuildingGetsNoHead | apps/buildings/management/commands/approve_buildings.py:14-19 | an admin user and one pending building without a head: as written the building is approved but the admin heads nothing and it has no approver, while the corrected command makes the admin its head |
| Permissions.Allows | core/permissions.py:12-43 | anonymous callers are refused and staff admitted; anyone signed in may read and post notifications; a union head, by role or by heading a building, passes every view; otherwise a technician passes exactly the maintenance and notification views, and a resident who is not a technician exactly the list, retrieve and create actions |
| Permissions.AllowsObject | core/permissions.py:45-81 | staff always pass; a resident is judged by owning the object whenever it has a resident; then a technician by assignment; then a union head by the object's head, or for a package by heading one of its linked buildings; nothing else passes |
| Permissions.TechnicianShadowsResident | core/permissions.py:37-42 | a technician who also holds a profile cannot list packages, although the resident rule would allow it |
| Permissions.ResidentRuleShadowsHeadship | core/permissions.py:64-72 | a resident who also heads the building is refused another resident's object that names them as union head |
| Permissions.AllowsByRole | apps/core/permissions.py:12-28 | with a single role: a resident passes the list, retrieve and create actions, a technician the maintenance request views, a union head everything, staff everything, and no one else anything |
| Permissions.AllowsObjectByRole | apps/core/permissions.py:30-46 | with a single role: staff pass; otherwise passing means owning the object as resident, being assigned to it as technician, or heading its building as union head, and each of those passes |
| Permissions.SingleRoleVariantAdmitsOnlyStaff | apps/core/permissions.py:20-59 | the User model has no role attribute, so the single-role class admits exactly staff and the legacy role classes refuse everyone, while the role-list class admits any building's head |
| Roles.RoleName | apps/accounts/models.py:23 | the name found belongs to a role row with that key; no name means no row has the key |
| Roles.RoleNameOfRow | apps/accounts/models.py:23 | with unique keys, a row's key leads back to that row's name |
| Roles.AssignedRoles | apps/accounts/models.py:20-23 | a name is reported exactly when one of the user's role rows points at a role of that name; never more names than rows |
| Roles.AssignedRolesAppend | apps/accounts/models.py:23 | the names of appended rows come after the names of the earlier rows |
| Roles.AssignedRolesUnique | apps/accounts/models.py:20-23 | with the tables' uniqueness constraints, a user's role names never repeat |
| Roles.AddIfMissing | apps/accounts/serializers.py:80-85 | the name is added at the end when the condition holds and it is absent; the existing names keep their order; no duplicate is introduced |
| Roles.EffectiveRoles | apps/accounts/serializers.py:75-87 | the reported roles are the assigned ones, in order, plus `resident` when the user has a profile and `union_head` when the user heads a building; at most two are added |
| Roles.EffectiveRolesUnique | apps/accounts/serializers.py:75-87 | the reported roles never repeat |
| Roles.NormalizeRoles | apps/accounts/views/auth.py:43-52 | a list is stringified element by element; JSON text decoding to a list gives that list's strings; any other value becomes a one-element list; text that fails to decode is kept whole |
| Roles.NormalizeNames | apps/accounts/views/auth.py:43-52 | normalising a list of names, or JSON text of such a list, gives the names back |
| Roles.StringListField | apps/accounts/serializers.py:17-20 | the field accepts exactly lists and stores each item's string form |
| Roles.StoredRoleNames | apps/accounts/serializers.py:17-20 | a JSON body stores the names as sent; a form body stores the single repr of the nested list |
| Roles.ParseStringListRepr | apps/buildings/views.py:140-145 | the repr of a list of names without quotes or backslashes parses back to the names |
| Roles.FlattenRole | apps/buildings/views.py:139-149 | a role that is not bracketed is kept as is; a bracketed role that does not parse as a list is stripped of brackets and quotes |
| Roles.FlattenRoles | apps/buildings/views.py:138-149 | every role that is not bracketed survives flattening |
| Roles.FlattenStoredRoles | apps/buildings/views.py:137-149 | however the names were stored, by a JSON body or as a form list's repr, flattening recovers exactly the names |
| Roles.EnsureRoles | apps/accounts/serializers.py:59-62 | every requested name has a role row afterwards; existing rows are kept in place and keys and names stay unique |
| Roles.AddRole | apps/accounts/serializers.py:61 | get-or-create: afterwards a row of that name exists, existing rows are kept, and keys and names stay unique |
| Roles.CreateUserRoles | apps/accounts/serializers.py:67-68 | all creates succeed exactly when no id repeats and no pair exists yet, and then one row per id is appended in order; in every case earlier rows are kept and new rows belong to the user |
| Roles.IdsForFacts | apps/accounts/serializers.py:59-62 | distinct names resolve to distinct role ids, and each id names its role |
| Roles.DropUser | apps/accounts/serializers.py:66 | exactly the rows of other users remain |
| Roles.OthersUnchanged | apps/accounts/serializers.py:59-68 | removing one user's rows and adding roles leaves every other user's role names unchanged |
| Roles.ReplaceRoles | apps/accounts/serializers.py:59-68 | replacement succeeds exactly when no name repeats, and the user then holds exactly the given names in order; existing roles keep their rows; every other user's roles and all other tables are unchanged |
| Accounts.CleanPassword | apps/accounts/serializers.py:25-34 | the field value is accepted exactly when the stripped text holds no NUL character, has at least 8 characters and the four look-aheads succeed from its start; the accepted value is the stripped text and satisfies the policy |
| Accounts.CheckPolicy | apps/accounts/serializers.py:27-33 | a one-pass scan answers true exactly when both validators accept the text |
| Accounts.TailIsUnconstrained | apps/accounts/serializers.py:30 | the pattern is not anchored at the end: anything appended to an accepted password is accepted too |
| Accounts.OnlyTheFirstLineCounts | apps/accounts/serializers.py:30 | `.*` stops at a line break, so after a newline the four classes no longer count: the text is accepted iff it is long enough and its first line matches |
| Accounts.FreshCodeIsValid | apps/accounts/models.py:83-84 | an unused code is valid at the instant it is created |
| Accounts.CodeExpiresAfterTenMinutes | apps/accounts/models.py:83-84 | a code is no longer valid exactly ten minutes after its creation |
| Accounts.CodeValidWithinWindow | apps/accounts/models.py:83-84 | at any instant a code is valid exactly when it is unused and that instant is less than ten minutes after its creation |
| Accounts.CodeValidForSixHundredSeconds | apps/accounts/models.py:83-84 | `s` seconds after its creation, for any `s` up to a day, a code is valid exactly when it is unused and `s` is below 600 |
| Calendar.MinusBeforeIffBeforePlus | apps/accounts/models.py:84 | for valid instants, `now - s < t` exactly when `now < t + s`, for any shift up to a day |
| PyText.CleanCharField | apps/accounts/serializers.py:25-34 | the framework's character field strips white space and then refuses an empty value or one holding a NUL character; a value it keeps is the stripped text, non-empty, with no white space at either end |
| Accounts.UserByEmail | apps/accounts/views/auth.py:174-177 | the lookup finds a user whose e-mail is the one given, and finds none exactly when no user has it |
| Accounts.CodeText | apps/accounts/views/auth.py:180 | `str(randint(100000, 999999))` is six decimal digits that read back as the drawn number |
| Accounts.RequestReset | apps/accounts/views/auth.py:172-189 | 400 and no change exactly for an unknown e-mail; otherwise exactly one new unused code for that user, stamped now, with a fresh key, whose digits read as the draw |
| Accounts.FirstUnusedCode | apps/accounts/views/auth.py:209-213 | the first code of that user with those digits that is unused, or none exactly when no such code exists |
| Accounts.ConfirmReset | apps/accounts/views/auth.py:198-227 | 404 exactly for an unknown e-mail; 200 exactly when the first unused matching code is still valid, and then only that user's password and that code's used flag change; no change otherwise |
| Accounts.RequestThenConfirm | apps/accounts/views/auth.py:172-227 | a code just sent works at once, provided no older unused code with the same digits exists |
| Accounts.CodeWorksOnce | apps/accounts/views/auth.py:209-224 | after a successful confirmation the same code is refused (400) when that user holds no second copy of it |
| Accounts.ChangePassword | apps/accounts/views/auth.py:235-247 | 200 exactly when an old password is given and matches the stored one, and then only that user's password changes; 400 changes nothing |
| Accounts.ResetIgnoresPolicy | apps/accounts/views/auth.py:198-227 | a password reset accepts a new password that registration would refuse, and stores it |
| Registration.RoleInput | apps/accounts/views/auth.py:43-62 | the names the view looks for: the normalised `roles` when sent; else the strings of a JSON `role_names` list; for a form body, those of `union_head`, `resident` and `technician` that occur in the text of the last value sent; without either field, none |
| Registration.SerializerRoleNames | apps/accounts/serializers.py:17-20 | the stored names: the normalised `roles` (or its repr for a form) when sent, else the client's `role_names` stringified item by item, else none; refused exactly when a JSON `role_names` is not a list |
| Registration.TextItems | apps/accounts/views/auth.py:62 | a name is found exactly when the list holds that string |
| Registration.NewUser | apps/accounts/serializers.py:46-56 | the new account's username is its e-mail, it is neither staff nor superuser, and its password is the accepted one and meets the policy |
| Registration.AddWallet | apps/accounts/views/auth.py:93 | exactly one empty wallet with the given owner is appended, under a fresh key; nothing else changes |
| Registration.AsCount | apps/accounts/views/auth.py:86-88 | a count is stored exactly when it is a non-negative integer or a non-empty digit string, with that value; none or a list is refused |
| Registration.Address | apps/accounts/views/auth.py:74-80 | the address is never empty: the placeholder when every part is empty, otherwise the non-empty parts joined by spaces and stripped, or the placeholder |
| Registration.AddressOfCleanParts | apps/accounts/views/auth.py:74-80 | parts without surrounding white space join with single spaces, unchanged by the strip |
| Registration.NewBuildingId | apps/accounts/views/auth.py:82 | the new building's key differs from every existing building's |
| Registration.HeadBuilding | apps/accounts/views/auth.py:82-90 | the building is headed by the new user, approved, named after the form, uses the joined address and defaults to the basic plan |
| Registration.ProvisionHead | apps/accounts/views/auth.py:64-96 | a missing building field stops with 400 and a count that cannot be stored with 500, changing nothing; otherwise it adds exactly one building and two empty wallets, first for the head and then for the building |
| Registration.ResidentTypeOf | apps/accounts/views/auth.py:108 | no type, or `owner`, means owner; `tenant` means tenant |
| Registration.ProvisionResident | apps/accounts/views/auth.py:101-115 | exactly one active, present profile for the user, without a unit and keeping the owner's national id only for tenants, plus one empty `('user', id)` wallet; nothing else changes |
| Registration.NewUserId | apps/accounts/views/auth.py:56 | the new user's key differs from every existing user's |
| Registration.Register | apps/accounts/views/auth.py:39-134 | invalid input, including a JSON `role_names` that is not a list, is a 400 that changes nothing, and a username clash a 500 that changes nothing; past validation the user row stays whatever follows; a union head without building fields still gets 400; on success the user holds exactly the names the serializer kept and the wallets are appended in role order, all empty |
| Registration.Provision | apps/accounts/views/auth.py:58-134 | for the names the view looks for, it fails exactly when `union_head` is among them and a building field is missing, changing nothing; on success it adds the head's, the resident's and the technician's wallets in that order and one profile per resident |
| Registration.ProvisionMembers | apps/accounts/views/auth.py:101-132 | one `('user', id)` wallet for a resident and another for a technician, and one profile for a resident; users and roles untouched |
| Registration.AppendStages | apps/accounts/views/auth.py:58-134 | two rounds of appended empty wallets compose into one |
| Registration.HeadWithoutBuildingKeepsAccount | apps/accounts/views/auth.py:56-72 | a union head who leaves out the building fields is told 400, yet the account stays, with no building and no wallet |
| Registration.ResidentTechnicianWalletsClash | apps/accounts/views/auth.py:115-132 | signing up as both resident and technician yields two `('user', id)` wallets, after which settling any invoice for that user halts |
| Registration.FormTechnicianLacksRole | apps/accounts/serializers.py:17-20 | a technician who signs up through the `roles` field of a form body gets a wallet, but the stored role is the list's repr and not `technician` |
| Registration.RoleNamesAloneAreHonoured | apps/accounts/serializers.py:36 | a JSON list sent as `role_names` without `roles` is stored as sent, and the view looks for exactly those names |
| Registration.RoleNamesUnionHeadIsProvisioned | apps/accounts/views/auth.py:58-96 | a union head named only through `role_names` holds the role and gets the head's and the building's wallets |
| Registration.NonListRoleNamesRefused | apps/accounts/serializers.py:17-20 | a JSON `role_names` that is not a list is a 400 that changes nothing |
| Registration.FormRoleNamesTestLastValue | apps/accounts/views/auth.py:58-62 | a form body sending `role_names` as `resident` then `x` stores both names, yet the view finds none of the names it looks for, so no profile and no wallet follow |
| Dashboard.RevenueOfNewTransaction | apps/core/views.py:74-80 | a new transaction raises the monthly revenue by its amount exactly when it is a completed payment into a wallet of one of the caller's buildings, dated in the current calendar month, and leaves it alone otherwise |
| Dashboard.AcceptedProfiles | apps/core/views.py:59-62 | exactly the accepted profiles whose unit lies in one of the caller's buildings |
| Dashboard.LinkedPackages | apps/core/views.py:65-67 | exactly the packages linked to one of the caller's buildings, each once |
| Dashboard.DashboardStats | apps/core/views.py:41-91 | 403 exactly when the caller neither holds `union_head` nor heads a building; otherwise every count is bounded by its table and the pending-maintenance figure is the constant 0 |
| Dashboard.RoleWithoutBuildingsSeesZeros | apps/core/views.py:47-91 | a caller let in by the role alone, heading no building, sees every figure at zero |
| Dashboard.NewProfileCountsOnceAccepted | apps/core/views.py:59-62 | a new profile raises the resident figure by one exactly when it is accepted into one of the caller's buildings |
| Dashboard.SecondLinkCountsNothing | apps/core/views.py:65-67 | the package figure counts packages, not links: linking an already counted package to another of the caller's buildings leaves it unchanged |
| Dashboard.Insert | apps/core/views.py:187 | inserting into a newest-first list keeps it newest first, a permutation of the list plus the new entry, with one more entry of the new entry's kind and no other count changed |
| Dashboard.InsertPlace | apps/core/views.py:187 | the new entry lands after every strictly later entry and before the first entry that is not later, and the rest keep their order, so the sort is stable for equal timestamps as Python's is |
| Dashboard.SortDesc | apps/core/views.py:187 | the sort returns a newest-first permutation of its input, with the same number of entries of each kind |
| Dashboard.Newest | apps/core/views.py:120 | `order_by('-created_at')[:n]` keeps at most `n` entries of the input, all of them if there are no more than `n`, newest first, and drops no entry later than one it keeps |
| Dashboard.PaymentEntries | apps/core/views.py:116-132 | exactly the completed payments into the wallets of the caller's buildings |
| Dashboard.JoinEntries | apps/core/views.py:137-151 | exactly the accepted residents of the caller's buildings, each stamped with its profile's creation time |
| Dashboard.PackageRowsAsWritten | apps/core/views.py:171-173 | as written the join yields a package once per link to one of the caller's buildings; its entries are exactly the linked packages |
| Dashboard.PackageRows | apps/core/views.py:171-173 | as intended: the same packages, each from one stored row, never more than the package table holds |
| Dashboard.PackageRowsDistinct | apps/core/views.py:171-173 | with unique package keys, the distinct query never lists an entry twice |
| Dashboard.UnreadOf | apps/core/views.py:154-157 | exactly the caller's unread notifications |
| Dashboard.LatestStamp | apps/core/views.py:165 | the newest creation time among the notifications, and one of them |
| Dashboard.UnreadEntry | apps/core/views.py:153-168 | one entry exactly when something is unread; it carries the unread count and the time of the caller's newest notification |
| Dashboard.Feed | apps/core/views.py:113-188 | at most ten entries, newest first, each one a candidate; no candidate of the pool later than a kept entry is dropped; at most five payments, three residents, three packages and the one unread summary |
| Dashboard.LatestActivities | apps/core/views.py:96-188 | 403 exactly when the caller neither holds `union_head` nor heads a building; otherwise the feed's size, order and per-kind caps, the unread summary appearing only when something is unread |
| Dashboard.FeedEntriesAreVisible | apps/core/views.py:113-188 | every payment, resident and package in the feed names a row of one of the caller's buildings |
| Dashboard.LatestActivitiesAsWritten | apps/core/views.py:96-188 | as written: the same guard and at most ten entries, at most three of them packages |
| Dashboard.SharedPackageShownTwice | apps/core/views.py:171-184 | a head of two buildings that share one package, with nothing else to report, is shown that package twice as written and once by the distinct query |

## Left out

- Readings of code that cannot run as written. Each is modelled by its evident intent, and the models state the behaviour below.
  - No `ResidentProfile.building` field is declared, nor the related names `building.residents`, `unit.residents` and `building.units`. Every such lookup is read as "profiles whose unit lies in the building".
  - Registration passes `ResidentProfile` keyword arguments the model does not declare: `building_id`, `floor_number`, `apartment_number`, `owner_national_id`, `manual_building_name` and `manual_address` (apps/accounts/views/auth.py:103-112 against apps/accounts/models.py:53-67), so `create` raises a TypeError as written. The profile is created with no unit and the building, floor, flat and manual values are dropped.
  - `TechnicianProfile` and `TechnicianProfileSerializer` are not declared (imported at apps/accounts/views/auth.py:17,21; absent from apps/accounts/models.py and apps/accounts/serializers.py), so importing apps/accounts/views/auth.py fails, and with it apps/accounts/urls.py:3; apps/maintenance/models.py:2 fails the same way. Registration.Register, Accounts.RequestReset, Accounts.ConfirmReset, Accounts.ChangePassword and the maintenance members are modelled as if the import succeeded. For a technician only the wallet is modelled.
  - The `union_head` lookups that mix `union_head` and `union_head_id` are read as the foreign key, and so is the keyword `union_head=user` that sign-up passes to `Building.objects.create` (apps/accounts/views/auth.py:82-83), which as written raises a TypeError after the user row and its roles are saved.
  - `rejected_at` is not declared on the profile. The cleanup command reads it as an optional instant, and the API never sets it.
  - The legacy generator imports `RecurringPackage` and `RecurringInstance` from the packages app and `ResidentWallet` and `Transaction` from the payments app (apps/core/tasks.py:3-4), none of which is declared, so importing apps/core/tasks.py fails and neither its generator nor `check_rental_end_dates` can run as written. Both are modelled as if the import succeeded; the legacy rows are kept as a ledger of their own.
- Registration.ProvisionResident: keeps the owner's national id for tenants on purpose, as the evident intent of apps/accounts/views/auth.py:109, although no such field is declared.
- Python text details: `int()` accepting surrounding white space, signs and underscores, and non-ASCII digits; `\d` matching only ASCII digits; the quote choice of `repr` for strings containing quotes; white space is the ASCII set only, not every Unicode space `str.strip` removes.
- Roles.FlattenRole: parses only the `repr` of a list of plain strings, not everything `ast.literal_eval` accepts (nested lists, numbers, escapes, other quote styles), which the model treats as text that does not parse.
- Roles.ParseStringListRepr: covers the same subset of `ast.literal_eval`.
- E-mail, phone and national-id format validation, and password hashing. Stored passwords are the accepted text.
- Sending e-mail, JWT and cookie login, social login, payment gateways (Paymob, Sahel, Fawry) and WebSocket delivery of notifications.
- Notification message texts. Notices carry a recipient and a kind only.
- Concurrency and `select_for_update`. Each request and task runs alone.
- Decimal quantisation to two places on save. Amounts are exact rationals.
- The ordering among rows with equal timestamps. The feed and history order by key, which is creation order.
- Creation timestamps of notifications, profiles and packages that the dashboard reads. They are supplied as a `Stamps` record alongside the world.
- Generic `update`/`destroy` routes of the view sets, including the package update and delete notifications; the maintenance view's `assigned` list; and the building views `recent`, `residents_requests`, `resident_details` and `resident_building`. They are plain framework CRUD or read-only listings.
- Permission gates in front of the modelled views: each view body below is modelled as if its gate let the caller through, and the gate is modelled on its own.
- PackageViews.Visible, PackageViews.PerformCreate: the package view set uses the single-role `DynamicRolePermission` (apps/packages/views.py:10,13), which finds no `role` attribute on the user and so admits staff and superusers only (`Permissions.SingleRoleVariantAdmitsOnlyStaff`).
- BuildingViews.AcceptRequest, BuildingViews.MyBuildings, BuildingViews.AcceptedResidents: the same single-role class guards the building view set and these actions (apps/buildings/views.py:10,16,56,126,162).
- Rentals.VisibleListings, Rentals.CreateListing, Rentals.DecideRental: the same class guards the rental view set (apps/rentals/views.py:9,14,94).
- Maintenance.FileRequest, Maintenance.UpdateStatus, Maintenance.AllRequests: the maintenance `IsResident`, `IsTechnician` and `IsUnionHead` classes call `.filter` on `user.roles`, which is a list of names (apps/maintenance/permissions.py:5,9,13 against apps/accounts/models.py:21), so the check raises for every caller.
- The rentals and maintenance apps are not in `INSTALLED_APPS` (settings/base.py:15-37), and no URL pattern routes to the maintenance views (urls.py:11-32).
- Maintenance.AllRequests: the view reads `request.user.owned_buildings` (apps/maintenance/views.py:146), which no model declares (the head's related name is `buildings`), so it raises an AttributeError as written; the model reads it as the buildings the caller heads.
- Maintenance.FiledRequestReachesHead: rests on that reading of `owned_buildings`; as written the head's list raises instead.
- Commands.CleanupAsWritten: takes the maintenance invoice table as a parameter, because the world keeps no such table. It counts maintenance requests and their invoices as if the maintenance app were installed; it is not (settings/base.py:15-37), so as configured the cascade does not reach them.
- Registration.ProvisionHead: creates the building headed by the new user, the evident intent of the `union_head=user` keyword, which raises as written.
- PackageViews.Visible, PackageViews.FirstProfileBuilding, PackageViews.InvoiceHistory: model the evident intent of the undeclared `user.resident_profiles` (apps/packages/views.py:45,257), the caller's profiles. As written a resident's listing is empty and a resident's history is a 500, as `PackageViews.VisibleAsWritten` and `PackageViews.InvoiceHistoryAsWritten` state.
- Dashboard.DashboardStats: its own contract states only the guard and the bounds of each count; the counts themselves are stated by `Dashboard.AcceptedProfiles`, `Dashboard.LinkedPackages`, `Dashboard.NewProfileCountsOnceAccepted` and `Dashboard.SecondLinkCountsNothing`.

## Findings

| source | as written | input that shows it | evidently intended | confidence | as-written member | corrected member |
|---|---|---|---|---|---|---|
| apps/core/tasks.py:34 | the due date is built from the package's due day without clamping it to the month | a package due on the 30th when the job runs on 2025-02-10: `date(2025, 2, 30)` raises, and the run stops before issuing anything for that package or any later one | clamp the day, as the newer generator does at apps/packages/tasks.py:59 | high (not executed) | LegacyBilling.UnclampedDayRaisesInFebruary | LegacyBilling.ClampedPlanNeverRaises |
| apps/buildings/views.py:28-37 | `User.roles` is a list, which has no `.all`, so the role names are always empty and the union-head filter never applies | user 1 holds the `union_head` role and building 1 is headed by user 2: user 1 is shown building 1 | a union head sees only the buildings they head | high (not executed) | BuildingViews.UnionHeadSeesOthersBuildings | BuildingViews.ListBuildings |
| apps/maintenance/views.py:100-120 | the status is saved as `completed` before the balance check, and the wallet is read as `user.wallet`, which does not exist | any request in a building with a resident, completed with any balance: the reply is 400, no wallet moves, and the request stays completed | debit the resident's `('user', id)` wallet, and leave the status unchanged on a shortfall, as the comment at line 119 says | high (not executed) | Maintenance.CompletionNeverPaysAsWritten | Maintenance.CompletedMeansPaid |
| apps/accounts/management/commands/cleanup_rejected_profiles.py:12-17 | the reported count is the first value `delete()` returns, which includes rows removed by the cascade | one expired rejected profile that owes one package invoice: the report says 2 profiles | report the number of profiles deleted | high (not executed) | Commands.CascadeInflatesCount | Commands.CleanupCountsExpired |
| apps/core/views.py:171-173 | joining packages through their building links without `distinct()` yields a package once per linked building | a union head of two buildings that share the only package: the feed shows that package twice | each package appears once | medium (not executed) | Dashboard.SharedPackageShownTwice | Dashboard.PackageRowsDistinct |
| apps/buildings/management/commands/approve_buildings.py:17-18 | the command assigns `building.approved_by` and `building.union_head`, but the declared foreign keys are `approved_by_id` and `union_head_id` (apps/buildings/models.py:5,15), so the assignments set plain attributes that `save()` ignores | an admin user and one pending building without a head: after the run the building is approved, has no approver, and the admin heads nothing | assign the declared fields, so the admin approves and heads every pending building, as the command's help text says | high (not executed) | Commands.ApprovedBuildingGetsNoHead | Commands.ApproveBuildings |
| apps/packages/views.py:45 | the resident branch reads `user.resident_profiles`, which is not declared (the profile's user key has no related name, so the accessor is `residentprofile_set`); the AttributeError falls into the bare `except` at line 58 | user 1 has a profile in a unit of building 1, and package 1 is linked to building 1: user 1 is shown no packages | a resident sees the packages of their building | high (not executed) | PackageViews.ResidentSeesNoPackagesAsWritten | PackageViews.Visible |
| apps/packages/views.py:257 | the invoice history reads the same undeclared `user.resident_profiles`, and nothing catches the error | user 1 has a profile and one package invoice billed to it: asking for the history is a 500 | a resident sees their own invoices | high (not executed) | PackageViews.ResidentHistoryFailsAsWritten | PackageViews.InvoiceHistory |
