# OrgChart manager-reassignment workflow in Dafny

This project models the approval workflow at the centre of OrgChart.API, a
web API over an organisation's Azure AD directory. An employee can ask to be
placed under a new manager. A requestor can also ask on someone else's behalf,
either singly or in a batch. The current manager approves or declines the
request, or the requestor cancels it. An accepted request changes the
employee's manager in the directory.

Requests live in a SharePoint list, the *approval list*. Managers live in the
directory, which is reached through Microsoft Graph. A background job marks a
request APPROVED once the directory shows the new manager.

The model has these parts:

- **`ApprovalList`** (module `SharePoint`) is the approval list as a class.
  - It holds the raw field values of every item, keyed by the id the list
    assigns, plus the next id.
  - Ids increase with creation, so "newest first" means "highest id first".
  - Additions, updates and deletions are methods.
  - The pending queries and the two pending checks are functions of the state.
- **`Directory`** (module `MicrosoftGraph`) is the directory as a class.
  - Every user is keyed by lower-case principal name and maps to the
    principal name of their manager, or to null.
  - The single and bulk assign/unassign operations are methods.
  - Each method is proved against a function over the old state.
- **`EmployeesController`** (module `Employees`) holds the seven workflow
  endpoints, over one list and one directory.
  - Each endpoint ends in `Ok`, `Rejected(message)` (HTTP 400) or
    `Failed(message)` (an exception, HTTP 500).
  - The contracts spell out every branch: which requests are rejected, in
    which order, and exactly what is written to the list and the directory.
  - The endpoints that submit and decide single requests preserve the
    invariant "at most one pending request per employee".
- **`AzureADPollingService`** (module `AzureADPolling`) holds the background
  job.
  - One pass over the rows of the sync-completed query is proved equal to an
    ordered reference function.
  - Lemmas show that the pass creates and deletes nothing, and that it
    approves exactly the matching rows.
- **Pure pieces.**
  - The `ApprovalItem` and `ProfileApprovalItem` key/value mappings, with
    their round trips.
  - The `Profile` conversions.
  - `ADUser.FromUser` and `Clone`.
  - The directory computations: the manager chain, the org chart, and the
    with/without-manager filters.

## How values are modelled

- **Nullable strings.** Every nullable C# string is an `Option<string>`.
- **`ToLower` on null.** A `ToLower()` call on null throws
  NullReferenceException. The model shows this as `Failed`, because each
  endpoint's catch-all handler turns it into HTTP 500.
- **Emails.** E-mail addresses are compared by ASCII lower-casing.
- **Missing managers.** `string.IsNullOrEmpty` treats null and `""` alike
  wherever the source uses it.
- **Field values.** A list item's field values are a sequence of key/value
  pairs, read with `FirstOrDefault`: the first pair with the key wins, and a
  missing key reads as null.
  - Keys are kept exactly as written. The sync query therefore filters on
    `LocalADSyncStatus`, while items are written under `localADSyncStatus`.
  - `SharePoint.WrittenItemsNotSyncCompleted` proves that an item written
    and updated only by this service never matches that query.
- **Searches.**
  - A search lists the matching items newest first, capped at one page of
    1000.
  - It matches field values by exact equality.
- **Directory keys.**
  - Graph resolves a principal name case-insensitively, so every directory
    lookup lower-cases its argument.
  - Assigning a manager fails when the user or the manager is unknown.
- **Forced assignment.**
  - `ApproveItem` calls a three-argument `AssignUserManager(emp, mgr, true)`,
    but the service shown implements only the two-argument form.
  - The model gives the assignment a `force` flag.
  - `force = false` is exactly the two-argument implementation: a user who
    already has a manager is refused with "User has already been claimed".
  - `force = true` skips that check. This is an assumption about the missing
    overload.
- **Parameters.** The review date (`DateTime.Now`) and the responses of
  read-only Graph calls are parameters.

Where the code and the design intent part ways, the model follows the code. The one exception is the item lookup of `ApproveItem`, `DeclineItem` and `CancelItem`. The model uses the corrected `GetApprovalItem`, which answers "Item id is invalid" for an unknown id. The code throws there instead (see ## Findings). The other divergences:

- **Stored status.** `ApproveItem` never looks at the stored status. An
  Acceptance item that was already approved or declined is assigned and
  approved again.
- **Single endpoints.** `AssignToSelf` and `AssignToOther` check for a pending
  request with the e-mail exactly as given.
- **Batch endpoints.** The batch endpoints lower-case the e-mail first.
- **Duplicates in a batch.** The batch conflict scan only looks at the list
  as it was before the batch. A batch that names the same employee twice
  therefore stores two pending requests for them.
  - `Employees.BatchDuplicateBreaksOnePending` exhibits such a batch.
  - For this reason the invariant is proved only for the single-request
    endpoints.

## Model

| member | source | states |
|---|---|---|
| Strings.ToLower | OrgChart.API/Controllers/EmployeesController.cs:246 | the lower-cased string has the same length and lower-cases each character |
| Strings.ToLowerIdempotent | OrgChart.API/DTOs/ADUser.cs:56 | lower-casing twice is lower-casing once |
| Strings.LowerOrNull | OrgChart.API/DTOs/ADUser.cs:40 | `?.ToLower()` is null iff its argument is, and otherwise yields a lower-case string of the same length |
| Strings.LowerEquals | OrgChart.API/Controllers/EmployeesController.cs:246 | `a.ToLower() == b.ToLower()` throws iff either side is null, and otherwise is case-insensitive equality |
| KeyValues.FirstValueMissing | OrgChart.API/DTOs/ApprovalItem.cs:57-73 | a key that no pair carries reads as null |
| KeyValues.FirstValueFirst | OrgChart.API/DTOs/ApprovalItem.cs:57-73 | the first pair with a key gives the value read |
| KeyValues.FirstValueAt | OrgChart.API/DTOs/ApprovalItem.cs:57-73 | with distinct keys, every stored value is the one read back |
| KeyValues.SetField | OrgChart.API/Services/SharePointService.cs:60-66 | writing a field makes its key read the new value |
| KeyValues.SetFieldOther | OrgChart.API/Services/SharePointService.cs:60-66 | writing a field leaves every other key reading as before |
| KeyValues.ApplyValuesLookup | OrgChart.API/Services/SharePointService.cs:51-66 | after an update, a key the update names reads its last value there; every other key reads as before |
| ApprovalItems.NewApprovalItem | OrgChart.API/DTOs/ApprovalItem.cs:11-28 | a new item has type Approval; its id is 0 and every other property is null |
| ApprovalItems.ToKeyValuePairs | OrgChart.API/DTOs/ApprovalItem.cs:30-50 | exactly 13 pairs, with distinct keys in the written order (`ToManagerEmail` under `toManager`); never `Id`, `comment`, `reviewDate`, `Created` or `Modified` |
| ApprovalItems.RoundTrip | OrgChart.API/DTOs/ApprovalItem.cs:30-75 | reading back the written pairs gives the item on all 13 mapped properties; the id is the list item's own, and the unmapped properties read null |
| ProfileApprovalItems.ToKeyValuePairs | OrgChart.API/DTOs/ProfileApprovalItem.cs:31-53 | exactly 15 pairs, with distinct keys in the written order; never `comment` or `reviewDate` |
| ProfileApprovalItems.RoundTrip | OrgChart.API/DTOs/ProfileApprovalItem.cs:31-80 | reading back the written pairs recovers all 15 mapped fields |
| ProfileApprovalItems.FromProfile | OrgChart.API/DTOs/ProfileApprovalItem.cs:99-115 | status PENDING; id, employee, manager, comment and review date at their defaults |
| ProfileApprovalItems.ProfileRoundTrip | OrgChart.API/DTOs/ProfileApprovalItem.cs:82-115 | `ToProfile(FromProfile(p)) == p` on all ten profile fields |
| ProfileApprovalItems.ItemRoundTrip | OrgChart.API/DTOs/ProfileApprovalItem.cs:82-115 | `FromProfile(ToProfile(x))` keeps the ten mapped fields of `x` and is otherwise a fresh pending change |
| Profiles.ToUser | OrgChart.API/DTOs/Profile.cs:22-37 | the business phone becomes a one-element list; no about-me text, manager or id |
| Profiles.ToAboutMe | OrgChart.API/DTOs/Profile.cs:39-45 | a user carrying only the about-me text |
| Profiles.FromUser | OrgChart.API/DTOs/Profile.cs:47-61 | the first business phone, or null when the list is absent or empty; the photo is never set |
| Profiles.ContactDetailsRoundTrip | OrgChart.API/DTOs/Profile.cs:22-61 | `FromUser(ToUser(p))` equals `p` except that about-me and the photo are dropped |
| Profiles.UpdatesAreDisjoint | OrgChart.API/DTOs/Profile.cs:22-45 | `ToUser` never carries about-me, and `ToAboutMe` carries nothing else |
| GraphUsers.FirstBusinessPhone | OrgChart.API/DTOs/ADUser.cs:44 | `BusinessPhones?.FirstOrDefault()`: null for an absent or empty list, otherwise the first entry |
| ADUsers.FromUser | OrgChart.API/DTOs/ADUser.cs:32-50 | e-mail and principal name are the same lower-cased UPN, or both null; manager id is the manager's id, null iff there is no manager; the chain is converted recursively with the same length |
| ADUsers.Clone | OrgChart.API/DTOs/ADUser.cs:52-58 | the clone throws iff the principal name is null; otherwise every field is copied, except that the manager id becomes the manager's id and the e-mail the lower-cased principal name |
| ADUsers.CloneOfNormalised | OrgChart.API/DTOs/ADUser.cs:52-58 | cloning a user whose manager id and e-mail are already normalised changes nothing |
| ADUsers.CloneOfFromUser | OrgChart.API/DTOs/ADUser.cs:32-58 | cloning a `FromUser` result with a principal name returns it unchanged, because lower-casing is idempotent |
| Collections.Filter | OrgChart.API/Services/MicrosoftGraphService.cs:209 | `Where`: keeps exactly the elements satisfying the predicate, and no more of them than the input has |
| Collections.FilterSubsequence | OrgChart.API/Services/MicrosoftGraphService.cs:209 | `Where` keeps the input order: the result is a subsequence of the input |
| Collections.FilterCounts | OrgChart.API/Services/MicrosoftGraphService.cs:209 | `Where` keeps every element that passes exactly as often as it occurs in the input |
| Collections.FilterConcat | OrgChart.API/Services/MicrosoftGraphService.cs:209 | filtering a concatenation filters each part and concatenates the results |
| Collections.FilterCompose | OrgChart.API/Services/MicrosoftGraphService.cs:236-237 | a `Where` applied to a `Where` result filters once by both conditions |
| Collections.FilterBackIsFilter | OrgChart.API/Controllers/EmployeesController.cs:296-303 | a loop that appends each passing element builds the same list as `Where` |
| Collections.FilterPartition | OrgChart.API/Controllers/EmployeesController.cs:429-430 | filtering by a predicate and by its complement splits the input: the two results together form a permutation of it |
| Collections.FilterAllOrNone | OrgChart.API/Controllers/EmployeesController.cs:312-313 | a filter no element passes is empty; one every element passes is the identity |
| MicrosoftGraph.AssignResult | OrgChart.API/Services/MicrosoftGraphService.cs:275-287 | assignment succeeds iff user and manager are known and, unforced, the user has no manager; then exactly that user gets the manager; an unforced call on a claimed user fails with "User has already been claimed"; a failure changes nothing |
| MicrosoftGraph.ClaimAllStops | OrgChart.API/Services/MicrosoftGraphService.cs:295-307 | after the first failure, the remaining users are not attempted |
| MicrosoftGraph.ClaimAllEffect | OrgChart.API/Services/MicrosoftGraphService.cs:295-307 | bulk assignment silently skips claimed users: each user keeps their manager, or had none, is listed, and now has the new one; on success every listed user has a manager |
| MicrosoftGraph.UnassignResult | OrgChart.API/Services/MicrosoftGraphService.cs:289-293 | unassignment succeeds iff the user is known, and then clears exactly that user's manager |
| MicrosoftGraph.UnassignAllStops | OrgChart.API/Services/MicrosoftGraphService.cs:309-316 | after the first failure, the remaining users are not attempted |
| MicrosoftGraph.UnassignAllEffect | OrgChart.API/Services/MicrosoftGraphService.cs:309-316 | bulk unassignment clears listed users only, and on success every listed user |
| MicrosoftGraph.Directory.ManagerEmailOf | OrgChart.API/Services/MicrosoftGraphService.cs:69-94 | `GetUser` fails iff the user is unknown, and otherwise reports the user's manager |
| MicrosoftGraph.Directory.AssignUserManager | OrgChart.API/Services/MicrosoftGraphService.cs:275-287 | the new directory and the outcome are those of `AssignResult` |
| MicrosoftGraph.Directory.AssignUsersManager | OrgChart.API/Services/MicrosoftGraphService.cs:295-307 | the loop's new directory and outcome are those of the bulk claim, taken in list order |
| MicrosoftGraph.Directory.UnassignUserManager | OrgChart.API/Services/MicrosoftGraphService.cs:289-293 | the new directory and the outcome are those of `UnassignResult` |
| MicrosoftGraph.Directory.UnassignUsersManager | OrgChart.API/Services/MicrosoftGraphService.cs:309-316 | the loop's new directory and outcome are those of the bulk unassignment, taken in list order |
| MicrosoftGraph.Flatten | OrgChart.API/Services/MicrosoftGraphService.cs:163-176 | the chain flattens iff every user on it has a principal name, and then has one entry per user |
| MicrosoftGraph.FlattenLinks | OrgChart.API/Services/MicrosoftGraphService.cs:163-176 | entries carry no manager object; each names the next entry's id as its manager id, and the last names none; each e-mail is its lower-cased UPN; the first entry is the chain's head |
| MicrosoftGraph.GetUserManagers | OrgChart.API/Services/MicrosoftGraphService.cs:140-182 | fails on an empty user id, and when Graph fails; otherwise the while loop returns the flattened chain (nearest manager first, the user first with `includeUser`), failing iff a clone throws |
| MicrosoftGraph.ManagersLength | OrgChart.API/Services/MicrosoftGraphService.cs:163-176 | with `includeUser` the result is the user followed by the managers-only result |
| MicrosoftGraph.GetUserDirectReports | OrgChart.API/Services/MicrosoftGraphService.cs:124-138 | one converted entry per report, each with its manager id stamped with the user's id |
| MicrosoftGraph.GetUserOrgChart | OrgChart.API/Services/MicrosoftGraphService.cs:184-205 | managers-with-user come first; then the direct reports if there are any; otherwise, with at least two chain entries, the manager's reports minus the user; otherwise nothing |
| MicrosoftGraph.GetUsersWithoutManagers | OrgChart.API/Services/MicrosoftGraphService.cs:207-241 | a user is listed iff they have no manager and, when a managers group is configured, appear among the members outside that group; the result keeps the input order and lists each such user as often as the input does |
| MicrosoftGraph.GetUsersWithManagers | OrgChart.API/Services/MicrosoftGraphService.cs:243-273 | exactly the users with a manager, in order; each converted, its manager object dropped and its manager id kept |
| SharePoint.MatchingIds | OrgChart.API/Services/SharePointService.cs:82 | the matching ids, strictly decreasing; every matching id is included |
| SharePoint.PendingListing | OrgChart.API/Services/SharePointService.cs:69-86 | every item a typed pending search lists has that type, the searched field value and status PENDING |
| SharePoint.PendingMatches | OrgChart.API/Services/SharePointService.cs:74-79 | an item matches the typed pending search iff it is pending with that type and field value |
| SharePoint.EmployeePendingMatch | OrgChart.API/Services/SharePointService.cs:151-155 | an item matches the employee search iff it is that employee's and pending |
| SharePoint.EmployeeManagerPendingMatch | OrgChart.API/Services/SharePointService.cs:168-173 | an item matches iff it is pending and carries that employee and that manager |
| SharePoint.UpdateEffect | OrgChart.API/Services/SharePointService.cs:51-66 | as an `ApprovalItem`, an update overwrites status and review date, overwrites the comment only when one is given, and keeps every other property |
| SharePoint.WrittenItemsNotSyncCompleted | OrgChart.API/Services/SharePointService.cs:107-125 | an item added and then updated by this service reads null under `LocalADSyncStatus`, so the sync query never lists it |
| SharePoint.AppendedConcat | OrgChart.API/Services/SharePointService.cs:33-41 | two batch additions in a row add the concatenation of the batches |
| SharePoint.GetApprovalItemAsWritten | OrgChart.API/Services/SharePointService.cs:43-49 | as written, the fetch never yields null; it throws iff the id is unknown |
| SharePoint.ApprovalList.SearchIds | OrgChart.API/Services/SharePointService.cs:80-82 | at most 1000 ids, all matching, newest first; every matching item is listed or older than a full page of listed ones |
| SharePoint.ApprovalList.Search | OrgChart.API/Services/SharePointService.cs:82-83 | the listed items are the stored items under the listed ids |
| SharePoint.ApprovalList.GetInitiatedPendingApprovalItems | OrgChart.API/Services/SharePointService.cs:69-86 | at most 1000 stored pending Approval items with that requestor, newest first; every such item is listed or cut by the page |
| SharePoint.ApprovalList.GetApprovalItemsPendingAction | OrgChart.API/Services/SharePointService.cs:88-105 | as above, with the manager as the matched field |
| SharePoint.ApprovalList.GetApprovalItemsPendingAcceptance | OrgChart.API/Services/SharePointService.cs:127-144 | as above, for Acceptance items, with the new manager as the matched field |
| SharePoint.ApprovalList.GetApprovalPendingItemLocalADSyncCompleted | OrgChart.API/Services/SharePointService.cs:107-125 | as above, for Approval items whose `LocalADSyncStatus` field reads "Completed" |
| SharePoint.ApprovalList.IsEmployeePendingRequestExists | OrgChart.API/Services/SharePointService.cs:146-161 | true iff some item is the employee's and pending, whatever its type |
| SharePoint.ApprovalList.IsManagerHasMultiplePendingRequestForEmployee | OrgChart.API/Services/SharePointService.cs:163-179 | true iff two distinct pending items carry both the employee and the manager |
| SharePoint.TwoMatches | OrgChart.API/Services/SharePointService.cs:163-179 | the descending search over ids `1..n` finds two or more items exactly when two distinct stored items are pending for the employee and the manager |
| SharePoint.ApprovalList.GetApprovalItem | OrgChart.API/Services/SharePointService.cs:43-49 | corrected fetch: none iff the id is unknown, otherwise the stored item |
| SharePoint.ApprovalList.AddApprovalItem | OrgChart.API/Services/SharePointService.cs:23-31 | exactly one new item, holding `ToKeyValuePairs` of the argument, under the next id |
| SharePoint.ApprovalList.BatchAddApprovalItem | OrgChart.API/Services/SharePointService.cs:33-41 | one new item per input, in order under consecutive ids; existing items untouched |
| SharePoint.ApprovalList.UpdateApprovalItem | OrgChart.API/Services/SharePointService.cs:51-67 | the item's fields become the update applied to them; nothing else changes; an unknown id fails |
| SharePoint.ApprovalList.DeleteApprovalItem | OrgChart.API/Services/SharePointService.cs:180-183 | removes exactly that id; an unknown id fails |
| Employees.AnyMatch | OrgChart.API/Controllers/EmployeesController.cs:291 | `Any` over a rule that may throw: false iff the rule is false on every item; true iff it holds on some item after only false ones |
| Employees.MarkAll | OrgChart.API/Controllers/EmployeesController.cs:321-326 | every item gets status PENDING and the given type |
| Employees.EmployeeEmails | OrgChart.API/Controllers/EmployeesController.cs:317 | the items' employee e-mails, in order |
| Employees.ReviewComment | OrgChart.API/Controllers/EmployeesController.cs:475 | an empty comment becomes null; any other comment is kept |
| Employees.PendingConflictsInOrder | OrgChart.API/Controllers/EmployeesController.cs:296-303 | with no null e-mail, the scan reports exactly the batch e-mails whose lower-cased form has a pending request, in input order and as often as they occur |
| Employees.PendingConflictsBack | OrgChart.API/Controllers/EmployeesController.cs:296-303 | the scan appends each conflicting e-mail in turn |
| Employees.PendingConflictsComplete | OrgChart.API/Controllers/EmployeesController.cs:296-303 | no conflict is missed: every batch employee with a pending request is reported |
| Employees.PendingConflictsSpec | OrgChart.API/Controllers/EmployeesController.cs:297-309 | the scan throws iff some e-mail is null; otherwise it finds nothing iff no employee has a pending request, and it reports only input employees who do |
| Employees.AddPreservesOnePending | OrgChart.API/Controllers/EmployeesController.cs:252-268 | adding a request for an employee without a pending one keeps at most one pending request per employee |
| Employees.UpdatePreservesOnePending | OrgChart.API/Controllers/EmployeesController.cs:496 | giving an item a non-pending status keeps the invariant |
| Employees.ApproveCopyPreservesOnePending | OrgChart.API/Controllers/EmployeesController.cs:500-505 | approving a pending item and adding its pending Acceptance copy keeps the invariant |
| Employees.BatchDuplicateBreaksOnePending | OrgChart.API/Controllers/EmployeesController.cs:297-327 | a batch naming one employee twice passes the conflict scan and breaks the invariant |
| Employees.EmployeesController.CollectPendingConflicts | OrgChart.API/Controllers/EmployeesController.cs:297-304 | the loop finds, in input order, the employees whose lower-cased e-mail has a pending request |
| Employees.EmployeesController.AssignToSelf | OrgChart.API/Controllers/EmployeesController.cs:242-279 | reassigning to the current manager is rejected, then an existing pending request; neither writes; with no current manager, one unforced assignment and no item; otherwise one new Approval/PENDING item and no directory change; the invariant holds |
| Employees.EmployeesController.BatchAssignToSelf | OrgChart.API/Controllers/EmployeesController.cs:283-338 | an empty list is rejected, then any reassignment to the current manager, then the full list of conflicting employees; each rejection writes nothing; on success the manager-less items are bulk-assigned to the first one's new manager, and the rest are stored as Approval/PENDING |
| Employees.EmployeesController.AssignToOther | OrgChart.API/Controllers/EmployeesController.cs:341-393 | requestor equal to the new manager is rejected, then the manager equal to the new manager, then an existing pending request; the directory is never touched; success adds one PENDING item, of type Acceptance iff there is no manager or the requestor is the manager; the invariant holds |
| Employees.EmployeesController.BatchAssignToOthers | OrgChart.API/Controllers/EmployeesController.cs:396-462 | the empty-list and two per-item rejections, then the conflict list, each writing nothing; on success every item is stored exactly once, the direct ones as Acceptance, then the rest as Approval; the directory is never touched |
| Employees.EmployeesController.StoreSplit | OrgChart.API/Controllers/EmployeesController.cs:429-452 | the two batch additions store the direct items and then the approval items, one item per input |
| Employees.EmployeesController.ApproveItem | OrgChart.API/Controllers/EmployeesController.cs:466-521 | an unknown id is rejected (corrected fetch, see ## Findings); for an Approval item, a manager who is no longer the employee's, or two pending duplicates, is rejected with no effect; if the requestor is the new manager, one forced assignment and the item becomes APPROVED; otherwise it becomes APPROVED and one PENDING Acceptance copy is added with comment and date cleared, with no directory change; an Acceptance item gets one forced assignment and becomes APPROVED; any other type has no effect; approving a pending item keeps the invariant |
| Employees.EmployeesController.ApproveRequest | OrgChart.API/Controllers/EmployeesController.cs:479-505 | for an Approval item: a null e-mail in the manager comparison fails; a manager who is no longer the employee's is rejected; two pending items for the same employee and manager are rejected; each with no effect; otherwise the effect of `CompleteApproval`; approving a pending item keeps the invariant |
| Employees.EmployeesController.CompleteApproval | OrgChart.API/Controllers/EmployeesController.cs:490-504 | a null e-mail fails with no effect; if the requestor is the new manager, the forced assignment and then, once it succeeded, the item becomes APPROVED; otherwise the item becomes APPROVED and one PENDING Acceptance copy with comment and date cleared is stored under the next id, with no directory change |
| Employees.EmployeesController.AcceptTransfer | OrgChart.API/Controllers/EmployeesController.cs:507-511 | one forced assignment of the target manager; only when it succeeded, the item becomes APPROVED; the id counter is kept; approving a pending item keeps the invariant |
| Employees.EmployeesController.DeclineItem | OrgChart.API/Controllers/EmployeesController.cs:525-550 | an unknown id is rejected (corrected fetch, see ## Findings), then an empty comment; otherwise the item becomes DECLINED with that comment and today's date, all else kept; the directory is never touched; the invariant holds |
| Employees.EmployeesController.CancelItem | OrgChart.API/Controllers/EmployeesController.cs:554-580 | an unknown id is rejected (corrected fetch, see ## Findings), then any item not PENDING, leaving it unchanged; otherwise exactly that item is deleted; the invariant holds |
| AzureADPolling.NextCount | OrgChart.API/BackgroundServices/AzureADPollingService.cs:62-63 | the counter resets past 1,000,000,000 and is then incremented, so the task number stays within 1..1,000,000,001 |
| AzureADPolling.RowResult | OrgChart.API/BackgroundServices/AzureADPollingService.cs:75-81 | one row: it succeeds iff the employee is known, has a manager, and a new manager is named; it approves the item iff the manager's name equals the requested one case-insensitively; it touches no other item |
| AzureADPolling.ReconcileStops | OrgChart.API/BackgroundServices/AzureADPollingService.cs:72-89 | an exception at a row ends the pass; earlier updates persist |
| AzureADPolling.ReconcileEffect | OrgChart.API/BackgroundServices/AzureADPollingService.cs:69-89 | a pass creates and deletes nothing; an item is unchanged, or is approved (comment kept) because a row with its id matched; the pass succeeds iff every row can be processed, and then every matching row's item is approved |
| AzureADPolling.ReconcileApproves | OrgChart.API/BackgroundServices/AzureADPollingService.cs:75-81 | for pending rows with distinct ids, a successful pass approves a row iff it matches |
| AzureADPolling.PassApproves | OrgChart.API/BackgroundServices/AzureADPollingService.cs:69-81 | the same, for the rows the sync-completed query returns |
| AzureADPolling.AzureADPollingService.DoWork | OrgChart.API/BackgroundServices/AzureADPollingService.cs:53-94 | with `UpdateAzureAD` set the tick does nothing; otherwise it advances the counter, examines only the rows the sync-completed query returns, in order, and leaves the list as the reference pass does; on success a row is approved iff its manager change shows in the directory |
| AzureADPolling.AzureADPollingService.ReconcileRows | OrgChart.API/BackgroundServices/AzureADPollingService.cs:72-82 | the loop's new list and outcome are those of the reference pass |
| AzureADPolling.AzureADPollingService.ProcessRow | OrgChart.API/BackgroundServices/AzureADPollingService.cs:75-81 | the loop body's new list and outcome are those of `RowResult` |

## Left out

- HTTP: routing, `IActionResult`s, the `APIResponse` wrappers and the log calls are left out. The read-only GET endpoints and the direct assign endpoints of `EmployeesController` only forward to the directory and are not modelled. Each workflow endpoint's result is `Ok`, `Rejected` or `Failed`.
- Graph SDK, authentication and raw HTTP are left out. The directory is abstract state. The responses of read-only Graph calls (the user, the reports, the manager chain, the group members) are parameters.
- `MicrosoftGraphService.BL.cs` (photo and profile updates) is foreign I/O and is not part of this model.
- Timers and concurrency are left out. `StartAsync`, `StopAsync` and `Dispose` only manage the timer. `Interlocked` is modelled as a plain increment, and a tick as one sequential pass.
- MicrosoftGraph.Directory.AssignUsersManager: runs the users one after another in list order and stops at the first failure, because the model has no concurrency. The source's `ParallelForEachAsync` runs them concurrently.
- MicrosoftGraph.Directory.UnassignUsersManager: sequential for the same reason.
- Dates: review dates are a parameter, and `Created`/`Modified` are copied as opaque text. `DateTimeOffset.Parse` and the date formatting are not modelled.
- Locale: `ToLower` is ASCII lower-casing, not the culture-sensitive conversion.
- SharePoint.ApprovalList.SearchIds: matches field values by exact equality and orders by id. This stands in for SharePoint's paging and sort engine, whose CAML comparison rules are not modelled.
- The profile-approval store methods are not modelled. They mirror the approval-list methods over a list that the settings do not declare. Their DTO mappings are modelled.
- Reports, mail, the report background service, the middleware, startup and the settings DTOs are plumbing or foreign libraries, and are not part of this model.
- Employees.EmployeesController.ApproveItem: the model reads the employee's manager from the directory state. The Graph request expands the manager with `$select=id,displayName` (`MicrosoftGraphService.cs:76`), so in the source the manager's e-mail may come back null. The comparison at `EmployeesController.cs:479` would then throw. The model assumes the manager's principal name is available.
- AzureADPolling.AzureADPollingService.DoWork: the same assumption for `data.Manager.UserPrincipalName` at `AzureADPollingService.cs:77`.
- MicrosoftGraph.AssignResult: the forced form is an assumed behaviour, because the three-argument overload is not in the source.
- MicrosoftGraph.UnassignResult: assumes that unassigning a user who has no manager succeeds, because Graph's behaviour for that DELETE is not in the source.

## Findings

| source | as written | input that shows it | evidently intended | confidence | as-written member | corrected member |
|---|---|---|---|---|---|---|
| OrgChart.API/Services/SharePointService.cs:43-49 | `GetApprovalItem` passes the list item to `FromSPListItem`, which always builds an object or throws, so the controllers' `_item == null` check ("Item id is invalid") can never fire; an unknown id ends in HTTP 500 | any id not in the list (for example `ApproveItem` with id 0 on an empty list) | an unknown id yields null, and the endpoint answers "Item id is invalid" | not executed | SharePoint.GetApprovalItemAsWritten | SharePoint.ApprovalList.GetApprovalItem |
