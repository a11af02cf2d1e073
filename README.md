# SolBot staff management, modelled in Dafny

This project models the staff-management core of the SolBot website. It covers both the backend and the client.

**Backend** (the Express controller and the Mongoose schema):
- The staff collection and its schema: required fields, enumerations, defaults, trimmed fields, the e-mail pattern and the unique e-mail index.
- `GET /api/staff`: the search and filter document, newest-first order, the skip/limit window and the pagination block.
- Single-record reads, create, update and delete.
- The three edits of a record's embedded assignment list: push, find-and-splice, and key-by-key patch.
- The statistics: status counts and `$group` over department, role and assignment status.

**Client:**
- The URL that `staffService.getStaff` builds, and how the server reads it back.
- The state of the staff management page.
- The detail dialog's chips, actions and request life cycle.
- The validators and submit guards of the staff form, the assignment form, the settings page and both login pages.
- The status filter of the anomaly page.

## How the model is organised

Each module follows a source file.

- **Pure code becomes functions and lemmas.** This covers the schema, the chip mappings, pagination arithmetic and grouping.
- **Code that changes state becomes a class whose methods change fields.**
  - The collection (`StaffStore.Store`).
  - The page, dialog and form states.
  - Loops and successive updates stay imperative: the query builder, the URL builder, the validators that fill an error object field by field, `findIndex` and the patch loop.
- **Each controller handler is specified by a pure outcome function** (`CreateOutcome`, `PushOutcome`, …). The outcome gives the reply, the new collection and the identifier counter.
  - The `*KeepsConsistent` lemmas prove that every handler preserves the collection invariant `Consistent`: every record passes the schema, ids are unique, e-mails are unique, and the id counter is fresh.
  - They also prove that a failing handler writes nothing.
  - Bodies reach the database with every key, as the controller passes `req.body` on; the values modelled are strings or absent (see "## Left out"). A create or update body may set `_id`, `assignments`, `user` (overwritten on create) and `createdAt`. An assignment body may set `_id`, `assignedBy` (overwritten on push) and `createdAt`. So entry ids within a record need not be distinct, and `findIndex` then reaches the first entry with the id (`StaffStore.SuppliedIdShadowsEarlier`).
- **Two regular expressions are written as recognisers over characters.**
  - The shared e-mail pattern `^\w+([.-]?\w+)*@\w+([.-]?\w+)*(\.\w{2,3})+$` is `EmailPattern.IsEmail`. It is a left-to-right scanner, and a lemma proves it equal to the grammar the pattern denotes.
  - The TypeScript login page's looser pattern is `IsLooseEmail`.

**Where the code departs from its own description:**
- The staff page's search box says it searches "name, email, role, or department". The controller only matches name, e-mail and role (`backend/controllers/staffController.js:18-27`), and the model follows the controller.
- The department and role choices of the page's filter menus are not values of the schema's enumerations. So choosing one always yields an empty listing (`StaffPage.DepartmentChoiceSelectsNothing`).

## Model

Source paths are relative to the repository root.

| member | source | states |
|---|---|---|
| Text.Trim | backend/models/Staff.js:41-45 | the trimmed string has no white space at either end |
| Text.BlankIffAllSpace | solbot-website/src/components/staff/StaffFormDialog.js:68-70 | a value is blank after `trim()` exactly when every character is white space |
| Text.TrimmedIffFixed | backend/models/Staff.js:41-45 | `trim` leaves a string unchanged exactly when it has no white space at either end |
| Text.IntRoundTrip | solbot-website/src/services/staffService.js:9 | an integer written with a template literal is parsed back by `parseInt` to the same integer |
| Text.ReplaceFirst | solbot-website/src/components/staff/StaffDetailDialog.js:187 | same length; only the first occurrence of the character is replaced |
| EmailPattern.EmailIffPattern | backend/models/Staff.js:50-53 | the scanner accepts exactly the strings of the pattern's grammar |
| EmailPattern.DottedIffShape | backend/models/Staff.js:51 | `\w+([.-]?\w+)*` matches exactly the non-empty strings over `[\w.-]` that start and end with a word character and have no two separators in a row |
| EmailPattern.EmailShape | backend/models/Staff.js:51 | an accepted address has an `@` with text before it, a later `.` with text on both sides, and otherwise only `\w`, `.` and `-`, each separator after a word character |
| EmailPattern.RefusesAdjacentSeparators | backend/models/Staff.js:51 | two separators in a row anywhere make an address invalid |
| EmailPattern.AcceptsPlainAddress | backend/models/Staff.js:51 | `a@x.com` is accepted |
| EmailPattern.StrictImpliesLoose | solbot-website/src/components/auth/LoginPage.tsx:80-81 | every address the schema pattern accepts passes the TypeScript login page's pattern |
| EmailPattern.LooseAcceptsMore | solbot-website/src/components/auth/LoginPage.tsx:80-81 | `a@b.c` passes the login page's pattern but not the schema's |
| EmailPattern.PhoneShape | solbot-website/src/components/staff/StaffFormDialog.js:78-80 | an accepted phone is an optional `+` and then 10 to 15 digits |
| StaffSchema.AssignmentErrorsIff | backend/models/Staff.js:3-33 | an assignment has no validation error exactly when title, description, location and start date are present and the status is in the enumeration |
| StaffSchema.NewAssignment | backend/models/Staff.js:3-38 | an entry built from a body trims the title and keeps the body's `assignedBy`; it gets the generated id only when the body has no `_id`, and `pending` only when it has no status |
| StaffSchema.PushedAssignment | backend/controllers/staffController.js:192-195 | a pushed entry's `assignedBy` is the caller, whatever the body said |
| StaffSchema.AssignmentsErrors | backend/models/Staff.js:77 | the embedded list reports no error exactly when every entry is valid |
| StaffSchema.StaffErrorsIff | backend/models/Staff.js:40-87 | a record saves without a validation error exactly when it satisfies `ValidStaff` |
| StaffSchema.NewStaff | backend/controllers/staffController.js:102-105 | a created record has the trimmed name and the caller as `user`; it gets the generated id only when the body has no `_id`, and holds one entry per entry of the body's `assignments` |
| StaffSchema.TrimIdempotent | backend/models/Staff.js:41-45 | trimming a trimmed name changes nothing |
| StaffSchema.MissingDepartmentReported | backend/models/Staff.js:63-67 | a record without a department is invalid and reports "Please add a department" |
| StaffSchema.NewStaffDefaults | backend/models/Staff.js:58-82 | role defaults to technician, status to active and image to `default-profile.jpg`; department has no default and its absence is reported |
| StaffSchema.NameRequired | backend/models/Staff.js:41-45 | a valid created record had a name that is not blank |
| StaffSchema.EmailRequired | backend/models/Staff.js:46-54 | a valid created record had an e-mail that matches the pattern |
| StaffSchema.EnumsEnforced | backend/models/Staff.js:58-72 | a valid created record had its role, department and status in the enumerations |
| StaffSchema.AssignmentRequiredFields | backend/models/Staff.js:4-20 | a valid pushed entry had a non-blank title, a description, a location and a start date |
| StaffSchema.AssignmentStatusDefault | backend/models/Staff.js:24-28 | with no status given, an entry is `pending`, which is in the enumeration |
| StaffSchema.ValidWithoutAssignments | backend/models/Staff.js:40-77 | a record that meets every field condition and has no assignments is valid |
| StaffSchema.MinimalCreateIsValid | backend/models/Staff.js:40-87 | a name, an e-mail and a department are enough to create an active technician |
| StaffQuery.BuildQuery | backend/controllers/staffController.js:14-42 | the filter document, built by successive updates, matches exactly the records the parameters select; there is no document exactly when the search expression cannot be built |
| StaffQuery.SearchClauses | backend/controllers/staffController.js:18-27 | the `$or` holds exactly when the search expression matches the name, the e-mail or the role |
| StaffQuery.LiteralSearchSelects | backend/controllers/staffController.js:18-27 | with an engine that reads a pattern without metacharacters literally, such a search is never refused and selects the records whose name, e-mail or role contains it, ignoring case |
| StaffQuery.EqualityTests | backend/controllers/staffController.js:29-42 | the equalities hold exactly when each truthy filter equals the record's field |
| StaffQuery.PageNumber | backend/controllers/staffController.js:10 | the page number is never zero |
| StaffQuery.PageSize | backend/controllers/staffController.js:11 | the page size is never zero |
| StaffQuery.CeilDiv | backend/controllers/staffController.js:59 | `Math.ceil(total / limit)` is the least integer at or above the quotient, for either sign of `limit` |
| StaffQuery.Select | backend/controllers/staffController.js:44-50 | every selected record is in the collection and satisfies the parameters, and every such record is selected |
| StaffQuery.Filter | backend/controllers/staffController.js:44 | `find` returns only records the filter document matches |
| StaffQuery.FilterAgrees | backend/controllers/staffController.js:44-50 | `find` with the built document returns exactly the selection, in collection order |
| StaffQuery.Insert | backend/controllers/staffController.js:47 | inserting into a newest-first list keeps it newest first and adds exactly one element |
| StaffQuery.SortNewestFirst | backend/controllers/staffController.js:47 | the sorted list is newest first and a permutation of the input |
| StaffQuery.PagingDefaults | backend/controllers/staffController.js:10-11 | a missing, non-numeric or zero page or limit becomes 1 or 10 |
| StaffQuery.PagingRoundTrip | backend/controllers/staffController.js:10-11 | a non-zero page and limit sent as text are read back unchanged |
| StaffQuery.ListingShape | backend/controllers/staffController.js:44-62 | `count` is the page length, `total` counts all matches, and the page holds newest-first matching records |
| StaffQuery.WindowOfSorted | backend/controllers/staffController.js:44-47 | a window of a newest-first list is newest first, no longer than the limit, and made of its elements |
| StaffQuery.ListingFailsIff | backend/controllers/staffController.js:19-67 | the listing answers 500 exactly when the search expression cannot be built or `(page - 1) * limit` is negative; for a literal search, only the latter |
| StaffQuery.PageWindow | backend/controllers/staffController.js:12-59 | with a positive limit, pages up to `pages` are non-empty, the last one holds the remainder, and later ones are empty |
| StaffQuery.PageCount | backend/controllers/staffController.js:59 | there are `ceil(total / limit)` pages |
| StaffQuery.PagesConcatenate | backend/controllers/staffController.js:44-59 | the pages, taken in order, are the whole sorted list |
| StaffQuery.PageIsWindow | backend/controllers/staffController.js:12 | page `k + 1` is the window that starts `k * limit` records in |
| StaffQuery.PagesCoverAll | backend/controllers/staffController.js:44-59 | page count, concatenation and window agree for every page |
| StaffQuery.NoFilterSelectsAll | backend/controllers/staffController.js:15-42 | with no parameter set, every record is selected |
| StaffStatistics.Occurrences | backend/controllers/staffController.js:306-312 | a status count never exceeds the collection size |
| StaffStatistics.GroupBySum | backend/controllers/staffController.js:315-322 | the group counts sum to the number of documents grouped |
| StaffStatistics.GroupByCounts | backend/controllers/staffController.js:315-343 | there is one group per distinct key, and each counts that key's occurrences |
| StaffStatistics.ThreeWaySplit | backend/controllers/staffController.js:303-312 | when every key is one of three values, their counts add up to the total |
| StaffStatistics.UnwoundCounts | backend/controllers/staffController.js:335-343 | `$unwind` yields one document per embedded assignment |
| StaffStatistics.StatusesAddUp | backend/controllers/staffController.js:303-312 | with every status in the enumeration, active + inactive + on-leave = the collection size |
| StaffStatistics.StatsAddUp | backend/controllers/staffController.js:300-356 | over a valid collection, the status counts, the department groups and the role groups each sum to `totalStaff`, and the assignment groups sum to the number of assignments |
| StaffStatistics.DepartmentGroups | backend/controllers/staffController.js:315-322 | department groups have distinct ids, count their records, and cover every record |
| StaffStore.IndexOfStaff | backend/controllers/staffController.js:76-83 | `findById` finds a record with that id, or answers not found exactly when there is none |
| StaffStore.FirstAssignmentIndex | backend/controllers/staffController.js:226-235 | the index of the first entry with the id, or -1 exactly when no entry has it |
| StaffStore.FindAssignmentIndex | backend/controllers/staffController.js:226-228 | the front-to-back scan returns that index |
| StaffStore.RemoveAt | backend/controllers/staffController.js:238 | `splice(i, 1)` drops entry `i`, keeps the others in order, and shortens the list by one |
| StaffStore.GetAssign | backend/controllers/staffController.js:279-281 | writing one key changes that key and no other |
| StaffStore.PatchedFields | backend/controllers/staffController.js:278-281 | each key in the body takes its value (the title trimmed); every other key keeps its value |
| StaffStore.ApplyPatch | backend/controllers/staffController.js:279-281 | the key-by-key loop computes the patched entry |
| StaffStore.PushEntryValid | backend/controllers/staffController.js:195-197 | pushing onto a valid record gives a valid record exactly when the new entry is valid |
| StaffStore.RemoveKeepsValid | backend/controllers/staffController.js:238-240 | splicing an entry out of a valid record leaves a valid record |
| StaffStore.ReplaceEntryValid | backend/controllers/staffController.js:279-283 | replacing one entry of a valid record gives a valid record exactly when the new entry is valid |
| StaffStore.CreateKeepsConsistent | backend/controllers/staffController.js:100-117 | create keeps the collection consistent; an invalid record, a body `_id` already in use or a taken e-mail saves nothing |
| StaffStore.UpdateKeepsConsistent | backend/controllers/staffController.js:122-148 | update keeps the collection consistent whatever keys the body holds, saves nothing on failure, and answers 404 exactly for a missing id |
| StaffStore.DeleteKeepsConsistent | backend/controllers/staffController.js:153-176 | delete keeps the collection consistent and answers 404 exactly for a missing id |
| StaffStore.PushKeepsConsistent | backend/controllers/staffController.js:181-209 | pushing an entry keeps the collection consistent, saves nothing on failure, and answers 404 exactly for a missing id |
| StaffStore.AddAssignmentKeepsConsistent | backend/controllers/staffController.js:181-209 | the same for the add-assignment handler |
| StaffStore.RemoveAssignmentKeepsConsistent | backend/controllers/staffController.js:214-252 | removal keeps the collection consistent, answers 404 for a missing record, and is never refused on save |
| StaffStore.UpdateAssignmentKeepsConsistent | backend/controllers/staffController.js:257-295 | the entry patch keeps the collection consistent, saves nothing on failure, and answers 404 exactly for a missing record |
| StaffStore.CreateThenRead | backend/controllers/staffController.js:100-110 | a created record is valid, had an id no stored record carried, and is found under it afterwards; without a body `_id` that id is the generated one |
| StaffStore.GeneratedIdFree | backend/controllers/staffController.js:105 | no stored record and no stored entry carries the next generated id |
| StaffStore.GeneratedIdNeverDuplicate | backend/controllers/staffController.js:100-117 | a create whose body has no `_id` is never refused as a duplicate key |
| StaffStore.DeleteRemovesRecord | backend/controllers/staffController.js:153-169 | deleting removes exactly the record with the id and keeps every other record |
| StaffStore.AddAssignmentRefusesOnlyEntry | backend/controllers/staffController.js:192-197 | on a consistent collection, adding an entry succeeds exactly when the new entry is valid |
| StaffStore.UpdateAssignmentRefusesOnlyEntry | backend/controllers/staffController.js:278-283 | patching an entry succeeds exactly when the patched entry is valid |
| StaffStore.IndexOfUnique | backend/controllers/staffController.js:76 | with unique ids, looking up a record's own id finds that record |
| StaffStore.RemoveUndoesPush | backend/controllers/staffController.js:181-252 | removing the entry a successful push just added restores the collection |
| StaffStore.RemoveUndoesAdd | backend/controllers/staffController.js:181-252 | removing, under the generated id, the assignment a successful add without a body `_id` just created restores the collection |
| StaffStore.SuppliedIdShadowsEarlier | backend/controllers/staffController.js:193-195 | a pushed entry whose body `_id` repeats an earlier entry's is not the one a later removal by that id splices out |
| StaffStore.Store.GetStaff | backend/controllers/staffController.js:7-69 | the handler's reply is the listing of the stored collection, for the engine that builds the search expression |
| StaffStore.Store.GetStaffMember | backend/controllers/staffController.js:74-95 | 404 "Staff member not found" exactly when the id is missing; otherwise 200 with that stored record |
| StaffStore.Store.GetStaffStats | backend/controllers/staffController.js:300-363 | the figures are the statistics of the collection, and they add up as above |
| StaffStore.Store.CreateStaffMember | backend/controllers/staffController.js:100-117 | the reply and the new state are the create outcome, and the collection stays consistent |
| StaffStore.Store.UpdateStaffMember | backend/controllers/staffController.js:122-148 | the reply and the new state are the update outcome, and the collection stays consistent |
| StaffStore.Store.DeleteStaffMember | backend/controllers/staffController.js:153-176 | the reply and the new state are the delete outcome, and the collection stays consistent |
| StaffStore.Store.AddAssignment | backend/controllers/staffController.js:181-209 | the reply and the new state are the push outcome, and the collection stays consistent |
| StaffStore.Store.RemoveAssignment | backend/controllers/staffController.js:214-252 | the reply and the new state are the splice outcome, and the collection stays consistent |
| StaffStore.Store.UpdateAssignment | backend/controllers/staffController.js:257-295 | the reply and the new state are the patch outcome, and the collection stays consistent |
| StaffService.QueryPairs | solbot-website/src/services/staffService.js:9-29 | the query always starts with `page` and then `limit` |
| StaffService.FirstPieces | solbot-website/src/services/staffService.js:9 | the initial URL is the base, `?`, and the page and limit pieces |
| StaffService.AppendStep | solbot-website/src/services/staffService.js:12-29 | each conditional append adds `&key=value` exactly when the filter is truthy |
| StaffService.GetStaffUrl | solbot-website/src/services/staffService.js:7-29 | the URL built by appends is the base, `?`, and the pieces joined by `&`, in the fixed order, with page and limit defaulting to 1 and 10 |
| StaffService.Sent | solbot-website/src/services/staffService.js:12-29 | a filter arrives exactly when it is truthy, with its value |
| StaffService.ServerReadsUrl | solbot-website/src/services/staffService.js:9-29 | when values contain no `&`, `#`, `%`, `+`, `]` or white space, the server reads back the page, the limit and exactly the truthy filters |
| StaffService.ListingSeesRequest | backend/controllers/staffController.js:10-42 | the server pages with what the client sent (zero becoming the default) and selects as the client's filters say |
| StaffService.SentSelects | backend/controllers/staffController.js:30-42 | the selection depends only on each filter's truthiness and value |
| StaffService.AmpersandCutsSearch | solbot-website/src/services/staffService.js:13 | an unencoded `x&y` search is read by the server as the search `x` |
| StatusChips.AssignmentStatusLabel | solbot-website/src/components/staff/StaffDetailDialog.js:187 | the assignment label has the status's length |
| StatusChips.StaffColorsOnEnum | solbot-website/src/components/staff/StaffDetailDialog.js:136-150 | a staff status gets a non-default colour exactly when it is in the schema's enumeration, and the three get distinct colours (the management page's chip at `StaffManagementPage.new.js:333-347` is the same switch) |
| StatusChips.AssignmentColorsOnEnum | solbot-website/src/components/staff/StaffDetailDialog.js:161-183 | the same for assignment statuses; only completed and cancelled carry an icon |
| StatusChips.StaffLabelRoundTrip | solbot-website/src/components/staff/StaffDetailDialog.js:154 | the label determines a status that starts with a lower-case letter |
| StatusChips.AssignmentLabelRoundTrip | solbot-website/src/components/staff/StaffDetailDialog.js:187 | the assignment label determines a status that starts with a lower-case letter and has no space |
| StatusChips.ActionsOffered | solbot-website/src/components/staff/StaffDetailDialog.js:340-379 | "complete" is offered iff the entry is not completed, "cancel" iff it is not cancelled, and "remove" always; an offered action always sets a new status from the enumeration |
| StaffDetail.StatusPatch | solbot-website/src/components/staff/StaffDetailDialog.js:107 | a status update's body has exactly one key, `status` |
| StaffDetail.StatusPatchOnlyStatus | solbot-website/src/components/staff/StaffDetailDialog.js:107 | the patch changes the entry's status and nothing else |
| StaffDetail.OfferedActionsSucceed | solbot-website/src/components/staff/StaffDetailDialog.js:100-134 | on a consistent collection, every offered action on a stored entry succeeds on the first entry with that id: a status button changes only its status, and remove takes it out; with distinct entry ids that is the button's entry |
| StaffDetail.DetailState.constructor | solbot-website/src/components/staff/StaffDetailDialog.js:92-94 | no action runs and no entry is selected |
| StaffDetail.DetailState.HandleUpdateAssignmentStatus | solbot-website/src/components/staff/StaffDetailDialog.js:100-116 | sends `{ status }`; afterwards nothing is loading or selected, whatever the answer; a refresh happens only when the request resolved, otherwise the error is set |
| StaffDetail.DetailState.HandleRemoveAssignment | solbot-website/src/components/staff/StaffDetailDialog.js:118-134 | the same life cycle around a removal |
| StaffPage.PageState.constructor | solbot-website/src/components/staff/StaffManagementPage.new.js:119-126 | empty search, the three filters empty, page 0, 10 rows |
| StaffPage.PageState.Fetch | solbot-website/src/components/staff/StaffManagementPage.new.js:143-150 | requests page `page + 1` with the rows per page and the merged filters |
| StaffPage.PageState.HandleSearch | solbot-website/src/components/staff/StaffManagementPage.new.js:177-180 | sets the search text and resets to page 0; nothing else changes |
| StaffPage.PageState.HandleFilterChange | solbot-website/src/components/staff/StaffManagementPage.new.js:183-190 | sets only the named filter, keeps the others, resets to page 0, and closes the menu |
| StaffPage.PageState.HandleChangePage | solbot-website/src/components/staff/StaffManagementPage.new.js:193-195 | sets the page only |
| StaffPage.PageState.HandleChangeRowsPerPage | solbot-website/src/components/staff/StaffManagementPage.new.js:198-201 | sets the parsed row count and resets to page 0 |
| StaffPage.PageState.HandleResetFilters | solbot-website/src/components/staff/StaffManagementPage.new.js:322-330 | clears the search and all three filters and resets to page 0 |
| StaffPage.PageState.ClearSearch | solbot-website/src/components/staff/StaffManagementPage.new.js:503 | empties the search and keeps the page |
| StaffPage.ServerSeesPageState | solbot-website/src/components/staff/StaffManagementPage.new.js:143-150 | the server lists page `page + 1`, skips `page * rowsPerPage` records, and selects what the page's search and filters describe |
| StaffPage.ResetSelectsAll | solbot-website/src/components/staff/StaffManagementPage.new.js:322-330 | after a reset the server selects every record |
| StaffPage.RowsPerPageOptionsParse | solbot-website/src/components/staff/StaffManagementPage.new.js:672 | every rows-per-page choice is positive and parses back to itself |
| StaffPage.SelectsAgainstSchema | solbot-website/src/components/staff/StaffManagementPage.new.js:785-820 | department and role choices are outside the schema's enumerations; status choices are inside |
| StaffPage.DepartmentChoiceSelectsNothing | solbot-website/src/components/staff/StaffManagementPage.new.js:785-790 | choosing any department lists nothing from a valid collection |
| StaffPage.RoleChoiceSelectsNothing | solbot-website/src/components/staff/StaffManagementPage.new.js:815-820 | choosing any role lists nothing from a valid collection |
| StaffForm.FormState.constructor | solbot-website/src/components/staff/StaffFormDialog.js:39-49 | the add form: technician, maintenance, active, the default image, and no errors |
| StaffForm.FormState.Prefill | solbot-website/src/components/staff/StaffFormDialog.js:51-63 | in edit mode with a record, the form is that record prefilled; otherwise it is unchanged |
| StaffForm.FormState.ValidateForm | solbot-website/src/components/staff/StaffFormDialog.js:65-84 | the error object built field by field is the form's errors, and the verdict is "no errors" |
| StaffForm.FormState.HandleChange | solbot-website/src/components/staff/StaffFormDialog.js:86-100 | sets only the named field and blanks only that field's shown error |
| StaffForm.FormState.HandleSubmit | solbot-website/src/components/staff/StaffFormDialog.js:102-118 | hands the form over exactly when it is valid; closes only when the save resolved |
| StaffForm.EmailNotBlank | solbot-website/src/components/staff/StaffFormDialog.js:72-76 | an address that matches the pattern is not blank |
| StaffForm.FormErrorsMeaning | solbot-website/src/components/staff/StaffFormDialog.js:65-84 | name is flagged iff blank; e-mail iff it fails the pattern (as missing or malformed); phone iff given and malformed; the form is valid iff none of these |
| StaffForm.DefaultFormRefused | solbot-website/src/components/staff/StaffFormDialog.js:39-47 | a fresh form reports name and e-mail missing; its selects are schema values |
| StaffForm.FormAgreesWithSchema | solbot-website/src/components/staff/StaffFormDialog.js:65-84 | with schema values in the selects, the dialog passes name and e-mail exactly when the schema accepts the record |
| StaffForm.PhoneStricterThanSchema | solbot-website/src/components/staff/StaffFormDialog.js:78-80 | the phone `123` is refused by the dialog but accepted by the schema |
| StaffForm.PrefilledFromStored | solbot-website/src/components/staff/StaffFormDialog.js:51-63 | editing a stored record shows its own values and passes unless its phone fails the pattern |
| AssignmentForm.DateField | solbot-website/src/components/staff/AssignmentDialog.js:93 | an empty date input sends no date |
| AssignmentForm.FormState.constructor | solbot-website/src/components/staff/AssignmentDialog.js:32-41 | the default form and no errors |
| AssignmentForm.FormState.ValidateForm | solbot-website/src/components/staff/AssignmentDialog.js:43-64 | the error object built field by field is the form's errors, and the verdict is "no errors" |
| AssignmentForm.FormState.HandleChange | solbot-website/src/components/staff/AssignmentDialog.js:66-80 | sets only the named field and blanks only that field's shown error |
| AssignmentForm.FormState.HandleSubmit | solbot-website/src/components/staff/AssignmentDialog.js:84-101 | sends the form exactly when it is valid; closes only when the request resolved |
| AssignmentForm.FormErrorsMeaning | solbot-website/src/components/staff/AssignmentDialog.js:43-64 | title, description and location are flagged iff blank, and the start date iff empty |
| AssignmentForm.VerdictIgnoresEndAndStatus | solbot-website/src/components/staff/AssignmentDialog.js:43-64 | the end date and the status never change the errors |
| AssignmentForm.DefaultFormRefused | solbot-website/src/components/staff/AssignmentDialog.js:32-39 | a fresh form asks for the three texts, and for the start only when none was given |
| AssignmentForm.NotBlankNotEmpty | solbot-website/src/components/staff/AssignmentDialog.js:46-56 | a text that passes the blank check is present for the schema |
| AssignmentForm.FormAgreesWithSchema | solbot-website/src/components/staff/AssignmentDialog.js:84-101 | with a schema status, a form the dialog sends is stored as a valid entry; on title and start date the dialog and the schema agree |
| AssignmentForm.BlankDescriptionStricter | solbot-website/src/components/staff/AssignmentDialog.js:50-52 | a description of spaces is refused by the dialog but accepted by the schema |
| Settings.Notice | solbot-website/src/components/settings/SettingsPage.js:262-273 | the notice opens; its severity is success exactly when the request resolved; a resolved update shows the success text and a rejected one always the fallback text, as `err.response?.data?.message` is never set on what the auth service throws |
| Settings.IntendedNotice | solbot-website/src/components/settings/SettingsPage.js:267-273 | the notice the page means: it opens, with severity success exactly when the request resolved |
| Settings.SettingsState.constructor | solbot-website/src/components/settings/SettingsPage.js:120-137 | an empty profile and password form, no errors, and the profile loading |
| Settings.SettingsState.LoadProfile | solbot-website/src/components/settings/SettingsPage.js:141-163 | a loaded user fills the profile; a failed load shows the error notice; loading ends either way |
| Settings.SettingsState.HandleProfileChange | solbot-website/src/components/settings/SettingsPage.js:172-186 | sets only the named profile field and blanks that field's shown error |
| Settings.SettingsState.HandlePasswordChange | solbot-website/src/components/settings/SettingsPage.js:189-203 | sets only the named password field and blanks that field's shown error |
| Settings.SettingsState.ValidateProfileForm | solbot-website/src/components/settings/SettingsPage.js:206-221 | the shared error object becomes the profile's errors, and the verdict is "no errors" |
| Settings.SettingsState.ValidatePasswordForm | solbot-website/src/components/settings/SettingsPage.js:224-245 | the shared error object becomes the password form's errors, and the verdict is "no errors" |
| Settings.SettingsState.HandleProfileUpdate | solbot-website/src/components/settings/SettingsPage.js:248-277 | sends name and e-mail exactly when the profile is valid, reports the answer, and on a rejection shows "Failed to update profile" whatever the server said |
| Settings.SettingsState.HandlePasswordUpdate | solbot-website/src/components/settings/SettingsPage.js:280-317 | sends the current and new passwords exactly when valid; on success all three fields are emptied; a rejection shows "Failed to update password" whatever the server said |
| Settings.PasswordErrorsMeaning | solbot-website/src/components/settings/SettingsPage.js:224-245 | current password is flagged iff empty; new password iff shorter than 6; confirmation iff empty or different; valid iff none of these |
| Settings.ResetFormRefused | solbot-website/src/components/settings/SettingsPage.js:301-305 | the emptied password form would be refused on all three fields |
| Settings.ProfileRulesAreStaffRules | solbot-website/src/components/settings/SettingsPage.js:206-221 | the profile form applies the staff dialog's rules and messages to name and e-mail |
| Settings.ValidationsDisjoint | solbot-website/src/components/settings/SettingsPage.js:206-245 | the two validations flag disjoint fields, so either one wipes the other's messages |
| Settings.LoadedRole | solbot-website/src/components/settings/SettingsPage.js:148 | a missing role is shown as `user`; a shown role is never empty |
| Settings.ServerMessageLost | solbot-website/src/components/settings/SettingsPage.js:267-273 | as written, a rejection whose body says "Email already in use" shows "Failed to update profile", while the intended notice shows the server's message |
| Settings.IntendedShowsServerMessage | solbot-website/src/components/settings/SettingsPage.js:267-273 | the intended notice shows a non-empty server message, and the fallback text when there is none or no response came |
| Settings.AsWrittenAgreesWithoutMessage | solbot-website/src/components/settings/SettingsPage.js:267-273 | the page's notice and the intended one differ exactly on a rejection carrying a non-empty message other than the fallback |
| Login.LoginState.constructor | solbot-website/src/components/auth/LoginPage.js:166-176 | the demonstration credentials, no messages, not loading |
| Login.LoginState.HandleChange | solbot-website/src/components/auth/LoginPage.js:214-232 | sets only the named field, blanks that field's message, and clears the general error |
| Login.LoginState.ValidateForm | solbot-website/src/components/auth/LoginPage.js:185-212 | both field messages are recomputed, and the verdict is "both pass" |
| Login.LoginState.HandleSubmit | solbot-website/src/components/auth/LoginPage.js:234-268 | sends exactly when valid; navigates only on a login; a rejection sets the general message and, as written, puts the blamed field's message over the messages shown when the form was submitted |
| Login.ValidationMeaning | solbot-website/src/components/auth/LoginPage.js:185-212 | the e-mail is flagged iff it fails the pattern (missing iff empty); the password iff shorter than 6 (missing iff empty) |
| Login.PasswordWordWins | solbot-website/src/components/auth/LoginPage.js:250-260 | a message containing `password` is blamed on the password, whatever else it mentions |
| Login.FailureShowsOnlyThisAttempt | solbot-website/src/components/auth/LoginPage.js:250-264 | after a rejected valid form, a field shows a message exactly when the rejection was blamed on it |
| Login.AsWrittenAgreesFromClean | solbot-website/src/components/auth/LoginPage.js:250-264 | when no field message showed before the submission, the handler as written leaves the same field messages as the intended one |
| Login.StalePasswordMessage | solbot-website/src/components/auth/LoginPage.js:250-261 | as written, a password message from an earlier attempt survives a later rejection blamed on the e-mail |
| LoginTsx.PrecheckError | solbot-website/src/components/auth/LoginPage.tsx:79-92 | there is no message exactly when the e-mail passes the loose pattern and the password has at least 6 characters |
| LoginTsx.LoginState.constructor | solbot-website/src/components/auth/LoginPage.tsx:59-64 | the demonstration e-mail, an empty password, no error, not loading |
| LoginTsx.LoginState.HandleChange | solbot-website/src/components/auth/LoginPage.tsx:66-72 | sets only the named field and clears the error |
| LoginTsx.LoginState.HandleSubmit | solbot-website/src/components/auth/LoginPage.tsx:74-123 | requests exactly when the checks pass; redirects and stores the token only on an `ok` answer; the message is that of the outcome; loading ends on every path |
| LoginTsx.FailureMessages | solbot-website/src/components/auth/LoginPage.tsx:105-113 | 401 gives "Invalid email or password", 404 "User not found", otherwise the server's message or "Login failed"; never empty |
| LoginTsx.MessageIffNoRedirect | solbot-website/src/components/auth/LoginPage.tsx:74-123 | after a submission, no message is shown exactly when the page redirects (given a network error with a message) |
| LoginTsx.EmailCheckedFirst | solbot-website/src/components/auth/LoginPage.tsx:79-92 | with both fields wrong, only the e-mail is reported |
| LoginTsx.LooserThanJavaScriptPage | solbot-website/src/components/auth/LoginPage.tsx:80-92 | every form the JavaScript login page sends passes this page's checks, but not the other way round |
| Anomalies.Keep | solbot-website/src/components/anomalies/AnomalyDetectionPage.tsx:209 | filtering never lengthens the table |
| Anomalies.AnomalyPage.constructor | solbot-website/src/components/anomalies/AnomalyDetectionPage.tsx:148-151 | the filter starts at `all` with the menu closed |
| Anomalies.AnomalyPage.HandleStatusFilter | solbot-website/src/components/anomalies/AnomalyDetectionPage.tsx:176-179 | sets the filter and closes the menu |
| Anomalies.KeepAppend | solbot-website/src/components/anomalies/AnomalyDetectionPage.tsx:209 | filtering two tables one after the other is filtering each and concatenating, so order is kept |
| Anomalies.KeepMembers | solbot-website/src/components/anomalies/AnomalyDetectionPage.tsx:209 | a row is kept exactly when it is in the table and has the status; the number kept is that status's count |
| Anomalies.StatusesPartition | solbot-website/src/components/anomalies/AnomalyDetectionPage.tsx:207-209 | with valid rows, the three filters' sizes add up to the table size |
| Anomalies.FilterMeaning | solbot-website/src/components/anomalies/AnomalyDetectionPage.tsx:207-209 | `all` returns the table unchanged; any other filter returns exactly the rows with that status |
| Anomalies.SampleCounts | solbot-website/src/components/anomalies/AnomalyDetectionPage.tsx:103-145 | the sample table has two fixed, one not-fixed and two pending rows, five in all |
| Anomalies.ChipsDistinguishStatuses | solbot-website/src/components/anomalies/AnomalyDetectionPage.tsx:181-205 | the three statuses get distinct, non-grey colours and distinct labels; anything else is grey and shown as it is |

## Left out

- Network, storage and the clock are parameters. The database's answers, HTTP answers, thrown errors, the token storage and today's date are all inputs. No request is modelled as taking time.
- Concurrency: each controller handler is atomic. The read-modify-write race between two requests on one record is not modelled.
- Mongoose update validators: `findByIdAndUpdate` with `runValidators` is modelled as "validate the merged record". Real update validators check only the paths in the body and skip `required` on absent paths.
- The unique-index failure is modelled as a 500 with its own body. The driver's exact error text is not.
- Identifiers and timestamps are abstract naturals. Records created at the same moment keep one fixed order; MongoDB leaves their order unspecified.
- ObjectId generation is a counter. After each write the counter moves above every id the written record holds (`StaffStore.Above`), so a generated id is never in use. Real ObjectIds are unique without that ordering.
- StaffStore.IndexOfStaff: an `:id` that is not a valid ObjectId makes `findById` throw a cast error, which every per-id handler answers with 500. Ids here are naturals, so that answer is not modelled.
- Create with a body `_id` already in use and a taken e-mail is answered with the duplicate-id error. Which unique index MongoDB reports first is not modelled.
- StaffStore.UpdateOutcome: a body `_id` other than the record's is answered 500 (`ImmutableId`), as MongoDB refuses to change `_id`. The driver's error text is not modelled.
- `$group` output order: groups are listed by first appearance. MongoDB does not specify the order.
- StaffSchema.StaffInput, StaffSchema.AssignmentInput, StaffStore.PatchEntry, StaffQuery.ListParams: every value is a string (or a date or id) or absent. JSON `null`, numbers, arrays and objects in a body, and the arrays (`?status=a&status=b`) and operator objects (`?status[$ne]=x`) that Express's query parser builds, are not modelled. Such values reach `find`, `create` and `findByIdAndUpdate` unchanged and do not select or store as the model says. A `null` status could pass an enum validator in some Mongoose versions; the sums of `StaffStatistics.StatsAddUp` then no longer hold.
- StaffQuery.PageNumber, StaffQuery.PageSize: `parseInt` yields a double, so a page or limit beyond 2^53 loses precision, and so does `(page - 1) * limit`. The model's integers are exact.
- StaffForm.FormState.HandleSubmit: whether the save resolves is a parameter. The staff page's `onSave` (`handleSaveStaff`, StaffManagementPage.new.js:250-283) catches every error and never rethrows, so with that page the save always resolves and the dialog closes even after a failed save; the page shows the error notice.
- Regular expressions: `new RegExp(search, 'i')` is a parameter, the engine. It either throws (the listing answers 500) or gives a test. Only `StaffQuery.LiteralSearchSelects` assumes what the engine does: a pattern without metacharacters is found anywhere in the text, ignoring case with ASCII folding.
- A negative skip is answered 500, as MongoDB refuses it. A negative limit is read as a single batch of `|limit|` records.
- StaffService.ServerReadsUrl: requires filter values without `&`, `#`, `%`, `+`, `]` or white space. Percent-decoding, `+` decoding and fragments are not modelled. The server's query parser is modelled as splitting each piece at its first `=`; the real parser splits at `]=` when a piece holds one, and values without `]` never do. `AmpersandCutsSearch` shows what happens with `&`.
- String lengths count characters, not UTF-16 code units. `toUpperCase` is modelled for ASCII letters only.
- StaffPage.PageState.HandleChangeRowsPerPage: requires a value that `parseInt` reads as a number. The select only offers 5, 10, 25 and 50, and the NaN that another value would store is not modelled.
- SetField in each form ignores a name the form does not have. The source would add that key to the form object, but no input of the dialogs carries such a name.
- The assignment dialog's date inputs are text. How the server turns that text into a date is a parameter (`dateOf`), and `toISOString` is not modelled.
- LoginTsx.LoginState.HandleSubmit: a thrown value that is not an `Error`, and a body that is not JSON, are not modelled. Both would set "An unexpected error occurred" or the parser's message.
- The settings page's image upload, tabs, theme and password visibility toggles are not modelled. Neither are the staff page's view mode, snackbars, dialogs and action menus, or the detail dialog's tabs: they only decide what is shown.
- The axios wrappers of `staffService.js` other than the URL of `getStaff` are not modelled; they only forward a request.
- Authentication and role checks of the routes are not part of this model.

## Findings

| source | as written | input that shows it | evidently intended | confidence | as-written member | corrected member |
|---|---|---|---|---|---|---|
| solbot-website/src/components/auth/LoginPage.js:250-261 | after a rejected login, the handler spreads the `formErrors` it captured when the page rendered, not the object `validateForm` just set | an earlier rejection left "Invalid password"; the user edits only the e-mail and submits `a@x.com` / `secret1`; the server's message mentions `email` | the field messages after a rejection are this attempt's validation result plus the blamed field, so the password message is empty | medium, not executed | Login.StalePasswordMessage | Login.FailureShowsOnlyThisAttempt |
| solbot-website/src/components/settings/SettingsPage.js:267-273 | a rejected update shows `err.response?.data?.message`, but the auth service throws the response body (or a plain `Error`), which has no `response`, so the server's message is never shown; the password update at lines 306-312 does the same | the server answers PUT `/me` with `{success: false, message: "Email already in use"}` | the notice shows the server's message, and the fallback only when there is none | high, not executed | Settings.ServerMessageLost | Settings.IntendedShowsServerMessage |
