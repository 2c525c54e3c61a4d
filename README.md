# docflow correspondence tracking — a Dafny model

docflow tracks incoming correspondence: letters, e-mails, requests and complaints. Each item
gets a reference number, a type, a priority, a status, a sender, a due date, an optional
assignee and an optional division. This project models the core of the application and proves
properties of it:

- **Date helpers.** The generated reference number `COR-<year>-<4 digits>`, its decoding, the
  past-due test and the whole-day distance to a due date (`date_utils.dfy`).
- **Request gate.** The middleware that decides, for a path and a session, whether a request
  proceeds, goes home or goes to the login page (`middleware.dfy`).
- **Authorisation.** `canMutate` and `requireAuth`, and the 401-before-403 gate that both
  create paths apply (`authorization.dfy`).
- **Schema.** The three enums, the defaults, the row shapes, and the unique and foreign-key
  constraints as a well-formedness predicate (`schema.dfy`).
- **Store.** The correspondence table as a class, `Store.CorrespondenceStore`. Its `Insert`
  turns the values handed to the query builder into a row the way the database does: an
  omitted column takes its default, an explicit null in a NOT NULL column is refused, and an
  enum column accepts only its labels. It then checks the constraints, appends the row and
  advances the serial (`store.dfy`).
- **Reads.** The listing, newest first with its two left joins; the lookup by id; the
  per-status and per-priority statistics; the active users by name; the departments by name
  (`queries.dfy`).
- **Create paths.** `POST /api/correspondence` (`correspondence_route.dfy`) and the server
  action `createCorrespondence` (`actions.dfy`). Both normalise the incoming fields, apply the
  gate and insert. `GET /api/correspondence/stats` is in `stats_route.dfy`.
- **Triage list view.** Each item's due group and urgency badge; the search and select
  filters; bucketing by group; and the in-place, stable sort of each bucket by due date, kept
  as an array algorithm (`list_view.dfy`).
- **Form.** The initial state with its `||` fallbacks, the merge that runs when `initialData`
  changes, the `"none"` ↔ `null` selects and submission (`form.dfy`). The form state is the
  class `Form.CorrespondenceForm`.

JavaScript's dynamic values are the datatype `Js.Value`: `undefined`, `null`, strings,
integral numbers and `NaN`. It carries the truthiness, `||`, `Number()`, `toString`,
`padStart`, `toLowerCase`, `includes` and `new Date(...)` the code relies on (`js.dfy`).

Several inputs come from outside the code and are parameters:

- the clock: `now`, `year`, and the day count `daysUntil`;
- the random draw behind a reference number: `draw`;
- the date-string parser: `parseDate`;
- the ISO-day formatter: `isoDay`.

A request body that cannot be read is `None`.

The stable `Array.prototype.sort` and the SQL `ORDER BY` are both modelled by one stable
insertion sort, `Sorting.InsertionSort`. For SQL orderings only sortedness and permutation are
claimed, because the order of ties is not specified there.

## Model

| member | source | states |
|---|---|---|
| DateUtils.Suffix | src/lib/date-utils.ts:30 | for a draw in [0, 10000) the random part is exactly four decimal digits whose value is the draw |
| DateUtils.ReferenceNumber | src/lib/date-utils.ts:28-32 | `generateReferenceNumber()` is `COR-`, the year, `-` and four digits whose value is the draw |
| DateUtils.ParseReferenceNumber | src/lib/date-utils.ts:28-32 | the decoder of the reference-number format; any draw it returns lies below 10000 |
| DateUtils.ReferenceNumberRoundTrip | src/lib/date-utils.ts:28-32 | decoding a generated reference number gives back its year and its draw |
| DateUtils.ReferenceNumberInjective | src/lib/date-utils.ts:28-32 | distinct (year, draw) pairs give distinct reference numbers |
| DateUtils.ReferenceNumberLength | src/lib/date-utils.ts:29-31 | a four-digit year always gives a 13-character reference number |
| DateUtils.ParseShape | src/lib/date-utils.ts:31 | the decoder splits `COR-<year>-<suffix>` at its fixed positions and reads the year back as a signed integer |
| DateUtils.DaysUntilDue | src/lib/date-utils.ts:18-21 | the day count is the number of whole 24-hour days between now and the due date, rounded toward zero on both sides of now |
| DateUtils.IsOverdue | src/lib/date-utils.ts:23-26 | `isOverdue` holds only when the whole-day count to the due date is zero or less, and fails only when it is zero or more |
| DateUtils.DaysUntilDueAndIsOverdue | src/lib/date-utils.ts:18-26 | a negative day count implies past due and a positive one implies not past due, but an item due a moment ago is past due with a day count of 0 |
| DateUtils.DaysUntilDueMonotonic | src/lib/date-utils.ts:18-21 | a later due date never has fewer days left |
| Js.OrPicksTruthy | app/api/correspondence/route.ts:87-88 | `a \|\| b` is truthy exactly when one of its operands is |
| Js.NatToStringRoundTrip | src/lib/date-utils.ts:30 | the decimal digits `toString` writes for a natural number have that number as their value |
| Js.NatToStringInjective | src/lib/date-utils.ts:30 | distinct naturals are written with distinct digit strings |
| Js.LeadingZerosValue | src/lib/date-utils.ts:30 | padding a digit string with leading zeros keeps it all digits and keeps its value |
| Js.NumberOf | app/api/correspondence/route.ts:71 | `Number(s)` is always a number or NaN, and white space alone reads as 0 |
| Js.NumberOfIntToString | components/correspondence-form.tsx:338 | `Number(id.toString())` is the id again, for every integer |
| Js.NumberOfPadded | app/api/correspondence/route.ts:71 | `Number` also reads an integer back with a `+` in front and white space around it |
| Js.SignedDigits | app/api/correspondence/route.ts:71 | an accepted decimal integer starts with a digit or a sign |
| Js.SignedDigitsIntToString | app/api/correspondence/route.ts:71 | an integer's `toString`, and a non-negative one with a `+` in front, reads back as the integer |
| Js.SignedDigitsPadded | app/api/correspondence/route.ts:71 | the same holds once the white space around the text is trimmed, for any set of white-space characters that excludes digits and signs |
| Js.SignedText | app/api/correspondence/route.ts:71 | an integer's text, with an optional `+`, starts with a sign or a digit, ends with a digit and reads back as the integer |
| Js.TrimStart | app/api/correspondence/route.ts:71 | trimming the front leaves a suffix of the text that does not start with white space |
| Js.TrimEnd | app/api/correspondence/route.ts:71 | trimming the end leaves a prefix of the text that does not end with white space |
| Js.TrimPadded | app/api/correspondence/route.ts:71 | trimming removes exactly the white space around a text that neither starts nor ends with white space |
| Js.PadStart | src/lib/date-utils.ts:30 | `padStart` gives the longer of the text and the width, ends with the text and fills the front with the fill character |
| Js.NewDate | app/api/correspondence/route.ts:83-85 | `new Date(v)` is a time value or an invalid date; `null` gives the epoch and `undefined` an invalid date |
| Js.ToLower | app/correspondence/CorrespondenceListClient.tsx:130-135 | lower-casing keeps the length and maps each character on its own |
| Js.Includes | app/correspondence/CorrespondenceListClient.tsx:133-135 | `includes` needs the part to be no longer than the text, and holds for a part the text starts with, the empty part included |
| Js.IncludesIff | app/correspondence/CorrespondenceListClient.tsx:133-135 | `s.includes(q)` holds exactly when `q` occurs in `s` at some position |
| Middleware.Decide | middleware.ts:4-29 | for a path the matcher passes: a signed-in request to a `/login…` path goes home; a signed-out request to a path that is neither `/login…` nor `/api/auth…` goes to the login page with the path as `callbackUrl`; every other request proceeds — each outcome stated as an if-and-only-if |
| Middleware.AuthApiAlwaysOpen | middleware.ts:10-14 | every `/api/auth…` path proceeds, with or without a session |
| Middleware.LoginPrefixIsPublic | middleware.ts:10-13 | matching is by prefix: `/loginx` is treated as the login page in both session states |
| Authorization.CanMutate | src/lib/authorization.ts:3-5 | a role that may change correspondence is neither empty nor the default role `staff` |
| Authorization.CanMutateRoles | src/lib/authorization.ts:3-5 | `admin` and `manager` may change correspondence; `staff` (the default role), `Admin` and the empty role may not |
| Authorization.RequireAuth | src/lib/authorization.ts:7-13 | fails with `Unauthorized` exactly when there is no session or it has no user, and otherwise returns the session unchanged |
| Authorization.GateFor | app/api/correspondence/route.ts:58-64 | the session check comes before the role check: no user, user without permission and permitted user, each as an if-and-only-if over `requireAuth` and `canMutate` |
| Authorization.MissingUserIsNotForbidden | app/api/correspondence/route.ts:58-64 | a request without a user is never judged on its role |
| Schema.ParsePriority | src/db/schema.ts:3 | the `priority` cast accepts exactly the four labels and maps each to the value of that name |
| Schema.ParseStatus | src/db/schema.ts:4 | the `status` cast accepts exactly the four labels and maps each to the value of that name |
| Schema.ParseType | src/db/schema.ts:5 | the `correspondence_type` cast accepts exactly the seven labels and maps each to the value of that name |
| Schema.EnumNamesRoundTrip | src/db/schema.ts:3-5 | every enum value is stored under its label and reads back as itself |
| Schema.EnumSizes | src/db/schema.ts:3-5 | the enums have exactly 4, 4 and 7 distinct labels |
| Schema.InsertViolation | src/db/schema.ts:27-47 | a new correspondence row is accepted exactly when its id and reference number are new and its creator, assignee and division exist |
| Schema.InsertPreservesWellFormed | src/db/schema.ts:7-71 | an accepted insert keeps every unique column unique and every foreign key pointing at a row |
| Schema.ReferenceNumberIdentifiesRow | src/db/schema.ts:29 | in a well-formed table a reference number identifies at most one row |
| Store.RequiredText | src/db/schema.ts:29-35 | a NOT NULL text column refuses exactly an omitted or null value and stores a string as given |
| Store.OptionalText | src/db/schema.ts:36-39 | a nullable text column is null exactly for an omitted or null value |
| Store.IntegerText | src/db/schema.ts:40-41 | the database reads an integer from text only within the int4 range |
| Store.IntegerTextPadded | src/db/schema.ts:40-41 | the database reads an integer's `toString`, with a `+` in front and white space around it, exactly when the integer is in the int4 range |
| Store.IntegerTextOfInt | src/db/schema.ts:40-41 | the text of an integer is accepted exactly when the integer is in the int4 range, and then reads as that integer |
| Store.NotIntegerText | src/db/schema.ts:40-41 | a text starting with neither a digit, a sign nor white space, such as `NaN`, is refused |
| Store.IntegerOf | src/db/schema.ts:40-41 | an integer column stores a number exactly when it is in the int4 range, as given, refuses NaN, and holds only int4 values |
| Store.OptionalInteger | src/db/schema.ts:40-41 | a nullable integer column is null for an omitted or null value; a number is stored exactly when it is in the int4 range, as given |
| Store.TimestampOf | src/db/schema.ts:42-44 | a valid date is stored as its time value |
| Store.EnumOf | src/db/schema.ts:32-34 | an enum column takes its default when omitted and otherwise accepts only a label; every accepted value came from one of the two |
| Store.Descriptive | src/db/schema.ts:29-35 | the reference number is stored verbatim, and an omitted priority or status takes the column default |
| Store.Links | src/db/schema.ts:40-41 | an omitted or null assignee or division is stored as null, and a number as given |
| Store.Dates | src/db/schema.ts:42-44 | an omitted received date defaults to the statement time; the due date is stored as given, and a missing or invalid one refuses the row; an omitted or null completion date is null |
| Store.Creator | src/db/schema.ts:47 | the creator is required; a number is accepted exactly when it is in the int4 range, and is stored as given |
| Store.RowOf | src/db/schema.ts:27-50 | the built row carries the serial id, the statement time as `createdAt` and `updatedAt`, no attachments and the column defaults; numeric assignee, division and creator are stored as given; a missing due date or creator refuses the row |
| Store.InsertOutcome | src/db/schema.ts:27-50 | an insert succeeds exactly when the row can be built and violates no constraint, and then returns that row |
| Store.CorrespondenceStore.constructor | src/db/schema.ts:27-28 | a store over given users and departments starts with an empty table, a valid state and the serial at 1 |
| Store.CorrespondenceStore.Insert | app/api/correspondence/route.ts:68-90 | the insert's outcome is `InsertOutcome`; on success exactly the returned row is appended and the serial advances; on failure nothing changes; validity is kept |
| Store.CorrespondenceStore.Stats | app/api/correspondence/stats/route.ts:8-20 | the statistics of the current table |
| Store.CorrespondenceStore.List | app/api/correspondence/route.ts:10-44 | the current table listed newest first with its joins |
| Store.SerialIdIsFresh | src/db/schema.ts:28 | a serial above every existing id never collides with the primary key |
| Queries.CountWhere | src/lib/actions.ts:55-62 | a filtered count never exceeds the number of rows |
| Queries.StatsOf | src/lib/actions.ts:51-67 | `total` is the number of rows and each of the eight counts is at most `total` |
| Queries.CountWhereSnoc | src/lib/actions.ts:55-62 | appending a row adds one to the count of each filter it satisfies and nothing to the others |
| Queries.StatusCountsSum | src/lib/actions.ts:54-58 | the four status counts add up to `total` |
| Queries.PriorityCountsSum | src/lib/actions.ts:59-62 | the four priority counts add up to `total` |
| Queries.StatsAfterInsert | app/api/correspondence/stats/route.ts:10-18 | inserting a row raises `total`, the count of its status and the count of its priority by one each, and no other count |
| Queries.FindUser | src/lib/actions.ts:43 | the join finds a user with the key when one exists, and finds nothing only when none has it |
| Queries.FindDepartment | src/lib/actions.ts:44 | the join finds a department with the key when one exists, and finds nothing only when none has it |
| Queries.Join | src/lib/actions.ts:29-44 | a listed row keeps the row; its assignee and division are present exactly when the key is set and names an existing row, and then carry that key |
| Queries.CreatedNoEarlierTotalPreorder | src/lib/actions.ts:45 | the `desc(createdAt)` ordering is a total preorder |
| Queries.NewestFirst | src/lib/actions.ts:45 | the ordered rows are a permutation of the table with `createdAt` non-increasing |
| Queries.ListCorrespondence | src/lib/actions.ts:12-48 | every row of the table is listed exactly once, newest first |
| Queries.FindCorrespondence | src/lib/actions.ts:106 | finds a row with the id, and finds none exactly when no row has it |
| Queries.CorrespondenceById | src/lib/actions.ts:70-109 | the lookup is empty exactly when no row has the id, and otherwise returns a row of the table with that id |
| Queries.CorrespondenceByIdIsUnique | src/lib/actions.ts:106-108 | in a well-formed table the lookup by a row's id returns that very row |
| Queries.UserNameLeTotalPreorder | src/lib/actions.ts:176 | ordering users by name is a total preorder |
| Queries.DepartmentNameLeTotalPreorder | src/lib/actions.ts:189 | ordering departments by name is a total preorder |
| Queries.ActiveSortedByName | src/lib/actions.ts:175-176 | the result holds exactly the active users, as many as there are, in name order |
| Queries.Summaries | src/lib/actions.ts:167-173 | the projection keeps the length and maps each user to its selected columns |
| Queries.SummariesMembership | src/lib/actions.ts:167-173 | a user's projection is in the projected list, and every projected entry comes from a user in the list |
| Queries.ActiveUsersByName | src/lib/actions.ts:165-177 | `getUsers()` returns in name order the projection of every active user and of nothing else |
| Queries.DepartmentsByName | src/lib/actions.ts:180-190 | `getDepartments()` returns every department exactly once, in name order |
| Sorting.Filter | app/correspondence/CorrespondenceListClient.tsx:131 | `filter` keeps exactly the elements that satisfy the predicate |
| Sorting.FilterIsSubsequence | app/correspondence/CorrespondenceListClient.tsx:126-151 | filtering yields a subsequence of its input: order is kept |
| Sorting.FilterFilter | app/correspondence/CorrespondenceListClient.tsx:138-149 | two filters in a row are one filter by the conjunction |
| Sorting.InsertionSort | app/correspondence/CorrespondenceListClient.tsx:165 | sorting is a permutation of its input |
| Sorting.InsertionSortSorted | app/correspondence/CorrespondenceListClient.tsx:165 | with a total preorder, the result is sorted |
| Sorting.InsertionSortStable | app/correspondence/CorrespondenceListClient.tsx:165 | the sort is stable: elements that compare equal keep their relative order |
| Sorting.LexLeTotal | src/lib/actions.ts:176 | any two names are ordered one way or the other |
| Sorting.LexLeTransitive | src/lib/actions.ts:176 | ordering names is transitive |
| CorrespondenceRoute.ValuesFromBody | app/api/correspondence/route.ts:70-89 | `POST` takes the creator from the session user's id through `Number()`, the reference number verbatim from the body, falsy ids as null, a falsy completion date as null, and the dates through `new Date` |
| CorrespondenceRoute.Post | app/api/correspondence/route.ts:56-100 | 401 without a user, 403 without permission, 500 when the body cannot be read, all without a change; otherwise 201 with the appended row and the serial advanced by one, or 500 with nothing changed |
| CorrespondenceRoute.FalsyValuesStoredAsNull | app/api/correspondence/route.ts:85-88 | a falsy assignee, division or completion date in the body is stored as null, whatever the status |
| CorrespondenceRoute.PostedRowSources | app/api/correspondence/route.ts:71-77 | a stored row has `Number(session.user.id)` as its creator, the body's reference number and the defaults for a missing priority or status |
| CorrespondenceRoute.DueDateRequired | app/api/correspondence/route.ts:84 | a body without a due date never creates a row |
| CorrespondenceRoute.Get | app/api/correspondence/route.ts:8-54 | 200 with the listing, newest first |
| StatsRoute.Get | app/api/correspondence/stats/route.ts:6-30 | 200 with the statistics of the current table |
| Actions.ValuesFromInput | src/lib/actions.ts:138-155 | the reference number is the generated one, status and completion date are never set, and the creator, assignee and division come raw from the argument |
| Actions.CreateCorrespondence | src/lib/actions.ts:112-162 | fails with `Unauthorized` without a user and with the Forbidden message without permission, changing nothing; otherwise it inserts the values built from the argument and a generated reference number, and on success the serial advances by one |
| Actions.CreatedRowSources | src/lib/actions.ts:134-155 | a created row carries the generated reference number, which decodes to the year and draw; it is pending with no completion date, and its creator is the argument's `createdById` |
| Actions.ReferenceNumberNotFromInput | src/lib/actions.ts:134-139 | a `referenceNumber` in the argument has no effect on the inserted values |
| Actions.ZeroAssigneeRefused | src/lib/actions.ts:149 | an assignee id of 0 is passed through, not turned into null, so the insert is refused when no user has id 0 |
| ListView.ItemOf | app/correspondence/CorrespondenceListClient.tsx:25-52 | a listed row reaches the view with its status label and its due date |
| ListView.DueGroupFor | app/correspondence/CorrespondenceListClient.tsx:60-67 | completed items are in the completed group whatever their due date; every other item is overdue, this week, this month or beyond exactly by the day ranges <0, 0–7, 8–30 and >30 |
| ListView.GroupOf | app/correspondence/CorrespondenceListClient.tsx:162 | `getDueGroup(item)`: an item is in the completed group exactly when its status is `completed`, and an uncompleted item is overdue exactly when its day count is negative |
| ListView.OnlyCompletedStatusMatters | app/correspondence/CorrespondenceListClient.tsx:60-66 | no status other than `completed` changes the group, so an `overdue` item due in the future is not in the overdue group |
| ListView.GroupOrderIsComplete | app/correspondence/CorrespondenceListClient.tsx:87-115 | `GROUP_ORDER` names each group exactly once, and the groups have distinct keys and headings |
| ListView.DueBadgeFor | app/correspondence/CorrespondenceListClient.tsx:69-85 | no badge for completed items. Otherwise: "Overdue" for a negative count, "Due today" for 0, "<n>d left" in orange for 1–3 and in yellow for 4–7, nothing beyond a week |
| ListView.BadgeIffUrgentGroup | app/correspondence/CorrespondenceListClient.tsx:60-85 | an item has a badge exactly when it is in the overdue or the one-week group, and a red badge exactly when it is overdue or due today |
| ListView.PastDueTodayNotInOverdueGroup | app/correspondence/CorrespondenceListClient.tsx:62-63 | an item due a moment ago is past due, yet it is grouped under this week and badged "Due today" |
| ListView.PriorityBadgeText | app/correspondence/CorrespondenceListClient.tsx:170-178 | a priority outside the four labels is shown as it is |
| ListView.StatusBadgeText | app/correspondence/CorrespondenceListClient.tsx:180-188 | a status outside the four labels is shown as it is |
| ListView.BadgeTextsDistinct | app/correspondence/CorrespondenceListClient.tsx:170-188 | distinct priorities and distinct statuses are shown with distinct texts |
| ListView.FilteredData | app/correspondence/CorrespondenceListClient.tsx:126-151 | the filtered list is no longer than the list, holds only listed items, and under a status select only items of that status |
| ListView.FilteredDataIsOneFilter | app/correspondence/CorrespondenceListClient.tsx:126-151 | the chain of search and select filters is a single filter by "every active filter accepts the item" |
| ListView.StepFilter | app/correspondence/CorrespondenceListClient.tsx:138-149 | one optional stage of the chain is a filter by the conjunction |
| ListView.FilteredDataSpec | app/correspondence/CorrespondenceListClient.tsx:126-151 | the filtered list is an order-preserving subsequence holding exactly the items that pass every active filter |
| ListView.InitialFiltersKeepEverything | app/correspondence/CorrespondenceListClient.tsx:118-151 | with an empty search and every select on "all", the list is unchanged |
| ListView.SearchIgnoresQueryCase | app/correspondence/CorrespondenceListClient.tsx:129-130 | typing the search in lower case shows the same filtered list as typing it in any case |
| ListView.ToLowerIdempotent | app/correspondence/CorrespondenceListClient.tsx:130 | lower-casing twice is lower-casing once |
| ListView.SearchHitIsSubstring | app/correspondence/CorrespondenceListClient.tsx:131-136 | an item matches exactly when the lower-cased query occurs in the lower-cased subject, sender name or reference number |
| ListView.DueLeTotalPreorder | app/correspondence/CorrespondenceListClient.tsx:165 | the due-date comparator is a total preorder |
| ListView.InsertLandsAt | app/correspondence/CorrespondenceListClient.tsx:165 | inserting into a sorted list puts the new item right after the last item that may precede it |
| ListView.InsertInto | app/correspondence/CorrespondenceListClient.tsx:165 | one step of the in-place sort: the array's prefix becomes the stable insertion of the next element, and the rest is untouched |
| ListView.InsertionSortSnoc | app/correspondence/CorrespondenceListClient.tsx:165 | sorting a list one element longer is inserting that element into the sorted list |
| ListView.SortByDueDate | app/correspondence/CorrespondenceListClient.tsx:165 | the array sorted in place equals the stable sort of its old contents |
| ListView.PushIntoGroups | app/correspondence/CorrespondenceListClient.tsx:154-163 | after the `forEach`, each group's list holds the filtered items of that group, in filtered order |
| ListView.SortGroup | app/correspondence/CorrespondenceListClient.tsx:165 | sorting one group replaces its list by the sorted list and changes no other group |
| ListView.GroupedData | app/correspondence/CorrespondenceListClient.tsx:153-168 | every group holds the filtered items of that group, sorted stably by due date |
| ListView.StageAdvance | app/correspondence/CorrespondenceListClient.tsx:164-166 | each step of the `GROUP_ORDER` loop sorts exactly the group it names |
| ListView.BucketMembership | app/correspondence/CorrespondenceListClient.tsx:161-163 | a filtered item is in its own group's list and in no other |
| ListView.BucketsPartition | app/correspondence/CorrespondenceListClient.tsx:153-163 | the five groups together hold the filtered items, each as often as it occurs |
| ListView.AllBucketsSnoc | app/correspondence/CorrespondenceListClient.tsx:161-163 | pushing one more item adds it exactly once to the groups together |
| ListView.BucketSnoc | app/correspondence/CorrespondenceListClient.tsx:162 | pushing an item grows its own group's list by that item and no other list |
| ListView.GroupsSorted | app/correspondence/CorrespondenceListClient.tsx:165 | each group is ordered by ascending due date |
| ListView.GroupsStable | app/correspondence/CorrespondenceListClient.tsx:165 | items of a group due at the same instant keep their filtered order |
| ListView.Displayed | app/correspondence/CorrespondenceListClient.tsx:299-301 | an item is shown exactly when it is in one of the five groups |
| ListView.DisplayedIsPermutation | app/correspondence/CorrespondenceListClient.tsx:299-301 | the groups shown in `GROUP_ORDER` hold exactly the filtered items, each once |
| Form.InitialFormData | components/correspondence-form.tsx:101-118 | the initial state has exactly the sixteen fields, each the initial value when truthy and otherwise its fallback |
| Form.InitialDefaults | components/correspondence-form.tsx:101-118 | without initial data the form opens as a pending letter of normal priority, with a generated reference number, empty texts and no assignee or division; an initial assignee of 0 also opens as none |
| Form.Merge | components/correspondence-form.tsx:121-135 | the merged state has the keys of both objects plus the six explicit ones. A guarded field keeps its previous value when the incoming one is falsy. A date becomes the incoming value's day, or keeps its previous value when falsy. Any other key takes `initialData`'s value when present and otherwise keeps its previous one |
| Form.MergedField | components/correspondence-form.tsx:121-135 | a truthy incoming value wins, as its day for a date; a falsy incoming guarded or date field, or a key `initialData` lacks, keeps the previous value |
| Form.MergeIdempotent | components/correspondence-form.tsx:121-135 | running the effect twice with the same `initialData` gives the state of one run |
| Form.MergeKeepsFields | components/correspondence-form.tsx:123-126 | a complete state stays complete through the merge and gains only the keys `initialData` brings |
| Form.LockedReferenceNumberIsInitial | components/correspondence-form.tsx:168 | a new item's reference number is editable; when the input is locked, the initial state and every merge show the initial data's reference number |
| Form.SelectDisplay | components/correspondence-form.tsx:337 | a falsy id shows as "none", and a number shows as "none" exactly when it is 0 |
| Form.SelectChoose | components/correspondence-form.tsx:338 | a choice sets null exactly for "none", and otherwise a number or NaN |
| Form.SelectRoundTrip | components/correspondence-form.tsx:337-338 | choosing what the select shows for a non-zero id sets that id again, and a falsy id comes back as null |
| Form.ChooseThenDisplay | components/correspondence-form.tsx:357-358 | choosing an option named by a non-zero id and showing the result shows that option |
| Form.JsonBody | app/correspondence/new/page.tsx:13 | `JSON.stringify` drops exactly the keys holding `undefined` and never writes `undefined` or `NaN` |
| Form.NoDepartmentField | components/correspondence-form.tsx:22-39 | the form has no `departmentId` field; the division is held as `divisionId` |
| Form.FormPostNeverSetsDepartment | app/api/correspondence/route.ts:88 | a row created from the form never records a division, because the route reads `departmentId` and the form sends `divisionId` |
| Form.CorrespondenceForm.constructor | components/correspondence-form.tsx:101-135 | the first render starts from the initial state and then runs the merge once when `initialData` is present; a locked reference number shows the initial one |
| Form.CorrespondenceForm.OnInitialDataChange | components/correspondence-form.tsx:121-135 | a new `initialData` is merged into the state when present, and otherwise leaves it unchanged; a locked reference number shows the initial one |
| Form.CorrespondenceForm.SetField | components/correspondence-form.tsx:166-168 | an input sets exactly its field to the typed string; the reference number can be typed only while its input is enabled, so a locked one keeps showing the initial value |
| Form.CorrespondenceForm.SelectAssignee | components/correspondence-form.tsx:338 | the assignee select sets exactly `assignedToId`, to null for "none" and otherwise to `Number(value)` |
| Form.CorrespondenceForm.SelectDivision | components/correspondence-form.tsx:358 | the division select sets exactly `divisionId`, to null for "none" and otherwise to `Number(value)` |
| Form.CorrespondenceForm.HandleSubmit | components/correspondence-form.tsx:137-140 | submission passes the current state on unchanged |

## Left out

- Clock and calendar. `now`, `year` and the day count are inputs, and one `now` is fixed per
  evaluation, whereas the source reads the clock on every call.
- DateUtils.DaysUntilDue: every day is taken as 24 hours. `differenceInDays` counts local
  calendar days, which differ at daylight-saving changes.
- The date formatters `formatDate`, `formatDateTime` and `formatRelativeTime` are left out.
  They are display only.
- Randomness. `Math.random` is replaced by the drawn integer `draw`.
- Date strings. `new Date(string)` uses the parameter `parseDate`. The day conversion
  `toISOString().split('T')[0]` in the form is the parameter `isoDay`, and its throwing on an
  invalid date is not modelled.
- Js.ToLower: lower-cases ASCII letters only. Unicode case mapping is not modelled.
- Js.NumberOf: `Number()` is modelled for text that, once JavaScript white space is trimmed,
  is empty or a `+` or `-` followed by decimal digits. Fractions, exponents, `Infinity` and
  the `0x`, `0o` and `0b` forms become NaN instead of their values.
- IntegerOf (Store.IntegerOf) reads PostgreSQL integer input as white space around an
  optionally signed run of decimal digits, within the int4 range. The non-decimal prefixes and
  `_` digit separators that PostgreSQL 16 also accepts are not modelled.
- The `correspondence.id` serial is unbounded in the model. The int4 limit on it is not modelled.
- Floating point. Numbers are integers and `NaN`; JSON booleans, arrays and nested objects are
  not values of the model.
- SQL semantics. These are not modelled:
  - string collation: names are ordered by code point;
  - the order of rows with equal sort keys;
  - the column projection of each select (for example, `getCorrespondence` omits
    `senderAddress` and `notes`);
  - `count(*) filter` beyond "count the rows matching".
- Which error the database reports when a row breaks several rules. The model reports the
  first column in table order.
- Database connectivity. Connection errors and the 500s they cause in `GET` are left out.
  The serial value consumed by a refused insert is left out too: the model advances the
  serial only on success.
- The update, comment and activity-log handlers under `app/api/correspondence/[id]/`. The
  comment and activity tables appear only as rows and constraints.
- The departments, users and divisions API routes. They are thin select-and-order wrappers,
  and `divisions` is not part of the schema.
- The `emailNotifications` and `slaRules` tables. No modelled logic uses them.
- `src/db/seed.ts` and `src/db/migrate.ts`. These are scripts; the seed's reference numbers
  do not follow the generated format.
- `src/lib/auth.ts`, the NextAuth configuration with password hashing and JWT callbacks. It is
  external code; a session is an input.
- Rendering and navigation. This covers all JSX, styling and navigation; React Query fetching
  and cache invalidation; `revalidatePath`; and the pages in `app/page.tsx`, `app/layout.tsx`,
  `app/login/layout.tsx`, `components/nav-bar.tsx` and `app/correspondence/**/page.tsx`. An
  exception is the `JSON.stringify` of the create page.
- Middleware.Decide: the matcher's pattern is read with `favicon.ico` as a literal prefix. In
  the regular expression the dot matches any character.
- CorrespondenceRoute.Post: a body that cannot be read (`request.json()` throwing) is `None`.
  Its error text is not modelled.
