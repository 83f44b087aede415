# Task manager core in Dafny

This project models the core of a small task-management application: a
Node/Express backend on a document store and a React frontend. Users own
folders, share them with other users at `view` or `edit` level, and file
tasks in them. The model covers the following.

- **Folder endpoints.** Create, list, read, update, delete with its task
  cascade, share, list shared, unshare, and the shared-detail read.
- **Task endpoints.** Create, the scoped and sorted listing, read,
  patch-style update, delete, and the `taskUpdated` events they emit to
  per-folder rooms.
- **Account endpoints.** The register duplicate check, the login failure
  rule, the profile patch and the account-delete cascade.
- **Statistics.** The date formatting, the duration text, the Monday
  arithmetic, the bucket-counting loops, the most productive day, the
  average and the folder completion percentage.
- **Reminder mail.** `escapeHtml`, the grouping of pending tasks by user,
  the subject and bodies, and the send loop.
- **Frontend derivations.** The task list filters and counters, the task
  form's defaults, check and payload, the sidebar's pin sections and form
  checks, the folder insight cards, and the personal summary totals.

The store is a class `Store.Db`. Its fields are the user list (in insertion
order, so `findOne` is the first match), the folder and task maps, the event
log and a fresh-id counter. The endpoints that change the store are methods
with `modifies db`. Each states the status it answers and the whole new
state. Each also keeps `Db.Valid()`: ids are fresh and unique, and every
folder's sharing list names no user twice and never the owner. The read-only
endpoints, the statistics loops and the reminder loop are methods proved
against specification functions. Schema shapes, the patch, the filters and
the frontend rules are datatypes and functions, with lemmas stating what
they promise.

One module per source file:

| module | file |
|---|---|
| `FolderModel` | backend/models/Folder.js |
| `FolderController` | backend/controllers/folderController.js |
| `TaskController` | backend/controllers/taskController.js |
| `AuthController` | backend/controllers/authController.js |
| `StatsController` | backend/controllers/statsController.js |
| `EmailService` | backend/services/emailService.js |
| `TasksView` | frontend/src/components/TasksView.js |
| `TaskForm` | frontend/src/components/TaskForm.js |
| `Sidebar` | frontend/src/components/Sidebar.js |
| `FolderInsightsView` | frontend/src/components/FolderInsights.js |
| `PersonalStatsView` | frontend/src/components/PersonalStats.js |

Shared modules:

- `Common`: option type, status codes, ids, and JavaScript's `trim`.
- `Decimal`: `String(n)`, `padStart(2, '0')` and their parse.
- `Store`: the documents and the store class.
- `Sorting`: sorted insertion for `find().sort()`.
- `Filtering`: `Array.prototype.filter`.

Behaviour of the code that the model keeps as written:

- `sort({ dueDate: 1 })` puts tasks without a due date before every dated
  task, as MongoDB orders a missing value.
- `createTask` does not check that the caller may use the folder.
- Moving a task to another folder is not checked against the destination
  folder.
- A value the schema refuses gives a 500 answer.
- An event for a folder that is gone is lost.

## Model

| member | source | states |
|---|---|---|
| Common.TrimCharacterization | backend/models/Folder.js:5-9 | trimming gives "" exactly for names made only of white space, and otherwise a string that neither starts nor ends with white space |
| Common.TrimIdempotent | backend/models/Folder.js:8 | trimming a trimmed name changes nothing |
| Decimal.DecimalRoundTrip | backend/controllers/statsController.js:8-9 | reading back the decimal text of a number gives the number |
| Decimal.Pad2RoundTrip | backend/controllers/statsController.js:8-9 | a month or day below 100 padded to two places is two digits that read back as itself |
| FolderModel.ParseAccessLevel | backend/models/Folder.js:29-33 | an absent level or 'view' means view, 'edit' means edit, anything else fails the enum |
| FolderModel.NewFolder | backend/models/Folder.js:5-22 | a folder is created exactly when the name is not blank; it has the trimmed non-empty name, the caller as owner, the given colour or '#3498db', no pin and no grants |
| FolderModel.GrantIsUnique | backend/controllers/folderController.js:155-166 | in a well-shared folder a grantee is not the owner and holds an edit grant exactly when its one grant is edit |
| FolderModel.CanView | backend/controllers/folderController.js:239-243 | definition: the owner or any user with a grant may view; FolderController.GetSharedFolderDetail answers 403 exactly when it fails |
| FolderController.GrantKeepsWellShared | backend/controllers/folderController.js:155-172 | pushing a grant for a user who is neither owner nor grantee keeps grantees distinct and owner-free, keeps the earlier grants in order, and gives that user read access, with edit rights exactly for an edit grant |
| FolderController.Without | backend/controllers/folderController.js:213-215 | the kept grants are exactly those not naming the user |
| FolderController.WithoutAbsentIsIdentity | backend/controllers/folderController.js:213-215 | removing a user who holds no grant leaves the list as it was |
| FolderController.WithoutConcat | backend/controllers/folderController.js:213-215 | removal works piecewise, so the kept grants keep their order |
| FolderController.WithoutKeepsDistinct | backend/controllers/folderController.js:213-215 | removal keeps the grantees distinct |
| FolderController.RevokeKeepsWellShared | backend/controllers/folderController.js:213-215 | revoking keeps the sharing invariant, leaves the user with no grant, and leaves every other user's grants as they were |
| FolderController.PatchFolder | backend/controllers/folderController.js:87-93 | the patch fails exactly for a given name that trims to nothing; it keeps owner, grants and creation time, and never empties a name |
| FolderController.PatchFolderProperties | backend/controllers/folderController.js:87-91 | an empty patch changes nothing, a patch keeps the sharing invariant, and the pin is the given value or the old one |
| FolderController.TasksOutsideFolder | backend/controllers/folderController.js:116 | the surviving tasks are exactly the tasks filed in another folder, unchanged |
| FolderController.PinnedThenNewestIsTotalPreorder | backend/controllers/folderController.js:38-41 | pinned first, then newest first, is a total preorder |
| FolderController.UserByEmail | backend/controllers/folderController.js:149 | a user is found exactly when some account has the email, and the id is that account's |
| FolderController.CreateFolder | backend/controllers/folderController.js:5-28 | "" gives 400, a blank name gives 500 (schema trim and required), and otherwise 201 with exactly one new folder under a fresh id; nothing else changes |
| FolderController.GetFolders | backend/controllers/folderController.js:31-48 | exactly the caller's own folders, each once, pinned first then newest first |
| FolderController.GetFolder | backend/controllers/folderController.js:51-72 | 404 for a missing folder, 403 unless the caller owns it, otherwise the folder |
| FolderController.UpdateFolder | backend/controllers/folderController.js:75-100 | 404, 403 and 500 (blank name) in that order; on success only that folder changes, by the patch |
| FolderController.DeleteFolder | backend/controllers/folderController.js:103-125 | owner only; on success the folder and every task filed in it, whoever created it, are gone, and on failure nothing changes |
| FolderController.ShareFolder | backend/controllers/folderController.js:128-181 | checks in order (email, folder found, owner, grantee found, grantee not the caller, not yet shared, level in the enum); on success exactly one grant is appended, and otherwise the folders are unchanged |
| FolderController.GetSharedFolders | backend/controllers/folderController.js:184-195 | exactly the folders that list the caller as a grantee, at any level, each once |
| FolderController.RemoveSharedUser | backend/controllers/folderController.js:198-224 | owner only; on success every grant naming the user is removed and the rest kept, and removing a user never granted also succeeds |
| FolderController.GetSharedFolderDetail | backend/controllers/folderController.js:227-254 | 404 for a missing folder, 500 when its owner's account is gone, otherwise the folder exactly when the caller is the owner or any grantee |
| TaskController.FolderOf | backend/controllers/taskController.js:100 | the task's folder when it still exists, and none otherwise |
| TaskController.ChangeRights | backend/controllers/taskController.js:99-109 | the owner of a folder who did not create a task may read but not change it, a view grantee likewise, an editor may change it, and nobody may change another's task in a missing folder |
| TaskController.ApplyPatch | backend/controllers/taskController.js:110-117 | a patch never changes the task's id or creator |
| TaskController.DueDateAbsentVersusNull | backend/controllers/taskController.js:114-115 | an absent due date keeps the stored one, a null one clears it, and the two requests give different tasks |
| TaskController.PatchLaws | backend/controllers/taskController.js:110-117 | the empty patch changes nothing and a patch applied twice is the patch applied once |
| TaskController.ListOrderIsTotalPreorder | backend/controllers/taskController.js:64 | open tasks before completed ones, then by due date with a missing date first, is a total preorder |
| TaskController.ListOrderConsequences | backend/controllers/taskController.js:62-64 | in a sorted listing no completed task precedes an open one, an undated task precedes the dated ones of its kind, and dates ascend |
| TaskController.CreateTask | backend/controllers/taskController.js:6-37 | a missing title or folder gives 400 with no change; otherwise 201 with one new task created by the caller in that folder, with no access check, and one 'create' event to that folder unless emitting fails |
| TaskController.GetTasks | backend/controllers/taskController.js:40-70 | without a folder, exactly the caller's tasks; with one, 404, 403 unless owner or grantee, else every task in it; each once and in list order |
| TaskController.GetTask | backend/controllers/taskController.js:73-90 | 404 for a missing task, 403 unless the caller created it, otherwise the task |
| TaskController.UpdateTask | backend/controllers/taskController.js:93-132 | 404, then 403 unless the caller is the creator or an edit grantee of the task's current folder; on success the patched task replaces it and one 'update' event goes to its folder after the patch when that folder exists |
| TaskController.DeleteTask | backend/controllers/taskController.js:135-162 | the same rule as update; on success the task is gone and one 'delete' event with its id goes to the folder it was in |
| TaskController.MayChangeTask | backend/controllers/taskController.js:102-109 | definition: the task's creator, or an edit grant on the task's folder while it exists; TaskController.ChangeRights states what it allows and refuses |
| TaskController.ListOrder | backend/controllers/taskController.js:64 | definition: open before completed, then by due date with a missing date first; TaskController.ListOrderIsTotalPreorder proves it a total preorder |
| Store.Public | backend/controllers/authController.js:43-47 | a response shows the id, username and email of a user and nothing else |
| Store.EventsFor | backend/controllers/taskController.js:29 | a folder's room receives exactly the events emitted to that folder |
| Store.EventsForAppend | backend/controllers/taskController.js:122-125 | one more emission reaches its own room, after the earlier events, and no other room |
| Sorting.InsertSorted | backend/controllers/folderController.js:38-41 | inserting into a sorted list gives a sorted list with the same elements plus the new one |
| AuthController.Login | backend/controllers/authController.js:61-70 | an unknown email and a wrong password give the same failure; success exactly when the first account with the email (the one findOne returns) matches, answering that account without its password |
| AuthController.UsersWithout | backend/controllers/authController.js:147 | the remaining accounts are exactly those with another id, and ids stay unique |
| AuthController.TasksNotCreatedBy | backend/controllers/authController.js:140 | the surviving tasks are exactly those another user created, unchanged |
| AuthController.FoldersNotOwnedBy | backend/controllers/authController.js:144 | the surviving folders are exactly those another user owns, unchanged, grants included |
| AuthController.CascadesDiffer | backend/controllers/authController.js:138-144 | a task another user filed in the deleted account's folder survives the account delete while its folder does not, and the folder delete removes it |
| AuthController.Register | backend/controllers/authController.js:19-48 | 400 with no change exactly when the email or the username is taken; otherwise 201 and exactly one new account, answered without its password |
| AuthController.GetProfile | backend/controllers/authController.js:95-96 | the caller's account without its password, or nothing when it is gone |
| AuthController.UpdateProfile | backend/controllers/authController.js:108-117 | username and email change only when given, nothing else changes; a missing account gives 500 |
| AuthController.DeleteAccount | backend/controllers/authController.js:139-147 | the caller's tasks, folders and account are removed and every other document, including other owners' grants to the caller, stays |
| AuthController.Taken | backend/controllers/authController.js:19 | definition: some account has the email or the username; AuthController.Register refuses with 400 exactly when it holds |
| StatsController.FormatDateRoundTrip | backend/controllers/statsController.js:5-11 | for four-digit years the text is 'yyyy-mm-dd' with the month counted from one, and it reads back as the date |
| StatsController.FormatDateInjective | backend/controllers/statsController.js:58 | distinct dates give distinct texts, so matching a bucket by text matches by date |
| StatsController.FormatDate | backend/controllers/statsController.js:5-11 | definition: year, month counted from 1 and day, padded to two digits; StatsController.FormatDateRoundTrip and StatsController.FormatDateInjective state its meaning |
| StatsController.RoundDiv | backend/controllers/statsController.js:94 | Math.round of a quotient: the nearest integer, halves upward |
| StatsController.JsRem | backend/controllers/statsController.js:114-115 | JavaScript's remainder: the usual one for non-negative operands, never positive for negative ones |
| StatsController.HmsAddsUp | backend/controllers/statsController.js:112-116 | hours, minutes and seconds add back up to the rounded seconds, with minutes and seconds below sixty |
| StatsController.MsToHuman | backend/controllers/statsController.js:110-117 | the text is '0s' exactly for a zero duration |
| StatsController.ToHms | backend/controllers/statsController.js:112-115 | definition: the rounded seconds split into hours, minutes and seconds; StatsController.HmsAddsUp states that the parts add up |
| StatsController.ShortDurationIsNotZeroSeconds | backend/controllers/statsController.js:111-116 | a positive duration under half a second prints '0h 0m 0s', not '0s' |
| StatsController.AverageMs | backend/controllers/statsController.js:94 | 0 without timed tasks, otherwise the rounded mean |
| StatsController.PercentComplete | backend/controllers/statsController.js:137 | 0 for an empty folder, within 0..100 when the completed count is at most the total, 100 when all are done |
| StatsController.PercentBounds | backend/controllers/statsController.js:137 | the rounded percentage lies in 0..100 and is 100 for a complete folder |
| StatsController.DiffToMonday | backend/controllers/statsController.js:37-38 | the offset lies in 0..6 and lands on a Monday |
| StatsController.MondayOfProperties | backend/controllers/statsController.js:34-40 | a week start is a Monday at most six days back, and it moves by seven days per week |
| StatsController.LastSevenDays | backend/controllers/statsController.js:23-27 | seven consecutive days ending today, oldest first |
| StatsController.WeekStarts | backend/controllers/statsController.js:32-41 | four week starts, the Mondays of the days 21, 14, 7 and 0 days back, oldest first |
| StatsController.WeekStartsConsecutive | backend/controllers/statsController.js:32-41 | the four weeks follow each other without gap or overlap |
| StatsController.FirstWeek | backend/controllers/statsController.js:62-70 | the credited week is the first that contains the completion, and none when no week does |
| StatsController.IndexOf | backend/controllers/statsController.js:58 | the first position holding the day, or the length when there is none |
| StatsController.KeyIndex | backend/controllers/statsController.js:74 | the entry of a date in the tally, or the tally's length when there is none |
| StatsController.BumpSpec | backend/controllers/statsController.js:74 | one count adds one to that date's entry, appending the date when new, and keeps the dates distinct and in order |
| StatsController.CountSinceStep | backend/controllers/statsController.js:73-75 | one more task adds one to its own date's count within the last thirty days and nothing elsewhere |
| StatsController.DayTallyEntries | backend/controllers/statsController.js:72-75 | the tally holds each date once, with the positive number of tasks completed on it in the last thirty days |
| StatsController.DayTallyComplete | backend/controllers/statsController.js:72-75 | every date with a completion in the last thirty days is in the tally |
| StatsController.DayBucketsMeaning | backend/controllers/statsController.js:57-59 | each of the seven day buckets counts the tasks completed on that day |
| StatsController.WeekBucketsMeaning | backend/controllers/statsController.js:61-70 | each of the four week buckets counts the tasks credited to that week |
| StatsController.CreditDay | backend/controllers/statsController.js:58-59 | the bucket of the task's day, if shown, goes up by one and the others stay |
| StatsController.CreditWeek | backend/controllers/statsController.js:62-70 | only the first week containing the completion goes up by one |
| StatsController.TallyStep | backend/controllers/statsController.js:72-81 | one more task updates the tally, the summed duration and the timed count as the loop body does |
| StatsController.DayBucketsStep | backend/controllers/statsController.js:58-59 | crediting a task's day gives the buckets of the longer list |
| StatsController.WeekBucketsStep | backend/controllers/statsController.js:62-70 | crediting a task's week gives the buckets of the longer list |
| StatsController.EmptyBuckets | backend/controllers/statsController.js:29-42 | before any task every bucket is zero |
| StatsController.AddCompletion | backend/controllers/statsController.js:54-81 | one pass of the loop body turns the figures for the processed tasks into those for one more task |
| StatsController.TallyCompletions | backend/controllers/statsController.js:53-82 | after the loop the day and week buckets, the thirty-day tally, the duration sum and the timed count are those of all completed tasks |
| StatsController.DayBucketsBounded | backend/controllers/statsController.js:57-59 | a task counts in at most one day bucket, so they add up to at most the number of tasks |
| StatsController.WeekBucketsBounded | backend/controllers/statsController.js:61-70 | the week loop breaks at the first match, so the week buckets add up to at most the number of tasks |
| StatsController.MostProductive | backend/controllers/statsController.js:85-92 | none when no day has a positive count; otherwise a day whose count is the maximum and is strictly above every earlier day's, so the first maximum wins ties |
| StatsController.TallyMaximum | backend/controllers/statsController.js:85-92 | a bound on every tally entry bounds every date's count |
| StatsController.PersonalStats | backend/controllers/statsController.js:14-107 | the response lists the seven days and four weeks with their counts, the rounded average and its text, and the most productive date of the last thirty days with the maximum count, or none |
| StatsController.FolderInsight | backend/controllers/statsController.js:128-137 | completed plus overdue tasks never exceed the total; the percentage is PercentComplete of its own completed and total counts, 0 for an empty folder, in 0..100, and 100 with nothing overdue when every task is done |
| EmailService.ReplaceAllChars | backend/services/emailService.js:109-113 | a global replace leaves text without the character as it was, and adds only the replacement's characters |
| EmailService.ReplaceAllConcat | backend/services/emailService.js:109-113 | a global replace works piecewise |
| EmailService.EscapeHtmlConcat | backend/services/emailService.js:108-113 | escaping works piecewise |
| EmailService.EscapeHtmlChar | backend/services/emailService.js:108-113 | a single character goes to its own entity; no entity is escaped again by a later replace |
| EmailService.EscapeHtmlIsPerCharacter | backend/services/emailService.js:108-113 | because '&' goes first, escaping is the per-character entity mapping |
| EmailService.EscapeHtmlHasNoMarkup | backend/services/emailService.js:108-113 | escaped text holds no raw '<', '>', '"' or "'" |
| EmailService.EscapeHtmlIdentity | backend/services/emailService.js:108-113 | text without any of the five special characters is left as it is |
| EmailService.EscapeHtml | backend/services/emailService.js:108-113 | definition: the five global replaces, '&' first; EmailService.EscapeHtmlIsPerCharacter, EmailService.EscapeHtmlHasNoMarkup and EmailService.EscapeHtmlIdentity state its meaning |
| EmailService.GroupIndex | backend/services/emailService.js:59 | the position of a user's group, or the number of groups when the user has none |
| EmailService.AddToGroupsSpec | backend/services/emailService.js:56-61 | a task goes onto its user's group, which is created at the end when new; the other groups stay |
| EmailService.GroupedEntries | backend/services/emailService.js:55-62 | each group belongs to a different user and holds exactly that user's tasks, in their original order |
| EmailService.GroupedComplete | backend/services/emailService.js:55-62 | every user who owns a pending task has a group |
| EmailService.EachTaskInOneGroup | backend/services/emailService.js:55-62 | a task without a populated user is in no group, and any other task is in exactly its user's group |
| EmailService.GroupByUser | backend/services/emailService.js:55-62 | the reduce yields distinct users, each group exactly its user's tasks and non-empty, and a group for every task's user |
| EmailService.Grouped | backend/services/emailService.js:55-62 | definition: the reduce into groups in the order their users first appear; EmailService.GroupByUser and EmailService.GroupedComplete state its meaning |
| EmailService.SubjectStatesCount | backend/services/emailService.js:69 | the subject shows the group size in decimal and ends in 's' exactly when it is above one |
| EmailService.Subject | backend/services/emailService.js:69 | definition: the count and 'task' with its plural; EmailService.SubjectStatesCount states its meaning |
| EmailService.OneLinePerTask | backend/services/emailService.js:71-81 | one text line and one list item per task, in the group's order |
| EmailService.HtmlItemShowsEscapedTitle | backend/services/emailService.js:78-81 | a list item shows the escaped title, so the title cannot inject markup |
| EmailService.TextBody | backend/services/emailService.js:71-76 | definition: greeting, the user's name or '', and one line per task; EmailService.OneLinePerTask states its lines |
| EmailService.HtmlBody | backend/services/emailService.js:78-93 | definition: the escaped name and one list item per task; EmailService.OneLinePerTask and EmailService.HtmlItemShowsEscapedTitle state its items |
| EmailService.BuildMailOptions | backend/services/emailService.js:28-35 | the mail has recipient and subject, the HTML body when there is one, and the text only without HTML |
| EmailService.ReminderIsHtmlOnly | backend/services/emailService.js:76-96 | a reminder always carries its HTML body and never its text body |
| EmailService.Addressed | backend/services/emailService.js:67 | every group kept has a user with an email |
| EmailService.AddressedStep | backend/services/emailService.js:65-67 | a group is kept exactly when its user has an email, in order |
| EmailService.SendTaskReminders | backend/services/emailService.js:49-105 | one attempt per group whose user has an email, in group order, each carrying that group's reminder; a failed send does not stop later ones |
| Filtering.FilterIsSubsequence | frontend/src/components/TasksView.js:109 | a filter is the subsequence at the kept positions, in order, keeping exactly the elements that pass |
| Filtering.FilterPartition | frontend/src/components/Sidebar.js:43-44 | a test and its negation put every element in exactly one of the two lists |
| TasksView.FilteredTasksSpec | frontend/src/components/TasksView.js:109-124 | the shown tasks are, in list order, exactly those with the chosen priority (any for 'all'), not completed under 'pending' and completed under 'completed' |
| TasksView.ShowAll | frontend/src/components/TasksView.js:109-124 | with both filters at 'all' every task is shown |
| TasksView.StatusFiltersSplit | frontend/src/components/TasksView.js:116-121 | under any priority filter the 'pending' and 'completed' lists split the 'all' list |
| TasksView.CountsMatchFilters | frontend/src/components/TasksView.js:126-129 | the total is the list's length, the completed and pending counts are the lengths of the 'completed' and 'pending' lists, and pending is never negative |
| TasksView.Shown | frontend/src/components/TasksView.js:109-124 | definition: the priority filter, then the status filter; TasksView.FilteredTasksSpec states its meaning |
| TasksView.FilteredTasks | frontend/src/components/TasksView.js:109-124 | definition: the tasks kept by Shown, in order; TasksView.FilteredTasksSpec, TasksView.ShowAll and TasksView.StatusFiltersSplit state its meaning |
| TasksView.TaskCounts | frontend/src/components/TasksView.js:126-129 | definition: total, completed and pending counts; TasksView.CountsMatchFilters ties them to the status filters |
| TaskForm.BeforeT | frontend/src/components/TaskForm.js:9 | the text before the first 'T', or all of it |
| TaskForm.DatePartOfTimestamp | frontend/src/components/TaskForm.js:8-10 | the date part of a 'date T time' timestamp is the date |
| TaskForm.InitialState | frontend/src/components/TaskForm.js:5-10 | a new task starts empty with priority 'medium'; an edited one keeps a priority and shows the date part of its due date |
| TaskForm.Submit | frontend/src/components/TaskForm.js:13-28 | a title that trims to nothing is refused with 'Title is required'; otherwise title, description and priority are sent, with the parsed date or null for an empty date field |
| TaskForm.EditSetsDueDate | frontend/src/components/TaskForm.js:23-28 | saving an edit with an empty date clears the stored due date, and with a date stores it; title and description take the form's values and completion and folder stay |
| TaskForm.EditUnchanged | frontend/src/components/TaskForm.js:5-28 | opening a task and saving it unchanged keeps its title, description, priority and completion |
| TaskForm.AsUpdate | frontend/src/components/TaskForm.js:23-28 | definition: the payload as updateTask reads it, an empty date sent as null; TaskForm.EditSetsDueDate states its effect |
| Sidebar.PinPartition | frontend/src/components/Sidebar.js:43-44 | the pinned and regular sections partition the folders by pin, each in the folder list's order |
| Sidebar.PinnedFolders | frontend/src/components/Sidebar.js:43 | definition: the pinned folders in order; Sidebar.PinPartition states its meaning |
| Sidebar.RegularFolders | frontend/src/components/Sidebar.js:44 | definition: the other folders in order; Sidebar.PinPartition states its meaning |
| Sidebar.SubmitNewFolder | frontend/src/components/Sidebar.js:46-50 | a blank name is refused with 'Folder name is required', and otherwise the name and colour are sent untrimmed |
| Sidebar.CreateCheckMatchesSchema | frontend/src/components/Sidebar.js:48-50 | a create request is sent exactly for the names the folder schema accepts |
| Sidebar.CreatedFormIsReset | frontend/src/components/Sidebar.js:51-54 | after a create the form is closed at the default colour, and resubmitting it is refused |
| Sidebar.SubmitShare | frontend/src/components/Sidebar.js:95-99 | a blank email is refused with 'Email is required', and otherwise the folder, email and level are sent |
| Sidebar.ShareFormLaws | frontend/src/components/Sidebar.js:97-103 | a share request never carries the empty email; after a share the form is closed, its level is back at view and resubmitting it is refused |
| FolderInsightsView.Clamp | frontend/src/components/FolderInsights.js:4-5 | the bar width is the percentage clamped into 0..100, with 0 when it is missing |
| FolderInsightsView.ThresholdColour | frontend/src/components/FolderInsights.js:6 | green from 80, orange from 50 below 80, red below 50 |
| FolderInsightsView.BarMatchesText | frontend/src/components/FolderInsights.js:51 | the bar coloured after clamping and the overdue text coloured on the raw percentage always agree |
| FolderInsightsView.ProgressLineDiffers | frontend/src/components/FolderInsights.js:60 | the progress line never reads 'All tasks complete' |
| FolderInsightsView.PercentReaches100 | backend/controllers/statsController.js:137 | the rounded percentage is 100 exactly when at least 99.5% of the tasks are done |
| FolderInsightsView.SummaryByPercentMeaning | frontend/src/components/FolderInsights.js:57-61 | the summary as written says 'All tasks complete' exactly when the folder has tasks and at least 99.5% of them are done |
| FolderInsightsView.PendingFolderShownComplete | frontend/src/components/FolderInsights.js:57-61 | a folder with 399 of 400 tasks done is summarised as 'All tasks complete' |
| FolderInsightsView.SummaryByPercent | frontend/src/components/FolderInsights.js:57-61 | definition: the summary line as written; FolderInsightsView.SummaryByPercentMeaning states its meaning |
| FolderInsightsView.SummaryExact | frontend/src/components/FolderInsights.js:57-61 | the corrected summary says 'All tasks complete' exactly when the folder has tasks and all are done, and is the line as written wherever the two agree |
| FolderInsightsView.Summary | frontend/src/components/FolderInsights.js:57-61 | definition: the corrected summary line; FolderInsightsView.SummaryExact states its meaning |
| FolderInsightsView.FolderCard | frontend/src/components/FolderInsights.js:38-62 | the card as rendered: its bar width lies in 0..100, the bar and overdue text have the same colour, and the summary says 'All tasks complete' exactly when the percentage is at least 100 |
| FolderInsightsView.CorrectedCard | frontend/src/components/FolderInsights.js:38-62 | the card with the corrected summary differs from the rendered card in the summary line only |
| FolderInsightsView.CorrectedCardOfInsight | frontend/src/components/FolderInsights.js:57-61 | on the endpoint's figures the corrected card claims completion exactly when the folder has tasks and all of them are done |
| FolderInsightsView.CardOfInsight | frontend/src/components/FolderInsights.js:38-62 | on the endpoint's figures the bar shows the percentage, is full and green with the complete summary for a finished folder, and empty and red for a folder without tasks |
| PersonalStatsView.DayDivisor | frontend/src/components/PersonalStats.js:31 | the divisor is the seven-day list's length when the data and that list are present and the list is not empty, and 7 otherwise |
| PersonalStatsView.AvgPerDay | frontend/src/components/PersonalStats.js:30-33 | the average per day is the seven-day total over the divisor, rounded to the nearest integer |
| PersonalStatsView.NoDataShowsZeros | frontend/src/components/PersonalStats.js:23-33 | before data arrives both totals and the average are zero |
| PersonalStatsView.MissingCountAddsNothing | frontend/src/components/PersonalStats.js:25-26 | a bucket without a count adds nothing, like a count of zero |
| PersonalStatsView.SumCounts | frontend/src/components/PersonalStats.js:25-26 | definition: the reduce adding each count or 0; PersonalStatsView.MissingCountAddsNothing and PersonalStatsView.SumOfReceived state its meaning |
| PersonalStatsView.TotalsOf | frontend/src/components/PersonalStats.js:23-28 | definition: both totals, 0 before data arrives; PersonalStatsView.ReceivedDayTotal and PersonalStatsView.ReceivedWeekTotal state its meaning |
| PersonalStatsView.SumOfReceived | frontend/src/components/PersonalStats.js:25 | summing the received buckets is summing the counts the endpoint sent |
| PersonalStatsView.ReceivedDayTotal | frontend/src/components/PersonalStats.js:23-28 | on the endpoint's response the seven-day total is the sum of the day buckets, between zero and the number of completed tasks |
| PersonalStatsView.ReceivedWeekTotal | frontend/src/components/PersonalStats.js:23-28 | on the endpoint's response the four-week total is the sum of the week buckets, between zero and the number of completed tasks |
| PersonalStatsView.ReceivedAverage | frontend/src/components/PersonalStats.js:30-33 | on the endpoint's response the divisor is 7 and the average lies between zero and the number of completed tasks |
| PersonalStatsView.RoundDivRange | frontend/src/components/PersonalStats.js:32 | rounding a non-negative total over a divisor of at least one gives a value between zero and the total |

## Left out

- Socket.IO rooms and transport. A room is a folder id in the event log. `joinFolder`/`leaveFolder` and the frontend's reload on an event are not modelled. An emit that throws is the `emitOk` parameter.
- Nodemailer. `createTransporter`, `verifyTransporter` and `transporter.verify` are left out. The transport is the `send` parameter of `EmailService.SendTaskReminders`, and a failed verify or send is a `false` verdict. The two scripts that call the service are not part of this model.
- `EmailService.SendTaskReminders`: a failing `Task.find` (the outer catch) is not modelled.
- `Date.prototype.toDateString` is the `dateText` parameter.
- JWT signing and password hashing. `AuthController.Login` compares with the `matches` parameter. The register and login responses omit the token.
- `AuthController.Register`: the express-validator checks in the route (400 with the first message) are not modelled. The model starts at the duplicate check.
- The route files, the auth middleware, `populate` and `select` are not modelled. Ids are naturals, `toString` comparisons are equality, and the stores are maps.
- The Task and User schemas are not part of this model.
  - A new task's priority defaults to 'medium'.
  - A priority outside the schema's enum is not refused.
  - A duplicate email from `AuthController.UpdateProfile` is not refused by a unique index.
- `TaskController.GetTasks` and `FolderController.GetFolders` promise sortedness and contents, not the store's order among equal keys.
- JavaScript dates. Instants are integer milliseconds and days are UTC day numbers (`ms div 86400000`), with no time zone or daylight saving. So the local-time `getDate`/`setDate` of `formatDate`, and the UTC parse of a week start in the week loop, are both taken as UTC.
- `StatsController.PersonalStats` labels buckets with day numbers rather than 'yyyy-mm-dd' texts. `StatsController.FormatDateRoundTrip` and `StatsController.FormatDateInjective` show that the text is a faithful label for four-digit years.
- An invalid `updatedAt`/`createdAt` becomes a missing completion instant.
- Floating point. `Math.round((completed / total) * 100)` and `Math.round(total / count)` are modelled as exact rational rounding, so `StatsController.PercentComplete` can differ from a double at a rounding tie.
- `MsToHuman` treats only 0 as falsy. NaN and other falsy values cannot occur in the integer model.
- `folderInsights` as a whole: `Folder.find({ userId })`, the `Promise.all` over folders and the folder name and id copied into each entry. `StatsController.FolderInsight` gives one folder's entry. The `DEBUG_STATS` sample tasks are logging only.
- Concurrency: races between the check and the write of concurrent requests.
- React state, effects, loading and error displays, and the API wrappers are not modelled.
  - The TasksView handlers only forward to the API.
  - The sidebar's rename and pin toggle send `{ name }` or `{ isPinned: !isPinned }` to the update endpoint, which `FolderController.PatchFolder` models.
  - `TaskForm`'s `new Date(dueDate)` is the `parseDate` parameter.
- The remaining frontend files (App, api, CalendarView, AccountSettings, Register, TaskCard, StatsPage) are not part of this model.

## Findings

| source | as written | input that shows it | evidently intended | confidence | as-written member | corrected member |
|---|---|---|---|---|---|---|
| frontend/src/components/FolderInsights.js:57-61 | the card says 'All tasks complete' when `percentComplete >= 100`, a percentage the endpoint rounds (backend/controllers/statsController.js:137) | a folder with 399 of its 400 tasks completed: the percentage rounds to 100 and the card claims every task is done | 'All tasks complete' only when every task of the folder is completed | not executed | FolderInsightsView.SummaryByPercent, FolderInsightsView.FolderCard, FolderInsightsView.PendingFolderShownComplete | FolderInsightsView.Summary, FolderInsightsView.SummaryExact, FolderInsightsView.CorrectedCard, FolderInsightsView.CorrectedCardOfInsight |
