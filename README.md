# Event planner core, modelled in Dafny

This project models the logic of an event-planning web application: its data
services and the rules its pages apply. The services cover events, expenses and
tasks. The events and expenses live in a remote record store. The tasks live in
an in-memory store object.

On top of the services sit the pages:

- the events list, with its search and status filter;
- the tasks page, which groups tasks under their event's title;
- the event details page, with a progress bar, a status badge and a task form;
- the event form dialog.

## Modules

Each module has its own file.

- `Wrappers`: `Option` and `Result`.
- `Seqs`: the array operations the code uses (`filter`, `findIndex`, counting) over sequences.
- `Js`: ASCII `trim`, `toLowerCase` and `includes`, and `JsNumber`, a number that may be `NaN`.
- `Remote`: the store's answers, taken as inputs, and the reading of a delete answer as a boolean.
- `TaskApi`: the task store, modelled as the class `TaskService` over a `seq<Task>` field, with a pure specification function for each change.
- `EventApi`: the event service.
- `ExpenseApi`: the expense service.
- `Forms`: form values and errors, and the shared change handler.
- `EventsPage`, `TasksPage`, `EventDetailsPage`, `EventModal`: the page rules.

Store responses, the current time, `parseFloat`, `parseInt`, date formatting
and `toString` are modelled as parameters. Statuses are plain strings with
named constants. This lets lemmas state where the code disagrees with itself:

- the counts and the form use "In Progress";
- the filter and the badge use "Active".

## Model

| member | source | states |
|---|---|---|
| Seqs.Filter | src/services/api/taskService.js:25 | `filter` keeps exactly the elements satisfying the predicate, as an order-preserving subsequence no longer than the input |
| Seqs.Count | src/services/api/eventService.js:266-274 | `filter(..).length` is at most the length |
| Seqs.FirstIndex | src/services/api/taskService.js:42 | `findIndex` gives -1 when nothing matches, otherwise the first matching index |
| Seqs.FilterSnoc | src/services/api/taskService.js:36 | filtering a list with one element appended filters the old list, then adds that element if it matches |
| Seqs.FilterMultiplicity | src/services/api/taskService.js:25 | `filter` keeps every copy of a matching element and none of the others: each element occurs as often in the result as in the input if it matches, and never otherwise |
| Seqs.FilterCons | src/components/pages/Tasks.jsx:128-134 | filtering a list with one element in front takes that element if it matches, then filters the rest |
| Seqs.FilterConcat | src/components/pages/Tasks.jsx:128-134 | filtering a concatenation is the concatenation of the filtered parts |
| Seqs.FilterConsAfter | src/components/pages/Tasks.jsx:130-133 | a group that took an element iff it matches, followed by the rest's matches, is the old group followed by the matches of all of them |
| Seqs.CountDisjoint | src/services/api/eventService.js:269-274 | two predicates no element satisfies together count at most the length between them |
| Seqs.FilterSorted | src/services/api/eventService.js:233-252 | filtering keeps a date-sorted list sorted |
| Seqs.FilterTwice | src/components/pages/Events.jsx:42-55 | two `filter` calls in a row equal one filter by the conjunction |
| Seqs.FilterSame | src/components/pages/Events.jsx:42-55 | predicates that agree everywhere filter alike |
| Seqs.FilterKeepsAll | src/services/api/expenseService.js:311-315 | a filter every element passes returns the whole list |
| Seqs.CountExtremes | src/components/pages/EventDetails.jsx:179-181 | the count equals the length iff every element matches, and is 0 iff none does |
| Js.TrimStart | src/services/api/expenseService.js:132 | drops leading white space only |
| Js.TrimEnd | src/services/api/expenseService.js:132 | drops trailing white space only |
| Js.IsBlank | src/services/api/expenseService.js:132 | `!s.trim()`: the empty text is blank, and a non-empty blank text starts and ends with white space |
| Js.Trim | src/services/api/expenseService.js:132 | empty iff the text is all white space; otherwise it starts and ends with no white space; it is the slice of the text between a blank prefix and a blank suffix, and so included in it |
| Js.TrimIdempotent | src/services/api/expenseService.js:148-149 | trimming a trimmed text changes nothing |
| Js.LowerChar | src/components/pages/Events.jsx:47 | an upper-case ASCII letter becomes the lower-case letter 32 code points above it; every other character is unchanged; no upper-case letter comes out |
| Js.ToLower | src/components/pages/Events.jsx:47-48 | same length, each character lowered in place, so no upper-case letter is left |
| Js.ToLowerIdempotent | src/components/pages/Events.jsx:47-48 | lowering twice is lowering once |
| Js.IncludesAt | src/components/pages/Events.jsx:47-48 | a text occurring at some position is included |
| Js.Includes | src/components/pages/Events.jsx:47-48 | the empty text is included in every text, and an included text is no longer than the text |
| Js.IncludesOccurs | src/components/pages/Events.jsx:47-48 | an included text occurs at some position, so with `IncludesAt` `includes` means occurring somewhere |
| Remote.DeleteSucceeded | src/services/api/eventService.js:188-219 | a delete answer reads as true iff the store succeeded and returned results none of which failed; a throw reads as false |
| TaskApi.IndexOfId | src/services/api/taskService.js:42 | the first index with the id, or -1 when no task has it |
| TaskApi.MaxId | src/services/api/taskService.js:30 | `Math.max(...ids, 0)` is at least 0 and every id, and is 0 or one of the ids |
| TaskApi.NewTask | src/services/api/taskService.js:30-35 | the new id is above every stored id (1 in an empty store); `completed` is always false; the other fields come from the draft |
| TaskApi.Merge | src/services/api/taskService.js:45-48 | each field the patch supplies takes the supplied value, and each field it does not supply keeps the task's value |
| TaskApi.MergeIdempotent | src/services/api/taskService.js:45-48 | merging the same patch again changes nothing |
| TaskApi.Updated | src/services/api/taskService.js:42-49 | an absent id leaves the list unchanged; otherwise only the first task with the id is replaced by its merge, and the length is kept |
| TaskApi.UpdatedKeepsIndex | src/services/api/taskService.js:42-48 | an update that leaves ids alone finds the same task next time |
| TaskApi.ToggleTwiceRestores | src/components/pages/EventDetails.jsx:76 | two toggles `update(id, {completed: !c})` restore the list |
| TaskApi.Removed | src/services/api/taskService.js:54-58 | an absent id leaves the list unchanged; otherwise exactly the first matching task is cut out, with the rest in order and the multiset reduced by that task |
| TaskApi.CreatedTaskInItsEvent | src/services/api/taskService.js:25-36 | a created task appears last among its event's tasks |
| TaskApi.TaskService.constructor | src/services/api/taskService.js:4-6 | the store starts from the seed tasks |
| TaskApi.TaskService.GetAll | src/services/api/taskService.js:12-15 | `getAll` returns every task in order |
| TaskApi.TaskService.GetById | src/services/api/taskService.js:17-21 | `getById` returns null iff no task has the id, otherwise the first task with it |
| TaskApi.TaskService.GetByEventId | src/services/api/taskService.js:23-26 | `getByEventId` returns exactly the event's tasks, in stored order |
| TaskApi.TaskService.GetActiveTasks | src/services/api/taskService.js:61-64 | `getActiveTasks` returns exactly the uncompleted tasks, in stored order |
| TaskApi.TaskService.Create | src/services/api/taskService.js:28-38 | `create` appends exactly one task, the one `NewTask` describes, and returns it |
| TaskApi.TaskService.Update | src/services/api/taskService.js:40-50 | `update` returns null and changes nothing for an absent id; otherwise it stores and returns the merge |
| TaskApi.TaskService.Delete | src/services/api/taskService.js:52-59 | `delete` returns true iff a task has the id, and the list becomes `Removed` |
| EventApi.CreateRecord | src/services/api/eventService.js:88-98 | the name mirrors the title; the status is the supplied one, or "Planning" when absent or empty; both stamps are the current time |
| EventApi.UpdateRecord | src/services/api/eventService.js:139-151 | the id and stamp are always sent; every other field is sent, unchanged, iff it is truthy, so an empty text or a zero budget is never sent |
| EventApi.Upcoming | src/services/api/eventService.js:221-257 | `getUpcoming` returns [] on failure; otherwise exactly the non-cancelled events of the answer, in order |
| EventApi.UpcomingKeepsStoreOrder | src/services/api/eventService.js:230-252 | when the store returns events after now in ascending date order, so does `getUpcoming` |
| EventApi.GetStats | src/services/api/eventService.js:259-291 | all counts are 0 when `getAll` fails; otherwise the total is the number of events, upcoming counts the non-cancelled events after now, completed the "Completed" ones and active the "In Progress" ones, and upcoming and completed plus active are each at most the total |
| EventApi.UpcomingExcludesCancelled | src/services/api/eventService.js:266-268 | the upcoming and cancelled counts together are at most the total |
| EventApi.ActiveStatusNotCounted | src/services/api/eventService.js:272-274 | for any answer, the events counted as active and the events with status "Active", the filter's value, together number at most the total, so no "Active" event is counted as active |
| ExpenseApi.GetCategories | src/services/api/expenseService.js:298-300 | six distinct names in the fixed order of the category list |
| ExpenseApi.CategoriesDistinct | src/services/api/expenseService.js:4-11 | the six category names are pairwise distinct |
| ExpenseApi.FirstFailure | src/services/api/expenseService.js:129-143 | no message iff every check passes; a message is that of a failing check before which every check passes |
| ExpenseApi.CreateError | src/services/api/expenseService.js:129-143 | a passing input has a non-zero event id, a non-blank description, a finite positive amount and a listed category |
| ExpenseApi.CreateErrorIsFirstFailure | src/services/api/expenseService.js:129-143 | the error raised is the message of the first failing check, in the fixed order |
| ExpenseApi.CreateRecord | src/services/api/expenseService.js:126-156 | fails iff a check fails, with its message, and then nothing is built; otherwise the record is valid, with the trimmed description as name and description, and the date defaulting to now |
| ExpenseApi.UpdateError | src/services/api/expenseService.js:197-205 | no error iff a supplied description is not blank, a supplied amount is finite and positive, and a supplied non-empty category is listed; the first failing check, in the order description, amount, category, gives its own message |
| ExpenseApi.UpdateRecord | src/services/api/expenseService.js:207-217 | fails iff the checks fail; otherwise the record holds the id and exactly the truthy supplied fields, with the description trimmed into the name |
| ExpenseApi.ExpensesOfEvent | src/services/api/expenseService.js:91-123 | `getByEventId` returns [] when the fetch fails or throws, otherwise the store's records |
| ExpenseApi.Total | src/services/api/expenseService.js:291 | the sum is 0 for no expenses, and non-negative when every amount is |
| ExpenseApi.TotalSnoc | src/services/api/expenseService.js:291 | one more expense adds its amount, or 0 when it has none |
| ExpenseApi.TotalConcat | src/services/api/expenseService.js:291 | the total of a concatenation is the sum of the totals |
| ExpenseApi.GetTotalByEventId | src/services/api/expenseService.js:288-296 | the total of the event's expenses, 0 when the fetch failed |
| ExpenseApi.ExpensesByCategory | src/services/api/expenseService.js:302-318 | exactly the six category keys, each the total of the event's expenses in that category; the returned values add up to the total of the expenses with a listed category |
| ExpenseApi.SumOverTotals | src/services/api/expenseService.js:311-315 | a map holding each category's running total sums, over the categories, to the category sum |
| ExpenseApi.NoEmptyCategory | src/services/api/expenseService.js:312 | no category is the empty text, so the `expense.category &&` test never skips a category key |
| ExpenseApi.CategoryTotalSnoc | src/services/api/expenseService.js:311-315 | one more expense adds its amount, or 0 when it has none, to its own category's sum and to no other |
| ExpenseApi.CategoryTotalIsFilteredTotal | src/services/api/expenseService.js:311-315 | the sum a category key builds up over the loop is the total of that category's expenses |
| ExpenseApi.AddExpense | src/services/api/expenseService.js:311-315 | one pass of the second loop keeps every key equal to its category's total |
| ExpenseApi.CategorySumSnoc | src/services/api/expenseService.js:311-315 | one more expense adds its amount to the category sum iff its category is summed over |
| ExpenseApi.CategoryTotalsSumToKnownTotal | src/services/api/expenseService.js:311-315 | the category totals add up to the total of the expenses with a listed category only |
| ExpenseApi.CategorySumOfNone | src/services/api/expenseService.js:307-309 | with no expenses the category totals add up to 0 |
| ExpenseApi.CategoryTotalsSumToTotal | src/services/api/expenseService.js:288-317 | the category totals equal `getTotalByEventId` when every expense has a listed category |
| Forms.HandleChange | src/components/organisms/EventModal.jsx:39-51 | only the named field takes the value; only its error is cleared, and only if one is set; the same code is at src/components/pages/EventDetails.jsx:125-137 and src/components/pages/Tasks.jsx:112-124 |
| Forms.HandleChangeIdempotent | src/components/organisms/EventModal.jsx:39-51 | the same change twice is the change once |
| EventsPage.Matches | src/components/pages/Events.jsx:45-49 | the empty term matches every event, and a term longer than both the title and the description matches none |
| EventsPage.FilterEvents | src/components/pages/Events.jsx:41-58 | an order-preserving subsequence holding exactly the events that match a non-empty term and equal a status other than "All"; the whole list when neither is set; the same as one `filter` by both tests |
| EventsPage.SearchIgnoresCase | src/components/pages/Events.jsx:46-49 | a term and its lower-cased form find the same events |
| EventsPage.InProgressHiddenByStatusFilter | src/components/pages/Events.jsx:120-125 | an "In Progress" event shows under no status option except "All" |
| EventsPage.HandleCreateEvent | src/components/pages/Events.jsx:68-77 | the created event goes first, with the rest in order; a throw changes nothing |
| EventsPage.CreatedEventShownFirst | src/components/pages/Events.jsx:71 | the unfiltered list shows the created event first, then the old list |
| EventsPage.HandleDeleteEvent | src/components/pages/Events.jsx:79-90 | unconfirmed, nothing changes; confirmed, exactly the events with another id remain, in order, whatever `delete` returned |
| EventsPage.DeletedEventNeverShown | src/components/pages/Events.jsx:82-83 | a deleted event shows under no search and no status |
| TasksPage.EventTitle | src/components/pages/Tasks.jsx:53-56 | "Unknown Event" when no event has the id; otherwise the title of the first event with the id |
| TasksPage.SumSizesFresh | src/components/pages/Tasks.jsx:130-132 | adding the group of an unlisted title leaves the size total alone |
| TasksPage.SumSizesUpdate | src/components/pages/Tasks.jsx:133 | growing one listed group grows the size total by the same amount |
| TasksPage.UnlistedTitleHasNoTasks | src/components/pages/Tasks.jsx:130-132 | a title with no group yet has no task among those scanned |
| TasksPage.PushedFilters | src/components/pages/Tasks.jsx:129-133 | after a push each group is still exactly its title's tasks, and none is empty |
| TasksPage.PushedSizes | src/components/pages/Tasks.jsx:129-133 | after a push the titles stay distinct, match the keys, and the groups add up to the tasks scanned |
| TasksPage.PushedCovers | src/components/pages/Tasks.jsx:129-133 | after a push every scanned task's title, the new one's included, has a group |
| TasksPage.GroupStepKeepsGrouping | src/components/pages/Tasks.jsx:128-134 | one loop pass keeps the grouping invariant |
| TasksPage.FileTask | src/components/pages/Tasks.jsx:130-133 | the loop body gives a new title an empty group and lists it, then pushes the task onto its title's group |
| TasksPage.GroupTasksByEvent | src/components/pages/Tasks.jsx:126-136 | distinct titles; each group is exactly its title's tasks, in order, and is non-empty; every task's title is a key; the group sizes sum to the number of tasks |
| TasksPage.SameTitleSharesGroup | src/components/pages/Tasks.jsx:129-133 | any two tasks whose events have the same title, the same event or two events, are both in that title's group |
| TasksPage.OrphansShareUnknownEvent | src/components/pages/Tasks.jsx:55 | every task without an event falls in the one "Unknown Event" group |
| TasksPage.GroupOnPlainObject | src/components/pages/Tasks.jsx:127-134 | as written, on `{}`: grouping succeeds whenever no title names an inherited object member |
| TasksPage.PlainObjectMatchesGrouping | src/components/pages/Tasks.jsx:127-134 | where the grouping on `{}` does not throw, old keys are kept, each key holds its old group followed by its title's tasks in order, and every task's title is a key: the grouping of `GroupTasksByEvent` |
| TasksPage.GroupsOntoStep | src/components/pages/Tasks.jsx:129-133 | filing one task and then grouping the rest groups all of them |
| TasksPage.PlainObjectAgreesWithGrouping | src/components/pages/Tasks.jsx:126-136 | started on `{}`, a grouping that does not throw satisfies `GroupTasksByEvent`'s postconditions: each group exactly its title's tasks, in order, and non-empty, and every task's title a key |
| TasksPage.PrototypeTitleBreaksGrouping | src/components/pages/Tasks.jsx:130-133 | an event titled "constructor" makes the page's grouping throw |
| TasksPage.PercentBounds | src/components/pages/Tasks.jsx:175 | `done / total * 100` is in [0,100] and is 100 or 0 only when all or none are done |
| TasksPage.CompletionPercent | src/components/pages/Tasks.jsx:169-175 | NaN iff the group is empty; otherwise in [0,100], 100 iff all tasks are completed, and 0 iff none is |
| TasksPage.GroupBarsAreFinite | src/components/pages/Tasks.jsx:163-175 | the bar of every group the page draws is a finite number |
| TasksPage.ToggleLocal | src/components/pages/Tasks.jsx:60-62 | only tasks with the id get the flipped flag; the length and every other task are kept; src/components/pages/EventDetails.jsx:77-79 is the same map |
| TasksPage.ToggleLocalTwiceRestores | src/components/pages/Tasks.jsx:60-62 | toggling back with the flag now shown restores the list |
| TasksPage.ToggleLocalMatchesStore | src/components/pages/Tasks.jsx:57-62 | with distinct ids the page's map flips the same task as the store's `update` |
| TasksPage.HandleToggleTask | src/components/pages/Tasks.jsx:57-68 | the store receives `{completed: !completed}` and the page flips its own copy; src/components/pages/EventDetails.jsx:74-85 is the same handler |
| TasksPage.ValidateTaskForm | src/components/pages/Tasks.jsx:71-87 | one error per failing field, each with its message; none iff title and description are not blank and a due date and an event are given |
| TasksPage.HandleCreateTask | src/components/pages/Tasks.jsx:70-110 | with errors nothing is created and the errors shown are exactly those `ValidateTaskForm` reports; otherwise the store creates the task, which the page appends, and the form is cleared |
| EventDetailsPage.StatusVariant | src/components/pages/EventDetails.jsx:149-162 | Active gives success, Planning warning, Completed info, Cancelled error, anything else secondary |
| EventDetailsPage.FormStatusesNeverSuccess | src/components/pages/EventDetails.jsx:151 | no status the event form offers shows as success, and "In Progress" shows as secondary |
| EventDetailsPage.ProgressPercentage | src/components/pages/EventDetails.jsx:179-181 | in [0,100]; 100 iff there are tasks and all are completed; 0 iff none is completed |
| EventDetailsPage.ProgressMatchesGroupBar | src/components/pages/EventDetails.jsx:181 | for tasks present it is the tasks page's group bar |
| EventDetailsPage.HandleEditEvent | src/components/pages/EventDetails.jsx:62-72 | the handler alone: a throw changes neither the event nor the editor; a return shows what came back, `undefined` included, and clears the editor |
| EventDetailsPage.SubmitEdit | src/components/organisms/EventModal.jsx:76-92 | a valid edit submit ends with the editor closed whatever `update` did, since the modal calls `onClose` right after handing over; the page shows the old event after a throw and what came back otherwise; the wiring is at src/components/pages/EventDetails.jsx:446-452 |
| EventDetailsPage.PatchOf | src/components/pages/EventDetails.jsx:64 | the edit form's payload supplies every field to `update` |
| EventDetailsPage.UnchangedEditResendsFields | src/components/pages/EventDetails.jsx:62-64 | saving an unchanged edit form sends the event's title and positive budget again |
| EventDetailsPage.ValidateDetailsTaskForm | src/components/pages/EventDetails.jsx:88-100 | one error per failing field, each with its message; none iff title and description are not blank and a due date is given |
| EventDetailsPage.DetailsChecksAreTaskChecks | src/components/pages/EventDetails.jsx:88-100 | this page's checks are the tasks page's checks without the event check |
| EventDetailsPage.HandleCreateTask | src/components/pages/EventDetails.jsx:87-123 | with errors nothing is created and the errors shown are exactly those `ValidateDetailsTaskForm` reports; otherwise the task is created for this event and appended, the form is reset to empty strings, and the page's list still equals the event's tasks in the store |
| EventModal.InitialForm | src/components/organisms/EventModal.jsx:17-35 | in edit mode with an event, the event's fields, with a zero budget giving "" and an empty status giving "Planning"; otherwise the blank form with "Planning" |
| EventModal.ValidateForm | src/components/organisms/EventModal.jsx:53-74 | one error per failing field, keyed by its name and with its message; valid iff there is no error iff the form passes |
| EventModal.Payload | src/components/organisms/EventModal.jsx:79-82 | the form's fields unchanged, with the budget parsed, and a status only if the form has one |
| EventModal.HandleSubmit | src/components/organisms/EventModal.jsx:76-92 | a payload is handed over iff the form passes, and the form is then reset with no errors; otherwise the form stays and the errors shown are exactly those `ValidateForm` reports, each field with its message |
| EventModal.HandleClose | src/components/organisms/EventModal.jsx:94-103 | the texts are emptied, with no status key and no errors; the values are exactly the reset form |
| EventModal.ResetFormSubmitsPlanning | src/components/organisms/EventModal.jsx:83-88 | a form reset and then typed into submits no status, so the service stores "Planning" |
| EventModal.EditRoundTrip | src/components/organisms/EventModal.jsx:18-25 | an edit form submitted unchanged hands over the event's own fields, and passes iff they are filled with a positive budget |
| EventModal.ZeroBudgetBlocksEdit | src/components/organisms/EventModal.jsx:23 | an event with a zero budget cannot be saved until a budget is entered |

## Left out

- The store SDK calls (`fetchRecords`, `getRecordById`, `createRecord`, `updateRecord`, `deleteRecord`) are foreign network calls. Their answers are inputs (`Fetched`, `Mutated`, `Outcome`).
- The services' `getAll` and `getById` only return the answer's data or rethrow, so they are not modelled as operations.
- The per-record error-throwing loops in the create and update result handling are left out. They only re-raise the store's error shapes.
- A create or update answer that succeeds without results makes the services return `undefined`. The model covers this only where a page reads the value:
  - `EventDetailsPage.HandleEditEvent` models it;
  - `EventsPage.HandleCreateEvent` takes the created event as given, so the `undefined` it would prepend is not modelled.
- `async`/`await`, the task store's `delay`, `Promise.all`, toasts, React state and rendering are left out. Each handler is modelled as one step. The one ordering that matters is the edit form's submit: the modal does not wait for `handleEditEvent` and closes the editor first, which `EventDetailsPage.SubmitEdit` models.
- `new Date()` and date-fns `format` are left out. The current time is a parameter; event dates are integer timestamps; form and record dates are strings.
- `EventModal.InitialForm`: an event without a date would open with an empty date field. Events are modelled with a timestamp that is always present, so this case does not arise.
- ExpenseApi.CreateError: the amount is taken as a number (`JsNumber`). A text amount, which JavaScript compares with `<= 0` after coercion (so "abc" passes the check), is not modelled.
- ExpenseApi.CreateRecord: the amount is stored as the given number. The `parseFloat` the source applies to a text amount, which stores "abc" as `NaN`, is not modelled.
- ExpenseApi.UpdateError: a supplied amount is taken as a number. The source coerces a text amount in `<= 0` and `isNaN`, which reject "abc" but accept a text such as "0x10" (16 after coercion); that coercion is not modelled.
- ExpenseApi.UpdateRecord: a supplied amount is stored as the given number. The `parseFloat` of a text amount, which turns "0x10" into 0, is not modelled.
- Remote.DeleteSucceeded: a delete answer that succeeds without `results` makes `delete` fall off the end and return `undefined`. The model reads that as false. The only caller, `handleDeleteEvent` at src/components/pages/Events.jsx:82, ignores the value, and no modelled page calls the expense service's `delete`, so no observable behaviour depends on this reading. The value `undefined` itself is not modelled.
- `parseFloat`, `parseInt` and `toString` are parameters. Within them the model does not use IEEE-754 arithmetic: amounts and budgets are reals, and sums are exact.
- `trim`, `toLowerCase` and `includes` are modelled over ASCII. Unicode white space and case mapping are left out.
- `TaskApi.NewTask`: a draft's own `id` overrides the assigned one, as the spread does. The pages never pass one.
- `TasksPage.GroupTasksByEvent` returns titles in first-appearance order. JavaScript lists integer-like keys first when it enumerates an object, so a title such as "2024" would be listed earlier than the model shows.
- The budget-usage figures (remaining, percentage, over budget) are not in the page sources that were modelled. They are not part of this model.
- Dashboard and events-table presentation, routing, authentication and logout are not part of this model.

## Findings

| source | as written | input that shows it | evidently intended | confidence | as-written member | corrected member |
|---|---|---|---|---|---|---|
| src/components/pages/Tasks.jsx:127-133 | groups are filled into the plain object `{}`, so `grouped[title]` already holds a truthy inherited member for a title like "constructor" or "toString"; no array is made and `push` throws, so the page fails | one task whose event is titled "constructor" | every title gets its own group, as for any other title (an object without a prototype, or a `Map`) | medium, not executed | TasksPage.GroupOnPlainObject, TasksPage.PrototypeTitleBreaksGrouping | TasksPage.GroupTasksByEvent |
