# DoItNow task list — verified model

A Dafny model of the task-list state machine of the DoItNow single-page
application: the `MainFeature` React component. The component holds a list
of tasks (`id`, `title`, `completed`, `createdAt`, `updatedAt`), the text of
the new-task input, the current filter, and the id and title of the task
being edited. Its handlers add a task (newest first), toggle, retitle and
delete tasks by id, and enter and leave editing mode. It derives two views
from that state: the tasks the filter selects and the per-filter counts.

- `text.dfy` (module `Text`): JavaScript `trim` over a fixed set of
  whitespace characters, and the blank-title test `!s.trim()`.
- `tasks.dfy` (module `Tasks`): the task record and the pure list
  transforms the handlers and views apply. These are `map` over matching ids,
  `filter` by a criterion, the filtered view, the counts and the "all done"
  condition, with lemmas about each.
- `main_feature.dfy` (module `Component`): class `MainFeature` holding the
  five pieces of component state, with one method per handler, and a client
  walkthrough.

The clock and the id generator are parameters. `AddTask` receives the new
id and the two timestamps, which the component reads with two separate
clock calls. `ToggleTask` and `UpdateTask` receive a sequence of clock
readings, one per list position. The source reads the clock inside the
`map` callback, once for each matching task, so two tasks sharing an id
can get different `updatedAt` values. The task at position `i` takes
reading `i`, and readings at positions that do not match go unused. Any
series of readings the source could take is one such sequence.
Ids are not assumed unique: the ids are millisecond clock strings, so two
tasks can share one. `toggleTask`, `updateTask` and `deleteTask` are
`map`/`filter` calls, so they act on every task whose id matches, and the
model does the same. The filter is kept as a string: 'active' and
'completed' select by the flag, and any other value selects every task.

Ids are not guaranteed unique. `createdAt` and
`updatedAt` of a new task come from two clock reads and need not be equal.
Updating or toggling does not promise a strictly later `updatedAt`.
Corrupt stored data is not recovered from, because the load path has no
`try`; that path is not modelled (see below).

## Model

| member | source | states |
|---|---|---|
| Text.Trim | src/components/MainFeature.jsx:32 | `trim` gives a contiguous slice of the input, all of whose surrounding characters are whitespace, and which neither starts nor ends with whitespace |
| Text.BlankIffAllSpace | src/components/MainFeature.jsx:28 | the rejection test `!s.trim()` holds exactly when every character of the input is whitespace |
| Text.TrimIdempotent | src/components/MainFeature.jsx:65 | trimming an already trimmed title changes nothing |
| Tasks.Apply | src/components/MainFeature.jsx:46-50 | the per-task rewrite keeps `id` and `createdAt` and sets `updatedAt`; a toggle flips `completed` and keeps the title, a retitle sets the title and keeps `completed` |
| Tasks.MapMatching | src/components/MainFeature.jsx:44-52 | `map` over matching ids keeps the length, rewrites each task whose id matches and leaves every other task at its position |
| Tasks.Toggled | src/components/MainFeature.jsx:43-53 | after `toggleTask` the length and order are kept; matching tasks have `completed` flipped and `updatedAt` set to their own clock reading; id, title and `createdAt` are kept everywhere; other tasks are unchanged |
| Tasks.Retitled | src/components/MainFeature.jsx:61-69 | after a successful `updateTask` the length and order are kept; matching tasks get the new title and `updatedAt` set to their own clock reading; id, `completed` and `createdAt` are kept everywhere; other tasks are unchanged |
| Tasks.MapMatchingAbsent | src/components/MainFeature.jsx:44-52 | toggling or retitling an id no task carries gives back the same list |
| Tasks.ToggleTwice | src/components/MainFeature.jsx:44-52 | toggling the same id twice restores every task except the `updatedAt` of matching tasks |
| Tasks.Keep | src/components/MainFeature.jsx:86 | `filter` returns no more tasks than it was given, only tasks of the input, and only tasks that satisfy the criterion |
| Tasks.KeepIsSubsequence | src/components/MainFeature.jsx:89-93 | `filter` keeps the relative order of the tasks it keeps |
| Tasks.KeepMultiplicity | src/components/MainFeature.jsx:97-98 | `filter` keeps every copy of a task that satisfies the criterion and no copy of one that does not |
| Tasks.KeepAll | src/components/MainFeature.jsx:92 | a criterion every task satisfies filters nothing out |
| Tasks.KeepKeepsLength | src/components/MainFeature.jsx:98 | the filtered list is as long as the input exactly when every task satisfies the criterion |
| Tasks.ActiveCompletedPartition | src/components/MainFeature.jsx:97-98 | the active and the completed tasks split the list: their multisets add up to the list's, their lengths to its length, and no task is in both |
| Tasks.WithoutId | src/components/MainFeature.jsx:86 | after `deleteTask` no task carries the id, and every task with another id is still there |
| Tasks.DeleteKeepsOthers | src/components/MainFeature.jsx:86 | deleting keeps exactly the tasks with another id, as often as before and in their original order |
| Tasks.DeleteAbsent | src/components/MainFeature.jsx:86 | deleting an id no task carries leaves the list unchanged |
| Tasks.FilterCriterion | src/components/MainFeature.jsx:89-93 | 'active' selects by `!completed`, 'completed' by `completed`, and any other filter value selects everything |
| Tasks.FilteredTasks | src/components/MainFeature.jsx:89-93 | the view holds only tasks of the list, only active ones under 'active' and only completed ones under 'completed' |
| Tasks.FilteredIsSelection | src/components/MainFeature.jsx:89-93 | the view is an order-preserving subsequence of the list that keeps every copy of each task the filter selects |
| Tasks.FilterOtherShowsAll | src/components/MainFeature.jsx:92 | a filter other than 'active' or 'completed' shows the whole list |
| Tasks.ActiveCompletedViewsPartition | src/components/MainFeature.jsx:89-93 | the 'active' and 'completed' views together hold each task of the list exactly as often as the list, and share no task |
| Tasks.CountTasks | src/components/MainFeature.jsx:95-99 | each count is the length of its filter tab's view (`all` the whole list, `active` the tasks not completed, `completed` the completed ones), and `active + completed == all` |
| Tasks.AllDoneIff | src/components/MainFeature.jsx:305 | the "all done" icon shows exactly when the list is non-empty and every task is completed |
| Tasks.AddKeepsTitlesTrimmed | src/components/MainFeature.jsx:28-38 | the task `addTask` prepends has a non-empty, already trimmed title, so a list of such titles stays one |
| Tasks.ToggleKeepsTitlesTrimmed | src/components/MainFeature.jsx:44-52 | toggling keeps every title non-empty and trimmed |
| Tasks.UpdateKeepsTitlesTrimmed | src/components/MainFeature.jsx:56-69 | a successful update writes a non-empty, trimmed title, so every title stays non-empty and trimmed |
| Tasks.DeleteKeepsTitlesTrimmed | src/components/MainFeature.jsx:86 | deleting keeps every title non-empty and trimmed |
| Component.MainFeature.constructor | src/components/MainFeature.jsx:8-12 | the initial state: no tasks, empty input, filter 'all', not editing |
| Component.MainFeature.SetNewTask | src/components/MainFeature.jsx:136 | typing replaces the new-task text and nothing else |
| Component.MainFeature.SetFilter | src/components/MainFeature.jsx:164 | a filter tab replaces the filter and nothing else |
| Component.MainFeature.SetEditingTaskTitle | src/components/MainFeature.jsx:229 | typing in the edit box replaces the edited title and nothing else |
| Component.MainFeature.AddTask | src/components/MainFeature.jsx:26-41 | a blank input leaves the list and the input unchanged; otherwise one task with the trimmed title, `completed` false and the given id and timestamps goes in front of the unchanged old list, and the input is cleared; filter and editing state are untouched; trimmed titles stay trimmed |
| Component.MainFeature.ToggleTask | src/components/MainFeature.jsx:43-53 | the list becomes `Toggled` of the old list, is unchanged when no task has the id, and nothing else changes |
| Component.MainFeature.UpdateTask | src/components/MainFeature.jsx:55-73 | a blank title changes nothing; otherwise the list becomes `Retitled` with the trimmed title, and editing mode is left even when no task matched |
| Component.MainFeature.HandleEditTask | src/components/MainFeature.jsx:75-78 | editing starts on the task's id with its current title; the list, input and filter are untouched |
| Component.MainFeature.CancelEdit | src/components/MainFeature.jsx:80-83 | editing mode is left; the list, input and filter are untouched |
| Component.MainFeature.DeleteTask | src/components/MainFeature.jsx:85-88 | the list becomes `WithoutId` of the old list, so no task keeps the id; an absent id changes nothing, and nothing else changes |
| Component.ScenarioTrims | src/components/MainFeature.jsx:28-32 | the inputs "A" and " B " are accepted, with titles "A" and "B" |
| Component.ScenarioToggle | src/components/MainFeature.jsx:43-53 | toggling the newer of two active tasks with distinct ids completes it alone, giving counts 2 all, 1 active, 1 completed |
| Component.ScenarioDelete | src/components/MainFeature.jsx:85-88 | deleting the older task's id leaves only the newer task |
| Component.ScenarioFinalCounts | src/components/MainFeature.jsx:95-99 | one completed task counts 1 all, 0 active, 1 completed |
| Component.Walkthrough | src/components/MainFeature.jsx:26-99 | driving the component through add A and add " B " gives the list `[B, A]`, newest first; toggling B gives counts 2/1/1; deleting A leaves `[B]` with B completed and counts 1/0/1 |

## Left out

- Loading from and saving to `localStorage` (src/components/MainFeature.jsx:14-24): browser I/O through `JSON.parse` and `JSON.stringify`. The load path has no `try`, so corrupt data throws; no fallback is modelled. Loaded data is not checked, so the trimmed-title lemmas are preservation facts, not an invariant of every reachable state.
- Toast notifications (lines 40, 57, 72, 87): user-interface side effects only. The handlers return nothing, as in the source.
- The clock and id generator (`Date.now()`, `new Date().toISOString()`, lines 31, 34-35, 49, 66) are parameters. Date formatting with `date-fns` (lines 271-273) is rendering.
- `e.preventDefault()` (line 27): a browser event call with no effect on component state.
- The 200-character title limit: only the `maxLength` of the input elements enforces it (lines 139, 239), not the handlers.
- Text.Trim: strips a fixed set of ten whitespace characters, not every Unicode white-space character that JavaScript's `trim` strips.
- All JSX, `framer-motion` animation and `ApperIcon` rendering (lines 101-313), and src/pages/NotFound.jsx, a static page with no state.
