# Cabin Crew Task Manager — a Dafny model

The Cabin Crew Task Manager is a single React page, `src/pages/Index.tsx`. It holds
two in-memory task lists: open tasks and completed tasks. It seeds them with demo
records. A user can complete a task or undo a completion. An admin, admitted by a
fixed password, can create a task with a three-step wizard (name, category, off
days) and can delete open tasks. This project models the page's state and its event
handlers, and proves what those handlers guarantee.

Layout, one module per concern:

- `text.dfy`, module `Text`: `String.prototype.trim` over a fixed whitespace set,
  characterised independently of its definition (`TrimUnique`, `TrimSplit`).
- `lists.dfy`, module `Lists`: the array operations the list updaters are made of:
  `findIndex`, one-element `splice` on a copy, and `filter`.
- `tasks.dfy`, module `Tasks`: the `Task` record; the updater shared by
  `completeTask` and `undoTask` (`Move`); the admin delete (`DeleteById`); the demo
  records.
- `notices.dfy`, module `Notices`: one tag per toast title. Each handler returns its tag.
- `wizard.dfy`, module `Wizard`: the draft, the Continue guards, Back, the day
  checkbox toggle, and the validation of `createTask` (`Submit`).
- `gate.dfy`, module `AdminGate`: the password check.
- `app.dfy`, module `TaskManager`: class `App`. Its fields are the component's
  `useState` variables. Its methods are the handlers. Each method states the whole
  new state through `Snapshot()` as a change to `old(Snapshot())`. `Valid()` says
  every stored task is well formed for the day the page was mounted. `IdsSeparate()`
  says each task id is in exactly one list, once.

Inputs the page takes from the environment become parameters:
- the weekday number of `new Date().getDay()` is the constructor's `weekday`;
- the id `T_${Date.now()}` is `CreateTask`'s `newId`.

The code is followed where it says more than a plain description of the page would:
- The "Task completed" and "Task moved back to open" toasts are shown even when no
  task has the id.
- The Continue guard of the category panel only rejects a blank custom category.
  `createTask` also rejects an empty chosen category.
- Delete leaves the completed list untouched.
- `todayDay` is computed once per mount (`useMemo` with no dependencies), so
  `isOffToday` is exact for every task the page holds, but only with respect to
  that mounted weekday. Once the real date passes midnight, both `todayDay` and
  every `isOffToday` are stale, and the model does not see the clock.

## Model

| member | source | states |
|---|---|---|
| `Text.TrimStart` | src/pages/Index.tsx:143 | the result is a suffix of the input, what was dropped is all whitespace, and the result does not start with whitespace |
| `Text.TrimEnd` | src/pages/Index.tsx:143 | the result is a prefix of the input, what was dropped is all whitespace, and the result does not end with whitespace |
| `Text.Trim` | src/pages/Index.tsx:152-153 | `trim()`: the result has no whitespace at either edge and is no longer than the input |
| `Text.TrimUnique` | src/pages/Index.tsx:152 | a trimmed string with any blank edges added trims back to itself |
| `Text.TrimSplit` | src/pages/Index.tsx:152 | every string is its trim with blank edges around it |
| `Text.TrimIdempotent` | src/pages/Index.tsx:152 | trimming twice equals trimming once, so a stored name is already trimmed |
| `Text.TrimEmptyIffBlank` | src/pages/Index.tsx:154 | `!x.trim()` holds exactly when x is all whitespace |
| `Lists.FindIndex` | src/pages/Index.tsx:116 | `findIndex`: -1 exactly when no element matches; otherwise the index of a match with no match before it |
| `Lists.RemoveAt` | src/pages/Index.tsx:118-119 | `splice(i, 1)` on a copy: one element shorter, elements before and after i kept in order, and the multiset loses exactly the element at i |
| `Lists.Filter` | src/pages/Index.tsx:375 | `filter` never lengthens the list |
| `Lists.FilterCount` | src/pages/Index.tsx:375 | a kept value occurs as often as in the input; a rejected value does not occur |
| `Lists.FilterMember` | src/pages/Index.tsx:177 | a value survives exactly when it was present and passes the test |
| `Lists.FilterConcat` | src/pages/Index.tsx:375 | filter distributes over concatenation, so it keeps order |
| `Lists.FilterKeepsAll` | src/pages/Index.tsx:375 | a filter that rejects nothing returns its input |
| `Lists.FilterIdempotent` | src/pages/Index.tsx:375 | filtering twice equals filtering once |
| `Lists.FindIndexAt` | src/pages/Index.tsx:116 | after a prefix without a match, findIndex returns the index of the first match |
| `Lists.FilterNoDuplicates` | src/pages/Index.tsx:177 | filtering a repeat-free list gives a repeat-free list |
| `Tasks.Move` | src/pages/Index.tsx:115-121 | the completeTask/undoTask updater keeps the total number of tasks |
| `Tasks.MoveFirstMatch` | src/pages/Index.tsx:116-121 | the first task with the id is removed from the source, the rest keep their order, and it becomes the head of the target |
| `Tasks.MoveAbsent` | src/pages/Index.tsx:117 | with no task of that id in the source, both lists are returned unchanged |
| `Tasks.MovePresent` | src/pages/Index.tsx:116-120 | with the id present, the source loses one task and the target gains a task with that id at its head |
| `Tasks.MovePermutes` | src/pages/Index.tsx:113-137 | a move keeps the multiset of all tasks across the two lists |
| `Tasks.MoveMembers` | src/pages/Index.tsx:113-137 | a task is in one of the two lists after a move exactly when it was before |
| `Tasks.MoveThenMoveBack` | src/pages/Index.tsx:113-137 | complete then undo on a task's id restores the target list and puts the task at the head of the source list |
| `Tasks.CompleteUndoHead` | src/pages/Index.tsx:113-137 | for a task at the head of its list, complete then undo restores both lists exactly |
| `Tasks.MovePreservesSeparate` | src/pages/Index.tsx:113-137 | a move keeps each id in exactly one list, once |
| `Tasks.DeleteById` | src/pages/Index.tsx:375 | after an admin delete, no task with the id is left, every other task stays, and nothing is added |
| `Tasks.DeleteAbsent` | src/pages/Index.tsx:375 | deleting an id that is not open changes nothing |
| `Tasks.DeleteConcat` | src/pages/Index.tsx:375 | delete distributes over concatenation, so the other tasks keep their order |
| `Tasks.DeleteCount` | src/pages/Index.tsx:375 | delete removes exactly the tasks with the id, counting repeats |
| `Tasks.DeletePreservesSeparate` | src/pages/Index.tsx:373-376 | deleting from the open list keeps each id in exactly one list |
| `Tasks.FilterDistinct` | src/pages/Index.tsx:375 | filtering keeps ids distinct |
| `Tasks.Alex` | src/pages/Index.tsx:93 | the first seed record has id T_001 and is well formed on every weekday: trimmed name, three off days, and an off-today flag that holds exactly when today is one of them |
| `Tasks.Maya` | src/pages/Index.tsx:94 | the second seed record has id T_002 and is well formed on every weekday |
| `Tasks.Chris` | src/pages/Index.tsx:97 | the completed seed record has id T_003 and is well formed on every weekday |
| `Tasks.DemoOpen` | src/pages/Index.tsx:92-95 | the seeded open list is well formed, repeats no id, and its ids are exactly T_001 and T_002 |
| `Tasks.DemoDone` | src/pages/Index.tsx:96-98 | the seeded completed list is well formed and its only id is T_003 |
| `Tasks.DemoWellFormed` | src/pages/Index.tsx:92-98 | on every weekday the seed records are well formed, and the two seed lists share no id |
| `Tasks.DemoComplete` | src/pages/Index.tsx:92-98 | completing T_001 on the seed data leaves open = [Maya] and done = [Alex, Chris] |
| `Tasks.DemoUndo` | src/pages/Index.tsx:126-137 | undoing T_001 afterwards gives open = [Alex, Maya] and done = [Chris] |
| `Wizard.ResolvedCategory` | src/pages/Index.tsx:153-155 | the resolved category is empty, so `!cat` refuses it, exactly when custom is chosen with a blank custom text or the chosen value is empty; a custom category is trimmed and no longer than what was typed |
| `Wizard.Continue` | src/pages/Index.tsx:278-313 | name panel: advances to 2 exactly when the name is not all whitespace, otherwise stays with "Please enter candidate name". Category panel: advances to 3 exactly when the choice is not custom with a blank custom text, otherwise stays with "Please enter custom category". The step never moves by more than one |
| `Wizard.Back` | src/pages/Index.tsx:277-327 | Back moves one panel back, 3 to 2 and 2 to 1, and stays on panel 1 |
| `Wizard.BackAfterContinue` | src/pages/Index.tsx:278-313 | Back after a Continue that advanced returns to the panel Continue left |
| `Wizard.Submit` | src/pages/Index.tsx:158-163 | an accepted draft yields a well-formed task with the trimmed name, the selected days in order, isOffToday = today in the days, and no category |
| `Wizard.SubmitChecks` | src/pages/Index.tsx:151-156 | checks in order: blank name, then missing category, then fewer than 3 days; each failure has its own notice, and passing all three creates the task |
| `Wizard.ToggleDay` | src/pages/Index.tsx:175-177 | ticking appends the day at the end; unticking is the filter `d !== value`: every occurrence goes and the other days keep their order and counts |
| `Wizard.ToggleKeepsNoDuplicates` | src/pages/Index.tsx:175-177 | when only absent days are ticked, the selection never holds a day twice |
| `Wizard.ToggleOnThenOff` | src/pages/Index.tsx:177 | ticking an absent day and then unticking it restores the selection |
| `Wizard.TwoDaysRefused` | src/pages/Index.tsx:156 | Jane, Ramp Check, [MON, WED] is refused with "Pick at least 3 off days" |
| `Wizard.BlankCustomStays` | src/pages/Index.tsx:311 | on the category panel, a custom choice with an empty text stays on panel 2 with its notice |
| `AdminGate.AcceptsPadded` | src/pages/Index.tsx:143 | "11143" with any whitespace added around it is accepted |
| `AdminGate.AcceptedIsPadded` | src/pages/Index.tsx:143 | every accepted entry is "11143" with blank edges |
| `AdminGate.Accepts` | src/pages/Index.tsx:143 | `trim() === "11143"`: an accepted entry is at least as long as the password, and an entry without edge whitespace, the empty entry included, is accepted exactly when it is "11143" |
| `TaskManager.App.constructor` | src/pages/Index.tsx:71-88 | initial state: empty lists, not admin, empty password, panel 1, name "", category "Ramp Check", custom text "", no days; todayDay = dayMap[weekday] |
| `TaskManager.App.SeedOpen` | src/pages/Index.tsx:92-99 | the open list becomes the open demo records; nothing else changes |
| `TaskManager.App.SeedDone` | src/pages/Index.tsx:96-100 | the completed list becomes the completed demo record; nothing else changes |
| `TaskManager.App.CompleteTask` | src/pages/Index.tsx:113-124 | the lists become Move(open, done, id), nothing else changes, the total count is kept, the lists stay separate, and the toast is "Task completed" |
| `TaskManager.App.UndoTask` | src/pages/Index.tsx:126-137 | the lists become Move(done, open, id) in reverse roles; the count is kept and the lists stay separate |
| `TaskManager.App.DeleteTask` | src/pages/Index.tsx:373-376 | the open list becomes DeleteById(open, id), the completed list and everything else are unchanged, and the id is gone from open |
| `TaskManager.App.EditPassword` | src/pages/Index.tsx:257 | only the password entry changes |
| `TaskManager.App.Login` | src/pages/Index.tsx:142-149 | an accepted entry sets isAdmin and nothing else; a rejected one changes nothing; nothing clears isAdmin |
| `TaskManager.App.EditCandName` | src/pages/Index.tsx:274 | only the name draft changes |
| `TaskManager.App.ChooseCategory` | src/pages/Index.tsx:290 | only the category draft changes |
| `TaskManager.App.EditCustomCat` | src/pages/Index.tsx:305 | only the custom category draft changes |
| `TaskManager.App.ContinueStep` | src/pages/Index.tsx:278-313 | only the step changes, to Continue(step, draft); a failed guard leaves it unchanged |
| `TaskManager.App.BackStep` | src/pages/Index.tsx:277-327 | only the step changes: 3 goes to 2, 2 to 1, and 1 stays at 1 |
| `TaskManager.App.CheckDay` | src/pages/Index.tsx:175-177 | only the selection changes, to ToggleDay; it stays repeat-free when only absent days are ticked |
| `TaskManager.App.CreateTask` | src/pages/Index.tsx:151-171 | a refused draft changes nothing and returns the first failing check's notice; an accepted one prepends the new task, resets panel and draft, and leaves done alone; a fresh id keeps the lists separate |
| `TaskManager.App.AddAndReset` | src/pages/Index.tsx:164-169 | prepends the task, sets panel 1 and the empty draft, keeps Valid(), and keeps separation when the id is fresh |
| `TaskManager.MoveKeepsWellFormed` | src/pages/Index.tsx:113-137 | moving keeps every stored task well formed |
| `TaskManager.CreateKeepsSeparate` | src/pages/Index.tsx:158-164 | prepending a task whose id is in neither list keeps the lists separate |
| `TaskManager.DemoIdsSeparate` | src/pages/Index.tsx:92-99 | the seed open records beside a completed list without their ids keep the lists separate |
| `TaskManager.CompleteAfterOpenSeeded` | src/pages/Index.tsx:99-121 | completing T_001 on the seeded open list leaves Maya open and puts Alex at the head of whatever the completed list held |
| `TaskManager.SeedRace` | src/pages/Index.tsx:99-121 | as written: open seeded, then Complete on T_001, then done seeded, and Alex's task is in neither list |
| `TaskManager.App.SeedDoneKeeping` | src/pages/Index.tsx:100 | corrected second timer: the demo record is put in front of the completed list, every task already held stays held, and the lists stay separate when T_003 is fresh |
| `TaskManager.SeedRaceKept` | src/pages/Index.tsx:99-121 | the same events with the corrected timer: Alex's task is completed and every id is in exactly one list |

## Left out

- Rendering, cards, tabs, badges, skeletons and `TaskRow` (src/pages/Index.tsx:44-67, 183-392) are presentation only.
- `ProgressBar`, the `busy`, `loadingOpen` and `loadingDone` flags, and every `setTimeout` are timing and UI effects. The seeding timers become the two methods `SeedOpen` and `SeedDone`. They can be called in either order, and user actions can come before or between them. The page allows this too, because the open list is shown at 500 ms while the completed list loads until 700 ms (see Findings). The toasts that fire after a delay are returned at once.
- `refreshOpen`, `refreshDone` and the Dashboard Refresh button (src/pages/Index.tsx:104-111, 343) only flip loading flags and show a toast. They never touch the lists.
- `Date.now()` and `new Date().getDay()` are parameters. The page does not guarantee that ids are fresh, so separation after `CreateTask` is stated only for a fresh id.
- The view decides which handlers are reachable. Admin handlers are shown only while `isAdmin` holds, and each panel shows only its own buttons. The model leaves the handlers callable in any state. The one exception is `ContinueStep`, which requires panel 1 or 2, because panel 3 has no Continue button.
- React's update batching and the double run of state updaters in development StrictMode are not modelled. Each updater runs once, in call order. The `setDoneTasks` call inside the `setOpenTasks` updater is treated as part of one step.
- `Text.Trim` strips a fixed set of eight whitespace characters, not the whole Unicode whitespace class of ECMAScript.
- `Task.OffDays` and `Task.IsOffToday` are optional in the TypeScript type. Every task the page builds sets both, so the model makes them plain fields.
- `Wizard.ToggleDay`'s 'no repeated days' result needs the caller to tick only absent days. Its contract does not derive that from the checkbox's `checked` binding.

## Findings

| source | as written | input that shows it | evidently intended | confidence | as-written member | corrected member |
|---|---|---|---|---|---|---|
| src/pages/Index.tsx:99-100 | the 700 ms timer replaces the completed list with `setDoneTasks(demoDone)`, discarding whatever it held | Complete on T_001 between 500 ms (open list shown, :209-218) and 700 ms: T_001 leaves the open list, goes to the completed list, and is then overwritten, so it is in neither list | seeding keeps what the user did before it fires, e.g. `setDoneTasks(prev => [...demoDone, ...prev])`, so every task stays in exactly one list | medium, not executed | `TaskManager.SeedRace` | `TaskManager.App.SeedDoneKeeping`, `TaskManager.SeedRaceKept` |
