# Task editor state machine

This project models the state kept by the `Task` view of the task-management
web client (`frontend/seq/src/taskform.jsx`) and proves properties about it.
The view holds three pieces of state:

- `tasks`: the ordered list of task records `{task_id, task_name, task_description}`;
- `taskData`: the form draft `{task_name, task_description}`;
- `editing`: the id of the task under edit, or `null`.

Its handlers load the list, append a created task, replace the edited task,
filter out a deleted one, start an edit, update one draft field, and route a
form submission to update or create.

`task_list.dfy` (module `TaskList`) holds the records as datatypes. It also
holds the two list transformations the handlers apply: `ReplaceMatching` is
the `map` of an update and `RemoveId` is the `filter` of a delete. Both are
recursive functions whose contracts describe the result element by element.
The lemmas next to them state what holds when ids are unique. A delete of a
present id then removes exactly one task and keeps the order of the rest. An
update then replaces exactly one position. Delete, update and create all keep
ids unique, given what each needs from the server.

`task_form.dfy` (module `TaskForm`) holds the view as the class
`TaskComponent`, with fields `tasks`, `draft` and `editing`. There is one
method per handler. Each method states the whole new state in terms of the
old state and of the server's response.

Every remote call is a parameter of type `Outcome<T>`: `Success(data)` carries
the response payload and `Failure` is a rejected request. On `Failure` the
source's `catch` only logs, so each handler leaves all three fields unchanged.
This holds for fetch, create, update and delete. On a failed create the user's
draft is kept too.

Ids are natural numbers. `editing` is an `Option<Id>`. The submit handler tests
`editing` for JavaScript truthiness, which `Truthy` models: `null` and the id
`0` are falsy. So a task whose id is `0` cannot be updated through the form.
Submitting while it is under edit appends a new task instead, and `editing`
stays `0`. The client method `TaskForm.ZeroIdSubmitCreates` shows this. Update
and delete act on *every* task whose id matches. "Exactly one" is proved only
under the `UniqueIds` assumption about the ids the server issues. The view does
not check it; the only sign of it in the view is that it keys the rendered list
by `task.task_id` (`frontend/seq/src/taskform.jsx`, line 125).

The view has no cancel-edit handler. A delete does not clear `editing`, even
when it removes the task under edit (taskform.jsx, line 71). Errors are only
logged (taskform.jsx, lines 24, 45, 60 and 73). Create posts the draft without
checking that the name is non-empty (taskform.jsx, line 39).

The client methods `TaskForm.BuyMilkSession`, `TaskForm.ZeroIdSubmitCreates`
and `TaskForm.RepeatedFetch` step through example sessions that the verifier
checks against the method contracts.

## Model

| member | source | states |
|---|---|---|
| TaskList.ReplaceMatching | frontend/seq/src/taskform.jsx:56 | the updated list has the old length; a position whose `task_id` strictly equals `editing` holds the server's task, and every other position holds its old task |
| TaskList.RemoveId | frontend/seq/src/taskform.jsx:71 | the filtered list is no longer than the old one, and a task is in it exactly when it was in the old list and its `task_id` differs from the deleted id |
| TaskList.RemoveIdAppend | frontend/seq/src/taskform.jsx:71 | filtering a concatenation filters each part and concatenates the results, so the surviving tasks keep their relative order |
| TaskList.RemoveAbsent | frontend/seq/src/taskform.jsx:71 | deleting an id that no task carries leaves the list exactly as it was |
| TaskList.RemoveUniquePresent | frontend/seq/src/taskform.jsx:71 | with unique ids, deleting the id at position k gives the list without position k, exactly one element shorter, the others in order |
| TaskList.RemovePreservesUnique | frontend/seq/src/taskform.jsx:71 | deleting keeps ids unique |
| TaskList.ReplaceAbsent | frontend/seq/src/taskform.jsx:56 | updating an id that no task carries leaves the list exactly as it was |
| TaskList.ReplaceUniquePresent | frontend/seq/src/taskform.jsx:56 | with unique ids, updating the id at position k puts the server's task at position k and leaves the prefix and the suffix unchanged |
| TaskList.ReplacePreservesUnique | frontend/seq/src/taskform.jsx:56 | an update whose returned task keeps the edited id keeps ids unique |
| TaskList.AppendPreservesUnique | frontend/seq/src/taskform.jsx:42 | appending a task with a new id keeps ids unique |
| TaskForm.TaskComponent.constructor | frontend/seq/src/taskform.jsx:5-10 | the view starts with no tasks, an empty draft and `editing` null |
| TaskForm.TaskComponent.FetchTasks | frontend/seq/src/taskform.jsx:16-26 | a successful load sets the list to the returned list in the returned order, so a repeat with the same response changes nothing; a failed load keeps it; draft and `editing` are untouched |
| TaskForm.TaskComponent.HandleChange | frontend/seq/src/taskform.jsx:28-33 | only the named draft field takes the new value; the other field, the list and `editing` are unchanged |
| TaskForm.TaskComponent.HandleCreate | frontend/seq/src/taskform.jsx:35-47 | success gives the old list followed by the server's task and an empty draft; failure keeps the list and the user's draft; `editing` is unchanged; a new id keeps ids unique |
| TaskForm.TaskComponent.HandleUpdate | frontend/seq/src/taskform.jsx:49-62 | success replaces every task matching `editing` in place, keeps the length, clears `editing` and empties the draft; failure changes nothing; a returned task with the edited id keeps ids unique |
| TaskForm.TaskComponent.HandleDelete | frontend/seq/src/taskform.jsx:64-75 | success filters out the tasks with the id, the others in order; failure keeps the list; draft and `editing` are never touched; ids stay unique |
| TaskForm.TaskComponent.StartEditing | frontend/seq/src/taskform.jsx:77-80 | `editing` becomes the task's id, the draft becomes the task's name and description, and the list is unchanged |
| TaskForm.TaskComponent.HandleFormSubmit | frontend/seq/src/taskform.jsx:82-89 | when `editing` is truthy (set and not 0) the effect is that of an update, otherwise that of a create, on success and on failure |

## Left out

- HTTP transport, the bearer-token header and `localStorage` reads (taskform.jsx:18-21, 38-41, 52-55, 66-69): the settled response is a parameter instead. The payload sent to the server (the draft, the id in the URL) is not modelled, since the model takes the server's answer as given.
- Asynchronous interleaving: each handler runs atomically on the current state. The source's handlers capture `tasks` in a closure, and several requests may settle out of order; that is not modelled.
- Error logging (`console.error` of the error message), rendering, styles and the `useEffect` mount hook (taskform.jsx:12-14, 91-234): none of them changes the three pieces of state.
- The `required` attribute on the two inputs (taskform.jsx:102, 111): the browser enforces it before submit runs, so no handler has it as a precondition.
- HandleChange: covers only the two form inputs `task_name` and `task_description`. The source's computed key would add any other input name as an extra draft field, but the form has no other input.
- FetchTasks: assumes the response body is a list of task records; a non-list body is not modelled.
- The signup and login screens (`frontend/seq/src/signup.jsx`, `frontend/seq/src/login.jsx`) are not part of this model: they post a form and store a token, with no state logic beyond a field setter.
