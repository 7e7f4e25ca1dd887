# Task manager: browser clients and task controller, in Dafny

This project models the logic of a small task manager web application. The
application has a Spring REST back end (projects and tasks) and two
alternative browser front ends:

- **script.js** is the dashboard client. It caches `projects` and `tasks`
  and renders a filtered, sorted task list with status labels and
  dashboard counts. It edits tasks and projects through two modal forms and
  deletes them behind a confirmation.
- **main.js** is the plain list client. It renders both lists entry by
  entry and toggles a task between pending and completed. It validates its
  forms after trimming, and keeps one project under edit in
  `editingProjectId`.
- **TaskController.java** and the **Task** entity serve `/api/tasks` over
  the task table.

The model takes each source file's own form:

- Pure code is datatypes, functions and lemmas: the task view, the labels,
  the classifiers, the request builders and the finders.
- Code that updates state is classes whose methods declare what they
  modify and state the whole new state:
  - the `Task` entity;
  - the controller over its table;
  - the two clients, with their caches, form fields, modal and edit state,
    and a log of every request sent.
- main.js's `forEach` rendering loops are methods with loops.

Whatever the network or the user decides is passed in as an argument:

- `Reply` says whether a fetch threw or answered, and whether the answer
  was ok and parsed as JSON.
- `Option` snapshots carry what a refresh loaded.
- `confirmed` is the answer to `confirm`.

The modules are:

- `Common`: shared values.
- `Text`: string order, decimal numerals, `trim`, the apostrophe escape and
  its HTML decoding, single-quoted JavaScript string literals.
- `TaskView` and `StatusLabels`: script.js's pure part.
- `ScriptClient`: script.js's state and handlers.
- `MainClient`: main.js.
- `TaskEntity`: Task.java.
- `Server`: TaskController.java over the repository.
- `Interplay`: what holds when the clients and the controller meet.

### Behaviour of the code that the model keeps

- **Deleting a project.** Both clients refresh only the project list.
  The server also deletes the project's tasks, which stay cached until
  the next task refresh. `ScriptClient.ScriptClient.DeleteProject` and
  `MainClient.MainClient.DeleteProject` leave the task list as it was.
- **Toggling a status.** main.js sends a PUT from a button, with a body
  holding only `status`. The controller maps no PATCH.
- **Validation.** script.js validates nothing and ignores `res.ok`. Any
  answer whose body parses as JSON refreshes and closes the modal, and a
  delete refreshes on any answer at all. main.js validates after `trim`
  and checks `res.ok`.
- **Failed mutations.** Neither client tells the user. Errors are
  swallowed, or left as rejected promises.

## Model

| member | source | states |
|---|---|---|
| Common.Reply.Parsed | taskmanager/src/main/resources/static/script.js:42-43 | a definition, no `ensures`: the `.then(res => res.json()).then(...)` chain reaches its second step exactly when a response arrived and its body parses, whatever its status |
| Common.Reply.Accepted | taskmanager/src/main/resources/static/main.js:52 | a definition, no `ensures`: `if (res.ok)` is taken exactly when a response arrived with a 2xx status |
| Common.TruthyId | taskmanager/src/main/resources/static/script.js:152 | a definition, no `ensures`: an id that may be null is truthy when it is present and not 0 |
| Common.OrEmpty | taskmanager/src/main/resources/static/script.js:157 | a definition, no `ensures`: `x || ''` of a string that may be null or undefined |
| Text.LexLeq | taskmanager/src/main/resources/static/script.js:88-89 | the comparison standing in for `localeCompare`: lexicographic order on code points (no `ensures`; its properties are the four lemmas below) |
| Text.LexLeqReflexive | taskmanager/src/main/resources/static/script.js:88-89 | the string order standing in for `localeCompare` is reflexive |
| Text.LexLeqTotal | taskmanager/src/main/resources/static/script.js:88-89 | any two strings are comparable |
| Text.LexLeqAntisymmetric | taskmanager/src/main/resources/static/script.js:88-89 | strings ordered both ways are equal |
| Text.LexLeqTransitive | taskmanager/src/main/resources/static/script.js:88-89 | the order is transitive, so it is a total order the sort can rely on |
| Text.EmptyIsLeast | taskmanager/src/main/resources/static/script.js:89 | `''`, the key of an undated task, precedes every key |
| Text.IntToString | taskmanager/src/main/resources/static/script.js:66 | the decimal text of a number (an option value, a URL segment) is never empty |
| Text.LooseEquals | taskmanager/src/main/resources/static/script.js:85 | a definition, no `ensures`: `n == s` between a number and a string holds when the string reads as that number; `IntToStringLooselyEqual` states that an id matches its own text |
| Text.IntToStringLooselyEqual | taskmanager/src/main/resources/static/script.js:85 | a number is loosely equal (`==`) to its own decimal text: parsing the text gives the number back |
| Text.ParseDecimal | taskmanager/src/main/resources/static/script.js:85 | the number a string is loosely equal to: only digits with an optional leading minus are accepted, and a negative value comes from a leading minus |
| Text.IsSpace | taskmanager/src/main/resources/static/main.js:65 | a definition, no `ensures`: the ECMAScript WhiteSpace and LineTerminator code points that `trim` removes |
| Text.Trim | taskmanager/src/main/resources/static/main.js:65 | `trim` gives a slice with only white space cut off either end, starting and ending with a non-space, and is empty exactly when the input is all white space |
| Text.EscapeApostrophes | taskmanager/src/main/resources/static/main.js:116 | the escaped name contains no `'`, grows by four characters per `'`, and is unchanged when there is none |
| Text.UnescapeApostrophes | taskmanager/src/main/resources/static/main.js:116 | the HTML parser's decoding of `&#39;` in the attribute; a text without `&` comes back unchanged |
| Text.UnescapeEscape | taskmanager/src/main/resources/static/main.js:116 | for every name not already containing `&#39;`, un-escaping the escaped name gives the name back |
| Text.EntityNameIsNotRecovered | taskmanager/src/main/resources/static/main.js:116 | a name that already contains `&#39;` is not recovered: it comes back as `'` |
| Text.LiteralValue | taskmanager/src/main/resources/static/main.js:116 | reading a single-quoted JavaScript literal: when it ends, it ends on a `'` inside the text, and the count includes that `'` |
| Text.LiteralEndsAtQuote | taskmanager/src/main/resources/static/main.js:116 | a literal whose characters before the first `'` are plain ends there, with exactly those characters as its value |
| Text.LiteralEndsInside | taskmanager/src/main/resources/static/main.js:116 | whatever follows, a text with a `'` after plain characters reads as a literal holding only the proper prefix before that `'` |
| Text.JsQuote | taskmanager/src/main/resources/static/main.js:116 | quoting for a JavaScript literal adds no `&`, so the HTML parser leaves the quoted name alone |
| Text.LiteralOfQuoted | taskmanager/src/main/resources/static/main.js:116 | quoting round-trips: the quoted text, closed by `'`, reads back as the original text whatever follows |
| TaskView.Filter | taskmanager/src/main/resources/static/script.js:85-86 | `filter` keeps exactly the elements satisfying the test, each as often as in the input, and never lengthens the list |
| TaskView.FilterKeepsOrder | taskmanager/src/main/resources/static/script.js:85-86 | filtering a concatenation is the concatenation of the filtered parts, so the kept elements stay in input order |
| TaskView.ProjectMatches | taskmanager/src/main/resources/static/script.js:85 | a definition, no `ensures`: the task has a project whose id is loosely equal to the selected filter value |
| TaskView.Shown | taskmanager/src/main/resources/static/script.js:84-86 | a definition, no `ensures`: each filter keeps every task when its selection is empty, and otherwise applies its own test; `FilteredTasks` states what the filtered list holds |
| TaskView.FilteredTasks | taskmanager/src/main/resources/static/script.js:84-86 | both filters keep exactly the cached tasks that have a project loosely equal to a non-empty project selection and the selected status (an empty selection keeps all), as a sub-multiset of the cache |
| TaskView.SortKey | taskmanager/src/main/resources/static/script.js:88-89 | the sort key: the title under `'title'`, otherwise `dueDate \|\| ''` (a definition, no `ensures`) |
| TaskView.SortTasks | taskmanager/src/main/resources/static/script.js:88-89 | the stable sort on that key (a definition, no `ensures`; its properties are the three lemmas below) |
| TaskView.SortPermutes | taskmanager/src/main/resources/static/script.js:88-89 | sorting is a permutation |
| TaskView.SortSorted | taskmanager/src/main/resources/static/script.js:88-89 | sorting orders by title under `'title'`, otherwise by `dueDate \|\| ''` |
| TaskView.SortStable | taskmanager/src/main/resources/static/script.js:88-89 | the sort is stable: the tasks sharing a key keep their relative order |
| TaskView.FilterWithKey | taskmanager/src/main/resources/static/script.js:85-86 | selecting the tasks with one key and filtering commute |
| TaskView.DisplayTasks | taskmanager/src/main/resources/static/script.js:79-89 | the rendered list holds exactly the shown tasks of the cache, each as often as cached, in ascending key order; the cache is an input and is not changed |
| TaskView.DisplayStable | taskmanager/src/main/resources/static/script.js:84-89 | the rendered tasks with key `k` are exactly the cached tasks with key `k` that pass both filters, in the order the cache holds them |
| TaskView.UndatedFirst | taskmanager/src/main/resources/static/script.js:89 | under the due-date sort, every task without a due date precedes every task with one |
| TaskView.CountStatus | taskmanager/src/main/resources/static/script.js:208-210 | a status count never exceeds the number of tasks |
| TaskView.CountIsFilterLength | taskmanager/src/main/resources/static/script.js:208-210 | each count is the length of the list filtered by that status |
| TaskView.DashboardSummary | taskmanager/src/main/resources/static/script.js:205-210 | the counts are taken over the whole cache, with no filter or sort among the inputs: the total is its length and each count is the length of the cache filtered by strict equality with its own status (PENDING, IN_PROGRESS, COMPLETED) |
| TaskView.StatusCountsAddUp | taskmanager/src/main/resources/static/script.js:207-210 | the three status counts of a list add up to at most its length, and to exactly its length iff every status is one of the three |
| TaskView.SummaryAddsUp | taskmanager/src/main/resources/static/script.js:205-210 | pending + in progress + completed never exceeds the total, and equals it exactly when every status is one of the three |
| StatusLabels.Humanize | taskmanager/src/main/resources/static/script.js:122-131 | a definition, no `ensures`: the reference wording of a constant (`_` to a space, each word capitalised), against which `FormatStatus` states its labels |
| StatusLabels.FormatStatus | taskmanager/src/main/resources/static/script.js:122-131 | the five known values get their own label, different from the value; any other value is returned unchanged |
| StatusLabels.StatusColor | taskmanager/src/main/resources/static/script.js:111-120 | every status gets a class; an unknown one gets the default class |
| StatusLabels.StatusColorsDistinct | taskmanager/src/main/resources/static/script.js:111-120 | the three task statuses and ACTIVE get classes distinct from each other and from the default; ARCHIVED shares the default class |
| TaskEntity.StatusName | taskmanager/src/main/java/com/taskmanager/taskmanager/model/Task.java:18-34 | the name a status is stored and sent under reads back as that status |
| TaskEntity.ParseStatus | taskmanager/src/main/java/com/taskmanager/taskmanager/model/Task.java:30-34 | exactly the three names PENDING, IN_PROGRESS and COMPLETED are statuses |
| TaskEntity.Persistable | taskmanager/src/main/java/com/taskmanager/taskmanager/model/Task.java:13-20 | a row can be stored exactly when its two `nullable = false` columns, title and status, are set (a definition, no `ensures`) |
| TaskEntity.Task.constructor | taskmanager/src/main/java/com/taskmanager/taskmanager/model/Task.java:37 | a new task has status PENDING and every other field null, the id included |
| TaskEntity.Task.Create | taskmanager/src/main/java/com/taskmanager/taskmanager/model/Task.java:38-44 | each argument goes to its own field and the id stays unset |
| TaskEntity.Task.GetId | taskmanager/src/main/java/com/taskmanager/taskmanager/model/Task.java:47 | a definition, no `ensures`: the id field |
| TaskEntity.Task.GetTitle | taskmanager/src/main/java/com/taskmanager/taskmanager/model/Task.java:48 | a definition, no `ensures`: the title field |
| TaskEntity.Task.GetDescription | taskmanager/src/main/java/com/taskmanager/taskmanager/model/Task.java:50 | a definition, no `ensures`: the description field |
| TaskEntity.Task.GetStatus | taskmanager/src/main/java/com/taskmanager/taskmanager/model/Task.java:52 | a definition, no `ensures`: the status field |
| TaskEntity.Task.GetDueDate | taskmanager/src/main/java/com/taskmanager/taskmanager/model/Task.java:54 | a definition, no `ensures`: the due date field |
| TaskEntity.Task.GetProject | taskmanager/src/main/java/com/taskmanager/taskmanager/model/Task.java:56 | a definition, no `ensures`: the project field |
| TaskEntity.Task.SetTitle | taskmanager/src/main/java/com/taskmanager/taskmanager/model/Task.java:49 | the getter returns the new title; no other field changes |
| TaskEntity.Task.SetDescription | taskmanager/src/main/java/com/taskmanager/taskmanager/model/Task.java:51 | the getter returns the new description; no other field changes |
| TaskEntity.Task.SetStatus | taskmanager/src/main/java/com/taskmanager/taskmanager/model/Task.java:53 | the getter returns the new status; no other field changes |
| TaskEntity.Task.SetDueDate | taskmanager/src/main/java/com/taskmanager/taskmanager/model/Task.java:55 | the getter returns the new due date; no other field changes |
| TaskEntity.Task.SetProject | taskmanager/src/main/java/com/taskmanager/taskmanager/model/Task.java:57 | the getter returns the new project; no other field changes |
| Server.InProject | taskmanager/src/main/java/com/taskmanager/taskmanager/repository/TaskRepository.java:19 | a definition, no `ensures`: the row's project has the given id, the condition `findByProjectId` derives from its name |
| Server.HasStatus | taskmanager/src/main/java/com/taskmanager/taskmanager/repository/TaskRepository.java:16 | a definition, no `ensures`: the row has the given status, the condition `findByStatus` derives from its name |
| Server.FindAll | taskmanager/src/main/java/com/taskmanager/taskmanager/repository/TaskRepository.java:13 | exactly the stored rows: every stored row is in the answer, and every row in the answer is stored under some id |
| Server.FindByStatus | taskmanager/src/main/java/com/taskmanager/taskmanager/repository/TaskRepository.java:16 | only stored rows, and a stored row exactly when it has the status |
| Server.FindByProjectId | taskmanager/src/main/java/com/taskmanager/taskmanager/repository/TaskRepository.java:19 | only stored rows, and a stored row exactly when it belongs to the project |
| Server.FindByProjectIdAndStatus | taskmanager/src/main/java/com/taskmanager/taskmanager/repository/TaskRepository.java:22 | exactly the rows both other queries answer |
| Server.MatchesQuery | taskmanager/src/main/java/com/taskmanager/taskmanager/controller/TaskController.java:20-31 | a definition, no `ensures`: a row answers the query when it matches every parameter that was supplied; `GetTasks` states that the dispatch returns exactly these rows |
| Server.UpdatedRow | taskmanager/src/main/java/com/taskmanager/taskmanager/controller/TaskController.java:48-52 | the row `updateTask` saves is the body with the stored row's id |
| Server.TaskController.constructor | taskmanager/src/main/java/com/taskmanager/taskmanager/model/Task.java:8-10 | the table starts empty, with identity values starting at 1 |
| Server.TaskController.GetTasks | taskmanager/src/main/java/com/taskmanager/taskmanager/controller/TaskController.java:19-32 | the answer is exactly the stored rows that match every supplied parameter, and every row when none is supplied |
| Server.TaskController.GetTaskById | taskmanager/src/main/java/com/taskmanager/taskmanager/controller/TaskController.java:39-42 | `null` exactly for an id that is not stored, otherwise the stored row, whose id is the one asked for |
| Server.TaskController.CreateTask | taskmanager/src/main/java/com/taskmanager/taskmanager/controller/TaskController.java:34-37 | a body without id is inserted under a fresh identity value, never overwriting a row, and gets that id; a body with a stored id overwrites that row; a body without title or status, or with an unknown id, fails and stores nothing |
| Server.TaskController.UpdateTask | taskmanager/src/main/java/com/taskmanager/taskmanager/controller/TaskController.java:44-55 | for a stored id, title, description, status, due date and project are overwritten from the body and the id is kept; a missing id gives `null` and stores nothing; a result without title or status fails and stores nothing |
| Server.TaskController.DeleteTask | taskmanager/src/main/java/com/taskmanager/taskmanager/controller/TaskController.java:57-60 | the id is removed and nothing else, and `getTaskById` then answers `null` |
| ScriptClient.FindIndex | taskmanager/src/main/resources/static/script.js:153 | `find` by `===` on the id gives the first element with that id, or nothing exactly when no element has it |
| ScriptClient.DropdownDefault | taskmanager/src/main/resources/static/script.js:62-68 | the project select's value after a reset is empty exactly when no project is cached, and otherwise loosely equal to the first cached project's id |
| ScriptClient.TaskFields | taskmanager/src/main/resources/static/script.js:155-160 | the id field and the project field are loosely equal to the task's id and its project's id; the project field is empty exactly when the task has no project |
| ScriptClient.OpenedTaskForm | taskmanager/src/main/resources/static/script.js:147-162 | the fields come from the first cached task with that id when the argument is truthy and one exists: id (loosely equal to the argument), title, `description \|\| ''`, status, `dueDate \|\| ''` and project id or `''`; the id field is non-empty exactly then, and otherwise the fields are the reset ones |
| ScriptClient.OpenedProjectForm | taskmanager/src/main/resources/static/script.js:320-336 | the fields come from the first cached project with that id when the argument is truthy and one exists: id, name and, where a status field exists, `project.status \|\| 'ACTIVE'`; otherwise an empty id and name with status `'ACTIVE'` |
| ScriptClient.TaskSubmitRequest | taskmanager/src/main/resources/static/script.js:170-189 | PUT to `/api/tasks/{id}` exactly when the id field is non-empty, else POST to `/api/tasks`; the body carries title, description, status and due date as typed, and `project` is null exactly when no project is selected, else the selected value |
| ScriptClient.ProjectSubmitRequest | taskmanager/src/main/resources/static/script.js:301-312 | PUT or POST as for tasks; the status is `"ACTIVE"` when the page has no status field |
| ScriptClient.EditThenSubmit | taskmanager/src/main/resources/static/script.js:147-189 | opening the editor on a cached task and submitting sends a PUT to that task's URL with its title, description, status and due date (`''` when missing) and a project id loosely equal to its own; anything else submits as a create |
| ScriptClient.EditProjectThenSubmit | taskmanager/src/main/resources/static/script.js:301-336 | opening the project editor on a cached project and submitting sends a PUT to its URL with its name and its status, or `'ACTIVE'` when it has none or the page has no status field; anything else is a POST of an empty name with status ACTIVE |
| ScriptClient.ScriptClient.ClearedTaskForm | taskmanager/src/main/resources/static/script.js:150-151 | after the reset the id field is explicitly empty |
| ScriptClient.ScriptClient.constructor | taskmanager/src/main/resources/static/script.js:5-11 | page load fetches projects, then tasks; each cache holds what loaded, and once the projects load, the task form's project field holds the first project's id (empty when there is none) |
| ScriptClient.ScriptClient.FetchTasks | taskmanager/src/main/resources/static/script.js:51-60 | one GET; a loaded snapshot replaces the whole task cache, and a failure leaves it; nothing else changes |
| ScriptClient.ScriptClient.FetchProjects | taskmanager/src/main/resources/static/script.js:40-49 | the same for the project cache; a parsed answer also rebuilds the task form's project dropdown, so that field becomes the first cached project's id (empty when none), and every other task form field is kept |
| ScriptClient.ScriptClient.OpenTaskModal | taskmanager/src/main/resources/static/script.js:147-164 | heading "Edit Task" exactly for a truthy argument; the fields are `OpenedTaskForm` of the reset fields; the modal is open; no request, no cache change |
| ScriptClient.ScriptClient.CloseTaskModal | taskmanager/src/main/resources/static/script.js:166 | the modal is closed and the fields are kept |
| ScriptClient.ScriptClient.SubmitTaskForm | taskmanager/src/main/resources/static/script.js:168-195 | sends the request the fields describe; only an answer that parses as JSON, whatever its status, then refreshes the tasks and closes the modal |
| ScriptClient.ScriptClient.DeleteTask | taskmanager/src/main/resources/static/script.js:198-202 | declined: no request and no change; confirmed: a DELETE, and any answer refreshes the tasks only |
| ScriptClient.ScriptClient.OpenProjectModal | taskmanager/src/main/resources/static/script.js:320-338 | the fields are `OpenedProjectForm`; the modal is open; no request |
| ScriptClient.ScriptClient.CloseProjectModal | taskmanager/src/main/resources/static/script.js:339 | the modal is closed and the fields are kept |
| ScriptClient.ScriptClient.SubmitProjectForm | taskmanager/src/main/resources/static/script.js:299-318 | as the task submit, refreshing the projects; the refresh sets the task form's project field to the first cached project's id |
| ScriptClient.ScriptClient.DeleteProject | taskmanager/src/main/resources/static/script.js:340-344 | declined: no request and no change; confirmed: a DELETE, and any answer refreshes the projects only, never the tasks; the refresh sets the task form's project field to the first cached project's id |
| MainClient.ToggleStatus | taskmanager/src/main/resources/static/main.js:45 | PENDING exactly for a completed task, COMPLETED for every other status |
| MainClient.TaskBadge | taskmanager/src/main/resources/static/main.js:26 | success exactly for COMPLETED, warning exactly for IN_PROGRESS, secondary otherwise |
| MainClient.ButtonLabel | taskmanager/src/main/resources/static/main.js:33 | "Mark Pending" exactly for COMPLETED, "Complete" otherwise |
| MainClient.ProjectBadge | taskmanager/src/main/resources/static/main.js:113 | success exactly for ACTIVE, secondary otherwise (a missing status included) |
| MainClient.LabelDescribesToggle | taskmanager/src/main/resources/static/main.js:33-45 | the button says "Mark Pending" exactly when clicking it sends PENDING |
| MainClient.ToggleTwice | taskmanager/src/main/resources/static/main.js:45 | two toggles restore a pending or completed status and turn an in-progress one into pending |
| MainClient.WhenNonEmpty | taskmanager/src/main/resources/static/main.js:27-30 | a definition, no `ensures`: a template part shown only when its value is a non-empty string; `TaskEntryOf` states both directions for each optional part |
| MainClient.Interpolated | taskmanager/src/main/resources/static/main.js:113 | a definition, no `ensures`: `${x}` of a missing value writes `undefined` |
| MainClient.TaskEntryOf | taskmanager/src/main/resources/static/main.js:20-36 | a task's entry shows its title and status with the status's badge and button label; description, due date and project name appear exactly when non-empty; the buttons act on the task's id, the toggle with its current status |
| MainClient.ProjectEntryOf | taskmanager/src/main/resources/static/main.js:108-119 | a project's entry shows its name, its badge and its status text (`undefined` when missing); both buttons act on its id; the name argument is the `&#39;`-escaped name and the status argument is the status text |
| MainClient.RenderTasks | taskmanager/src/main/resources/static/main.js:19-38 | one entry per task, in server order |
| MainClient.RenderProjects | taskmanager/src/main/resources/static/main.js:107-121 | one entry per project, in server order |
| MainClient.EditButtonCarriesName | taskmanager/src/main/resources/static/main.js:116 | for a name without `'`, `\\`, `"`, `&` or line breaks, the literal the edit button passes is the project's name, with the project's id |
| MainClient.NameArgumentSource | taskmanager/src/main/resources/static/main.js:116 | the handler source after `editProject(<id>, '`, with `&#39;` decoded (a definition, no `ensures`) |
| MainClient.EditButtonTruncatesName | taskmanager/src/main/resources/static/main.js:116 | as written, for a name without `"` or `&` whose first `'` follows plain characters, the handler source holds the name verbatim, and the name's literal ends at that `'` and holds only the proper prefix before it; the rest of the name is read as code |
| MainClient.CorrectedProjectEntryOf | taskmanager/src/main/resources/static/main.js:116 | the corrected entry writes the name as JavaScript string content (a definition, no `ensures`) |
| MainClient.CorrectedEditButtonCarriesName | taskmanager/src/main/resources/static/main.js:116 | with the corrected entry, every name without `&` or `"` reaches `editProject` exactly, `'` and `\\` included; text and badge are as before |
| MainClient.MainClient.TasksView | taskmanager/src/main/resources/static/main.js:11-41 | the failure message exactly when loading failed, the empty-state message exactly for an empty list, otherwise the entry of each task, in server order |
| MainClient.MainClient.ProjectsView | taskmanager/src/main/resources/static/main.js:99-124 | the same for projects, with the entry of each project |
| MainClient.MainClient.constructor | taskmanager/src/main/resources/static/main.js:87 | page load fetches tasks, projects and the dropdown's projects; nothing is under edit |
| MainClient.MainClient.FetchTasks | taskmanager/src/main/resources/static/main.js:9-42 | one GET; the list is redrawn as `TasksView` of what loaded; nothing else changes |
| MainClient.MainClient.FetchProjects | taskmanager/src/main/resources/static/main.js:97-125 | the same for projects |
| MainClient.MainClient.UpdateStatus | taskmanager/src/main/resources/static/main.js:44-54 | a PUT whose body is the toggled status alone; only an ok answer re-fetches the tasks |
| MainClient.MainClient.DeleteTask | taskmanager/src/main/resources/static/main.js:56-61 | no confirmation: the DELETE is always sent; only an ok answer re-fetches |
| MainClient.MainClient.SubmitTask | taskmanager/src/main/resources/static/main.js:63-85 | no request for a blank trimmed title or no project; otherwise the project lookup, then a POST with status PENDING; only an ok answer resets the form and re-fetches |
| MainClient.MainClient.SubmitProject | taskmanager/src/main/resources/static/main.js:127-143 | no request for a blank trimmed name; only an ok answer resets the form and re-fetches |
| MainClient.MainClient.EditProject | taskmanager/src/main/resources/static/main.js:145-150 | the project becomes the edit target and the edit form shows its name and status |
| MainClient.MainClient.CancelEdit | taskmanager/src/main/resources/static/main.js:152-155 | the form is hidden and nothing is under edit |
| MainClient.MainClient.SubmitEdit | taskmanager/src/main/resources/static/main.js:157-175 | nothing without a truthy target or with a blank name; only an ok PUT hides the form, clears the target and re-fetches; any other outcome keeps the edit state |
| MainClient.MainClient.DeleteProject | taskmanager/src/main/resources/static/main.js:177-183 | declined: no request; confirmed: a DELETE, and only an ok answer re-fetches the projects |
| Interplay.ServeAsWritten | taskmanager/src/main/java/com/taskmanager/taskmanager/model/Task.java:25-28 | a served task never carries its project |
| Interplay.ServeWithProject | taskmanager/src/main/java/com/taskmanager/taskmanager/model/Task.java:25-28 | with the project written as `{id}`, a served task carries a project exactly when the row refers to a saved one, with its id |
| Interplay.ServedAsWritten | taskmanager/src/main/java/com/taskmanager/taskmanager/controller/TaskController.java:19-32 | the JSON array `getTasks` answers has one element per row, in order, each the row as serialized with the project left out |
| Interplay.ServedWithProject | taskmanager/src/main/java/com/taskmanager/taskmanager/controller/TaskController.java:19-32 | the same array with each task's project written as `{id}` |
| Interplay.ProjectFilterEmptiesList | taskmanager/src/main/resources/static/script.js:85 | as written, choosing any project in the filter leaves no task in the list |
| Interplay.ProjectFilterMatchesServer | taskmanager/src/main/resources/static/script.js:85 | with projects served, the client's filter for project `p` keeps a task exactly when the controller's `projectId=p` query returns its row |
| Interplay.TableRowsStored | taskmanager/src/main/java/com/taskmanager/taskmanager/model/Task.java:9-20 | every row the controller holds is saved and satisfies the not-null columns, so the serialization lemmas apply to the table |
| Interplay.ServedSummaryAddsUp | taskmanager/src/main/resources/static/script.js:205-210 | every served status is one of the three counted, so the dashboard counts add up to the total, for the tasks as the program serves them and with projects included |
| Interplay.StatusOnlyBody | taskmanager/src/main/resources/static/main.js:50 | the entity built from the toggle body has every field but the status null |
| Interplay.ToggleRowNotPersistable | taskmanager/src/main/java/com/taskmanager/taskmanager/controller/TaskController.java:48 | the row a toggle would save has no title, so it cannot be stored |
| Interplay.ToggleAsWritten | taskmanager/src/main/resources/static/main.js:44-53 | the toggle as written never returns a task and never changes the table |
| Interplay.ToggledBody | taskmanager/src/main/resources/static/main.js:45 | the corrected toggle body carries the toggled status |
| Interplay.ToggledBodyChangesOnlyStatus | taskmanager/src/main/java/com/taskmanager/taskmanager/controller/TaskController.java:48-53 | updating with the whole task, status toggled, changes only the status and stays storable |
| Interplay.ToggleCorrected | taskmanager/src/main/resources/static/main.js:44-53 | the corrected toggle changes the stored task's status and nothing else |

## Left out

- HTML: the markup, DOM lookups, modal animations and timers are not modelled. The Chart.js doughnut is not modelled either; only the three counts it receives are.
- `displayProjectSection`, `populateProjectFilter` and main.js's `populateTaskProjectDropdown` are left out: they only render option lists and cards. Of script.js's task dropdown only the value it leaves selected is kept: its first option, the first cached project, which both the form reset and each rebuild of the options select.
- Select elements: a `<select>` ignores a value that matches none of its options. That coercion is not modelled; the fields hold the value written.
- Browser validation: `required` attributes, date input parsing and HTML decoding of character references other than `&#39;` are not modelled.
- MainClient.NameArgumentSource: the handler text is modelled from the name argument on, and only `&#39;` is decoded in it. A `"` in a name ends the `onclick` attribute early, and other references such as `&amp;` are decoded too; neither is modelled, which is why the edit-button lemmas leave out names holding `"` or `&`.
- Text.LiteralValue: only the escapes `\'`, `\"`, `\\`, `\n` and `\r` are read; any other escape gives `None`. Only the name literal is read; the rest of the handler is not parsed.
- MainClient.CorrectedEditButtonCarriesName: the corrected entry escapes for JavaScript only; names holding `&` or `"` would also need `&amp;` and `&quot;` in the attribute, which is not modelled.
- Number parsing: loose `==` and `Number` are modelled on decimal integer text with an optional minus sign. JavaScript's white-space padding, leading `+` sign, hexadecimal, exponent and fraction forms are not.
- Sorting: `localeCompare` is modelled as lexicographic order on code points, so locale collation rules are not captured.
- Text.LexLeq: strings are sequences of code points, not of UTF-16 code units, so characters outside the Basic Multilingual Plane (emoji, for instance) are ordered by code point; UTF-16 order would place them before U+E000 to U+FFFF.
- Request log: the model records one request per `fetch` call, in issue order. Interleaved completions of concurrent requests and the `Loading...` placeholder between a fetch and its answer are not modelled.
- Server.TaskController.GetTasks: the answer is a set of rows. The repository returns a `List`, so its order and any repeated row are not modelled.
- Cache contents: script.js assigns whatever JSON parses to `projects` and `tasks`, so an error document (a JSON body of a 500 answer) replaces a cache with a non-array. The snapshots are `Option<seq<...>>`, which cannot hold that value; such an answer is modelled as a list.
- `Reply`: the HTTP status code and the response bodies of mutations are not modelled, beyond `ok` and whether the body parses.
- MainClient.MainClient.SubmitTask: the looked-up project is the parsed `JsProject`. An answer that parses but is not a project (an error document) is not modelled.
- Server.TaskController.CreateTask: `save` of a body whose id is unknown is modelled as a failure. Some Hibernate versions insert such a body under a new id instead.
- Request bodies: the controller receives a `Task` entity. Jackson's decoding of the project reference under `@JsonBackReference` is not modelled; only the status-only body of main.js's toggle is.
- TaskService.java and TaskRepository.java are not modelled separately: they only delegate. The repository appears as the controller's table and the finders over it.
- ProjectController.java, ProjectService.java and Project.java's cascade delete are not part of this model. Project.java declares no status column, which is why project JSON carries no status and a missing project status appears throughout the model.
- Timing: `confirm`, user typing (the `Type…Fields` methods of both client classes) and network answers are arguments, not modelled behaviour.

## Findings

| source | as written | input that shows it | evidently intended | confidence | as-written member | corrected member |
|---|---|---|---|---|---|---|
| taskmanager/src/main/java/com/taskmanager/taskmanager/model/Task.java:27 | `@JsonBackReference` makes Jackson omit `project` from every serialized task, while script.js filters on `t.project.id` | any stored task in project 5, with project 5 chosen in script.js's project filter: the list is empty | the filter shows the tasks of the chosen project | high for the serialization; not executed | Interplay.ProjectFilterEmptiesList | Interplay.ProjectFilterMatchesServer |
| taskmanager/src/main/resources/static/main.js:47-51 | the toggle PUTs `{status}` alone; `updateTask` copies the body's null title onto the stored task, and `save` rejects it because `title` is `nullable = false` | stored task 1 with title "a" and status PENDING; clicking "Complete" sends `PUT /api/tasks/1` with `{"status":"COMPLETED"}`, which fails, and nothing changes | the task's status becomes COMPLETED and nothing else changes | high; not executed | Interplay.ToggleAsWritten | Interplay.ToggleCorrected |
| taskmanager/src/main/resources/static/main.js:116 | the name is escaped with `&#39;`, which the HTML parser decodes back to `'` before the `onclick` handler is compiled, so the name's single-quoted literal ends at its first `'` | project 5 named `O'Brien`: the handler is `editProject(5, 'O'Brien', 'undefined')`, which does not compile, so Edit does nothing | the edit form opens with the project's name | high; not executed | MainClient.EditButtonTruncatesName | MainClient.CorrectedEditButtonCarriesName |
