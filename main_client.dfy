/** main.js, the second browser client: it renders the task and project
    lists entry by entry, toggles a task between pending and completed,
    validates its forms after trimming, and keeps one project under edit in
    `editingProjectId`. Unlike script.js it checks `res.ok` and swallows every
    error. Network and `confirm` outcomes come in as arguments. */
module MainClient {
  import opened Common
  import opened Text

  const TasksUrl: string := "/api/tasks"
  const ProjectsUrl: string := "/api/projects"

  // ---------------------------------------------------------------------------
  // Classifiers
  // ---------------------------------------------------------------------------

  /** The status `updateStatus` sends: PENDING for a completed task, and
      COMPLETED for every other status, IN_PROGRESS included. */
  function ToggleStatus(current: string): (r: string)
    ensures r == "PENDING" <==> current == "COMPLETED"
    ensures r == "COMPLETED" <==> current != "COMPLETED"
  {
    if current == "COMPLETED" then "PENDING" else "COMPLETED"
  }

  /** The colour of a task's status badge. */
  function TaskBadge(status: string): (r: string)
    ensures r == "success" <==> status == "COMPLETED"
    ensures r == "warning" <==> status == "IN_PROGRESS"
    ensures r == "secondary" <==> status != "COMPLETED" && status != "IN_PROGRESS"
  {
    if status == "COMPLETED" then "success" else if status == "IN_PROGRESS" then "warning" else "secondary"
  }

  /** The caption of a task's toggle button. */
  function ButtonLabel(status: string): (r: string)
    ensures r == "Mark Pending" <==> status == "COMPLETED"
    ensures r == "Complete" <==> status != "COMPLETED"
  {
    if status == "COMPLETED" then "Mark Pending" else "Complete"
  }

  /** The colour of a project's status badge; a missing status is not
      ACTIVE. */
  function ProjectBadge(status: Option<string>): (r: string)
    ensures r == "success" <==> status == Some("ACTIVE")
    ensures r == "secondary" <==> status != Some("ACTIVE")
  {
    if status == Some("ACTIVE") then "success" else "secondary"
  }

  /** The button says what clicking it does: "Mark Pending" exactly when the
      click sends PENDING, "Complete" exactly when it sends COMPLETED. */
  lemma LabelDescribesToggle(status: string)
    ensures ButtonLabel(status) == "Mark Pending" <==> ToggleStatus(status) == "PENDING"
    ensures ButtonLabel(status) == "Complete" <==> ToggleStatus(status) == "COMPLETED"
  {
  }

  /** Toggling twice brings a pending or completed task back to its status;
      an in-progress task ends up pending. */
  lemma ToggleTwice(status: string)
    ensures status == "PENDING" || status == "COMPLETED" ==> ToggleStatus(ToggleStatus(status)) == status
    ensures status == "IN_PROGRESS" ==> ToggleStatus(ToggleStatus(status)) == "PENDING"
  {
  }

  // ---------------------------------------------------------------------------
  // Rendering
  // ---------------------------------------------------------------------------

  /** A value a template shows only when it is truthy (a non-empty string). */
  function WhenNonEmpty(x: Option<string>): Option<string>
  {
    if x.Some? && x.value != "" then x else None
  }

  /** One rendered task: what it shows, and the arguments its two buttons
      pass to `updateStatus` and `deleteTask`. */
  datatype TaskEntry = TaskEntry(title: string, status: string, badge: string,
                                 projectName: Option<string>, description: Option<string>,
                                 dueDate: Option<string>, buttonLabel: string,
                                 toggleArgs: (int, string), deleteArg: int)

  /** One rendered project: its name, status text and badge, and the
      arguments its buttons pass to `editProject` (as written into the
      `onclick` attribute) and `deleteProject`. */
  datatype ProjectEntry = ProjectEntry(name: string, statusText: string, badge: string,
                                       editArgs: (int, string, string), deleteArg: int)

  /** What a list container holds after a fetch has completed: the
      empty-state message, one entry per item, or the failure message. */
  datatype ListView<E> = EmptyMessage | Entries(entries: seq<E>) | FailureMessage

  /** `${x}` of a value that may be missing. */
  function Interpolated(x: Option<string>): string
  {
    if x.Some? then x.value else "undefined"
  }

  /** The entry of one task: the description, due date and project name
      appear only when non-empty, and the buttons act on the task's own id
      (the toggle with its current status). */
  function TaskEntryOf(t: JsTask): (r: TaskEntry)
    ensures r.title == t.title && r.status == t.status
    ensures r.badge == TaskBadge(t.status) && r.buttonLabel == ButtonLabel(t.status)
    ensures r.toggleArgs == (t.id, t.status) && r.deleteArg == t.id
    ensures r.description.Some? <==> t.description.Some? && t.description.value != ""
    ensures r.description.Some? ==> r.description == t.description
    ensures r.dueDate.Some? <==> t.dueDate.Some? && t.dueDate.value != ""
    ensures r.dueDate.Some? ==> r.dueDate == t.dueDate
    ensures r.projectName.Some? <==> t.project.Some? && t.project.value.name.Some? && t.project.value.name.value != ""
    ensures r.projectName.Some? ==> r.projectName == t.project.value.name
  {
    var projectName := if t.project.Some? then WhenNonEmpty(t.project.value.name) else None;
    TaskEntry(t.title, t.status, TaskBadge(t.status), projectName, WhenNonEmpty(t.description),
              WhenNonEmpty(t.dueDate), ButtonLabel(t.status), (t.id, t.status), t.id)
  }

  /** The entry of one project, as written into the markup: both buttons act
      on the project's id, and the status argument is the status text shown.
      The name argument holds no `'`, but the HTML parser decodes it back to
      the name (`UnescapeEscape`), every `'` included;
      `EditButtonTruncatesName` shows what that does to the handler. */
  function ProjectEntryOf(p: JsProject): (r: ProjectEntry)
    ensures r.name == p.name && r.badge == ProjectBadge(p.status)
    ensures r.editArgs.0 == p.id && r.deleteArg == p.id
    ensures r.editArgs.1 == EscapeApostrophes(p.name) && Apostrophe !in r.editArgs.1
    ensures r.statusText == if p.status.Some? then p.status.value else "undefined"
    ensures r.editArgs.2 == r.statusText
  {
    ProjectEntry(p.name, Interpolated(p.status), ProjectBadge(p.status),
                 (p.id, EscapeApostrophes(p.name), Interpolated(p.status)), p.id)
  }

  /** The `tasks.forEach` loop of `fetchTasks`: one entry per task, in the
      order the server sent them. */
  method RenderTasks(tasks: seq<JsTask>) returns (entries: seq<TaskEntry>)
    ensures |entries| == |tasks|
    ensures forall i | 0 <= i < |tasks| :: entries[i] == TaskEntryOf(tasks[i])
  {
    entries := [];
    var i := 0;
    while i < |tasks|
      invariant 0 <= i <= |tasks|
      invariant |entries| == i
      invariant forall k | 0 <= k < i :: entries[k] == TaskEntryOf(tasks[k])
    {
      entries := entries + [TaskEntryOf(tasks[i])];
      i := i + 1;
    }
  }

  /** The `projects.forEach` loop of `fetchProjects`: one entry per project,
      in server order. */
  method RenderProjects(projects: seq<JsProject>) returns (entries: seq<ProjectEntry>)
    ensures |entries| == |projects|
    ensures forall i | 0 <= i < |projects| :: entries[i] == ProjectEntryOf(projects[i])
  {
    entries := [];
    var i := 0;
    while i < |projects|
      invariant 0 <= i <= |projects|
      invariant |entries| == i
      invariant forall k | 0 <= k < i :: entries[k] == ProjectEntryOf(projects[k])
    {
      entries := entries + [ProjectEntryOf(projects[i])];
      i := i + 1;
    }
  }

  /** The handler source the JavaScript engine reads after
      `editProject(<id>, '` in an edit button's `onclick` attribute, once the
      HTML parser has decoded `&#39;`: the name argument, then `', '`, the
      status and `')`. */
  function NameArgumentSource(e: ProjectEntry): string
  {
    UnescapeApostrophes(e.editArgs.1) + "', '" + e.editArgs.2 + "')"
  }

  /** For a name without `'`, line breaks, `\`, `"` or `&` (which would
      end the attribute or start another character reference), the literal
      the edit button passes to `editProject` is the project's own name, and
      the id is the project's id. */
  lemma EditButtonCarriesName(p: JsProject)
    requires forall i | 0 <= i < |p.name| :: PlainChar(p.name[i]) && p.name[i] != '"'
    requires '&' !in p.name
    ensures LiteralValue(NameArgumentSource(ProjectEntryOf(p))) == Some((p.name, |p.name| + 1))
    ensures ProjectEntryOf(p).editArgs.0 == p.id
  {
    NoAmpersandNoEntity(p.name);
    UnescapeEscape(p.name);
    var src := NameArgumentSource(ProjectEntryOf(p));
    assert src[..|p.name|] == p.name && src[|p.name|] == Apostrophe;
    LiteralEndsAtQuote(src, |p.name|);
  }

  /** As written, a name holding `'` loses it: `&#39;` is decoded back into
      `'` before the handler is compiled, so the literal ends at the name's
      first `'` (at `k`). Its value is the part of the name before it, a
      proper prefix, and the rest of the name, from `k + 1` on, is read as
      code: for `O'Brien` the handler is `editProject(5, 'O'Brien', …)`,
      which does not compile. Names holding `"` or `&` are left out: there
      the attribute ends early or other references are decoded. */
  lemma EditButtonTruncatesName(p: JsProject, k: nat)
    requires k < |p.name| && p.name[k] == Apostrophe
    requires forall i | 0 <= i < k :: PlainChar(p.name[i])
    requires '&' !in p.name && '"' !in p.name
    ensures NameArgumentSource(ProjectEntryOf(p)) == p.name + "', '" + Interpolated(p.status) + "')"
    ensures LiteralValue(NameArgumentSource(ProjectEntryOf(p))) == Some((p.name[..k], k + 1))
    ensures p.name[..k] != p.name
  {
    var tail := "', '" + Interpolated(p.status) + "')";
    NoAmpersandNoEntity(p.name);
    UnescapeEscape(p.name);
    assert NameArgumentSource(ProjectEntryOf(p)) == p.name + tail;
    LiteralEndsInside(p.name, tail, k);
  }

  /** The corrected entry: the name is written as JavaScript string content
      (`\` before `\` and `'`, line breaks as `\n` and `\r`) rather than as
      an HTML reference. */
  function CorrectedProjectEntryOf(p: JsProject): ProjectEntry
  {
    ProjectEntry(p.name, Interpolated(p.status), ProjectBadge(p.status),
                 (p.id, JsQuote(p.name), Interpolated(p.status)), p.id)
  }

  /** With the corrected entry, the edit button passes every name without `&`
      or `"` to `editProject` exactly, `'`, `\` and line breaks included, and
      shows the same text and badge as before. */
  lemma CorrectedEditButtonCarriesName(p: JsProject)
    requires '&' !in p.name && '"' !in p.name
    ensures LiteralValue(NameArgumentSource(CorrectedProjectEntryOf(p))) == Some((p.name, |JsQuote(p.name)| + 1))
    ensures CorrectedProjectEntryOf(p).editArgs.0 == p.id
    ensures CorrectedProjectEntryOf(p) == ProjectEntryOf(p).(editArgs := (p.id, JsQuote(p.name), Interpolated(p.status)))
  {
    var rest := "', '" + Interpolated(p.status) + "')";
    LiteralOfQuoted(p.name, rest[1..]);
    assert NameArgumentSource(CorrectedProjectEntryOf(p)) == JsQuote(p.name) + [Apostrophe] + rest[1..];
  }

  /** The fields of the task form (`project` is the `<select>` value). */
  datatype TaskFields = TaskFields(title: string, description: string, dueDate: string, project: string)

  /** The fields of the project form, and of the project edit form. */
  datatype ProjectFields = ProjectFields(name: string, status: string)

  class MainClient {
    var tasksList: ListView<TaskEntry>
    var projectsList: ListView<ProjectEntry>
    var taskFields: TaskFields
    var projectFields: ProjectFields
    var editFields: ProjectFields
    var editFormVisible: bool
    /** The project the edit form will PUT to; `null` when none. */
    var editingProjectId: Option<int>
    /** Every request issued so far, oldest first. */
    var sent: seq<Request>
    /** The project status `<select>`'s value after `projectForm.reset()`. */
    const projectStatusDefault: string

    /** Page load: `fetchTasks()`, `fetchProjects()`, then the GET of
        `populateTaskProjectDropdown`; nothing is under edit. */
    constructor (projectStatusDefault: string, tasksLoaded: Option<seq<JsTask>>, projectsLoaded: Option<seq<JsProject>>)
      ensures this.projectStatusDefault == projectStatusDefault
      ensures sent == [Request(GET, TasksUrl, NoPayload), Request(GET, ProjectsUrl, NoPayload), Request(GET, ProjectsUrl, NoPayload)]
      ensures tasksList == TasksView(tasksLoaded) && projectsList == ProjectsView(projectsLoaded)
      ensures editingProjectId.None? && !editFormVisible
    {
      this.projectStatusDefault := projectStatusDefault;
      taskFields := TaskFields("", "", "", "");
      projectFields := ProjectFields("", projectStatusDefault);
      editFields := ProjectFields("", "");
      editFormVisible := false;
      editingProjectId := None;
      sent := [Request(GET, TasksUrl, NoPayload), Request(GET, ProjectsUrl, NoPayload), Request(GET, ProjectsUrl, NoPayload)];
      new;
      var entries: seq<TaskEntry>;
      if tasksLoaded.None? {
        tasksList := FailureMessage;
      } else if tasksLoaded.value == [] {
        tasksList := EmptyMessage;
      } else {
        entries := RenderTasks(tasksLoaded.value);
        tasksList := Entries(entries);
      }
      var projectEntries: seq<ProjectEntry>;
      if projectsLoaded.None? {
        projectsList := FailureMessage;
      } else if projectsLoaded.value == [] {
        projectsList := EmptyMessage;
      } else {
        projectEntries := RenderProjects(projectsLoaded.value);
        projectsList := Entries(projectEntries);
      }
    }

    /** What the task list shows once a fetch has ended with `loaded`. */
    static function TasksView(loaded: Option<seq<JsTask>>): (v: ListView<TaskEntry>)
      ensures loaded.None? <==> v.FailureMessage?
      ensures loaded == Some([]) <==> v.EmptyMessage?
      ensures v.Entries? ==> |v.entries| == |loaded.value| > 0
      ensures v.Entries? ==> forall i | 0 <= i < |v.entries| :: v.entries[i] == TaskEntryOf(loaded.value[i])
    {
      if loaded.None? then FailureMessage
      else if loaded.value == [] then EmptyMessage
      else Entries(seq(|loaded.value|, i requires 0 <= i < |loaded.value| => TaskEntryOf(loaded.value[i])))
    }

    /** What the project list shows once a fetch has ended with `loaded`. */
    static function ProjectsView(loaded: Option<seq<JsProject>>): (v: ListView<ProjectEntry>)
      ensures loaded.None? <==> v.FailureMessage?
      ensures loaded == Some([]) <==> v.EmptyMessage?
      ensures v.Entries? ==> |v.entries| == |loaded.value| > 0
      ensures v.Entries? ==> forall i | 0 <= i < |v.entries| :: v.entries[i] == ProjectEntryOf(loaded.value[i])
    {
      if loaded.None? then FailureMessage
      else if loaded.value == [] then EmptyMessage
      else Entries(seq(|loaded.value|, i requires 0 <= i < |loaded.value| => ProjectEntryOf(loaded.value[i])))
    }

    /** `fetchTasks`: a GET is sent and the list is redrawn from scratch.
        `loaded` is the parsed array, `None` when the fetch or the parse
        failed (the status code is not looked at). */
    method FetchTasks(loaded: Option<seq<JsTask>>)
      modifies this
      ensures sent == old(sent) + [Request(GET, TasksUrl, NoPayload)]
      ensures tasksList == TasksView(loaded)
      ensures projectsList == old(projectsList) && taskFields == old(taskFields) && projectFields == old(projectFields)
      ensures editFields == old(editFields) && editFormVisible == old(editFormVisible) && editingProjectId == old(editingProjectId)
    {
      sent := sent + [Request(GET, TasksUrl, NoPayload)];
      if loaded.None? {
        tasksList := FailureMessage;
      } else if loaded.value == [] {
        tasksList := EmptyMessage;
      } else {
        var entries := RenderTasks(loaded.value);
        tasksList := Entries(entries);
      }
    }

    /** `fetchProjects`: as `FetchTasks`, for the project list. */
    method FetchProjects(loaded: Option<seq<JsProject>>)
      modifies this
      ensures sent == old(sent) + [Request(GET, ProjectsUrl, NoPayload)]
      ensures projectsList == ProjectsView(loaded)
      ensures tasksList == old(tasksList) && taskFields == old(taskFields) && projectFields == old(projectFields)
      ensures editFields == old(editFields) && editFormVisible == old(editFormVisible) && editingProjectId == old(editingProjectId)
    {
      sent := sent + [Request(GET, ProjectsUrl, NoPayload)];
      if loaded.None? {
        projectsList := FailureMessage;
      } else if loaded.value == [] {
        projectsList := EmptyMessage;
      } else {
        var entries := RenderProjects(loaded.value);
        projectsList := Entries(entries);
      }
    }

    /** The user types into the task form. */
    method TypeTaskFields(fields: TaskFields)
      modifies this
      ensures taskFields == fields
      ensures sent == old(sent) && tasksList == old(tasksList) && projectsList == old(projectsList) && projectFields == old(projectFields)
      ensures editFields == old(editFields) && editFormVisible == old(editFormVisible) && editingProjectId == old(editingProjectId)
    {
      taskFields := fields;
    }

    /** The user types into the project form. */
    method TypeProjectFields(fields: ProjectFields)
      modifies this
      ensures projectFields == fields
      ensures sent == old(sent) && tasksList == old(tasksList) && projectsList == old(projectsList) && taskFields == old(taskFields)
      ensures editFields == old(editFields) && editFormVisible == old(editFormVisible) && editingProjectId == old(editingProjectId)
    {
      projectFields := fields;
    }

    /** The user types into the project edit form. */
    method TypeEditFields(fields: ProjectFields)
      modifies this
      ensures editFields == fields
      ensures sent == old(sent) && tasksList == old(tasksList) && projectsList == old(projectsList) && taskFields == old(taskFields)
      ensures projectFields == old(projectFields) && editFormVisible == old(editFormVisible) && editingProjectId == old(editingProjectId)
    {
      editFields := fields;
    }

    /** `updateStatus(id, currentStatus)`: a PUT whose body carries only the
        toggled status; only an ok answer re-fetches the tasks. */
    method UpdateStatus(id: int, currentStatus: string, reply: Reply, loaded: Option<seq<JsTask>>)
      modifies this
      ensures var put := Request(PUT, TasksUrl + "/" + IntToString(id), StatusPayload(ToggleStatus(currentStatus)));
        if reply.Accepted() then
          sent == old(sent) + [put, Request(GET, TasksUrl, NoPayload)] && tasksList == TasksView(loaded)
        else
          sent == old(sent) + [put] && tasksList == old(tasksList)
      ensures projectsList == old(projectsList) && taskFields == old(taskFields) && projectFields == old(projectFields)
      ensures editFields == old(editFields) && editFormVisible == old(editFormVisible) && editingProjectId == old(editingProjectId)
    {
      var newStatus := ToggleStatus(currentStatus);
      sent := sent + [Request(PUT, TasksUrl + "/" + IntToString(id), StatusPayload(newStatus))];
      if reply.Accepted() {
        FetchTasks(loaded);
      }
    }

    /** `deleteTask(id)`: no confirmation; the DELETE is sent at once and
        only an ok answer re-fetches the tasks. */
    method DeleteTask(id: int, reply: Reply, loaded: Option<seq<JsTask>>)
      modifies this
      ensures var del := Request(DELETE, TasksUrl + "/" + IntToString(id), NoPayload);
        if reply.Accepted() then
          sent == old(sent) + [del, Request(GET, TasksUrl, NoPayload)] && tasksList == TasksView(loaded)
        else
          sent == old(sent) + [del] && tasksList == old(tasksList)
      ensures projectsList == old(projectsList) && taskFields == old(taskFields) && projectFields == old(projectFields)
      ensures editFields == old(editFields) && editFormVisible == old(editFormVisible) && editingProjectId == old(editingProjectId)
    {
      sent := sent + [Request(DELETE, TasksUrl + "/" + IntToString(id), NoPayload)];
      if reply.Accepted() {
        FetchTasks(loaded);
      }
    }

    /** The task form's `onsubmit`. An all-blank title or an unselected
        project stops it before any request. Otherwise the selected project
        is fetched (`lookup`, `None` when that fails) and embedded in a POST
        of the trimmed title and description with status PENDING; only an ok
        answer resets the form and re-fetches the tasks. */
    method SubmitTask(lookup: Option<JsProject>, reply: Reply, loaded: Option<seq<JsTask>>)
      modifies this
      ensures var f := old(taskFields);
        var get := Request(GET, ProjectsUrl + "/" + f.project, NoPayload);
        if Trim(f.title) == "" || f.project == "" then
          sent == old(sent) && taskFields == f && tasksList == old(tasksList)
        else if lookup.None? then
          sent == old(sent) + [get] && taskFields == f && tasksList == old(tasksList)
        else
          var post := Request(POST, TasksUrl, NewTaskPayload(Trim(f.title), Trim(f.description), f.dueDate, "PENDING", lookup.value));
          if reply.Accepted() then
            && sent == old(sent) + [get, post, Request(GET, TasksUrl, NoPayload)]
            && taskFields == TaskFields("", "", "", "") && tasksList == TasksView(loaded)
          else
            sent == old(sent) + [get, post] && taskFields == f && tasksList == old(tasksList)
      ensures projectsList == old(projectsList) && projectFields == old(projectFields)
      ensures editFields == old(editFields) && editFormVisible == old(editFormVisible) && editingProjectId == old(editingProjectId)
    {
      var title := Trim(taskFields.title);
      var description := Trim(taskFields.description);
      var dueDate := taskFields.dueDate;
      var projectId := taskFields.project;
      if title == "" || projectId == "" {
        return;
      }
      sent := sent + [Request(GET, ProjectsUrl + "/" + projectId, NoPayload)];
      if lookup.None? {
        return;
      }
      sent := sent + [Request(POST, TasksUrl, NewTaskPayload(title, description, dueDate, "PENDING", lookup.value))];
      if reply.Accepted() {
        taskFields := TaskFields("", "", "", "");
        FetchTasks(loaded);
      }
    }

    /** The project form's `onsubmit`: an all-blank name sends nothing;
        otherwise a POST of the trimmed name and the status, and only an ok
        answer resets the form and re-fetches the projects. */
    method SubmitProject(reply: Reply, loaded: Option<seq<JsProject>>)
      modifies this
      ensures var f := old(projectFields);
        var post := Request(POST, ProjectsUrl, ProjectPayload(Trim(f.name), f.status));
        if Trim(f.name) == "" then
          sent == old(sent) && projectFields == f && projectsList == old(projectsList)
        else if reply.Accepted() then
          && sent == old(sent) + [post, Request(GET, ProjectsUrl, NoPayload)]
          && projectFields == ProjectFields("", projectStatusDefault) && projectsList == ProjectsView(loaded)
        else
          sent == old(sent) + [post] && projectFields == f && projectsList == old(projectsList)
      ensures tasksList == old(tasksList) && taskFields == old(taskFields)
      ensures editFields == old(editFields) && editFormVisible == old(editFormVisible) && editingProjectId == old(editingProjectId)
    {
      var name := Trim(projectFields.name);
      var status := projectFields.status;
      if name == "" {
        return;
      }
      sent := sent + [Request(POST, ProjectsUrl, ProjectPayload(name, status))];
      if reply.Accepted() {
        projectFields := ProjectFields("", projectStatusDefault);
        FetchProjects(loaded);
      }
    }

    /** `editProject(id, name, status)`: the project becomes the edit target
        and the edit form shows its name and status. */
    method EditProject(id: int, name: string, status: string)
      modifies this
      ensures editingProjectId == Some(id) && editFormVisible && editFields == ProjectFields(name, status)
      ensures sent == old(sent) && tasksList == old(tasksList) && projectsList == old(projectsList)
      ensures taskFields == old(taskFields) && projectFields == old(projectFields)
    {
      editingProjectId := Some(id);
      editFormVisible := true;
      editFields := ProjectFields(name, status);
    }

    /** The cancel button: the edit form is hidden and nothing is under edit. */
    method CancelEdit()
      modifies this
      ensures editingProjectId.None? && !editFormVisible
      ensures editFields == old(editFields)
      ensures sent == old(sent) && tasksList == old(tasksList) && projectsList == old(projectsList)
      ensures taskFields == old(taskFields) && projectFields == old(projectFields)
    {
      editFormVisible := false;
      editingProjectId := None;
    }

    /** The edit form's `onsubmit`. With no edit target, or an all-blank
        name, nothing happens. Otherwise a PUT of the trimmed name and the
        status goes to the target's URL; only an ok answer hides the form,
        clears the target and re-fetches the projects, and any other outcome
        leaves the edit state as it was. */
    method SubmitEdit(reply: Reply, loaded: Option<seq<JsProject>>)
      modifies this
      ensures var f := old(editFields);
        var target := old(editingProjectId);
        if !TruthyId(target) || Trim(f.name) == "" then
          && sent == old(sent) && projectsList == old(projectsList)
          && editingProjectId == target && editFormVisible == old(editFormVisible)
        else
          var put := Request(PUT, ProjectsUrl + "/" + IntToString(target.value), ProjectPayload(Trim(f.name), f.status));
          if reply.Accepted() then
            && sent == old(sent) + [put, Request(GET, ProjectsUrl, NoPayload)]
            && projectsList == ProjectsView(loaded)
            && editingProjectId.None? && !editFormVisible
          else
            && sent == old(sent) + [put] && projectsList == old(projectsList)
            && editingProjectId == target && editFormVisible == old(editFormVisible)
      ensures editFields == old(editFields) && tasksList == old(tasksList)
      ensures taskFields == old(taskFields) && projectFields == old(projectFields)
    {
      if !TruthyId(editingProjectId) {
        return;
      }
      var name := Trim(editFields.name);
      var status := editFields.status;
      if name == "" {
        return;
      }
      sent := sent + [Request(PUT, ProjectsUrl + "/" + IntToString(editingProjectId.value), ProjectPayload(name, status))];
      if reply.Accepted() {
        editFormVisible := false;
        editingProjectId := None;
        FetchProjects(loaded);
      }
    }

    /** `deleteProject(id)`: a declined confirmation sends nothing; otherwise
        the DELETE is sent and only an ok answer re-fetches the projects. */
    method DeleteProject(id: int, confirmed: bool, reply: Reply, loaded: Option<seq<JsProject>>)
      modifies this
      ensures var del := Request(DELETE, ProjectsUrl + "/" + IntToString(id), NoPayload);
        if !confirmed then
          sent == old(sent) && projectsList == old(projectsList)
        else if reply.Accepted() then
          sent == old(sent) + [del, Request(GET, ProjectsUrl, NoPayload)] && projectsList == ProjectsView(loaded)
        else
          sent == old(sent) + [del] && projectsList == old(projectsList)
      ensures tasksList == old(tasksList) && taskFields == old(taskFields) && projectFields == old(projectFields)
      ensures editFields == old(editFields) && editFormVisible == old(editFormVisible) && editingProjectId == old(editingProjectId)
    {
      if !confirmed {
        return;
      }
      sent := sent + [Request(DELETE, ProjectsUrl + "/" + IntToString(id), NoPayload)];
      if reply.Accepted() {
        FetchProjects(loaded);
      }
    }
  }
}
