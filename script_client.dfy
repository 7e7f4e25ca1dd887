/** The state script.js keeps between events: the cached `projects` and
    `tasks` arrays, the fields of the task and project modals, and the
    requests it has sent. Each event handler is a method; what the network
    answers (and what the user answers to `confirm`) comes in as arguments. */
module ScriptClient {
  import opened Common
  import opened Text

  /** The six fields of the task modal (`taskId` is a hidden input). */
  datatype TaskForm = TaskForm(id: string, title: string, description: string,
                               status: string, dueDate: string, project: string)

  /** The fields of the project modal; `status` is `None` on a page without a
      `projectStatus` field. */
  datatype ProjectForm = ProjectForm(id: string, name: string, status: Option<string>)

  const TasksUrl: string := "/api/tasks"
  const ProjectsUrl: string := "/api/projects"

  /** `Array.prototype.find` by `===` on the id: the index of the first
      element whose id is `id`, if there is one. */
  function FindIndex<T>(s: seq<T>, idOf: T -> int, id: int): (r: Option<nat>)
    ensures r.Some? ==> r.value < |s| && idOf(s[r.value]) == id
    ensures r.Some? ==> forall j | 0 <= j < r.value :: idOf(s[j]) != id
    ensures r.None? <==> forall j | 0 <= j < |s| :: idOf(s[j]) != id
  {
    if s == [] then None
    else if idOf(s[0]) == id then Some(0)
    else
      match FindIndex(s[1..], idOf, id)
      case None => None
      case Some(k) =>
        assert forall j | 1 <= j <= k :: s[j] == s[1..][j - 1];
        Some(k + 1)
  }

  /** The value the task modal's project `<select>` takes after `form.reset()`:
      its first option, which `populateProjectDropdown` made the first
      cached project. */
  function DropdownDefault(projects: seq<JsProject>): (r: string)
    ensures r == "" <==> |projects| == 0
    ensures r != "" ==> ParseDecimal(r) == Some(projects[0].id)
  {
    if |projects| > 0 then
      IntToStringLooselyEqual(projects[0].id);
      IntToString(projects[0].id)
    else ""
  }

  /** What `openTaskModal` writes into the fields for a cached task. */
  function TaskFields(t: JsTask): (r: TaskForm)
    ensures ParseDecimal(r.id) == Some(t.id)
    ensures r.project == "" <==> t.project.None?
    ensures t.project.Some? ==> ParseDecimal(r.project) == Some(t.project.value.id)
  {
    IntToStringLooselyEqual(t.id);
    var project :=
      if t.project.Some? then
        IntToStringLooselyEqual(t.project.value.id);
        IntToString(t.project.value.id)
      else "";
    TaskForm(IntToString(t.id), t.title, OrEmpty(t.description), t.status, OrEmpty(t.dueDate), project)
  }

  /** The task modal's fields after `openTaskModal(taskId)`, starting from the
      fields `cleared` that reset and clearing the id left. The fields come
      from the first cached task with that id when the argument is truthy and
      such a task exists; the id field is non-empty exactly then. */
  function OpenedTaskForm(tasks: seq<JsTask>, cleared: TaskForm, taskId: Option<int>): (r: TaskForm)
    requires cleared.id == ""
    ensures r.id != "" <==> TruthyId(taskId) && FindIndex(tasks, (t: JsTask) => t.id, taskId.value).Some?
    ensures r.id == "" ==> r == cleared
    ensures r.id != "" ==>
      var t := tasks[FindIndex(tasks, (t: JsTask) => t.id, taskId.value).value];
      && r.id == IntToString(taskId.value) && t.id == taskId.value
      && r.title == t.title && r.description == OrEmpty(t.description)
      && r.status == t.status && r.dueDate == OrEmpty(t.dueDate)
      && r.project == (if t.project.Some? then IntToString(t.project.value.id) else "")
  {
    if TruthyId(taskId) then
      match FindIndex(tasks, (t: JsTask) => t.id, taskId.value)
      case Some(i) => TaskFields(tasks[i])
      case None => cleared
    else cleared
  }

  /** The project modal's fields after `openProjectModal(projectId)`: empty,
      with status `'ACTIVE'` where the status field exists, unless the
      argument is truthy and names a cached project; then that project's id
      and name, and its status or `'ACTIVE'` when it has none. */
  function OpenedProjectForm(projects: seq<JsProject>, hasStatusField: bool, projectId: Option<int>): (r: ProjectForm)
    ensures r.status.Some? <==> hasStatusField
    ensures r.status.Some? ==> r.status.value != ""
    ensures r.id != "" <==> TruthyId(projectId) && FindIndex(projects, (p: JsProject) => p.id, projectId.value).Some?
    ensures r.id == "" ==> r == ProjectForm("", "", if hasStatusField then Some("ACTIVE") else None)
    ensures r.id != "" ==>
      var p := projects[FindIndex(projects, (p: JsProject) => p.id, projectId.value).value];
      && r.id == IntToString(projectId.value) && p.id == projectId.value && r.name == p.name
      && (hasStatusField ==> r.status.value == if p.status.Some? && p.status.value != "" then p.status.value else "ACTIVE")
  {
    var blank := ProjectForm("", "", if hasStatusField then Some("ACTIVE") else None);
    if TruthyId(projectId) then
      match FindIndex(projects, (p: JsProject) => p.id, projectId.value)
      case Some(i) =>
        var p := projects[i];
        var status := if p.status.Some? && p.status.value != "" then p.status.value else "ACTIVE";
        ProjectForm(IntToString(p.id), p.name, if hasStatusField then Some(status) else None)
      case None => blank
    else blank
  }

  /** The request `submitTaskForm` sends: PUT to the task's own URL when the
      hidden id field is non-empty, otherwise POST to the collection; the
      body carries the five visible fields, with `project` null exactly when
      no project is selected. */
  function TaskSubmitRequest(form: TaskForm): (r: Request)
    ensures r.verb == PUT <==> form.id != ""
    ensures r.verb == POST <==> form.id == ""
    ensures r.url == if form.id != "" then TasksUrl + "/" + form.id else TasksUrl
    ensures r.payload.TaskPayload? && r.payload.title == form.title && r.payload.status == form.status
    ensures r.payload.description == form.description && r.payload.dueDate == form.dueDate
    ensures r.payload.project.None? <==> form.project == ""
    ensures r.payload.project.Some? ==> r.payload.project.value == form.project
  {
    var payload := TaskPayload(form.title, form.description, form.status, form.dueDate,
                               if form.project != "" then Some(form.project) else None);
    if form.id != "" then Request(PUT, TasksUrl + "/" + form.id, payload)
    else Request(POST, TasksUrl, payload)
  }

  /** The request of the project form's `onsubmit`: PUT or POST as for tasks,
      with status `"ACTIVE"` when the page has no status field. */
  function ProjectSubmitRequest(form: ProjectForm): (r: Request)
    ensures r.verb == PUT <==> form.id != ""
    ensures r.verb == POST <==> form.id == ""
    ensures r.url == if form.id != "" then ProjectsUrl + "/" + form.id else ProjectsUrl
    ensures r.payload == ProjectPayload(form.name, if form.status.Some? then form.status.value else "ACTIVE")
  {
    var payload := ProjectPayload(form.name, if form.status.Some? then form.status.value else "ACTIVE");
    if form.id != "" then Request(PUT, ProjectsUrl + "/" + form.id, payload)
    else Request(POST, ProjectsUrl, payload)
  }

  /** Opening the editor on a cached task and submitting it unchanged sends
      a PUT to that task's URL, whose body carries the task's title,
      description, status and due date (`''` for a missing one) and names its
      project by an id loosely equal to the original;
      opening it on anything else makes the submit a create. */
  lemma {:induction false} EditThenSubmit(tasks: seq<JsTask>, cleared: TaskForm, taskId: Option<int>)
    requires cleared.id == ""
    ensures var i := if TruthyId(taskId) then FindIndex(tasks, (t: JsTask) => t.id, taskId.value) else None;
      var r := TaskSubmitRequest(OpenedTaskForm(tasks, cleared, taskId));
      && (i.None? ==> r == TaskSubmitRequest(cleared) && r.verb == POST && r.url == TasksUrl)
      && (i.Some? ==>
            && r.verb == PUT
            && r.url == TasksUrl + "/" + IntToString(taskId.value)
            && r.payload.title == tasks[i.value].title
            && r.payload.description == OrEmpty(tasks[i.value].description)
            && r.payload.status == tasks[i.value].status
            && r.payload.dueDate == OrEmpty(tasks[i.value].dueDate)
            && (r.payload.project.None? <==> tasks[i.value].project.None?)
            && (r.payload.project.Some? ==> ParseDecimal(r.payload.project.value) == Some(tasks[i.value].project.value.id)))
  {
    if TruthyId(taskId) {
      var i := FindIndex(tasks, (t: JsTask) => t.id, taskId.value);
      if i.Some? {
        var t := tasks[i.value];
        if t.project.Some? {
          IntToStringLooselyEqual(t.project.value.id);
        }
      }
    }
  }

  /** Opening the project editor on a cached project and submitting sends a
      PUT to that project's URL with its name, and with its status (or
      `"ACTIVE"` when it has none) whether or not the page has a status field;
      otherwise the submit is a POST of an empty name with status ACTIVE. */
  lemma EditProjectThenSubmit(projects: seq<JsProject>, hasStatusField: bool, projectId: Option<int>)
    ensures var i := if TruthyId(projectId) then FindIndex(projects, (p: JsProject) => p.id, projectId.value) else None;
      var r := ProjectSubmitRequest(OpenedProjectForm(projects, hasStatusField, projectId));
      && (i.None? ==> r.verb == POST && r.url == ProjectsUrl && r.payload == ProjectPayload("", "ACTIVE"))
      && (i.Some? ==> r.verb == PUT && r.url == ProjectsUrl + "/" + IntToString(projectId.value)
                      && r.payload.name == projects[i.value].name
                      && r.payload.status == if hasStatusField && projects[i.value].status.Some? && projects[i.value].status.value != ""
                                             then projects[i.value].status.value else "ACTIVE")
  {
  }

  class ScriptClient {
    /** The module-level `projects` and `tasks` arrays. */
    var projects: seq<JsProject>
    var tasks: seq<JsTask>
    var taskForm: TaskForm
    var projectForm: ProjectForm
    var taskModalOpen: bool
    var projectModalOpen: bool
    /** The text of the task modal's `modalTitle` heading. */
    var taskModalHeading: string
    /** Every request issued so far, oldest first. */
    var sent: seq<Request>
    /** The task status `<select>`'s value after `form.reset()` (its first
        option in the page). */
    const taskStatusDefault: string
    /** Whether the page has a `projectStatus` field. */
    const hasProjectStatusField: bool

    /** The fields `openTaskModal` has before it looks the task up: the form
        reset (which leaves the hidden id alone) and the id then cleared. */
    function ClearedTaskForm(): (r: TaskForm)
      reads this
      ensures r.id == ""
    {
      var reset := TaskForm(taskForm.id, "", "", taskStatusDefault, "", DropdownDefault(projects));
      reset.(id := "")
    }

    /** Page load with both modals closed: `fetchProjects()` then
        `fetchTasks()`, each snapshot `None` when its fetch failed. */
    constructor (taskStatusDefault: string, hasProjectStatusField: bool,
                 projectsLoaded: Option<seq<JsProject>>, tasksLoaded: Option<seq<JsTask>>)
      ensures this.taskStatusDefault == taskStatusDefault && this.hasProjectStatusField == hasProjectStatusField
      ensures sent == [Request(GET, ProjectsUrl, NoPayload), Request(GET, TasksUrl, NoPayload)]
      ensures projects == (if projectsLoaded.Some? then projectsLoaded.value else [])
      ensures tasks == (if tasksLoaded.Some? then tasksLoaded.value else [])
      ensures taskForm.project == if projectsLoaded.Some? then DropdownDefault(projectsLoaded.value) else ""
      ensures !taskModalOpen && !projectModalOpen
    {
      this.taskStatusDefault := taskStatusDefault;
      this.hasProjectStatusField := hasProjectStatusField;
      projects := if projectsLoaded.Some? then projectsLoaded.value else [];
      tasks := if tasksLoaded.Some? then tasksLoaded.value else [];
      taskForm := TaskForm("", "", "", taskStatusDefault, "", if projectsLoaded.Some? then DropdownDefault(projectsLoaded.value) else "");
      projectForm := ProjectForm("", "", if hasProjectStatusField then Some("ACTIVE") else None);
      taskModalOpen, projectModalOpen := false, false;
      taskModalHeading := "";
      sent := [Request(GET, ProjectsUrl, NoPayload), Request(GET, TasksUrl, NoPayload)];
    }

    /** `fetchTasks`: a GET is sent, and a parsed answer replaces the whole
        task cache; a failed one leaves it as it was. */
    method FetchTasks(loaded: Option<seq<JsTask>>)
      modifies this
      ensures sent == old(sent) + [Request(GET, TasksUrl, NoPayload)]
      ensures tasks == if loaded.Some? then loaded.value else old(tasks)
      ensures projects == old(projects) && taskForm == old(taskForm) && projectForm == old(projectForm)
      ensures taskModalOpen == old(taskModalOpen) && projectModalOpen == old(projectModalOpen)
      ensures taskModalHeading == old(taskModalHeading)
    {
      sent := sent + [Request(GET, TasksUrl, NoPayload)];
      if loaded.Some? {
        tasks := loaded.value;
      }
    }

    /** `fetchProjects`: as `FetchTasks`, for the project cache. A parsed
        answer also rebuilds the task form's project `<select>`
        (`populateProjectDropdown`), which leaves its first option, the
        first cached project, selected whatever the field held before. */
    method FetchProjects(loaded: Option<seq<JsProject>>)
      modifies this
      ensures sent == old(sent) + [Request(GET, ProjectsUrl, NoPayload)]
      ensures projects == if loaded.Some? then loaded.value else old(projects)
      ensures taskForm == if loaded.Some? then old(taskForm).(project := DropdownDefault(loaded.value)) else old(taskForm)
      ensures tasks == old(tasks) && projectForm == old(projectForm)
      ensures taskModalOpen == old(taskModalOpen) && projectModalOpen == old(projectModalOpen)
      ensures taskModalHeading == old(taskModalHeading)
    {
      sent := sent + [Request(GET, ProjectsUrl, NoPayload)];
      if loaded.Some? {
        projects := loaded.value;
        taskForm := taskForm.(project := DropdownDefault(projects));
      }
    }

    /** `openTaskModal(taskId)`: sets the heading, resets the form, clears
        the id, then fills the fields from the first cached task with that
        id, if the argument is truthy and there is one; no request is sent. */
    method OpenTaskModal(taskId: Option<int>)
      modifies this
      ensures taskModalOpen
      ensures taskModalHeading == if TruthyId(taskId) then "Edit Task" else "Add Task"
      ensures taskForm == OpenedTaskForm(tasks, old(ClearedTaskForm()), taskId)
      ensures sent == old(sent) && tasks == old(tasks) && projects == old(projects)
      ensures projectForm == old(projectForm) && projectModalOpen == old(projectModalOpen)
    {
      taskModalHeading := if TruthyId(taskId) then "Edit Task" else "Add Task";
      taskForm := TaskForm(taskForm.id, "", "", taskStatusDefault, "", DropdownDefault(projects));
      taskForm := taskForm.(id := "");
      if TruthyId(taskId) {
        var found := FindIndex(tasks, (t: JsTask) => t.id, taskId.value);
        if found.Some? {
          taskForm := TaskFields(tasks[found.value]);
        }
      }
      taskModalOpen := true;
    }

    /** The user edits the task modal's visible fields; the hidden id field
        is out of reach. */
    method TypeTaskFields(fields: TaskForm)
      modifies this
      ensures taskForm == fields.(id := old(taskForm.id))
      ensures sent == old(sent) && tasks == old(tasks) && projects == old(projects)
      ensures taskModalOpen == old(taskModalOpen) && taskModalHeading == old(taskModalHeading)
      ensures projectForm == old(projectForm) && projectModalOpen == old(projectModalOpen)
    {
      taskForm := fields.(id := taskForm.id);
    }

    /** The user edits the project modal's name and, where there is one, its
        status; the hidden id field is out of reach. */
    method TypeProjectFields(name: string, status: string)
      modifies this
      ensures projectForm == old(projectForm).(name := name, status := if old(projectForm.status).Some? then Some(status) else None)
      ensures sent == old(sent) && tasks == old(tasks) && projects == old(projects)
      ensures taskForm == old(taskForm) && taskModalOpen == old(taskModalOpen)
      ensures taskModalHeading == old(taskModalHeading) && projectModalOpen == old(projectModalOpen)
    {
      projectForm := projectForm.(name := name, status := if projectForm.status.Some? then Some(status) else None);
    }

    /** `closeTaskModal`: hides the modal; the fields keep their values. */
    method CloseTaskModal()
      modifies this
      ensures !taskModalOpen
      ensures taskForm == old(taskForm) && taskModalHeading == old(taskModalHeading)
      ensures sent == old(sent) && tasks == old(tasks) && projects == old(projects)
      ensures projectForm == old(projectForm) && projectModalOpen == old(projectModalOpen)
    {
      taskModalOpen := false;
    }

    /** `submitTaskForm`: sends the request the fields describe. Only once
        its answer parses as JSON (whatever its status) does it refresh the
        tasks and close the modal; otherwise nothing more happens. */
    method SubmitTaskForm(reply: Reply, loaded: Option<seq<JsTask>>)
      modifies this
      ensures reply.Parsed() ==>
        && sent == old(sent) + [TaskSubmitRequest(old(taskForm)), Request(GET, TasksUrl, NoPayload)]
        && tasks == (if loaded.Some? then loaded.value else old(tasks))
        && !taskModalOpen
      ensures !reply.Parsed() ==>
        sent == old(sent) + [TaskSubmitRequest(old(taskForm))] && tasks == old(tasks) && taskModalOpen == old(taskModalOpen)
      ensures taskForm == old(taskForm) && taskModalHeading == old(taskModalHeading) && projects == old(projects)
      ensures projectForm == old(projectForm) && projectModalOpen == old(projectModalOpen)
    {
      sent := sent + [TaskSubmitRequest(taskForm)];
      if reply.Parsed() {
        FetchTasks(loaded);
        CloseTaskModal();
      }
    }

    /** `deleteTask(taskId)`: a declined confirmation sends nothing and
        changes nothing; otherwise a DELETE is sent, and any answer at all
        (the status is not looked at) refreshes the tasks only. */
    method DeleteTask(taskId: int, confirmed: bool, reply: Reply, loaded: Option<seq<JsTask>>)
      modifies this
      ensures !confirmed ==> sent == old(sent) && tasks == old(tasks)
      ensures confirmed && reply.Responded? ==>
        && sent == old(sent) + [Request(DELETE, TasksUrl + "/" + IntToString(taskId), NoPayload), Request(GET, TasksUrl, NoPayload)]
        && tasks == (if loaded.Some? then loaded.value else old(tasks))
      ensures confirmed && reply.Thrown? ==>
        sent == old(sent) + [Request(DELETE, TasksUrl + "/" + IntToString(taskId), NoPayload)] && tasks == old(tasks)
      ensures projects == old(projects) && taskForm == old(taskForm) && projectForm == old(projectForm)
      ensures taskModalOpen == old(taskModalOpen) && projectModalOpen == old(projectModalOpen)
      ensures taskModalHeading == old(taskModalHeading)
    {
      if !confirmed {
        return;
      }
      sent := sent + [Request(DELETE, TasksUrl + "/" + IntToString(taskId), NoPayload)];
      if reply.Responded? {
        FetchTasks(loaded);
      }
    }

    /** `openProjectModal(projectId)`: resets the fields (status `'ACTIVE'`),
        then fills them from the first cached project with that id, if the
        argument is truthy and there is one; no request is sent. */
    method OpenProjectModal(projectId: Option<int>)
      modifies this
      ensures projectModalOpen
      ensures projectForm == OpenedProjectForm(projects, hasProjectStatusField, projectId)
      ensures sent == old(sent) && tasks == old(tasks) && projects == old(projects)
      ensures taskForm == old(taskForm) && taskModalOpen == old(taskModalOpen)
      ensures taskModalHeading == old(taskModalHeading)
    {
      projectForm := ProjectForm("", "", if hasProjectStatusField then Some("ACTIVE") else None);
      if TruthyId(projectId) {
        var found := FindIndex(projects, (p: JsProject) => p.id, projectId.value);
        if found.Some? {
          var p := projects[found.value];
          projectForm := projectForm.(id := IntToString(p.id), name := p.name);
          if hasProjectStatusField {
            projectForm := projectForm.(status := Some(if p.status.Some? && p.status.value != "" then p.status.value else "ACTIVE"));
          }
        }
      }
      projectModalOpen := true;
    }

    /** `closeProjectModal`: hides the modal; the fields keep their values. */
    method CloseProjectModal()
      modifies this
      ensures !projectModalOpen
      ensures projectForm == old(projectForm)
      ensures sent == old(sent) && tasks == old(tasks) && projects == old(projects)
      ensures taskForm == old(taskForm) && taskModalOpen == old(taskModalOpen)
      ensures taskModalHeading == old(taskModalHeading)
    {
      projectModalOpen := false;
    }

    /** The project form's `onsubmit`: as `SubmitTaskForm`, refreshing the
        projects instead of the tasks. */
    method SubmitProjectForm(reply: Reply, loaded: Option<seq<JsProject>>)
      modifies this
      ensures reply.Parsed() ==>
        && sent == old(sent) + [ProjectSubmitRequest(old(projectForm)), Request(GET, ProjectsUrl, NoPayload)]
        && projects == (if loaded.Some? then loaded.value else old(projects))
        && !projectModalOpen
      ensures !reply.Parsed() ==>
        && sent == old(sent) + [ProjectSubmitRequest(old(projectForm))]
        && projects == old(projects) && projectModalOpen == old(projectModalOpen)
      ensures taskForm == if reply.Parsed() && loaded.Some?
                          then old(taskForm).(project := DropdownDefault(loaded.value)) else old(taskForm)
      ensures projectForm == old(projectForm) && tasks == old(tasks)
      ensures taskModalOpen == old(taskModalOpen) && taskModalHeading == old(taskModalHeading)
    {
      sent := sent + [ProjectSubmitRequest(projectForm)];
      if reply.Parsed() {
        FetchProjects(loaded);
        CloseProjectModal();
      }
    }

    /** `deleteProject(projectId)`: a declined confirmation sends nothing and
        changes nothing; otherwise a DELETE is sent and any answer refreshes
        the projects only. The task cache is not refreshed, even though the
        server deletes the project's tasks with it. */
    method DeleteProject(projectId: int, confirmed: bool, reply: Reply, loaded: Option<seq<JsProject>>)
      modifies this
      ensures !confirmed ==> sent == old(sent) && projects == old(projects)
      ensures confirmed && reply.Responded? ==>
        && sent == old(sent) + [Request(DELETE, ProjectsUrl + "/" + IntToString(projectId), NoPayload), Request(GET, ProjectsUrl, NoPayload)]
        && projects == (if loaded.Some? then loaded.value else old(projects))
      ensures confirmed && reply.Thrown? ==>
        sent == old(sent) + [Request(DELETE, ProjectsUrl + "/" + IntToString(projectId), NoPayload)] && projects == old(projects)
      ensures taskForm == if confirmed && reply.Responded? && loaded.Some?
                          then old(taskForm).(project := DropdownDefault(loaded.value)) else old(taskForm)
      ensures tasks == old(tasks) && projectForm == old(projectForm)
      ensures taskModalOpen == old(taskModalOpen) && projectModalOpen == old(projectModalOpen)
      ensures taskModalHeading == old(taskModalHeading)
    {
      if !confirmed {
        return;
      }
      sent := sent + [Request(DELETE, ProjectsUrl + "/" + IntToString(projectId), NoPayload)];
      if reply.Responded? {
        FetchProjects(loaded);
      }
    }
  }
}
