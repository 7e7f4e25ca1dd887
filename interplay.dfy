/** How the browser clients and the task controller meet: the JSON a stored
    task turns into, the entity a status-only body turns into, and what
    follows from both for the two clients. */
module Interplay {
  import opened Common
  import opened Text
  import opened TaskEntity
  import opened Server
  import TaskView
  import MainClient

  /** A row as the table holds it: saved (so it has an id) and satisfying
      the not-null columns. */
  predicate Stored(r: TaskRow)
  {
    r.id.Some? && Persistable(r)
  }

  // ---------------------------------------------------------------------------
  // Serialization of tasks
  // ---------------------------------------------------------------------------

  /** The JSON of a stored task as the entity is written: `@JsonBackReference`
      on `project` leaves the project out of the output altogether. */
  function ServeAsWritten(r: TaskRow): (t: JsTask)
    requires Stored(r)
    ensures t.project.None?
    ensures t.id == r.id.value && t.title == r.title.value && t.status == StatusName(r.status.value)
  {
    JsTask(r.id.value, r.title.value, r.description, StatusName(r.status.value), r.dueDate, None)
  }

  /** The JSON of a stored task when its project is written as `{id}`, as
      both clients expect. */
  function ServeWithProject(r: TaskRow): (t: JsTask)
    requires Stored(r)
    ensures t.project.Some? <==> r.project.Some? && r.project.value.id.Some?
    ensures t.project.Some? ==> Some(t.project.value.id) == r.project.value.id
  {
    var project := if r.project.Some? && r.project.value.id.Some? then Some(JsProjectRef(r.project.value.id.value, None)) else None;
    JsTask(r.id.value, r.title.value, r.description, StatusName(r.status.value), r.dueDate, project)
  }

  predicate AllStored(rows: seq<TaskRow>)
  {
    forall i | 0 <= i < |rows| :: Stored(rows[i])
  }

  /** The JSON array `GET /api/tasks` answers with, as written. */
  function ServedAsWritten(rows: seq<TaskRow>): (ts: seq<JsTask>)
    requires AllStored(rows)
    ensures |ts| == |rows|
    ensures forall i | 0 <= i < |rows| :: ts[i] == ServeAsWritten(rows[i])
  {
    seq(|rows|, i requires 0 <= i < |rows| && AllStored(rows) => ServeAsWritten(rows[i]))
  }

  /** The JSON array `GET /api/tasks` answers with, projects included. */
  function ServedWithProject(rows: seq<TaskRow>): (ts: seq<JsTask>)
    requires AllStored(rows)
    ensures |ts| == |rows|
    ensures forall i | 0 <= i < |rows| :: ts[i] == ServeWithProject(rows[i])
  {
    seq(|rows|, i requires 0 <= i < |rows| && AllStored(rows) => ServeWithProject(rows[i]))
  }

  /** As written, choosing any project in script.js's project filter empties
      the task list, whatever the tasks, status filter and sort: no served
      task carries a project for the filter to match. */
  lemma ProjectFilterEmptiesList(rows: seq<TaskRow>, projectFilter: string, statusFilter: string, sort: string)
    requires AllStored(rows)
    requires projectFilter != ""
    ensures TaskView.DisplayTasks(ServedAsWritten(rows), projectFilter, statusFilter, sort) == []
  {
  }

  /** With the project written as `{id}`, script.js's project filter agrees
      with the controller: a served task passes the filter for the option of
      project `p` (whose value is `p`'s decimal string) exactly when the row
      is in project `p`, the rows `GET /api/tasks?projectId=p` returns. */
  lemma ProjectFilterMatchesServer(r: TaskRow, p: int)
    requires Stored(r)
    ensures TaskView.ProjectMatches(ServeWithProject(r), IntToString(p)) <==> InProject(r, p)
  {
    IntToStringLooselyEqual(p);
  }

  /** Every row the controller holds is stored in this sense, so the
      serialization results apply to the controller's table. */
  lemma TableRowsStored(server: TaskController)
    requires server.Valid()
    ensures forall k | k in server.table :: Stored(server.table[k])
  {
  }

  /** Every task the server sends has one of the three statuses the
      dashboard counts, so script.js's three counts add up to the total,
      with the tasks served as written and with their projects alike. */
  lemma ServedSummaryAddsUp(rows: seq<TaskRow>)
    requires AllStored(rows)
    ensures var s := TaskView.DashboardSummary(ServedAsWritten(rows));
      s.pending + s.inProgress + s.completed == s.total == |rows|
    ensures var s := TaskView.DashboardSummary(ServedWithProject(rows));
      s.pending + s.inProgress + s.completed == s.total == |rows|
  {
    var asWritten := ServedAsWritten(rows);
    forall i | 0 <= i < |asWritten| ensures TaskView.Tracked(asWritten[i].status) {
      assert asWritten[i] == ServeAsWritten(rows[i]);
    }
    TaskView.SummaryAddsUp(asWritten);
    var served := ServedWithProject(rows);
    forall i | 0 <= i < |served| ensures TaskView.Tracked(served[i].status) {
      assert served[i] == ServeWithProject(rows[i]);
    }
    TaskView.SummaryAddsUp(served);
  }

  // ---------------------------------------------------------------------------
  // main.js's status toggle against updateTask
  // ---------------------------------------------------------------------------

  /** The entity Jackson builds from main.js's toggle body `{status}`: a
      `new Task()` whose status is then set, every other field null. */
  function StatusOnlyBody(status: string): (r: TaskRow)
    ensures r.title.None? && r.description.None? && r.dueDate.None? && r.project.None? && r.id.None?
    ensures r.status == ParseStatus(status)
  {
    DefaultRow.(status := ParseStatus(status))
  }

  /** As written, the row `updateTask` would save for a toggle has no title,
      so `save` rejects it: the toggle can never succeed. */
  lemma ToggleRowNotPersistable(stored: TaskRow, current: string)
    ensures !Persistable(UpdatedRow(stored, StatusOnlyBody(MainClient.ToggleStatus(current))))
  {
  }

  /** The toggle as main.js and `updateTask` carry it out: whatever the
      stored task and its status, the answer is never a task and the table
      is left as it was. */
  method ToggleAsWritten(server: TaskController, id: int, current: string) returns (r: Response<TaskRow>)
    requires server.Valid()
    modifies server
    ensures server.Valid()
    ensures server.table == old(server.table) && server.nextId == old(server.nextId)
    ensures id in old(server.table) ==> r == ServerError
    ensures id !in old(server.table) ==> r == Null
  {
    var body := new Task();
    body.SetStatus(ParseStatus(MainClient.ToggleStatus(current)));
    r := server.UpdateTask(id, body);
  }

  /** What the toggle evidently means to send: the task the client holds,
      with only its status toggled. */
  function ToggledBody(cached: TaskRow, current: string): (r: TaskRow)
    ensures r.status.Some?
    ensures r.status.value == (if current == "COMPLETED" then PENDING else COMPLETED)
  {
    cached.(status := ParseStatus(MainClient.ToggleStatus(current)))
  }

  /** Toggling with the whole task changes the stored task's status and
      nothing else, and what it saves is storable whenever the task was. */
  lemma ToggledBodyChangesOnlyStatus(stored: TaskRow, current: string)
    requires Persistable(stored)
    ensures var saved := UpdatedRow(stored, ToggledBody(stored, current));
      && Persistable(saved)
      && saved == stored.(status := ToggledBody(stored, current).status)
  {
  }

  /** The corrected toggle against `updateTask`: when the client's copy is
      the stored task, the store changes in that task's status only. */
  method ToggleCorrected(server: TaskController, id: int, cached: TaskRow, current: string) returns (r: Response<TaskRow>)
    requires server.Valid()
    modifies server
    ensures server.Valid() && server.nextId == old(server.nextId)
    ensures id !in old(server.table) ==> r == Null && server.table == old(server.table)
    ensures id in old(server.table) && old(server.table[id]) == cached ==>
      var toggled := cached.(status := ToggledBody(cached, current).status);
      && server.table == old(server.table)[id := toggled]
      && r == Body(toggled)
  {
    var body := new Task.Create(cached.title, cached.description, ToggledBody(cached, current).status,
                                cached.dueDate, cached.project);
    r := server.UpdateTask(id, body);
  }
}
