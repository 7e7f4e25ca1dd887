/** `TaskController` over the task table. The Spring Data repository is a map
    from generated id to stored row, its derived finders are filters over that
    map, and `save` is the insert or overwrite of one entry. */
module Server {
  import opened Common
  import opened TaskEntity

  /** What a handler method hands back to Spring: a value written as the
      response body, Java `null` (an empty 200 response), or an exception
      (a 500 response). */
  datatype Response<T> = Body(value: T) | Null | ServerError

  /** The row refers to the project with the given id. */
  predicate InProject(r: TaskRow, projectId: int)
  {
    r.project.Some? && r.project.value.id == Some(projectId)
  }

  predicate HasStatus(r: TaskRow, status: Status)
  {
    r.status == Some(status)
  }

  // TaskRepository's queries over the table. Each answers only stored rows,
  // and every stored row that satisfies its condition.

  /** `findAll`: exactly the stored rows. */
  function FindAll(table: map<int, TaskRow>): (r: set<TaskRow>)
    ensures forall id | id in table :: table[id] in r
    ensures forall x | x in r :: exists id | id in table :: table[id] == x
  {
    set id | id in table :: table[id]
  }

  /** `findByStatus`. */
  function FindByStatus(table: map<int, TaskRow>, status: Status): (r: set<TaskRow>)
    ensures r <= FindAll(table)
    ensures forall id | id in table :: table[id] in r <==> HasStatus(table[id], status)
  {
    set id | id in table && HasStatus(table[id], status) :: table[id]
  }

  /** `findByProjectId`. */
  function FindByProjectId(table: map<int, TaskRow>, projectId: int): (r: set<TaskRow>)
    ensures r <= FindAll(table)
    ensures forall id | id in table :: table[id] in r <==> InProject(table[id], projectId)
  {
    set id | id in table && InProject(table[id], projectId) :: table[id]
  }

  /** `findByProjectIdAndStatus`: the rows both other queries answer. */
  function FindByProjectIdAndStatus(table: map<int, TaskRow>, projectId: int, status: Status): (r: set<TaskRow>)
    ensures r == FindByProjectId(table, projectId) * FindByStatus(table, status)
  {
    set id | id in table && InProject(table[id], projectId) && HasStatus(table[id], status) :: table[id]
  }

  /** A row answers a `GET /api/tasks` query when it matches every parameter
      that was supplied. */
  predicate MatchesQuery(r: TaskRow, projectId: Option<int>, status: Option<Status>)
  {
    && (projectId.None? || InProject(r, projectId.value))
    && (status.None? || HasStatus(r, status.value))
  }

  /** The row `updateTask` saves: the request body's title, description,
      status, due date and project, under the stored row's id. */
  function UpdatedRow(stored: TaskRow, body: TaskRow): (r: TaskRow)
    ensures r == body.(id := stored.id)
  {
    stored.(title := body.title, description := body.description, status := body.status,
            dueDate := body.dueDate, project := body.project)
  }

  class TaskController {
    /** The task table, keyed by id. */
    var table: map<int, TaskRow>
    /** The next value of the IDENTITY column. */
    var nextId: int

    /** Every stored row carries its own key as id, satisfies the not-null
        columns, and has an id below the next identity value. */
    ghost predicate Valid()
      reads this
    {
      && nextId >= 1
      && forall k | k in table :: 1 <= k < nextId && table[k].id == Some(k) && Persistable(table[k])
    }

    constructor ()
      ensures Valid() && table == map[] && nextId == 1
    {
      table, nextId := map[], 1;
    }

    /** `getTasks`: the four-way dispatch on the optional `projectId` and
        `status` parameters returns exactly the stored rows that match every
        supplied parameter, and all rows when neither is supplied. */
    function GetTasks(projectId: Option<int>, status: Option<Status>): (r: set<TaskRow>)
      reads this
      ensures r == set t | t in table.Values && MatchesQuery(t, projectId, status)
      ensures projectId.None? && status.None? ==> r == table.Values
    {
      if projectId.Some? && status.Some? then FindByProjectIdAndStatus(table, projectId.value, status.value)
      else if projectId.Some? then FindByProjectId(table, projectId.value)
      else if status.Some? then FindByStatus(table, status.value)
      else FindAll(table)
    }

    /** `getTaskById`: the stored row, or `null` for an id that is not stored. */
    function GetTaskById(id: int): (r: Response<TaskRow>)
      reads this
      requires Valid()
      ensures !r.ServerError?
      ensures r.Null? <==> id !in table
      ensures r.Body? ==> r.value == table[id] && r.value.id == Some(id)
    {
      if id in table then Body(table[id]) else Null
    }

    /** `createTask`, i.e. `save` of the request body. A body without id is
        inserted under the next identity value, which is also written back
        into the entity; a body with the id of a stored row overwrites that
        row; a body with any other id, or without title or status, is rejected
        and nothing is stored. */
    method CreateTask(body: Task) returns (r: Response<TaskRow>)
      requires Valid()
      modifies this, body
      ensures Valid()
      ensures var b := old(body.Row());
        if !Persistable(b) || (b.id.Some? && b.id.value !in old(table)) then
          r == ServerError && table == old(table) && nextId == old(nextId) && body.Row() == b
        else if b.id.None? then
          && old(nextId) !in old(table)
          && body.Row() == b.(id := Some(old(nextId)))
          && table == old(table)[old(nextId) := body.Row()]
          && nextId == old(nextId) + 1
          && r == Body(body.Row())
        else
          table == old(table)[b.id.value := b] && nextId == old(nextId) && body.Row() == b && r == Body(b)
    {
      if !Persistable(body.Row()) {
        r := ServerError;
      } else if body.id.None? {
        body.id := Some(nextId);
        table := table[nextId := body.Row()];
        nextId := nextId + 1;
        r := Body(body.Row());
      } else if body.id.value in table {
        table := table[body.id.value := body.Row()];
        r := Body(body.Row());
      } else {
        r := ServerError;
      }
    }

    /** `updateTask`: for a stored id, every field but the id is copied from
        the body onto the stored task through its setters and the task is
        saved; an unknown id gives `null` and changes nothing; a result
        without title or status is rejected and changes nothing. */
    method UpdateTask(id: int, body: Task) returns (r: Response<TaskRow>)
      requires Valid()
      modifies this
      ensures Valid() && nextId == old(nextId)
      ensures id !in old(table) ==> r == Null && table == old(table)
      ensures id in old(table) ==>
        var saved := UpdatedRow(old(table[id]), body.Row());
        && saved.id == Some(id)
        && (Persistable(saved) ==> table == old(table)[id := saved] && r == Body(saved))
        && (!Persistable(saved) ==> table == old(table) && r == ServerError)
    {
      if id !in table {
        r := Null;
        return;
      }
      // The persistence layer materialises the stored row as an entity.
      var stored := table[id];
      var task := new Task();
      task.id, task.title, task.description := stored.id, stored.title, stored.description;
      task.status, task.dueDate, task.project := stored.status, stored.dueDate, stored.project;
      task.SetTitle(body.GetTitle());
      task.SetDescription(body.GetDescription());
      task.SetStatus(body.GetStatus());
      task.SetDueDate(body.GetDueDate());
      task.SetProject(body.GetProject());
      if Persistable(task.Row()) {
        table := table[id := task.Row()];
        r := Body(task.Row());
      } else {
        r := ServerError;
      }
    }

    /** `deleteTask`: the row is gone afterwards (deleting an id that is not
        stored changes nothing), and `getTaskById` then answers `null`. */
    method DeleteTask(id: int)
      requires Valid()
      modifies this
      ensures Valid()
      ensures table == old(table) - {id} && nextId == old(nextId)
      ensures GetTaskById(id) == Null
    {
      table := table - {id};
    }
  }
}
