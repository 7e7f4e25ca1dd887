/** The `Task` JPA entity: six nullable fields (Java `null` is `None`), a
    status that defaults to PENDING, two constructors, getters for every field
    and setters for every field except the id. */
module TaskEntity {
  import opened Common

  /** `Task.Status`, stored and sent by name. */
  datatype Status = PENDING | IN_PROGRESS | COMPLETED

  /** The name Jackson and the `EnumType.STRING` column use for a status. */
  function StatusName(s: Status): (r: string)
    ensures ParseStatus(r) == Some(s)
  {
    match s
    case PENDING => "PENDING"
    case IN_PROGRESS => "IN_PROGRESS"
    case COMPLETED => "COMPLETED"
  }

  /** `Status.valueOf`: the status with the given name, if any. */
  function ParseStatus(n: string): (r: Option<Status>)
    ensures r.Some? <==> n in {"PENDING", "IN_PROGRESS", "COMPLETED"}
  {
    match n
    case "PENDING" => Some(PENDING)
    case "IN_PROGRESS" => Some(IN_PROGRESS)
    case "COMPLETED" => Some(COMPLETED)
    case _ => None
  }

  /** Names and statuses correspond one to one: every status is read back
      from its name, and a name that reads as a status is that status's name. */
  lemma StatusNamesRoundTrip(s: Status, n: string)
    ensures ParseStatus(StatusName(s)) == Some(s)
    ensures ParseStatus(n).Some? ==> StatusName(ParseStatus(n).value) == n
  {
  }

  /** A `LocalDate`, carried as its ISO-8601 text. */
  type Date = string

  /** The project a task refers to; only its id matters to this model. */
  datatype ProjectRef = ProjectRef(id: Option<int>)

  /** The values of a task's six fields. */
  datatype TaskRow = TaskRow(id: Option<int>, title: Option<string>, description: Option<string>,
                             status: Option<Status>, dueDate: Option<Date>, project: Option<ProjectRef>)

  /** `title` and `status` are `nullable = false` columns: a row without
      either cannot be stored. */
  predicate Persistable(r: TaskRow)
  {
    r.title.Some? && r.status.Some?
  }

  /** The row a `new Task()` starts from. */
  const DefaultRow: TaskRow := TaskRow(None, None, None, Some(PENDING), None, None)

  class Task {
    var id: Option<int>
    var title: Option<string>
    var description: Option<string>
    var status: Option<Status>
    var dueDate: Option<Date>
    var project: Option<ProjectRef>

    /** The current values of all six fields. */
    function Row(): TaskRow
      reads this
    {
      TaskRow(id, title, description, status, dueDate, project)
    }

    /** `new Task()`: every field null except status, which is PENDING. */
    constructor ()
      ensures Row() == DefaultRow
      ensures GetStatus() == Some(PENDING) && GetId().None?
    {
      id, title, description, status, dueDate, project := None, None, None, Some(PENDING), None, None;
    }

    /** The five-argument constructor: each argument goes to its own field;
      the id stays unset until the entity is saved. */
    constructor Create(title: Option<string>, description: Option<string>, status: Option<Status>,
                       dueDate: Option<Date>, project: Option<ProjectRef>)
      ensures Row() == TaskRow(None, title, description, status, dueDate, project)
    {
      this.id := None;
      this.title := title;
      this.description := description;
      this.status := status;
      this.dueDate := dueDate;
      this.project := project;
    }

    function GetId(): Option<int> reads this { id }
    function GetTitle(): Option<string> reads this { title }
    function GetDescription(): Option<string> reads this { description }
    function GetStatus(): Option<Status> reads this { status }
    function GetDueDate(): Option<Date> reads this { dueDate }
    function GetProject(): Option<ProjectRef> reads this { project }

    method SetTitle(title: Option<string>)
      modifies this
      ensures GetTitle() == title
      ensures Row() == old(Row()).(title := title)
    {
      this.title := title;
    }

    method SetDescription(description: Option<string>)
      modifies this
      ensures GetDescription() == description
      ensures Row() == old(Row()).(description := description)
    {
      this.description := description;
    }

    method SetStatus(status: Option<Status>)
      modifies this
      ensures GetStatus() == status
      ensures Row() == old(Row()).(status := status)
    {
      this.status := status;
    }

    method SetDueDate(dueDate: Option<Date>)
      modifies this
      ensures GetDueDate() == dueDate
      ensures Row() == old(Row()).(dueDate := dueDate)
    {
      this.dueDate := dueDate;
    }

    method SetProject(project: Option<ProjectRef>)
      modifies this
      ensures GetProject() == project
      ensures Row() == old(Row()).(project := project)
    {
      this.project := project;
    }
  }
}
