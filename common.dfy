/** Values shared by every part of the model: optional values (Java null, a
    JavaScript null or undefined), the outcome of a `fetch` as the browser
    scripts observe it, and the requests those scripts send. */
module Common {

  /** A value that may be absent. */
  datatype Option<+T> = None | Some(value: T)

  /** How a `fetch` call ended, as far as the scripts can tell: either the
      promise rejected (network failure), or a response arrived, with its `ok`
      flag (a 2xx status) and whether its body parses as JSON. */
  datatype Reply = Thrown | Responded(ok: bool, jsonBody: bool)
  {
    /** The `.then(res => res.json()).then(...)` chain reaches its second step. */
    predicate Parsed() { Responded? && jsonBody }

    /** `if (res.ok)` inside a `try` block is taken. */
    predicate Accepted() { Responded? && ok }
  }

  /** A JavaScript id that may be null or undefined is truthy: present and
      not `0`. */
  predicate TruthyId(id: Option<int>)
  {
    id.Some? && id.value != 0
  }

  /** HTTP methods the scripts use. */
  datatype Verb = GET | POST | PUT | DELETE

  /** The `project` member of a task as the browser sees it in JSON. */
  datatype JsProjectRef = JsProjectRef(id: int, name: Option<string>)

  /** A task as the browser sees it in JSON: `description`, `dueDate` and
      `project` may be null or missing. */
  datatype JsTask = JsTask(id: int, title: string, description: Option<string>,
                           status: string, dueDate: Option<string>,
                           project: Option<JsProjectRef>)

  /** `x || ''` for a string that may be null, undefined or empty. */
  function OrEmpty(x: Option<string>): string
  {
    if x.Some? then x.value else ""
  }

  /** A project as the server sends it in JSON. The entity has no status
      column, so `status` is usually absent. */
  datatype JsProject = JsProject(id: int, name: string, status: Option<string>)

  /** Request bodies the scripts build. */
  datatype Payload =
    | NoPayload
      /** script.js task form: `project` is `{id: projectId}` or `null`. */
    | TaskPayload(title: string, description: string, status: string,
                  dueDate: string, project: Option<string>)
      /** Project create/edit forms of both scripts. */
    | ProjectPayload(name: string, status: string)
      /** main.js status toggle: a body carrying the status alone. */
    | StatusPayload(status: string)
      /** main.js task create: the looked-up project object is embedded. */
    | NewTaskPayload(title: string, description: string, dueDate: string,
                     status: string, lookedUp: JsProject)

  /** One request as it leaves the browser. */
  datatype Request = Request(verb: Verb, url: string, payload: Payload)
}
