/**
 * The per-user task store behind /tasks (app/tasks.py): create, list, partial
 * update and delete, each restricted to the tasks of the authenticated user.
 *
 * The task table is a map from the integer primary key to the row; new keys
 * come from an autoincrement counter. The authenticated user is an input (the
 * id of the row get_current_user returned).
 */
module Tasks {
  import opened Wrappers
  import opened Identity

  /** A row of the tasks table. `userId` is the owner's user id. */
  datatype TaskRecord = TaskRecord(id: int, title: Option<string>, completed: Option<bool>, userId: nat)

  /** The body of POST /tasks; both fields are optional and default to null. */
  datatype TaskCreate = TaskCreate(title: Option<string>, completed: Option<bool>)

  /** A field of a partial update: left out of the request, or set (possibly to null). */
  datatype Field<T> = Unset | Set(value: T)

  /** The body of PUT /tasks/{id}. */
  datatype TaskUpdate = TaskUpdate(title: Field<Option<string>>, completed: Field<Option<bool>>)

  /** One entry of `model_dump(exclude_unset=True)`: an attribute name with its value. */
  datatype Attr = TitleAttr(title: Option<string>) | CompletedAttr(completed: Option<bool>)

  const TaskNotFoundDetail := "Task not found"
  const TaskDeletedMessage := "Task deleted successfully"

  /** read_tasks' default query parameters, the ones the frontend's task list relies on. */
  const DefaultSkip: nat := 0
  const DefaultLimit: nat := 100

  /**
   * The row create_task inserts under key `id`. A `completed` left null is
   * left out of the INSERT, so the column default False is stored; `title`
   * has no default and is stored as given.
   */
  function NewTask(id: int, req: TaskCreate, owner: nat): (t: TaskRecord)
    ensures t.id == id && t.title == req.title && t.userId == owner
    ensures t.completed.Some?
    ensures req.completed.Some? ==> t.completed == req.completed
    ensures req.completed.None? ==> t.completed == Some(false)
  {
    TaskRecord(id, req.title, if req.completed.Some? then req.completed else Some(false), owner)
  }

  predicate OwnedBy(tasks: map<int, TaskRecord>, owner: nat, taskId: int) {
    taskId in tasks && tasks[taskId].userId == owner
  }

  predicate KeysMatch(tasks: map<int, TaskRecord>) {
    forall id :: id in tasks ==> tasks[id].id == id
  }

  // ---- GET /tasks ----

  /**
   * The owner's tasks with keys in [0, n), in ascending key order. The query
   * has no ORDER BY; the model fixes the primary-key order.
   */
  function OwnedBelow(tasks: map<int, TaskRecord>, owner: nat, n: nat): (s: seq<TaskRecord>)
    requires KeysMatch(tasks)
    ensures forall k :: 0 <= k < |s| ==> 0 <= s[k].id < n && OwnedBy(tasks, owner, s[k].id) && tasks[s[k].id] == s[k]
    ensures forall k, l :: 0 <= k < l < |s| ==> s[k].id < s[l].id
    ensures forall id :: 0 <= id < n && OwnedBy(tasks, owner, id) ==> tasks[id] in s
    decreases n
  {
    if n == 0 then []
    else
      var id := n - 1;
      OwnedBelow(tasks, owner, id) + (if OwnedBy(tasks, owner, id) then [tasks[id]] else [])
  }

  /** OFFSET skip LIMIT limit over a result list. */
  function Window<T>(s: seq<T>, skip: nat, limit: nat): (r: seq<T>)
    ensures |r| == if skip >= |s| then 0 else if |s| - skip < limit then |s| - skip else limit
    ensures forall k :: 0 <= k < |r| ==> r[k] == s[skip + k]
  {
    var rest := if skip <= |s| then s[skip..] else [];
    if limit <= |rest| then rest[..limit] else rest
  }

  // ---- PUT /tasks/{id} ----

  /** `model_dump(exclude_unset=True)`: the fields the request set, in declaration order. */
  function ModelDump(u: TaskUpdate): (d: seq<Attr>)
    ensures |d| <= 2
    ensures forall v :: TitleAttr(v) in d <==> u.title == Set(v)
    ensures forall v :: CompletedAttr(v) in d <==> u.completed == Set(v)
  {
    (if u.title.Set? then [TitleAttr(u.title.value)] else [])
    + (if u.completed.Set? then [CompletedAttr(u.completed.value)] else [])
  }

  /** setattr(task, key, value) for one dumped entry. */
  function SetAttr(t: TaskRecord, a: Attr): TaskRecord {
    match a
    case TitleAttr(v) => t.(title := v)
    case CompletedAttr(v) => t.(completed := v)
  }

  /** The task after setattr over the entries, first to last. */
  function SetAttrs(t: TaskRecord, d: seq<Attr>): TaskRecord
    decreases |d|
  {
    if d == [] then t else SetAttr(SetAttrs(t, d[..|d| - 1]), d[|d| - 1])
  }

  /** The task after update_task: exactly the fields the request set are overwritten. */
  function Updated(t: TaskRecord, u: TaskUpdate): (r: TaskRecord)
    ensures r.id == t.id && r.userId == t.userId
    ensures r.title == if u.title.Set? then u.title.value else t.title
    ensures r.completed == if u.completed.Set? then u.completed.value else t.completed
  {
    DumpedFieldsApplied(t, u);
    SetAttrs(t, ModelDump(u))
  }

  lemma DumpedFieldsApplied(t: TaskRecord, u: TaskUpdate)
    ensures var r := SetAttrs(t, ModelDump(u));
      && r.id == t.id && r.userId == t.userId
      && r.title == (if u.title.Set? then u.title.value else t.title)
      && r.completed == (if u.completed.Set? then u.completed.value else t.completed)
  {
    var d := ModelDump(u);
    if |d| == 2 {
      assert d[..1][..0] == [];
      assert SetAttrs(t, d[..1]) == SetAttr(t, d[0]);
    } else if |d| == 1 {
      assert d[..0] == [];
    }
  }

  /** The setattr loop of update_task. */
  method ApplyUpdate(t: TaskRecord, u: TaskUpdate) returns (r: TaskRecord)
    ensures r == Updated(t, u)
  {
    var data := ModelDump(u);
    r := t;
    for i := 0 to |data|
      invariant r == SetAttrs(t, data[..i])
    {
      assert data[..i + 1][..i] == data[..i];
      r := SetAttr(r, data[i]);
    }
    assert data[..|data|] == data;
  }

  /** Sending the same update twice leaves the task as one update does. */
  lemma UpdateIsIdempotent(t: TaskRecord, u: TaskUpdate)
    ensures Updated(Updated(t, u), u) == Updated(t, u)
  {
  }

  /** An update that sets no field leaves the task as it was. */
  lemma EmptyUpdateKeepsTask(t: TaskRecord)
    ensures Updated(t, TaskUpdate(Unset, Unset)) == t
  {
  }

  // ---- The table ----

  class TaskTable {
    var tasks: map<int, TaskRecord>
    var nextId: nat

    ghost predicate Valid()
      reads this
    {
      && nextId >= 1
      && KeysMatch(tasks)
      && forall id :: id in tasks ==> 1 <= id < nextId
    }

    constructor ()
      ensures Valid() && tasks == map[] && nextId == 1
    {
      tasks := map[];
      nextId := 1;
    }

    /**
     * create_task. `failure` is the error the insert or the commit raises, if
     * any: the session is rolled back and the message comes back with 500.
     */
    method CreateTask(owner: nat, req: TaskCreate, failure: Option<string>) returns (r: Result<TaskRecord, HttpError>)
      requires Valid()
      modifies this
      ensures Valid()
      ensures failure.Some? ==> r == Err(HttpError(500, failure.value)) && tasks == old(tasks)
      ensures failure.None? ==>
        && r.Ok?
        && r.value == NewTask(r.value.id, req, owner)
        && r.value.id !in old(tasks)
        && tasks == old(tasks)[r.value.id := r.value]
    {
      if failure.Some? {
        r := Err(HttpError(500, failure.value));
        return;
      }
      var created := NewTask(nextId, req, owner);
      tasks := tasks[nextId := created];
      nextId := nextId + 1;
      r := Ok(created);
    }

    /** read_tasks: the owner's tasks, `skip` of them skipped, at most `limit` returned. */
    function ReadTasks(owner: nat, skip: nat, limit: nat): (r: seq<TaskRecord>)
      reads this
      requires Valid()
      ensures |r| <= limit
      ensures forall k :: 0 <= k < |r| ==> OwnedBy(tasks, owner, r[k].id) && tasks[r[k].id] == r[k]
      ensures forall k, l :: 0 <= k < l < |r| ==> r[k].id < r[l].id
      ensures skip == 0 && |r| < limit ==> forall id :: OwnedBy(tasks, owner, id) ==> tasks[id] in r
    {
      var owned := OwnedBelow(tasks, owner, nextId);
      var r := Window(owned, skip, limit);
      if skip == 0 && |r| < limit then assert r == owned; r else r
    }

    /**
     * With the default parameters the list is the owner's first
     * DefaultLimit tasks in key order: at most 100 are ever returned.
     */
    lemma DefaultListing(owner: nat)
      requires Valid()
      ensures var owned := OwnedBelow(tasks, owner, nextId);
        ReadTasks(owner, DefaultSkip, DefaultLimit)
          == owned[..if |owned| < DefaultLimit then |owned| else DefaultLimit]
    {
      var owned := OwnedBelow(tasks, owner, nextId);
      assert owned[DefaultSkip..] == owned;
    }

    /** update_task: 404 unless the task exists and belongs to `owner`. */
    method UpdateTask(owner: nat, taskId: int, u: TaskUpdate) returns (r: Result<TaskRecord, HttpError>)
      requires Valid()
      modifies this
      ensures Valid() && nextId == old(nextId)
      ensures OwnedBy(old(tasks), owner, taskId) ==>
        r == Ok(Updated(old(tasks)[taskId], u)) && tasks == old(tasks)[taskId := r.value]
      ensures !OwnedBy(old(tasks), owner, taskId) ==>
        r == Err(HttpError(404, TaskNotFoundDetail)) && tasks == old(tasks)
    {
      if !OwnedBy(tasks, owner, taskId) {
        r := Err(HttpError(404, TaskNotFoundDetail));
        return;
      }
      var updated := ApplyUpdate(tasks[taskId], u);
      tasks := tasks[taskId := updated];
      r := Ok(updated);
    }

    /** delete_task: 404 unless the task exists and belongs to `owner`. */
    method DeleteTask(owner: nat, taskId: int) returns (r: Result<string, HttpError>)
      requires Valid()
      modifies this
      ensures Valid() && nextId == old(nextId)
      ensures OwnedBy(old(tasks), owner, taskId) ==>
        r == Ok(TaskDeletedMessage) && tasks == old(tasks) - {taskId}
      ensures !OwnedBy(old(tasks), owner, taskId) ==>
        r == Err(HttpError(404, TaskNotFoundDetail)) && tasks == old(tasks)
    {
      if !OwnedBy(tasks, owner, taskId) {
        r := Err(HttpError(404, TaskNotFoundDetail));
        return;
      }
      tasks := tasks - {taskId};
      r := Ok(TaskDeletedMessage);
    }
  }
}
