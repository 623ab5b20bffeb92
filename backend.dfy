/**
 * The Users and Tasks resources of the backend as a keyed store.
 *
 * `Database` holds one table per entity (users, categories, tasks) and a
 * counter that hands out fresh ids. Its controller methods (`CreateUser`,
 * `ListUsers`, `GetUser`, `UpdateUser`, `DeleteUser` and the Task
 * counterparts) return the status code and the `data` / `message` / `error`
 * part of the response body that the integration tests observe. The direct
 * table operations the tests use for seeding and read-back (`InsertUser`,
 * `InsertCategory`, `InsertTask`, `FindUser`, `FindTask`, `Reset`) are modelled
 * as well, so that each test can be replayed against the model.
 */
module Backend {

  datatype Option<T> = None | Some(value: T)

  /** Record identifiers: naturals handed out by the store's counter. */
  type Id = nat

  // HTTP status codes used by the resources.
  const Ok: nat := 200
  const Created: nat := 201
  const BadRequest: nat := 400
  const NotFound: nat := 404

  // Fixed texts of the Task resource.
  const TaskNotFound: string := "Task not found"
  const TaskDeleted: string := "Task deleted successfully"

  /** The part of a JSON response body the tests read: `data`, `message` or `error`. */
  datatype Body<T> = Data(data: T) | Message(message: string) | Error(error: string) | NoBody

  datatype Response<T> = Response(status: nat, body: Body<T>)

  datatype User = User(id: Id, name: string, email: string)

  datatype Category = Category(id: Id, name: string)

  datatype Priority = Low | Medium | High

  datatype TaskStatus = Pending | InProgress | Done

  /** `priority` and `status` are `None` when the record was created without them. */
  datatype Task = Task(
    id: Id,
    title: string,
    description: string,
    userId: Id,
    categoryId: Id,
    priority: Option<Priority>,
    status: Option<TaskStatus>)

  /** Request body of `POST /api/users`; an omitted field is `None`. */
  datatype UserInput = UserInput(name: Option<string>, email: Option<string>)

  /** Request body of `PUT /api/users/:id`; only the fields present are changed. */
  datatype UserPatch = UserPatch(name: Option<string>, email: Option<string>)

  /** Request body of `POST /api/tasks`. */
  datatype TaskInput = TaskInput(
    title: Option<string>,
    description: Option<string>,
    userId: Option<Id>,
    categoryId: Option<Id>,
    priority: Option<Priority>,
    status: Option<TaskStatus>)

  /** Request body of `PUT /api/tasks/:id`; only the fields present are changed. */
  datatype TaskPatch = TaskPatch(
    title: Option<string>,
    description: Option<string>,
    priority: Option<Priority>,
    status: Option<TaskStatus>)

  /** A required text field: present and not empty. */
  predicate Filled(field: Option<string>) {
    field.Some? && field.value != []
  }

  predicate ValidUserInput(input: UserInput) {
    Filled(input.name) && Filled(input.email)
  }

  function Merge<T>(field: Option<T>, current: T): T {
    if field.Some? then field.value else current
  }

  /** The user after a partial update: present fields replace, absent fields keep, the id never changes. */
  function ApplyUserPatch(u: User, patch: UserPatch): (r: User)
    ensures r.id == u.id
    ensures r.name == (if patch.name.Some? then patch.name.value else u.name)
    ensures r.email == (if patch.email.Some? then patch.email.value else u.email)
    ensures patch == UserPatch(None, None) ==> r == u
  {
    User(u.id, Merge(patch.name, u.name), Merge(patch.email, u.email))
  }

  /** The task after a partial update: the id and the owning user and category never change. */
  function ApplyTaskPatch(t: Task, patch: TaskPatch): (r: Task)
    ensures r.id == t.id && r.userId == t.userId && r.categoryId == t.categoryId
    ensures r.title == (if patch.title.Some? then patch.title.value else t.title)
    ensures r.description == (if patch.description.Some? then patch.description.value else t.description)
    ensures r.priority == (if patch.priority.Some? then patch.priority else t.priority)
    ensures r.status == (if patch.status.Some? then patch.status else t.status)
    ensures patch == TaskPatch(None, None, None, None) ==> r == t
  {
    var priority := if patch.priority.Some? then patch.priority else t.priority;
    var status := if patch.status.Some? then patch.status else t.status;
    Task(t.id, Merge(patch.title, t.title), Merge(patch.description, t.description),
         t.userId, t.categoryId, priority, status)
  }

  lemma ApplyUserPatchIdempotent(u: User, patch: UserPatch)
    ensures ApplyUserPatch(ApplyUserPatch(u, patch), patch) == ApplyUserPatch(u, patch)
  {
  }

  lemma ApplyTaskPatchIdempotent(t: Task, patch: TaskPatch)
    ensures ApplyTaskPatch(ApplyTaskPatch(t, patch), patch) == ApplyTaskPatch(t, patch)
  {
  }

  // ---------------------------------------------------------------------------
  // Listing a table

  /** The keys of `m` below `n`, in increasing order. */
  function KeysBelow<T>(m: map<Id, T>, n: nat): (ks: seq<Id>)
    ensures forall k :: k in ks <==> k in m && k < n
    ensures forall i, j :: 0 <= i < j < |ks| ==> ks[i] < ks[j]
  {
    if n == 0 then []
    else
      var ks := KeysBelow(m, n - 1);
      assert forall i :: 0 <= i < |ks| ==> ks[i] in ks;
      if n - 1 in m then ks + [n - 1] else ks
  }

  /** The records stored under `ks`, in that order. */
  function Listing<T>(m: map<Id, T>, ks: seq<Id>): (r: seq<T>)
    requires forall k :: k in ks ==> k in m
    ensures |r| == |ks|
    ensures forall i :: 0 <= i < |ks| ==> r[i] == m[ks[i]]
  {
    if ks == [] then [] else [m[ks[0]]] + Listing(m, ks[1..])
  }

  /** The whole table, ordered by key. */
  function Table<T>(m: map<Id, T>, n: nat): seq<T> {
    Listing(m, KeysBelow(m, n))
  }

  ghost function KeysUnder<T>(m: map<Id, T>, n: nat): set<Id> {
    set k | k in m.Keys && k < n
  }

  lemma KeysUnderStep<T>(m: map<Id, T>, n: nat)
    requires n > 0
    ensures n - 1 in m ==> KeysUnder(m, n) == KeysUnder(m, n - 1) + {n - 1}
    ensures n - 1 !in m ==> KeysUnder(m, n) == KeysUnder(m, n - 1)
  {
  }

  lemma {:induction false} KeysBelowCount<T>(m: map<Id, T>, n: nat)
    ensures |KeysBelow(m, n)| == |KeysUnder(m, n)|
  {
    if n > 0 {
      KeysBelowCount(m, n - 1);
      KeysUnderStep(m, n);
      assert n - 1 !in KeysUnder(m, n - 1);
    }
  }

  /** When every key is below `n`, the listing holds every record of the table exactly once. */
  lemma TableListsAll<T>(m: map<Id, T>, n: nat)
    requires forall k :: k in m ==> k < n
    ensures |Table(m, n)| == |m|
    ensures forall x :: x in Table(m, n) <==> x in m.Values
  {
    KeysBelowCount(m, n);
    assert KeysUnder(m, n) == m.Keys;
    var ks := KeysBelow(m, n);
    var r := Table(m, n);
    forall x | x in m.Values
      ensures x in r
    {
      var k :| k in m && m[k] == x;
      assert k in ks;
      var i :| 0 <= i < |ks| && ks[i] == k;
      assert r[i] == x;
    }
  }

  // ---------------------------------------------------------------------------
  // The store

  class Database {
    var users: map<Id, User>
    var categories: map<Id, Category>
    var tasks: map<Id, Task>
    /** Every id handed out so far is below `nextId`. */
    var nextId: Id

    /** Every record is stored under its own id, and every id in use is below `nextId`. */
    ghost predicate Valid()
      reads this
    {
      (forall id :: id in users ==> id < nextId && users[id].id == id) &&
      (forall id :: id in categories ==> id < nextId && categories[id].id == id) &&
      (forall id :: id in tasks ==> id < nextId && tasks[id].id == id)
    }

    constructor ()
      ensures Valid()
      ensures users == map[] && categories == map[] && tasks == map[] && nextId == 0
    {
      users, categories, tasks := map[], map[], map[];
      nextId := 0;
    }

    /** `resetDb`: all tables emptied; ids handed out before are never reused. */
    method Reset()
      modifies this
      ensures Valid()
      ensures users == map[] && categories == map[] && tasks == map[]
      ensures nextId == old(nextId)
    {
      users, categories, tasks := map[], map[], map[];
    }

    /** `prisma.user.findUnique`. */
    function FindUser(id: Id): (r: Option<User>)
      reads this
      ensures r.Some? <==> id in users
      ensures r.Some? ==> r.value == users[id]
    {
      if id in users then Some(users[id]) else None
    }

    /** `prisma.task.findUnique`. */
    function FindTask(id: Id): (r: Option<Task>)
      reads this
      ensures r.Some? <==> id in tasks
      ensures r.Some? ==> r.value == tasks[id]
    {
      if id in tasks then Some(tasks[id]) else None
    }

    /** `prisma.user.create`: stores a user under a fresh id, without validation. */
    method InsertUser(name: string, email: string) returns (u: User)
      requires Valid()
      modifies this
      ensures Valid()
      ensures u == User(old(nextId), name, email) && u.id !in old(users)
      ensures users == old(users)[u.id := u] && nextId == old(nextId) + 1
      ensures categories == old(categories) && tasks == old(tasks)
    {
      u := User(nextId, name, email);
      users := users[nextId := u];
      nextId := nextId + 1;
    }

    /** `prisma.category.create`. */
    method InsertCategory(name: string) returns (c: Category)
      requires Valid()
      modifies this
      ensures Valid()
      ensures c == Category(old(nextId), name) && c.id !in old(categories)
      ensures categories == old(categories)[c.id := c] && nextId == old(nextId) + 1
      ensures users == old(users) && tasks == old(tasks)
    {
      c := Category(nextId, name);
      categories := categories[nextId := c];
      nextId := nextId + 1;
    }

    /** `prisma.task.create`: stores a task under a fresh id, without validation. */
    method InsertTask(title: string, description: string, userId: Id, categoryId: Id,
                      priority: Option<Priority>, status: Option<TaskStatus>) returns (t: Task)
      requires Valid()
      modifies this
      ensures Valid()
      ensures t == Task(old(nextId), title, description, userId, categoryId, priority, status)
      ensures t.id !in old(tasks)
      ensures tasks == old(tasks)[t.id := t] && nextId == old(nextId) + 1
      ensures users == old(users) && categories == old(categories)
    {
      t := Task(nextId, title, description, userId, categoryId, priority, status);
      tasks := tasks[nextId := t];
      nextId := nextId + 1;
    }

    // -------------------------------------------------------------------------
    // Users resource

    /** `POST /api/users`: 201 with the new user when name and email are given, 400 otherwise. */
    method CreateUser(input: UserInput) returns (r: Response<User>)
      requires Valid()
      modifies this
      ensures Valid()
      ensures ValidUserInput(input) ==>
        r.status == Created && r.body.Data? &&
        r.body.data == User(old(nextId), input.name.value, input.email.value) &&
        old(nextId) !in old(users) &&
        users == old(users)[old(nextId) := r.body.data] && nextId == old(nextId) + 1
      ensures !ValidUserInput(input) ==>
        r == Response(BadRequest, NoBody) && users == old(users) && nextId == old(nextId)
      ensures categories == old(categories) && tasks == old(tasks)
    {
      if !ValidUserInput(input) {
        return Response(BadRequest, NoBody);
      }
      var u := InsertUser(input.name.value, input.email.value);
      r := Response(Created, Data(u));
    }

    /** `GET /api/users`: 200 with every stored user exactly once, ordered by id. */
    method ListUsers() returns (r: Response<seq<User>>)
      requires Valid()
      ensures r.status == Ok && r.body.Data?
      ensures |r.body.data| == |users|
      ensures forall u :: u in r.body.data <==> u in users.Values
      ensures forall i, j :: 0 <= i < j < |r.body.data| ==> r.body.data[i].id < r.body.data[j].id
    {
      var ks := KeysBelow(users, nextId);
      TableListsAll(users, nextId);
      r := Response(Ok, Data(Listing(users, ks)));
    }

    /** `GET /api/users/:id`: 200 with the stored user, 404 when the id is absent. */
    method GetUser(id: Id) returns (r: Response<User>)
      ensures id in users ==> r == Response(Ok, Data(users[id]))
      ensures id !in users ==> r == Response(NotFound, NoBody)
    {
      if id in users {
        r := Response(Ok, Data(users[id]));
      } else {
        r := Response(NotFound, NoBody);
      }
    }

    /** `PUT /api/users/:id`: 200 with the merged user, which is also stored; 404 when the id is absent. */
    method UpdateUser(id: Id, patch: UserPatch) returns (r: Response<User>)
      requires Valid()
      modifies this
      ensures Valid()
      ensures id in old(users) ==>
        r == Response(Ok, Data(ApplyUserPatch(old(users)[id], patch))) &&
        users == old(users)[id := r.body.data]
      ensures id !in old(users) ==> r == Response(NotFound, NoBody) && users == old(users)
      ensures categories == old(categories) && tasks == old(tasks) && nextId == old(nextId)
    {
      if id !in users {
        return Response(NotFound, NoBody);
      }
      var u := ApplyUserPatch(users[id], patch);
      users := users[id := u];
      r := Response(Ok, Data(u));
    }

    /** `DELETE /api/users/:id`: 200 and the user is gone; 404 when the id is absent. */
    method DeleteUser(id: Id) returns (r: Response<User>)
      requires Valid()
      modifies this
      ensures Valid()
      ensures id in old(users) ==> r == Response(Ok, NoBody)
      ensures id !in old(users) ==> r == Response(NotFound, NoBody)
      ensures users == old(users) - {id}
      ensures categories == old(categories) && tasks == old(tasks) && nextId == old(nextId)
    {
      if id !in users {
        return Response(NotFound, NoBody);
      }
      users := users - {id};
      r := Response(Ok, NoBody);
    }

    // -------------------------------------------------------------------------
    // Tasks resource

    /** A task body is accepted when title and description are given and both ids name stored records. */
    predicate ValidTaskInput(input: TaskInput)
      reads this
    {
      Filled(input.title) && Filled(input.description) &&
      input.userId.Some? && input.userId.value in users &&
      input.categoryId.Some? && input.categoryId.value in categories
    }

    /** `POST /api/tasks`: 201 with the new task for an accepted body, 400 otherwise. */
    method CreateTask(input: TaskInput) returns (r: Response<Task>)
      requires Valid()
      modifies this
      ensures Valid()
      ensures old(ValidTaskInput(input)) ==>
        r.status == Created && r.body.Data? &&
        r.body.data == Task(old(nextId), input.title.value, input.description.value,
                            input.userId.value, input.categoryId.value, input.priority, input.status) &&
        old(nextId) !in old(tasks) &&
        tasks == old(tasks)[old(nextId) := r.body.data] && nextId == old(nextId) + 1
      ensures !old(ValidTaskInput(input)) ==>
        r == Response(BadRequest, NoBody) && tasks == old(tasks) && nextId == old(nextId)
      ensures users == old(users) && categories == old(categories)
    {
      if !ValidTaskInput(input) {
        return Response(BadRequest, NoBody);
      }
      var t := InsertTask(input.title.value, input.description.value, input.userId.value,
                          input.categoryId.value, input.priority, input.status);
      r := Response(Created, Data(t));
    }

    /** `GET /api/tasks`: 200 with every stored task exactly once, ordered by id. */
    method ListTasks() returns (r: Response<seq<Task>>)
      requires Valid()
      ensures r.status == Ok && r.body.Data?
      ensures |r.body.data| == |tasks|
      ensures forall t :: t in r.body.data <==> t in tasks.Values
      ensures forall i, j :: 0 <= i < j < |r.body.data| ==> r.body.data[i].id < r.body.data[j].id
    {
      var ks := KeysBelow(tasks, nextId);
      TableListsAll(tasks, nextId);
      r := Response(Ok, Data(Listing(tasks, ks)));
    }

    /** `PUT /api/tasks/:id`: 200 with the merged task, which is also stored; 404 "Task not found" otherwise. */
    method UpdateTask(id: Id, patch: TaskPatch) returns (r: Response<Task>)
      requires Valid()
      modifies this
      ensures Valid()
      ensures id in old(tasks) ==>
        r == Response(Ok, Data(ApplyTaskPatch(old(tasks)[id], patch))) &&
        tasks == old(tasks)[id := r.body.data]
      ensures id !in old(tasks) ==> r == Response(NotFound, Error(TaskNotFound)) && tasks == old(tasks)
      ensures users == old(users) && categories == old(categories) && nextId == old(nextId)
    {
      if id !in tasks {
        return Response(NotFound, Error(TaskNotFound));
      }
      var t := ApplyTaskPatch(tasks[id], patch);
      tasks := tasks[id := t];
      r := Response(Ok, Data(t));
    }

    /** `DELETE /api/tasks/:id`: 200 "Task deleted successfully" and the task is gone; 404 "Task not found" otherwise. */
    method DeleteTask(id: Id) returns (r: Response<Task>)
      requires Valid()
      modifies this
      ensures Valid()
      ensures id in old(tasks) ==> r == Response(Ok, Message(TaskDeleted))
      ensures id !in old(tasks) ==> r == Response(NotFound, Error(TaskNotFound))
      ensures tasks == old(tasks) - {id}
      ensures users == old(users) && categories == old(categories) && nextId == old(nextId)
    {
      if id !in tasks {
        return Response(NotFound, Error(TaskNotFound));
      }
      tasks := tasks - {id};
      r := Response(Ok, Message(TaskDeleted));
    }
  }
}
