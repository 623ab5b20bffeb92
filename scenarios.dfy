/**
 * The integration tests of the Users and Tasks resources, replayed against
 * the store model. Each method starts from whatever state the store is in,
 * empties it as the tests' `beforeEach` does, performs the requests of one
 * test, and states that test's expectations as its postcondition. The
 * `*Lifecycle` methods state the same contract for arbitrary field values:
 * absent, then present, then updated, then absent again.
 */
module Scenarios {
  import opened Backend

  // ---------------------------------------------------------------------------
  // backend/tests/integration/users.int.test.ts

  method CreatesValidUser(db: Database) returns (r: Response<User>)
    requires db.Valid()
    modifies db
    ensures db.Valid()
    ensures r.status == Created && r.body.Data?
    ensures r.body.data.name == "Ana" && r.body.data.email == "ana@ex.com"
    ensures db.FindUser(r.body.data.id) == Some(r.body.data)
  {
    db.Reset();
    r := db.CreateUser(UserInput(Some("Ana"), Some("ana@ex.com")));
  }

  method RejectsMissingEmail(db: Database) returns (r: Response<User>)
    requires db.Valid()
    modifies db
    ensures db.Valid()
    ensures r.status == BadRequest
    ensures db.users == map[]
  {
    db.Reset();
    r := db.CreateUser(UserInput(Some("Incompleto"), None));
  }

  method ListsUsers(db: Database) returns (r: Response<seq<User>>)
    requires db.Valid()
    modifies db
    ensures r.status == Ok && r.body.Data?
    ensures |r.body.data| > 0
    ensures exists u :: u in r.body.data && u.email == "ana@ex.com"
  {
    db.Reset();
    var ana := db.InsertUser("Ana", "ana@ex.com");
    r := db.ListUsers();
    assert ana in db.users.Values;
  }

  method GetsUser(db: Database) returns (r: Response<User>, beto: User)
    requires db.Valid()
    modifies db
    ensures r.status == Ok && r.body.Data?
    ensures r.body.data.id == beto.id && r.body.data.name == "Beto"
  {
    db.Reset();
    beto := db.InsertUser("Beto", "beto@ex.com");
    r := db.GetUser(beto.id);
  }

  method GetMissingUser(db: Database) returns (r: Response<User>)
    requires db.Valid()
    modifies db
    ensures r.status == NotFound
  {
    db.Reset();
    r := db.GetUser(999999);
  }

  method UpdatesUser(db: Database) returns (r: Response<User>, stored: Option<User>)
    requires db.Valid()
    modifies db
    ensures r.status == Ok && r.body.Data?
    ensures r.body.data.name == "Ana Silva" && r.body.data.email == "ana.silva@ex.com"
    ensures stored.Some? && stored.value.name == "Ana Silva" && stored.value.email == "ana.silva@ex.com"
  {
    db.Reset();
    var ana := db.InsertUser("Ana", "ana@ex.com");
    r := db.UpdateUser(ana.id, UserPatch(Some("Ana Silva"), Some("ana.silva@ex.com")));
    stored := db.FindUser(ana.id);
  }

  method UpdateMissingUser(db: Database) returns (r: Response<User>)
    requires db.Valid()
    modifies db
    ensures r.status == NotFound
  {
    db.Reset();
    r := db.UpdateUser(999999, UserPatch(Some("Fantasma"), Some("fantasma@ex.com")));
  }

  method DeletesUser(db: Database) returns (r: Response<User>, stored: Option<User>)
    requires db.Valid()
    modifies db
    ensures r.status == Ok
    ensures stored == None
  {
    db.Reset();
    var carlos := db.InsertUser("Carlos", "carlos@ex.com");
    r := db.DeleteUser(carlos.id);
    stored := db.FindUser(carlos.id);
  }

  method DeleteMissingUser(db: Database) returns (r: Response<User>)
    requires db.Valid()
    modifies db
    ensures r.status == NotFound
  {
    db.Reset();
    r := db.DeleteUser(999999);
  }

  /** Create, read back, update, read back, delete, read back: for any accepted name and email. */
  method UserLifecycle(db: Database, input: UserInput, patch: UserPatch)
    returns (created: Response<User>, afterCreate: Response<User>, afterUpdate: Response<User>,
             deleted: Response<User>, afterDelete: Response<User>)
    requires db.Valid() && ValidUserInput(input)
    modifies db
    ensures db.Valid()
    ensures created.status == Created && created.body.Data?
    ensures created.body.data.name == input.name.value && created.body.data.email == input.email.value
    ensures afterCreate == Response(Ok, Data(created.body.data))
    ensures afterUpdate == Response(Ok, Data(ApplyUserPatch(created.body.data, patch)))
    ensures deleted.status == Ok
    ensures afterDelete.status == NotFound
  {
    created := db.CreateUser(input);
    var id := created.body.data.id;
    afterCreate := db.GetUser(id);
    var updated := db.UpdateUser(id, patch);
    afterUpdate := db.GetUser(id);
    deleted := db.DeleteUser(id);
    afterDelete := db.GetUser(id);
  }

  // ---------------------------------------------------------------------------
  // backend/tests/integration/tasks.api.test.ts

  /** `beforeEach`: an empty store holding one user and one category. */
  method SeedTaskFixtures(db: Database) returns (userId: Id, categoryId: Id)
    requires db.Valid()
    modifies db
    ensures db.Valid()
    ensures db.users == map[userId := User(userId, "João", "joao@ex.com")]
    ensures db.categories == map[categoryId := Category(categoryId, "Trabalho")]
    ensures db.tasks == map[]
  {
    db.Reset();
    var user := db.InsertUser("João", "joao@ex.com");
    var category := db.InsertCategory("Trabalho");
    userId, categoryId := user.id, category.id;
  }

  method CreatesValidTask(db: Database) returns (r: Response<Task>)
    requires db.Valid()
    modifies db
    ensures r.status == Created && r.body.Data?
    ensures r.body.data.title == "Tarefa de teste" && r.body.data.description == "Descrição"
    ensures r.body.data.priority == Some(Medium) && r.body.data.status == Some(Pending)
  {
    var userId, categoryId := SeedTaskFixtures(db);
    r := db.CreateTask(TaskInput(Some("Tarefa de teste"), Some("Descrição"), Some(userId),
                                 Some(categoryId), Some(Medium), Some(Pending)));
  }

  method ListsTasks(db: Database) returns (r: Response<seq<Task>>)
    requires db.Valid()
    modifies db
    ensures r.status == Ok && r.body.Data?
    ensures |r.body.data| > 0
  {
    var userId, categoryId := SeedTaskFixtures(db);
    var task := db.InsertTask("Tarefa 1", "Desc", userId, categoryId, None, None);
    r := db.ListTasks();
  }

  method UpdatesTask(db: Database) returns (r: Response<Task>)
    requires db.Valid()
    modifies db
    ensures r.status == Ok && r.body.Data?
    ensures r.body.data.title == "Tarefa atualizada" && r.body.data.description == "Nova desc"
  {
    var userId, categoryId := SeedTaskFixtures(db);
    var task := db.InsertTask("Tarefa", "Desc", userId, categoryId, None, None);
    r := db.UpdateTask(task.id, TaskPatch(Some("Tarefa atualizada"), Some("Nova desc"), None, None));
  }

  method UpdateMissingTask(db: Database) returns (r: Response<Task>)
    requires db.Valid()
    modifies db
    ensures r.status == NotFound && r.body == Error("Task not found")
  {
    var userId, categoryId := SeedTaskFixtures(db);
    r := db.UpdateTask(999, TaskPatch(Some("Teste"), None, None, None));
  }

  method DeletesTask(db: Database) returns (r: Response<Task>, stored: Option<Task>)
    requires db.Valid()
    modifies db
    ensures r.status == Ok && r.body == Message("Task deleted successfully")
    ensures stored == None
  {
    var userId, categoryId := SeedTaskFixtures(db);
    var task := db.InsertTask("Tarefa", "Desc", userId, categoryId, None, None);
    r := db.DeleteTask(task.id);
    stored := db.FindTask(task.id);
  }

  method DeleteMissingTask(db: Database) returns (r: Response<Task>)
    requires db.Valid()
    modifies db
    ensures r.status == NotFound && r.body == Error("Task not found")
  {
    var userId, categoryId := SeedTaskFixtures(db);
    r := db.DeleteTask(999);
  }

  /** Create, update, delete, read back: for any accepted task body and any patch. */
  method TaskLifecycle(db: Database, input: TaskInput, patch: TaskPatch)
    returns (created: Response<Task>, updated: Response<Task>, deleted: Response<Task>,
             afterDelete: Response<Task>)
    requires db.Valid() && db.ValidTaskInput(input)
    modifies db
    ensures db.Valid()
    ensures created.status == Created && created.body.Data?
    ensures created.body.data.title == input.title.value
    ensures created.body.data.description == input.description.value
    ensures updated == Response(Ok, Data(ApplyTaskPatch(created.body.data, patch)))
    ensures deleted == Response(Ok, Message("Task deleted successfully"))
    ensures afterDelete == Response(NotFound, Error("Task not found"))
    ensures db.FindTask(created.body.data.id) == None
  {
    created := db.CreateTask(input);
    var id := created.body.data.id;
    updated := db.UpdateTask(id, patch);
    deleted := db.DeleteTask(id);
    afterDelete := db.DeleteTask(id);
  }
}
