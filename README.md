# Task-management backend: name normaliser and CRUD store, in Dafny

This project models the two pieces of logic the backend's tests pin down.

- `normalizeName` (module `Normalize`, `normalize.dfy`) turns a display name into its canonical form. The name is lowercased, leading and trailing whitespace is removed, and each run of interior whitespace becomes one space. The model follows these three steps literally: `NormalizeName(s) == CollapseRuns(Trim(LowerAll(s)))`. A second, independent definition splits the lowercased input into words and joins them with single spaces: `Join(Words(LowerAll(s)))`. The two are proved equal for every string. The output's shape is proved for every input: no whitespace at either end, no two whitespace characters in a row, no uppercase letter, the same words, idempotence, and empty exactly when the input is blank. The five cases of the unit test are proved as instances.
- The Users and Tasks resources (module `Backend`, `backend.dfy`) are one `Database` class. It holds a map per table (users, categories, tasks) and one counter that hands out fresh ids. The class invariant `Valid()` says that every record is stored under its own id and that every id in use is below the counter. Each request handler (create, list, get, update, delete) is a method. Its postcondition gives the status code, the `data` / `message` / `error` part of the body, and the new contents of every table, for the success path and for each error path (400 on a rejected body, 404 on an absent id). The seeding and read-back operations the tests call directly are methods and functions of the same class: `resetDb`, `prisma.user.create`, `prisma.category.create`, `prisma.task.create` and `findUnique`.
- `scenarios.dfy` (module `Scenarios`) replays every integration test against the model. Each test is a method whose postcondition is that test's expectations. It also states two create→update→delete lifecycles for arbitrary inputs.

Record ids are natural numbers drawn from the counter. Listing returns the records in id order, which is also insertion order, because ids only grow.

## Model

| member | source | states |
|---|---|---|
| Normalize.ToLower | backend/tests/unit/normalize.test.ts:6-8 | `A`–`Z` map to the same letter of `a`–`z`; no result is uppercase; every other character is kept; whitespace stays whitespace |
| Normalize.LowerAll | backend/tests/unit/normalize.test.ts:6-8 | the lowercased string has the same length and is the character-wise lowercase of the input |
| Normalize.TrimStart | backend/tests/unit/normalize.test.ts:10-12 | the result is a suffix of the input; everything removed is whitespace; the result does not start with whitespace |
| Normalize.TrimEnd | backend/tests/unit/normalize.test.ts:10-12 | the result is a prefix of the input; everything removed is whitespace; the result does not end with whitespace |
| Normalize.Trim | backend/tests/unit/normalize.test.ts:10-12 | the trim step: remove the leading whitespace, then the trailing whitespace. It has no contract of its own; `TrimStart` and `TrimEnd` state what each half removes and keeps, and `TrimCommutes` shows the order of the halves does not matter |
| Normalize.CollapseRuns | backend/tests/unit/normalize.test.ts:14-16 | the collapse step: each maximal whitespace run becomes one space. It has no contract of its own: its meaning is fixed only after trimming, through `CollapseTrimIsJoin` (trim, then collapse, gives the words joined by single spaces) |
| Normalize.NormalizeName | backend/tests/unit/normalize.test.ts:5-24 | `normalizeName` as its three steps: lowercase, then trim, then collapse. Its meaning is stated by `NormalizeNameIsJoinedWords` (it equals the lowercased words joined by single spaces) and by the property lemmas `NormalizeNameTrimmed`, `NormalizeNameSingleSpaced`, `NormalizeNameLowercase`, `NormalizeNameKeepsWords`, `NormalizeNameIdempotent` and `NormalizeNameEmptyIff` |
| Normalize.FirstWord | backend/tests/unit/normalize.test.ts:14-16 | the longest whitespace-free prefix: it is a prefix, has no whitespace, and is followed by whitespace or the end |
| Normalize.Words | backend/tests/unit/normalize.test.ts:14-16 | every element of the word split is a non-empty run without whitespace |
| Normalize.Join | backend/tests/unit/normalize.test.ts:14-16 | the reference output: words separated by exactly one space. `JoinShape` gives its shape (no edge or double whitespace) and `WordsOfJoin` its round trip with `Words` |
| Normalize.TrimCommutes | backend/tests/unit/normalize.test.ts:10-12 | trimming the start and trimming the end can be done in either order |
| Normalize.CollapseTrimIsJoin | backend/tests/unit/normalize.test.ts:10-16 | trimming and then collapsing runs gives the string's words joined by single spaces |
| Normalize.WordsOfJoin | backend/tests/unit/normalize.test.ts:14-16 | splitting words that were joined by single spaces gives back exactly those words |
| Normalize.JoinShape | backend/tests/unit/normalize.test.ts:10-16 | words joined by single spaces have no whitespace at either end and never two whitespace characters in a row |
| Normalize.NormalizeNameIsJoinedWords | backend/tests/unit/normalize.test.ts:5-24 | the normaliser equals the reference definition: the lowercased input's words joined by single spaces |
| Normalize.NormalizeNameTrimmed | backend/tests/unit/normalize.test.ts:10-12 | for every input, the result neither starts nor ends with whitespace |
| Normalize.NormalizeNameSingleSpaced | backend/tests/unit/normalize.test.ts:14-16 | for every input, the result never holds two whitespace characters in a row |
| Normalize.NormalizeNameLowercase | backend/tests/unit/normalize.test.ts:6-8 | for every input, the result holds no uppercase letter |
| Normalize.NormalizeNameKeepsWords | backend/tests/unit/normalize.test.ts:18-20 | for every input, the result has exactly the words of the lowercased input, in the same order |
| Normalize.NormalizeNameIdempotent | backend/tests/unit/normalize.test.ts:5-24 | normalising an already normalised name changes nothing |
| Normalize.NormalizeNameEmptyIff | backend/tests/unit/normalize.test.ts:22-24 | the result is empty if and only if the input is empty or only whitespace |
| Normalize.NormalizeTwoWords | backend/tests/unit/normalize.test.ts:6-12 | two words with any whitespace around them, and a non-empty run between them, normalise to the lowercased words with one space between them |
| Normalize.NormalizeThreeWords | backend/tests/unit/normalize.test.ts:14-20 | the same for three words |
| Normalize.LowercasesLetters | backend/tests/unit/normalize.test.ts:6-8 | `"TEST NAME"` normalises to `"test name"` |
| Normalize.TrimsBothEnds | backend/tests/unit/normalize.test.ts:10-12 | `"  Test Name  "` normalises to `"test name"` |
| Normalize.CollapsesInteriorRuns | backend/tests/unit/normalize.test.ts:14-16 | `"Test   Multiple   Spaces"` normalises to `"test multiple spaces"` |
| Normalize.AppliesAllRules | backend/tests/unit/normalize.test.ts:18-20 | `"   My   COMPLICATED   Name   "` normalises to `"my complicated name"` |
| Normalize.EmptyStaysEmpty | backend/tests/unit/normalize.test.ts:22-24 | the empty string normalises to the empty string |
| Backend.Filled | backend/tests/integration/users.int.test.ts:32-38 | a required text field is accepted when it is present and not empty |
| Backend.ValidUserInput | backend/tests/integration/users.int.test.ts:22-38 | the 400 rule of user creation: name and email must both be filled. `CreateUser` returns 201 exactly when it holds and 400 exactly when it fails |
| Backend.ApplyUserPatch | backend/tests/integration/users.int.test.ts:70-87 | a user update replaces the fields it carries and keeps the others; the id never changes; an empty update changes nothing |
| Backend.ApplyTaskPatch | backend/tests/integration/tasks.api.test.ts:53-67 | a task update replaces the fields it carries and keeps the others; the id, owner and category never change; an empty update changes nothing |
| Backend.ApplyUserPatchIdempotent | backend/tests/integration/users.int.test.ts:70-87 | sending the same user update twice has the effect of sending it once |
| Backend.ApplyTaskPatchIdempotent | backend/tests/integration/tasks.api.test.ts:53-67 | sending the same task update twice has the effect of sending it once |
| Backend.KeysBelow | backend/tests/integration/users.int.test.ts:42-51 | the ids below a bound that are stored in a table, each exactly once, in increasing order |
| Backend.Table | backend/tests/integration/users.int.test.ts:42-51 | `findMany`: a table's records in increasing key order. `TableListsAll` states that it holds every record exactly once |
| Backend.TableListsAll | backend/tests/integration/users.int.test.ts:42-51 | when all ids are below the bound, the listing has one entry per stored record and holds exactly the stored records |
| Backend.Database.Valid | backend/tests/integration/users.int.test.ts:22-30 | the store invariant: every record is stored under its own id, and every id in use is below the counter, so the next id is fresh. Every method that changes the store preserves it; `ListUsers`, `ListTasks` and the create methods rely on it |
| Backend.Database.constructor | backend/tests/integration/users.int.test.ts:15-18 | a new store is empty and satisfies the invariant |
| Backend.Database.Reset | backend/tests/integration/users.int.test.ts:15-18 | `resetDb` empties every table, keeps the invariant, and does not rewind the id counter |
| Backend.Database.FindUser | backend/tests/integration/users.int.test.ts:85-86 | `findUnique` on users finds a record exactly when the id is stored, and returns the stored record |
| Backend.Database.FindTask | backend/tests/integration/tasks.api.test.ts:89-90 | `findUnique` on tasks finds a record exactly when the id is stored, and returns the stored record |
| Backend.Database.InsertUser | backend/tests/integration/users.int.test.ts:43 | stores the given user under a fresh id and returns it; no other table changes |
| Backend.Database.InsertCategory | backend/tests/integration/tasks.api.test.ts:19-20 | stores the given category under a fresh id and returns it; no other table changes |
| Backend.Database.InsertTask | backend/tests/integration/tasks.api.test.ts:39-46 | stores the given task under a fresh id and returns it; no other table changes |
| Backend.Database.CreateUser | backend/tests/integration/users.int.test.ts:22-38 | with name and email present: 201, the user echoing both fields under a fresh id, which is now stored. Otherwise: 400 and nothing changes |
| Backend.Database.ListUsers | backend/tests/integration/users.int.test.ts:42-51 | 200 with every stored user exactly once (same count, same members), in increasing id order |
| Backend.Database.GetUser | backend/tests/integration/users.int.test.ts:53-66 | 200 with the stored user for a stored id; 404 for an absent id |
| Backend.Database.UpdateUser | backend/tests/integration/users.int.test.ts:70-95 | for a stored id: 200 with the merged user, which replaces the stored one. For an absent id: 404 and nothing changes |
| Backend.Database.DeleteUser | backend/tests/integration/users.int.test.ts:99-117 | for a stored id: 200 and the user is removed. For an absent id: 404 and nothing changes. No other table changes |
| Backend.Database.ValidTaskInput | backend/tests/integration/tasks.api.test.ts:15-36 | the 400 rule of task creation: title and description must be filled, and the user and category ids must name stored records. `CreateTask` returns 201 exactly when it holds and 400 exactly when it fails |
| Backend.Database.CreateTask | backend/tests/integration/tasks.api.test.ts:23-36 | for a body with title and description and ids of a stored user and category: 201, the task echoing the body under a fresh id, which is now stored. Otherwise: 400 and nothing changes |
| Backend.Database.ListTasks | backend/tests/integration/tasks.api.test.ts:38-51 | 200 with every stored task exactly once (same count, same members), in increasing id order |
| Backend.Database.UpdateTask | backend/tests/integration/tasks.api.test.ts:53-75 | for a stored id: 200 with the merged task, which replaces the stored one. For an absent id: 404 with error `"Task not found"` and nothing changes |
| Backend.Database.DeleteTask | backend/tests/integration/tasks.api.test.ts:77-97 | for a stored id: 200 with message `"Task deleted successfully"` and the task is removed. For an absent id: 404 with error `"Task not found"` and nothing changes |
| Scenarios.CreatesValidUser | backend/tests/integration/users.int.test.ts:22-30 | creating `Ana` / `ana@ex.com` gives 201 and echoes both fields; the returned id finds that user |
| Scenarios.RejectsMissingEmail | backend/tests/integration/users.int.test.ts:32-38 | creating a user without email gives 400 and stores nothing |
| Scenarios.ListsUsers | backend/tests/integration/users.int.test.ts:42-51 | after one user is stored, the list is 200, non-empty, and holds a user with email `ana@ex.com` |
| Scenarios.GetsUser | backend/tests/integration/users.int.test.ts:53-61 | getting a stored user gives 200 with its id and name |
| Scenarios.GetMissingUser | backend/tests/integration/users.int.test.ts:63-66 | getting id 999999 in the emptied store gives 404 |
| Scenarios.UpdatesUser | backend/tests/integration/users.int.test.ts:70-87 | updating name and email gives 200 with the new values, and the stored record has them too |
| Scenarios.UpdateMissingUser | backend/tests/integration/users.int.test.ts:89-95 | updating id 999999 gives 404 |
| Scenarios.DeletesUser | backend/tests/integration/users.int.test.ts:99-112 | deleting a stored user gives 200, and a later lookup finds nothing |
| Scenarios.DeleteMissingUser | backend/tests/integration/users.int.test.ts:114-117 | deleting id 999999 gives 404 |
| Scenarios.UserLifecycle | backend/tests/integration/users.int.test.ts:22-117 | for any accepted body and any update: create is 201 and echoes the body; get returns the created user; after the update, get returns the merged user; delete is 200; then get is 404 |
| Scenarios.SeedTaskFixtures | backend/tests/integration/tasks.api.test.ts:15-21 | after the fixture the store holds exactly one user `João` and one category `Trabalho`, and no task |
| Scenarios.CreatesValidTask | backend/tests/integration/tasks.api.test.ts:23-36 | creating a task for the fixture's user and category gives 201 and echoes title, description, `MEDIUM` and `PENDING` |
| Scenarios.ListsTasks | backend/tests/integration/tasks.api.test.ts:38-51 | after one task is stored, the list is 200 and non-empty |
| Scenarios.UpdatesTask | backend/tests/integration/tasks.api.test.ts:53-67 | a title-and-description update gives 200 with the new values |
| Scenarios.UpdateMissingTask | backend/tests/integration/tasks.api.test.ts:69-75 | updating id 999 gives 404 with error `"Task not found"` |
| Scenarios.DeletesTask | backend/tests/integration/tasks.api.test.ts:77-91 | deleting a stored task gives 200 with message `"Task deleted successfully"`, and a later lookup finds nothing |
| Scenarios.DeleteMissingTask | backend/tests/integration/tasks.api.test.ts:93-97 | deleting id 999 gives 404 with error `"Task not found"` |
| Scenarios.TaskLifecycle | backend/tests/integration/tasks.api.test.ts:23-97 | for any accepted body and any update: create is 201 and echoes title and description. Update is 200 with the merged task. Delete is 200 with the confirmation. A second delete is 404 `"Task not found"`, and the task cannot be found |

## Left out

- The implementations of `normalizeName` (`backend/src/utils/normalize`) and of the Express/Prisma application (`backend/src/index`) are not part of this model. These contracts are written against the behaviour the tests fix. Where a test leaves a choice open, the choice is listed below.
- HTTP routing, JSON serialisation, supertest, the Prisma client, the database connection, `$disconnect` and `async`/`await` are not modelled. Requests become method calls. The database becomes the `Database` object.
- Normalize.ToLower: only `A`–`Z` are lowercased, and whitespace is the six ASCII whitespace characters. Unicode case mapping and non-ASCII whitespace are not modelled; the tests use only ASCII letters and spaces.
- Id format: the application's ids are opaque strings. Here they are naturals from a counter. The absent ids `999` and `999999` are absent because each scenario empties the store first.
- Backend.Database.CreateUser: the 400 rule rejects a missing or empty name or email; the tests fix only the missing-email case. The user is stored as given, not normalised: the test expects `Ana` echoed back.
- Backend.Database.CreateTask: the 400 rule rejects a missing or empty title or description, and a missing or unknown user or category id. The tests fix only the accepted case.
- Response bodies of the Users resource on 400 and 404, and on a successful delete, are `NoBody`: the tests assert only the status code, so no message text is modelled.
- Backend.Database.UpdateUser and Backend.Database.UpdateTask do not validate the fields they merge; no test fixes a rejected update. A task update never changes its user or category.
- Email uniqueness, `createdAt` timestamps and schema defaults for `priority` and `status` are not modelled. A task stored without them holds `None`. Of the enumerations, only `MEDIUM` and `PENDING` appear in the tests.
- Referential integrity on delete: deleting a user or category that tasks refer to removes only that record; what the database does in that case is not fixed by the tests.
- Backend.Database.ListUsers and Backend.Database.ListTasks return the records in increasing id order, which is insertion order. The tests check only that the list is non-empty and contains a given record, so this order is a modelling choice.
- Backend.Database.Reset keeps the id counter, so ids handed out before a reset are never reused. The tests do not say whether `resetDb` rewinds id generation.
- `GET /api/tasks/:id` and the Categories endpoints are not exercised by the tests and are not modelled. Categories are only seeded.
- Concurrent requests are not modelled: every request runs to completion before the next one starts.
- frontend/tests/integration/Categories.load.int.test.tsx renders a React page against a mock server. It is UI and I/O only and is not modelled.
