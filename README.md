# To-do list: resource handlers and client cache, modelled in Dafny

This project models the two parts of the to-do list system whose behaviour can be stated:

- **The `api/todos` resource handlers.** The server answers list, get, create, update and delete requests over one table of items. Each item is `{id, title, isComplete}`, and the table is keyed by id.
- **The single-page client.** It keeps a cached copy of the collection and the flags around it (`isLoading`, `error`, `showCompleted`, `editingTodo`). It folds every server reply into that cache. The compose/edit form guards and builds what it submits.

Modules and files:

- `todo_model.dfy` (`TodoModel`): the `Todo` item, `Option`, and `Reply` (a request's outcome as the client sees it: `Success(data)` or `Failure`).
- `todo_api.dfy` (`TodoApi`): the data context's `Todos` table as a class `TodoContext` with a `map<int, Todo>` field. The four store operations the controller uses are modelled abstractly:
  - lookup by key;
  - add with some fresh non-zero id;
  - save of a modified row (a missing row is a concurrency conflict);
  - remove.

  The controller is a class `TodoController` whose handlers return a `Response`: `Ok`, `Created`, `NoContent`, `BadRequest`, `NotFound`, or an exception that escapes the handler.
- `sequences.dfy` (`Sequences`): order-preserving filtering (JavaScript's `Array.prototype.filter`) and the subsequence relation.
- `todo_app.dfy` (`TodoApp`): the pure cache updates (find, replace-by-id, remove-by-id, the toggled body) with their lemmas. It also holds the `App` class, whose methods are the handlers. Each handler is one step: the server's reply is an input, and the request it sends is an output.
- `todo_form.dfy` (`TodoForm`): JavaScript's `trim`, the blank-title guard, the submitted item, the button caption, and the `AddTodoForm` class with its two fields.
- `scenarios.dfy` (`Scenarios`): request sequences from the test suites, proved from the handlers' contracts. Examples: create then get, update then get, delete then get, type-and-add through the form, the edit round trip, and a creation carried from client to server and back.

Two points where the code is narrower than one might expect; the model follows the code:

- The server does not validate titles. `PostTodo` stores whatever title it is sent, including an empty one. Only the client's form refuses blank titles.
- The store's id policy is "some non-zero id not currently in the table". Nothing in the code relies on ids never being reused, so the model promises freshness only.

## Model

| member | source | states |
|---|---|---|
| `TodoApi.TodoContext.Find` | ToDoList-API/Controllers/TodoController.cs:30 | A key lookup finds an item exactly when the id is a key, and the item found carries that id. |
| `TodoApi.TodoContext.AnyWithId` | ToDoList-API/Controllers/TodoController.cs:96-99 | Scanning the rows for one whose id matches gives the same answer as a key lookup, because every row is stored under its own id. |
| `TodoApi.FreshIdExists` | ToDoList-API/Controllers/TodoController.cs:44-45 | Any finite table leaves some non-zero id unused, so the store can always assign one on insert. |
| `TodoApi.TodoContext.AddAndSave` | ToDoList-API/Controllers/TodoController.cs:44-45 | Id 0 inserts the item under a fresh non-zero id. A free explicit id is kept. A taken id fails with a duplicate key and changes nothing. Rows stay keyed by their ids. |
| `TodoApi.TodoContext.SaveModified` | ToDoList-API/Controllers/TodoController.cs:59-63 | Saving a modified item overwrites its row. It reports a conflict and writes nothing when the row is absent, or when racing requests had it missing at write time. |
| `TodoApi.TodoContext.RemoveAndSave` | ToDoList-API/Controllers/TodoController.cs:90-91 | Removing drops exactly that id and keeps every other row. |
| `TodoApi.TodoController.constructor` | ToDoList-API/Controllers/TodoController.cs:14-17 | A new controller works on the data context it is given, and starts valid when that context is. |
| `TodoApi.TodoController.GetTodos` | ToDoList-API/Controllers/TodoController.cs:21-24 | The list holds every row of the table exactly once and nothing else, so its length is the table's size. The table is not changed. |
| `TodoApi.TodoController.GetTodo` | ToDoList-API/Controllers/TodoController.cs:28-38 | Answers `Ok` with the stored item when the id is present, and `NotFound` otherwise. The table is not changed. |
| `TodoApi.TodoController.PostTodo` | ToDoList-API/Controllers/TodoController.cs:42-48 | An id-0 body adds exactly one row, under a fresh non-zero id, with the submitted title and isComplete. It answers `Created` with that row. The title is not checked. |
| `TodoApi.TodoController.PutTodo` | ToDoList-API/Controllers/TodoController.cs:52-78 | When the path id differs from the body's, it answers `BadRequest` and the table is untouched. When the row exists, it replaces the row's fields, answers `Ok(body)`, and leaves every other row alone. A conflict with the row gone answers `NotFound`. A conflict with the row present lets the exception escape. In both conflict cases the table is unchanged. |
| `TodoApi.TodoController.DeleteTodo` | ToDoList-API/Controllers/TodoController.cs:82-94 | When the id is present, it removes exactly that row and answers `NoContent`. When absent, it answers `NotFound` and changes nothing. |
| `TodoApi.TodoController.TodoExists` | ToDoList-API/Controllers/TodoController.cs:96-99 | Holds exactly when the table has a row for the id. |
| `Sequences.Filter` | todo-list-react/src/App.tsx:92 | The filtered list holds each element satisfying the predicate exactly as often as the input does, and no other element. |
| `Sequences.FilterIsSubsequence` | todo-list-react/src/App.tsx:106 | Filtering keeps the surviving elements in their original relative order. |
| `Sequences.SubsequenceMembers` | todo-list-react/src/App.tsx:92 | Everything left after dropping items was in the original list. |
| `TodoApp.FindById` | todo-list-react/src/App.tsx:70-71 | Finds nothing exactly when no cached item has the id. Otherwise it returns the first cached item with that id. |
| `TodoApp.ReplaceById` | todo-list-react/src/App.tsx:51 | Every cached item with the id becomes the reply. The length, and every other item in its position, are preserved. |
| `TodoApp.RemoveById` | todo-list-react/src/App.tsx:92 | No item with the id remains. Every other item keeps its multiplicity and its relative order. |
| `TodoApp.Toggled` | todo-list-react/src/App.tsx:73-76 | The toggle body is the cached item with the same id and title and isComplete inverted. |
| `TodoApp.FindAfterReplace` | todo-list-react/src/App.tsx:78 | After a successful update or toggle whose reply keeps the id, looking the id up in the cache finds the reply. |
| `TodoApp.ToggleTwiceRestores` | todo-list-react/src/App.tsx:70-78 | With unique cached ids, two toggles of an item that the server echoes restore the cache exactly. |
| `TodoApp.RemoveAbsentIsIdentity` | todo-list-react/src/App.tsx:92 | Deleting an id the cache does not hold leaves the cache as it was. |
| `TodoApp.ReplaceKeepsUniqueIds` | todo-list-react/src/App.tsx:51 | An update whose reply keeps the id cannot make two cached items share an id. |
| `TodoApp.AppendFreshKeepsUniqueIds` | todo-list-react/src/App.tsx:55 | Appending a created item whose id is not cached keeps cached ids unique. |
| `TodoApp.RemoveKeepsUniqueIds` | todo-list-react/src/App.tsx:92 | A deletion keeps cached ids unique. |
| `TodoApp.App.constructor` | todo-list-react/src/App.tsx:13-17 | A new App has an empty cache, is loading, has no error, hides completed items and has no edit selection. |
| `TodoApp.App.FetchTodos` | todo-list-react/src/App.tsx:23-41 | On success the cache is the reply and the error is cleared. On failure the fetch message is set and the cache is kept. Loading is off afterwards. |
| `TodoApp.App.AddOrUpdateTodo` | todo-list-react/src/App.tsx:43-64 | A non-zero id sends a PUT of the item and replaces matching cache entries with the reply. Id 0 sends a POST of the title with isComplete false and appends the reply. A failure keeps the cache and sets the add or update message. Either way the edit selection is cleared and loading is off. |
| `TodoApp.App.ToggleTodo` | todo-list-react/src/App.tsx:66-85 | When the id is not cached, nothing is sent and the cache is kept (the error is still cleared). Otherwise it sends the first match, inverted, and on success replaces the matching entries with the reply. A failure keeps the cache and sets the update message. |
| `TodoApp.App.DeleteTodo` | todo-list-react/src/App.tsx:87-99 | Sends a DELETE. On success every cached item with the id is dropped. On failure the cache is kept and the delete message is set. Loading is off afterwards. |
| `TodoApp.App.HandleEdit` | todo-list-react/src/App.tsx:101-104 | Selects the item for editing and changes nothing else. |
| `TodoApp.App.ToggleShowCompleted` | todo-list-react/src/App.tsx:130 | Flips the completed-items view flag and changes nothing else. |
| `TodoApp.App.FilteredTodos` | todo-list-react/src/App.tsx:106 | With completed items shown, this is the whole cache. Otherwise it is exactly the incomplete cached items, with their multiplicities, in cache order. |
| `TodoForm.TrimStart` | todo-list-react/src/components/AddTodoForm.tsx:29 | Drops a prefix made only of whitespace or line terminators, and stops at the first other character. |
| `TodoForm.TrimEnd` | todo-list-react/src/components/AddTodoForm.tsx:29 | Drops a suffix made only of whitespace or line terminators, and stops at the last other character. |
| `TodoForm.Trim` | todo-list-react/src/components/AddTodoForm.tsx:29 | The trimmed title is a contiguous middle part of the title. Everything cut off before and after it is whitespace or a line terminator, and it neither starts nor ends with one. |
| `TodoForm.IsBlank` | todo-list-react/src/components/AddTodoForm.tsx:29 | The submit guard holds exactly when every character of the title is whitespace or a line terminator. The empty title is one case of this. |
| `TodoForm.SubmitPayload` | todo-list-react/src/components/AddTodoForm.tsx:31-35 | The submitted item carries the edited item's id, or 0 when nothing is being edited. The title is as typed, untrimmed. isComplete is the checkbox value. |
| `TodoForm.ButtonLabel` | todo-list-react/src/components/AddTodoForm.tsx:54 | The caption is "Update" exactly when an item is being edited, and "Add" exactly when none is. |
| `TodoForm.PrefilledPayloadIsItem` | todo-list-react/src/components/AddTodoForm.tsx:16-35 | Submitting the fields prefilled from an item hands back that very item. |
| `TodoForm.AddTodoForm.constructor` | todo-list-react/src/components/AddTodoForm.tsx:11-12 | A new form has an empty title and an unticked checkbox. |
| `TodoForm.AddTodoForm.OnEditingTodoChanged` | todo-list-react/src/components/AddTodoForm.tsx:14-25 | A selected item prefills the title and checkbox from that item. A cleared selection resets them to `''` and unticked. |
| `TodoForm.AddTodoForm.SetTitle` | todo-list-react/src/components/AddTodoForm.tsx:50 | Typing sets the title and keeps the checkbox. |
| `TodoForm.AddTodoForm.SetIsComplete` | todo-list-react/src/components/AddTodoForm.tsx:64 | Ticking sets the checkbox and keeps the title. |
| `TodoForm.AddTodoForm.HandleSubmit` | todo-list-react/src/components/AddTodoForm.tsx:27-38 | A blank title submits nothing and leaves both fields unchanged. Any other title submits the payload and resets the fields to `''` and unticked. |
| `Scenarios.PostThenGet` | ToDoList-API-Tests/Controllers/TodoControllerNetworkTests.cs:67-85 | After a create, a get by the assigned id returns the created item: same id, same title. |
| `Scenarios.PostPutGet` | ToDoList-API-Tests/Controllers/TodoControllerNetworkTests.cs:87-109 | Creating, then updating with new fields at the assigned id, answers `Ok` with those fields, and a later get returns the same item. |
| `Scenarios.PostDeleteGet` | ToDoList-API-Tests/Controllers/TodoControllerTests.cs:111-128 | Creating then deleting answers `NoContent`. A later get and a second delete both answer `NotFound`, and the table ends as it began. |
| `Scenarios.TypeAndAdd` | todo-list-react/src/__tests__/App.test.tsx:18-30 | A non-blank title typed into an idle form is sent as a creation of that title, and on success it is appended to the cache. A blank title sends nothing. |
| `Scenarios.EditRoundTrip` | todo-list-react/src/__tests__/App.test.tsx:124-149 | Selecting an item for edit prefills the form. A non-blank retyped title is sent as an update of that id with the new title and the item's checkbox. A confirmed reply replaces the item in the cache, and the form ends empty once the selection clears. |
| `Scenarios.CreateEndToEnd` | todo-list-react/src/App.tsx:52-55 | A client creation is stored by the server under a fresh non-zero id with the title and isComplete false. The client's cache ends with exactly that stored item. |
| `Scenarios.ToggleHidesWhenCompletedHidden` | todo-list-react/src/__tests__/App.test.tsx:70-103 | While completed items are hidden, a confirmed toggle of the only (incomplete) item removes it from the displayed list. |

## Left out

- Host configuration (ToDoList-API/Program.cs) is configuration and I/O. This covers dependency injection, choosing SQL Server or the in-memory store, Swagger, health checks, CORS and console logging.
- The object-relational mapper's change tracking is not modelled. The data context is only its `Todos` table, and each store call is one atomic step on it.
- The store's key-generation policy is not modelled beyond "some fresh non-zero id". A specific counter, or "never reuse a deleted id", is not modelled.
- TodoApi.TodoContext.AddAndSave: an explicit non-zero id follows the in-memory store (kept if free, duplicate key if taken). SQL Server identity columns refuse explicit ids; that is not modelled.
- The `Location` header and route values of the `Created` answer are framework routing.
- Real concurrency is not modelled. Each request is one atomic step. A racing delete that has already happened is simply an absent row. The input `concurrentChange` of `PutTodo` stands for the one interleaving a single step cannot show: the row was missing when the write reached the store, yet is present when the handler re-checks. Only that input makes the rethrow branch reachable. async/await interleaving in the client and its stale reads of `todos` are not modelled.
- HTTP transport (axios), status codes as numbers, `console.log`/`console.error` calls, and the environment-derived base URL are I/O. Requests are returned as values and replies are passed in.
- The mount effect that runs the first fetch (todo-list-react/src/App.tsx:19-21) is not modelled as a separate member. A mounted App is the constructor followed by `FetchTodos`.
- Loading stays true while a request is in flight. In the model a handler is one step, so only the final `isLoading = false` is visible.
- Rendering is not modelled: JSX, the "Loading..." and error screens, the "Mark as Complete" checkbox that shows only while editing, the disabled inputs while loading, and CSS.
- TodoItem.tsx and TodoList.tsx are presentational components that only forward callbacks.
- vite.config.ts is development-proxy logging, and vite-env.d.ts holds type declarations only.
- Ids are unbounded integers. The server's ids are 32-bit C# `int` (ToDoList-API/Controllers/TodoController.cs:28, 52, 82) and the client's are JavaScript numbers. `TodoApi.FreshIdExists` relies on ids being unbounded; a table holding every 32-bit id is not modelled.
- JavaScript truthiness of a `NaN` id is not modelled; ids are integers, and only 0 is falsy.
- Test files are not modelled. The `Scenarios` module restates a few of their sequences as proved methods.
