/** Request sequences that exercise several handlers in a row, as the API's
    integration tests and the client's component tests do. Each one is proved
    from the handlers' contracts alone. */
module Scenarios {
  import opened TodoModel
  import TodoApi
  import TodoApp
  import TodoForm

  /** POST then GET by the assigned id finds the created item. */
  method PostThenGet(c: TodoApi.TodoController, title: string)
    returns (created: TodoApi.Response, fetched: TodoApi.Response)
    requires c.Valid()
    modifies c.context
    ensures c.Valid()
    ensures created.Created? && created.item.id != 0 && created.item.title == title
    ensures fetched == TodoApi.Ok(created.item)
  {
    created := c.PostTodo(Todo(0, title, false));
    fetched := c.GetTodo(created.item.id);
  }

  /** POST, then PUT new fields at the assigned id, then GET: the update is
      answered with the new item and the GET reflects it. */
  method PostPutGet(c: TodoApi.TodoController, title: string, newTitle: string, newIsComplete: bool)
    returns (updated: TodoApi.Response, fetched: TodoApi.Response)
    requires c.Valid()
    modifies c.context
    ensures c.Valid()
    ensures updated.Ok? && updated.item.title == newTitle && updated.item.isComplete == newIsComplete
    ensures fetched == updated
  {
    var created := c.PostTodo(Todo(0, title, false));
    var n := created.item.id;
    updated := c.PutTodo(n, Todo(n, newTitle, newIsComplete), false);
    fetched := c.GetTodo(n);
  }

  /** POST, DELETE, then GET and DELETE again: the item is gone for good. */
  method PostDeleteGet(c: TodoApi.TodoController, title: string)
    returns (deleted: TodoApi.Response, fetched: TodoApi.Response, deletedAgain: TodoApi.Response)
    requires c.Valid()
    modifies c.context
    ensures c.Valid()
    ensures deleted == TodoApi.NoContent
    ensures fetched == TodoApi.NotFound && deletedAgain == TodoApi.NotFound
    ensures c.context.todos == old(c.context.todos)
  {
    var created := c.PostTodo(Todo(0, title, false));
    var n := created.item.id;
    deleted := c.DeleteTodo(n);
    fetched := c.GetTodo(n);
    deletedAgain := c.DeleteTodo(n);
  }

  /** A title typed into an empty form and submitted reaches the App as a new
      item and is sent as a creation; a blank one sends nothing. */
  method TypeAndAdd(form: TodoForm.AddTodoForm, app: TodoApp.App, typed: string, reply: Reply<Todo>)
    returns (sent: Option<TodoApp.Request>)
    requires app.editingTodo == None
    modifies form, app
    ensures TodoForm.IsBlank(typed) ==> sent == None && app.todos == old(app.todos)
    ensures !TodoForm.IsBlank(typed) ==> sent == Some(TodoApp.Post(typed, false))
    ensures !TodoForm.IsBlank(typed) && reply.Success? ==> app.todos == old(app.todos) + [reply.data]
  {
    form.SetTitle(typed);
    var submitted := form.HandleSubmit(app.editingTodo);
    if submitted.None? {
      return None;
    }
    var request := app.AddOrUpdateTodo(submitted.value, reply);
    sent := Some(request);
  }

  /** Edit, retype the title, submit, and clear: the form prefills from the
      selected item, the retyped title reaches the update's body with the
      item's id and checkbox, the reply replaces the item in the cache, and
      the form ends empty once the App clears its selection. */
  method EditRoundTrip(form: TodoForm.AddTodoForm, app: TodoApp.App, e: Todo, newTitle: string, reply: Reply<Todo>)
    returns (sent: Option<TodoApp.Request>)
    requires e.id != 0 && !TodoForm.IsBlank(newTitle)
    modifies form, app
    ensures sent == Some(TodoApp.Put(e.id, e.(title := newTitle)))
    ensures reply.Success? ==> app.todos == TodoApp.ReplaceById(old(app.todos), e.id, reply.data)
    ensures app.editingTodo == None && form.title == "" && !form.isComplete
  {
    app.HandleEdit(e);
    form.OnEditingTodoChanged(app.editingTodo);
    form.SetTitle(newTitle);
    var submitted := form.HandleSubmit(app.editingTodo);
    var request := app.AddOrUpdateTodo(submitted.value, reply);
    form.OnEditingTodoChanged(app.editingTodo);
    sent := Some(request);
  }

  /** A creation carried end to end: the App's POST body is bound on the
      server as an item with id 0, the server stores it under a fresh id, and
      the App appends the stored item to its cache. */
  method CreateEndToEnd(c: TodoApi.TodoController, app: TodoApp.App, title: string)
    returns (stored: Todo)
    requires c.Valid()
    modifies c.context, app
    ensures c.Valid()
    ensures stored.id != 0 && stored.title == title && !stored.isComplete
    ensures stored.id !in old(c.context.todos) && c.context.todos == old(c.context.todos)[stored.id := stored]
    ensures app.todos == old(app.todos) + [stored] && app.error == None
  {
    var sent: TodoApp.Request := TodoApp.Post(title, false);
    var response := c.PostTodo(Todo(0, sent.title, sent.isComplete));
    stored := response.item;
    var request := app.AddOrUpdateTodo(Todo(0, title, false), Success(stored));
    assert request == sent;
  }

  /** With completed items hidden, toggling an incomplete item that the
      server confirms makes it disappear from the displayed list. */
  method ToggleHidesWhenCompletedHidden(app: TodoApp.App, x: Todo)
    requires app.todos == [x] && !x.isComplete && !app.showCompleted
    modifies app
    ensures app.todos == [TodoApp.Toggled(x)]
    ensures app.FilteredTodos() == []
  {
    var sent := app.ToggleTodo(x.id, Success(TodoApp.Toggled(x)));
    assert app.todos[0].isComplete;
  }
}
