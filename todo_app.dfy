/** The single-page client's state (App.tsx): a cached copy of the collection
    and the flags around it. Each handler is one atomic step whose server
    reply is an input; the cache updates themselves are pure functions. */
module TodoApp {
  import opened TodoModel
  import opened Sequences

  /** The request a handler sends, with its body. */
  datatype Request =
    | FetchAll                              // GET /api/todos
    | Put(id: int, body: Todo)              // PUT /api/todos/{id}
    | Post(title: string, isComplete: bool) // POST /api/todos
    | Delete(id: int)                       // DELETE /api/todos/{id}

  const FetchFailed := "Failed to fetch todos. Please try again later."
  const AddFailed := "Failed to add todo. Please try again."
  const UpdateFailed := "Failed to update todo. Please try again."
  const DeleteFailed := "Failed to delete todo. Please try again."

  /** `s.find(t => t.id === id)`: the first item carrying `id`, if any. */
  function FindById(s: seq<Todo>, id: int): (r: Option<Todo>)
    ensures r.None? <==> forall i :: 0 <= i < |s| ==> s[i].id != id
    ensures r.Some? ==> r.value.id == id
    ensures r.Some? ==>
      exists i :: 0 <= i < |s| && s[i] == r.value && forall j :: 0 <= j < i ==> s[j].id != id
  {
    if s == [] then None
    else if s[0].id == id then Some(s[0])
    else
      var r := FindById(s[1..], id);
      assert r.Some? ==> exists i :: 1 <= i < |s| && s[i] == r.value && forall j :: 1 <= j < i ==> s[j].id != id;
      r
  }

  /** `s.map(t => t.id === id ? v : t)`: every item carrying `id` becomes `v`;
      the length and every other item, in place, stay as they were. */
  function ReplaceById(s: seq<Todo>, id: int, v: Todo): (r: seq<Todo>)
    ensures |r| == |s|
    ensures forall i :: 0 <= i < |s| ==> r[i] == if s[i].id == id then v else s[i]
  {
    if s == [] then []
    else [if s[0].id == id then v else s[0]] + ReplaceById(s[1..], id, v)
  }

  /** `s.filter(t => t.id !== id)`: no item carrying `id` is left, every other
      item is kept as often as it occurred, in the original order. */
  function RemoveById(s: seq<Todo>, id: int): (r: seq<Todo>)
    ensures forall x :: multiset(r)[x] == if x.id == id then 0 else multiset(s)[x]
    ensures forall i :: 0 <= i < |r| ==> r[i].id != id
    ensures IsSubsequence(r, s)
  {
    FilterIsSubsequence(s, (t: Todo) => t.id != id);
    var r := Filter(s, (t: Todo) => t.id != id);
    assert forall i :: 0 <= i < |r| ==> multiset(r)[r[i]] > 0;
    r
  }

  /** The body a toggle sends: the cached item with `isComplete` inverted. */
  function Toggled(t: Todo): (u: Todo)
    ensures u.id == t.id && u.title == t.title && u.isComplete != t.isComplete
  {
    t.(isComplete := !t.isComplete)
  }

  /** No two cached items carry the same id. */
  ghost predicate UniqueIds(s: seq<Todo>) {
    forall i, j :: 0 <= i < j < |s| ==> s[i].id != s[j].id
  }

  /** With ids unique, the item `FindById` returns is the only one with its id. */
  lemma FoundIsOnly(s: seq<Todo>, id: int, k: int)
    requires UniqueIds(s)
    requires FindById(s, id).Some?
    requires 0 <= k < |s| && s[k].id == id
    ensures s[k] == FindById(s, id).value
  {
  }

  /** After an update or toggle succeeds, looking the id up in the cache finds
      the server's reply, provided the reply keeps the id. */
  lemma FindAfterReplace(s: seq<Todo>, id: int, v: Todo)
    requires v.id == id
    requires FindById(s, id).Some?
    ensures FindById(ReplaceById(s, id, v), id) == Some(v)
  {
  }

  /** Replacing by an item every item with that id already equals changes nothing. */
  lemma ReplaceBySameIsIdentity(s: seq<Todo>, id: int, v: Todo)
    requires forall k :: 0 <= k < |s| && s[k].id == id ==> s[k] == v
    ensures ReplaceById(s, id, v) == s
  {
  }

  /** A second replacement of the same id overrides the first, as long as the
      first kept the id. */
  lemma ReplaceTwice(s: seq<Todo>, id: int, v: Todo, w: Todo)
    requires v.id == id
    ensures ReplaceById(ReplaceById(s, id, v), id, w) == ReplaceById(s, id, w)
  {
  }

  /** Two toggles of the same cached item, each answered by the server with
      the body it was sent, give back the cache as it was. */
  lemma {:induction false} ToggleTwiceRestores(s: seq<Todo>, id: int)
    requires UniqueIds(s)
    requires FindById(s, id).Some?
    ensures
      var t := FindById(s, id).value;
      var once := ReplaceById(s, id, Toggled(t));
      FindById(once, id) == Some(Toggled(t)) &&
      ReplaceById(once, id, Toggled(FindById(once, id).value)) == s
  {
    var t := FindById(s, id).value;
    var once := ReplaceById(s, id, Toggled(t));
    FindAfterReplace(s, id, Toggled(t));
    assert Toggled(Toggled(t)) == t;
    ReplaceTwice(s, id, Toggled(t), t);
    forall k | 0 <= k < |s| && s[k].id == id
      ensures s[k] == t
    {
      FoundIsOnly(s, id, k);
    }
    ReplaceBySameIsIdentity(s, id, t);
  }

  /** Deleting an id the cache does not hold leaves the cache as it was. */
  lemma {:induction false} RemoveAbsentIsIdentity(s: seq<Todo>, id: int)
    requires forall i :: 0 <= i < |s| ==> s[i].id != id
    ensures RemoveById(s, id) == s
  {
    FilterAllKept(s, (t: Todo) => t.id != id);
  }

  /** An update or toggle whose reply keeps the id keeps cached ids unique. */
  lemma ReplaceKeepsUniqueIds(s: seq<Todo>, id: int, v: Todo)
    requires UniqueIds(s) && v.id == id
    ensures UniqueIds(ReplaceById(s, id, v))
  {
  }

  /** A creation whose reply carries an id not yet cached keeps ids unique. */
  lemma AppendFreshKeepsUniqueIds(s: seq<Todo>, v: Todo)
    requires UniqueIds(s)
    requires forall i :: 0 <= i < |s| ==> s[i].id != v.id
    ensures UniqueIds(s + [v])
  {
  }

  /** A deletion keeps cached ids unique. */
  lemma {:induction false} RemoveKeepsUniqueIds(s: seq<Todo>, id: int)
    requires UniqueIds(s)
    ensures UniqueIds(RemoveById(s, id))
  {
    SubsequenceKeepsUniqueIds(RemoveById(s, id), s);
  }

  /** Dropping items never makes two ids collide. */
  lemma {:induction false} SubsequenceKeepsUniqueIds(r: seq<Todo>, s: seq<Todo>)
    requires UniqueIds(s) && IsSubsequence(r, s)
    ensures UniqueIds(r)
    decreases |s|
  {
    if r != [] {
      if r[0] == s[0] && IsSubsequence(r[1..], s[1..]) {
        SubsequenceKeepsUniqueIds(r[1..], s[1..]);
        SubsequenceMembers(r[1..], s[1..]);
        forall j | 1 <= j < |r|
          ensures r[0].id != r[j].id
        {
          assert r[1..][j - 1] in s[1..];
        }
      } else {
        SubsequenceKeepsUniqueIds(r, s[1..]);
      }
    }
  }

  /** The component state of App. */
  class App {
    var todos: seq<Todo>
    var isLoading: bool
    var error: Option<string>
    var showCompleted: bool
    var editingTodo: Option<Todo>

    /** The state of a freshly mounted App, before its first fetch completes. */
    constructor ()
      ensures todos == [] && isLoading && error == None
      ensures !showCompleted && editingTodo == None
    {
      todos := [];
      isLoading := true;
      error := None;
      showCompleted := false;
      editingTodo := None;
    }

    /** `fetchTodos`: a successful GET replaces the cache with the reply; a
        failed one sets the message and keeps the cache. */
    method FetchTodos(reply: Reply<seq<Todo>>) returns (sent: Request)
      modifies this
      ensures sent == FetchAll
      ensures todos == if reply.Success? then reply.data else old(todos)
      ensures error == if reply.Success? then None else Some(FetchFailed)
      ensures !isLoading
      ensures showCompleted == old(showCompleted) && editingTodo == old(editingTodo)
    {
      isLoading := true;
      error := None;
      sent := FetchAll;
      match reply {
        case Success(data) =>
          todos := data;
        case Failure =>
          error := Some(FetchFailed);
      }
      isLoading := false;
    }

    /** `addOrUpdateTodo`: a non-zero id is an update of that item, id 0 a
        creation whose body is the title with `isComplete` false. Either way
        the edit selection is cleared and loading ends. */
    method AddOrUpdateTodo(todo: Todo, reply: Reply<Todo>) returns (sent: Request)
      modifies this
      ensures sent == if todo.id != 0 then Put(todo.id, todo) else Post(todo.title, false)
      ensures todos ==
        if reply.Failure? then old(todos)
        else if todo.id != 0 then ReplaceById(old(todos), todo.id, reply.data)
        else old(todos) + [reply.data]
      ensures error ==
        if reply.Success? then None
        else if todo.id != 0 then Some(UpdateFailed) else Some(AddFailed)
      ensures !isLoading && editingTodo == None
      ensures showCompleted == old(showCompleted)
    {
      isLoading := true;
      error := None;
      if todo.id != 0 {
        sent := Put(todo.id, todo);
        if reply.Success? {
          todos := ReplaceById(todos, todo.id, reply.data);
        }
      } else {
        sent := Post(todo.title, false);
        if reply.Success? {
          todos := todos + [reply.data];
        }
      }
      if reply.Failure? {
        error := Some(if todo.id != 0 then UpdateFailed else AddFailed);
      }
      isLoading := false;
      editingTodo := None;
    }

    /** `toggleTodo`: sends the first cached item with `id`, inverted, and
        replaces the matching items with the reply. An id that is not cached
        sends nothing and keeps the cache (the message is still cleared). */
    method ToggleTodo(id: int, reply: Reply<Todo>) returns (sent: Option<Request>)
      modifies this
      ensures FindById(old(todos), id).None? ==>
        sent == None && todos == old(todos) && error == None
      ensures FindById(old(todos), id).Some? ==>
        && sent == Some(Put(id, Toggled(FindById(old(todos), id).value)))
        && todos == (if reply.Success? then ReplaceById(old(todos), id, reply.data) else old(todos))
        && error == (if reply.Success? then None else Some(UpdateFailed))
      ensures !isLoading
      ensures showCompleted == old(showCompleted) && editingTodo == old(editingTodo)
    {
      isLoading := true;
      error := None;
      var todoToUpdate := FindById(todos, id);
      if todoToUpdate.None? {
        sent := None;
        isLoading := false;
        return;
      }
      sent := Some(Put(id, Toggled(todoToUpdate.value)));
      match reply {
        case Success(data) =>
          todos := ReplaceById(todos, id, data);
        case Failure =>
          error := Some(UpdateFailed);
      }
      isLoading := false;
    }

    /** `deleteTodo`: on success every cached item with `id` is dropped. */
    method DeleteTodo(id: int, reply: Reply<()>) returns (sent: Request)
      modifies this
      ensures sent == Delete(id)
      ensures todos == if reply.Success? then RemoveById(old(todos), id) else old(todos)
      ensures error == if reply.Success? then None else Some(DeleteFailed)
      ensures !isLoading
      ensures showCompleted == old(showCompleted) && editingTodo == old(editingTodo)
    {
      isLoading := true;
      error := None;
      sent := Delete(id);
      match reply {
        case Success(_) =>
          todos := RemoveById(todos, id);
        case Failure =>
          error := Some(DeleteFailed);
      }
      isLoading := false;
    }

    /** `handleEdit`: selects the item for editing. */
    method HandleEdit(todo: Todo)
      modifies this
      ensures editingTodo == Some(todo)
      ensures todos == old(todos) && isLoading == old(isLoading) && error == old(error)
      ensures showCompleted == old(showCompleted)
    {
      editingTodo := Some(todo);
    }

    /** The "Show Completed" checkbox flips the view filter. */
    method ToggleShowCompleted()
      modifies this
      ensures showCompleted == !old(showCompleted)
      ensures todos == old(todos) && isLoading == old(isLoading) && error == old(error)
      ensures editingTodo == old(editingTodo)
    {
      showCompleted := !showCompleted;
    }

    /** `filteredTodos`, the list handed to the item list for display: the
        whole cache when completed items are shown, otherwise exactly the
        incomplete items, each as often as cached, in cache order. */
    function FilteredTodos(): (r: seq<Todo>)
      reads this
      ensures showCompleted ==> r == todos
      ensures !showCompleted ==>
        && IsSubsequence(r, todos)
        && (forall x :: multiset(r)[x] == if x.isComplete then 0 else multiset(todos)[x])
        && (forall i :: 0 <= i < |r| ==> !r[i].isComplete)
    {
      if showCompleted then todos
      else
        FilterIsSubsequence(todos, (t: Todo) => !t.isComplete);
        var r := Filter(todos, (t: Todo) => !t.isComplete);
        assert forall i :: 0 <= i < |r| ==> multiset(r)[r[i]] > 0;
        r
    }
  }
}
