/** The REST controller for `api/todos` and the table it reads and writes.
    The object-relational mapper is replaced by a table of rows keyed by id;
    each handler runs as one atomic step against that table. */
module TodoApi {
  import opened TodoModel

  /** Why a handler ended with an exception instead of a response. */
  datatype Fault =
    | ConcurrencyConflict  // the save of a modified row affected no row
    | DuplicateKey         // an insert named a key the table already holds

  /** What a handler sends back: the HTTP result kinds the controller uses,
      plus an exception that escapes the handler. */
  datatype Response =
    | Ok(item: Todo)          // 200 with the item
    | Created(item: Todo)     // 201 with the created item
    | NoContent               // 204
    | BadRequest              // 400
    | NotFound                // 404
    | Propagated(fault: Fault)

  /** Every row is stored under its own id. */
  ghost predicate KeyedById(t: map<int, Todo>) {
    forall k :: k in t ==> t[k].id == k
  }

  /** A finite set of ids always leaves some non-zero id unused. */
  lemma {:induction false} FreshIdExists(used: set<int>)
    ensures exists n :: n != 0 && n !in used
  {
    var b := UpperBound(used);
    assert b != 0 && b !in used;
  }

  /** A set that is not empty has a member to pick. */
  lemma NonEmptyHasMember(s: set<int>)
    requires s != {}
    ensures exists x :: x in s
  {
    if forall x :: x !in s {
      assert false;
    }
  }

  /** Some positive number above every used id. */
  lemma {:induction false} UpperBound(used: set<int>) returns (b: int)
    ensures b > 0
    ensures forall k :: k in used ==> k < b
    decreases used
  {
    if used == {} {
      b := 1;
    } else {
      NonEmptyHasMember(used);
      var k :| k in used;
      var rest := UpperBound(used - {k});
      b := if k < rest then rest else k + 1;
      forall j | j in used ensures j < b {
        if j != k { assert j in used - {k}; }
      }
    }
  }

  /** The `Todos` table of the data context: the rows, keyed by id. */
  class TodoContext {
    var todos: map<int, Todo>

    ghost predicate Valid()
      reads this
    {
      KeyedById(todos)
    }

    constructor (rows: map<int, Todo>)
      requires KeyedById(rows)
      ensures Valid() && todos == rows
    {
      todos := rows;
    }

    /** Lookup by primary key (`FindAsync`). */
    function Find(id: int): (r: Option<Todo>)
      reads this
      requires Valid()
      ensures r.Some? <==> id in todos
      ensures r.Some? ==> r.value == todos[id] && r.value.id == id
    {
      if id in todos then Some(todos[id]) else None
    }

    /** Whether some row carries `id` (`Any(e => e.Id == id)`): a scan of the
        rows' ids, which agrees with the key lookup. */
    predicate AnyWithId(id: int)
      reads this
      requires Valid()
      ensures AnyWithId(id) <==> id in todos
    {
      exists j :: j in todos && todos[j].id == id
    }

    /** `Add` followed by `SaveChangesAsync`. An item whose id is 0 gets some
        fresh non-zero id from the store; an item with an explicit id keeps it,
        and the save fails if that id is taken. */
    method AddAndSave(item: Todo) returns (r: Response)
      requires Valid()
      modifies this
      ensures Valid()
      ensures item.id == 0 ==>
        && r.Created?
        && r.item.id != 0 && r.item.id !in old(todos)
        && r.item == item.(id := r.item.id)
        && todos == old(todos)[r.item.id := r.item]
      ensures item.id != 0 && item.id !in old(todos) ==>
        r == Created(item) && todos == old(todos)[item.id := item]
      ensures item.id != 0 && item.id in old(todos) ==>
        r == Propagated(DuplicateKey) && todos == old(todos)
    {
      if item.id == 0 {
        FreshIdExists(todos.Keys);
        var n :| n != 0 && n !in todos;
        var stored := item.(id := n);
        todos := todos[n := stored];
        r := Created(stored);
      } else if item.id !in todos {
        todos := todos[item.id := item];
        r := Created(item);
      } else {
        r := Propagated(DuplicateKey);
      }
    }

    /** `SaveChangesAsync` for an item marked Modified: the row with the item's
        id takes the item's fields. The save reports a concurrency conflict and
        writes nothing when it affects no row: when the row is absent, or when
        `concurrentChange` says that other requests racing with this one had
        the row missing at the moment the write reached the store. */
    method SaveModified(item: Todo, concurrentChange: bool) returns (conflict: bool)
      requires Valid()
      modifies this
      ensures Valid()
      ensures conflict <==> item.id !in old(todos) || concurrentChange
      ensures todos == if conflict then old(todos) else old(todos)[item.id := item]
    {
      conflict := item.id !in todos || concurrentChange;
      if !conflict {
        todos := todos[item.id := item];
      }
    }

    /** `Remove` followed by `SaveChangesAsync`. */
    method RemoveAndSave(id: int)
      requires Valid()
      modifies this
      ensures Valid()
      ensures id !in todos
      ensures todos == old(todos) - {id}
    {
      todos := todos - {id};
    }
  }

  /** The `api/todos` resource handlers. */
  class TodoController {
    const context: TodoContext

    ghost predicate Valid()
      reads this, context
    {
      context.Valid()
    }

    constructor (context: TodoContext)
      requires context.Valid()
      ensures this.context == context && Valid()
    {
      this.context := context;
    }

    /** GET api/todos: every row exactly once (in the order the store
        enumerates them); nothing changes. */
    method GetTodos() returns (items: seq<Todo>)
      requires Valid()
      ensures |items| == |context.todos|
      ensures forall i :: 0 <= i < |items| ==>
        items[i].id in context.todos && context.todos[items[i].id] == items[i]
      ensures forall i, j :: 0 <= i < j < |items| ==> items[i].id != items[j].id
      ensures forall k :: k in context.todos ==> context.todos[k] in items
    {
      var rows := context.todos;
      var pending := rows.Keys;
      items := [];
      while pending != {}
        invariant pending <= rows.Keys
        invariant |items| + |pending| == |rows|
        invariant forall i :: 0 <= i < |items| ==>
          items[i].id in rows && rows[items[i].id] == items[i] && items[i].id !in pending
        invariant forall i, j :: 0 <= i < j < |items| ==> items[i].id != items[j].id
        invariant forall k :: k in rows && k !in pending ==> rows[k] in items
        decreases pending
      {
        NonEmptyHasMember(pending);
        var k :| k in pending;
        items := items + [rows[k]];
        pending := pending - {k};
      }
    }

    /** GET api/todos/{id}: the stored item, or NotFound; nothing changes. */
    method GetTodo(id: int) returns (r: Response)
      requires Valid()
      ensures id in context.todos ==> r == Ok(context.todos[id]) && r.item.id == id
      ensures id !in context.todos ==> r == NotFound
    {
      var todo := context.Find(id);
      if todo.None? {
        return NotFound;
      }
      return Ok(todo.value);
    }

    /** POST api/todos: inserts the body as sent (the title is not checked)
        and answers Created with the stored item. */
    method PostTodo(todo: Todo) returns (r: Response)
      requires Valid()
      modifies context
      ensures Valid()
      ensures todo.id == 0 ==>
        && r.Created?
        && r.item.id != 0 && r.item.id !in old(context.todos)
        && r.item.title == todo.title && r.item.isComplete == todo.isComplete
        && context.todos == old(context.todos)[r.item.id := r.item]
      ensures todo.id != 0 && todo.id !in old(context.todos) ==>
        r == Created(todo) && context.todos == old(context.todos)[todo.id := todo]
      ensures todo.id != 0 && todo.id in old(context.todos) ==>
        r == Propagated(DuplicateKey) && context.todos == old(context.todos)
    {
      r := context.AddAndSave(todo);
    }

    /** PUT api/todos/{id}: a full replace of the row's title and isComplete.
        A path id that differs from the body's is refused before the table is
        touched; a conflicting save leaves the table as it was and becomes
        NotFound when the row is gone, and escapes otherwise. */
    method PutTodo(id: int, todo: Todo, concurrentChange: bool) returns (r: Response)
      requires Valid()
      modifies context
      ensures Valid()
      ensures id != todo.id ==> r == BadRequest && context.todos == old(context.todos)
      ensures id == todo.id && id in old(context.todos) && !concurrentChange ==>
        r == Ok(todo) && context.todos == old(context.todos)[id := todo]
      ensures id == todo.id && id !in old(context.todos) ==>
        r == NotFound && context.todos == old(context.todos)
      ensures id == todo.id && id in old(context.todos) && concurrentChange ==>
        r == Propagated(ConcurrencyConflict) && context.todos == old(context.todos)
    {
      if id != todo.id {
        return BadRequest;
      }
      var conflict := context.SaveModified(todo, concurrentChange);
      if conflict {
        r := if !TodoExists(id) then NotFound else Propagated(ConcurrencyConflict);
        return;
      }
      return Ok(todo);
    }

    /** DELETE api/todos/{id}: removes exactly that row, or answers NotFound
        and changes nothing. */
    method DeleteTodo(id: int) returns (r: Response)
      requires Valid()
      modifies context
      ensures Valid()
      ensures id in old(context.todos) ==>
        r == NoContent && context.todos == old(context.todos) - {id}
      ensures id !in old(context.todos) ==>
        r == NotFound && context.todos == old(context.todos)
    {
      var todo := context.Find(id);
      if todo.None? {
        return NotFound;
      }
      context.RemoveAndSave(todo.value.id);
      return NoContent;
    }

    predicate TodoExists(id: int)
      reads this, context
      requires Valid()
      ensures TodoExists(id) <==> id in context.todos
    {
      context.AnyWithId(id)
    }
  }
}
