/**
 * The in-memory step of the todo HTTP service: each route reads the stored
 * list, changes it, writes it back and answers with a status and a JSON body.
 * The stored list is the field `todos` of a `TodoStore`, which keeps it
 * between requests in place of the backing file.
 */
module TodoServer {
  import opened Wrappers
  import opened Text

  /** One stored record. `id` is the creation time in milliseconds as text, so two records may share it. */
  datatype Todo = Todo(id: string, title: string, done: bool, createdAt: string)

  /** The JSON a route answers with. */
  datatype Body = TodoJson(todo: Todo) | ListJson(todos: seq<Todo>) | ErrorJson(error: string) | NoBody

  /** What reading the backing file finds: no file, an empty file, text that does not parse, or a list. */
  datatype StoredTodos = Missing | Blank | Unreadable | Parsed(todos: seq<Todo>)

  const TitleRequired := "Title is required"
  const NotFound := "Todo not found"

  predicate HasId(s: seq<Todo>, id: string) {
    exists k :: 0 <= k < |s| && s[k].id == id
  }

  /** `i` is what `findIndex(t => t.id === id)` finds: the first record carrying `id`. */
  predicate IsFirstIndex(s: seq<Todo>, id: string, i: int) {
    0 <= i < |s| && s[i].id == id && forall k :: 0 <= k < i ==> s[k].id != id
  }

  function Flipped(t: Todo): Todo {
    t.(done := !t.done)
  }

  /** The list after flipping `done` on the first record with `id`, read as a recursion over the list. */
  function ToggleFirst(s: seq<Todo>, id: string): (r: seq<Todo>)
    ensures |r| == |s|
  {
    if s == [] then []
    else if s[0].id == id then [Flipped(s[0])] + s[1..]
    else [s[0]] + ToggleFirst(s[1..], id)
  }

  /** Toggling changes the first matching record and nothing else, later records with the same id included. */
  lemma {:induction false} ToggleFirstAt(s: seq<Todo>, id: string, i: int)
    requires IsFirstIndex(s, id, i)
    ensures ToggleFirst(s, id) == s[i := Flipped(s[i])]
  {
    if i > 0 {
      ToggleFirstAt(s[1..], id, i - 1);
    }
  }

  /** Toggling an id no record carries leaves the list as it was. */
  lemma {:induction false} ToggleAbsent(s: seq<Todo>, id: string)
    requires !HasId(s, id)
    ensures ToggleFirst(s, id) == s
  {
    if s != [] {
      ToggleAbsent(s[1..], id);
    }
  }

  /** Toggling the same id twice restores the original list. */
  lemma {:induction false} ToggleTwice(s: seq<Todo>, id: string)
    ensures ToggleFirst(ToggleFirst(s, id), id) == s
  {
    if s != [] && s[0].id != id {
      ToggleTwice(s[1..], id);
      assert ToggleFirst(s, id)[1..] == ToggleFirst(s[1..], id);
    }
  }

  /** `todos.filter(t => t.id !== id)`: every record with `id` goes, the others stay. */
  function Without(s: seq<Todo>, id: string): (r: seq<Todo>)
    ensures forall t :: t in r <==> t in s && t.id != id
    ensures |r| <= |s|
    ensures |r| == |s| <==> !HasId(s, id)
    ensures !HasId(s, id) ==> r == s
  {
    if s == [] then []
    else
      assert HasId(s, id) <==> s[0].id == id || HasId(s[1..], id) by {
        if HasId(s[1..], id) {
          var k :| 0 <= k < |s[1..]| && s[1..][k].id == id;
          assert s[k + 1].id == id;
        }
        if HasId(s, id) && s[0].id != id {
          var k :| 0 <= k < |s| && s[k].id == id;
          assert s[1..][k - 1].id == id;
        }
      }
      if s[0].id == id then Without(s[1..], id) else [s[0]] + Without(s[1..], id)
  }

  /** Filtering keeps order: it distributes over concatenation. */
  lemma {:induction false} WithoutAppend(a: seq<Todo>, b: seq<Todo>, id: string)
    ensures Without(a + b, id) == Without(a, id) + Without(b, id)
  {
    if a != [] {
      assert (a + b)[0] == a[0] && (a + b)[1..] == a[1..] + b;
      WithoutAppend(a[1..], b, id);
    } else {
      assert a + b == b;
    }
  }

  /** After a delete no record carries the id, so deleting it again is not found. */
  lemma WithoutRemovesId(s: seq<Todo>, id: string)
    ensures !HasId(Without(s, id), id)
    ensures Without(Without(s, id), id) == Without(s, id)
  {
  }

  /**
   * Two records created in the same millisecond share an id. Toggling that id
   * flips only the older one; deleting it removes both.
   */
  lemma SameMillisecondRecords(s: seq<Todo>, older: Todo, newer: Todo)
    requires older.id == newer.id && !HasId(s, older.id)
    ensures ToggleFirst(s + [older, newer], older.id) == s + [Flipped(older), newer]
    ensures Without(s + [older, newer], older.id) == s
  {
    var all := s + [older, newer];
    assert IsFirstIndex(all, older.id, |s|);
    ToggleFirstAt(all, older.id, |s|);
    assert all[|s| := Flipped(older)] == s + [Flipped(older), newer];
    WithoutAppend(s, [older, newer], older.id);
    assert [older, newer][1..] == [newer];
  }

  /** The `findIndex` scan: the first index carrying `id`, or -1 when there is none. */
  method FindIndex(s: seq<Todo>, id: string) returns (idx: int)
    ensures idx == -1 <==> !HasId(s, id)
    ensures idx != -1 ==> IsFirstIndex(s, id, idx)
  {
    var i := 0;
    while i < |s|
      invariant 0 <= i <= |s|
      invariant forall k :: 0 <= k < i ==> s[k].id != id
    {
      if s[i].id == id {
        return i;
      }
      i := i + 1;
    }
    return -1;
  }

  class TodoStore {
    var todos: seq<Todo>

    /** `readTodos`: a missing, empty or unreadable file reads as the empty list. */
    constructor (stored: StoredTodos)
      ensures todos == (if stored.Parsed? then stored.todos else [])
    {
      match stored
      case Parsed(s) => todos := s;
      case _ => todos := [];
    }

    /** GET /todos: the whole list. */
    method List() returns (status: int, body: Body)
      ensures status == 200 && body == ListJson(todos)
    {
      status, body := 200, ListJson(todos);
    }

    /**
     * POST /todos. A missing or whitespace-only title is refused with 400 and
     * the list is untouched; otherwise a record with the trimmed title, not
     * done, and the given clock values is appended and answered with 201.
     */
    method Create(title: Option<string>, id: string, createdAt: string) returns (status: int, body: Body)
      modifies this
      ensures title.None? || AllWhitespace(title.value) ==>
        status == 400 && body == ErrorJson(TitleRequired) && todos == old(todos)
      ensures title.Some? && !AllWhitespace(title.value) ==>
        && status == 201
        && body == TodoJson(Todo(id, Trim(title.value), false, createdAt))
        && todos == old(todos) + [body.todo]
    {
      if title.None? || Trim(title.value) == [] {
        return 400, ErrorJson(TitleRequired);
      }
      var newTodo := Todo(id, Trim(title.value), false, createdAt);
      todos := todos + [newTodo];
      status, body := 201, TodoJson(newTodo);
    }

    /**
     * PATCH /todos/:id/toggle. An unknown id is 404 with the list untouched;
     * otherwise the first record with the id has `done` flipped, no other
     * record changes, and that record is answered with 200.
     */
    method Toggle(id: string) returns (status: int, body: Body)
      modifies this
      ensures todos == ToggleFirst(old(todos), id)
      ensures !HasId(old(todos), id) ==>
        status == 404 && body == ErrorJson(NotFound) && todos == old(todos)
      ensures HasId(old(todos), id) ==>
        && status == 200
        && exists i :: IsFirstIndex(old(todos), id, i)
                       && todos == old(todos)[i := Flipped(old(todos)[i])]
                       && body == TodoJson(todos[i])
    {
      var idx := FindIndex(todos, id);
      if idx == -1 {
        ToggleAbsent(todos, id);
        return 404, ErrorJson(NotFound);
      }
      ToggleFirstAt(todos, id, idx);
      todos := todos[idx := Flipped(todos[idx])];
      status, body := 200, TodoJson(todos[idx]);
    }

    /**
     * DELETE /todos/:id. Every record with the id is removed, the rest keep
     * their order, and the answer is 204; when nothing was removed the answer
     * is 404 and the list is untouched.
     */
    method Delete(id: string) returns (status: int, body: Body)
      modifies this
      ensures todos == Without(old(todos), id)
      ensures HasId(old(todos), id) ==> status == 204 && body == NoBody
      ensures !HasId(old(todos), id) ==>
        status == 404 && body == ErrorJson(NotFound) && todos == old(todos)
    {
      var filtered := Without(todos, id);
      if |filtered| == |todos| {
        return 404, ErrorJson(NotFound);
      }
      todos := filtered;
      status, body := 204, NoBody;
    }
  }
}
