/**
 * The `/todos` REST handlers over the in-memory `todos` array
 * (typescript-basics-with-api/api.ts). Each handler is a transition from the
 * current array and the parsed request to the next array and the response.
 */
module TodoApi {
  import opened Wrappers
  import opened Http
  import JsArray

  datatype Todo = Todo(id: int, title: Option<string>, completed: bool)

  /** The parsed JSON request body: each key may be absent. Keys other than a todo's are not modelled. */
  datatype TodoBody = TodoBody(id: Option<int>, title: Option<string>, completed: Option<bool>)

  /** The number `parseInt` makes of the `:id` path segment. */
  datatype ParsedId = Num(n: int) | NaN

  datatype Payload = TodoArray(todos: seq<Todo>) | TodoObject(todo: Todo) | Text(text: string) | Empty

  type Store = seq<Todo>

  const TODO_NOT_FOUND := "Todo not found"

  /** `todo.id === id`: never true of NaN. */
  function IdIs(id: ParsedId): Todo -> bool {
    (t: Todo) => id.Num? && t.id == id.n
  }

  /** `todo.id !== id`: the test the delete handler keeps todos by. */
  function IdIsNot(id: ParsedId): Todo -> bool {
    (t: Todo) => !IdIs(id)(t)
  }

  /** The todo at position `i` has id `i + 1`. */
  predicate NumberedByPosition(todos: Store) {
    forall i :: 0 <= i < |todos| ==> todos[i].id == i + 1
  }

  predicate UniqueIds(todos: Store) {
    forall i, j :: 0 <= i < j < |todos| ==> todos[i].id != todos[j].id
  }

  /** `GET /todos`: the array as stored; nothing changes. */
  function List(todos: Store): (out: (Store, Response<Payload>))
    ensures out.0 == todos
    ensures out.1.status == OK && out.1.payload.TodoArray?
    ensures out.1.payload.todos == todos
  {
    (todos, Response(OK, TodoArray(todos)))
  }

  /** The todo `POST /todos` builds: the next id by count, the body's title, not completed. */
  function NewTodo(todos: Store, body: TodoBody): Todo {
    Todo(|todos| + 1, body.title, false)
  }

  /** `POST /todos`: append one todo and answer 201 with it. */
  function Create(todos: Store, body: TodoBody): (out: (Store, Response<Payload>))
    ensures |out.0| == |todos| + 1 && out.0[..|todos|] == todos
    ensures var t := out.0[|todos|];
      t.id == |todos| + 1 && t.title == body.title && !t.completed
    ensures out.1 == Response(CREATED, TodoObject(out.0[|todos|]))
  {
    var t := NewTodo(todos, body);
    (todos + [t], Response(CREATED, TodoObject(t)))
  }

  /** `{ ...todo, ...body }`: every key present in the body wins, including `id`. */
  function Merge(t: Todo, body: TodoBody): (m: Todo)
    ensures m.id == (if body.id.Some? then body.id.value else t.id)
    ensures m.title == (if body.title.Some? then body.title else t.title)
    ensures m.completed == (if body.completed.Some? then body.completed.value else t.completed)
  {
    Todo(body.id.GetOr(t.id),
         if body.title.Some? then body.title else t.title,
         body.completed.GetOr(t.completed))
  }

  /** An empty body changes nothing, and merging the same body twice is merging it once. */
  lemma MergeLaws(t: Todo, body: TodoBody)
    ensures Merge(t, TodoBody(None, None, None)) == t
    ensures Merge(Merge(t, body), body) == Merge(t, body)
  {
  }

  /** `PUT /todos/:id`: merge the body into the first todo with that id, or answer 404. */
  function Update(todos: Store, id: ParsedId, body: TodoBody): (out: (Store, Response<Payload>))
    ensures (forall i :: 0 <= i < |todos| ==> !IdIs(id)(todos[i])) <==> out.1.status == NOT_FOUND
    ensures out.1.status == NOT_FOUND ==> out == (todos, Response(NOT_FOUND, Text(TODO_NOT_FOUND)))
    ensures out.1.status != NOT_FOUND ==>
      exists k :: JsArray.IsFirstIndex(todos, IdIs(id), k)
        && out.0 == todos[k := Merge(todos[k], body)]
        && out.1 == Response(OK, TodoObject(Merge(todos[k], body)))
  {
    var k := JsArray.FindIndex(todos, IdIs(id));
    if k > -1 then
      var m := Merge(todos[k], body);
      (todos[k := m], Response(OK, TodoObject(m)))
    else
      (todos, Response(NOT_FOUND, Text(TODO_NOT_FOUND)))
  }

  /** `DELETE /todos/:id`: drop every todo with that id and answer 204, whether or not one matched. */
  function Delete(todos: Store, id: ParsedId): (out: (Store, Response<Payload>))
    ensures out.1 == Response(NO_CONTENT, Empty)
    ensures forall i :: 0 <= i < |out.0| ==> out.0[i] in todos && !IdIs(id)(out.0[i])
    ensures forall i :: 0 <= i < |todos| && !IdIs(id)(todos[i]) ==> todos[i] in out.0
    ensures |out.0| == |todos| - JsArray.Count(todos, IdIs(id))
  {
    CountComplement(todos, id);
    (JsArray.Filter(todos, IdIsNot(id)), Response(NO_CONTENT, Empty))
  }

  lemma {:induction false} CountComplement(todos: Store, id: ParsedId)
    ensures JsArray.Count(todos, IdIsNot(id)) == |todos| - JsArray.Count(todos, IdIs(id))
  {
    if |todos| > 0 {
      CountComplement(todos[1..], id);
    }
  }

  /** Deleting from a concatenation deletes from each part: survivors keep their relative order. */
  lemma DeleteKeepsOrder(a: Store, b: Store, id: ParsedId)
    ensures Delete(a + b, id).0 == Delete(a, id).0 + Delete(b, id).0
  {
    JsArray.FilterConcat(a, b, IdIsNot(id));
  }

  /** A second delete of the same id changes nothing and answers the same. */
  lemma DeleteIdempotent(todos: Store, id: ParsedId)
    ensures Delete(Delete(todos, id).0, id) == Delete(todos, id)
  {
    JsArray.FilterIdempotent(todos, IdIsNot(id));
  }

  /** A delete that matches nothing, such as one whose id did not parse, leaves the array as it was. */
  lemma DeleteMissLeavesStore(todos: Store, id: ParsedId)
    requires forall i :: 0 <= i < |todos| ==> !IdIs(id)(todos[i])
    ensures Delete(todos, id) == (todos, Response(NO_CONTENT, Empty))
  {
    JsArray.FilterAllPass(todos, IdIsNot(id));
  }

  /**
   * Ids come from the array's length, so after deleting one todo the next
   * create reuses the id of the last-created todo if that one is still there.
   */
  lemma CreateAfterDeleteDuplicatesId(todos: Store, k: int, i: nat, body: TodoBody)
    requires JsArray.Count(todos, IdIs(Num(k))) == 1
    requires i < |todos| && todos[i].id == |todos| && k != |todos|
    ensures var after := Create(Delete(todos, Num(k)).0, body).0;
      after[|after| - 1].id == |todos| && !UniqueIds(after)
  {
  }

  /** The merge does not protect `id`: a body naming another todo's id makes two todos share it. */
  lemma {:induction false} UpdateCanDuplicateId(todos: Store, id: ParsedId, j: nat, body: TodoBody)
    requires j < |todos| && !IdIs(id)(todos[j])
    requires exists i :: 0 <= i < |todos| && IdIs(id)(todos[i])
    requires body.id == Some(todos[j].id)
    ensures !UniqueIds(Update(todos, id, body).0)
  {
    var k := JsArray.FindIndex(todos, IdIs(id));
    var after := Update(todos, id, body).0;
    assert after[k].id == after[j].id;
    if k < j {
      assert !(after[k].id != after[j].id);
    } else {
      assert !(after[j].id != after[k].id);
    }
  }

  /** A request to the `/todos` routes, with its path id and body already parsed. */
  datatype Request =
    | GetTodos
    | PostTodo(body: TodoBody)
    | PutTodo(id: ParsedId, body: TodoBody)
    | DeleteTodo(id: ParsedId)

  /** The express app's routing of one request to its handler. */
  function Handle(todos: Store, req: Request): (out: (Store, Response<Payload>))
    ensures req.GetTodos? ==> out.0 == todos
    ensures req.PostTodo? ==> |out.0| == |todos| + 1
    ensures req.PutTodo? ==> |out.0| == |todos|
    ensures req.DeleteTodo? ==> |out.0| <= |todos|
  {
    match req
    case GetTodos => List(todos)
    case PostTodo(body) => Create(todos, body)
    case PutTodo(id, body) => Update(todos, id, body)
    case DeleteTodo(id) => Delete(todos, id)
  }

  /** Starting from todos numbered 1, 2, 3, ... by position, creates and reads alone keep that numbering. */
  lemma {:induction false} CreatesNumberByPosition(todos: Store, reqs: seq<Request>)
    requires NumberedByPosition(todos)
    requires forall r :: r in reqs ==> r.GetTodos? || r.PostTodo?
    ensures NumberedByPosition(Run(todos, reqs))
    ensures UniqueIds(Run(todos, reqs))
    decreases |reqs|
  {
    if |reqs| > 0 {
      var next := Handle(todos, reqs[0]).0;
      assert reqs[0] in reqs;
      if reqs[0].PostTodo? {
        assert next == todos + [NewTodo(todos, reqs[0].body)];
      }
      assert Run(todos, reqs) == Run(next, reqs[1..]);
      assert forall r :: r in reqs[1..] ==> r in reqs;
      CreatesNumberByPosition(next, reqs[1..]);
    }
  }

  /** The array after serving the requests in order. */
  function Run(todos: Store, reqs: seq<Request>): Store
    decreases |reqs|
  {
    if |reqs| == 0 then todos else Run(Handle(todos, reqs[0]).0, reqs[1..])
  }
}
